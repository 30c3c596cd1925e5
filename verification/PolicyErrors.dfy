/** Which error refuses which bytes of a policy, byte by byte (`attestation-verify/src/policy.rs`). */
module PolicyErrors {
  import opened Bytes
  import opened Policy
  import C = PolicyCodec

  // ---- The fixed bytes at the front ----

  /** The values that the byte at index `i` of a production policy may have. */
  predicate Allowed(i: nat, x: u8) {
    match i
    case 2 => x == 0 || x == 1
    case 3 => x == 0 || x == 1 || x == 2
    case 4 => x == 0 || x == 1
    case 5 => x == 0 || x == 1 || x == 3
    case 6 => x == 1
    case 15 => x == 0 || x == 1 || x == 2 || x == 3 || x == 4 || x == 5
    case _ => true
  }

  function ErrorAt(i: nat): C.Error {
    match i
    case 2 => C.UnknownPresenceByte
    case 3 => C.UnknownSignerRole
    case 4 => C.UnknownAttestationMode
    case 5 => C.UnknownEvmDataSource
    case 6 => C.UnknownBtcDataSource
    case _ => C.UnknownBitcoinNetwork
  }

  /** The bytes say production, and those from index 2 up to `n` are there and allowed. */
  predicate Reaches(b: seq<u8>, n: nat) {
    2 <= n <= |b| && b[0] == 1 && b[1] == 1 && forall i :: 2 <= i < n ==> Allowed(i, b[i])
  }

  lemma ByteAt(b: seq<u8>, i: nat)
    requires i <= |b|
    ensures C.ReadByte(b[i..]) == if i < |b| then Ok((b[i], b[i + 1..])) else Err(C.Truncated)
    ensures C.ReadFlag(b[i..]) == if i == |b| then Err(C.Truncated)
      else if b[i] == 0 then Ok((false, b[i + 1..]))
      else if b[i] == 1 then Ok((true, b[i + 1..])) else Err(C.UnknownPresenceByte)
  {
    if i < |b| { assert b[i..][1..] == b[i + 1..]; }
  }

  lemma NumberAt(b: seq<u8>, i: nat, n: nat)
    requires i <= |b|
    ensures C.ReadNumber(b[i..], n) == if i + n <= |b| then Ok((FromBE(b[i..i + n]), b[i + n..])) else Err(C.Truncated)
  {
    hide FromBE;
    if i + n <= |b| {
      assert b[i..][..n] == b[i..i + n] && b[i..][n..] == b[i + n..];
    }
  }

  lemma TagErrors(b: seq<u8>, n: nat)
    requires 2 <= n <= 6 && Reaches(b, n)
    ensures n == |b| ==> C.ReadPosture(b[2..]) == Err(C.Truncated)
    ensures n < |b| && !Allowed(n, b[n]) ==> C.ReadPosture(b[2..]) == Err(ErrorAt(n))
  {
    hide C.ReadByte, C.ReadFlag, C.ReadNumber, C.Take, C.ReadText, C.NetworkOf;
    ByteAt(b, 2);
    if n > 2 { ByteAt(b, 3); }
    if n > 3 { ByteAt(b, 4); }
    if n > 4 { ByteAt(b, 5); }
    if n > 5 { ByteAt(b, 6); }
  }

  /** What is left of the posture after its five tags. */
  lemma NumberErrors(b: seq<u8>, n: nat)
    requires 7 <= n <= 15 && Reaches(b, n)
    ensures n == |b| ==> C.ReadPosture(b[2..]) == Err(C.Truncated)
    ensures n == 15 < |b| && b[15] > 5 ==> C.ReadPosture(b[2..]) == Err(C.UnknownBitcoinNetwork)
  {
    TagsAreKnown(b, n);
    hide C.ReadByte, C.ReadFlag, C.ReadNumber, C.Take, C.ReadText, C.RoleOf, C.ModeOf, C.EvmOf, C.BtcOf, Reaches;
    ByteAt(b, 2);
    ByteAt(b, 3);
    ByteAt(b, 4);
    ByteAt(b, 5);
    ByteAt(b, 6);
    NumberAt(b, 7, 8);
    if n == 15 { ByteAt(b, 15); }
  }

  lemma TagsAreKnown(b: seq<u8>, n: nat)
    requires 7 <= n && Reaches(b, n)
    ensures n <= |b| && (b[2] == 0 || b[2] == 1)
    ensures C.RoleOf(b[3]).Ok? && C.ModeOf(b[4]).Ok? && C.EvmOf(b[5]).Ok? && C.BtcOf(b[6]).Ok?
  {
    assert Allowed(2, b[2]) && Allowed(3, b[3]) && Allowed(4, b[4]) && Allowed(5, b[5]) && Allowed(6, b[6]);
  }

  /** The posture is refused at its first byte that is missing or not allowed. */
  lemma PostureErrors(b: seq<u8>, n: nat)
    requires 2 <= n <= 15 && Reaches(b, n)
    ensures n == |b| ==> C.ReadPosture(b[2..]) == Err(C.Truncated)
    ensures n < |b| && !Allowed(n, b[n]) ==> C.ReadPosture(b[2..]) == Err(ErrorAt(n))
  {
    hide C.ReadPosture, Reaches;
    if n <= 6 { TagErrors(b, n); } else { NumberErrors(b, n); }
  }

  lemma HeadErrors(b: seq<u8>, n: nat)
    ensures b == [] || b == [1] ==> C.Decode(b) == Err(C.Truncated)
    ensures |b| > 0 && b[0] != 1 ==> C.Decode(b) == Err(C.UnknownVersion)
    ensures |b| > 1 && b[0] == 1 && b[1] > 1 ==> C.Decode(b) == Err(C.UnknownKind)
    ensures [1, 0] <= b ==> C.Decode(b) == if |b| == 2 then Ok(Development) else Err(C.TrailingBytes)
    ensures n <= 15 && Reaches(b, n) && n == |b| ==> C.Decode(b) == Err(C.Truncated)
    ensures n <= 15 && Reaches(b, n) && n < |b| && !Allowed(n, b[n]) ==> C.Decode(b) == Err(ErrorAt(n))
  {
    hide C.ReadByte, C.ReadPosture, Reaches, Allowed;
    assert b[0..] == b;
    ByteAt(b, 0);
    if |b| > 0 { ByteAt(b, 1); }
    if n <= 15 && Reaches(b, n) {
      ReachesProduction(b, n);
      PostureErrors(b, n);
    }
  }

  lemma ReachesProduction(b: seq<u8>, n: nat)
    requires Reaches(b, n)
    ensures 2 <= n <= |b| && b[0] == 1 && b[1] == 1
  {
  }

  // ---- The runs of variable length ----

  /** A string is refused when it is short, and then when it is not UTF-8. */
  lemma TextErrors(s: seq<u8>, t: seq<u8>)
    requires |s| < 0x1_0000_0000
    ensures C.ReadText(ToBE(|s|, 4) + (s + t)) == if Utf8(s) then Ok((s, t)) else Err(C.NotUtf8)
    ensures forall k :: 0 <= k < |s| ==> C.ReadText(ToBE(|s|, 4) + s[..k]) == Err(C.Truncated)
  {
    hide ToBE, FromBE, Utf8, Pow256;
    PowersOf256();
    C.NumberPut(|s|, 4, s + t);
    C.TakePut(s, t);
    forall k | 0 <= k < |s| ensures C.ReadText(ToBE(|s|, 4) + s[..k]) == Err(C.Truncated) {
      C.NumberPut(|s|, 4, s[..k]);
    }
  }

  /** A finality byte is 0, 1 or 2. */
  lemma FinalityErrors(address: Address, x: u8, t: seq<u8>)
    requires x > 2
    ensures C.ReadEvidence(address + ([x] + t)) == Err(C.UnknownFinalityTag)
  {
    hide C.Take, C.ReadByte;
    C.TakePut(address, [x] + t);
    C.BytePut(x, t);
  }

  function Flat(s: seq<Selector>): seq<u8> { if s == [] then [] else s[0] + Flat(s[1..]) }

  /** A list of selectors is read exactly if each stands before the next, and is refused otherwise. */
  lemma SelectorErrors(s: seq<Selector>, t: seq<u8>)
    requires |s| < 0x1_0000_0000
    ensures C.ReadSelectors(ToBE(|s|, 4) + (Flat(s) + t)) ==
      if forall i :: 0 < i < |s| ==> Before(s[i - 1], s[i]) then Ok((s, t)) else Err(C.SelectorsNotOrdered)
  {
    hide ToBE, FromBE, Pow256, Before;
    PowersOf256();
    C.NumberPut(|s|, 4, Flat(s) + t);
    EachErrors([], s, t);
    assert [] + s == s;
  }

  predicate Climbs(done: seq<Selector>, s: seq<Selector>) {
    && (done != [] && s != [] ==> Before(done[|done| - 1], s[0]))
    && forall i :: 0 < i < |s| ==> Before(s[i - 1], s[i])
  }

  lemma {:induction false} EachErrors(done: seq<Selector>, s: seq<Selector>, t: seq<u8>)
    ensures C.ReadEach(Flat(s) + t, |s|, done) ==
      if Climbs(done, s) then Ok((done + s, t)) else Err(C.SelectorsNotOrdered)
    decreases |s|
  {
    hide Before;
    if s == [] {
      assert Flat(s) + t == t && done + s == done;
    } else {
      var rest := Flat(s[1..]) + t;
      ConcatAssoc(s[0], Flat(s[1..]), t);
      C.TakePut(s[0], rest);
      EachErrors(done + [s[0]], s[1..], t);
      FirstClimbs(done, s);
      assert done + [s[0]] + s[1..] == done + s;
    }
  }

  lemma FirstClimbs(done: seq<Selector>, s: seq<Selector>)
    requires s != []
    ensures Climbs(done, s) <==>
      (done != [] ==> Before(done[|done| - 1], s[0])) && Climbs(done + [s[0]], s[1..])
  {
    hide Before;
    var u := s[1..];
    assert forall i :: 0 < i < |u| ==> u[i - 1] == s[i] && u[i] == s[i + 1];
    if Climbs(done + [s[0]], u) {
      forall i | 0 < i < |s| ensures Before(s[i - 1], s[i]) {
        if i == 1 { assert u[0] == s[1]; } else { assert s[i - 1] == u[i - 2] && s[i] == u[i - 1]; }
      }
    }
  }
}
