/**
 * The bytes of an encoded policy, offset by offset. The numbers here are the wire contract of
 * `attestation-verify/src/policy.rs`; nothing here speaks of how the bytes are put together or read.
 */
module PolicyLayout {
  import opened Bytes
  import opened Policy
  import C = PolicyCodec

  // ---- Runs of bytes ----

  predicate Byte(b: seq<u8>, i: nat, x: u8) { i < |b| && b[i] == x }

  predicate Run(b: seq<u8>, i: nat, s: seq<u8>) { i + |s| <= |b| && b[i..i + |s|] == s }

  /** `n` bytes, most significant first. */
  predicate Number(b: seq<u8>, i: nat, n: nat, v: nat) { i + n <= |b| && FromBE(b[i..i + n]) == v }

  /** A length of four bytes, then the bytes. The length is a 32-bit number. */
  predicate Sized(b: seq<u8>, i: nat, s: seq<u8>) { Number(b, i, 4, |s| % 0x1_0000_0000) && Run(b, i + 4, s) }

  /** One byte for a presence, then the bytes if present. */
  predicate Optional(b: seq<u8>, i: nat, x: Option<seq<u8>>) {
    if x.Some? then Byte(b, i, 1) && Run(b, i + 1, x.value) else Byte(b, i, 0)
  }

  // ---- The runs of a production policy ----

  predicate TagsAt(b: seq<u8>, p: Posture) {
    && Byte(b, 0, 1) && Byte(b, 1, 1)
    && Byte(b, 2, if p.allowVanillaPsbt then 1 else 0)
    && Byte(b, 3, match p.signerRole case Combined => 0 case Mint => 1 case Burn => 2)
    && Byte(b, 4, match p.attestation case Mock => 0 case Real => 1)
    && Byte(b, 5, match p.evmSource case Disabled => 0 case RawRpc => 1 case PinnedTlsRpc => 3)
    && Byte(b, 6, match p.btcSource case SpvVerified => 1)
  }

  predicate PostureAt(b: seq<u8>, p: Posture) {
    && TagsAt(b, p)
    && Number(b, 7, 8, p.chainId)
    && Byte(b, 15, match p.bitcoinNetwork
                   case Mainnet => 0 case Testnet3 => 1 case Signet => 2
                   case Regtest => 3 case Testnet4 => 4 case SignetCustom => 5)
    && Run(b, 16, p.bridgeContract)
    && Sized(b, 36, p.rgbAssetId)
  }

  function PostureEnd(p: Posture): nat { 40 + |p.rgbAssetId| }

  predicate EvidenceAt(b: seq<u8>, i: nat, e: Evidence) {
    && Run(b, i, e.fundsInContract)
    && Byte(b, i + 20, match e.finalityTag case Latest => 0 case Safe => 1 case Finalized => 2)
    && Number(b, i + 21, 4, e.spvMinConfirmations)
    && Sized(b, i + 25, e.electrumHost)
    && TlsAt(b, i + 29 + |e.electrumHost|, e.evmRpcTls)
  }

  predicate TlsAt(b: seq<u8>, i: nat, pin: Option<TlsPin>) {
    if pin.None? then Byte(b, i, 0)
    else Byte(b, i, 1) && Sized(b, i + 1, pin.value.host) && Run(b, i + 5 + |pin.value.host|, pin.value.caSha256)
  }

  function EvidenceEnd(i: nat, e: Evidence): nat {
    i + 30 + |e.electrumHost| + if e.evmRpcTls.Some? then 36 + |e.evmRpcTls.value.host| else 0
  }

  /** `sorted` holds the allowed selectors once each, in the order of their numbers. */
  ghost predicate Sorted(sorted: seq<Selector>, g: GasRule) {
    && (forall y :: y in sorted <==> y in g.allowedSelectors)
    && forall i, j :: 0 <= i < j < |sorted| ==> FromBE(sorted[i]) < FromBE(sorted[j])
  }

  predicate GasAt(b: seq<u8>, i: nat, g: GasRule, sorted: seq<Selector>) {
    && Run(b, i, g.allowedTo)
    && Number(b, i + 20, 8, g.maxGasLimit)
    && Number(b, i + 28, 16, g.maxFeePerGas)
    && Number(b, i + 44, 16, g.maxValueWei)
    && Number(b, i + 60, 4, |sorted| % 0x1_0000_0000)
    && SelectorsAt(b, i + 64, sorted)
  }

  predicate SelectorsAt(b: seq<u8>, i: nat, sorted: seq<Selector>) {
    forall k :: 0 <= k < |sorted| ==> Run(b, i + 4 * k, sorted[k])
  }

  function GasEnd(i: nat, sorted: seq<Selector>): nat { i + 64 + 4 * |sorted| }

  predicate KmsAt(b: seq<u8>, i: nat, pin: Option<KmsPin>) {
    if pin.None? then Byte(b, i, 0) else Byte(b, i, 1) && PinAt(b, i + 1, pin.value)
  }

  predicate PinAt(b: seq<u8>, i: nat, pin: KmsPin) {
    var j := i + 4 + |pin.keyArn|;
    var k := j + 4 + |pin.region|;
    && Sized(b, i, pin.keyArn) && Sized(b, j, pin.region) && Sized(b, k, pin.seedId)
    && Optional(b, k + 4 + |pin.seedId|, pin.expectedEvmAddress)
  }

  function KmsEnd(i: nat, pin: Option<KmsPin>): nat {
    if pin.None? then i + 1
    else i + 14 + |pin.value.keyArn| + |pin.value.region| + |pin.value.seedId|
         + if pin.value.expectedEvmAddress.Some? then 20 else 0
  }

  // ---- Taking the bytes apart ----

  lemma RunAt(b: seq<u8>, i: nat, s: seq<u8>, t: seq<u8>)
    requires i <= |b| && b[i..] == s + t
    ensures Run(b, i, s) && i + |s| <= |b| && b[i + |s|..] == t
    ensures |s| == 1 ==> Byte(b, i, s[0])
  {
    SliceOfDrop(b, i, |s|);
    assert b[i..][..|s|] == s && b[i..][|s|..] == t;
    assert |s| == 1 ==> b[i] == b[i..][0];
  }

  lemma NumberAt(b: seq<u8>, i: nat, v: nat, n: nat, t: seq<u8>)
    requires i <= |b| && b[i..] == ToBE(v, n) + t && v < Pow256(n)
    ensures Number(b, i, n, v) && i + n <= |b| && b[i + n..] == t
  {
    hide ToBE, FromBE, Pow256;
    RunAt(b, i, ToBE(v, n), t);
    FromToBE(v, n);
  }

  lemma SizedLayout(b: seq<u8>, i: nat, s: seq<u8>, t: seq<u8>)
    requires i <= |b| && b[i..] == ToBE(|s| % U32, 4) + (s + t)
    ensures Sized(b, i, s) && i + 4 + |s| <= |b| && b[i + 4 + |s|..] == t
  {
    hide Number, Run, Pow256;
    PowersOf256();
    NumberAt(b, i, |s| % U32, 4, s + t);
    RunAt(b, i + 4, s, t);
  }

  lemma TextAt(b: seq<u8>, i: nat, s: Text, t: seq<u8>)
    requires i <= |b| && b[i..] == C.PutText(s, t)
    ensures Sized(b, i, s) && i + 4 + |s| <= |b| && b[i + 4 + |s|..] == t
  {
    hide Sized;
    SizedLayout(b, i, s, t);
  }

  lemma OptionalAt(b: seq<u8>, i: nat, x: Option<seq<u8>>, t: seq<u8>)
    requires i <= |b| && b[i..] == C.PutFixedOption(x, t)
    ensures var j := i + 1 + if x.Some? then |x.value| else 0;
      Optional(b, i, x) && j <= |b| && b[j..] == t
  {
    hide Run, Byte;
    if x.Some? {
      RunAt(b, i, [1], x.value + t);
      RunAt(b, i + 1, x.value, t);
    } else {
      RunAt(b, i, [0], t);
    }
  }

  lemma TagsLayout(b: seq<u8>, p: Posture, t: seq<u8>)
    requires b == [1] + ([1] + C.PutTags(p, t))
    ensures TagsAt(b, p) && 7 <= |b| && b[7..] == t
  {
    hide Run, Byte;
    var t5 := [C.BtcByte(p.btcSource)] + t;
    var t4 := [C.EvmByte(p.evmSource)] + t5;
    var t3 := [C.ModeByte(p.attestation)] + t4;
    var t2 := [C.RoleByte(p.signerRole)] + t3;
    var t1 := [C.FlagByte(p.allowVanillaPsbt)] + t2;
    assert b[0..] == b;
    RunAt(b, 0, [1], [1] + t1);
    RunAt(b, 1, [1], t1);
    RunAt(b, 2, [C.FlagByte(p.allowVanillaPsbt)], t2);
    RunAt(b, 3, [C.RoleByte(p.signerRole)], t3);
    RunAt(b, 4, [C.ModeByte(p.attestation)], t4);
    RunAt(b, 5, [C.EvmByte(p.evmSource)], t5);
    RunAt(b, 6, [C.BtcByte(p.btcSource)], t);
  }

  lemma PostureLayout(b: seq<u8>, p: Posture, t: seq<u8>)
    requires b == [1] + ([1] + C.PutPosture(p, t))
    ensures PostureAt(b, p) && PostureEnd(p) <= |b| && b[PostureEnd(p)..] == t
  {
    hide Number, Run, Byte, Sized, TagsAt, ToBE, Pow256, C.PutText, C.PutTags;
    PowersOf256();
    var t3 := C.PutText(p.rgbAssetId, t);
    var t2 := p.bridgeContract + t3;
    var t1 := [C.NetworkByte(p.bitcoinNetwork)] + t2;
    TagsLayout(b, p, ToBE(p.chainId, 8) + t1);
    NumberAt(b, 7, p.chainId, 8, t1);
    RunAt(b, 15, [C.NetworkByte(p.bitcoinNetwork)], t2);
    RunAt(b, 16, p.bridgeContract, t3);
    TextAt(b, 36, p.rgbAssetId, t);
  }

  lemma EvidenceLayout(b: seq<u8>, i: nat, e: Evidence, t: seq<u8>)
    requires i <= |b| && b[i..] == C.PutEvidence(e, t)
    ensures EvidenceAt(b, i, e) && EvidenceEnd(i, e) <= |b| && b[EvidenceEnd(i, e)..] == t
  {
    hide Number, Run, Byte, Sized, ToBE, Pow256, TlsAt, C.PutText, C.PutTlsOption;
    PowersOf256();
    var t4 := C.PutTlsOption(e.evmRpcTls, t);
    var t3 := C.PutText(e.electrumHost, t4);
    var t2 := ToBE(e.spvMinConfirmations, 4) + t3;
    RunAt(b, i, e.fundsInContract, [C.FinalityByte(e.finalityTag)] + t2);
    RunAt(b, i + 20, [C.FinalityByte(e.finalityTag)], t2);
    NumberAt(b, i + 21, e.spvMinConfirmations, 4, t3);
    TextAt(b, i + 25, e.electrumHost, t4);
    TlsLayout(b, i + 29 + |e.electrumHost|, e.evmRpcTls, t);
  }

  lemma TlsLayout(b: seq<u8>, i: nat, pin: Option<TlsPin>, t: seq<u8>)
    requires i <= |b| && b[i..] == C.PutTlsOption(pin, t)
    ensures var j := i + 1 + if pin.Some? then 36 + |pin.value.host| else 0;
      TlsAt(b, i, pin) && j <= |b| && b[j..] == t
  {
    hide Run, Byte, Sized, C.PutText;
    if pin.Some? {
      var t1 := pin.value.caSha256 + t;
      RunAt(b, i, [1], C.PutText(pin.value.host, t1));
      TextAt(b, i + 1, pin.value.host, t1);
      RunAt(b, i + 5 + |pin.value.host|, pin.value.caSha256, t);
    } else {
      RunAt(b, i, [0], t);
    }
  }

  lemma GasLayout(b: seq<u8>, i: nat, g: GasRule, t: seq<u8>) returns (sorted: seq<Selector>)
    requires i <= |b| && b[i..] == C.PutGas(g, t)
    ensures Sorted(sorted, g) && GasAt(b, i, g, sorted)
    ensures GasEnd(i, sorted) <= |b| && b[GasEnd(i, sorted)..] == t
  {
    sorted := Canonical(g.allowedSelectors);
    SortedByNumber(g);
    hide Number, Run, SelectorsAt, Sorted, ToBE, Pow256, Canonical, C.PutEach;
    PowersOf256();
    var t4 := C.PutSelectors(sorted, t);
    var t3 := ToBE(g.maxValueWei, 16) + t4;
    var t2 := ToBE(g.maxFeePerGas, 16) + t3;
    RunAt(b, i, g.allowedTo, ToBE(g.maxGasLimit, 8) + t2);
    NumberAt(b, i + 20, g.maxGasLimit, 8, t2);
    NumberAt(b, i + 28, g.maxFeePerGas, 16, t3);
    NumberAt(b, i + 44, g.maxValueWei, 16, t4);
    NumberAt(b, i + 60, |sorted| % U32, 4, C.PutEach(sorted, t));
    SelectorsLayout(b, i + 64, sorted, t);
  }

  lemma {:induction false} SelectorsLayout(b: seq<u8>, i: nat, s: seq<Selector>, t: seq<u8>)
    requires i <= |b| && b[i..] == C.PutEach(s, t)
    ensures SelectorsAt(b, i, s) && i + 4 * |s| <= |b| && b[i + 4 * |s|..] == t
    decreases |s|
  {
    if s != [] {
      RunAt(b, i, s[0], C.PutEach(s[1..], t));
      SelectorsLayout(b, i + 4, s[1..], t);
      hide Run;
      forall k | 0 <= k < |s| ensures Run(b, i + 4 * k, s[k]) {
        if k > 0 { assert s[k] == s[1..][k - 1] && Run(b, i + 4 + 4 * (k - 1), s[1..][k - 1]); }
      }
    }
  }

  lemma SortedByNumber(g: GasRule)
    ensures Sorted(Canonical(g.allowedSelectors), g)
  {
    var s := Canonical(g.allowedSelectors);
    CanonicalIsOrdered(g.allowedSelectors);
    hide Canonical, FromBE, Before;
    forall i, j | 0 <= i < j < |s| ensures FromBE(s[i]) < FromBE(s[j]) { BeforeIsNumeric(s[i], s[j]); }
  }

  lemma FourBytes(s: Selector)
    ensures var a: int, b: int, c: int, d: int := s[0], s[1], s[2], s[3];
      FromBE(s) == ((a * 256 + b) * 256 + c) * 256 + d
  {
    assert s[..3][..2][..1][..0] == [];
    assert FromBE(s[..1]) == FromBE([]) * 256 + s[0];
    assert s[..3][..2] == s[..2] && s[..2][..1] == s[..1];
    assert FromBE(s[..2]) == FromBE(s[..1]) * 256 + s[1];
    assert FromBE(s[..3]) == FromBE(s[..2]) * 256 + s[2];
  }

  lemma BeforeIsNumeric(a: Selector, b: Selector)
    requires Before(a, b)
    ensures FromBE(a) < FromBE(b)
  {
    FourBytes(a);
    FourBytes(b);
    hide FromBE;
  }

  lemma KmsLayout(b: seq<u8>, i: nat, pin: Option<KmsPin>, t: seq<u8>)
    requires i <= |b| && b[i..] == C.PutKmsOption(pin, t)
    ensures KmsAt(b, i, pin) && KmsEnd(i, pin) <= |b| && b[KmsEnd(i, pin)..] == t
  {
    hide Run, Byte, PinAt, C.PutKms;
    if pin.Some? {
      RunAt(b, i, [1], C.PutKms(pin.value, t));
      PinLayout(b, i + 1, pin.value, t);
    } else {
      RunAt(b, i, [0], t);
    }
  }

  lemma PinLayout(b: seq<u8>, i: nat, pin: KmsPin, t: seq<u8>)
    requires 1 <= i <= |b| && b[i..] == C.PutKms(pin, t)
    ensures PinAt(b, i, pin)
    ensures KmsEnd(i - 1, Some(pin)) <= |b| && b[KmsEnd(i - 1, Some(pin))..] == t
  {
    hide Sized, Optional, C.PutText, C.PutFixedOption;
    var t3 := C.PutFixedOption(pin.expectedEvmAddress, t);
    var t2 := C.PutText(pin.seedId, t3);
    var t1 := C.PutText(pin.region, t2);
    TextAt(b, i, pin.keyArn, t1);
    var j := i + 4 + |pin.keyArn|;
    TextAt(b, j, pin.region, t2);
    var k := j + 4 + |pin.region|;
    TextAt(b, k, pin.seedId, t3);
    OptionalAt(b, k + 4 + |pin.seedId|, pin.expectedEvmAddress, t);
  }

  // ---- The layout of an encoded policy ----

  /** The gas rule and what follows it to the end. */
  ghost predicate TailAt(b: seq<u8>, i: nat, p: Policy, sorted: seq<Selector>)
    requires p.Production?
  {
    var token := GasEnd(i, sorted);
    var pcr3 := KmsEnd(token + 20, p.kms);
    && Sorted(sorted, p.gas) && GasAt(b, i, p.gas, sorted)
    && Run(b, token, p.tokenContract) && KmsAt(b, token + 20, p.kms) && Optional(b, pcr3, p.clonePeerPcr3)
    && |b| == pcr3 + 1 + if p.clonePeerPcr3.Some? then 48 else 0
  }

  lemma HeadLayout(b: seq<u8>, p: Policy, t: seq<u8>)
    requires p.Production? && b == [1] + ([1] + C.PutPosture(p.posture, C.PutEvidence(p.evidence, t)))
    ensures var i := PostureEnd(p.posture);
      && PostureAt(b, p.posture) && EvidenceAt(b, i, p.evidence)
      && EvidenceEnd(i, p.evidence) <= |b| && b[EvidenceEnd(i, p.evidence)..] == t
  {
    hide PostureAt, EvidenceAt, PostureEnd, EvidenceEnd, C.PutPosture, C.PutEvidence;
    PostureLayout(b, p.posture, C.PutEvidence(p.evidence, t));
    EvidenceLayout(b, PostureEnd(p.posture), p.evidence, t);
  }

  lemma TailLayout(b: seq<u8>, i: nat, p: Policy) returns (sorted: seq<Selector>)
    requires p.Production? && i <= |b|
    requires b[i..] ==
      C.PutGas(p.gas, p.tokenContract + C.PutKmsOption(p.kms, C.PutFixedOption(p.clonePeerPcr3, [])))
    ensures TailAt(b, i, p, sorted)
  {
    hide Sorted, GasAt, Run, KmsAt, Optional, GasEnd, KmsEnd, C.PutGas, C.PutKmsOption, C.PutFixedOption;
    var t2 := C.PutFixedOption(p.clonePeerPcr3, []);
    var t1 := C.PutKmsOption(p.kms, t2);
    sorted := GasLayout(b, i, p.gas, p.tokenContract + t1);
    var token := GasEnd(i, sorted);
    RunAt(b, token, p.tokenContract, t1);
    KmsLayout(b, token + 20, p.kms, t2);
    OptionalAt(b, KmsEnd(token + 20, p.kms), p.clonePeerPcr3, []);
  }

  /** Every byte of an encoded policy: what each field is written as, where, and that nothing follows the last. */
  lemma Layout(p: Policy) returns (sorted: seq<Selector>)
    ensures p.Development? ==> C.Encode(p) == [1, 0]
    ensures p.Production? ==>
      var b, i := C.Encode(p), PostureEnd(p.posture);
      PostureAt(b, p.posture) && EvidenceAt(b, i, p.evidence) && TailAt(b, EvidenceEnd(i, p.evidence), p, sorted)
  {
    sorted := [];
    if p.Production? {
      hide PostureAt, EvidenceAt, TailAt, PostureEnd, EvidenceEnd;
      hide C.PutPosture, C.PutEvidence, C.PutGas, C.PutKmsOption, C.PutFixedOption;
      var b := C.Encode(p);
      var t := C.PutGas(p.gas, p.tokenContract + C.PutKmsOption(p.kms, C.PutFixedOption(p.clonePeerPcr3, [])));
      HeadLayout(b, p, t);
      sorted := TailLayout(b, EvidenceEnd(PostureEnd(p.posture), p.evidence), p);
    }
  }

  /** The digits of a number, most significant first. */
  lemma {:induction false} MostSignificantFirst(x: u8, s: seq<u8>)
    ensures FromBE([x] + s) == x * Pow256(|s|) + FromBE(s)
  {
    var y := [x] + s;
    if s == [] {
      assert y[..0] == [];
    } else {
      MostSignificantFirst(x, s[..|s| - 1]);
      hide Pow256;
      assert y[..|s|] == [x] + s[..|s| - 1] && y[|s|] == s[|s| - 1];
      TimesPower(x, |s|);
    }
  }

  lemma TimesPower(x: nat, n: nat)
    requires n > 0
    ensures x * Pow256(n) == x * Pow256(n - 1) * 256
  {
    var y := Pow256(n - 1);
    assert Pow256(n) == 256 * y;
    assert x * (256 * y) == x * y * 256;
  }
}
