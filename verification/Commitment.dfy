/**
 * The preimage of the attested commitment: thirteen length-prefixed parts of the key bundle, then the policy
 * bytes (`parent/src/attest_verify.rs`, `enclave/src/server/keys.rs`). An enclave without keys commits to a
 * tagged policy instead (`attestation-verify/src/policy.rs`).
 */
module Commitment {
  import opened Bytes
  import opened Policy
  import opened PolicyLayout

  datatype Bundle = Bundle(
    evmAddress: seq<u8>,
    btcCompressedPub: seq<u8>,
    btcXpub: seq<u8>,
    masterFingerprint: seq<u8>,
    accountXpubVanilla: seq<u8>,
    accountXpubColored: seq<u8>,
    evmUncompressedPub: seq<u8>,
    chainId: u64,
    bridgeContract: seq<u8>,
    rgbAssetId: seq<u8>,
    evmGasTxUncompressedPub: seq<u8>,
    evmGasTxAddress: seq<u8>,
    ccdEd25519Pub: seq<u8>)

  function Parts(b: Bundle): (parts: seq<seq<u8>>)
    ensures |parts| == 13
  {
    [b.evmAddress, b.btcCompressedPub, b.btcXpub, b.masterFingerprint, b.accountXpubVanilla, b.accountXpubColored,
     b.evmUncompressedPub, ToBE(b.chainId, 8), b.bridgeContract, b.rgbAssetId, b.evmGasTxUncompressedPub,
     b.evmGasTxAddress, b.ccdEd25519Pub]
  }

  /** Each part after its length, cast to 32 bits, and then `t`. */
  function Prefixed(parts: seq<seq<u8>>, t: seq<u8>): seq<u8> {
    if parts == [] then t else ToBE(|parts[0]| % U32, 4) + (parts[0] + Prefixed(parts[1..], t))
  }

  function Preimage(b: Bundle, policy: seq<u8>): seq<u8> { Prefixed(Parts(b), policy) }

  /** `b"utexo/attested-policy/v1\0"`. */
  const POLICY_TAG: seq<u8> := [
    0x75, 0x74, 0x65, 0x78, 0x6F, 0x2F, 0x61, 0x74, 0x74, 0x65, 0x73, 0x74, 0x65, 0x64, 0x2D, 0x70, 0x6F, 0x6C,
    0x69, 0x63, 0x79, 0x2F, 0x76, 0x31, 0x00]

  function PolicyOnlyPreimage(policy: seq<u8>): seq<u8> { POLICY_TAG + policy }

  predicate Short(parts: seq<seq<u8>>) { forall i :: 0 <= i < |parts| ==> |parts[i]| < U32 }

  method CanonicalBundle(b: Bundle) returns (out: seq<u8>)
    ensures forall policy {:trigger out + policy} :: out + policy == Preimage(b, policy)
  {
    var parts := Parts(b);
    out := [];
    for i := 0 to |parts|
      invariant out + Prefixed(parts[i..], []) == Prefixed(parts, [])
    {
      ghost var rest := Prefixed(parts[i + 1..], []);
      ghost var before := out;
      var length := ToBE(|parts[i]| % U32, 4);
      assert parts[i..][1..] == parts[i + 1..];
      out := out + length;
      out := out + parts[i];
      ConcatAssoc(before, length, parts[i] + rest);
      ConcatAssoc(before + length, parts[i], rest);
    }
    assert out == out + [];
    forall policy ensures out + policy == Preimage(b, policy) {
      PrefixedAppend(parts, [], policy);
      assert [] + policy == policy;
    }
  }

  lemma {:induction false} PrefixedAppend(parts: seq<seq<u8>>, t: seq<u8>, m: seq<u8>)
    ensures Prefixed(parts, t) + m == Prefixed(parts, t + m)
  {
    if parts != [] {
      var rest := Prefixed(parts[1..], t);
      PrefixedAppend(parts[1..], t, m);
      ConcatAssoc(ToBE(|parts[0]| % U32, 4), parts[0] + rest, m);
      ConcatAssoc(parts[0], rest, m);
    }
  }

  // ---- Where each part is ----

  /** From offset `i` on, each part after its length. */
  predicate PartsAt(x: seq<u8>, i: nat, parts: seq<seq<u8>>)
    decreases |parts|
  {
    parts == [] || (Sized(x, i, parts[0]) && PartsAt(x, i + 4 + |parts[0]|, parts[1..]))
  }

  function PartsEnd(i: nat, parts: seq<seq<u8>>): nat
    decreases |parts|
  {
    if parts == [] then i else PartsEnd(i + 4 + |parts[0]|, parts[1..])
  }

  lemma {:induction false} PrefixedLayout(x: seq<u8>, i: nat, parts: seq<seq<u8>>, t: seq<u8>)
    requires i <= |x| && x[i..] == Prefixed(parts, t)
    ensures PartsAt(x, i, parts) && PartsEnd(i, parts) <= |x| && x[PartsEnd(i, parts)..] == t
    decreases |parts|
  {
    if parts != [] {
      hide ToBE, Sized, Run, Number, Pow256;
      var rest := Prefixed(parts[1..], t);
      SizedLayout(x, i, parts[0], rest);
      PrefixedLayout(x, i + 4 + |parts[0]|, parts[1..], t);
    }
  }

  /** The thirteen parts of a preimage in order, the chain id as eight bytes, and the policy after them. */
  lemma PreimageLayout(b: Bundle, policy: seq<u8>) returns (chainId: seq<u8>)
    ensures |chainId| == 8 && FromBE(chainId) == b.chainId
    ensures var x := Preimage(b, policy);
      var parts := [
        b.evmAddress, b.btcCompressedPub, b.btcXpub, b.masterFingerprint, b.accountXpubVanilla, b.accountXpubColored,
        b.evmUncompressedPub, chainId, b.bridgeContract, b.rgbAssetId, b.evmGasTxUncompressedPub, b.evmGasTxAddress,
        b.ccdEd25519Pub];
      PartsAt(x, 0, parts) && PartsEnd(0, parts) <= |x| && x[PartsEnd(0, parts)..] == policy
  {
    chainId := ToBE(b.chainId, 8);
    PowersOf256();
    FromToBE(b.chainId, 8);
    hide ToBE, FromBE, PartsAt, PartsEnd, Prefixed;
    var x := Preimage(b, policy);
    assert x[0..] == x;
    PrefixedLayout(x, 0, Parts(b), policy);
  }

  lemma SamePart(a: seq<u8>, x: seq<u8>, b: seq<u8>, y: seq<u8>)
    requires |a| == |b| && a + x == b + y
    ensures a == b && x == y
  {
    assert (a + x)[..|a|] == a && (a + x)[|a|..] == x;
    assert (b + y)[..|a|] == b && (b + y)[|a|..] == y;
  }

  lemma SameFirst(a: seq<u8>, x: seq<u8>, b: seq<u8>, y: seq<u8>)
    requires |a| < U32 && |b| < U32 && ToBE(|a|, 4) + (a + x) == ToBE(|b|, 4) + (b + y)
    ensures a == b && x == y
  {
    hide ToBE;
    SamePart(ToBE(|a|, 4), a + x, ToBE(|b|, 4), b + y);
    PowersOf256();
    ToBEInjective(|a|, |b|, 4);
    SamePart(a, x, b, y);
  }

  /** Length-prefixed parts can be read back in one way only. */
  lemma {:induction false} PartsAreUnique(a: seq<seq<u8>>, t: seq<u8>, b: seq<seq<u8>>, u: seq<u8>)
    requires |a| == |b| && Short(a) && Short(b) && Prefixed(a, t) == Prefixed(b, u)
    ensures a == b && t == u
  {
    hide ToBE;
    if a != [] {
      SameFirst(a[0], Prefixed(a[1..], t), b[0], Prefixed(b[1..], u));
      PartsAreUnique(a[1..], t, b[1..], u);
      assert a == [a[0]] + a[1..] && b == [b[0]] + b[1..];
    }
  }

  /** The preimage determines every key of the bundle and the policy bytes. */
  lemma PreimageIsUnique(a: Bundle, p: seq<u8>, b: Bundle, q: seq<u8>)
    requires Short(Parts(a)) && Short(Parts(b)) && Preimage(a, p) == Preimage(b, q)
    ensures a == b && p == q
  {
    var s, t := Parts(a), Parts(b);
    PartsAreUnique(s, p, t, q);
    PowersOf256();
    assert s[0] == t[0] && s[1] == t[1] && s[2] == t[2] && s[3] == t[3] && s[4] == t[4] && s[5] == t[5];
    assert s[6] == t[6] && s[7] == t[7] && s[8] == t[8] && s[9] == t[9] && s[10] == t[10] && s[11] == t[11];
    assert s[12] == t[12];
    ToBEInjective(a.chainId, b.chainId, 8);
  }

  /**
   * A keyed preimage is also a policy-only preimage exactly when the first four bytes of the tag are read as the
   * length of the address and the rest of the tag starts the address.
   */
  lemma PreimagesCollideExactly(b: Bundle, p: seq<u8>)
    ensures (exists q :: Preimage(b, p) == PolicyOnlyPreimage(q)) <==>
      |b.evmAddress| % U32 == 0x75746578 && POLICY_TAG[4..] <= b.evmAddress
  {
    hide ToBE;
    var length := ToBE(|b.evmAddress| % U32, 4);
    var rest := Prefixed(Parts(b)[1..], p);
    var x := Preimage(b, p);
    assert x == length + (b.evmAddress + rest);
    TagLength();
    PowersOf256();
    var tag, tail := POLICY_TAG[..4], POLICY_TAG[4..];
    assert POLICY_TAG == tag + tail;
    forall q | x == PolicyOnlyPreimage(q)
      ensures |b.evmAddress| % U32 == 0x75746578 && tail <= b.evmAddress
    {
      ConcatAssoc(tag, tail, q);
      SamePart(length, b.evmAddress + rest, tag, tail + q);
      ToBEInjective(|b.evmAddress| % U32, 0x75746578, 4);
      assert (b.evmAddress + rest)[..21] == b.evmAddress[..21] && (tail + q)[..21] == tail;
    }
    if |b.evmAddress| % U32 == 0x75746578 && tail <= b.evmAddress {
      var q := b.evmAddress[21..] + rest;
      ConcatAssoc(tail, b.evmAddress[21..], rest);
      ConcatAssoc(tag, tail, q);
      assert x == PolicyOnlyPreimage(q);
    }
  }

  lemma TagLength()
    ensures ToBE(0x75746578, 4) == POLICY_TAG[..4] && |POLICY_TAG| == 25
  {
    hide ToBE;
    NextDigit(0, 0, 0x75);
    NextDigit(0x75, 1, 0x74);
    NextDigit(0x7574, 2, 0x65);
    NextDigit(0x757465, 3, 0x78);
    assert POLICY_TAG[..4] == [0x75, 0x74, 0x65, 0x78];
  }

  lemma NextDigit(v: nat, n: nat, d: nat)
    requires d < 0x100
    ensures ToBE(v * 0x100 + d, n + 1) == ToBE(v, n) + [d]
  {
    assert (v * 0x100 + d) / 0x100 == v && (v * 0x100 + d) % 0x100 == d;
  }

  /** With the 20-byte address of every real bundle the two preimages never meet. */
  lemma KeyedIsNotPolicyOnly(b: Bundle, p: seq<u8>, q: seq<u8>)
    requires |b.evmAddress| == 20
    ensures Preimage(b, p) != PolicyOnlyPreimage(q)
  {
    PreimagesCollideExactly(b, p);
  }
}
