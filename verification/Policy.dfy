/**
 * The attested security policy (`attestation-verify/src/policy.rs`): the posture that the enclave resolves at
 * boot and commits to. The fields of the production posture are grouped in consecutive runs, in wire order.
 */
module Policy {
  import opened Bytes

  const U32: nat := 0x1_0000_0000
  const U64: nat := 0x1_0000_0000_0000_0000
  const U128: nat := 0x1_0000_0000_0000_0000_0000_0000_0000_0000

  type u32 = x: int | 0 <= x < U32
  type u64 = x: int | 0 <= x < U64
  type u128 = x: int | 0 <= x < U128

  type Selector = s: seq<u8> | |s| == 4 witness [0, 0, 0, 0]
  type Address = s: seq<u8> | |s| == 20 witness seq(20, _ => 0)
  type Digest = s: seq<u8> | |s| == 32 witness seq(32, _ => 0)
  type Pcr = s: seq<u8> | |s| == 48 witness seq(48, _ => 0)

  /** The bytes of a Rust string. */
  type Text = s: seq<u8> | Utf8(s) witness []

  /** Well-formed UTF-8 (Table 3-7 of the Unicode Standard). */
  predicate Utf8(s: seq<u8>) {
    |s| == 0 ||
    (s[0] < 0x80 && Utf8(s[1..])) ||
    (|s| >= 2 && 0xC2 <= s[0] <= 0xDF && Tail(s[1]) && Utf8(s[2..])) ||
    (|s| >= 3 && ThreeBytes(s[0], s[1]) && Tail(s[2]) && Utf8(s[3..])) ||
    (|s| >= 4 && FourBytes(s[0], s[1]) && Tail(s[2]) && Tail(s[3]) && Utf8(s[4..]))
  }

  predicate Tail(x: u8) { 0x80 <= x <= 0xBF }

  predicate ThreeBytes(a: u8, b: u8) {
    0xE0 <= a <= 0xEF && Tail(b) && (a == 0xE0 ==> 0xA0 <= b) && (a == 0xED ==> b <= 0x9F)
  }

  predicate FourBytes(a: u8, b: u8) {
    0xF0 <= a <= 0xF4 && Tail(b) && (a == 0xF0 ==> 0x90 <= b) && (a == 0xF4 ==> b <= 0x8F)
  }

  datatype SignerRole = Combined | Mint | Burn
  datatype AttestationMode = Mock | Real
  datatype EvmDataSource = Disabled | RawRpc | PinnedTlsRpc
  datatype BtcDataSource = SpvVerified
  datatype BitcoinNetwork = Mainnet | Testnet3 | Signet | Regtest | Testnet4 | SignetCustom
  datatype FinalityTag = Latest | Safe | Finalized

  datatype TlsPin = TlsPin(host: Text, caSha256: Digest)
  datatype KmsPin = KmsPin(keyArn: Text, region: Text, seedId: Text, expectedEvmAddress: Option<Address>)

  datatype Posture = Posture(
    allowVanillaPsbt: bool,
    signerRole: SignerRole,
    attestation: AttestationMode,
    evmSource: EvmDataSource,
    btcSource: BtcDataSource,
    chainId: u64,
    bitcoinNetwork: BitcoinNetwork,
    bridgeContract: Address,
    rgbAssetId: Text)

  datatype Evidence = Evidence(
    fundsInContract: Address,
    finalityTag: FinalityTag,
    spvMinConfirmations: u32,
    electrumHost: Text,
    evmRpcTls: Option<TlsPin>)

  datatype GasRule = GasRule(
    allowedTo: Address,
    maxGasLimit: u64,
    maxFeePerGas: u128,
    maxValueWei: u128,
    allowedSelectors: seq<Selector>)

  datatype Policy =
    | Production(
        posture: Posture,
        evidence: Evidence,
        gas: GasRule,
        tokenContract: Address,
        kms: Option<KmsPin>,
        clonePeerPcr3: Option<Pcr>)
    | Development

  // ---- Selector lists ----

  predicate Before(a: Selector, b: Selector) {
    a[0] < b[0] || (a[0] == b[0] && (
    a[1] < b[1] || (a[1] == b[1] && (
    a[2] < b[2] || (a[2] == b[2] &&
    a[3] < b[3])))))
  }

  predicate Ordered(s: seq<Selector>) {
    forall i, j :: 0 <= i < j < |s| ==> Before(s[i], s[j])
  }

  function Inserted(x: Selector, s: seq<Selector>): seq<Selector> {
    if s == [] || Before(x, s[0]) then [x] + s
    else if x == s[0] then s
    else [s[0]] + Inserted(x, s[1..])
  }

  /** Sorted, without duplicates. */
  function Canonical(s: seq<Selector>): seq<Selector> {
    if s == [] then [] else Inserted(s[0], Canonical(s[1..]))
  }

  lemma BeforeIsTotal(a: Selector, b: Selector)
    ensures a == b || Before(a, b) || Before(b, a)
  {
    assert a == [a[0], a[1], a[2], a[3]] && b == [b[0], b[1], b[2], b[3]];
  }

  lemma {:induction false} InsertedIsOrdered(x: Selector, s: seq<Selector>)
    requires Ordered(s)
    ensures Ordered(Inserted(x, s))
    ensures forall y :: y in Inserted(x, s) <==> y == x || y in s
  {
    if s != [] && !Before(x, s[0]) && x != s[0] {
      BeforeIsTotal(x, s[0]);
      InsertedIsOrdered(x, s[1..]);
      var rest := Inserted(x, s[1..]);
      assert forall y :: y in rest ==> Before(s[0], y) by {
        assert forall y :: y in s[1..] ==> Before(s[0], y);
      }
      assert s == [s[0]] + s[1..];
    }
  }

  lemma {:induction false} CanonicalIsOrdered(s: seq<Selector>)
    ensures Ordered(Canonical(s))
    ensures forall y :: y in Canonical(s) <==> y in s
  {
    if s != [] {
      CanonicalIsOrdered(s[1..]);
      InsertedIsOrdered(s[0], Canonical(s[1..]));
    }
  }

  /** An ordered list is the only ordered list of its selectors. */
  lemma {:induction false} OrderedIsUnique(a: seq<Selector>, b: seq<Selector>)
    requires Ordered(a) && Ordered(b) && forall y :: y in a <==> y in b
    ensures a == b
  {
    assert a != [] ==> a[0] in b;
    assert b != [] ==> b[0] in a;
    if a != [] {
      var c, d := a[1..], b[1..];
      assert a == [a[0]] + c && b == [b[0]] + d;
      assert a[0] !in c && b[0] !in d;
      forall y ensures y in c <==> y in d {
        assert y in a <==> y == a[0] || y in c;
        assert y in b <==> y == b[0] || y in d;
      }
      OrderedIsUnique(c, d);
    }
  }

  /** The canonical list depends on the set of selectors alone, and is the list itself when that is ordered. */
  lemma {:induction false} CanonicalIsUnique(a: seq<Selector>, b: seq<Selector>)
    ensures Canonical(a) == Canonical(b) <==> (forall y :: y in a <==> y in b)
    ensures Canonical(a) == a <==> Ordered(a)
  {
    CanonicalIsOrdered(a);
    CanonicalIsOrdered(b);
    if forall y :: y in a <==> y in b { OrderedIsUnique(Canonical(a), Canonical(b)); }
    if Ordered(a) { OrderedIsUnique(Canonical(a), a); }
  }
}
