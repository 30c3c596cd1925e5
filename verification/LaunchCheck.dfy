/**
 * The launch check compares the policy an enclave attests with the expected one, field by field
 * (`parent/src/launch_check.rs`). Values are compared as printed, so it rests on how they print.
 */
module LaunchCheck {
  import opened Bytes
  import opened Policy
  import C = PolicyCodec
  import PolicyWire
  import opened Strings

  /** A field name and the value printed for it, as bytes. */
  type Entry = (string, seq<u8>)

  // ---- Printing ----

  function Decimal(n: nat): seq<u8> {
    if n < 10 then [48 + n] else Decimal(n / 10) + [48 + n % 10]
  }

  function HexDigit(x: nat): u8
    requires x < 16
  {
    if x < 10 then 48 + x else 87 + x
  }

  function HexDigits(b: seq<u8>): seq<u8> {
    if b == [] then [] else [HexDigit(b[0] / 16), HexDigit(b[0] % 16)] + HexDigits(b[1..])
  }

  function Hex(b: seq<u8>): seq<u8> { Ascii("0x") + HexDigits(b) }

  function Joined(s: seq<Selector>): seq<u8> {
    if s == [] then []
    else if |s| == 1 then Hex(s[0])
    else Hex(s[0]) + (Ascii(",") + Joined(s[1..]))
  }

  function Presence(p: bool): seq<u8> { if p then Ascii("present") else Ascii("absent") }

  function BoolText(b: bool): seq<u8> { if b then Ascii("true") else Ascii("false") }

  function RoleText(r: SignerRole): seq<u8> {
    match r case Combined => Ascii("Combined") case Mint => Ascii("Mint") case Burn => Ascii("Burn")
  }

  function ModeText(m: AttestationMode): seq<u8> { match m case Mock => Ascii("Mock") case Real => Ascii("Real") }

  function EvmText(e: EvmDataSource): seq<u8> {
    match e
    case Disabled => Ascii("Disabled") case RawRpc => Ascii("RawRpc") case PinnedTlsRpc => Ascii("PinnedTlsRpc")
  }

  function NetworkText(n: BitcoinNetwork): seq<u8> {
    match n
    case Mainnet => Ascii("Mainnet") case Testnet3 => Ascii("Testnet3") case Signet => Ascii("Signet")
    case Regtest => Ascii("Regtest") case Testnet4 => Ascii("Testnet4") case SignetCustom => Ascii("SignetCustom")
  }

  function FinalityText(f: FinalityTag): seq<u8> {
    match f case Latest => Ascii("latest") case Safe => Ascii("safe") case Finalized => Ascii("finalized")
  }

  function AddressText(a: Option<Address>): seq<u8> { if a.Some? then Hex(a.value) else Ascii("none") }

  function FromDecimal(s: seq<u8>): int {
    if s == [] then 0 else FromDecimal(s[..|s| - 1]) * 10 + s[|s| - 1] - 48
  }

  lemma {:induction false} DecimalReadsBack(n: nat)
    ensures FromDecimal(Decimal(n)) == n
  {
    var s := Decimal(n);
    if n < 10 {
      assert s[..0] == [];
    } else {
      DecimalReadsBack(n / 10);
      assert s[..|s| - 1] == Decimal(n / 10);
    }
  }

  lemma DecimalIsInjective(m: nat, n: nat)
    requires Decimal(m) == Decimal(n)
    ensures m == n
  {
    DecimalReadsBack(m);
    DecimalReadsBack(n);
  }

  lemma {:induction false} HexLength(b: seq<u8>)
    ensures |HexDigits(b)| == 2 * |b| && |Hex(b)| == 2 * |b| + 2
  {
    if b != [] { HexLength(b[1..]); }
  }

  lemma {:induction false} HexDigitsInjective(a: seq<u8>, b: seq<u8>)
    requires HexDigits(a) == HexDigits(b)
    ensures a == b
  {
    HexLength(a);
    HexLength(b);
    if a != [] {
      var s, t := HexDigits(a), HexDigits(b);
      assert s[0] == HexDigit(a[0] / 16) && s[1] == HexDigit(a[0] % 16);
      assert t[0] == HexDigit(b[0] / 16) && t[1] == HexDigit(b[0] % 16);
      assert s[2..] == HexDigits(a[1..]) && t[2..] == HexDigits(b[1..]);
      HexDigitsInjective(a[1..], b[1..]);
      assert a == [a[0]] + a[1..] && b == [b[0]] + b[1..];
    }
  }

  lemma HexIsInjective(a: seq<u8>, b: seq<u8>)
    requires Hex(a) == Hex(b)
    ensures a == b
  {
    assert Hex(a)[2..] == HexDigits(a) && Hex(b)[2..] == HexDigits(b);
    HexDigitsInjective(a, b);
  }

  lemma {:induction false} JoinedLength(s: seq<Selector>)
    ensures |Joined(s)| == if s == [] then 0 else 11 * |s| - 1
  {
    if s != [] {
      HexLength(s[0]);
      JoinedLength(s[1..]);
    }
  }

  lemma JoinedParts(s: seq<Selector>)
    requires s != []
    ensures |Joined(s)| >= 10 && Joined(s)[..10] == Hex(s[0])
    ensures Joined(s[1..]) == if |s| == 1 then [] else Joined(s)[if |Joined(s)| >= 11 then 11 else 10..]
  {
    hide Hex, Ascii;
    HexLength(s[0]);
    assert |Ascii(",")| == 1 by { CommaLength(); }
    if |s| > 1 {
      var tail := Ascii(",") + Joined(s[1..]);
      assert Joined(s) == Hex(s[0]) + tail;
      assert Joined(s)[11..] == tail[1..] == Joined(s[1..]);
    }
  }

  lemma CommaLength()
    ensures |Ascii(",")| == 1
  {
  }

  lemma {:induction false} JoinedIsInjective(a: seq<Selector>, b: seq<Selector>)
    requires Joined(a) == Joined(b)
    ensures a == b
  {
    hide Joined, Hex;
    JoinedLength(a);
    JoinedLength(b);
    if a != [] {
      JoinedParts(a);
      JoinedParts(b);
      HexIsInjective(a[0], b[0]);
      JoinedIsInjective(a[1..], b[1..]);
      assert a == [a[0]] + a[1..] && b == [b[0]] + b[1..];
    }
  }

  lemma AddressTextIsInjective(a: Option<Address>, b: Option<Address>)
    requires AddressText(a) == AddressText(b)
    ensures a == b
  {
    if a.Some? { HexLength(a.value); }
    if b.Some? { HexLength(b.value); }
    if a.Some? && b.Some? { HexIsInjective(a.value, b.value); }
  }

  /** The printed names of each enumeration differ. */
  lemma NamesDiffer()
    ensures forall a, b :: RoleText(a) == RoleText(b) ==> a == b
    ensures forall a, b :: ModeText(a) == ModeText(b) ==> a == b
    ensures forall a, b :: EvmText(a) == EvmText(b) ==> a == b
    ensures forall a, b :: FinalityText(a) == FinalityText(b) ==> a == b
    ensures forall a, b :: BoolText(a) == BoolText(b) ==> a == b
    ensures forall a, b :: Presence(a) == Presence(b) ==> a == b
  {
    assert Ascii("Mint")[0] != Ascii("Burn")[0];
    assert Ascii("Mock")[0] != Ascii("Real")[0];
  }

  lemma NetworkNamesDiffer()
    ensures forall a, b :: NetworkText(a) == NetworkText(b) ==> a == b
  {
    assert Ascii("Mainnet")[0] != Ascii("Regtest")[0];
    assert Ascii("Testnet3")[7] != Ascii("Testnet4")[7];
  }

  // ---- The fields of a policy ----

  function PostureFields(p: Posture): seq<Entry> {
    [("policy", Ascii("Production")),
     ("allow_vanilla_psbt", BoolText(p.allowVanillaPsbt)),
     ("signer_role", RoleText(p.signerRole)),
     ("attestation", ModeText(p.attestation)),
     ("evm_source", EvmText(p.evmSource)),
     ("btc_source", Ascii("SpvVerified")),
     ("chain_id", Decimal(p.chainId)),
     ("bitcoin_network", NetworkText(p.bitcoinNetwork)),
     ("bridge_contract", Hex(p.bridgeContract)),
     ("rgb_asset_id", p.rgbAssetId)]
  }

  function EvidenceFields(e: Evidence): seq<Entry> {
    [("funds_in_contract", Hex(e.fundsInContract)),
     ("evm_finality_tag", FinalityText(e.finalityTag)),
     ("spv_min_confirmations", Decimal(e.spvMinConfirmations)),
     ("electrum_host", e.electrumHost),
     ("evm_rpc_tls", Presence(e.evmRpcTls.Some?))]
  }

  function TlsFields(pin: Option<TlsPin>): seq<Entry> {
    if pin.None? then [] else
    [("evm_rpc_tls.host", pin.value.host),
     ("evm_rpc_tls.ca_sha256", Hex(pin.value.caSha256))]
  }

  function GasFields(g: GasRule): seq<Entry> {
    [("gas_tx_allowed_to", Hex(g.allowedTo)),
     ("gas_tx_max_gas_limit", Decimal(g.maxGasLimit)),
     ("gas_tx_max_fee_per_gas", Decimal(g.maxFeePerGas)),
     ("gas_tx_max_value_wei", Decimal(g.maxValueWei)),
     ("gas_tx_allowed_selectors", Joined(Canonical(g.allowedSelectors)))]
  }

  function TokenFields(token: Address, kms: Option<KmsPin>): seq<Entry> {
    [("token_contract", Hex(token)), ("kms", Presence(kms.Some?))]
  }

  function KmsFields(pin: Option<KmsPin>): seq<Entry> {
    if pin.None? then [] else
    [("kms.key_arn", pin.value.keyArn),
     ("kms.region", pin.value.region),
     ("kms.seed_id", pin.value.seedId),
     ("kms.expected_evm_address", AddressText(pin.value.expectedEvmAddress))]
  }

  function PcrFields(pcr: Option<Pcr>): seq<Entry> {
    [("clone_peer_pcr3", Presence(pcr.Some?))] +
    if pcr.Some? then [("clone_peer_pcr3.value", Hex(pcr.value))] else []
  }

  function FromKms(p: Policy): seq<Entry>
    requires p.Production?
  {
    KmsFields(p.kms) + PcrFields(p.clonePeerPcr3)
  }

  function FromGas(p: Policy): seq<Entry>
    requires p.Production?
  {
    GasFields(p.gas) + (TokenFields(p.tokenContract, p.kms) + FromKms(p))
  }

  function FromTls(p: Policy): seq<Entry>
    requires p.Production?
  {
    TlsFields(p.evidence.evmRpcTls) + FromGas(p)
  }

  function Fields(p: Policy): seq<Entry> {
    if p.Development? then [("policy", Ascii("Development"))]
    else PostureFields(p.posture) + (EvidenceFields(p.evidence) + FromTls(p))
  }

  // ---- Comparing two lists value by value ----

  function Shorter(a: seq<Entry>, b: seq<Entry>): nat { if |a| < |b| then |a| else |b| }

  /** The values agree before index `k`. */
  predicate AgreeTo(a: seq<Entry>, b: seq<Entry>, k: nat)
    requires k <= Shorter(a, b)
  {
    forall i :: 0 <= i < k ==> a[i].1 == b[i].1
  }

  predicate Agree(a: seq<Entry>, b: seq<Entry>) { AgreeTo(a, b, Shorter(a, b)) }

  /** Up to and with the first value that differs, the two lists hold the same fields. */
  predicate Aligned(a: seq<Entry>, b: seq<Entry>) {
    forall k :: 0 <= k < Shorter(a, b) && AgreeTo(a, b, k) ==> a[k].0 == b[k].0
  }

  lemma AgreeToAppend(a: seq<Entry>, b: seq<Entry>, c: seq<Entry>, d: seq<Entry>, k: nat)
    requires |a| == |b| && k <= Shorter(a + c, b + d)
    ensures k <= |a| ==> (AgreeTo(a + c, b + d, k) <==> AgreeTo(a, b, k))
    ensures k >= |a| ==> (AgreeTo(a + c, b + d, k) <==> Agree(a, b) && AgreeTo(c, d, k - |a|))
  {
    assert forall i :: 0 <= i < |a| ==> (a + c)[i] == a[i] && (b + d)[i] == b[i];
    if k >= |a| {
      assert forall i :: 0 <= i < k - |a| ==> (a + c)[|a| + i] == c[i] && (b + d)[|a| + i] == d[i];
      assert forall i :: |a| <= i < k ==> (a + c)[i] == c[i - |a|] && (b + d)[i] == d[i - |a|];
    }
  }

  lemma AgreeAppend(a: seq<Entry>, b: seq<Entry>, c: seq<Entry>, d: seq<Entry>)
    requires |a| == |b|
    ensures Agree(a + c, b + d) <==> Agree(a, b) && Agree(c, d)
  {
    AgreeToAppend(a, b, c, d, Shorter(a + c, b + d));
  }

  lemma AlignedAppend(a: seq<Entry>, b: seq<Entry>, c: seq<Entry>, d: seq<Entry>)
    requires |a| == |b| && Aligned(a, b) && (Agree(a, b) ==> Aligned(c, d))
    ensures Aligned(a + c, b + d)
  {
    hide AgreeTo;
    forall k | 0 <= k < Shorter(a + c, b + d) && AgreeTo(a + c, b + d, k) ensures (a + c)[k].0 == (b + d)[k].0 {
      AgreeToAppend(a, b, c, d, k);
    }
  }

  lemma PostureAgrees(p: Posture, q: Posture)
    ensures Aligned(PostureFields(p), PostureFields(q))
    ensures Agree(PostureFields(p), PostureFields(q)) ==> p == q
  {
    hide Ascii, BoolText, RoleText, ModeText, EvmText, NetworkText, Decimal, Hex;
    var a, b := PostureFields(p), PostureFields(q);
    if Agree(a, b) {
      NamesDiffer();
      NetworkNamesDiffer();
      assert a[1].1 == b[1].1 && a[2].1 == b[2].1 && a[3].1 == b[3].1 && a[4].1 == b[4].1;
      assert a[6].1 == b[6].1 && a[7].1 == b[7].1 && a[8].1 == b[8].1 && a[9].1 == b[9].1;
      DecimalIsInjective(p.chainId, q.chainId);
      HexIsInjective(p.bridgeContract, q.bridgeContract);
      assert p.btcSource == SpvVerified && q.btcSource == SpvVerified;
    }
  }

  lemma EvidenceAgrees(e: Evidence, f: Evidence)
    ensures Aligned(EvidenceFields(e), EvidenceFields(f))
    ensures Agree(EvidenceFields(e), EvidenceFields(f)) ==>
      e.evmRpcTls.Some? == f.evmRpcTls.Some? && e.(evmRpcTls := None) == f.(evmRpcTls := None)
  {
    hide Ascii, FinalityText, Decimal, Hex, Presence;
    var a, b := EvidenceFields(e), EvidenceFields(f);
    if Agree(a, b) {
      NamesDiffer();
      assert a[0].1 == b[0].1 && a[1].1 == b[1].1 && a[2].1 == b[2].1 && a[3].1 == b[3].1 && a[4].1 == b[4].1;
      DecimalIsInjective(e.spvMinConfirmations, f.spvMinConfirmations);
      HexIsInjective(e.fundsInContract, f.fundsInContract);
    }
  }

  lemma TlsAgrees(a: Option<TlsPin>, b: Option<TlsPin>)
    requires a.Some? == b.Some?
    ensures |TlsFields(a)| == |TlsFields(b)| && Aligned(TlsFields(a), TlsFields(b))
    ensures Agree(TlsFields(a), TlsFields(b)) ==> a == b
  {
    hide Hex;
    if a.Some? && Agree(TlsFields(a), TlsFields(b)) {
      assert TlsFields(a)[0].1 == TlsFields(b)[0].1 && TlsFields(a)[1].1 == TlsFields(b)[1].1;
      HexIsInjective(a.value.caSha256, b.value.caSha256);
    }
  }

  lemma GasAgrees(g: GasRule, h: GasRule)
    ensures Aligned(GasFields(g), GasFields(h))
    ensures Agree(GasFields(g), GasFields(h)) ==> C.CanonicalGas(g) == C.CanonicalGas(h)
  {
    hide Hex, Decimal, Joined, Canonical;
    var a, b := GasFields(g), GasFields(h);
    if Agree(a, b) {
      assert a[0].1 == b[0].1 && a[1].1 == b[1].1 && a[2].1 == b[2].1 && a[3].1 == b[3].1 && a[4].1 == b[4].1;
      HexIsInjective(g.allowedTo, h.allowedTo);
      DecimalIsInjective(g.maxGasLimit, h.maxGasLimit);
      DecimalIsInjective(g.maxFeePerGas, h.maxFeePerGas);
      DecimalIsInjective(g.maxValueWei, h.maxValueWei);
      JoinedIsInjective(Canonical(g.allowedSelectors), Canonical(h.allowedSelectors));
    }
  }

  lemma TokenAgrees(t: Address, a: Option<KmsPin>, u: Address, b: Option<KmsPin>)
    ensures Aligned(TokenFields(t, a), TokenFields(u, b))
    ensures Agree(TokenFields(t, a), TokenFields(u, b)) ==> t == u && a.Some? == b.Some?
  {
    hide Hex, Presence;
    if Agree(TokenFields(t, a), TokenFields(u, b)) {
      NamesDiffer();
      assert TokenFields(t, a)[0].1 == TokenFields(u, b)[0].1 && TokenFields(t, a)[1].1 == TokenFields(u, b)[1].1;
      HexIsInjective(t, u);
    }
  }

  lemma KmsAgrees(a: Option<KmsPin>, b: Option<KmsPin>)
    requires a.Some? == b.Some?
    ensures |KmsFields(a)| == |KmsFields(b)| && Aligned(KmsFields(a), KmsFields(b))
    ensures Agree(KmsFields(a), KmsFields(b)) ==> a == b
  {
    hide AddressText;
    if a.Some? && Agree(KmsFields(a), KmsFields(b)) {
      var s, t := KmsFields(a), KmsFields(b);
      assert s[0].1 == t[0].1 && s[1].1 == t[1].1 && s[2].1 == t[2].1 && s[3].1 == t[3].1;
      AddressTextIsInjective(a.value.expectedEvmAddress, b.value.expectedEvmAddress);
    }
  }

  lemma PcrAgrees(a: Option<Pcr>, b: Option<Pcr>)
    ensures Aligned(PcrFields(a), PcrFields(b))
    ensures Agree(PcrFields(a), PcrFields(b)) ==> a == b
  {
    hide Hex, Presence;
    var s, t := PcrFields(a), PcrFields(b);
    NamesDiffer();
    if AgreeTo(s, t, 1) {
      assert s[0].1 == t[0].1;
      assert a.Some? == b.Some?;
    }
    if Agree(s, t) && a.Some? {
      assert s[0].1 == t[0].1 && s[1].1 == t[1].1;
      HexIsInjective(a.value, b.value);
    }
  }

  lemma SameList(a: seq<Entry>)
    ensures Aligned(a, a) && Agree(a, a)
  {
  }

  lemma KindsDiffer(p: Policy, q: Policy)
    requires p.Development? || q.Development?
    requires p != q
    ensures Aligned(Fields(p), Fields(q)) && !Agree(Fields(p), Fields(q))
  {
    assert Ascii("Development")[0] != Ascii("Production")[0];
    assert Fields(p)[0].1 != Fields(q)[0].1;
    assert Shorter(Fields(p), Fields(q)) == 1;
  }

  lemma KmsDecides(p: Policy, q: Policy)
    requires p.Production? && q.Production? && p.kms.Some? == q.kms.Some?
    ensures Aligned(FromKms(p), FromKms(q))
    ensures Agree(FromKms(p), FromKms(q)) ==> p.kms == q.kms && p.clonePeerPcr3 == q.clonePeerPcr3
  {
    hide Aligned, Agree, KmsFields, PcrFields;
    KmsAgrees(p.kms, q.kms);
    PcrAgrees(p.clonePeerPcr3, q.clonePeerPcr3);
    AlignedAppend(KmsFields(p.kms), KmsFields(q.kms), PcrFields(p.clonePeerPcr3), PcrFields(q.clonePeerPcr3));
    AgreeAppend(KmsFields(p.kms), KmsFields(q.kms), PcrFields(p.clonePeerPcr3), PcrFields(q.clonePeerPcr3));
  }

  lemma GasDecides(p: Policy, q: Policy)
    requires p.Production? && q.Production?
    ensures Aligned(FromGas(p), FromGas(q))
    ensures Agree(FromGas(p), FromGas(q)) ==>
      && C.CanonicalGas(p.gas) == C.CanonicalGas(q.gas) && p.tokenContract == q.tokenContract
      && p.kms == q.kms && p.clonePeerPcr3 == q.clonePeerPcr3
  {
    hide Aligned, Agree, FromKms, C.CanonicalGas;
    var a, b := TokenFields(p.tokenContract, p.kms), TokenFields(q.tokenContract, q.kms);
    TokenAgrees(p.tokenContract, p.kms, q.tokenContract, q.kms);
    if Agree(a, b) { KmsDecides(p, q); }
    AlignedAppend(a, b, FromKms(p), FromKms(q));
    AgreeAppend(a, b, FromKms(p), FromKms(q));
    GasAgrees(p.gas, q.gas);
    AlignedAppend(GasFields(p.gas), GasFields(q.gas), a + FromKms(p), b + FromKms(q));
    AgreeAppend(GasFields(p.gas), GasFields(q.gas), a + FromKms(p), b + FromKms(q));
  }

  lemma TlsDecides(p: Policy, q: Policy)
    requires p.Production? && q.Production? && p.evidence.evmRpcTls.Some? == q.evidence.evmRpcTls.Some?
    ensures Aligned(FromTls(p), FromTls(q))
    ensures Agree(FromTls(p), FromTls(q)) ==>
      p.evidence.evmRpcTls == q.evidence.evmRpcTls && Agree(FromGas(p), FromGas(q))
  {
    hide Aligned, Agree, TlsFields, FromGas;
    var a, b := TlsFields(p.evidence.evmRpcTls), TlsFields(q.evidence.evmRpcTls);
    TlsAgrees(p.evidence.evmRpcTls, q.evidence.evmRpcTls);
    GasDecides(p, q);
    AlignedAppend(a, b, FromGas(p), FromGas(q));
    AgreeAppend(a, b, FromGas(p), FromGas(q));
  }

  lemma ProductionsDecide(p: Policy, q: Policy)
    requires p.Production? && q.Production?
    ensures Aligned(Fields(p), Fields(q))
    ensures Agree(Fields(p), Fields(q)) ==> C.Canon(p) == C.Canon(q)
  {
    hide Aligned, Agree, FromTls, FromGas, C.CanonicalGas;
    var a, b := EvidenceFields(p.evidence), EvidenceFields(q.evidence);
    EvidenceAgrees(p.evidence, q.evidence);
    if Agree(a, b) { TlsDecides(p, q); }
    GasDecides(p, q);
    AlignedAppend(a, b, FromTls(p), FromTls(q));
    AgreeAppend(a, b, FromTls(p), FromTls(q));
    PostureAgrees(p.posture, q.posture);
    AlignedAppend(PostureFields(p.posture), PostureFields(q.posture), a + FromTls(p), b + FromTls(q));
    AgreeAppend(PostureFields(p.posture), PostureFields(q.posture), a + FromTls(p), b + FromTls(q));
  }

  lemma SameFields(p: Policy, q: Policy)
    requires C.Canon(p) == C.Canon(q)
    ensures Fields(p) == Fields(q)
  {
    hide PostureFields, EvidenceFields, TlsFields, TokenFields, KmsFields, PcrFields, Canonical, Joined, Hex, Decimal;
  }

  /** Two lists of fields name the same fields up to the first difference, and without one the policies agree. */
  lemma FieldsDecide(p: Policy, q: Policy)
    ensures Aligned(Fields(p), Fields(q))
    ensures Agree(Fields(p), Fields(q)) <==> C.Canon(p) == C.Canon(q)
  {
    hide Aligned, Agree, Fields, C.CanonicalGas;
    if C.Canon(p) == C.Canon(q) {
      SameFields(p, q);
      SameList(Fields(p));
    } else if p.Production? && q.Production? {
      ProductionsDecide(p, q);
    } else {
      KindsDiffer(p, q);
    }
  }

  // ---- The comparison ----

  datatype Refusal =
    | Undecodable(error: C.Error)
    | Mismatch(field: string, expected: seq<u8>, attested: seq<u8>)
    | BytesDiffer

  /** The first index from `i` on where the values differ, or the end of the shorter list. */
  function FirstDifference(a: seq<Entry>, b: seq<Entry>, i: nat): (k: nat)
    requires i <= Shorter(a, b) && AgreeTo(a, b, i)
    ensures i <= k <= Shorter(a, b) && AgreeTo(a, b, k) && (k < Shorter(a, b) ==> a[k].1 != b[k].1)
    decreases Shorter(a, b) - i
  {
    if i == Shorter(a, b) || a[i].1 != b[i].1 then i else FirstDifference(a, b, i + 1)
  }

  function FirstMismatch(want: seq<Entry>, got: seq<Entry>): Option<Refusal> {
    var k := FirstDifference(want, got, 0);
    if k < Shorter(want, got) then Some(Mismatch(want[k].0, want[k].1, got[k].1)) else None
  }

  function Compare(expected: Policy, attested: seq<u8>): Result<Policy, Refusal> {
    var decoded := C.Decode(attested);
    if decoded.Err? then Err(Undecodable(decoded.error)) else
    var refusal := FirstMismatch(Fields(expected), Fields(decoded.value));
    if refusal.Some? then Err(refusal.value)
    else if C.Encode(expected) != attested then Err(BytesDiffer)
    else Ok(decoded.value)
  }

  method ComparePolicy(expected: Policy, attested: seq<u8>) returns (r: Result<Policy, Refusal>)
    ensures r == Compare(expected, attested)
  {
    hide C.Decode, C.Encode, Fields;
    var decoded := PolicyWire.FromBytes(attested);
    if decoded.Err? { return Err(Undecodable(decoded.error)); }
    var want, got := Fields(expected), Fields(decoded.value);
    for i := 0 to Shorter(want, got)
      invariant AgreeTo(want, got, i)
      invariant FirstDifference(want, got, 0) == FirstDifference(want, got, i)
    {
      if want[i].1 != got[i].1 { return Err(Mismatch(want[i].0, want[i].1, got[i].1)); }
    }
    var bytes := PolicyWire.ToBytes(expected);
    if bytes != attested { return Err(BytesDiffer); }
    return Ok(decoded.value);
  }

  /** The check passes exactly for the bytes of the expected policy, and the last byte comparison never fires. */
  lemma ComparePassesExactly(expected: Policy, attested: seq<u8>)
    ensures Compare(expected, attested).Ok? <==> C.Small(expected) && C.Encode(expected) == attested
    ensures Compare(expected, attested).Ok? ==> Compare(expected, attested).value == C.Canon(expected)
    ensures Compare(expected, attested) != Err(BytesDiffer)
  {
    hide C.Decode, C.Encode, C.Canon, C.Small, Fields;
    C.RoundTrip(expected);
    C.CanonEncodes(expected);
    if C.Decode(attested).Ok? {
      C.DecodeIsExact(attested);
      FieldsDecide(expected, C.Decode(attested).value);
    }
  }

  /** On bytes that decode, a refusal names the first field that differs, in both lists, with both its values. */
  lemma RefusalNamesTheField(expected: Policy, attested: seq<u8>)
    requires C.Decode(attested).Ok? && Compare(expected, attested).Err?
    ensures var want, got := Fields(expected), Fields(C.Decode(attested).value);
      exists k :: 0 <= k < Shorter(want, got) && AgreeTo(want, got, k)
        && want[k].1 != got[k].1 && want[k].0 == got[k].0
        && Compare(expected, attested) == Err(Mismatch(want[k].0, want[k].1, got[k].1))
  {
    hide C.Decode, C.Encode, C.Canon, C.Small, Fields;
    ComparePassesExactly(expected, attested);
    var want, got := Fields(expected), Fields(C.Decode(attested).value);
    FieldsDecide(expected, C.Decode(attested).value);
    var k := FirstDifference(want, got, 0);
    assert AgreeTo(want, got, k);
  }
}
