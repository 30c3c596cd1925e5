/**
 * The field that a refused launch check names. Each field of a policy is listed with its name, and nothing is said
 * of how its value prints.
 */
module LaunchFields {
  import opened Bytes
  import opened Policy
  import opened LaunchCheck
  import C = PolicyCodec
  import Strings

  /** A field name, and whether two policies have the same value there. */
  type Same = (string, bool)

  function PostureSame(p: Posture, q: Posture): seq<Same> {
    [("policy", true),
     ("allow_vanilla_psbt", p.allowVanillaPsbt == q.allowVanillaPsbt),
     ("signer_role", p.signerRole == q.signerRole),
     ("attestation", p.attestation == q.attestation),
     ("evm_source", p.evmSource == q.evmSource),
     ("btc_source", p.btcSource == q.btcSource),
     ("chain_id", p.chainId == q.chainId),
     ("bitcoin_network", p.bitcoinNetwork == q.bitcoinNetwork),
     ("bridge_contract", p.bridgeContract == q.bridgeContract),
     ("rgb_asset_id", p.rgbAssetId == q.rgbAssetId)]
  }

  function EvidenceSame(e: Evidence, f: Evidence): seq<Same> {
    [("funds_in_contract", e.fundsInContract == f.fundsInContract),
     ("evm_finality_tag", e.finalityTag == f.finalityTag),
     ("spv_min_confirmations", e.spvMinConfirmations == f.spvMinConfirmations),
     ("electrum_host", e.electrumHost == f.electrumHost),
     ("evm_rpc_tls", e.evmRpcTls.Some? == f.evmRpcTls.Some?)]
  }

  function TlsSame(a: Option<TlsPin>, b: Option<TlsPin>): seq<Same> {
    if a.None? || b.None? then [] else
    [("evm_rpc_tls.host", a.value.host == b.value.host),
     ("evm_rpc_tls.ca_sha256", a.value.caSha256 == b.value.caSha256)]
  }

  ghost predicate SameSelectors(s: seq<Selector>, t: seq<Selector>) { forall y :: y in s <==> y in t }

  ghost function GasSame(g: GasRule, h: GasRule): seq<Same> {
    [("gas_tx_allowed_to", g.allowedTo == h.allowedTo),
     ("gas_tx_max_gas_limit", g.maxGasLimit == h.maxGasLimit),
     ("gas_tx_max_fee_per_gas", g.maxFeePerGas == h.maxFeePerGas),
     ("gas_tx_max_value_wei", g.maxValueWei == h.maxValueWei),
     ("gas_tx_allowed_selectors", SameSelectors(g.allowedSelectors, h.allowedSelectors))]
  }

  function TokenSame(p: Policy, q: Policy): seq<Same>
    requires p.Production? && q.Production?
  {
    [("token_contract", p.tokenContract == q.tokenContract), ("kms", p.kms.Some? == q.kms.Some?)]
  }

  function KmsSame(a: Option<KmsPin>, b: Option<KmsPin>): seq<Same> {
    if a.None? || b.None? then [] else
    [("kms.key_arn", a.value.keyArn == b.value.keyArn),
     ("kms.region", a.value.region == b.value.region),
     ("kms.seed_id", a.value.seedId == b.value.seedId),
     ("kms.expected_evm_address", a.value.expectedEvmAddress == b.value.expectedEvmAddress)]
  }

  function PcrSame(a: Option<Pcr>, b: Option<Pcr>): seq<Same> {
    [("clone_peer_pcr3", a.Some? == b.Some?)] +
    if a.Some? && b.Some? then [("clone_peer_pcr3.value", a == b)] else []
  }

  ghost function AllSame(p: Policy, q: Policy): seq<Same> {
    if p.Development? || q.Development? then [("policy", p.Development? == q.Development?)]
    else
      PostureSame(p.posture, q.posture) + (EvidenceSame(p.evidence, q.evidence) +
      (TlsSame(p.evidence.evmRpcTls, q.evidence.evmRpcTls) + (GasSame(p.gas, q.gas) +
      (TokenSame(p, q) + (KmsSame(p.kms, q.kms) + PcrSame(p.clonePeerPcr3, q.clonePeerPcr3))))))
  }

  /** The first field that differs. */
  function FirstName(s: seq<Same>): Option<string> {
    if s == [] then None else if !s[0].1 then Some(s[0].0) else FirstName(s[1..])
  }

  // ---- The printed lists and the fields ----

  /** Up to the first difference, `s` names the fields of both lists and says where they agree. */
  predicate Tells(a: seq<Entry>, b: seq<Entry>, s: seq<Same>) {
    forall k :: 0 <= k < Shorter(a, b) && AgreeTo(a, b, k) ==>
      k < |s| && a[k].0 == s[k].0 && (a[k].1 == b[k].1 <==> s[k].1)
  }

  lemma TellsAppend(a: seq<Entry>, b: seq<Entry>, s: seq<Same>, c: seq<Entry>, d: seq<Entry>, t: seq<Same>)
    requires |a| == |b| == |s| && Tells(a, b, s) && (Agree(a, b) ==> Tells(c, d, t))
    ensures Tells(a + c, b + d, s + t)
  {
    hide AgreeTo;
    forall k | 0 <= k < Shorter(a + c, b + d) && AgreeTo(a + c, b + d, k)
      ensures k < |s + t| && (a + c)[k].0 == (s + t)[k].0 && ((a + c)[k].1 == (b + d)[k].1 <==> (s + t)[k].1)
    {
      AgreeToAppend(a, b, c, d, k);
    }
  }

  /** The lists have the same fields, and `s` says where they agree. */
  predicate Matches(a: seq<Entry>, b: seq<Entry>, s: seq<Same>) {
    |a| == |b| == |s| && forall k :: 0 <= k < |a| ==> a[k].0 == s[k].0 && (a[k].1 == b[k].1 <==> s[k].1)
  }

  lemma MatchesTells(a: seq<Entry>, b: seq<Entry>, s: seq<Same>)
    requires Matches(a, b, s)
    ensures Tells(a, b, s) && |a| == |b| == |s|
  {
    hide AgreeTo;
  }

  lemma SameText(a: nat, b: nat)
    ensures Decimal(a) == Decimal(b) <==> a == b
  {
    if Decimal(a) == Decimal(b) { DecimalIsInjective(a, b); }
  }

  lemma SameHex(a: seq<u8>, b: seq<u8>)
    ensures Hex(a) == Hex(b) <==> a == b
  {
    if Hex(a) == Hex(b) { HexIsInjective(a, b); }
  }

  lemma PostureTells(p: Posture, q: Posture)
    ensures Matches(PostureFields(p), PostureFields(q), PostureSame(p, q))
  {
    hide PostureFields, PostureSame;
    PostureHeadTells(p, q);
    PostureTailTells(p, q);
  }

  predicate MatchesAt(a: seq<Entry>, b: seq<Entry>, s: seq<Same>, k: nat)
    requires k < |a| == |b| == |s|
  {
    a[k].0 == s[k].0 && (a[k].1 == b[k].1 <==> s[k].1)
  }

  lemma PostureHeadTells(p: Posture, q: Posture)
    ensures var a, b, s := PostureFields(p), PostureFields(q), PostureSame(p, q);
      && |a| == |b| == |s| == 10 && MatchesAt(a, b, s, 0) && MatchesAt(a, b, s, 1) && MatchesAt(a, b, s, 2)
      && MatchesAt(a, b, s, 3) && MatchesAt(a, b, s, 4)
  {
    hide BoolText, RoleText, ModeText, EvmText, NetworkText, Decimal, Hex, Strings.Ascii;
    NamesTell(p, q);
  }

  lemma PostureTailTells(p: Posture, q: Posture)
    ensures var a, b, s := PostureFields(p), PostureFields(q), PostureSame(p, q);
      && |a| == |b| == |s| == 10 && MatchesAt(a, b, s, 5) && MatchesAt(a, b, s, 6) && MatchesAt(a, b, s, 7)
      && MatchesAt(a, b, s, 8) && MatchesAt(a, b, s, 9)
  {
    hide BoolText, RoleText, ModeText, EvmText, NetworkText, Decimal, Hex, Strings.Ascii;
    NamesTell(p, q);
    SameText(p.chainId, q.chainId);
    SameHex(p.bridgeContract, q.bridgeContract);
  }

  lemma NamesTell(p: Posture, q: Posture)
    ensures BoolText(p.allowVanillaPsbt) == BoolText(q.allowVanillaPsbt) <==> p.allowVanillaPsbt == q.allowVanillaPsbt
    ensures RoleText(p.signerRole) == RoleText(q.signerRole) <==> p.signerRole == q.signerRole
    ensures ModeText(p.attestation) == ModeText(q.attestation) <==> p.attestation == q.attestation
    ensures EvmText(p.evmSource) == EvmText(q.evmSource) <==> p.evmSource == q.evmSource
    ensures NetworkText(p.bitcoinNetwork) == NetworkText(q.bitcoinNetwork) <==> p.bitcoinNetwork == q.bitcoinNetwork
    ensures p.btcSource == q.btcSource
  {
    hide BoolText, RoleText, ModeText, EvmText, NetworkText;
    NamesDiffer();
    NetworkNamesDiffer();
    assert p.btcSource == SpvVerified && q.btcSource == SpvVerified;
  }

  lemma EvidenceTells(e: Evidence, f: Evidence)
    ensures Matches(EvidenceFields(e), EvidenceFields(f), EvidenceSame(e, f))
  {
    hide FinalityText, Presence, Decimal, Hex;
    NamesDiffer();
    SameText(e.spvMinConfirmations, f.spvMinConfirmations);
    SameHex(e.fundsInContract, f.fundsInContract);
  }

  lemma TlsTells(a: Option<TlsPin>, b: Option<TlsPin>)
    requires a.Some? == b.Some?
    ensures Matches(TlsFields(a), TlsFields(b), TlsSame(a, b))
  {
    hide Hex;
    if a.Some? { SameHex(a.value.caSha256, b.value.caSha256); }
  }

  lemma GasTells(g: GasRule, h: GasRule)
    ensures Matches(GasFields(g), GasFields(h), GasSame(g, h))
  {
    SelectorsTell(g.allowedSelectors, h.allowedSelectors);
    hide Hex, Decimal, Joined, Canonical, SameSelectors;
    SameHex(g.allowedTo, h.allowedTo);
    SameText(g.maxGasLimit, h.maxGasLimit);
    SameText(g.maxFeePerGas, h.maxFeePerGas);
    SameText(g.maxValueWei, h.maxValueWei);
  }

  lemma SelectorsTell(s: seq<Selector>, t: seq<Selector>)
    ensures Joined(Canonical(s)) == Joined(Canonical(t)) <==> SameSelectors(s, t)
  {
    hide Joined, Canonical;
    CanonicalIsUnique(s, t);
    if Joined(Canonical(s)) == Joined(Canonical(t)) { JoinedIsInjective(Canonical(s), Canonical(t)); }
  }

  lemma TokenTells(p: Policy, q: Policy)
    requires p.Production? && q.Production?
    ensures Matches(TokenFields(p.tokenContract, p.kms), TokenFields(q.tokenContract, q.kms), TokenSame(p, q))
  {
    hide Hex, Presence;
    NamesDiffer();
    SameHex(p.tokenContract, q.tokenContract);
  }

  lemma KmsTells(a: Option<KmsPin>, b: Option<KmsPin>)
    requires a.Some? == b.Some?
    ensures Matches(KmsFields(a), KmsFields(b), KmsSame(a, b))
  {
    hide AddressText;
    if a.Some? && AddressText(a.value.expectedEvmAddress) == AddressText(b.value.expectedEvmAddress) {
      AddressTextIsInjective(a.value.expectedEvmAddress, b.value.expectedEvmAddress);
    }
  }

  lemma PcrTells(a: Option<Pcr>, b: Option<Pcr>)
    ensures Tells(PcrFields(a), PcrFields(b), PcrSame(a, b))
  {
    hide Hex, Presence;
    NamesDiffer();
    var s, t := PcrFields(a), PcrFields(b);
    if a.Some? && b.Some? { SameHex(a.value, b.value); }
    if AgreeTo(s, t, 1) { assert s[0].1 == t[0].1; }
  }

  lemma KmsOnTells(p: Policy, q: Policy)
    requires p.Production? && q.Production? && p.kms.Some? == q.kms.Some?
    ensures Tells(FromKms(p), FromKms(q), KmsSame(p.kms, q.kms) + PcrSame(p.clonePeerPcr3, q.clonePeerPcr3))
  {
    hide Tells, Matches, Agree, KmsFields, PcrFields, KmsSame, PcrSame;
    KmsTells(p.kms, q.kms);
    MatchesTells(KmsFields(p.kms), KmsFields(q.kms), KmsSame(p.kms, q.kms));
    PcrTells(p.clonePeerPcr3, q.clonePeerPcr3);
    TellsAppend(KmsFields(p.kms), KmsFields(q.kms), KmsSame(p.kms, q.kms),
      PcrFields(p.clonePeerPcr3), PcrFields(q.clonePeerPcr3), PcrSame(p.clonePeerPcr3, q.clonePeerPcr3));
  }

  ghost function FromGasSame(p: Policy, q: Policy): seq<Same>
    requires p.Production? && q.Production?
  {
    GasSame(p.gas, q.gas) + (TokenSame(p, q) + (KmsSame(p.kms, q.kms) + PcrSame(p.clonePeerPcr3, q.clonePeerPcr3)))
  }

  lemma GasOnTells(p: Policy, q: Policy)
    requires p.Production? && q.Production?
    ensures Tells(FromGas(p), FromGas(q), FromGasSame(p, q))
  {
    hide Tells, Matches, Agree, FromKms, GasFields, TokenFields, KmsSame, PcrSame, GasSame, TokenSame;
    var a, b := TokenFields(p.tokenContract, p.kms), TokenFields(q.tokenContract, q.kms);
    var rest := KmsSame(p.kms, q.kms) + PcrSame(p.clonePeerPcr3, q.clonePeerPcr3);
    TokenTells(p, q);
    MatchesTells(a, b, TokenSame(p, q));
    if Agree(a, b) {
      TokenAgrees(p.tokenContract, p.kms, q.tokenContract, q.kms);
      KmsOnTells(p, q);
    }
    TellsAppend(a, b, TokenSame(p, q), FromKms(p), FromKms(q), rest);
    GasTells(p.gas, q.gas);
    MatchesTells(GasFields(p.gas), GasFields(q.gas), GasSame(p.gas, q.gas));
    TellsAppend(GasFields(p.gas), GasFields(q.gas), GasSame(p.gas, q.gas),
      a + FromKms(p), b + FromKms(q), TokenSame(p, q) + rest);
  }

  lemma TlsOnTells(p: Policy, q: Policy)
    requires p.Production? && q.Production? && p.evidence.evmRpcTls.Some? == q.evidence.evmRpcTls.Some?
    ensures Tells(FromTls(p), FromTls(q), TlsSame(p.evidence.evmRpcTls, q.evidence.evmRpcTls) + FromGasSame(p, q))
  {
    hide Tells, Matches, Agree, FromGas, TlsFields, TlsSame, FromGasSame;
    var a, b := TlsFields(p.evidence.evmRpcTls), TlsFields(q.evidence.evmRpcTls);
    var s := TlsSame(p.evidence.evmRpcTls, q.evidence.evmRpcTls);
    TlsTells(p.evidence.evmRpcTls, q.evidence.evmRpcTls);
    MatchesTells(a, b, s);
    GasOnTells(p, q);
    TellsAppend(a, b, s, FromGas(p), FromGas(q), FromGasSame(p, q));
  }

  lemma ProductionTells(p: Policy, q: Policy)
    requires p.Production? && q.Production?
    ensures Tells(Fields(p), Fields(q), AllSame(p, q))
  {
    hide Tells, Matches, Agree, FromTls, PostureFields, EvidenceFields;
    hide TlsSame, PostureSame, EvidenceSame, GasSame, TokenSame, KmsSame, PcrSame;
    var a, b, s := EvidenceFields(p.evidence), EvidenceFields(q.evidence), EvidenceSame(p.evidence, q.evidence);
    var rest := TlsSame(p.evidence.evmRpcTls, q.evidence.evmRpcTls) + FromGasSame(p, q);
    EvidenceTells(p.evidence, q.evidence);
    MatchesTells(a, b, s);
    if Agree(a, b) {
      EvidenceAgrees(p.evidence, q.evidence);
      TlsOnTells(p, q);
    }
    TellsAppend(a, b, s, FromTls(p), FromTls(q), rest);
    PostureTells(p.posture, q.posture);
    MatchesTells(PostureFields(p.posture), PostureFields(q.posture), PostureSame(p.posture, q.posture));
    TellsAppend(PostureFields(p.posture), PostureFields(q.posture), PostureSame(p.posture, q.posture),
      a + FromTls(p), b + FromTls(q), s + rest);
  }

  lemma FieldsTell(p: Policy, q: Policy)
    ensures Tells(Fields(p), Fields(q), AllSame(p, q))
  {
    if p.Production? && q.Production? {
      ProductionTells(p, q);
    } else {
      KindsTell(p, q);
    }
  }

  lemma KindsTell(p: Policy, q: Policy)
    requires p.Development? || q.Development?
    ensures Tells(Fields(p), Fields(q), AllSame(p, q))
  {
    hide FromTls, EvidenceFields;
    assert Strings.Ascii("Development")[0] != Strings.Ascii("Production")[0];
    assert Shorter(Fields(p), Fields(q)) == 1;
  }

  // ---- The name in a refusal ----

  lemma {:induction false} FirstFalse(s: seq<Same>, k: nat)
    requires k < |s| && !s[k].1 && forall i :: 0 <= i < k ==> s[i].1
    ensures FirstName(s) == Some(s[k].0)
  {
    if k > 0 { FirstFalse(s[1..], k - 1); }
  }

  lemma FirstFalseTold(a: seq<Entry>, b: seq<Entry>, s: seq<Same>, k: nat)
    requires Tells(a, b, s) && k < Shorter(a, b) && AgreeTo(a, b, k) && a[k].1 != b[k].1
    ensures FirstName(s) == Some(a[k].0)
  {
    forall i | 0 <= i < k ensures s[i].1 { assert AgreeTo(a, b, i) && a[i].1 == b[i].1; }
    FirstFalse(s, k);
  }

  /** On bytes that decode, the check is refused with the name of the first field in which the policies differ. */
  lemma RefusalNamesTheFirstDifference(expected: Policy, attested: seq<u8>)
    requires C.Decode(attested).Ok? && Compare(expected, attested).Err?
    ensures Compare(expected, attested).error.Mismatch?
    ensures FirstName(AllSame(expected, C.Decode(attested).value)) == Some(Compare(expected, attested).error.field)
  {
    hide Fields, AllSame, Tells, C.Decode, C.Encode, C.Canon, C.Small, AgreeTo, Compare, FirstName;
    var q := C.Decode(attested).value;
    var want, got := Fields(expected), Fields(q);
    RefusalNamesTheField(expected, attested);
    FieldsTell(expected, q);
    var k :| 0 <= k < Shorter(want, got) && AgreeTo(want, got, k) && want[k].1 != got[k].1
      && Compare(expected, attested) == Err(Mismatch(want[k].0, want[k].1, got[k].1));
    FirstFalseTold(want, got, AllSame(expected, q), k);
  }
}
