/**
 * An environment and a `SetEndpoints` request that say a policy: every value is printed under its own key. The
 * parent expects that policy, and an enclave launched with them attests it.
 */
module PrintedPolicy {
  import opened Bytes
  import opened Policy
  import opened PolicyInputs
  import opened Strings
  import opened Parsers
  import A = PolicyAgreement
  import P = ParentPolicy
  import E = EnclavePolicy
  import L = LaunchCheck

  // ---- A policy, printed ----

  predicate Says(env: Env, key: string, value: seq<u8>) { key in env && env[key] == value }

  /** `sats` is the spending cap that stands for the permission of vanilla PSBTs. */
  predicate SaysPosture(env: Env, p: Posture, sats: nat) {
    && p.attestation == Real && p.evmSource == PinnedTlsRpc
    && Says(env, "EVM_CHAIN_ID", L.Decimal(p.chainId))
    && "BITCOIN_NETWORK" in env && NetworkName(p.bitcoinNetwork, env["BITCOIN_NETWORK"])
    && Says(env, "EVM_PROXY_CONTRACT_ADDRESS", L.Hex(p.bridgeContract))
    && Says(env, "RGB_ASSET_ID", p.rgbAssetId)
    && if p.signerRole == Burn then !p.allowVanillaPsbt
       else
         && sats < 0x1_0000_0000_0000_0000 && Says(env, "BTC_MAX_TOTAL_SATS", L.Decimal(sats))
         && (p.allowVanillaPsbt <==> sats > 0)
  }

  /** `host` is the host of the indexer in any case, and `port` its port. */
  predicate SaysEvidence(env: Env, req: EndpointsRequest, outside: Outside, e: Evidence, host: seq<u8>, port: nat) {
    && Says(env, "FUNDS_IN_CONTRACT", L.Hex(e.fundsInContract))
    && ((e.finalityTag == Safe && Says(env, "EVM_FINALITY_TAG", Ascii("safe")))
        || (e.finalityTag == Finalized && Says(env, "EVM_FINALITY_TAG", Ascii("finalized"))))
    && Says(env, "SPV_MIN_CONFIRMATIONS", L.Decimal(e.spvMinConfirmations))
    && req.electrumUrl == Ascii("ssl://") + (host + ([0x3A] + L.Decimal(port)))
    && Lower(host) == e.electrumHost
    && req.evmRpcCaDer != []
    && e.evmRpcTls.Some? && Lower(req.evmRpcHost) == e.evmRpcTls.value.host
    && outside.sha256(req.evmRpcCaDer) == e.evmRpcTls.value.caSha256
  }

  function Printed(s: seq<Selector>): seq<seq<u8>> {
    seq(|s|, i requires 0 <= i < |s| => L.Hex(s[i]))
  }

  /** A mint signer has no gas rule. */
  predicate SaysGas(env: Env, role: SignerRole, g: GasRule) {
    if role == Mint then g == GasRule(ZERO_ADDRESS, 0, 0, 0, []) else
    && Says(env, "GAS_TX_ALLOWED_TO", L.Hex(g.allowedTo))
    && Says(env, "GAS_TX_MAX_GAS_LIMIT", L.Decimal(g.maxGasLimit))
    && Says(env, "GAS_TX_MAX_FEE_PER_GAS", L.Decimal(g.maxFeePerGas))
    && Says(env, "GAS_TX_MAX_VALUE_WEI", L.Decimal(g.maxValueWei))
    && if g.allowedSelectors == [] then "GAS_TX_ALLOWED_SELECTORS" !in env
       else Says(env, "GAS_TX_ALLOWED_SELECTORS", JoinedBy(Printed(g.allowedSelectors), 0x2C))
  }

  predicate SaysKms(req: EndpointsRequest, kms: Option<KmsPin>) {
    if kms.None? then
      req.kmsKeyArn == [] && req.kmsRegion == [] && req.kmsSeedId == [] && req.kmsExpectedEvmAddress == []
    else
      && req.kmsKeyArn == kms.value.keyArn != [] && req.kmsRegion == kms.value.region
      && req.kmsSeedId == kms.value.seedId
      && req.kmsExpectedEvmAddress ==
           if kms.value.expectedEvmAddress.Some? then L.Hex(kms.value.expectedEvmAddress.value) else []
  }

  predicate SaysPolicy(
      env: Env, req: EndpointsRequest, outside: Outside, p: Policy, sats: nat, host: seq<u8>, port: nat)
  {
    && p.Production?
    && SaysPosture(env, p.posture, sats)
    && SaysEvidence(env, req, outside, p.evidence, host, port)
    && SaysGas(env, p.posture.signerRole, p.gas)
    && Says(env, "TOKEN_CONTRACT", L.Hex(p.tokenContract))
    && SaysKms(req, p.kms)
  }

  // ---- The parent ----

  lemma NumberSaid(env: Env, key: string, n: nat, bound: nat)
    requires Says(env, key, L.Decimal(n)) && n < bound
    ensures env[key] != [] && ParseUint(env[key], bound) == Some(n)
    ensures P.Number(Some(env[key]), bound) == Some(n) && P.Number(P.Optional(env, key), bound) == Some(n)
  {
    hide ParseUint;
    NumberReads(false, 0, n, bound);
  }

  lemma AddressSaid(a: Address)
    ensures ParseAddress(L.Hex(a)) == Some(a) && L.Hex(a) != []
  {
    hide HexBytes;
    HexReads([], a);
    L.HexLength(a);
  }

  lemma PostureExpected(env: Env, p: Posture, sats: nat)
    requires SaysPosture(env, p, sats)
    ensures P.ExpectedPosture(p.signerRole, env) == Some(p)
  {
    hide ParseUint, HexBytes, P.NetworkFromEnv, L.Decimal, L.Hex, Ascii, P.Number, P.Optional, NetworkName;
    NumberSaid(env, "EVM_CHAIN_ID", p.chainId, U64);
    AddressSaid(p.bridgeContract);
    NetworkSaid(env, p.bitcoinNetwork);
    if p.signerRole != Burn { NumberSaid(env, "BTC_MAX_TOTAL_SATS", sats, U64); }
    assert p.btcSource == SpvVerified;
  }

  lemma NetworkSaid(env: Env, n: BitcoinNetwork)
    requires "BITCOIN_NETWORK" in env && NetworkName(n, env["BITCOIN_NETWORK"])
    ensures P.Network(env) == Some(n)
  {
    NetworkNames(env["BITCOIN_NETWORK"], n);
    hide P.NetworkFromEnv, Ascii;
    NamesAreNotEmpty(n, env["BITCOIN_NETWORK"]);
  }

  lemma NamesAreNotEmpty(n: BitcoinNetwork, s: seq<u8>)
    requires NetworkName(n, s)
    ensures s != []
  {
  }

  lemma EvidenceExpected(
      env: Env, req: EndpointsRequest, outside: Outside, e: Evidence, host: seq<u8>, port: nat)
    requires SaysEvidence(env, req, outside, e, host, port)
    ensures P.ExpectedEvidence(env, req, outside) == Some(e)
  {
    hide ParseUint, HexBytes, ParseFinalityTag, L.Decimal, L.Hex, Ascii, Lower, P.Number, P.IndexerHost;
    NumberSaid(env, "SPV_MIN_CONFIRMATIONS", e.spvMinConfirmations, U32);
    AddressSaid(e.fundsInContract);
    FinalityNames(env["EVM_FINALITY_TAG"]);
    DecimalHasNoColon(port);
    HostOfUrl(req.electrumUrl, Ascii("ssl://"), host, L.Decimal(port));
  }

  lemma DecimalHasNoColon(n: nat)
    ensures Free(L.Decimal(n), 0x3A)
  {
    PaddedValue(0, n);
    var s := L.Decimal(n);
    assert Padded(0, n) == s;
    forall i | 0 <= i < |s| ensures s[i] != 0x3A { assert s[i] in s; }
  }

  lemma PrintedParts(s: seq<Selector>)
    ensures AllFree(Printed(s), 0x2C) && forall i :: 0 <= i < |s| ==> Visible(Printed(s)[i])
  {
    hide L.Hex, Free, Visible;
    forall i | 0 <= i < |s| ensures Free(Printed(s)[i], 0x2C) && Visible(Printed(s)[i]) { HexIsVisible(s[i]); }
  }

  lemma HexIsVisible(b: seq<u8>)
    ensures Free(L.Hex(b), 0x2C) && Visible(L.Hex(b))
  {
    DigitsInRange(b);
    L.HexLength(b);
    hide L.HexDigits;
    var s := L.Hex(b);
    assert s[0] == 0x30 && s[1] == 0x78;
    assert forall i :: 2 <= i < |s| ==> s[i] == L.HexDigits(b)[i - 2];
  }

  lemma {:induction false} DigitsInRange(b: seq<u8>)
    ensures forall i :: 0 <= i < |L.HexDigits(b)| ==> 48 <= L.HexDigits(b)[i] <= 102
  {
    if b != [] { DigitsInRange(b[1..]); }
  }

  lemma {:induction false} SelectorsSaid(s: seq<Selector>)
    ensures P.AllSelectors(Printed(s)) == Some(s)
  {
    hide HexBytes, L.Hex;
    if s != [] {
      SelectorsSaid(s[1..]);
      assert Printed(s)[1..] == Printed(s[1..]) && Printed(s)[0] == L.Hex(s[0]);
      HexReads([], s[0]);
      assert s == [s[0]] + s[1..];
    }
  }

  lemma GasExpected(env: Env, role: SignerRole, g: GasRule)
    requires SaysGas(env, role, g)
    ensures P.ExpectedGas(role, env) == Some(g)
  {
    hide ParseUint, HexBytes, L.Decimal, L.Hex, Ascii, P.Number, Entries, P.AllSelectors, Printed, JoinedBy, Zeros;
    A.EmptyHasNoEntries();
    A.NoSelectors();
    if role == Mint {
      UnsetIsZero();
    } else {
      NumberSaid(env, "GAS_TX_MAX_GAS_LIMIT", g.maxGasLimit, U64);
      NumberSaid(env, "GAS_TX_MAX_FEE_PER_GAS", g.maxFeePerGas, U128);
      NumberSaid(env, "GAS_TX_MAX_VALUE_WEI", g.maxValueWei, U128);
      AddressSaid(g.allowedTo);
      ListSaid(env, g.allowedSelectors);
    }
  }

  lemma UnsetIsZero()
    ensures P.Number(None, U64) == Some(0) && P.Number(None, U128) == Some(0)
  {
  }

  lemma ListSaid(env: Env, s: seq<Selector>)
    requires if s == [] then "GAS_TX_ALLOWED_SELECTORS" !in env
      else Says(env, "GAS_TX_ALLOWED_SELECTORS", JoinedBy(Printed(s), 0x2C))
    ensures var list := P.Optional(env, "GAS_TX_ALLOWED_SELECTORS");
      P.AllSelectors(Entries(if list.Some? then list.value else [])) == Some(s)
  {
    hide Entries, P.AllSelectors, JoinedBy;
    A.EmptyHasNoEntries();
    A.NoSelectors();
    if s != [] {
      PrintedParts(s);
      EntriesOf(Printed(s));
      SelectorsSaid(s);
    }
  }

  lemma KmsExpected(req: EndpointsRequest, kms: Option<KmsPin>)
    requires SaysKms(req, kms)
    ensures P.ExpectedKms(req) == Some(kms)
  {
    hide HexBytes, L.Hex;
    if kms.Some? && kms.value.expectedEvmAddress.Some? { AddressSaid(kms.value.expectedEvmAddress.value); }
  }

  /** The parent expects the policy that was printed; the clone-peer PCR3 comes from the document later. */
  lemma ParentExpectsThePolicy(
      env: Env, req: EndpointsRequest, outside: Outside, p: Policy, sats: nat, host: seq<u8>, port: nat)
    requires SaysPolicy(env, req, outside, p, sats, host, port)
    ensures P.ExpectedPolicy(p.posture.signerRole, env, req, outside) == Some(p.(clonePeerPcr3 := None))
  {
    hide SaysPosture, SaysEvidence, SaysGas, SaysKms, HexBytes, L.Hex;
    hide P.ExpectedPosture, P.ExpectedEvidence, P.ExpectedGas, P.ExpectedKms;
    PostureExpected(env, p.posture, sats);
    EvidenceExpected(env, req, outside, p.evidence, host, port);
    GasExpected(env, p.posture.signerRole, p.gas);
    AddressSaid(p.tokenContract);
    KmsExpected(req, p.kms);
  }

  /** What stands for a value that is not set: the finalized head, mainnet, and a depth of three. */
  lemma UnsetInputs(env: Env)
    ensures "EVM_FINALITY_TAG" !in env ==> P.ExpectedTag(env) == Some(Finalized)
    ensures Says(env, "EVM_FINALITY_TAG", Ascii("latest")) ==> P.ExpectedTag(env).None?
    ensures "BITCOIN_NETWORK" !in env || env["BITCOIN_NETWORK"] == [] ==> P.Network(env) == Some(Mainnet)
    ensures "SPV_MIN_CONFIRMATIONS" !in env || Blank(env["SPV_MIN_CONFIRMATIONS"]) ==>
      E.SpvMinConfirmations(env) == Some(3)
  {
    if "EVM_FINALITY_TAG" in env { FinalityNames(env["EVM_FINALITY_TAG"]); }
    NetworkNames(Ascii("bitcoin"), Mainnet);
    hide ParseFinalityTag, P.NetworkFromEnv, ParseUint, Ascii, Trim;
    if "SPV_MIN_CONFIRMATIONS" in env && Blank(env["SPV_MIN_CONFIRMATIONS"]) {
      BlankTrims(env["SPV_MIN_CONFIRMATIONS"]);
    }
  }

  // ---- The enclave ----

  /** A name that the enclave takes for a host. */
  predicate GoodHost(host: seq<u8>, outside: Outside) {
    outside.dnsName(host) && Free(host, 0x5F) && (host != [] ==> host[|host| - 1] != 0x2E)
  }

  predicate GoodPort(port: nat) { 1 <= port <= 65535 }

  predicate GoodTls(req: EndpointsRequest, outside: Outside, port: nat) {
    && GoodHost(req.evmRpcHost, outside) && GoodPort(req.evmRpcTlsPort) && req.evmRpcTlsPort != port
    && |req.evmRpcCaDer| <= 16384 && outside.caCertificate(req.evmRpcCaDer)
  }

  /** A mint signer, and no other, has a KMS pin, and its indexer is not the KMS itself. */
  predicate GoodKms(req: EndpointsRequest, outside: Outside, role: SignerRole, kms: Option<KmsPin>, host: seq<u8>) {
    && (kms.Some? <==> role == Mint)
    && (kms.Some? ==>
          && 3 <= |req.kmsRegion| <= 32 && outside.kmsShape(req.kmsKeyArn, req.kmsRegion, req.kmsSeedId)
          && Lower(host) != Ascii("kms.") + req.kmsRegion + Ascii(".amazonaws.com"))
  }

  /** What the enclave demands of the endpoints. */
  predicate GoodEndpoints(req: EndpointsRequest, outside: Outside, role: SignerRole, kms: Option<KmsPin>,
      host: seq<u8>, port: nat)
  {
    && |req.electrumUrl| <= 2048 && |req.evmRpcHost| <= 2048 && |req.kmsKeyArn| <= 2048 && |req.kmsRegion| <= 2048
    && |req.kmsSeedId| <= 2048 && |req.kmsExpectedEvmAddress| <= 2048
    && GoodHost(host, outside) && GoodPort(port)
    && GoodTls(req, outside, port) && GoodKms(req, outside, role, kms, host)
  }

  /** The word `none`, in any case and with white space around it, turns the relay check off. */
  predicate RelayOff(env: Env) { "BTC_RELAY_MODE" in env && Lower(Trim(env["BTC_RELAY_MODE"])) == Ascii("none") }

  /** What a production policy must not leave out. */
  predicate Complete(p: Policy, own: Option<Pcr>)
    requires p.Production?
  {
    && p.posture.chainId != 0 && p.posture.bridgeContract != ZERO_ADDRESS && p.posture.rgbAssetId != []
    && (p.posture.chainId == 1 || p.posture.chainId == 42161 ==> p.posture.bitcoinNetwork == Mainnet)
    && p.evidence.fundsInContract != ZERO_ADDRESS && p.tokenContract != ZERO_ADDRESS
    && p.evidence.spvMinConfirmations != 0 && p.evidence.electrumHost != []
    && (p.posture.signerRole != Mint ==> own.Some? && own.value != ZERO_PCR)
  }

  /** A release build of the shipped image. */
  function Release(role: SignerRole): E.BuildContext { E.BuildContext(false, false, false, true, true, true, role) }

  lemma ConfigRead(env: Env, req: EndpointsRequest, outside: Outside, p: Policy, sats: nat, host: seq<u8>, port: nat)
    requires SaysPolicy(env, req, outside, p, sats, host, port)
    ensures E.FromEnv(env).Some? <==> p.evidence.spvMinConfirmations != 0
  {
    var name := env["BITCOIN_NETWORK"];
    NetworkNames(name, p.posture.bitcoinNetwork);
    A.NetworkNamesAgree(name);
    FinalityNames(env["EVM_FINALITY_TAG"]);
    NumberSaid(env, "SPV_MIN_CONFIRMATIONS", p.evidence.spvMinConfirmations, U32);
    NumbersAreTrimmed(env["SPV_MIN_CONFIRMATIONS"], U32);
    hide ParseUint, HexBytes, ParseFinalityTag, L.Decimal, L.Hex, Ascii, Lower, Trim, Entries, E.GoodSelectors;
    hide P.NetworkFromEnv, E.SpvNetworkFromEnv, SaysGas, SaysKms;
  }

  lemma EndpointsRead(req: EndpointsRequest, outside: Outside, role: SignerRole, kms: Option<KmsPin>,
      host: seq<u8>, port: nat)
    requires req.electrumUrl == Ascii("ssl://") + (host + ([0x3A] + L.Decimal(port))) && req.evmRpcCaDer != []
    requires SaysKms(req, kms)
    ensures E.ParseEndpoints(Release(role), req, outside).Some? <==> GoodEndpoints(req, outside, role, kms, host, port)
  {
    ElectrumRead(req, outside, role, host, port);
    TlsRead(req, outside, role, port);
    KmsRead(req, outside, role, kms, host);
    hide Ascii, Lower, L.Decimal, E.ParseElectrum, E.ParseTls, E.ParseKms, SaysKms;
    hide GoodHost, GoodPort, GoodTls, GoodKms;
  }

  lemma TlsRead(req: EndpointsRequest, outside: Outside, role: SignerRole, port: nat)
    requires req.evmRpcCaDer != []
    ensures E.ParseTls(Release(role), req, port, outside).Some? <==> GoodTls(req, outside, port)
  {
    hide Ascii, Lower, Utf8;
    assert 0x5F in req.evmRpcHost <==> !Free(req.evmRpcHost, 0x5F);
  }

  lemma KmsRead(req: EndpointsRequest, outside: Outside, role: SignerRole, kms: Option<KmsPin>, host: seq<u8>)
    requires SaysKms(req, kms)
    ensures E.ParseKms(Release(role), req, Lower(host), outside).Some? <==> GoodKms(req, outside, role, kms, host)
  {
    hide Ascii, Lower, HexBytes, L.Hex;
    if kms.Some? && kms.value.expectedEvmAddress.Some? { AddressSaid(kms.value.expectedEvmAddress.value); }
  }

  lemma ElectrumRead(req: EndpointsRequest, outside: Outside, role: SignerRole, host: seq<u8>, port: nat)
    requires req.electrumUrl == Ascii("ssl://") + (host + ([0x3A] + L.Decimal(port)))
    ensures E.ParseElectrum(Release(role), req, outside) ==
      if GoodHost(host, outside) && GoodPort(port) then Some((Lower(host), port)) else None
  {
    hide Ascii, Lower, L.Decimal, E.HostAndPort, Utf8, GoodHost, GoodPort, HostPart;
    var digits, scheme := L.Decimal(port), Ascii("ssl://");
    NoSlash(port);
    UrlWithoutSlash(scheme, host, digits);
    HostAndPortRead(host, port, outside);
    var rest := host + ([0x3A] + digits);
    assert (scheme + rest)[|scheme|..] == rest;
  }

  lemma HostAndPortRead(host: seq<u8>, port: nat, outside: Outside)
    ensures E.HostAndPort(host + ([0x3A] + L.Decimal(port)), None, outside) ==
      if GoodHost(host, outside) && GoodPort(port) then Some((Lower(host), port)) else None
  {
    hide Lower, L.Decimal, LastIndex, HostPart, ParseUint;
    var digits := L.Decimal(port);
    DecimalHasNoColon(port);
    HostBeforePort(host, digits);
    NumberReads(false, 0, port, U32);
    var rest := host + ([0x3A] + digits);
    assert rest[|host| + 1..] == digits;
    assert 0x5F in host <==> !Free(host, 0x5F);
  }

  lemma NoSlash(n: nat)
    ensures StripOne(L.Decimal(n), 0x2F) == L.Decimal(n)
  {
    PaddedValue(0, n);
    var s := L.Decimal(n);
    assert Padded(0, n) == s;
    assert s[|s| - 1] in s;
  }

  lemma PolicyResolved(env: Env, req: EndpointsRequest, outside: Outside, p: Policy,
      sats: nat, host: seq<u8>, port: nat, c: E.BridgeConfig, e: E.Endpoints)
    requires SaysPolicy(env, req, outside, p, sats, host, port) && E.FromEnv(env) == Some(c)
    requires E.ParseEndpoints(Release(p.posture.signerRole), req, outside) == Some(e)
    ensures c.chainId == p.posture.chainId && c.bridgeContract == p.posture.bridgeContract
    ensures c.rgbAssetId == p.posture.rgbAssetId && c.bitcoinNetwork == p.posture.bitcoinNetwork
    ensures c.fundsInContract == p.evidence.fundsInContract && c.finalityTag == p.evidence.finalityTag
    ensures c.spvMinConfirmations == p.evidence.spvMinConfirmations && e.electrumHost == p.evidence.electrumHost
    ensures c.btcRelayRequired == !RelayOff(env) && c.tokenContract == p.tokenContract && e.evmRpcTls.Some?
  {
    hide E.FromEnv, E.ParseEndpoints, SaysPosture, SaysEvidence, P.ExpectedPosture, P.ExpectedEvidence;
    hide SaysGas, SaysKms, HexBytes, L.Hex, Zeros;
    PostureExpected(env, p.posture, sats);
    EvidenceExpected(env, req, outside, p.evidence, host, port);
    A.PostureAgrees(p.posture.signerRole, env, c);
    A.EvidenceAgrees(Release(p.posture.signerRole), env, req, outside, c, e);
    AddressSaid(p.tokenContract);
    A.TokenAgrees(env, c);
    RelayStays(env, c);
  }

  lemma RelayStays(env: Env, c: E.BridgeConfig)
    requires E.FromEnv(env) == Some(c)
    ensures c.btcRelayRequired == !RelayOff(env)
  {
    hide Ascii, ParseUint, HexBytes, ParseFinalityTag, Trim, Entries, E.GoodSelectors, E.SpvNetworkFromEnv;
  }

  /** The launch came up with a production policy over the pinned TLS source. */
  predicate InProduction(launched: Option<E.SecurityPolicy>) {
    launched.Some? && launched.value.Pinned? && launched.value.production.evmSource == PinnedTlsRpc
  }

  predicate Launchable(env: Env, req: EndpointsRequest, outside: Outside, p: Policy, own: Option<Pcr>,
      host: seq<u8>, port: nat)
    requires p.Production?
  {
    Complete(p, own) && GoodEndpoints(req, outside, p.posture.signerRole, p.kms, host, port) && !RelayOff(env)
  }

  /**
   * A release enclave launched with the printed values comes up in production exactly if the policy is complete,
   * the endpoints are good and the relay check is on; and then it attests that policy, with its own PCR3.
   */
  lemma EnclaveAttestsThePolicy(env: Env, req: EndpointsRequest, outside: Outside, p: Policy, own: Option<Pcr>,
      sats: nat, host: seq<u8>, port: nat)
    requires SaysPolicy(env, req, outside, p, sats, host, port)
    ensures var launched := E.Launch(Release(p.posture.signerRole), env, req, outside, own);
      && (InProduction(launched) <==> Launchable(env, req, outside, p, own, host, port))
      && (InProduction(launched) ==>
            E.Attested(launched.value) == p.(clonePeerPcr3 := if p.posture.signerRole == Mint then None else own))
  {
    LaunchExactly(env, req, outside, p, own, sats, host, port);
    if Launchable(env, req, outside, p, own, host, port) {
      ParentExpectsThePolicy(env, req, outside, p, sats, host, port);
      assert p.Production? && (p.posture.signerRole != Mint ==> own.Some? && own.value != ZERO_PCR);
      hide SaysPolicy, GoodEndpoints, RelayOff, Complete, P.ExpectedPolicy, E.Launch, E.Attested, Zeros, Release;
      hide P.WithDocumentPcr3;
      var pcrs := WithOwnPcr3(p, own);
      A.PoliciesAgree(Release(p.posture.signerRole), env, req, outside, own, pcrs);
    }
  }

  lemma WithOwnPcr3(p: Policy, own: Option<Pcr>) returns (pcrs: map<nat, seq<u8>>)
    requires p.Production? && (p.posture.signerRole != Mint ==> own.Some? && own.value != ZERO_PCR)
    ensures own.Some? ==> 3 in pcrs && pcrs[3] == own.value
    ensures P.WithDocumentPcr3(p.(clonePeerPcr3 := None), pcrs) ==
      Some(p.(clonePeerPcr3 := if p.posture.signerRole == Mint then None else own))
  {
    pcrs := if own.Some? then map[3 := own.value] else map[];
  }

  lemma LaunchExactly(env: Env, req: EndpointsRequest, outside: Outside, p: Policy, own: Option<Pcr>,
      sats: nat, host: seq<u8>, port: nat)
    requires SaysPolicy(env, req, outside, p, sats, host, port)
    ensures InProduction(E.Launch(Release(p.posture.signerRole), env, req, outside, own)) <==>
      Launchable(env, req, outside, p, own, host, port)
  {
    var role := p.posture.signerRole;
    ConfigRead(env, req, outside, p, sats, host, port);
    EndpointsRead(req, outside, role, p.kms, host, port);
    if E.FromEnv(env).Some? && E.ParseEndpoints(Release(role), req, outside).Some? {
      var c, e := E.FromEnv(env).value, E.ParseEndpoints(Release(role), req, outside).value;
      PolicyResolved(env, req, outside, p, sats, host, port, c, e);
      hide E.FromEnv, E.ParseEndpoints, SaysPosture, SaysGas, SaysKms, GoodEndpoints, RelayOff, E.Launch;
      hide Ascii, Lower, Zeros;
      LaunchOf(env, req, outside, own, role, c, e);
    }
  }

  lemma LaunchOf(env: Env, req: EndpointsRequest, outside: Outside, own: Option<Pcr>, role: SignerRole,
      c: E.BridgeConfig, e: E.Endpoints)
    requires E.FromEnv(env) == Some(c) && E.ParseEndpoints(Release(role), req, outside) == Some(e)
    requires e.evmRpcTls.Some? && c.finalityTag != Latest
    ensures InProduction(E.Launch(Release(role), env, req, outside, own)) <==>
      && c.chainId != 0 && c.bridgeContract != ZERO_ADDRESS && c.rgbAssetId != []
      && (c.chainId == 1 || c.chainId == 42161 ==> c.bitcoinNetwork == Mainnet)
      && c.fundsInContract != ZERO_ADDRESS && c.tokenContract != ZERO_ADDRESS
      && c.spvMinConfirmations != 0 && e.electrumHost != [] && c.btcRelayRequired
      && (role != Mint ==> own.Some? && own.value != ZERO_PCR)
  {
    hide E.FromEnv, E.ParseEndpoints, Zeros;
  }
}
