/**
 * The policy that the enclave resolves at launch and attests (`enclave/src/policy.rs`, `enclave/src/config.rs`).
 * A panic at boot and a refused `SetEndpoints` are both `None`.
 */
module EnclavePolicy {
  import opened Bytes
  import opened Policy
  import opened PolicyInputs
  import opened Strings

  /** Only a mint signer is built with `kms-persistence`. */
  datatype BuildContext = BuildContext(
    debugOrTest: bool,
    mockAttestation: bool,
    allowSeedImport: bool,
    rgbValidation: bool,
    spv: bool,
    evmRpc: bool,
    signerRole: SignerRole)

  const MAX_ENDPOINT_STRING_BYTES: nat := 2048
  const MAX_EVM_RPC_CA_DER_BYTES: nat := 16384
  const DEFAULT_SPV_MIN_CONFIRMATIONS: u32 := 3

  // ---- The image environment ----

  datatype BridgeConfig = BridgeConfig(
    chainId: u64,
    bridgeContract: Address,
    rgbAssetId: Text,
    gasTxAllowedTo: Option<Address>,
    gasTxMaxGasLimit: u64,
    gasTxMaxFeePerGas: u128,
    gasTxAllowedSelectors: seq<Selector>,
    gasTxMaxValueWei: Option<u128>,
    btcMaxTotalSats: u64,
    fundsInContract: Address,
    finalityTag: FinalityTag,
    tokenContract: Address,
    bitcoinNetwork: BitcoinNetwork,
    btcRelayRequired: bool,
    spvMinConfirmations: u32)

  /** Unset or unparseable is zero. */
  function UintOrZero(env: Env, key: string, bound: nat): (r: nat)
    requires bound > 0
    ensures r < bound
  {
    var value := if key in env then ParseUint(env[key], bound) else None;
    if value.Some? then value.value else 0
  }

  function AddressIfGood(env: Env, key: string): Option<Address> { if key in env then ParseAddress(env[key]) else None }

  function AddressOr(env: Env, key: string, other: Address): Address {
    var address := AddressIfGood(env, key);
    if address.Some? then address.value else other
  }

  /** A malformed entry is dropped, and the others stay. */
  function GoodSelectors(entries: seq<seq<u8>>): seq<Selector> {
    if entries == [] then [] else
    var first := ParseSelector(entries[0]);
    if first.Some? then [first.value] + GoodSelectors(entries[1..]) else GoodSelectors(entries[1..])
  }

  function SpvNetworkFromEnv(s: seq<u8>): Option<BitcoinNetwork> {
    if s == Ascii("bitcoin") || s == Ascii("mainnet") then Some(Mainnet)
    else if s == Ascii("signet") then Some(Signet)
    else if s == Ascii("signetcustom") then Some(SignetCustom)
    else if s == Ascii("testnet") || s == Ascii("testnet3") then Some(Testnet3)
    else if s == Ascii("testnet4") then Some(Testnet4)
    else if s == Ascii("regtest") then Some(Regtest)
    else None
  }

  /** Unset or blank is the default, and zero or a bad number stops the boot. */
  function SpvMinConfirmations(env: Env): Option<u32> {
    var raw := if "SPV_MIN_CONFIRMATIONS" in env then Trim(env["SPV_MIN_CONFIRMATIONS"]) else [];
    if raw == [] then Some(DEFAULT_SPV_MIN_CONFIRMATIONS) else
    var n :- ParseUint(raw, U32);
    if n >= 1 then Some(n) else None
  }

  /** A typo never turns the relay check off. */
  function RelayRequired(env: Env): bool {
    "BTC_RELAY_MODE" !in env || Lower(Trim(env["BTC_RELAY_MODE"])) != Ascii("none")
  }

  function FromEnv(env: Env): Option<BridgeConfig> {
    var bridge := AddressOr(env, "EVM_PROXY_CONTRACT_ADDRESS", ZERO_ADDRESS);
    var list := if "GAS_TX_ALLOWED_SELECTORS" in env then Entries(env["GAS_TX_ALLOWED_SELECTORS"]) else [];
    var wei := if "GAS_TX_MAX_VALUE_WEI" in env then ParseUint(Trim(env["GAS_TX_MAX_VALUE_WEI"]), U128) else None;
    var tag :- if "EVM_FINALITY_TAG" in env then ParseFinalityTag(env["EVM_FINALITY_TAG"]) else Some(Finalized);
    var network :-
      SpvNetworkFromEnv(if "BITCOIN_NETWORK" in env then env["BITCOIN_NETWORK"] else Ascii("bitcoin"));
    var depth :- SpvMinConfirmations(env);
    Some(BridgeConfig(
      UintOrZero(env, "EVM_CHAIN_ID", U64),
      bridge,
      if "RGB_ASSET_ID" in env then env["RGB_ASSET_ID"] else [],
      AddressIfGood(env, "GAS_TX_ALLOWED_TO"),
      UintOrZero(env, "GAS_TX_MAX_GAS_LIMIT", U64),
      UintOrZero(env, "GAS_TX_MAX_FEE_PER_GAS", U128),
      GoodSelectors(list),
      wei,
      UintOrZero(env, "BTC_MAX_TOTAL_SATS", U64),
      AddressOr(env, "FUNDS_IN_CONTRACT", bridge),
      tag,
      AddressOr(env, "TOKEN_CONTRACT", ZERO_ADDRESS),
      network,
      RelayRequired(env),
      depth))
  }

  predicate IsConfigured(c: BridgeConfig) {
    c.chainId != 0 && c.bridgeContract != ZERO_ADDRESS && c.rgbAssetId != []
  }

  // ---- The endpoints ----

  datatype EvmRpcTls = EvmRpcTls(host: Text, caDer: seq<u8>, tlsPort: nat)

  datatype Endpoints = Endpoints(
    electrumHost: Text, electrumPort: nat, evmRpcTls: Option<EvmRpcTls>, kms: Option<KmsPin>)

  predicate IsPort(port: nat) { 1 <= port <= 65535 }

  /** A DNS host name, lowercased. */
  function ParseHost(host: seq<u8>, outside: Outside): Option<seq<u8>> {
    if 0x5F in host || (host != [] && host[|host| - 1] == 0x2E) || !outside.dnsName(host) then None
    else Some(Lower(host))
  }

  function HostAndPort(rest: seq<u8>, defaultPort: Option<nat>, outside: Outside): (r: Option<(seq<u8>, nat)>)
    ensures r.Some? ==> r.value.0 == Lower(HostPart(rest))
  {
    var colon := LastIndex(rest, 0x3A);
    var port :- if colon.Some? then ParseUint(rest[colon.value + 1..], U32) else defaultPort;
    var host :- ParseHost(HostPart(rest), outside);
    if IsPort(port) then Some((host, port)) else None
  }

  function ParseIndexerUrl(url: Text, allowPlaintext: bool, outside: Outside): (r: Option<(seq<u8>, nat)>)
    ensures r.Some? ==> Utf8(r.value.0)
  {
    var ssl, https := StripPrefix(url, Ascii("ssl://")), StripPrefix(url, Ascii("https://"));
    var tcp, http := StripPrefix(url, Ascii("tcp://")), StripPrefix(url, Ascii("http://"));
    if ssl.Some? then HostIsText(url, Ascii("ssl://")); HostAndPort(ssl.value, None, outside)
    else if https.Some? then HostIsText(url, Ascii("https://")); HostAndPort(https.value, Some(443), outside)
    else if !allowPlaintext then None
    else if tcp.Some? then HostIsText(url, Ascii("tcp://")); HostAndPort(tcp.value, None, outside)
    else if http.Some? then HostIsText(url, Ascii("http://")); HostAndPort(http.value, Some(80), outside)
    else None
  }

  predicate Fits(s: Text) { |s| <= MAX_ENDPOINT_STRING_BYTES }

  predicate NoKms(req: EndpointsRequest) {
    req.kmsKeyArn == [] && req.kmsRegion == [] && req.kmsSeedId == [] && req.kmsExpectedEvmAddress == []
  }

  function ParseElectrum(ctx: BuildContext, req: EndpointsRequest, outside: Outside): (r: Option<(seq<u8>, nat)>)
    ensures r.Some? ==> Utf8(r.value.0)
  {
    Utf8StripOne(req.electrumUrl, 0x2F);
    if ctx.rgbValidation then
      ParseIndexerUrl(
        StripOne(req.electrumUrl, 0x2F), ctx.debugOrTest || ctx.mockAttestation || ctx.allowSeedImport, outside)
    else if req.electrumUrl == [] then Some(([], 0)) else None
  }

  /** The enclave refuses an empty certificate along with every other that is not one of a CA. */
  function ParseTls(ctx: BuildContext, req: EndpointsRequest, electrumPort: nat, outside: Outside)
    : Option<Option<EvmRpcTls>>
  {
    if !ctx.evmRpc then
      if req.evmRpcHost == [] && req.evmRpcCaDer == [] && req.evmRpcTlsPort == 0 then Some(None) else None
    else
      var host :- ParseHost(req.evmRpcHost, outside);
      if |req.evmRpcCaDer| > MAX_EVM_RPC_CA_DER_BYTES then None
      else if req.evmRpcCaDer == [] || !outside.caCertificate(req.evmRpcCaDer) then None
      else if !IsPort(req.evmRpcTlsPort) || req.evmRpcTlsPort == electrumPort then None
      else
        Utf8Lower(req.evmRpcHost);
        Some(Some(EvmRpcTls(host, req.evmRpcCaDer, req.evmRpcTlsPort)))
  }

  function ParseKms(ctx: BuildContext, req: EndpointsRequest, electrumHost: seq<u8>, outside: Outside)
    : Option<Option<KmsPin>>
  {
    if ctx.signerRole != Mint then if NoKms(req) then Some(None) else None
    else if ctx.allowSeedImport && NoKms(req) then Some(None)
    else if !(3 <= |req.kmsRegion| <= 32) || !outside.kmsShape(req.kmsKeyArn, req.kmsRegion, req.kmsSeedId) then None
    else if electrumHost == Ascii("kms.") + req.kmsRegion + Ascii(".amazonaws.com") then None
    else if req.kmsExpectedEvmAddress == [] then
      Some(Some(KmsPin(req.kmsKeyArn, req.kmsRegion, req.kmsSeedId, None)))
    else
      var address :- ParseAddress(req.kmsExpectedEvmAddress);
      Some(Some(KmsPin(req.kmsKeyArn, req.kmsRegion, req.kmsSeedId, Some(address))))
  }

  function ParseEndpoints(ctx: BuildContext, req: EndpointsRequest, outside: Outside): Option<Endpoints> {
    if !Fits(req.electrumUrl) || !Fits(req.evmRpcHost) || !Fits(req.kmsKeyArn) || !Fits(req.kmsRegion)
      || !Fits(req.kmsSeedId) || !Fits(req.kmsExpectedEvmAddress) then None else
    var electrum :- ParseElectrum(ctx, req, outside);
    var tls :- ParseTls(ctx, req, electrum.1, outside);
    var kms :- ParseKms(ctx, req, electrum.0, outside);
    Some(Endpoints(electrum.0, electrum.1, tls, kms))
  }

  // ---- The resolved policy ----

  datatype ProductionPolicy = ProductionPolicy(
    chainId: u64,
    bitcoinNetwork: BitcoinNetwork,
    bridgeContract: Address,
    rgbAssetId: Text,
    fundsInContract: Address,
    finalityTag: FinalityTag,
    tokenContract: Address,
    spvMinConfirmations: u32,
    btcRelayRequired: bool,
    allowVanillaPsbt: bool,
    signerRole: SignerRole,
    evmSource: EvmDataSource,
    electrumHost: Text,
    evmRpcTls: Option<TlsPin>,
    gasTxAllowedTo: Option<Address>,
    gasTxMaxGasLimit: u64,
    gasTxMaxFeePerGas: u128,
    gasTxMaxValueWei: Option<u128>,
    gasTxAllowedSelectors: seq<Selector>,
    kms: Option<KmsPin>,
    clonePeerPcr3: Option<Pcr>)

  datatype SecurityPolicy = Pinned(production: ProductionPolicy) | Unpinned

  function Resolve(
      ctx: BuildContext, c: BridgeConfig, evmSource: EvmDataSource, tls: Option<TlsPin>, electrumHost: Text)
    : SecurityPolicy
  {
    if (ctx.rgbValidation && !ctx.spv) || ctx.mockAttestation || ctx.allowSeedImport || ctx.debugOrTest
      || !ctx.rgbValidation || !IsConfigured(c) then Unpinned else
    var plainBtc, gas := ctx.signerRole != Burn, ctx.signerRole != Mint;
    Pinned(ProductionPolicy(
      c.chainId, c.bitcoinNetwork, c.bridgeContract, c.rgbAssetId, c.fundsInContract, c.finalityTag, c.tokenContract,
      c.spvMinConfirmations, c.btcRelayRequired, plainBtc && c.btcMaxTotalSats != 0, ctx.signerRole, evmSource,
      electrumHost, tls,
      if gas then c.gasTxAllowedTo else None,
      if gas then c.gasTxMaxGasLimit else 0,
      if gas then c.gasTxMaxFeePerGas else 0,
      if gas then c.gasTxMaxValueWei else None,
      if gas then c.gasTxAllowedSelectors else [],
      None, None))
  }

  function WithKms(p: SecurityPolicy, kms: Option<KmsPin>): SecurityPolicy {
    if p.Pinned? then Pinned(p.production.(kms := kms)) else p
  }

  /** `own` is the PCR3 that the enclave reads of itself, if it can. */
  function WithClonePeerPcr3(p: SecurityPolicy, own: Option<Pcr>): Option<SecurityPolicy> {
    if p.Unpinned? || p.production.signerRole == Mint then Some(p)
    else if own.None? then None
    else Some(Pinned(p.production.(clonePeerPcr3 := own)))
  }

  predicate MainnetChain(chainId: u64) { chainId == 1 || chainId == 42161 }

  predicate Invariants(p: ProductionPolicy) {
    && p.chainId != 0 && p.bridgeContract != ZERO_ADDRESS && p.rgbAssetId != []
    && (MainnetChain(p.chainId) ==> p.bitcoinNetwork == Mainnet)
    && p.fundsInContract != ZERO_ADDRESS && p.tokenContract != ZERO_ADDRESS
    && p.finalityTag != Latest && p.spvMinConfirmations != 0 && p.btcRelayRequired
    && p.electrumHost != [] && p.evmSource != RawRpc && (p.evmSource == PinnedTlsRpc ==> p.evmRpcTls.Some?)
    && (if p.signerRole == Mint then p.clonePeerPcr3.None?
        else p.clonePeerPcr3.Some? && p.clonePeerPcr3.value != ZERO_PCR)
  }

  /** The policy of a launch that sets these endpoints. */
  function Launch(ctx: BuildContext, env: Env, req: EndpointsRequest, outside: Outside, own: Option<Pcr>)
    : Option<SecurityPolicy>
  {
    var config :- FromEnv(env);
    var endpoints :- ParseEndpoints(ctx, req, outside);
    var tls := if endpoints.evmRpcTls.None? then None
      else Some(TlsPin(endpoints.evmRpcTls.value.host, outside.sha256(endpoints.evmRpcTls.value.caDer)));
    var source := if ctx.evmRpc then PinnedTlsRpc else Disabled;
    var policy :- WithClonePeerPcr3(
      WithKms(Resolve(ctx, config, source, tls, endpoints.electrumHost), endpoints.kms), own);
    if policy.Pinned? && !Invariants(policy.production) then None else Some(policy)
  }

  function Attested(p: SecurityPolicy): Policy {
    if p.Unpinned? then Development else
    var q := p.production;
    Production(
      Posture(q.allowVanillaPsbt, q.signerRole, Real, q.evmSource, SpvVerified, q.chainId, q.bitcoinNetwork,
        q.bridgeContract, q.rgbAssetId),
      Evidence(q.fundsInContract, q.finalityTag, q.spvMinConfirmations, q.electrumHost, q.evmRpcTls),
      GasRule(
        if q.gasTxAllowedTo.Some? then q.gasTxAllowedTo.value else ZERO_ADDRESS,
        q.gasTxMaxGasLimit,
        q.gasTxMaxFeePerGas,
        if q.gasTxMaxValueWei.Some? then q.gasTxMaxValueWei.value else 0,
        q.gasTxAllowedSelectors),
      q.tokenContract, q.kms, q.clonePeerPcr3)
  }
}
