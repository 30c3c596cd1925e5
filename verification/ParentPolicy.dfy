/** The policy that the parent expects a launched enclave to attest (`parent/src/launch_check.rs`). */
module ParentPolicy {
  import opened Bytes
  import opened Policy
  import opened PolicyInputs
  import opened Strings

  function Present(env: Env, key: string): Option<Text> { if key in env then Some(env[key]) else None }

  function Optional(env: Env, key: string): Option<Text> {
    if key in env && env[key] != [] then Some(env[key]) else None
  }

  /** A gas value, which a role that signs no gas transactions does not read. */
  function Gas(role: SignerRole, env: Env, key: string): Option<Text> {
    if role == Mint then None else Optional(env, key)
  }

  /** An unset number is zero, and a bad one is refused. */
  function Number(value: Option<Text>, bound: nat): (r: Option<nat>)
    requires bound > 0
    ensures r.Some? ==> r.value < bound
  {
    if value.None? then Some(0) else ParseUint(value.value, bound)
  }

  function NetworkFromEnv(s: seq<u8>): Option<BitcoinNetwork> {
    if s == Ascii("bitcoin") || s == Ascii("mainnet") then Some(Mainnet)
    else if s == Ascii("testnet") || s == Ascii("testnet3") then Some(Testnet3)
    else if s == Ascii("signet") then Some(Signet)
    else if s == Ascii("signetcustom") then Some(SignetCustom)
    else if s == Ascii("testnet4") then Some(Testnet4)
    else if s == Ascii("regtest") then Some(Regtest)
    else None
  }

  function Network(env: Env): Option<BitcoinNetwork> {
    var name := Optional(env, "BITCOIN_NETWORK");
    NetworkFromEnv(if name.Some? then name.value else Ascii("bitcoin"))
  }

  /** Only an absent tag has a default, and `latest` is refused. */
  function ExpectedTag(env: Env): Option<FinalityTag> {
    var tag :- if "EVM_FINALITY_TAG" in env then ParseFinalityTag(env["EVM_FINALITY_TAG"]) else Some(Finalized);
    if tag == Latest then None else Some(tag)
  }

  function ExpectedVanilla(role: SignerRole, env: Env): Option<bool> {
    if role == Burn then Some(false) else
    var sats :- Number(Optional(env, "BTC_MAX_TOTAL_SATS"), U64);
    Some(sats != 0)
  }

  function IndexerHost(electrumUrl: Text): Option<Text> {
    Utf8StripOne(electrumUrl, 0x2F);
    var url: Text := StripOne(electrumUrl, 0x2F);
    var ssl, tcp := StripPrefix(url, Ascii("ssl://")), StripPrefix(url, Ascii("tcp://"));
    var https, http := StripPrefix(url, Ascii("https://")), StripPrefix(url, Ascii("http://"));
    if ssl.Some? || tcp.Some? then
      var rest := if ssl.Some? then ssl.value else tcp.value;
      if LastIndex(rest, 0x3A).None? then None else
      HostIsText(url, if ssl.Some? then Ascii("ssl://") else Ascii("tcp://"));
      Some(Lower(HostPart(rest)))
    else if https.Some? || http.Some? then
      HostIsText(url, if https.Some? then Ascii("https://") else Ascii("http://"));
      Some(Lower(HostPart(if https.Some? then https.value else http.value)))
    else None
  }

  function ExpectedTls(req: EndpointsRequest, outside: Outside): Option<TlsPin> {
    if req.evmRpcCaDer == [] then None else
    Utf8Lower(req.evmRpcHost);
    Some(TlsPin(Lower(req.evmRpcHost), outside.sha256(req.evmRpcCaDer)))
  }

  function ExpectedKms(req: EndpointsRequest): Option<Option<KmsPin>> {
    if req.kmsKeyArn == [] && req.kmsRegion == [] && req.kmsSeedId == [] && req.kmsExpectedEvmAddress == [] then
      Some(None)
    else if req.kmsExpectedEvmAddress == [] then
      Some(Some(KmsPin(req.kmsKeyArn, req.kmsRegion, req.kmsSeedId, None)))
    else
      var address :- ParseAddress(req.kmsExpectedEvmAddress);
      Some(Some(KmsPin(req.kmsKeyArn, req.kmsRegion, req.kmsSeedId, Some(address))))
  }

  /** Every entry, or a refusal of them all. */
  function AllSelectors(entries: seq<seq<u8>>): Option<seq<Selector>> {
    if entries == [] then Some([]) else
    var first :- ParseSelector(entries[0]);
    var rest :- AllSelectors(entries[1..]);
    Some([first] + rest)
  }

  function ExpectedPosture(role: SignerRole, env: Env): Option<Posture> {
    var vanilla :- ExpectedVanilla(role, env);
    var chain :- Present(env, "EVM_CHAIN_ID");
    var chainId :- Number(Some(chain), U64);
    var network :- Network(env);
    var proxy :- Present(env, "EVM_PROXY_CONTRACT_ADDRESS");
    var bridge :- ParseAddress(proxy);
    var asset :- Present(env, "RGB_ASSET_ID");
    Some(Posture(vanilla, role, Real, PinnedTlsRpc, SpvVerified, chainId, network, bridge, asset))
  }

  function ExpectedEvidence(env: Env, req: EndpointsRequest, outside: Outside): Option<Evidence> {
    var tag :- ExpectedTag(env);
    var host :- IndexerHost(req.electrumUrl);
    var fundsIn :- Present(env, "FUNDS_IN_CONTRACT");
    var contract :- ParseAddress(fundsIn);
    var depth :- Present(env, "SPV_MIN_CONFIRMATIONS");
    var confirmations :- Number(Some(depth), U32);
    Some(Evidence(contract, tag, confirmations, host, ExpectedTls(req, outside)))
  }

  function ExpectedGas(role: SignerRole, env: Env): Option<GasRule> {
    var to := Gas(role, env, "GAS_TX_ALLOWED_TO");
    var allowedTo :- if to.Some? then ParseAddress(to.value) else Some(ZERO_ADDRESS);
    var limit :- Number(Gas(role, env, "GAS_TX_MAX_GAS_LIMIT"), U64);
    var fee :- Number(Gas(role, env, "GAS_TX_MAX_FEE_PER_GAS"), U128);
    var wei :- Number(Gas(role, env, "GAS_TX_MAX_VALUE_WEI"), U128);
    var list := Gas(role, env, "GAS_TX_ALLOWED_SELECTORS");
    var selectors :- AllSelectors(Entries(if list.Some? then list.value else []));
    Some(GasRule(allowedTo, limit, fee, wei, selectors))
  }

  function ExpectedPolicy(role: SignerRole, env: Env, req: EndpointsRequest, outside: Outside): Option<Policy> {
    var posture :- ExpectedPosture(role, env);
    var evidence :- ExpectedEvidence(env, req, outside);
    var gas :- ExpectedGas(role, env);
    var contract :- Present(env, "TOKEN_CONTRACT");
    var token :- ParseAddress(contract);
    var kms :- ExpectedKms(req);
    Some(Production(posture, evidence, gas, token, kms, None))
  }

  /** The clone-peer PCR3 that a role must attest, from the PCRs of the verified document. */
  function ClonePeerPcr3(role: SignerRole, pcrs: map<nat, seq<u8>>): Option<Option<Pcr>> {
    if role == Mint then Some(None)
    else if 3 !in pcrs || |pcrs[3]| != 48 || pcrs[3] == ZERO_PCR then None
    else Some(Some(pcrs[3]))
  }

  function WithDocumentPcr3(p: Policy, pcrs: map<nat, seq<u8>>): Option<Policy> {
    if p.Development? then Some(p) else
    var pcr3 :- ClonePeerPcr3(p.posture.signerRole, pcrs);
    Some(p.(clonePeerPcr3 := pcr3))
  }
}
