/**
 * The parent and the enclave build the attested policy from the same inputs, each in its own way. When the
 * parent expects a policy and the enclave launches with a production one, they are the same policy.
 */
module PolicyAgreement {
  import opened Bytes
  import opened Policy
  import opened PolicyInputs
  import opened Strings
  import P = ParentPolicy
  import E = EnclavePolicy
  import C = PolicyCodec
  import LaunchCheck

  /** A number the parent accepts is the one the enclave reads, trimmed or not. */
  lemma NumberAgrees(env: Env, key: string, bound: nat)
    requires bound > 0 && P.Number(P.Optional(env, key), bound).Some?
    ensures E.UintOrZero(env, key, bound) == P.Number(P.Optional(env, key), bound).value
    ensures key in env && env[key] != [] ==> Trim(env[key]) == env[key]
  {
    hide Trim, ParseUint;
    if key in env {
      if env[key] == [] {
        assert ParseUint([], bound).None? by { EmptyIsNoNumber(bound); }
      } else {
        NumbersAreTrimmed(env[key], bound);
      }
    }
  }

  lemma EmptyIsNoNumber(bound: nat)
    ensures ParseUint([], bound).None? && Trim([]) == []
  {
  }

  lemma EmptyIsNoHex(n: nat)
    requires n > 0
    ensures HexBytes([], n).None?
  {
  }

  /** Where the parent accepts every selector, the enclave drops none. */
  lemma {:induction false} SelectorsAgree(entries: seq<seq<u8>>)
    requires P.AllSelectors(entries).Some?
    ensures E.GoodSelectors(entries) == P.AllSelectors(entries).value
  {
    hide ParseSelector;
    if entries != [] { SelectorsAgree(entries[1..]); }
  }

  lemma EmptyHasNoEntries()
    ensures Entries([]) == []
  {
    assert Split([], 0x2C, []) == [[]];
    assert NotBlank([[]]) == NotBlank([]);
  }

  lemma NetworkNamesAgree(s: seq<u8>)
    ensures E.SpvNetworkFromEnv(s) == P.NetworkFromEnv(s)
    ensures E.SpvNetworkFromEnv([]).None?
  {
    assert |Ascii("testnet")| == 7 && |Ascii("testnet3")| == 8;
    assert |Ascii("signet")| == 6 && |Ascii("signetcustom")| == 12;
  }

  /** A blank network is mainnet to the parent, and stops the boot of the enclave. */
  lemma NetworkAgrees(env: Env, c: E.BridgeConfig)
    requires P.Network(env).Some? && E.FromEnv(env) == Some(c)
    ensures P.Network(env).value == c.bitcoinNetwork
  {
    hide Ascii, ParseUint, ParseAddress, ParseFinalityTag, Trim, Entries, E.GoodSelectors;
    hide P.NetworkFromEnv, E.SpvNetworkFromEnv;
    NetworkNamesAgree(if "BITCOIN_NETWORK" in env then env["BITCOIN_NETWORK"] else Ascii("bitcoin"));
  }

  lemma PostureAgrees(role: SignerRole, env: Env, c: E.BridgeConfig)
    requires P.ExpectedPosture(role, env).Some? && E.FromEnv(env) == Some(c)
    ensures var p := P.ExpectedPosture(role, env).value;
      p == Posture(role != Burn && c.btcMaxTotalSats != 0, role, Real, PinnedTlsRpc, SpvVerified,
        c.chainId, c.bitcoinNetwork, c.bridgeContract, c.rgbAssetId)
  {
    hide Ascii, ParseUint, ParseAddress, ParseFinalityTag, Trim, Entries, E.GoodSelectors;
    hide P.NetworkFromEnv, E.SpvNetworkFromEnv;
    if role != Burn { NumberAgrees(env, "BTC_MAX_TOTAL_SATS", U64); }
    NetworkAgrees(env, c);
  }

  lemma ConfirmationsAgree(env: Env)
    requires "SPV_MIN_CONFIRMATIONS" in env && P.Number(Some(env["SPV_MIN_CONFIRMATIONS"]), U32).Some?
    requires E.SpvMinConfirmations(env).Some?
    ensures E.SpvMinConfirmations(env) == P.Number(Some(env["SPV_MIN_CONFIRMATIONS"]), U32)
  {
    NumbersAreTrimmed(env["SPV_MIN_CONFIRMATIONS"], U32);
  }

  /** A release enclave reads the host as the parent does, from a TLS URL. */
  lemma HostAgrees(ctx: E.BuildContext, req: EndpointsRequest, outside: Outside)
    requires ctx.rgbValidation && !ctx.debugOrTest && !ctx.mockAttestation && !ctx.allowSeedImport
    requires P.IndexerHost(req.electrumUrl).Some? && E.ParseElectrum(ctx, req, outside).Some?
    ensures P.IndexerHost(req.electrumUrl).value == E.ParseElectrum(ctx, req, outside).value.0
  {
    hide Ascii, LastIndex, Lower, HostPart;
    SchemesDiffer(StripOne(req.electrumUrl, 0x2F));
  }

  lemma SchemesDiffer(url: seq<u8>)
    ensures Ascii("ssl://") <= url || Ascii("tcp://") <= url ==> !(Ascii("https://") <= url)
  {
    assert Ascii("ssl://")[0] != Ascii("https://")[0] && Ascii("tcp://")[0] != Ascii("https://")[0];
  }

  lemma TlsAgrees(ctx: E.BuildContext, req: EndpointsRequest, port: nat, outside: Outside)
    requires ctx.evmRpc && E.ParseTls(ctx, req, port, outside).Some?
    ensures var tls := E.ParseTls(ctx, req, port, outside).value;
      tls.Some? && P.ExpectedTls(req, outside) == Some(TlsPin(tls.value.host, outside.sha256(tls.value.caDer)))
  {
    hide Lower;
  }

  lemma KmsAgrees(ctx: E.BuildContext, req: EndpointsRequest, host: seq<u8>, outside: Outside)
    requires !ctx.allowSeedImport && P.ExpectedKms(req).Some? && E.ParseKms(ctx, req, host, outside).Some?
    ensures E.ParseKms(ctx, req, host, outside) == P.ExpectedKms(req)
  {
    hide ParseAddress, Ascii;
  }

  lemma GasAgrees(role: SignerRole, env: Env, c: E.BridgeConfig)
    requires P.ExpectedGas(role, env).Some? && E.FromEnv(env) == Some(c)
    ensures var g := P.ExpectedGas(role, env).value;
      if role == Mint then g == GasRule(ZERO_ADDRESS, 0, 0, 0, [])
      else g == GasRule(
        if c.gasTxAllowedTo.Some? then c.gasTxAllowedTo.value else ZERO_ADDRESS,
        c.gasTxMaxGasLimit, c.gasTxMaxFeePerGas,
        if c.gasTxMaxValueWei.Some? then c.gasTxMaxValueWei.value else 0,
        c.gasTxAllowedSelectors)
  {
    hide Ascii, ParseUint, HexBytes, ParseFinalityTag, Trim, Entries, E.GoodSelectors, P.AllSelectors;
    hide E.SpvNetworkFromEnv, E.SpvMinConfirmations, E.RelayRequired;
    EmptyHasNoEntries();
    EmptyIsNoHex(20);
    EmptyIsNoNumber(U128);
    assert P.AllSelectors([]) == Some([]) by { NoSelectors(); }
    if role != Mint {
      NumberAgrees(env, "GAS_TX_MAX_GAS_LIMIT", U64);
      NumberAgrees(env, "GAS_TX_MAX_FEE_PER_GAS", U128);
      NumberAgrees(env, "GAS_TX_MAX_VALUE_WEI", U128);
      var list := P.Gas(role, env, "GAS_TX_ALLOWED_SELECTORS");
      SelectorsAgree(Entries(if list.Some? then list.value else []));
      SelectorsAgree([]);
    }
  }

  lemma NoSelectors()
    ensures P.AllSelectors([]) == Some([])
  {
  }

  lemma EvidenceAgrees(ctx: E.BuildContext, env: Env, req: EndpointsRequest, outside: Outside,
      c: E.BridgeConfig, e: E.Endpoints)
    requires P.ExpectedEvidence(env, req, outside).Some?
    requires E.FromEnv(env) == Some(c) && E.ParseEndpoints(ctx, req, outside) == Some(e)
    requires ctx.rgbValidation && !ctx.debugOrTest && !ctx.mockAttestation && !ctx.allowSeedImport && ctx.evmRpc
    ensures e.evmRpcTls.Some?
    ensures P.ExpectedEvidence(env, req, outside).value == Evidence(
      c.fundsInContract, c.finalityTag, c.spvMinConfirmations, e.electrumHost,
      Some(TlsPin(e.evmRpcTls.value.host, outside.sha256(e.evmRpcTls.value.caDer))))
  {
    hide Ascii, ParseUint, HexBytes, ParseFinalityTag, Trim, Entries, E.GoodSelectors;
    hide E.SpvNetworkFromEnv, E.SpvMinConfirmations, E.RelayRequired, P.IndexerHost, E.ParseElectrum, E.ParseTls;
    hide P.ExpectedTls, E.ParseKms;
    ConfirmationsAgree(env);
    HostAgrees(ctx, req, outside);
    TlsAgrees(ctx, req, E.ParseElectrum(ctx, req, outside).value.1, outside);
  }

  /**
   * Whatever the environment, the endpoints and the role: if the parent expects a policy, the document carries
   * the enclave's own PCR3, and the enclave launches with a production policy over the pinned TLS source, the
   * policy the parent expects is the policy the enclave attests.
   */
  lemma PoliciesAgree(ctx: E.BuildContext, env: Env, req: EndpointsRequest, outside: Outside,
      own: Option<Pcr>, pcrs: map<nat, seq<u8>>)
    requires var expected := P.ExpectedPolicy(ctx.signerRole, env, req, outside);
      expected.Some? && P.WithDocumentPcr3(expected.value, pcrs).Some?
    requires own.Some? ==> 3 in pcrs && pcrs[3] == own.value
    requires var launched := E.Launch(ctx, env, req, outside, own);
      launched.Some? && launched.value.Pinned? && launched.value.production.evmSource == PinnedTlsRpc
    ensures P.WithDocumentPcr3(P.ExpectedPolicy(ctx.signerRole, env, req, outside).value, pcrs)
      == Some(E.Attested(E.Launch(ctx, env, req, outside, own).value))
  {
    hide P.ExpectedPosture, P.ExpectedEvidence, P.ExpectedGas, P.ExpectedKms, E.FromEnv, ParseAddress, Zeros;
    hide E.ParseElectrum, E.ParseTls, E.ParseKms, E.Fits, E.Invariants, E.IsConfigured;
    var c, e := E.FromEnv(env).value, E.ParseEndpoints(ctx, req, outside).value;
    PostureAgrees(ctx.signerRole, env, c);
    EvidenceAgrees(ctx, env, req, outside, c, e);
    GasAgrees(ctx.signerRole, env, c);
    KmsAgrees(ctx, req, e.electrumHost, outside);
    TokenAgrees(env, c);
  }

  lemma TokenAgrees(env: Env, c: E.BridgeConfig)
    requires E.FromEnv(env) == Some(c) && "TOKEN_CONTRACT" in env && ParseAddress(env["TOKEN_CONTRACT"]).Some?
    ensures ParseAddress(env["TOKEN_CONTRACT"]).value == c.tokenContract
  {
    hide Ascii, ParseUint, HexBytes, ParseFinalityTag, Trim, Entries, E.GoodSelectors;
    hide E.SpvNetworkFromEnv, E.SpvMinConfirmations, E.RelayRequired;
  }

  /** So the launch check of the parent passes on the bytes that enclave attests, if their lengths fit. */
  lemma LaunchCheckPasses(ctx: E.BuildContext, env: Env, req: EndpointsRequest, outside: Outside,
      own: Option<Pcr>, pcrs: map<nat, seq<u8>>)
    requires var expected := P.ExpectedPolicy(ctx.signerRole, env, req, outside);
      expected.Some? && P.WithDocumentPcr3(expected.value, pcrs).Some?
    requires own.Some? ==> 3 in pcrs && pcrs[3] == own.value
    requires var launched := E.Launch(ctx, env, req, outside, own);
      launched.Some? && launched.value.Pinned? && launched.value.production.evmSource == PinnedTlsRpc
    ensures
      var expected := P.WithDocumentPcr3(P.ExpectedPolicy(ctx.signerRole, env, req, outside).value, pcrs).value;
      var attested := E.Attested(E.Launch(ctx, env, req, outside, own).value);
      C.Small(attested) <==> LaunchCheck.Compare(expected, C.Encode(attested)) == Ok(C.Canon(attested))
  {
    hide P.ExpectedPolicy, P.WithDocumentPcr3, E.Launch, E.Attested, LaunchCheck.Compare, C.Encode, C.Canon, C.Small;
    PoliciesAgree(ctx, env, req, outside, own, pcrs);
    var attested := E.Attested(E.Launch(ctx, env, req, outside, own).value);
    LaunchCheck.ComparePassesExactly(attested, C.Encode(attested));
  }
}
