/**
 * The two loops of `attestation-verify/src/policy.rs`: `to_bytes`, which pushes a policy onto a buffer, and
 * `from_bytes`, which consumes one with a `Reader`.
 */
module PolicyWire {
  import opened Bytes
  import opened Policy
  import C = PolicyCodec

  // ---- Writing ----

  method Push(out: seq<u8>, x: seq<u8>) returns (r: seq<u8>)
    ensures r == out + x
    ensures forall t {:trigger r + t} :: r + t == out + (x + t)
  {
    forall t ensures out + x + t == out + (x + t) { ConcatAssoc(out, x, t); }
    r := out + x;
  }

  method PushText(out: seq<u8>, s: Text) returns (r: seq<u8>)
    ensures forall t {:trigger r + t} :: r + t == out + C.PutText(s, t)
  {
    r := Push(out, ToBE(|s| % U32, 4));
    r := Push(r, s);
  }

  method PushTags(out: seq<u8>, p: Posture) returns (r: seq<u8>)
    ensures forall t {:trigger r + t} :: r + t == out + C.PutTags(p, t)
  {
    hide C.FlagByte, C.RoleByte, C.ModeByte, C.EvmByte, C.BtcByte;
    r := Push(out, [C.FlagByte(p.allowVanillaPsbt)]);
    r := Push(r, [C.RoleByte(p.signerRole)]);
    r := Push(r, [C.ModeByte(p.attestation)]);
    r := Push(r, [C.EvmByte(p.evmSource)]);
    r := Push(r, [C.BtcByte(p.btcSource)]);
  }

  method PushPosture(out: seq<u8>, p: Posture) returns (r: seq<u8>)
    ensures forall t {:trigger r + t} :: r + t == out + C.PutPosture(p, t)
  {
    hide C.PutTags, C.NetworkByte, C.PutText, ToBE;
    r := PushTags(out, p);
    r := Push(r, ToBE(p.chainId, 8));
    r := Push(r, [C.NetworkByte(p.bitcoinNetwork)]);
    r := Push(r, p.bridgeContract);
    r := PushText(r, p.rgbAssetId);
  }

  method PushEvidence(out: seq<u8>, e: Evidence) returns (r: seq<u8>)
    ensures forall t {:trigger r + t} :: r + t == out + C.PutEvidence(e, t)
  {
    hide C.FinalityByte, C.PutText, ToBE;
    r := Push(out, e.fundsInContract);
    r := Push(r, [C.FinalityByte(e.finalityTag)]);
    r := Push(r, ToBE(e.spvMinConfirmations, 4));
    r := PushText(r, e.electrumHost);
    if e.evmRpcTls.Some? {
      r := Push(r, [1]);
      r := PushText(r, e.evmRpcTls.value.host);
      r := Push(r, e.evmRpcTls.value.caSha256);
    } else {
      r := Push(r, [0]);
    }
  }

  method PushSelectors(out: seq<u8>, s: seq<Selector>) returns (r: seq<u8>)
    ensures forall t {:trigger r + t} :: r + t == out + C.PutSelectors(s, t)
  {
    r := Push(out, ToBE(|s| % U32, 4));
    ghost var head := r;
    for i := 0 to |s|
      invariant r + C.PutEach(s[i..], []) == head + C.PutEach(s, [])
    {
      ghost var more := C.PutEach(s[i + 1..], []);
      assert s[i..][1..] == s[i + 1..];
      r := Push(r, s[i]);
      assert r + more == head + C.PutEach(s, []);
    }
    assert r + [] == r;
    forall t ensures r + t == head + C.PutEach(s, t) {
      C.PutEachAppend(s, [], t);
      ConcatAssoc(head, C.PutEach(s, []), t);
      assert [] + t == t;
    }
  }

  method PushGas(out: seq<u8>, g: GasRule) returns (r: seq<u8>)
    ensures forall t {:trigger r + t} :: r + t == out + C.PutGas(g, t)
  {
    r := Push(out, g.allowedTo);
    r := Push(r, ToBE(g.maxGasLimit, 8));
    r := Push(r, ToBE(g.maxFeePerGas, 16));
    r := Push(r, ToBE(g.maxValueWei, 16));
    r := PushSelectors(r, Canonical(g.allowedSelectors));
  }

  method PushKms(out: seq<u8>, kms: Option<KmsPin>) returns (r: seq<u8>)
    ensures forall t {:trigger r + t} :: r + t == out + C.PutKmsOption(kms, t)
  {
    if kms.None? {
      r := Push(out, [0]);
      return;
    }
    var pin := kms.value;
    r := Push(out, [1]);
    r := PushText(r, pin.keyArn);
    r := PushText(r, pin.region);
    r := PushText(r, pin.seedId);
    r := PushFixedOption(r, pin.expectedEvmAddress);
  }

  method PushFixedOption(out: seq<u8>, x: Option<seq<u8>>) returns (r: seq<u8>)
    ensures forall t {:trigger r + t} :: r + t == out + C.PutFixedOption(x, t)
  {
    if x.Some? {
      r := Push(out, [1]);
      r := Push(r, x.value);
    } else {
      r := Push(out, [0]);
    }
  }

  method ToBytes(p: Policy) returns (out: seq<u8>)
    ensures out == C.Encode(p)
  {
    hide C.PutPosture, C.PutEvidence, C.PutGas, C.PutKmsOption, C.PutFixedOption;
    out := Push([], [C.POLICY_COMMITMENT_V1]);
    if p.Production? {
      out := Push(out, [1]);
      out := PushPosture(out, p.posture);
      out := PushEvidence(out, p.evidence);
      out := PushGas(out, p.gas);
      out := Push(out, p.tokenContract);
      out := PushKms(out, p.kms);
      out := PushFixedOption(out, p.clonePeerPcr3);
    } else {
      out := Push(out, [0]);
    }
    assert out == out + [];
    assert C.Encode(p) == [] + C.Encode(p);
  }

  // ---- Reading ----

  /** The method took off its input what the function takes off, or failed with the same error. */
  ghost predicate Did<T>(spec: C.Read<T>, r: Result<T, C.Error>, rest: seq<u8>) {
    if spec.Ok? then r == Ok(spec.value.0) && rest == spec.value.1 else r == Err(spec.error)
  }

  class Reader {
    var rest: seq<u8>

    constructor (bytes: seq<u8>)
      ensures rest == bytes
    {
      rest := bytes;
    }

    method Take(n: nat) returns (r: Result<seq<u8>, C.Error>)
      modifies this
      ensures Did(C.Take(old(rest), n), r, rest)
    {
      if |rest| < n { return Err(C.Truncated); }
      var head := rest[..n];
      rest := rest[n..];
      return Ok(head);
    }

    method U8() returns (r: Result<u8, C.Error>)
      modifies this
      ensures Did(C.ReadByte(old(rest)), r, rest)
    {
      var head :- Take(1);
      return Ok(head[0]);
    }

    method Flag() returns (r: Result<bool, C.Error>)
      modifies this
      ensures Did(C.ReadFlag(old(rest)), r, rest)
    {
      var x :- U8();
      match x
      case 0 => return Ok(false);
      case 1 => return Ok(true);
      case _ => return Err(C.UnknownPresenceByte);
    }

    method Number(n: nat) returns (r: Result<nat, C.Error>)
      modifies this
      ensures Did(C.ReadNumber(old(rest), n), r, rest)
    {
      var digits :- Take(n);
      return Ok(FromBE(digits));
    }

    method Text() returns (r: Result<Text, C.Error>)
      modifies this
      ensures Did(C.ReadText(old(rest)), r, rest)
    {
      var n :- Number(4);
      var s :- Take(n);
      if !Utf8(s) { return Err(C.NotUtf8); }
      return Ok(s);
    }

    method FixedOption(n: nat) returns (r: Result<Option<seq<u8>>, C.Error>)
      modifies this
      ensures Did(C.ReadFixedOption(old(rest), n), r, rest)
    {
      var present :- Flag();
      if !present { return Ok(None); }
      var x :- Take(n);
      return Ok(Some(x));
    }

    method ReadPosture() returns (r: Result<Posture, C.Error>)
      modifies this
      ensures Did(C.ReadPosture(old(rest)), r, rest)
    {
      hide C.Take, C.ReadByte, C.ReadFlag, C.ReadNumber, C.ReadText;
      hide C.RoleOf, C.ModeOf, C.EvmOf, C.BtcOf, C.NetworkOf;
      PowersOf256();
      var vanilla :- Flag();
      var role :- U8();
      var signerRole :- C.RoleOf(role);
      var mode :- U8();
      var attestation :- C.ModeOf(mode);
      var evm :- U8();
      var evmSource :- C.EvmOf(evm);
      var btc :- U8();
      var btcSource :- C.BtcOf(btc);
      var chainId :- Number(8);
      var network :- U8();
      var bitcoinNetwork :- C.NetworkOf(network);
      var bridge :- Take(20);
      var asset :- Text();
      return Ok(Posture(
        vanilla, signerRole, attestation, evmSource, btcSource, chainId, bitcoinNetwork, bridge, asset));
    }

    method ReadEvidence() returns (r: Result<Evidence, C.Error>)
      modifies this
      ensures Did(C.ReadEvidence(old(rest)), r, rest)
    {
      hide C.Take, C.ReadByte, C.ReadFlag, C.ReadNumber, C.ReadText, C.FinalityOf;
      PowersOf256();
      var fundsIn :- Take(20);
      var tag :- U8();
      var finalityTag :- C.FinalityOf(tag);
      var depth :- Number(4);
      var electrumHost :- Text();
      var present :- Flag();
      if !present { return Ok(Evidence(fundsIn, finalityTag, depth, electrumHost, None)); }
      var host :- Text();
      var ca :- Take(32);
      return Ok(Evidence(fundsIn, finalityTag, depth, electrumHost, Some(TlsPin(host, ca))));
    }

    method ReadSelectors() returns (r: Result<seq<Selector>, C.Error>)
      modifies this
      ensures Did(C.ReadSelectors(old(rest)), r, rest)
    {
      hide C.Take, C.ReadNumber;
      var count :- Number(4);
      var selectors: seq<Selector> := [];
      for i := 0 to count
        invariant C.ReadSelectors(old(rest)) == C.ReadEach(rest, count - i, selectors)
      {
        var selector :- Take(4);
        if selectors != [] && !Before(selectors[|selectors| - 1], selector) {
          return Err(C.SelectorsNotOrdered);
        }
        selectors := selectors + [selector];
      }
      return Ok(selectors);
    }

    method ReadGas() returns (r: Result<GasRule, C.Error>)
      modifies this
      ensures Did(C.ReadGas(old(rest)), r, rest)
    {
      hide C.Take, C.ReadNumber, C.ReadSelectors;
      PowersOf256();
      var allowedTo :- Take(20);
      var limit :- Number(8);
      var fee :- Number(16);
      var wei :- Number(16);
      var selectors :- ReadSelectors();
      return Ok(GasRule(allowedTo, limit, fee, wei, selectors));
    }

    method ReadKms() returns (r: Result<Option<KmsPin>, C.Error>)
      modifies this
      ensures Did(C.ReadKmsOption(old(rest)), r, rest)
    {
      hide C.ReadFlag, C.ReadText, C.ReadFixedOption;
      var present :- Flag();
      if !present { return Ok(None); }
      var arn :- Text();
      var region :- Text();
      var seedId :- Text();
      var address :- FixedOption(20);
      return Ok(Some(KmsPin(arn, region, seedId, address)));
    }
  }

  method FromBytes(bytes: seq<u8>) returns (r: Result<Policy, C.Error>)
    ensures r == C.Decode(bytes)
  {
    hide C.ReadByte, C.ReadPosture, C.ReadEvidence, C.ReadGas, C.Take, C.ReadKmsOption, C.ReadFixedOption;
    var reader := new Reader(bytes);
    var version :- reader.U8();
    if version != C.POLICY_COMMITMENT_V1 { return Err(C.UnknownVersion); }
    var kind :- reader.U8();
    var policy := Development;
    if kind == 1 {
      var posture :- reader.ReadPosture();
      var evidence :- reader.ReadEvidence();
      var gas :- reader.ReadGas();
      var token :- reader.Take(20);
      var kms :- reader.ReadKms();
      var pcr3 :- reader.FixedOption(48);
      policy := Production(posture, evidence, gas, token, kms, pcr3);
    } else if kind != 0 {
      return Err(C.UnknownKind);
    }
    if reader.rest != [] { return Err(C.TrailingBytes); }
    return Ok(policy);
  }
}
