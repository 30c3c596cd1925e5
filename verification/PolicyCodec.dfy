/**
 * The wire form of the attested policy (`attestation-verify/src/policy.rs`). Each `Put` function puts a value in
 * front of the bytes that follow it, and the `Read` function of the same name takes it off again.
 */
module PolicyCodec {
  import opened Bytes
  import opened Policy

  const POLICY_COMMITMENT_V1: u8 := 1

  datatype Error =
    | UnknownVersion | UnknownKind | UnknownSignerRole | UnknownAttestationMode | UnknownEvmDataSource
    | UnknownBtcDataSource | UnknownBitcoinNetwork | UnknownFinalityTag | UnknownPresenceByte
    | Truncated | NotUtf8 | SelectorsNotOrdered | TrailingBytes

  /** A value taken off the front of the input, and the bytes left. */
  type Read<T> = Result<(T, seq<u8>), Error>

  // ---- Enumerations ----

  function RoleByte(r: SignerRole): u8 { match r case Combined => 0 case Mint => 1 case Burn => 2 }

  function RoleOf(x: u8): Result<SignerRole, Error> {
    match x case 0 => Ok(Combined) case 1 => Ok(Mint) case 2 => Ok(Burn) case _ => Err(UnknownSignerRole)
  }

  function ModeByte(m: AttestationMode): u8 { match m case Mock => 0 case Real => 1 }

  function ModeOf(x: u8): Result<AttestationMode, Error> {
    match x case 0 => Ok(Mock) case 1 => Ok(Real) case _ => Err(UnknownAttestationMode)
  }

  function EvmByte(e: EvmDataSource): u8 { match e case Disabled => 0 case RawRpc => 1 case PinnedTlsRpc => 3 }

  function EvmOf(x: u8): Result<EvmDataSource, Error> {
    match x case 0 => Ok(Disabled) case 1 => Ok(RawRpc) case 3 => Ok(PinnedTlsRpc) case _ => Err(UnknownEvmDataSource)
  }

  function BtcByte(b: BtcDataSource): u8 { match b case SpvVerified => 1 }

  function BtcOf(x: u8): Result<BtcDataSource, Error> {
    if x == 1 then Ok(SpvVerified) else Err(UnknownBtcDataSource)
  }

  function NetworkByte(n: BitcoinNetwork): u8 {
    match n
    case Mainnet => 0 case Testnet3 => 1 case Signet => 2 case Regtest => 3 case Testnet4 => 4 case SignetCustom => 5
  }

  function NetworkOf(x: u8): Result<BitcoinNetwork, Error> {
    match x
    case 0 => Ok(Mainnet) case 1 => Ok(Testnet3) case 2 => Ok(Signet) case 3 => Ok(Regtest)
    case 4 => Ok(Testnet4) case 5 => Ok(SignetCustom) case _ => Err(UnknownBitcoinNetwork)
  }

  function FinalityByte(f: FinalityTag): u8 { match f case Latest => 0 case Safe => 1 case Finalized => 2 }

  function FinalityOf(x: u8): Result<FinalityTag, Error> {
    match x case 0 => Ok(Latest) case 1 => Ok(Safe) case 2 => Ok(Finalized) case _ => Err(UnknownFinalityTag)
  }

  lemma TagBack(x: u8)
    ensures RoleOf(x).Ok? ==> RoleByte(RoleOf(x).value) == x
    ensures ModeOf(x).Ok? ==> ModeByte(ModeOf(x).value) == x
    ensures EvmOf(x).Ok? ==> EvmByte(EvmOf(x).value) == x
    ensures BtcOf(x).Ok? ==> BtcByte(BtcOf(x).value) == x
    ensures NetworkOf(x).Ok? ==> NetworkByte(NetworkOf(x).value) == x
    ensures FinalityOf(x).Ok? ==> FinalityByte(FinalityOf(x).value) == x
  {
  }

  // ---- Single values ----

  function Take(b: seq<u8>, n: nat): (r: Read<seq<u8>>)
    ensures r.Ok? ==> |r.value.0| == n && b == r.value.0 + r.value.1
  {
    if |b| < n then Err(Truncated) else Ok((b[..n], b[n..]))
  }

  function ReadByte(b: seq<u8>): Read<u8> {
    var head :- Take(b, 1);
    Ok((head.0[0], head.1))
  }

  function FlagByte(f: bool): u8 { if f then 1 else 0 }

  function ReadFlag(b: seq<u8>): Read<bool> {
    var x :- ReadByte(b);
    if x.0 == 0 then Ok((false, x.1)) else if x.0 == 1 then Ok((true, x.1)) else Err(UnknownPresenceByte)
  }

  function ReadNumber(b: seq<u8>, n: nat): (r: Read<nat>)
    ensures r.Ok? ==> r.value.0 < Pow256(n)
  {
    var digits :- Take(b, n);
    Ok((FromBE(digits.0), digits.1))
  }

  /** A length is cast to 32 bits. */
  function PutText(s: Text, t: seq<u8>): seq<u8> { ToBE(|s| % U32, 4) + (s + t) }

  function ReadText(b: seq<u8>): Read<Text> {
    var n :- ReadNumber(b, 4);
    var text :- Take(n.1, n.0);
    if Utf8(text.0) then Ok((text.0, text.1)) else Err(NotUtf8)
  }

  lemma TakePut(s: seq<u8>, t: seq<u8>)
    ensures Take(s + t, |s|) == Ok((s, t))
  {
    assert (s + t)[..|s|] == s && (s + t)[|s|..] == t;
  }

  lemma PutTake(b: seq<u8>, n: nat)
    requires Take(b, n).Ok?
    ensures var (s, t) := Take(b, n).value; |s| == n && b == s + t
  {
  }

  lemma BytePut(x: u8, t: seq<u8>)
    ensures ReadByte([x] + t) == Ok((x, t))
  {
    TakePut([x], t);
  }

  lemma FlagPut(f: bool, t: seq<u8>)
    ensures ReadFlag([FlagByte(f)] + t) == Ok((f, t))
  {
    BytePut(FlagByte(f), t);
  }

  lemma PutByte(b: seq<u8>)
    requires ReadByte(b).Ok?
    ensures b == [ReadByte(b).value.0] + ReadByte(b).value.1
  {
  }

  lemma PutFlag(b: seq<u8>)
    requires ReadFlag(b).Ok?
    ensures b == [FlagByte(ReadFlag(b).value.0)] + ReadFlag(b).value.1
  {
  }

  lemma NumberPut(v: nat, n: nat, t: seq<u8>)
    requires v < Pow256(n)
    ensures ReadNumber(ToBE(v, n) + t, n) == Ok((v, t))
  {
    TakePut(ToBE(v, n), t);
    FromToBE(v, n);
  }

  lemma PutNumber(b: seq<u8>, n: nat)
    requires ReadNumber(b, n).Ok?
    ensures var (v, t) := ReadNumber(b, n).value; v < Pow256(n) && b == ToBE(v, n) + t
  {
    hide Take;
    PutTake(b, n);
    ToFromBE(Take(b, n).value.0);
  }

  lemma TextPut(s: Text, t: seq<u8>)
    requires |s| < U32
    ensures ReadText(PutText(s, t)) == Ok((s, t))
  {
    hide Take, ReadNumber, Utf8, ToBE, Pow256;
    PowersOf256();
    NumberPut(|s|, 4, s + t);
    TakePut(s, t);
  }

  lemma PutTextBack(b: seq<u8>)
    requires ReadText(b).Ok?
    ensures var (s, t) := ReadText(b).value; |s| < U32 && b == PutText(s, t)
  {
    hide Take, ReadNumber, Utf8, Pow256;
    PowersOf256();
    PutNumber(b, 4);
    var (n, rest) := ReadNumber(b, 4).value;
    PutTake(rest, n);
  }

  // ---- The posture ----

  function PutTags(p: Posture, t: seq<u8>): seq<u8> {
    [FlagByte(p.allowVanillaPsbt)] + ([RoleByte(p.signerRole)] + ([ModeByte(p.attestation)] +
    ([EvmByte(p.evmSource)] + ([BtcByte(p.btcSource)] + t))))
  }

  function PutPosture(p: Posture, t: seq<u8>): seq<u8> {
    PutTags(p, ToBE(p.chainId, 8) + ([NetworkByte(p.bitcoinNetwork)] + (p.bridgeContract + PutText(p.rgbAssetId, t))))
  }

  function ReadPosture(b: seq<u8>): Read<Posture> {
    var vanilla :- ReadFlag(b);
    var role :- ReadByte(vanilla.1);
    var signerRole :- RoleOf(role.0);
    var mode :- ReadByte(role.1);
    var attestation :- ModeOf(mode.0);
    var evm :- ReadByte(mode.1);
    var evmSource :- EvmOf(evm.0);
    var btc :- ReadByte(evm.1);
    var btcSource :- BtcOf(btc.0);
    var chain :- ReadNumber(btc.1, 8);
    var network :- ReadByte(chain.1);
    var bitcoinNetwork :- NetworkOf(network.0);
    var bridge :- Take(network.1, 20);
    var asset :- ReadText(bridge.1);
    PowersOf256();
    Ok((Posture(vanilla.0, signerRole, attestation, evmSource, btcSource, chain.0, bitcoinNetwork, bridge.0, asset.0),
        asset.1))
  }

  lemma PosturePut(p: Posture, t: seq<u8>)
    requires |p.rgbAssetId| < U32
    ensures ReadPosture(PutPosture(p, t)) == Ok((p, t))
  {
    hide Take, ReadByte, ReadFlag, ReadNumber, ReadText, PutText;
    PowersOf256();
    TextPut(p.rgbAssetId, t);
    var t9 := PutText(p.rgbAssetId, t);
    TakePut(p.bridgeContract, t9);
    var t8 := p.bridgeContract + t9;
    BytePut(NetworkByte(p.bitcoinNetwork), t8);
    var t7 := [NetworkByte(p.bitcoinNetwork)] + t8;
    NumberPut(p.chainId, 8, t7);
    var t6 := ToBE(p.chainId, 8) + t7;
    BytePut(BtcByte(p.btcSource), t6);
    var t5 := [BtcByte(p.btcSource)] + t6;
    BytePut(EvmByte(p.evmSource), t5);
    var t4 := [EvmByte(p.evmSource)] + t5;
    BytePut(ModeByte(p.attestation), t4);
    var t3 := [ModeByte(p.attestation)] + t4;
    BytePut(RoleByte(p.signerRole), t3);
    var t2 := [RoleByte(p.signerRole)] + t3;
    FlagPut(p.allowVanillaPsbt, t2);
    assert p.btcSource == SpvVerified;
  }

  lemma PutPostureBack(b: seq<u8>)
    requires ReadPosture(b).Ok?
    ensures var (p, t) := ReadPosture(b).value; |p.rgbAssetId| < U32 && b == PutPosture(p, t)
  {
    hide Take, ReadByte, ReadFlag, ReadNumber, ReadText, PutText;
    hide RoleOf, RoleByte, ModeOf, ModeByte, EvmOf, EvmByte, BtcOf, BtcByte, NetworkOf, NetworkByte;
    PutFlag(b);
    var b1 := ReadFlag(b).value.1;
    PutByte(b1);
    var (role, b2) := ReadByte(b1).value;
    TagBack(role);
    PutByte(b2);
    var (mode, b3) := ReadByte(b2).value;
    TagBack(mode);
    PutByte(b3);
    var (evm, b4) := ReadByte(b3).value;
    TagBack(evm);
    PutByte(b4);
    var (btc, b5) := ReadByte(b4).value;
    TagBack(btc);
    PutNumber(b5, 8);
    var b6 := ReadNumber(b5, 8).value.1;
    PutByte(b6);
    var (network, b7) := ReadByte(b6).value;
    TagBack(network);
    PutTake(b7, 20);
    PutTextBack(Take(b7, 20).value.1);
  }

  // ---- The evidence sources ----

  function PutTls(pin: TlsPin, t: seq<u8>): seq<u8> { PutText(pin.host, pin.caSha256 + t) }

  function ReadTls(b: seq<u8>): Read<TlsPin> {
    var host :- ReadText(b);
    var ca :- Take(host.1, 32);
    Ok((TlsPin(host.0, ca.0), ca.1))
  }

  function PutTlsOption(pin: Option<TlsPin>, t: seq<u8>): seq<u8> {
    [FlagByte(pin.Some?)] + if pin.Some? then PutTls(pin.value, t) else t
  }

  function ReadTlsOption(b: seq<u8>): Read<Option<TlsPin>> {
    var present :- ReadFlag(b);
    if !present.0 then Ok((None, present.1)) else
    var pin :- ReadTls(present.1);
    Ok((Some(pin.0), pin.1))
  }

  function PutEvidence(e: Evidence, t: seq<u8>): seq<u8> {
    e.fundsInContract + ([FinalityByte(e.finalityTag)] + (ToBE(e.spvMinConfirmations, 4) +
    PutText(e.electrumHost, PutTlsOption(e.evmRpcTls, t))))
  }

  function ReadEvidence(b: seq<u8>): Read<Evidence> {
    var fundsIn :- Take(b, 20);
    var tag :- ReadByte(fundsIn.1);
    var finalityTag :- FinalityOf(tag.0);
    var depth :- ReadNumber(tag.1, 4);
    var host :- ReadText(depth.1);
    var tls :- ReadTlsOption(host.1);
    PowersOf256();
    Ok((Evidence(fundsIn.0, finalityTag, depth.0, host.0, tls.0), tls.1))
  }

  predicate SmallEvidence(e: Evidence) {
    |e.electrumHost| < U32 && (e.evmRpcTls.Some? ==> |e.evmRpcTls.value.host| < U32)
  }

  lemma TlsOptionPut(pin: Option<TlsPin>, t: seq<u8>)
    requires pin.Some? ==> |pin.value.host| < U32
    ensures ReadTlsOption(PutTlsOption(pin, t)) == Ok((pin, t))
  {
    hide Take, ReadByte, ReadFlag, ReadText, PutText;
    if pin.Some? {
      FlagPut(true, PutTls(pin.value, t));
      TextPut(pin.value.host, pin.value.caSha256 + t);
      TakePut(pin.value.caSha256, t);
    } else {
      FlagPut(false, t);
    }
  }

  lemma PutTlsOptionBack(b: seq<u8>)
    requires ReadTlsOption(b).Ok?
    ensures var (pin, t) := ReadTlsOption(b).value;
      (pin.Some? ==> |pin.value.host| < U32) && b == PutTlsOption(pin, t)
  {
    hide Take, ReadByte, ReadFlag, ReadText, PutText;
    PutFlag(b);
    var (present, b1) := ReadFlag(b).value;
    if present {
      PutTextBack(b1);
      PutTake(ReadText(b1).value.1, 32);
    }
  }

  lemma EvidencePut(e: Evidence, t: seq<u8>)
    requires SmallEvidence(e)
    ensures ReadEvidence(PutEvidence(e, t)) == Ok((e, t))
  {
    hide Take, ReadByte, ReadFlag, ReadNumber, ReadText, PutText, ReadTlsOption, PutTlsOption;
    PowersOf256();
    TlsOptionPut(e.evmRpcTls, t);
    var t4 := PutTlsOption(e.evmRpcTls, t);
    TextPut(e.electrumHost, t4);
    var t3 := PutText(e.electrumHost, t4);
    NumberPut(e.spvMinConfirmations, 4, t3);
    var t2 := ToBE(e.spvMinConfirmations, 4) + t3;
    BytePut(FinalityByte(e.finalityTag), t2);
    TakePut(e.fundsInContract, [FinalityByte(e.finalityTag)] + t2);
  }

  lemma PutEvidenceBack(b: seq<u8>)
    requires ReadEvidence(b).Ok?
    ensures var (e, t) := ReadEvidence(b).value; SmallEvidence(e) && b == PutEvidence(e, t)
  {
    hide Take, ReadByte, ReadFlag, ReadNumber, ReadText, PutText, ReadTlsOption, PutTlsOption, FinalityOf, FinalityByte;
    PutTake(b, 20);
    var b1 := Take(b, 20).value.1;
    PutByte(b1);
    var (tag, b2) := ReadByte(b1).value;
    TagBack(tag);
    PutNumber(b2, 4);
    var b3 := ReadNumber(b2, 4).value.1;
    PutTextBack(b3);
    PutTlsOptionBack(ReadText(b3).value.1);
  }

  // ---- The gas rule ----

  function PutEach(s: seq<Selector>, t: seq<u8>): seq<u8> {
    if s == [] then t else s[0] + PutEach(s[1..], t)
  }

  /** `n` more selectors, each after the last of those already read. */
  function ReadEach(b: seq<u8>, n: nat, done: seq<Selector>): Read<seq<Selector>>
    decreases n
  {
    if n == 0 then Ok((done, b)) else
    var selector :- Take(b, 4);
    if done != [] && !Before(done[|done| - 1], selector.0) then Err(SelectorsNotOrdered)
    else ReadEach(selector.1, n - 1, done + [selector.0])
  }

  /** The count is cast to 32 bits. */
  function PutSelectors(s: seq<Selector>, t: seq<u8>): seq<u8> { ToBE(|s| % U32, 4) + PutEach(s, t) }

  function ReadSelectors(b: seq<u8>): Read<seq<Selector>> {
    var n :- ReadNumber(b, 4);
    ReadEach(n.1, n.0, [])
  }

  function PutGas(g: GasRule, t: seq<u8>): seq<u8> {
    g.allowedTo + (ToBE(g.maxGasLimit, 8) + (ToBE(g.maxFeePerGas, 16) + (ToBE(g.maxValueWei, 16) +
    PutSelectors(Canonical(g.allowedSelectors), t))))
  }

  function ReadGas(b: seq<u8>): Read<GasRule> {
    var to :- Take(b, 20);
    var limit :- ReadNumber(to.1, 8);
    var fee :- ReadNumber(limit.1, 16);
    var wei :- ReadNumber(fee.1, 16);
    var selectors :- ReadSelectors(wei.1);
    PowersOf256();
    Ok((GasRule(to.0, limit.0, fee.0, wei.0, selectors.0), selectors.1))
  }

  function CanonicalGas(g: GasRule): GasRule { g.(allowedSelectors := Canonical(g.allowedSelectors)) }

  predicate SmallGas(g: GasRule) { |Canonical(g.allowedSelectors)| < U32 }

  lemma {:induction false} EachPut(done: seq<Selector>, more: seq<Selector>, t: seq<u8>)
    requires Ordered(done + more)
    ensures ReadEach(PutEach(more, t), |more|, done) == Ok((done + more, t))
    decreases |more|
  {
    if more == [] {
      assert done + more == done;
    } else {
      var rest := PutEach(more[1..], t);
      TakePut(more[0], rest);
      assert done != [] ==> Before((done + more)[|done| - 1], (done + more)[|done|]);
      assert done + more == done + [more[0]] + more[1..];
      EachPut(done + [more[0]], more[1..], t);
    }
  }

  lemma {:induction false} PutEachBack(b: seq<u8>, n: nat, done: seq<Selector>)
    requires Ordered(done) && ReadEach(b, n, done).Ok?
    ensures var (s, t) := ReadEach(b, n, done).value;
      |s| == |done| + n && done <= s && Ordered(s) && b == PutEach(s[|done|..], t)
    decreases n
  {
    if n > 0 {
      PutTake(b, 4);
      var (x, rest) := Take(b, 4).value;
      LastIsBefore(done, x);
      PutEachBack(rest, n - 1, done + [x]);
      var (s, t) := ReadEach(b, n, done).value;
      assert s[|done|..][0] == s[|done|] == (done + [x])[|done|];
      assert s[|done|..][1..] == s[|done| + 1..];
    }
  }

  lemma LastIsBefore(done: seq<Selector>, x: Selector)
    requires Ordered(done) && (done != [] ==> Before(done[|done| - 1], x))
    ensures Ordered(done + [x])
  {
  }

  lemma SelectorsPut(s: seq<Selector>, t: seq<u8>)
    requires Ordered(s) && |s| < U32
    ensures ReadSelectors(PutSelectors(s, t)) == Ok((s, t))
  {
    hide ReadNumber, ToBE, Pow256;
    PowersOf256();
    NumberPut(|s|, 4, PutEach(s, t));
    assert [] + s == s;
    EachPut([], s, t);
  }

  lemma PutSelectorsBack(b: seq<u8>)
    requires ReadSelectors(b).Ok?
    ensures var (s, t) := ReadSelectors(b).value; Ordered(s) && |s| < U32 && b == PutSelectors(s, t)
  {
    hide ReadNumber, ToBE, Pow256;
    PowersOf256();
    PutNumber(b, 4);
    var (n, rest) := ReadNumber(b, 4).value;
    PutEachBack(rest, n, []);
    var (s, t) := ReadEach(rest, n, []).value;
    assert s[0..] == s;
  }

  lemma GasPut(g: GasRule, t: seq<u8>)
    requires SmallGas(g)
    ensures ReadGas(PutGas(g, t)) == Ok((CanonicalGas(g), t))
  {
    hide Take, ReadNumber, ReadSelectors, PutSelectors, Canonical;
    PowersOf256();
    CanonicalIsOrdered(g.allowedSelectors);
    SelectorsPut(Canonical(g.allowedSelectors), t);
    var t4 := PutSelectors(Canonical(g.allowedSelectors), t);
    NumberPut(g.maxValueWei, 16, t4);
    var t3 := ToBE(g.maxValueWei, 16) + t4;
    NumberPut(g.maxFeePerGas, 16, t3);
    var t2 := ToBE(g.maxFeePerGas, 16) + t3;
    NumberPut(g.maxGasLimit, 8, t2);
    TakePut(g.allowedTo, ToBE(g.maxGasLimit, 8) + t2);
  }

  lemma PutGasBack(b: seq<u8>)
    requires ReadGas(b).Ok?
    ensures var (g, t) := ReadGas(b).value; SmallGas(g) && CanonicalGas(g) == g && b == PutGas(g, t)
  {
    hide Take, ReadNumber, ReadSelectors, PutSelectors, Canonical;
    PutTake(b, 20);
    var b1 := Take(b, 20).value.1;
    PutNumber(b1, 8);
    var b2 := ReadNumber(b1, 8).value.1;
    PutNumber(b2, 16);
    var b3 := ReadNumber(b2, 16).value.1;
    PutNumber(b3, 16);
    var b4 := ReadNumber(b3, 16).value.1;
    PutSelectorsBack(b4);
    var s := ReadSelectors(b4).value.0;
    CanonicalIsUnique(s, s);
  }

  // ---- The KMS pin and the clone-peer measurement ----

  function PutFixedOption(x: Option<seq<u8>>, t: seq<u8>): seq<u8> {
    [FlagByte(x.Some?)] + if x.Some? then x.value + t else t
  }

  function ReadFixedOption(b: seq<u8>, n: nat): (r: Read<Option<seq<u8>>>)
    ensures r.Ok? && r.value.0.Some? ==> |r.value.0.value| == n
  {
    var present :- ReadFlag(b);
    if !present.0 then Ok((None, present.1)) else
    var x :- Take(present.1, n);
    Ok((Some(x.0), x.1))
  }

  function PutKms(pin: KmsPin, t: seq<u8>): seq<u8> {
    PutText(pin.keyArn, PutText(pin.region, PutText(pin.seedId, PutFixedOption(pin.expectedEvmAddress, t))))
  }

  function ReadKms(b: seq<u8>): Read<KmsPin> {
    var arn :- ReadText(b);
    var region :- ReadText(arn.1);
    var seedId :- ReadText(region.1);
    var address :- ReadFixedOption(seedId.1, 20);
    Ok((KmsPin(arn.0, region.0, seedId.0, address.0), address.1))
  }

  predicate SmallKms(pin: KmsPin) { |pin.keyArn| < U32 && |pin.region| < U32 && |pin.seedId| < U32 }

  function PutKmsOption(pin: Option<KmsPin>, t: seq<u8>): seq<u8> {
    [FlagByte(pin.Some?)] + if pin.Some? then PutKms(pin.value, t) else t
  }

  function ReadKmsOption(b: seq<u8>): Read<Option<KmsPin>> {
    var present :- ReadFlag(b);
    if !present.0 then Ok((None, present.1)) else
    var pin :- ReadKms(present.1);
    Ok((Some(pin.0), pin.1))
  }

  lemma FixedOptionPut(x: Option<seq<u8>>, n: nat, t: seq<u8>)
    requires x.Some? ==> |x.value| == n
    ensures ReadFixedOption(PutFixedOption(x, t), n) == Ok((x, t))
  {
    hide Take, ReadFlag;
    if x.Some? {
      FlagPut(true, x.value + t);
      TakePut(x.value, t);
    } else {
      FlagPut(false, t);
    }
  }

  lemma PutFixedOptionBack(b: seq<u8>, n: nat)
    requires ReadFixedOption(b, n).Ok?
    ensures var (x, t) := ReadFixedOption(b, n).value; (x.Some? ==> |x.value| == n) && b == PutFixedOption(x, t)
  {
    hide Take, ReadFlag;
    PutFlag(b);
    var (present, b1) := ReadFlag(b).value;
    if present { PutTake(b1, n); }
  }

  lemma KmsPut(pin: KmsPin, t: seq<u8>)
    requires SmallKms(pin)
    ensures ReadKms(PutKms(pin, t)) == Ok((pin, t))
  {
    hide ReadText, PutText, ReadFixedOption, PutFixedOption;
    FixedOptionPut(pin.expectedEvmAddress, 20, t);
    var t3 := PutFixedOption(pin.expectedEvmAddress, t);
    TextPut(pin.seedId, t3);
    var t2 := PutText(pin.seedId, t3);
    TextPut(pin.region, t2);
    TextPut(pin.keyArn, PutText(pin.region, t2));
  }

  lemma PutKmsBack(b: seq<u8>)
    requires ReadKms(b).Ok?
    ensures var (pin, t) := ReadKms(b).value; SmallKms(pin) && b == PutKms(pin, t)
  {
    hide ReadText, PutText, ReadFixedOption, PutFixedOption;
    PutTextBack(b);
    var b1 := ReadText(b).value.1;
    PutTextBack(b1);
    var b2 := ReadText(b1).value.1;
    PutTextBack(b2);
    PutFixedOptionBack(ReadText(b2).value.1, 20);
  }

  lemma KmsOptionPut(pin: Option<KmsPin>, t: seq<u8>)
    requires pin.Some? ==> SmallKms(pin.value)
    ensures ReadKmsOption(PutKmsOption(pin, t)) == Ok((pin, t))
  {
    hide ReadFlag, ReadKms, PutKms;
    if pin.Some? {
      FlagPut(true, PutKms(pin.value, t));
      KmsPut(pin.value, t);
    } else {
      FlagPut(false, t);
    }
  }

  lemma PutKmsOptionBack(b: seq<u8>)
    requires ReadKmsOption(b).Ok?
    ensures var (pin, t) := ReadKmsOption(b).value;
      (pin.Some? ==> SmallKms(pin.value)) && b == PutKmsOption(pin, t)
  {
    hide ReadFlag, ReadKms, PutKms;
    PutFlag(b);
    var (present, b1) := ReadFlag(b).value;
    if present { PutKmsBack(b1); }
  }

  // ---- The policy ----

  function PutProduction(p: Policy, t: seq<u8>): seq<u8>
    requires p.Production?
  {
    PutPosture(p.posture, PutEvidence(p.evidence, PutGas(p.gas, p.tokenContract +
    PutKmsOption(p.kms, PutFixedOption(p.clonePeerPcr3, t)))))
  }

  function ReadProduction(b: seq<u8>): Read<Policy> {
    var posture :- ReadPosture(b);
    var evidence :- ReadEvidence(posture.1);
    var gas :- ReadGas(evidence.1);
    var token :- Take(gas.1, 20);
    var kms :- ReadKmsOption(token.1);
    var pcr3 :- ReadFixedOption(kms.1, 48);
    Ok((Production(posture.0, evidence.0, gas.0, token.0, kms.0, pcr3.0), pcr3.1))
  }

  function PutPolicy(p: Policy, t: seq<u8>): seq<u8> {
    [POLICY_COMMITMENT_V1] + ([FlagByte(p.Production?)] + if p.Production? then PutProduction(p, t) else t)
  }

  function ReadPolicy(b: seq<u8>): Read<Policy> {
    var version :- ReadByte(b);
    if version.0 != POLICY_COMMITMENT_V1 then Err(UnknownVersion) else
    var kind :- ReadByte(version.1);
    match kind.0
    case 0 => Ok((Development, kind.1))
    case 1 => ReadProduction(kind.1)
    case _ => Err(UnknownKind)
  }

  function Encode(p: Policy): seq<u8> { PutPolicy(p, []) }

  function Decode(b: seq<u8>): Result<Policy, Error> {
    var p :- ReadPolicy(b);
    if p.1 != [] then Err(TrailingBytes) else Ok(p.0)
  }

  /** The policy with its selector list sorted and without duplicates. */
  function Canon(p: Policy): Policy { if p.Production? then p.(gas := CanonicalGas(p.gas)) else p }

  /** Every length fits the 32 bits it is cast to. */
  predicate Small(p: Policy) {
    p.Production? ==>
      && |p.posture.rgbAssetId| < U32 && SmallEvidence(p.evidence) && SmallGas(p.gas)
      && (p.kms.Some? ==> SmallKms(p.kms.value))
  }

  lemma ProductionPut(p: Policy, t: seq<u8>)
    requires p.Production? && Small(p)
    ensures ReadProduction(PutProduction(p, t)) == Ok((Canon(p), t))
  {
    hide Take, ReadPosture, PutPosture, ReadEvidence, PutEvidence, ReadGas, PutGas, ReadKmsOption, PutKmsOption;
    hide ReadFixedOption, PutFixedOption, CanonicalGas;
    FixedOptionPut(p.clonePeerPcr3, 48, t);
    var t5 := PutFixedOption(p.clonePeerPcr3, t);
    KmsOptionPut(p.kms, t5);
    var t4 := PutKmsOption(p.kms, t5);
    TakePut(p.tokenContract, t4);
    var t3 := p.tokenContract + t4;
    GasPut(p.gas, t3);
    var t2 := PutGas(p.gas, t3);
    EvidencePut(p.evidence, t2);
    PosturePut(p.posture, PutEvidence(p.evidence, t2));
  }

  lemma PutProductionBack(b: seq<u8>)
    requires ReadProduction(b).Ok?
    ensures var (p, t) := ReadProduction(b).value;
      p.Production? && Small(p) && Canon(p) == p && b == PutProduction(p, t)
  {
    hide Take, ReadPosture, PutPosture, ReadEvidence, PutEvidence, ReadGas, PutGas, ReadKmsOption, PutKmsOption;
    hide ReadFixedOption, PutFixedOption, CanonicalGas;
    PutPostureBack(b);
    var b1 := ReadPosture(b).value.1;
    PutEvidenceBack(b1);
    var b2 := ReadEvidence(b1).value.1;
    PutGasBack(b2);
    var b3 := ReadGas(b2).value.1;
    PutTake(b3, 20);
    var b4 := Take(b3, 20).value.1;
    PutKmsOptionBack(b4);
    PutFixedOptionBack(ReadKmsOption(b4).value.1, 48);
  }

  lemma PolicyPut(p: Policy, t: seq<u8>)
    requires Small(p)
    ensures ReadPolicy(PutPolicy(p, t)) == Ok((Canon(p), t))
  {
    hide ReadByte, ReadProduction, PutProduction, CanonicalGas;
    var body := if p.Production? then PutProduction(p, t) else t;
    BytePut(FlagByte(p.Production?), body);
    BytePut(POLICY_COMMITMENT_V1, [FlagByte(p.Production?)] + body);
    if p.Production? { ProductionPut(p, t); }
  }

  lemma PutPolicyBack(b: seq<u8>)
    requires ReadPolicy(b).Ok?
    ensures var (p, t) := ReadPolicy(b).value; Small(p) && Canon(p) == p && b == PutPolicy(p, t)
  {
    hide ReadByte, ReadProduction, PutProduction, CanonicalGas;
    PutByte(b);
    var b1 := ReadByte(b).value.1;
    PutByte(b1);
    var (kind, b2) := ReadByte(b1).value;
    if kind == 1 { PutProductionBack(b2); }
  }

  // ---- What follows a value does not change its bytes ----

  lemma PutTextAppend(s: Text, t: seq<u8>, m: seq<u8>)
    ensures PutText(s, t) + m == PutText(s, t + m)
  {
    ConcatAssoc(ToBE(|s| % U32, 4), s + t, m);
    ConcatAssoc(s, t, m);
  }

  lemma PutPostureAppend(p: Posture, t: seq<u8>, m: seq<u8>)
    ensures PutPosture(p, t) + m == PutPosture(p, t + m)
  {
    hide PutText;
    PutTextAppend(p.rgbAssetId, t, m);
    var t8 := PutText(p.rgbAssetId, t);
    ConcatAssoc(p.bridgeContract, t8, m);
    var t7 := p.bridgeContract + t8;
    ConcatAssoc([NetworkByte(p.bitcoinNetwork)], t7, m);
    var t6 := [NetworkByte(p.bitcoinNetwork)] + t7;
    ConcatAssoc(ToBE(p.chainId, 8), t6, m);
    var t5 := ToBE(p.chainId, 8) + t6;
    ConcatAssoc([BtcByte(p.btcSource)], t5, m);
    var t4 := [BtcByte(p.btcSource)] + t5;
    ConcatAssoc([EvmByte(p.evmSource)], t4, m);
    var t3 := [EvmByte(p.evmSource)] + t4;
    ConcatAssoc([ModeByte(p.attestation)], t3, m);
    var t2 := [ModeByte(p.attestation)] + t3;
    ConcatAssoc([RoleByte(p.signerRole)], t2, m);
    ConcatAssoc([FlagByte(p.allowVanillaPsbt)], [RoleByte(p.signerRole)] + t2, m);
  }

  lemma PutTlsOptionAppend(pin: Option<TlsPin>, t: seq<u8>, m: seq<u8>)
    ensures PutTlsOption(pin, t) + m == PutTlsOption(pin, t + m)
  {
    hide PutText;
    ConcatAssoc([FlagByte(pin.Some?)], if pin.Some? then PutTls(pin.value, t) else t, m);
    if pin.Some? {
      PutTextAppend(pin.value.host, pin.value.caSha256 + t, m);
      ConcatAssoc(pin.value.caSha256, t, m);
    }
  }

  lemma PutEvidenceAppend(e: Evidence, t: seq<u8>, m: seq<u8>)
    ensures PutEvidence(e, t) + m == PutEvidence(e, t + m)
  {
    hide PutText, PutTlsOption;
    PutTlsOptionAppend(e.evmRpcTls, t, m);
    var t4 := PutTlsOption(e.evmRpcTls, t);
    PutTextAppend(e.electrumHost, t4, m);
    var t3 := PutText(e.electrumHost, t4);
    ConcatAssoc(ToBE(e.spvMinConfirmations, 4), t3, m);
    var t2 := ToBE(e.spvMinConfirmations, 4) + t3;
    ConcatAssoc([FinalityByte(e.finalityTag)], t2, m);
    ConcatAssoc(e.fundsInContract, [FinalityByte(e.finalityTag)] + t2, m);
  }

  lemma {:induction false} PutEachAppend(s: seq<Selector>, t: seq<u8>, m: seq<u8>)
    ensures PutEach(s, t) + m == PutEach(s, t + m)
  {
    if s != [] {
      PutEachAppend(s[1..], t, m);
      ConcatAssoc(s[0], PutEach(s[1..], t), m);
    }
  }

  lemma PutGasAppend(g: GasRule, t: seq<u8>, m: seq<u8>)
    ensures PutGas(g, t) + m == PutGas(g, t + m)
  {
    hide Canonical, PutEach;
    var s := Canonical(g.allowedSelectors);
    PutEachAppend(s, t, m);
    ConcatAssoc(ToBE(|s| % U32, 4), PutEach(s, t), m);
    var t4 := PutSelectors(s, t);
    ConcatAssoc(ToBE(g.maxValueWei, 16), t4, m);
    var t3 := ToBE(g.maxValueWei, 16) + t4;
    ConcatAssoc(ToBE(g.maxFeePerGas, 16), t3, m);
    var t2 := ToBE(g.maxFeePerGas, 16) + t3;
    ConcatAssoc(ToBE(g.maxGasLimit, 8), t2, m);
    ConcatAssoc(g.allowedTo, ToBE(g.maxGasLimit, 8) + t2, m);
  }

  lemma PutFixedOptionAppend(x: Option<seq<u8>>, t: seq<u8>, m: seq<u8>)
    ensures PutFixedOption(x, t) + m == PutFixedOption(x, t + m)
  {
    ConcatAssoc([FlagByte(x.Some?)], if x.Some? then x.value + t else t, m);
    if x.Some? { ConcatAssoc(x.value, t, m); }
  }

  lemma PutKmsOptionAppend(pin: Option<KmsPin>, t: seq<u8>, m: seq<u8>)
    ensures PutKmsOption(pin, t) + m == PutKmsOption(pin, t + m)
  {
    hide PutText, PutFixedOption;
    ConcatAssoc([FlagByte(pin.Some?)], if pin.Some? then PutKms(pin.value, t) else t, m);
    if pin.Some? {
      PutFixedOptionAppend(pin.value.expectedEvmAddress, t, m);
      var t3 := PutFixedOption(pin.value.expectedEvmAddress, t);
      PutTextAppend(pin.value.seedId, t3, m);
      var t2 := PutText(pin.value.seedId, t3);
      PutTextAppend(pin.value.region, t2, m);
      PutTextAppend(pin.value.keyArn, PutText(pin.value.region, t2), m);
    }
  }

  lemma PutProductionAppend(p: Policy, t: seq<u8>, m: seq<u8>)
    requires p.Production?
    ensures PutProduction(p, t) + m == PutProduction(p, t + m)
  {
    hide PutPosture, PutEvidence, PutGas, PutKmsOption, PutFixedOption;
    PutFixedOptionAppend(p.clonePeerPcr3, t, m);
    var t5 := PutFixedOption(p.clonePeerPcr3, t);
    PutKmsOptionAppend(p.kms, t5, m);
    var t4 := PutKmsOption(p.kms, t5);
    ConcatAssoc(p.tokenContract, t4, m);
    var t3 := p.tokenContract + t4;
    PutGasAppend(p.gas, t3, m);
    var t2 := PutGas(p.gas, t3);
    PutEvidenceAppend(p.evidence, t2, m);
    PutPostureAppend(p.posture, PutEvidence(p.evidence, t2), m);
  }

  lemma PutPolicyAppend(p: Policy, m: seq<u8>)
    ensures PutPolicy(p, []) + m == PutPolicy(p, m)
  {
    hide PutProduction;
    var body := if p.Production? then PutProduction(p, []) else [];
    ConcatAssoc([POLICY_COMMITMENT_V1], [FlagByte(p.Production?)] + body, m);
    ConcatAssoc([FlagByte(p.Production?)], body, m);
    assert [] + m == m;
    if p.Production? { PutProductionAppend(p, [], m); }
  }

  /** What decodes is canonical, and encodes to exactly those bytes. */
  lemma DecodeIsExact(b: seq<u8>)
    requires Decode(b).Ok?
    ensures Small(Decode(b).value) && Canon(Decode(b).value) == Decode(b).value && Encode(Decode(b).value) == b
  {
    hide ReadPolicy, PutPolicy, Canon, Small;
    PutPolicyBack(b);
  }

  lemma CanonEncodes(p: Policy)
    ensures Small(Canon(p)) == Small(p) && Canon(Canon(p)) == Canon(p) && Encode(Canon(p)) == Encode(p)
  {
    hide PutPosture, PutEvidence, PutKmsOption, PutFixedOption, PutSelectors, Canonical, SmallEvidence, SmallKms;
    if p.Production? {
      CanonicalIsOrdered(p.gas.allowedSelectors);
      CanonicalIsUnique(Canonical(p.gas.allowedSelectors), []);
    }
  }

  /** The round trip holds exactly for the policies whose lengths fit. */
  lemma RoundTrip(p: Policy)
    ensures Decode(Encode(p)) == Ok(Canon(p)) <==> Small(p)
  {
    hide ReadPolicy, PutPolicy, Canon, Small;
    CanonEncodes(p);
    if Small(p) { PolicyPut(p, []); }
    if Decode(Encode(p)).Ok? { DecodeIsExact(Encode(p)); }
  }

  /**
   * Policies that differ at most in the order and repetition of selectors have one encoding. Where lengths fit,
   * no others do.
   */
  lemma EncodeIsInjective(p: Policy, q: Policy)
    ensures Canon(p) == Canon(q) ==> Encode(p) == Encode(q)
    ensures Small(p) && Small(q) && Encode(p) == Encode(q) ==> Canon(p) == Canon(q)
  {
    hide Encode, Decode, Canon, Small;
    RoundTrip(p);
    RoundTrip(q);
    CanonEncodes(p);
    CanonEncodes(q);
  }

  /** No string or canonical selector list is longer than `cap`. */
  predicate Within(p: Policy, cap: nat) {
    p.Production? ==>
      && |p.posture.rgbAssetId| <= cap && |p.evidence.electrumHost| <= cap
      && (p.evidence.evmRpcTls.Some? ==> |p.evidence.evmRpcTls.value.host| <= cap)
      && |Canonical(p.gas.allowedSelectors)| <= cap
      && (p.kms.Some? ==>
            |p.kms.value.keyArn| <= cap && |p.kms.value.region| <= cap && |p.kms.value.seedId| <= cap)
  }

  lemma {:induction false} ZerosAreText(n: nat)
    ensures Utf8(Zeros(n))
  {
    if n > 0 {
      ZerosAreText(n - 1);
      assert Zeros(n)[1..] == Zeros(n - 1);
    }
  }

  lemma ZerosAppend(m: nat, n: nat, t: seq<u8>)
    ensures Zeros(m) + (Zeros(n) + t) == Zeros(m + n) + t
  {
    assert Zeros(m) + Zeros(n) == Zeros(m + n);
    ConcatAssoc(Zeros(m), Zeros(n), t);
  }

  lemma PutZeros(n: nat, t: seq<u8>)
    requires n % U32 == 0 && Utf8(Zeros(n))
    ensures PutText(Zeros(n), t) == Zeros(4 + n) + t
  {
    assert ToBE(0, 4) == Zeros(4) by {
      assert ToBE(0, 3) == ToBE(0, 2) + [0];
      assert ToBE(0, 1) == ToBE(0, 0) + [0];
    }
    ZerosAppend(4, n, t);
  }

  /** A string of 2^32 zero bytes and two empty ones print alike, whichever of the three is the long one. */
  lemma LongStringsCollide() returns (a: KmsPin, b: KmsPin)
    ensures |a.keyArn| == U32 && a.region == a.seedId == [] && b.keyArn == b.region == [] && |b.seedId| == U32
    ensures a != b && forall t :: PutKms(a, t) == PutKms(b, t)
  {
    ZerosAreText(U32);
    ZerosAreText(0);
    var long: Text, none: Text := Zeros(U32), Zeros(0);
    a, b := KmsPin(long, none, none, None), KmsPin(none, none, long, None);
    forall t ensures PutKms(a, t) == PutKms(b, t) {
      hide PutText, PutFixedOption, Zeros;
      LongFirstOrLast(PutFixedOption(None, t));
    }
  }

  lemma LongFirstOrLast(o: seq<u8>)
    requires Utf8(Zeros(U32)) && Utf8(Zeros(0))
    ensures PutText(Zeros(U32), PutText(Zeros(0), PutText(Zeros(0), o)))
      == PutText(Zeros(0), PutText(Zeros(0), PutText(Zeros(U32), o)))
  {
    hide PutText, Zeros, Utf8;
    PutZeros(0, o);
    PutZeros(0, Zeros(4) + o);
    PutZeros(U32, Zeros(4) + (Zeros(4) + o));
    PutZeros(U32, o);
    PutZeros(0, Zeros(4 + U32) + o);
    PutZeros(0, Zeros(4) + (Zeros(4 + U32) + o));
    ZerosAppend(4, 4, o);
    ZerosAppend(4 + U32, 8, o);
    ZerosAppend(4, 4 + U32, o);
    ZerosAppend(4, 8 + U32, o);
  }

  /** The encoding tells policies apart up to selector order exactly as long as every length is below 2^32. */
  lemma InjectiveExactlyTo(cap: nat)
    ensures cap < U32 <==> forall p, q :: Within(p, cap) && Within(q, cap) ==>
      (Encode(p) == Encode(q) <==> Canon(p) == Canon(q))
  {
    hide PutPosture, PutEvidence, PutGas, PutKms, PutFixedOption, Canonical;
    if cap < U32 {
      forall p, q | Within(p, cap) && Within(q, cap) ensures Encode(p) == Encode(q) <==> Canon(p) == Canon(q) {
        assert Small(p) && Small(q);
        EncodeIsInjective(p, q);
      }
    } else {
      var a, b := LongStringsCollide();
      CanonicalIsUnique([], []);
      var base := Production(
        Posture(false, Combined, Real, Disabled, SpvVerified, 0, Mainnet, Zeros(20), []),
        Evidence(Zeros(20), Finalized, 0, [], None), GasRule(Zeros(20), 0, 0, 0, []), Zeros(20), None, None);
      var p, q := base.(kms := Some(a)), base.(kms := Some(b));
      assert Within(p, cap) && Within(q, cap);
      assert Encode(p) == Encode(q) && Canon(p) != Canon(q);
    }
  }

  /** Bytes decode exactly when they are the encoding of a policy whose lengths fit. */
  lemma DecodesExactlyEncodings(b: seq<u8>)
    ensures Decode(b).Ok? <==> exists p :: Small(p) && Encode(p) == b
  {
    hide Encode, Decode, Canon, Small;
    if Decode(b).Ok? { DecodeIsExact(b); }
    forall p | Small(p) && Encode(p) == b ensures Decode(b).Ok? { RoundTrip(p); }
  }

  /** No accepted encoding is a proper prefix of another. */
  lemma PrefixFree(b: seq<u8>, more: seq<u8>)
    requires Decode(b).Ok? && more != []
    ensures Decode(b + more) == Err(TrailingBytes)
  {
    hide ReadPolicy, PutPolicy, Canon, Small;
    PutPolicyBack(b);
    var p := ReadPolicy(b).value.0;
    PutPolicyAppend(p, more);
    PolicyPut(p, more);
  }
}
