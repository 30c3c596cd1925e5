/**
 * The certificate path of an attestation document (`attestation-verify/src/lib.rs`). The loop keeps a running
 * path-length budget; the rule it stands for speaks of every issuer (section 6.1.4 of RFC 5280).
 */
module CertPath {
  import opened Bytes
  import opened Policy

  const SKEW: u64 := 60

  datatype BasicConstraints = BasicConstraints(ca: bool, pathLen: Option<nat>)

  datatype KeyUsage = KeyUsage(digitalSignature: bool, keyCertSign: bool)

  /** An extension may be there and not parse. */
  datatype Extension<T> = Absent | Malformed | Present(value: T)

  /** What the checks read of a certificate. An absent key usage permits every use. */
  datatype Certificate = Certificate(
    notBefore: u64,
    notAfter: u64,
    basicConstraints: Extension<BasicConstraints>,
    keyUsage: Extension<KeyUsage>)

  /** Parsing and signatures: `signs` is one certificate over another, `sealed` the leaf over the document. */
  datatype Crypto = Crypto(
    parse: seq<u8> -> Option<Certificate>,
    signs: (Certificate, Certificate) -> bool,
    sealed: Certificate -> bool)

  datatype Refusal =
    | EmptyBundle | WrongRoot | Unparsable | NotYetValid | Expired | BadSignature
    | BadBasicConstraints | NoBasicConstraints | NotCa | BadKeyUsage | NoKeyCertSign | PathTooLong
    | NoDigitalSignature | BadSeal

  function SaturatingAdd(a: u64, b: u64): u64 { if a + b < U64 then a + b else U64 - 1 }

  method CheckValidityWindow(now: u64, c: Certificate) returns (r: Result<(), Refusal>)
    ensures r.Ok? <==> ValidAt(now, c)
    ensures now + 60 < c.notBefore ==> r == Err(NotYetValid)
    ensures now + 60 >= c.notBefore && now > c.notAfter + 60 ==> r == Err(Expired)
  {
    if SaturatingAdd(now, SKEW) < c.notBefore { return Err(NotYetValid); }
    if now > SaturatingAdd(c.notAfter, SKEW) { return Err(Expired); }
    return Ok(());
  }

  predicate ValidAt(now: u64, c: Certificate) { c.notBefore - SKEW <= now <= c.notAfter + SKEW }

  predicate MayIssue(c: Certificate) {
    && c.basicConstraints.Present? && c.basicConstraints.value.ca
    && !c.keyUsage.Malformed? && (c.keyUsage.Present? ==> c.keyUsage.value.keyCertSign)
  }

  predicate MaySign(c: Certificate) {
    !c.keyUsage.Malformed? && (c.keyUsage.Present? ==> c.keyUsage.value.digitalSignature)
  }

  function PathLen(c: Certificate): Option<nat> {
    if c.basicConstraints.Present? then c.basicConstraints.value.pathLen else None
  }

  /** At most `pathLen` further issuers follow issuer `j` before the leaf, the last of the chain. */
  predicate PathAllows(chain: seq<Certificate>, j: nat)
    requires j < |chain| - 1
  {
    PathLen(chain[j]).Some? ==> |chain| - 2 - j <= PathLen(chain[j]).value
  }

  predicate Issuers(chain: seq<Certificate>, crypto: Crypto) {
    forall i :: 0 <= i < |chain| - 1 ==>
      crypto.signs(chain[i], chain[i + 1]) && MayIssue(chain[i]) && PathAllows(chain, i)
  }

  /** What is wrong with a certificate that may not issue others. */
  predicate CannotIssue(c: Certificate, e: Refusal) {
    match e
    case BadBasicConstraints => c.basicConstraints == Malformed
    case NoBasicConstraints => c.basicConstraints == Absent
    case NotCa => c.basicConstraints.Present? && !c.basicConstraints.value.ca
    case BadKeyUsage => c.keyUsage == Malformed
    case NoKeyCertSign => c.keyUsage.Present? && !c.keyUsage.value.keyCertSign
    case _ => false
  }

  predicate IssuerFault(chain: seq<Certificate>, crypto: Crypto, i: nat, e: Refusal)
    requires i < |chain| - 1
  {
    if e == BadSignature then !crypto.signs(chain[i], chain[i + 1])
    else if e == PathTooLong then !PathAllows(chain, i)
    else CannotIssue(chain[i], e)
  }

  /** The reason of a refused chain is in the chain. */
  predicate BadIssuer(chain: seq<Certificate>, crypto: Crypto, e: Refusal) {
    exists i :: 0 <= i < |chain| - 1 && IssuerFault(chain, crypto, i, e)
  }

  method CheckCaConstraints(issuer: Certificate, isTrustAnchor: bool, maxPathLen: nat)
    returns (r: Result<nat, Refusal>)
    ensures r.Ok? <==> MayIssue(issuer) && (isTrustAnchor || maxPathLen > 0)
    ensures r.Ok? ==>
      var spent := if isTrustAnchor then maxPathLen else maxPathLen - 1;
      r.value == if PathLen(issuer).Some? && PathLen(issuer).value < spent then PathLen(issuer).value else spent
    ensures r.Err? ==> if MayIssue(issuer) then r.error == PathTooLong else CannotIssue(issuer, r.error)
  {
    if issuer.basicConstraints.Malformed? { return Err(BadBasicConstraints); }
    if issuer.basicConstraints.Absent? { return Err(NoBasicConstraints); }
    if !issuer.basicConstraints.value.ca { return Err(NotCa); }
    if issuer.keyUsage.Malformed? { return Err(BadKeyUsage); }
    if issuer.keyUsage.Present? && !issuer.keyUsage.value.keyCertSign { return Err(NoKeyCertSign); }
    var budget := maxPathLen;
    if !isTrustAnchor {
      if budget == 0 { return Err(PathTooLong); }
      budget := budget - 1;
    }
    if issuer.basicConstraints.value.pathLen.Some? {
      var limit := issuer.basicConstraints.value.pathLen.value;
      if limit < budget { budget := limit; }
    }
    return Ok(budget);
  }

  /** The budget left before issuer `i` is what the tightest constraint so far allows, and no less. */
  ghost predicate BudgetAt(chain: seq<Certificate>, i: nat, budget: nat)
    requires i <= |chain|
  {
    && (forall j :: 0 <= j < i && PathLen(chain[j]).Some? ==> budget <= PathLen(chain[j]).value - (i - 1 - j))
    && (budget < |chain| - i ==>
        exists j :: 0 <= j < i && PathLen(chain[j]).Some? && budget == PathLen(chain[j]).value - (i - 1 - j))
  }

  method CheckIssuers(chain: seq<Certificate>, crypto: Crypto) returns (r: Result<(), Refusal>)
    requires |chain| >= 1
    ensures r.Ok? <==> Issuers(chain, crypto)
    ensures r.Err? ==> BadIssuer(chain, crypto, r.error)
  {
    var maxPathLen: nat := |chain|;
    hide MayIssue, CannotIssue, PathLen;
    for i := 0 to |chain| - 1
      invariant forall j :: 0 <= j < i ==> crypto.signs(chain[j], chain[j + 1]) && MayIssue(chain[j])
      invariant BudgetAt(chain, i, maxPathLen)
    {
      if !crypto.signs(chain[i], chain[i + 1]) {
        assert IssuerFault(chain, crypto, i, BadSignature);
        return Err(BadSignature);
      }
      var next := CheckCaConstraints(chain[i], i == 0, maxPathLen);
      if next.Err? {
        IssuerRefused(chain, crypto, i, maxPathLen, next.error);
        return Err(next.error);
      }
      BudgetStep(chain, i, maxPathLen, next.value);
      maxPathLen := next.value;
    }
    return Ok(());
  }

  /** The budget runs out only where an earlier issuer allows too few. */
  lemma BudgetSpent(chain: seq<Certificate>, i: nat)
    requires 0 < i < |chain| - 1 && BudgetAt(chain, i, 0)
    ensures exists j :: 0 <= j < i && !PathAllows(chain, j)
  {
    var j :| 0 <= j < i && PathLen(chain[j]).Some? && 0 == PathLen(chain[j]).value - (i - 1 - j);
    assert !PathAllows(chain, j);
  }

  lemma IssuerRefused(chain: seq<Certificate>, crypto: Crypto, i: nat, budget: nat, e: Refusal)
    requires i < |chain| - 1 && BudgetAt(chain, i, budget)
    requires if MayIssue(chain[i]) then i > 0 && budget == 0 && e == PathTooLong else CannotIssue(chain[i], e)
    ensures !Issuers(chain, crypto) && BadIssuer(chain, crypto, e)
  {
    if MayIssue(chain[i]) {
      BudgetSpent(chain, i);
      var j :| 0 <= j < i && !PathAllows(chain, j);
      assert IssuerFault(chain, crypto, j, e);
    } else {
      assert IssuerFault(chain, crypto, i, e);
    }
  }

  lemma BudgetStep(chain: seq<Certificate>, i: nat, budget: nat, next: nat)
    requires i < |chain| - 1 && BudgetAt(chain, i, budget) && (i > 0 ==> budget > 0)
    requires var spent := if i == 0 then budget else budget - 1;
      next == if PathLen(chain[i]).Some? && PathLen(chain[i]).value < spent then PathLen(chain[i]).value else spent
    ensures BudgetAt(chain, i + 1, next)
  {
    if next < |chain| - i - 1 && next == budget - 1 && i > 0 {
      var j :| 0 <= j < i && PathLen(chain[j]).Some? && budget == PathLen(chain[j]).value - (i - 1 - j);
      assert next == PathLen(chain[j]).value - (i - j);
    }
  }

  ghost predicate Parsed(chain: seq<Certificate>, ders: seq<seq<u8>>, crypto: Crypto) {
    |chain| == |ders| && forall i :: 0 <= i < |ders| ==> crypto.parse(ders[i]) == Some(chain[i])
  }

  ghost predicate OutOfWindow(chain: seq<Certificate>, at: u64, e: Refusal) {
    || (e == NotYetValid && exists i :: 0 <= i < |chain| && at + 60 < chain[i].notBefore)
    || (e == Expired && exists i :: 0 <= i < |chain| && at > chain[i].notAfter + 60)
  }

  method ParseChain(ders: seq<seq<u8>>, crypto: Crypto, at: u64) returns (r: Result<seq<Certificate>, Refusal>)
    ensures r.Ok? ==> Parsed(r.value, ders, crypto) && forall c :: c in r.value ==> ValidAt(at, c)
    ensures r.Err? ==> forall chain :: Parsed(chain, ders, crypto) ==>
      exists i :: 0 <= i < |chain| && !ValidAt(at, chain[i])
    ensures r.Err? ==> forall chain :: Parsed(chain, ders, crypto) ==> OutOfWindow(chain, at, r.error)
  {
    var chain: seq<Certificate> := [];
    for n := 0 to |ders|
      invariant |chain| == n
      invariant forall i :: 0 <= i < n ==> crypto.parse(ders[i]) == Some(chain[i]) && ValidAt(at, chain[i])
    {
      var c := crypto.parse(ders[n]);
      if c.None? { return Err(Unparsable); }
      var valid := CheckValidityWindow(at, c.value);
      if valid.Err? { return Err(valid.error); }
      chain := chain + [c.value];
    }
    return Ok(chain);
  }

  /** Every condition of the check, over a parsed chain. */
  ghost predicate Trusted(chain: seq<Certificate>, crypto: Crypto, at: u64)
    requires |chain| >= 1
  {
    && (forall i :: 0 <= i < |chain| ==> ValidAt(at, chain[i]))
    && Issuers(chain, crypto)
    && var leaf := chain[|chain| - 1];
       MaySign(leaf) && crypto.sealed(leaf)
  }

  ghost predicate BadChain(chain: seq<Certificate>, crypto: Crypto, at: u64, e: Refusal)
  {
    chain != [] &&
    var leaf := chain[|chain| - 1];
    || OutOfWindow(chain, at, e)
    || BadIssuer(chain, crypto, e)
    || (e == BadKeyUsage && leaf.keyUsage == Malformed)
    || (e == NoDigitalSignature && leaf.keyUsage.Present? && !leaf.keyUsage.value.digitalSignature)
    || (e == BadSeal && !crypto.sealed(leaf))
  }

  /** A trusted chain, in the fields of its certificates. */
  lemma TrustedIs(chain: seq<Certificate>, crypto: Crypto, at: u64)
    requires |chain| >= 1
    ensures Trusted(chain, crypto, at) <==>
      && (forall i :: 0 <= i < |chain| ==> chain[i].notBefore <= at + 60 && at <= chain[i].notAfter + 60)
      && (forall i :: 0 <= i < |chain| - 1 ==> crypto.signs(chain[i], chain[i + 1]))
      && (forall i :: 0 <= i < |chain| - 1 ==>
            && chain[i].basicConstraints.Present? && chain[i].basicConstraints.value.ca
            && (chain[i].keyUsage == Absent
                || (chain[i].keyUsage.Present? && chain[i].keyUsage.value.keyCertSign)))
      && (forall i, n :: 0 <= i < |chain| - 1 ==>
            (chain[i].basicConstraints == Present(BasicConstraints(true, Some(n))) ==> |chain| - 2 - i <= n))
      && (chain[|chain| - 1].keyUsage == Absent
          || (chain[|chain| - 1].keyUsage.Present? && chain[|chain| - 1].keyUsage.value.digitalSignature))
      && crypto.sealed(chain[|chain| - 1])
  {
    forall i | 0 <= i < |chain| - 1 && chain[i].basicConstraints.Present? && chain[i].basicConstraints.value.ca
      ensures PathAllows(chain, i) <==> forall n ::
        chain[i].basicConstraints == Present(BasicConstraints(true, Some(n))) ==> |chain| - 2 - i <= n
    {
      var limit := chain[i].basicConstraints.value.pathLen;
      if limit.Some? { assert chain[i].basicConstraints == Present(BasicConstraints(true, Some(limit.value))); }
    }
  }

  /** The bundle, root first, and then the signing certificate. */
  method VerifyCertificateChain(
      signingCert: seq<u8>, cabundle: seq<seq<u8>>, root: seq<u8>, at: u64, crypto: Crypto)
    returns (r: Result<(), Refusal>)
    ensures r.Ok? <==>
      && cabundle != [] && cabundle[0] == root
      && exists chain :: Parsed(chain, cabundle + [signingCert], crypto) && Trusted(chain, crypto, at)
    ensures cabundle == [] ==> r == Err(EmptyBundle)
    ensures cabundle != [] && cabundle[0] != root ==> r == Err(WrongRoot)
    // The errors after those name what is wrong with the parsed chain.
    ensures cabundle != [] && cabundle[0] == root && r.Err? ==>
      forall chain :: Parsed(chain, cabundle + [signingCert], crypto) ==> BadChain(chain, crypto, at, r.error)
  {
    if cabundle == [] { return Err(EmptyBundle); }
    if cabundle[0] != root { return Err(WrongRoot); }
    var ders := cabundle + [signingCert];
    var parsed := ParseChain(ders, crypto, at);
    if parsed.Err? { return Err(parsed.error); }
    var chain := parsed.value;
    forall other | Parsed(other, ders, crypto) ensures other == chain { ParsedOnce(chain, other, ders, crypto); }
    var issuers := CheckIssuers(chain, crypto);
    if issuers.Err? { return Err(issuers.error); }
    var leaf := chain[|chain| - 1];
    if leaf.keyUsage.Malformed? { return Err(BadKeyUsage); }
    if leaf.keyUsage.Present? && !leaf.keyUsage.value.digitalSignature { return Err(NoDigitalSignature); }
    if !crypto.sealed(leaf) { return Err(BadSeal); }
    assert Trusted(chain, crypto, at);
    return Ok(());
  }

  lemma ParsedOnce(a: seq<Certificate>, b: seq<Certificate>, ders: seq<seq<u8>>, crypto: Crypto)
    requires Parsed(a, ders, crypto) && Parsed(b, ders, crypto)
    ensures a == b
  {
    forall i | 0 <= i < |a| ensures a[i] == b[i] { assert crypto.parse(ders[i]) == Some(b[i]); }
  }
}
