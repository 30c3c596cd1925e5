/**
 * What the parent and the enclave both build the policy from: the environment of the measured image, the
 * `SetEndpoints` request, and checks and hashes made elsewhere.
 */
module PolicyInputs {
  import opened Bytes
  import opened Policy
  import opened Strings

  type Env = map<string, Text>

  datatype EndpointsRequest = EndpointsRequest(
    electrumUrl: Text,
    evmRpcHost: Text,
    evmRpcCaDer: seq<u8>,
    evmRpcTlsPort: nat,
    kmsKeyArn: Text,
    kmsRegion: Text,
    kmsSeedId: Text,
    kmsExpectedEvmAddress: Text)

  /** `kmsShape` is the rest of the checks on a key ARN, region and seed id, and on the account of the ARN. */
  datatype Outside = Outside(
    sha256: seq<u8> -> Digest,
    dnsName: seq<u8> -> bool,
    caCertificate: seq<u8> -> bool,
    kmsShape: (seq<u8>, seq<u8>, seq<u8>) -> bool)

  const ZERO_ADDRESS: Address := Zeros(20)
  const ZERO_PCR: Pcr := Zeros(48)

  function ParseFinalityTag(s: seq<u8>): Option<FinalityTag> {
    if s == Ascii("latest") then Some(Latest)
    else if s == Ascii("safe") then Some(Safe)
    else if s == Ascii("finalized") then Some(Finalized)
    else None
  }

  function ParseAddress(s: seq<u8>): Option<Address> { HexBytes(s, 20) }

  function ParseSelector(s: seq<u8>): Option<Selector> { HexBytes(s, 4) }

  /** The comma-separated entries that are not blank. */
  function Entries(s: seq<u8>): seq<seq<u8>> { NotBlank(Split(s, 0x2C, [])) }

  function NotBlank(parts: seq<seq<u8>>): seq<seq<u8>> {
    if parts == [] then []
    else if Trim(parts[0]) == [] then NotBlank(parts[1..])
    else [Trim(parts[0])] + NotBlank(parts[1..])
  }

  /** The host in what follows the scheme of a URL: all before the last colon, or all of it without one. */
  function HostPart(rest: seq<u8>): seq<u8> {
    var colon := LastIndex(rest, 0x3A);
    if colon.Some? then rest[..colon.value] else rest
  }

  predicate IsScheme(s: seq<u8>) {
    s == Ascii("ssl://") || s == Ascii("tcp://") || s == Ascii("https://") || s == Ascii("http://")
  }

  lemma SchemeIsAscii(s: seq<u8>)
    requires IsScheme(s)
    ensures forall i :: 0 <= i < |s| ==> s[i] < 0x80
  {
  }

  lemma HostIsText(url: Text, scheme: seq<u8>)
    requires scheme <= url && IsScheme(scheme)
    ensures Utf8(Lower(HostPart(url[|scheme|..])))
  {
    SchemeIsAscii(scheme);
    hide IsScheme, Utf8, Ascii, Lower;
    assert forall i :: 0 <= i < |scheme| ==> url[i] == scheme[i];
    Utf8Drop(url, |scheme|);
    var rest := url[|scheme|..];
    var colon := LastIndex(rest, 0x3A);
    if colon.Some? { Utf8Take(rest, colon.value); }
    Utf8Lower(HostPart(rest));
  }
}
