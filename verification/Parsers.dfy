/**
 * What the parsers of the policy inputs accept, said through printers: the text of a value, and the only texts that
 * give that value.
 */
module Parsers {
  import opened Bytes
  import opened Policy
  import opened Strings
  import opened PolicyInputs
  import P = ParentPolicy
  import L = LaunchCheck

  // ---- Names ----

  /** Printable ASCII stands for itself. */
  lemma AsciiIs(s: string, i: nat)
    requires i < |s| && s[i] as int < 128
    ensures |Ascii(s)| == |s| && Ascii(s)[i] == s[i] as int
  {
  }

  lemma FinalityNames(s: seq<u8>)
    ensures ParseFinalityTag(s) == Some(Latest) <==> s == Ascii("latest")
    ensures ParseFinalityTag(s) == Some(Safe) <==> s == Ascii("safe")
    ensures ParseFinalityTag(s) == Some(Finalized) <==> s == Ascii("finalized")
    ensures forall t :: L.FinalityText(t) == s ==> ParseFinalityTag(s) == Some(t)
  {
    assert |Ascii("latest")| == 6 && |Ascii("safe")| == 4 && |Ascii("finalized")| == 9;
  }

  /** The names of a network in the environment. */
  predicate NetworkName(n: BitcoinNetwork, s: seq<u8>) {
    match n
    case Mainnet => s == Ascii("bitcoin") || s == Ascii("mainnet")
    case Testnet3 => s == Ascii("testnet") || s == Ascii("testnet3")
    case Testnet4 => s == Ascii("testnet4")
    case Signet => s == Ascii("signet")
    case SignetCustom => s == Ascii("signetcustom")
    case Regtest => s == Ascii("regtest")
  }

  lemma NetworkNames(s: seq<u8>, n: BitcoinNetwork)
    ensures P.NetworkFromEnv(s) == Some(n) <==> NetworkName(n, s)
  {
    assert |Ascii("bitcoin")| == 7 && |Ascii("mainnet")| == 7 && |Ascii("testnet")| == 7 && |Ascii("regtest")| == 7;
    assert |Ascii("testnet3")| == 8 && |Ascii("testnet4")| == 8 && |Ascii("signet")| == 6;
    assert |Ascii("signetcustom")| == 12;
    assert Ascii("bitcoin")[0] == 98 && Ascii("mainnet")[0] == 109 && Ascii("testnet")[0] == 116;
    assert Ascii("regtest")[0] == 114 && Ascii("testnet3")[7] == 51 && Ascii("testnet4")[7] == 52;
  }

  // ---- Lower case ----

  /** The letters are lowered, and nothing else changes. */
  lemma LowerIs(s: seq<u8>)
    ensures Lower(Ascii("AZ@[")) == Ascii("az@[")
    ensures |Lower(s)| == |s|
    ensures forall i :: 0 <= i < |s| && !(65 <= s[i] <= 90) ==> Lower(s)[i] == s[i]
    ensures forall i :: 0 <= i < |s| && 65 <= s[i] <= 90 ==> Lower(s)[i] == s[i] + 32
  {
  }

  // ---- Numbers ----

  predicate AllDigits(s: seq<u8>) { forall x :: x in s ==> IsDigit(x) }

  function ZeroDigits(z: nat): (s: seq<u8>)
    ensures |s| == z
  {
    if z == 0 then [] else ZeroDigits(z - 1) + [48]
  }

  /** A number with leading zeros. */
  function Padded(z: nat, n: nat): seq<u8> { ZeroDigits(z) + L.Decimal(n) }

  lemma {:induction false} DigitsPush(s: seq<u8>, d: nat)
    requires AllDigits(s) && d < 10
    ensures AllDigits(s + [48 + d]) && DigitsValue(s + [48 + d]) == DigitsValue(s) * 10 + d
  {
    var t := s + [48 + d];
    assert t[..|t| - 1] == s;
    forall x | x in t ensures IsDigit(x) { assert x in s || x == 48 + d; }
  }

  lemma {:induction false} ZeroValue(z: nat)
    ensures AllDigits(ZeroDigits(z)) && DigitsValue(ZeroDigits(z)) == 0
  {
    if z > 0 {
      ZeroValue(z - 1);
      DigitsPush(ZeroDigits(z - 1), 0);
    }
  }

  lemma {:induction false} PaddedValue(z: nat, n: nat)
    ensures Padded(z, n) != [] && AllDigits(Padded(z, n)) && DigitsValue(Padded(z, n)) == n
  {
    if n < 10 {
      ZeroValue(z);
      DigitsPush(ZeroDigits(z), n);
    } else {
      PaddedValue(z, n / 10);
      DigitsPush(Padded(z, n / 10), n % 10);
      assert Padded(z, n) == Padded(z, n / 10) + [48 + n % 10];
    }
  }

  /** A number is read from its digits, with or without leading zeros and a plus sign, exactly below the bound. */
  lemma NumberReads(sign: bool, z: nat, n: nat, bound: nat)
    ensures ParseUint((if sign then [0x2B] else []) + Padded(z, n), bound) == if n < bound then Some(n) else None
    ensures ParseUint(L.Decimal(n), bound) == if n < bound then Some(n) else None
  {
    DigitsRead(sign, Padded(z, n), n, bound) by { PaddedValue(z, n); }
    assert Padded(0, n) == L.Decimal(n) == [] + Padded(0, n);
    DigitsRead(false, Padded(0, n), n, bound) by { PaddedValue(0, n); }
  }

  lemma DigitsRead(sign: bool, s: seq<u8>, n: nat, bound: nat)
    requires s != [] && AllDigits(s) && DigitsValue(s) == n
    ensures ParseUint((if sign then [0x2B] else []) + s, bound) == if n < bound then Some(n) else None
  {
    var t := (if sign then [0x2B] else []) + s;
    assert IsDigit(s[0]);
    assert sign ==> t[0] == 0x2B && t[1..] == s;
    assert !sign ==> t == s;
  }

  /** Nothing else is read as that number. */
  lemma OnlyItsDigits(s: seq<u8>, bound: nat) returns (sign: bool, z: nat)
    requires ParseUint(s, bound).Some?
    ensures s == (if sign then [0x2B] else []) + Padded(z, ParseUint(s, bound).value)
  {
    sign := |s| > 1 && s[0] == 0x2B;
    var digits := if sign then s[1..] else s;
    assert s == (if sign then [0x2B] else []) + digits;
    assert AllDigits(digits);
    z := DigitsArePadded(digits);
  }

  lemma {:induction false} DigitsArePadded(s: seq<u8>) returns (z: nat)
    requires s != [] && AllDigits(s)
    ensures s == Padded(z, DigitsValue(s))
  {
    var init, last := s[..|s| - 1], s[|s| - 1];
    assert s == init + [last];
    assert IsDigit(last) && AllDigits(init);
    var d: nat := last - 48;
    DigitsPush(init, d);
    if init == [] {
      z := 0;
      assert s == [48 + d] && DigitsValue(init) == 0;
    } else {
      var y := DigitsArePadded(init);
      var m := DigitsValue(init);
      z := if m == 0 then y + 1 else y;
      if m == 0 { assert L.Decimal(m) == [48]; } else { assert L.Decimal(10 * m + d) == L.Decimal(m) + [48 + d]; }
    }
  }

  // ---- Hex ----

  lemma HexDigitReads(x: nat)
    requires x < 16
    ensures HexValue(L.HexDigit(x)) == Some(x) && L.HexDigit(x) != 0x78 && LowerByte(L.HexDigit(x)) == L.HexDigit(x)
  {
  }

  /** Hex digits in either case give the bytes that print as those digits in lower case, and nothing else does. */
  lemma {:induction false} HexExactly(s: seq<u8>, b: seq<u8>)
    ensures HexDecode(s) == Some(b) <==> Lower(s) == L.HexDigits(b)
    decreases |s|
  {
    L.HexLength(b);
    assert |Lower(s)| == |s|;
    if |s| >= 2 && b != [] {
      HexExactly(s[2..], b[1..]);
      var t, u := Lower(s), L.HexDigits(b);
      assert t[0] == LowerByte(s[0]) && t[1] == LowerByte(s[1]) && t[2..] == Lower(s[2..]);
      assert u[0] == L.HexDigit(b[0] / 16) && u[1] == L.HexDigit(b[0] % 16) && u[2..] == L.HexDigits(b[1..]);
      assert t == [t[0], t[1]] + t[2..] && u == [u[0], u[1]] + u[2..];
      assert b == [b[0]] + b[1..];
      HexDigitOf(s[0], b[0] / 16);
      HexDigitOf(s[1], b[0] % 16);
      HexFirst(s, b);
    }
  }

  lemma HexDigitOf(x: u8, v: nat)
    requires v < 16
    ensures HexValue(x) == Some(v) <==> LowerByte(x) == L.HexDigit(v)
  {
  }

  lemma HexFirst(s: seq<u8>, b: seq<u8>)
    requires |s| >= 2 && b != []
    ensures HexDecode(s) == Some(b) <==>
      HexValue(s[0]) == Some(b[0] / 16) && HexValue(s[1]) == Some(b[0] % 16) && HexDecode(s[2..]) == Some(b[1..])
  {
    hide HexValue;
    assert b == [b[0]] + b[1..];
    assert b[0] == 16 * (b[0] / 16) + b[0] % 16;
  }

  /** `n` bytes are read from their digits, in either case, with or without `0x`; and from nothing else. */
  lemma HexReads(s: seq<u8>, b: seq<u8>)
    ensures HexBytes(Ascii("0x") + s, |b|) == Some(b) <==> Lower(s) == L.HexDigits(b)
    ensures !(Ascii("0x") <= s) ==> (HexBytes(s, |b|) == Some(b) <==> Lower(s) == L.HexDigits(b))
    ensures HexBytes(L.Hex(b), |b|) == Some(b) && HexBytes(L.HexDigits(b), |b|) == Some(b)
  {
    hide HexDecode, L.HexDigits, Lower;
    assert (Ascii("0x") + s)[|Ascii("0x")|..] == s;
    HexExactly(s, b);
    DigitsAreLower(b);
    HexExactly(L.HexDigits(b), b);
    assert L.Hex(b)[|Ascii("0x")|..] == L.HexDigits(b);
  }

  lemma {:induction false} DigitsAreLower(b: seq<u8>)
    ensures Lower(L.HexDigits(b)) == L.HexDigits(b) && !(Ascii("0x") <= L.HexDigits(b))
  {
    var s := L.HexDigits(b);
    if b != [] {
      DigitsAreLower(b[1..]);
      HexDigitReads(b[0] / 16);
      HexDigitReads(b[0] % 16);
      assert s[1] != 0x78 && Ascii("0x")[1] == 0x78;
      var t := L.HexDigits(b[1..]);
      assert s == [s[0], s[1]] + t;
      assert Lower(s) == [LowerByte(s[0]), LowerByte(s[1])] + Lower(t);
    }
  }

  // ---- Lists ----

  predicate Free(s: seq<u8>, x: u8) { forall i :: 0 <= i < |s| ==> s[i] != x }

  predicate AllFree(parts: seq<seq<u8>>, x: u8) { forall i :: 0 <= i < |parts| ==> Free(parts[i], x) }

  function JoinedBy(parts: seq<seq<u8>>, x: u8): seq<u8>
    requires parts != []
  {
    if |parts| == 1 then parts[0] else parts[0] + ([x] + JoinedBy(parts[1..], x))
  }

  lemma {:induction false} SplitFirst(part: seq<u8>, rest: seq<u8>, x: u8, before: seq<u8>)
    requires Free(part, x)
    ensures Split(part, x, before) == [before + part]
    ensures Split(part + ([x] + rest), x, before) == [before + part] + Split(rest, x, [])
    decreases |part|
  {
    var s := part + ([x] + rest);
    if part == [] {
      assert s == [x] + rest && s[1..] == rest;
      assert before + part == before;
    } else {
      SplitFirst(part[1..], rest, x, before + [part[0]]);
      assert s[1..] == part[1..] + ([x] + rest);
      assert before + [part[0]] + part[1..] == before + part;
    }
  }

  /** A list is split into its parts. */
  lemma {:induction false} SplitJoined(parts: seq<seq<u8>>, x: u8)
    requires parts != [] && AllFree(parts, x)
    ensures Split(JoinedBy(parts, x), x, []) == parts
  {
    var first := parts[0];
    assert [] + first == first && Free(first, x);
    if |parts| == 1 {
      SplitFirst(first, [], x, []);
    } else {
      SplitFirst(first, JoinedBy(parts[1..], x), x, []);
      SplitJoined(parts[1..], x);
      assert parts == [first] + parts[1..];
    }
  }

  /** The separators cut every string, so each list of parts is the only one of its string. */
  lemma {:induction false} SplitRejoins(s: seq<u8>, x: u8, part: seq<u8>)
    requires Free(part, x)
    ensures var parts := Split(s, x, part);
      parts != [] && AllFree(parts, x) && JoinedBy(parts, x) == part + s
    decreases |s|
  {
    if s == [] {
      assert part + s == part;
    } else if s[0] == x {
      SplitRejoins(s[1..], x, []);
      var parts, rest := Split(s, x, part), Split(s[1..], x, []);
      assert parts == [part] + rest && parts[1..] == rest;
      assert [x] + ([] + s[1..]) == s;
    } else {
      SplitRejoins(s[1..], x, part + [s[0]]);
      assert part + [s[0]] + s[1..] == part + s;
    }
  }

  // ---- Trimming ----

  /** White space in ASCII: tab, line feed, vertical tab, form feed, carriage return and space. */
  predicate Blank(s: seq<u8>) { forall i :: 0 <= i < |s| ==> 9 <= s[i] <= 13 || s[i] == 32 }

  /** Text that starts and ends with a visible ASCII character. */
  predicate Visible(s: seq<u8>) { s != [] && 33 <= s[0] <= 126 && 33 <= s[|s| - 1] <= 126 }

  lemma {:induction false} TrimsFront(blank: seq<u8>, s: seq<u8>)
    requires Blank(blank) && s != [] && 33 <= s[0] <= 126
    ensures TrimStart(blank + s) == s
  {
    if blank == [] {
      assert blank + s == s;
    } else {
      TrimsFront(blank[1..], s);
      assert (blank + s)[1..] == blank[1..] + s;
    }
  }

  lemma {:induction false} TrimsBack(s: seq<u8>, blank: seq<u8>)
    requires Blank(blank) && s != [] && 33 <= s[|s| - 1] <= 126
    ensures TrimEnd(s + blank) == s
    decreases |blank|
  {
    if blank == [] {
      assert s + blank == s;
    } else {
      var n := |blank| - 1;
      TrimsBack(s, blank[..n]);
      assert (s + blank)[..|s| + n] == s + blank[..n];
    }
  }

  /** White space around visible text is trimmed, and no more. */
  lemma Trims(before: seq<u8>, s: seq<u8>, after: seq<u8>)
    requires Blank(before) && Visible(s) && Blank(after)
    ensures Trim(before + (s + after)) == s
  {
    hide TrimStart, TrimEnd;
    TrimsFront(before, s + after);
    TrimsBack(s, after);
  }

  lemma VisibleIsTrimmed(s: seq<u8>)
    requires Visible(s)
    ensures Trim(s) == s
  {
    assert [] + (s + []) == s;
    Trims([], s, []);
  }

  lemma {:induction false} BlankTrims(s: seq<u8>)
    requires Blank(s)
    ensures TrimStart(s) == [] && Trim(s) == []
  {
    if s != [] { BlankTrims(s[1..]); }
  }

  lemma {:induction false} NoneBlank(parts: seq<seq<u8>>)
    requires forall i :: 0 <= i < |parts| ==> Visible(parts[i])
    ensures NotBlank(parts) == parts
  {
    hide Trim;
    if parts != [] {
      VisibleIsTrimmed(parts[0]);
      NoneBlank(parts[1..]);
    }
  }

  /** The entries of a comma-separated list of visible parts are those parts. */
  lemma EntriesOf(parts: seq<seq<u8>>)
    requires parts != [] && AllFree(parts, 0x2C) && forall i :: 0 <= i < |parts| ==> Visible(parts[i])
    ensures Entries(JoinedBy(parts, 0x2C)) == parts
  {
    hide Split, NotBlank;
    SplitJoined(parts, 0x2C);
    NoneBlank(parts);
  }

  // ---- URLs ----

  lemma {:induction false} LastIndexOf(s: seq<u8>, x: u8, t: seq<u8>)
    requires Free(t, x)
    ensures LastIndex(s + ([x] + t), x) == Some(|s|)
    decreases |t|
  {
    var u := s + ([x] + t);
    if t == [] {
      assert u[|u| - 1] == x;
    } else {
      var n := |t| - 1;
      LastIndexOf(s, x, t[..n]);
      assert u[|u| - 1] == t[n] && u[..|u| - 1] == s + ([x] + t[..n]);
    }
  }

  lemma HostBeforePort(host: seq<u8>, port: seq<u8>)
    requires Free(port, 0x3A)
    ensures HostPart(host + ([0x3A] + port)) == host && LastIndex(host + ([0x3A] + port), 0x3A) == Some(|host|)
  {
    LastIndexOf(host, 0x3A, port);
    assert (host + ([0x3A] + port))[..|host|] == host;
  }

  /** No scheme starts another. */
  lemma OneScheme(scheme: seq<u8>, other: seq<u8>, rest: seq<u8>)
    requires IsScheme(scheme) && IsScheme(other) && other <= scheme + rest
    ensures other == scheme
  {
    var url := scheme + rest;
    assert url[0] == scheme[0] == other[0] && url[4] == scheme[4] == other[4];
    assert Ascii("ssl://")[0] == 115 && Ascii("tcp://")[0] == 116;
    assert Ascii("http://")[0] == 104 && Ascii("http://")[4] == 58;
    assert Ascii("https://")[0] == 104 && Ascii("https://")[4] == 115;
  }

  /** The host in what follows the scheme. Electrum URLs need a port. */
  lemma RestOfUrl(url: Text, scheme: seq<u8>, rest: seq<u8>)
    requires IsScheme(scheme) && StripOne(url, 0x2F) == scheme + rest
    ensures P.IndexerHost(url) ==
      if (scheme == Ascii("ssl://") || scheme == Ascii("tcp://")) && LastIndex(rest, 0x3A).None? then None
      else Some(Lower(HostPart(rest)))
  {
    forall other | IsScheme(other) && other <= scheme + rest ensures other == scheme { OneScheme(scheme, other, rest); }
    assert IsScheme(Ascii("ssl://")) && IsScheme(Ascii("tcp://"));
    assert IsScheme(Ascii("https://")) && IsScheme(Ascii("http://"));
    hide Ascii, Lower, Utf8, LastIndex, HostPart, IsScheme;
    assert scheme <= scheme + rest && (scheme + rest)[|scheme|..] == rest;
  }

  /** Before the last colon of a URL with a port there is the host, whatever follows the colon. */
  lemma HostOfUrl(url: Text, scheme: seq<u8>, host: seq<u8>, port: seq<u8>)
    requires IsScheme(scheme) && url == scheme + (host + ([0x3A] + port)) && Free(port, 0x3A)
    ensures P.IndexerHost(url) == Some(Lower(host))
  {
    var kept := StripOne(port, 0x2F);
    assert Free(kept, 0x3A);
    UrlWithoutSlash(scheme, host, port);
    HostBeforePort(host, kept);
    hide LastIndex, HostPart, Ascii, Lower, Utf8, IsScheme, P.IndexerHost;
    RestOfUrl(url, scheme, host + ([0x3A] + kept));
  }

  /** Without a colon the rest is the host, and an Electrum URL is refused. */
  lemma HostWithoutPort(url: Text, scheme: seq<u8>, host: seq<u8>)
    requires IsScheme(scheme) && url == scheme + host && Free(host, 0x3A) && host != [] && host[|host| - 1] != 0x2F
    ensures P.IndexerHost(url) ==
      if scheme == Ascii("ssl://") || scheme == Ascii("tcp://") then None else Some(Lower(host))
  {
    assert url[|url| - 1] == host[|host| - 1];
    assert LastIndex(host, 0x3A).None?;
    hide LastIndex, Ascii, Lower, Utf8, IsScheme, P.IndexerHost;
    RestOfUrl(url, scheme, host);
  }

  lemma UrlWithoutSlash(scheme: seq<u8>, host: seq<u8>, port: seq<u8>)
    ensures StripOne(scheme + (host + ([0x3A] + port)), 0x2F) == scheme + (host + ([0x3A] + StripOne(port, 0x2F)))
  {
    var url := scheme + (host + ([0x3A] + port));
    if port == [] {
      assert url[|url| - 1] == 0x3A;
    } else {
      assert url[|url| - 1] == port[|port| - 1];
      assert url[..|url| - 1] == scheme + (host + ([0x3A] + port[..|port| - 1]));
    }
  }
}
