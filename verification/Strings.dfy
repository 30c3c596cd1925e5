/** The string operations of the two policy builders, on UTF-8 bytes. */
module Strings {
  import opened Bytes
  import opened Policy

  function Ascii(s: string): seq<u8> {
    seq(|s|, i requires 0 <= i < |s| => s[i] as int % 256)
  }

  function StripPrefix(s: seq<u8>, prefix: seq<u8>): Option<seq<u8>> {
    if prefix <= s then Some(s[|prefix|..]) else None
  }

  function StripOne(s: seq<u8>, last: u8): seq<u8> {
    if s != [] && s[|s| - 1] == last then s[..|s| - 1] else s
  }

  function LowerByte(x: u8): u8 { if 0x41 <= x <= 0x5A then x + 0x20 else x }

  function Lower(s: seq<u8>): seq<u8> { seq(|s|, i requires 0 <= i < |s| => LowerByte(s[i])) }

  /** The index of the last `x`. */
  function LastIndex(s: seq<u8>, x: u8): (r: Option<nat>)
    ensures r.Some? ==> r.value < |s| && s[r.value] == x
  {
    if s == [] then None
    else if s[|s| - 1] == x then Some(|s| - 1)
    else LastIndex(s[..|s| - 1], x)
  }

  function Split(s: seq<u8>, separator: u8, part: seq<u8>): seq<seq<u8>>
    decreases |s|
  {
    if s == [] then [part]
    else if s[0] == separator then [part] + Split(s[1..], separator, [])
    else Split(s[1..], separator, part + [s[0]])
  }

  // ---- Numbers and hex ----

  predicate IsDigit(x: u8) { 0x30 <= x <= 0x39 }

  function DigitsValue(s: seq<u8>): (v: nat)
    requires forall x :: x in s ==> IsDigit(x)
  {
    if s == [] then 0
    else
      var last := s[|s| - 1];
      assert IsDigit(last);
      DigitsValue(s[..|s| - 1]) * 10 + (last - 0x30)
  }

  /** `str::parse` of an unsigned integer below `bound`: one plus sign is allowed. */
  function ParseUint(s: seq<u8>, bound: nat): (r: Option<nat>)
    ensures r.Some? ==> r.value < bound
  {
    var digits := if |s| > 1 && s[0] == 0x2B then s[1..] else s;
    if digits == [] || exists x :: x in digits && !IsDigit(x) then None
    else if DigitsValue(digits) < bound then Some(DigitsValue(digits)) else None
  }

  function HexValue(x: u8): (r: Option<nat>)
    ensures r.Some? ==> r.value < 16
  {
    if IsDigit(x) then Some(x - 0x30)
    else if 0x61 <= x <= 0x66 then Some(x - 0x57)
    else if 0x41 <= x <= 0x46 then Some(x - 0x37)
    else None
  }

  function HexDecode(s: seq<u8>): Option<seq<u8>> {
    if s == [] then Some([])
    else if |s| == 1 then None
    else
      var high :- HexValue(s[0]);
      var low :- HexValue(s[1]);
      var rest :- HexDecode(s[2..]);
      Some([16 * high + low] + rest)
  }

  /** `n` bytes of hex, with or without `0x`. */
  function HexBytes(s: seq<u8>, n: nat): (r: Option<seq<u8>>)
    ensures r.Some? ==> |r.value| == n
  {
    var stripped := StripPrefix(s, Ascii("0x"));
    var bytes :- HexDecode(if stripped.Some? then stripped.value else s);
    if |bytes| == n then Some(bytes) else None
  }

  // ---- Trimming ----

  predicate SingleSpace(x: u8) { 0x09 <= x <= 0x0D || x == 0x20 }

  predicate DoubleSpace(x: u8, y: u8) { x == 0xC2 && (y == 0x85 || y == 0xA0) }

  predicate TripleSpace(x: u8, y: u8, z: u8) {
    || (x == 0xE1 && y == 0x9A && z == 0x80)
    || (x == 0xE2 && y == 0x80 && (0x80 <= z <= 0x8A || z == 0xA8 || z == 0xA9 || z == 0xAF))
    || (x == 0xE2 && y == 0x81 && z == 0x9F)
    || (x == 0xE3 && y == 0x80 && z == 0x80)
  }

  /** Without the white space (Unicode `White_Space`) at the front. */
  function TrimStart(s: seq<u8>): seq<u8> {
    if |s| >= 1 && SingleSpace(s[0]) then TrimStart(s[1..])
    else if |s| >= 2 && DoubleSpace(s[0], s[1]) then TrimStart(s[2..])
    else if |s| >= 3 && TripleSpace(s[0], s[1], s[2]) then TrimStart(s[3..])
    else s
  }

  function TrimEnd(s: seq<u8>): seq<u8> {
    var n := |s|;
    if n >= 1 && SingleSpace(s[n - 1]) then TrimEnd(s[..n - 1])
    else if n >= 2 && DoubleSpace(s[n - 2], s[n - 1]) then TrimEnd(s[..n - 2])
    else if n >= 3 && TripleSpace(s[n - 3], s[n - 2], s[n - 1]) then TrimEnd(s[..n - 3])
    else s
  }

  function Trim(s: seq<u8>): seq<u8> { TrimEnd(TrimStart(s)) }

  /** What parses as a number has no white space to trim. */
  lemma NumbersAreTrimmed(s: seq<u8>, bound: nat)
    requires ParseUint(s, bound).Some?
    ensures s != [] && Trim(s) == s
  {
    var digits := if |s| > 1 && s[0] == 0x2B then s[1..] else s;
    assert forall x :: x in digits ==> IsDigit(x);
    assert s[|s| - 1] == digits[|digits| - 1] && IsDigit(digits[|digits| - 1]);
    assert s[0] == 0x2B || s[0] == digits[0];
    assert IsDigit(digits[0]);
  }

  // ---- Parts of UTF-8 text that are UTF-8 text ----

  lemma {:induction false} Utf8Drop(s: seq<u8>, k: nat)
    requires Utf8(s) && k <= |s| && forall i :: 0 <= i < k ==> s[i] < 0x80
    ensures Utf8(s[k..])
  {
    if k > 0 {
      Utf8Drop(s[1..], k - 1);
      assert s[1..][k - 1..] == s[k..];
    }
  }

  /** The bytes of the first character. */
  function FirstSize(s: seq<u8>): (n: nat)
    requires Utf8(s) && s != []
    ensures 1 <= n <= 4 && n <= |s| && Utf8(s[n..]) && (forall i :: 1 <= i < n ==> s[i] >= 0x80)
    ensures forall t :: n <= |t| && t[..n] == s[..n] && Utf8(t[n..]) ==> Utf8(t)
  {
    assert forall t: seq<u8>, n: nat, i: nat :: i < n <= |t| && n <= |s| && t[..n] == s[..n] ==> t[i] == s[i] by {
      forall t: seq<u8>, n: nat, i: nat | i < n <= |t| && n <= |s| && t[..n] == s[..n] ensures t[i] == s[i] {
        assert t[i] == t[..n][i];
      }
    }
    if s[0] < 0x80 then 1 else if s[0] <= 0xDF then 2 else if s[0] <= 0xEF then 3 else 4
  }

  lemma Utf8Empty()
    ensures Utf8([])
  {
  }

  lemma {:induction false} Utf8Take(s: seq<u8>, k: nat)
    requires Utf8(s) && k < |s| && s[k] < 0x80
    ensures Utf8(s[..k])
  {
    Utf8Empty();
    hide Utf8;
    if k == 0 {
      assert s[..k] == [];
    } else {
      var n := FirstSize(s);
      Utf8Take(s[n..], k - n);
      assert s[..k][n..] == s[n..][..k - n];
      assert s[..k][..n] == s[..n];
    }
  }

  lemma {:induction false} Utf8Lower(s: seq<u8>)
    requires Utf8(s)
    ensures Utf8(Lower(s))
    decreases |s|
  {
    if s != [] {
      var n := FirstSize(s);
      Utf8Lower(s[n..]);
      assert Lower(s)[n..] == Lower(s[n..]);
      if s[0] >= 0x80 { assert Lower(s)[..n] == s[..n]; }
    }
  }

  lemma Utf8StripOne(s: seq<u8>, last: u8)
    requires Utf8(s) && last < 0x80
    ensures Utf8(StripOne(s, last))
  {
    if s != [] && s[|s| - 1] == last { Utf8Take(s, |s| - 1); }
  }
}
