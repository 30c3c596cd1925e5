/** UTF-8 text is exactly what writing Unicode scalar values gives (section 3 of RFC 3629). */
module Utf8Text {
  import opened Bytes
  import opened Policy

  /** A code point that is not a surrogate. */
  predicate Scalar(c: nat) { c <= 0x10FFFF && !(0xD800 <= c <= 0xDFFF) }

  function WriteChar(c: nat): seq<u8>
    requires Scalar(c)
  {
    if c < 0x80 then [c]
    else if c < 0x800 then [0xC0 + c / 64, 0x80 + c % 64]
    else if c < 0x1_0000 then [0xE0 + c / 4096, 0x80 + c / 64 % 64, 0x80 + c % 64]
    else [0xF0 + c / 262144, 0x80 + c / 4096 % 64, 0x80 + c / 64 % 64, 0x80 + c % 64]
  }

  predicate AllScalar(cs: seq<nat>) { forall i :: 0 <= i < |cs| ==> Scalar(cs[i]) }

  function WriteText(cs: seq<nat>): seq<u8>
    requires AllScalar(cs)
  {
    if cs == [] then [] else assert Scalar(cs[0]); WriteChar(cs[0]) + WriteText(cs[1..])
  }

  lemma OneChar(c: nat, rest: seq<u8>)
    requires Scalar(c) && Utf8(rest)
    ensures Utf8(WriteChar(c) + rest)
  {
    var s := WriteChar(c) + rest;
    if c < 0x80 {
      assert s[1..] == rest;
    } else if c < 0x800 {
      assert s[2..] == rest;
    } else if c < 0x1_0000 {
      assert s[3..] == rest && s[0] == 0xE0 + c / 4096 && s[1] == 0x80 + c / 64 % 64 && s[2] == 0x80 + c % 64;
      ThreeDigits(c);
    } else {
      assert s[4..] == rest && s[0] == 0xF0 + c / 262144 && s[1] == 0x80 + c / 4096 % 64;
      assert s[2] == 0x80 + c / 64 % 64 && s[3] == 0x80 + c % 64;
      FourDigits(c);
    }
  }

  lemma ThreeDigits(c: nat)
    requires Scalar(c) && 0x800 <= c < 0x1_0000
    ensures ThreeBytes(0xE0 + c / 4096, 0x80 + c / 64 % 64)
  {
    assert c / 64 == 64 * (c / 4096) + c / 64 % 64;
  }

  lemma FourDigits(c: nat)
    requires 0x1_0000 <= c <= 0x10FFFF
    ensures FourBytes(0xF0 + c / 262144, 0x80 + c / 4096 % 64)
  {
    assert c / 4096 == 64 * (c / 262144) + c / 4096 % 64;
  }

  lemma {:induction false} WrittenIsUtf8(cs: seq<nat>)
    requires AllScalar(cs)
    ensures Utf8(WriteText(cs))
  {
    if cs != [] {
      assert Scalar(cs[0]);
      WrittenIsUtf8(cs[1..]);
      OneChar(cs[0], WriteText(cs[1..]));
    }
  }

  lemma TwoRead(a: u8, b: u8) returns (c: nat)
    requires 0xC2 <= a <= 0xDF && Tail(b)
    ensures Scalar(c) && WriteChar(c) == [a, b]
  {
    c := (a - 0xC0) * 64 + (b - 0x80);
    assert c / 64 == a - 0xC0 && c % 64 == b - 0x80;
  }

  lemma ThreeRead(a: u8, b: u8, d: u8) returns (c: nat)
    requires ThreeBytes(a, b) && Tail(d)
    ensures Scalar(c) && WriteChar(c) == [a, b, d]
  {
    var m: nat := (a - 0xE0) * 64 + (b - 0x80);
    c := m * 64 + (d - 0x80);
    assert c / 64 == m && c % 64 == d - 0x80 && m / 64 == a - 0xE0 && m % 64 == b - 0x80;
    assert c / 4096 == m / 64;
  }

  lemma FourRead(a: u8, b: u8, d: u8, e: u8) returns (c: nat)
    requires FourBytes(a, b) && Tail(d) && Tail(e)
    ensures Scalar(c) && WriteChar(c) == [a, b, d, e]
  {
    var m: nat := (a - 0xF0) * 64 + (b - 0x80);
    var n: nat := m * 64 + (d - 0x80);
    c := n * 64 + (e - 0x80);
    assert c / 64 == n && c % 64 == e - 0x80 && n / 64 == m && n % 64 == d - 0x80;
    assert m / 64 == a - 0xF0 && m % 64 == b - 0x80;
    assert c / 4096 == n / 64 && c / 262144 == m / 64;
  }

  /** The first character of UTF-8 text. */
  lemma FirstChar(s: seq<u8>) returns (c: nat, n: nat)
    requires Utf8(s) && s != []
    ensures Scalar(c) && 1 <= n <= |s| && WriteChar(c) == s[..n] && Utf8(s[n..])
  {
    if s[0] < 0x80 {
      c, n := s[0], 1;
    } else if s[0] <= 0xDF {
      n := 2;
      c := TwoRead(s[0], s[1]);
    } else if s[0] <= 0xEF {
      n := 3;
      c := ThreeRead(s[0], s[1], s[2]);
    } else {
      n := 4;
      c := FourRead(s[0], s[1], s[2], s[3]);
    }
  }

  lemma {:induction false} Utf8IsWritten(s: seq<u8>) returns (cs: seq<nat>)
    requires Utf8(s)
    ensures AllScalar(cs) && WriteText(cs) == s
    decreases |s|
  {
    if s == [] {
      cs := [];
    } else {
      hide Utf8, WriteChar;
      var c, n := FirstChar(s);
      var rest := Utf8IsWritten(s[n..]);
      cs := [c] + rest;
      assert cs[1..] == rest;
      assert s == s[..n] + s[n..];
    }
  }

  /** So text is UTF-8 exactly if some scalar values are written as it. */
  lemma Utf8Exactly(s: seq<u8>)
    ensures Utf8(s) <==> exists cs :: AllScalar(cs) && WriteText(cs) == s
  {
    if Utf8(s) { var cs := Utf8IsWritten(s); }
    forall cs | AllScalar(cs) && WriteText(cs) == s ensures Utf8(s) { WrittenIsUtf8(cs); }
  }
}
