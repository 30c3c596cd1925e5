/** Bytes, optional and failing values, and big-endian integers: the vocabulary the other modules share. */
module Bytes {
  type u8 = x: int | 0 <= x < 256

  datatype Option<+T> = None | Some(value: T) {
    predicate IsFailure() { None? }
    function PropagateFailure<U>(): Option<U> requires None? { None }
    function Extract(): T requires Some? { value }
  }

  datatype Result<+T, +E> = Ok(value: T) | Err(error: E) {
    predicate IsFailure() { Err? }
    function PropagateFailure<U>(): Result<U, E> requires Err? { Err(error) }
    function Extract(): T requires Ok? { value }
  }

  /** The number of values that `n` bytes can hold. */
  function Pow256(n: nat): (p: nat)
    ensures p >= 1
  {
    if n == 0 then 1 else 256 * Pow256(n - 1)
  }

  /** The `n` low bytes of `v`, most significant first. */
  function ToBE(v: nat, n: nat): (s: seq<u8>)
    ensures |s| == n
  {
    if n == 0 then [] else ToBE(v / 256, n - 1) + [v % 256]
  }

  function FromBE(s: seq<u8>): (v: nat)
    ensures v < Pow256(|s|)
  {
    if s == [] then 0 else FromBE(s[..|s| - 1]) * 256 + s[|s| - 1]
  }

  function Zeros(n: nat): (s: seq<u8>)
    ensures |s| == n && forall i :: 0 <= i < n ==> s[i] == 0
  {
    seq(n, _ => 0)
  }

  lemma {:induction false} FromToBE(v: nat, n: nat)
    requires v < Pow256(n)
    ensures FromBE(ToBE(v, n)) == v
  {
    if n > 0 {
      FromToBE(v / 256, n - 1);
      var s := ToBE(v, n);
      assert s[..n - 1] == ToBE(v / 256, n - 1);
    }
  }

  lemma {:induction false} ToFromBE(s: seq<u8>)
    ensures ToBE(FromBE(s), |s|) == s
  {
    if s != [] {
      ToFromBE(s[..|s| - 1]);
      assert s == s[..|s| - 1] + [s[|s| - 1]];
    }
  }

  lemma {:induction false} ToBEInjective(v: nat, w: nat, n: nat)
    requires v < Pow256(n) && w < Pow256(n) && ToBE(v, n) == ToBE(w, n)
    ensures v == w
  {
    FromToBE(v, n);
    FromToBE(w, n);
  }

  /** The first byte is zero exactly when one byte fewer would do. */
  lemma {:induction false} LeadingByte(v: nat, n: nat)
    requires n >= 1 && v < Pow256(n)
    ensures ToBE(v, n)[0] == 0 <==> v < Pow256(n - 1)
  {
    if n > 1 {
      LeadingByte(v / 256, n - 1);
      assert ToBE(v, n)[0] == ToBE(v / 256, n - 1)[0];
    }
  }

  lemma PowersOf256()
    ensures Pow256(1) == 0x100 && Pow256(2) == 0x1_0000 && Pow256(3) == 0x100_0000
    ensures Pow256(4) == 0x1_0000_0000 && Pow256(8) == 0x1_0000_0000_0000_0000
    ensures Pow256(16) == 0x1_0000_0000_0000_0000_0000_0000_0000_0000
  {
    assert Pow256(0) == 1;
    assert Pow256(1) == 256;
    assert Pow256(2) == 256 * 256;
    assert Pow256(3) == 256 * Pow256(2);
    assert Pow256(4) == 256 * Pow256(3);
    assert Pow256(5) == 256 * Pow256(4);
    assert Pow256(6) == 256 * Pow256(5);
    assert Pow256(7) == 256 * Pow256(6);
    assert Pow256(8) == 256 * Pow256(7);
    assert Pow256(9) == 256 * Pow256(8);
    assert Pow256(10) == 256 * Pow256(9);
    assert Pow256(11) == 256 * Pow256(10);
    assert Pow256(12) == 256 * Pow256(11);
    assert Pow256(13) == 256 * Pow256(12);
    assert Pow256(14) == 256 * Pow256(13);
    assert Pow256(15) == 256 * Pow256(14);
  }

  lemma SliceOfDrop<T>(x: seq<T>, from: nat, n: nat)
    requires from + n <= |x|
    ensures x[from..][..n] == x[from..from + n]
  {
  }

  lemma ConcatAssoc<T>(a: seq<T>, b: seq<T>, c: seq<T>)
    ensures a + (b + c) == (a + b) + c
  {
  }

  /** Reading `a` then `b` is reading `a + b`. */
  lemma PrefixOfSum<T>(a: seq<T>, b: seq<T>, x: seq<T>)
    ensures a + b <= x <==> a <= x && b <= x[|a|..]
  {
    if a + b <= x {
      assert x[..|a|] == (a + b)[..|a|] == a;
      assert x[|a|..][..|b|] == x[|a|..|a| + |b|] == (a + b)[|a|..] == b;
    }
    if a <= x && b <= x[|a|..] {
      assert x == a + x[|a|..];
      assert x[|a|..] == b + x[|a|..][|b|..];
    }
  }
}
