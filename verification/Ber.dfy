/**
 * The grammar of the BER values that the converter accepts (X.690, section 8.1), and the tree they stand for.
 *
 * A `Value` is a BER value as it was written: it remembers how each length was written. `Ser` prints it and
 * `WellFormed` says which values are legal, so the byte strings of the format are `Ser(v)` for well-formed `v`.
 * A `Node` is what the converter keeps of it, after chunked strings are joined.
 */
module Ber {
  import opened Bytes

  const MAX_DEPTH: nat := 16
  const MAX_TAG_BYTES: nat := 4
  const MAX_LENGTH_BYTES: nat := 4
  const OCTET_STRING: u8 := 0x04
  const CONSTRUCTED: u8 := 0x20

  datatype Node = Node(tag: seq<u8>, body: Body)
  datatype Body = Primitive(content: seq<u8>) | Constructed(children: seq<Node>)

  /** `Definite(0)` is the one-byte short form, `Definite(n)` a length of `n` further octets. */
  datatype Form = Definite(octets: nat) | Indefinite

  datatype Value =
    | Prim(tag: seq<u8>, form: Form, content: seq<u8>)
    | Cons(tag: seq<u8>, form: Form, children: seq<Value>)

  // ---- Identifier and length octets ----

  predicate IsConstructed(first: u8) { first / 0x20 % 2 == 1 }

  function ClearConstructed(first: u8): u8 {
    if IsConstructed(first) then first - CONSTRUCTED else first
  }

  predicate TagOk(tag: seq<u8>) {
    && 1 <= |tag| <= MAX_TAG_BYTES
    && (|tag| == 1 <==> tag[0] % 0x20 != 0x1F)
    && (|tag| > 1 ==> tag[|tag| - 1] < 0x80 && forall i :: 1 <= i < |tag| - 1 ==> tag[i] >= 0x80)
  }

  predicate LengthOk(octets: nat, len: nat) {
    if octets == 0 then len < 0x80
    else octets <= MAX_LENGTH_BYTES && Pow256(octets - 1) <= len < Pow256(octets)
  }

  function LengthField(octets: nat, len: nat): (s: seq<u8>)
    ensures |s| == 1 + octets
  {
    if octets == 0 then [len % 0x100] else [0x80 + octets % 0x80] + ToBE(len, octets)
  }

  // ---- Values as written ----

  function Header(form: Form, len: nat): (s: seq<u8>)
    ensures |s| >= 1
  {
    if form.Definite? then LengthField(form.octets, len) else [0x80]
  }

  function Closing(form: Form): seq<u8> {
    if form.Definite? then [] else [0, 0]
  }

  function Print(tag: seq<u8>, form: Form, inner: seq<u8>): seq<u8> {
    tag + (Header(form, |inner|) + (inner + Closing(form)))
  }

  /** Identifier and length octets are legal together with `len` content bytes. */
  predicate HeaderOk(tag: seq<u8>, form: Form, len: nat) {
    && TagOk(tag)
    && (form.Definite? ==> LengthOk(form.octets, len))
    && (form.Indefinite? ==> IsConstructed(tag[0]))
  }

  function Ser(v: Value): seq<u8>
    decreases v, 1
  {
    Print(v.tag, v.form, Inner(v))
  }

  function Inner(v: Value): seq<u8>
    decreases v, 0
  {
    match v
    case Prim(_, _, content) => content
    case Cons(_, _, children) => SerAll(children)
  }

  function SerAll(vs: seq<Value>): seq<u8>
    decreases vs, 2
  {
    if vs == [] then [] else Ser(vs[0]) + SerAll(vs[1..])
  }

  /** The value `00 00` that closes an indefinite length. */
  predicate IsEndOfContents(v: Value) {
    v.Prim? && v.tag == [0] && v.content == []
  }

  /** A legal BER value, at any depth. */
  predicate Shape(v: Value) {
    && HeaderOk(v.tag, v.form, |Inner(v)|)
    && IsConstructed(v.tag[0]) == v.Cons?
    && (v.Cons? ==> forall i :: 0 <= i < |v.children| ==> Shape(v.children[i]))
    && (v.Cons? && v.form.Indefinite? ==> NoEndOfContents(v.children))
  }

  predicate AllShape(vs: seq<Value>) {
    forall i :: 0 <= i < |vs| ==> Shape(vs[i])
  }

  /** No part of `v` is nested deeper than the converter allows, when `v` itself is at `depth`. */
  predicate Fits(v: Value, depth: nat) {
    && depth <= MAX_DEPTH
    && (v.Cons? ==> forall i :: 0 <= i < |v.children| ==> Fits(v.children[i], depth + 1))
  }

  predicate WellFormed(v: Value, depth: nat) {
    Shape(v) && Fits(v, depth)
  }

  predicate AllWellFormed(vs: seq<Value>, depth: nat) {
    AllShape(vs) && forall i :: 0 <= i < |vs| ==> Fits(vs[i], depth)
  }

  predicate NoEndOfContents(vs: seq<Value>) {
    forall i :: 0 <= i < |vs| ==> !IsEndOfContents(vs[i])
  }

  // ---- The tree that the converter keeps ----

  predicate IsChunk(n: Node) { n.tag == [OCTET_STRING] && n.body.Primitive? }

  /** A constructed universal OCTET STRING, or a constructed context-specific value, of one-byte tag. */
  predicate Joinable(tag: seq<u8>, children: seq<Node>) {
    && |tag| == 1 && (tag[0] == OCTET_STRING + CONSTRUCTED || tag[0] / 0x40 == 2)
    && children != [] && forall i :: 0 <= i < |children| ==> IsChunk(children[i])
  }

  function Chunks(children: seq<Node>): seq<u8>
    requires forall i :: 0 <= i < |children| ==> IsChunk(children[i])
  {
    if children == [] then [] else
      assert IsChunk(children[0]);
      children[0].body.content + Chunks(children[1..])
  }

  /** A constructed value, or the one primitive that its chunks make. */
  function Join(tag: seq<u8>, children: seq<Node>): Node {
    if Joinable(tag, children)
    then Node([ClearConstructed(tag[0])], Primitive(Chunks(children)))
    else Node(tag, Constructed(children))
  }

  function Norm(v: Value): Node
    decreases v, 1
  {
    match v
    case Prim(tag, _, content) => Node(tag, Primitive(content))
    case Cons(tag, _, children) =>
      Join(tag, NormAll(children))
  }

  function NormAll(vs: seq<Value>): (ns: seq<Node>)
    ensures |ns| == |vs|
    ensures forall i :: 0 <= i < |vs| ==> ns[i] == Norm(vs[i])
    decreases vs, 0
  {
    if vs == [] then [] else [Norm(vs[0])] + NormAll(vs[1..])
  }

  // ---- The canonical way to write a tree ----

  /** The fewest bytes that hold `v`. */
  function ByteCount(v: nat): (n: nat)
    ensures v < Pow256(n) && (n > 0 ==> Pow256(n - 1) <= v)
  {
    if v == 0 then 0 else 1 + ByteCount(v / 256)
  }

  function MinOctets(len: nat): (n: nat)
    ensures len < Pow256(MAX_LENGTH_BYTES) ==> LengthOk(n, len)
  {
    if len < 0x80 then 0 else FewBytes(len, MAX_LENGTH_BYTES); ByteCount(len)
  }

  lemma {:induction false} FewBytes(v: nat, n: nat)
    ensures v < Pow256(n) ==> ByteCount(v) <= n
  {
    if v != 0 && n != 0 { FewBytes(v / 256, n - 1); }
  }

  /** `n` written with definite lengths in the shortest form. */
  function Der(n: Node): Value
    decreases n, 1
  {
    match n.body
    case Primitive(content) => Prim(n.tag, Definite(MinOctets(|content|)), content)
    case Constructed(children) =>
      var vs := DerAll(children);
      Cons(n.tag, Definite(MinOctets(|SerAll(vs)|)), vs)
  }

  function DerAll(ns: seq<Node>): (vs: seq<Value>)
    ensures |vs| == |ns|
    ensures forall i :: 0 <= i < |ns| ==> vs[i] == Der(ns[i])
    decreases ns, 0
  {
    if ns == [] then [] else [Der(ns[0])] + DerAll(ns[1..])
  }

  // ---- Reading is unambiguous: at most one well-formed value starts any byte string ----

  lemma TagUnambiguous(s: seq<u8>, t: seq<u8>, x: seq<u8>)
    requires TagOk(s) && TagOk(t) && s <= x && t <= x
    ensures s == t
  {
    assert forall i :: 0 <= i < |s| && i < |t| ==> s[i] == x[i] == t[i];
  }

  lemma LengthUnambiguous(m: nat, j: nat, n: nat, k: nat, y: seq<u8>)
    requires LengthOk(m, j) && LengthOk(n, k) && LengthField(m, j) <= y && LengthField(n, k) <= y
    ensures m == n && j == k
  {
    assert LengthField(m, j)[0] == y[0] == LengthField(n, k)[0];
    assert m == n;
    if m > 0 {
      assert ToBE(j, m) == LengthField(m, j)[1..] == y[1..1 + m] == LengthField(n, k)[1..] == ToBE(k, m);
      ToBEInjective(j, k, m);
    }
  }

  /** The parts of a printed value, at the front of some bytes. */
  lemma PrintParts(tag: seq<u8>, form: Form, inner: seq<u8>, x: seq<u8>)
    requires Print(tag, form, inner) <= x
    ensures tag <= x
    ensures
      var h := Header(form, |inner|);
      var y := x[|tag|..];
      h <= y && inner <= y[|h|..] && Closing(form) <= y[|h|..][|inner|..]
  {
    var h := Header(form, |inner|);
    PrefixOfSum(tag, h + (inner + Closing(form)), x);
    PrefixOfSum(h, inner + Closing(form), x[|tag|..]);
    PrefixOfSum(inner, Closing(form), x[|tag|..][|h|..]);
  }

  lemma IndefiniteByte(tag: seq<u8>, form: Form, len: nat)
    requires HeaderOk(tag, form, len)
    ensures Header(form, len)[0] == 0x80 <==> form.Indefinite?
  {
  }

  lemma {:induction false} HeaderUnambiguous(
      s: seq<u8>, f: Form, i: seq<u8>, t: seq<u8>, g: Form, j: seq<u8>, x: seq<u8>)
    requires HeaderOk(s, f, |i|) && HeaderOk(t, g, |j|) && Print(s, f, i) <= x && Print(t, g, j) <= x
    ensures s == t && f == g
    ensures f.Definite? ==> i == j
  {
    PrintParts(s, f, i, x);
    PrintParts(t, g, j, x);
    TagUnambiguous(s, t, x);
    var y := x[|s|..];
    IndefiniteByte(s, f, |i|);
    IndefiniteByte(t, g, |j|);
    assert Header(f, |i|)[0] == y[0] == Header(g, |j|)[0];
    if f.Definite? {
      LengthUnambiguous(f.octets, |i|, g.octets, |j|, y);
      assert i == y[1 + f.octets..][..|i|] == j;
    }
  }

  lemma {:induction false} Unambiguous(a: Value, b: Value, x: seq<u8>)
    requires Shape(a) && Shape(b) && Ser(a) <= x && Ser(b) <= x
    ensures a == b
    decreases |Ser(a)| + |Ser(b)|, 0
  {
    HeaderUnambiguous(a.tag, a.form, Inner(a), b.tag, b.form, Inner(b), x);
    if a.Cons? {
      assert AllShape(a.children) && AllShape(b.children);
      if a.form.Definite? {
        ForestPrefix(a.children, b.children);
        ForestPrefix(b.children, a.children);
      } else {
        PrintParts(a.tag, a.form, Inner(a), x);
        PrintParts(b.tag, b.form, Inner(b), x);
        var y := x[|a.tag|..][1..];
        OpenForestPrefix(a.children, b.children, y);
        OpenForestPrefix(b.children, a.children, y);
      }
    }
  }

  lemma {:induction false} ForestHead(vs: seq<Value>, x: seq<u8>)
    requires vs != [] && SerAll(vs) <= x
    ensures Ser(vs[0]) <= x && SerAll(vs[1..]) <= x[|Ser(vs[0])|..]
    ensures |SerAll(vs)| == |Ser(vs[0])| + |SerAll(vs[1..])|
    ensures x[|SerAll(vs)|..] == x[|Ser(vs[0])|..][|SerAll(vs[1..])|..]
  {
    PrefixOfSum(Ser(vs[0]), SerAll(vs[1..]), x);
  }

  /** Values read from the front of a sequence of values are the first of them. */
  lemma {:induction false} ForestPrefix(vs: seq<Value>, ws: seq<Value>)
    requires AllShape(vs) && AllShape(ws) && SerAll(vs) <= SerAll(ws)
    ensures vs <= ws
    decreases |SerAll(vs)| + |SerAll(ws)|, 1
  {
    if vs != [] {
      var x := SerAll(ws);
      ForestHead(vs, x);
      ForestHead(ws, x);
      Unambiguous(vs[0], ws[0], x);
      assert x[|Ser(ws[0])|..] == SerAll(ws[1..]);
      ForestPrefix(vs[1..], ws[1..]);
      assert vs == [vs[0]] + vs[1..] && ws == [ws[0]] + ws[1..];
    }
  }

  /** The same where `00 00` closes the sequence. */
  lemma {:induction false} OpenForestPrefix(vs: seq<Value>, ws: seq<Value>, x: seq<u8>)
    requires AllShape(vs) && AllShape(ws) && NoEndOfContents(vs)
    requires SerAll(vs) <= x && SerAll(ws) <= x && [0, 0] <= x[|SerAll(ws)|..]
    ensures vs <= ws
    decreases |SerAll(vs)| + |SerAll(ws)|, 1
  {
    if vs != [] {
      ForestHead(vs, x);
      if ws == [] {
        StartsWithZeros(vs[0], x);
        assert false;
      } else {
        ForestHead(ws, x);
        Unambiguous(vs[0], ws[0], x);
        OpenForestPrefix(vs[1..], ws[1..], x[|Ser(ws[0])|..]);
        assert vs == [vs[0]] + vs[1..] && ws == [ws[0]] + ws[1..];
      }
    }
  }

  lemma {:induction false} StartsWithZeros(v: Value, x: seq<u8>)
    requires Shape(v) && Ser(v) <= x && [0, 0] <= x
    ensures IsEndOfContents(v)
  {
    PrintParts(v.tag, v.form, Inner(v), x);
    assert v.tag[0] == 0 && v.tag == [0];
    assert Header(v.form, |Inner(v)|)[0] == x[1..][0];
  }

  // ---- What a value at the front of some bytes must be ----

  lemma {:induction false} SerAllAppend(vs: seq<Value>, v: Value)
    ensures SerAll(vs + [v]) == SerAll(vs) + Ser(v)
  {
    if vs == [] {
      assert [v][1..] == [];
    } else {
      SerAllAppend(vs[1..], v);
      assert (vs + [v])[1..] == vs[1..] + [v];
      assert Ser(vs[0]) + (SerAll(vs[1..]) + Ser(v)) == Ser(vs[0]) + SerAll(vs[1..]) + Ser(v);
    }
  }

  lemma {:induction false} SerAllSplit(vs: seq<Value>, ws: seq<Value>)
    requires vs < ws
    ensures SerAll(vs) + Ser(ws[|vs|]) <= SerAll(ws)
  {
    if vs == [] {
    } else {
      SerAllSplit(vs[1..], ws[1..]);
      PrefixOfSum(Ser(vs[0]), SerAll(vs[1..]) + Ser(ws[|vs|]), SerAll(ws));
      assert Ser(vs[0]) + (SerAll(vs[1..]) + Ser(ws[|vs|])) == SerAll(vs) + Ser(ws[|vs|]);
      assert SerAll(ws)[|Ser(vs[0])|..] == SerAll(ws[1..]);
    }
  }

  /** After the values `vs` of `content`, the next value of `content` follows. */
  lemma {:induction false} NextChild(vs: seq<Value>, ws: seq<Value>, content: seq<u8>)
    requires AllShape(vs) && AllShape(ws)
    requires SerAll(vs) < content && SerAll(ws) == content
    ensures |vs| < |ws| && Ser(ws[|vs|]) <= content[|SerAll(vs)|..]
  {
    ForestPrefix(vs, ws);
    assert vs != ws;
    SerAllSplit(vs, ws);
    PrefixOfSum(SerAll(vs), Ser(ws[|vs|]), content);
  }

  lemma {:induction false} NextOpenChild(vs: seq<Value>, ws: seq<Value>, rest: seq<u8>)
    requires AllShape(vs) && AllShape(ws) && NoEndOfContents(vs)
    requires SerAll(vs) <= rest && SerAll(ws) + [0, 0] <= rest
    ensures (|vs| < |ws| && Ser(ws[|vs|]) <= rest[|SerAll(vs)|..]) || [0, 0] <= rest[|SerAll(vs)|..]
  {
    PrefixOfSum(SerAll(ws), [0, 0], rest);
    OpenForestPrefix(vs, ws, rest);
    if vs != ws {
      SerAllSplit(vs, ws);
      PrefixOfSum(SerAll(vs), Ser(ws[|vs|]), rest);
    }
  }

  /** A value at the front of `x` has the tag that was read there. */
  lemma {:induction false} ValueTag(w: Value, x: seq<u8>, t: nat)
    requires Shape(w) && Ser(w) <= x && t <= |x| && TagOk(x[..t])
    ensures w.tag == x[..t]
    ensures
      var y, h := x[t..], Header(w.form, |Inner(w)|);
      h <= y && Inner(w) <= y[|h|..] && Closing(w.form) <= y[|h|..][|Inner(w)|..]
  {
    PrintParts(w.tag, w.form, Inner(w), x);
    TagUnambiguous(w.tag, x[..t], x);
  }

  /** ... and the length that was read there. */
  lemma {:induction false} ValueLength(w: Value, x: seq<u8>, t: nat, form: Form, len: nat)
    requires Shape(w) && Ser(w) <= x && t <= |x| && TagOk(x[..t])
    requires form.Definite? ==> LengthOk(form.octets, len) && LengthField(form.octets, len) <= x[t..]
    requires form.Indefinite? ==> [0x80] <= x[t..]
    ensures w.form == form && (form.Definite? ==> |Inner(w)| == len)
  {
    hide Ser, Inner, TagOk, ToBE;
    ValueTag(w, x, t);
    IndefiniteByte(w.tag, w.form, |Inner(w)|);
    assert Header(w.form, |Inner(w)|)[0] == x[t..][0];
    if form.Definite? {
      assert LengthField(form.octets, len)[0] == x[t..][0] != 0x80;
      LengthUnambiguous(form.octets, len, w.form.octets, |Inner(w)|, x[t..]);
    }
  }
}
