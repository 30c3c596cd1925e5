/** `ber_to_der` as a whole: what its output is for every input, and what it promises. */
module BerConverter {
  import opened Bytes
  import opened Ber
  import opened BerReader

  // ---- The encoder ----

  lemma {:induction false} ToBESuffix(v: nat, n: nat, k: nat)
    requires k <= n
    ensures ToBE(v, n)[k..] == ToBE(v, n - k)
  {
    if k < n {
      ToBESuffix(v / 256, n - 1, k);
      assert ToBE(v, n)[k..] == ToBE(v / 256, n - 1)[k..] + [v % 256];
    }
  }

  /** `len` is a `usize` of 64 bits, as `to_be_bytes` gives it. */
  method EncodeLength(len: nat, out: seq<u8>) returns (r: seq<u8>)
    requires len < Pow256(8)
    ensures r == out + LengthField(MinOctets(len), len)
  {
    if len < 0x80 {
      return out + [len];
    }
    var bytes := ToBE(len, 8);
    var skip := 0;
    while bytes[skip] == 0
      invariant skip < 8 && len < Pow256(8 - skip)
      decreases 8 - skip
    {
      LeadingZeros(len, skip);
      skip := skip + 1;
    }
    LeadingZeros(len, skip);
    return out + [0x80 + (8 - skip)] + bytes[skip..];
  }

  lemma LeadingZeros(len: nat, skip: nat)
    requires skip < 8 && 0x80 <= len < Pow256(8 - skip)
    ensures ToBE(len, 8)[skip] == 0 ==> skip < 7 && len < Pow256(7 - skip)
    ensures ToBE(len, 8)[skip] != 0 ==>
      [0x80 + (8 - skip)] + ToBE(len, 8)[skip..] == LengthField(MinOctets(len), len)
  {
    hide ToBE, ByteCount;
    ToBESuffix(len, 8, skip);
    assert ToBE(len, 8)[skip..][0] == ToBE(len, 8)[skip];
    LeadingByte(len, 8 - skip);
    if ToBE(len, 8)[skip] != 0 { ExactByteCount(len, 8 - skip); }
  }

  lemma {:induction false} ExactByteCount(v: nat, n: nat)
    requires n > 0 && Pow256(n - 1) <= v < Pow256(n)
    ensures ByteCount(v) == n
  {
    FewBytes(v, n);
    if ByteCount(v) < n { PowMonotone(ByteCount(v), n - 1); }
  }

  lemma {:induction false} PowMonotone(m: nat, n: nat)
    requires m <= n
    ensures Pow256(m) <= Pow256(n)
    decreases n
  {
    if m < n { PowMonotone(m, n - 1); }
  }

  /** Append the canonical form of `node`. Every length is a `usize`. */
  method Encode(node: Node, out: seq<u8>) returns (r: seq<u8>)
    requires |Ser(Der(node))| < Pow256(8)
    ensures r == out + Ser(Der(node))
    decreases node, 1
  {
    r := out + node.tag;
    match node.body
    case Primitive(bytes) =>
      PrintedParts(node.tag, MinOctets(|bytes|), bytes, out);
      r := EncodeLength(|bytes|, r);
      r := r + bytes;
    case Constructed(children) =>
      ghost var all := SerAll(DerAll(children));
      PrintedParts(node.tag, MinOctets(|all|), all, out);
      var inner := EncodeAll(children);
      r := EncodeLength(|inner|, r);
      r := r + inner;
  }

  method EncodeAll(children: seq<Node>) returns (inner: seq<u8>)
    requires |SerAll(DerAll(children))| < Pow256(8)
    ensures inner == SerAll(DerAll(children))
    decreases children, 0
  {
    inner := [];
    ghost var vs := DerAll(children);
    assert vs[0..] == vs;
    for i := 0 to |children|
      invariant inner + SerAll(vs[i..]) == SerAll(vs)
    {
      NextToEncode(vs, i, inner);
      var more := Encode(children[i], inner);
      inner := more;
    }
    assert vs[|vs|..] == [];
  }

  lemma {:induction false} NextToEncode(vs: seq<Value>, i: nat, done: seq<u8>)
    requires i < |vs| && done + SerAll(vs[i..]) == SerAll(vs)
    ensures (done + Ser(vs[i])) + SerAll(vs[i + 1..]) == SerAll(vs)
    ensures |Ser(vs[i])| <= |SerAll(vs)|
  {
    assert vs[i..][1..] == vs[i + 1..];
    assert done + (Ser(vs[i]) + SerAll(vs[i + 1..])) == (done + Ser(vs[i])) + SerAll(vs[i + 1..]);
  }

  lemma PrintedParts(tag: seq<u8>, n: nat, inner: seq<u8>, out: seq<u8>)
    ensures out + Print(tag, Definite(n), inner) == ((out + tag) + LengthField(n, |inner|)) + inner
    ensures |inner| <= |Print(tag, Definite(n), inner)|
  {
    assert inner + [] == inner;
  }

  // ---- The conversion as a function of the bytes ----

  ghost predicate IsValue(x: seq<u8>) {
    exists v: Value :: WellFormed(v, 0) && Ser(v) == x
  }

  /** The value that `x` prints. There is only one, by `Unambiguous`. */
  ghost function ValueOf(x: seq<u8>): (v: Value)
    requires IsValue(x)
    ensures WellFormed(v, 0) && Ser(v) == x
  {
    var v: Value :| WellFormed(v, 0) && Ser(v) == x; v
  }

  /** The canonical form of the value that `x` prints, if `x` prints one. */
  ghost function BerToDer(x: seq<u8>): Option<seq<u8>> {
    if IsValue(x) then Some(Ser(Der(Norm(ValueOf(x))))) else None
  }

  lemma {:induction false} ConvertsValue(v: Value)
    requires WellFormed(v, 0)
    ensures BerToDer(Ser(v)) == Some(Ser(Der(Norm(v))))
  {
    assert IsValue(Ser(v));
    Unambiguous(v, ValueOf(Ser(v)), Ser(v));
  }

  /** `input` fits the address space of the machine, so that every length is a `usize`. */
  method ConvertToDer(input: seq<u8>) returns (r: Option<seq<u8>>)
    requires |input| < 0x8000_0000_0000
    ensures r == BerToDer(input)
  {
    var p, v := Parse(input, 0);
    if p.None? {
      return None;
    }
    if p.value.1 != |input| {
      forall w: Value | WellFormed(w, 0) ensures Ser(w) != input {
        if Ser(w) == input { Unambiguous(v, w, input); }
      }
      return None;
    }
    assert Ser(v) == input;
    ConvertsValue(v);
    AtMostDoubles(v, 0);
    PowersOf256();
    var out := Encode(p.value.0, []);
    assert out == Ser(Der(Norm(v)));
    return Some(out);
  }

  // ---- Normal trees: what the parser returns ----

  predicate Normal(n: Node, depth: nat) {
    && depth <= MAX_DEPTH
    && TagOk(n.tag)
    && IsConstructed(n.tag[0]) == n.body.Constructed?
    && (n.body.Constructed? ==>
          && !Joinable(n.tag, n.body.children)
          && forall i :: 0 <= i < |n.body.children| ==> Normal(n.body.children[i], depth + 1))
  }

  lemma {:induction false} NormIsNormal(v: Value, depth: nat)
    requires WellFormed(v, depth)
    ensures Normal(Norm(v), depth)
  {
    if v.Cons? {
      forall i | 0 <= i < |v.children| ensures Normal(Norm(v.children[i]), depth + 1) {
        NormIsNormal(v.children[i], depth + 1);
      }
    }
  }

  /** Writing a normal tree and reading it back gives the tree. */
  lemma {:induction false} DerReadsBack(n: Node, depth: nat)
    requires Normal(n, depth) && |Inner(Der(n))| < Pow256(MAX_LENGTH_BYTES)
    ensures WellFormed(Der(n), depth) && Norm(Der(n)) == n
  {
    hide TagOk, LengthOk, ToBE;
    match n.body
    case Primitive(content) =>
    case Constructed(children) =>
      var vs := DerAll(children);
      forall i | 0 <= i < |children|
        ensures WellFormed(vs[i], depth + 1) && Norm(vs[i]) == children[i]
      {
        PartNotLonger(vs, i);
        SerLength(vs[i]);
        DerReadsBack(children[i], depth + 1);
      }
      assert NormAll(vs) == children;
  }

  lemma {:induction false} PartNotLonger(vs: seq<Value>, i: nat)
    requires i < |vs|
    ensures |Ser(vs[i])| <= |SerAll(vs)|
  {
    if i > 0 { PartNotLonger(vs[1..], i - 1); }
  }

  // ---- How long the output can be ----

  lemma {:induction false} MinOctetsMonotone(a: nat, b: nat)
    requires a <= b
    ensures MinOctets(a) <= MinOctets(b)
  {
    FewBytes(a, ByteCount(b));
  }

  /** The length octets of an output, against those of the input, when the content does not grow. */
  lemma {:induction false} HeaderNotLonger(tag: seq<u8>, form: Form, len: nat, out: nat)
    requires HeaderOk(tag, form, len) && out <= len && (form.Indefinite? ==> len < 0x1_0000)
    ensures 1 + MinOctets(out) <= |Header(form, len)| + |Closing(form)|
  {
    MinOctetsMonotone(out, len);
    if form.Definite? {
      FewBytes(len, form.octets);
    } else {
      PowersOf256();
      FewBytes(len, 2);
    }
  }

  /** ... and when it at most doubles. */
  lemma {:induction false} HeaderGrowth(tag: seq<u8>, form: Form, len: nat, out: nat)
    requires HeaderOk(tag, form, len) && out <= 2 * len < 0x1_0000_0000_0000
    ensures MinOctets(out) <= 2 * (|Header(form, len)| + |Closing(form)|)
  {
    MinOctetsMonotone(out, 2 * len);
    if form.Definite? {
      DoubledBytes(len, form.octets);
    } else {
      PowersOf256();
      assert Pow256(6) == 0x100 * Pow256(5) == 0x1_0000 * Pow256(4);
      FewBytes(2 * len, 6);
    }
  }

  lemma {:induction false} DoubledBytes(len: nat, n: nat)
    requires LengthOk(n, len)
    ensures MinOctets(2 * len) <= n + 1
  {
    assert Pow256(n + 1) == 0x100 * Pow256(n);
    FewBytes(2 * len, n + 1);
  }

  lemma SerLength(v: Value)
    ensures |Ser(v)| == |v.tag| + |Header(v.form, |Inner(v)|)| + |Inner(v)| + |Closing(v.form)|
  {
  }

  lemma {:induction false} ChunksShort(nodes: seq<Node>)
    requires forall i :: 0 <= i < |nodes| ==> IsChunk(nodes[i])
    ensures |Chunks(nodes)| <= |SerAll(DerAll(nodes))|
  {
    if nodes != [] {
      assert IsChunk(nodes[0]);
      SerLength(Der(nodes[0]));
      ChunksShort(nodes[1..]);
    }
  }

  /** The content of an output is at most the written form of the children that were read. */
  lemma {:induction false} InnerBound(v: Value)
    requires v.Cons?
    ensures |Inner(Der(Norm(v)))| <= |SerAll(DerAll(NormAll(v.children)))|
    ensures |Norm(v).tag| == |v.tag|
  {
    if Joinable(v.tag, NormAll(v.children)) { ChunksShort(NormAll(v.children)); }
  }

  lemma {:induction false} NotLonger(v: Value, depth: nat)
    requires WellFormed(v, depth) && |Ser(v)| <= 65539
    ensures |Ser(Der(Norm(v)))| <= |Ser(v)|
    decreases v, 1
  {
    var w := Der(Norm(v));
    SerLength(v);
    SerLength(w);
    if v.Cons? {
      NotLongerAll(v.children, depth + 1);
      InnerBound(v);
    }
    HeaderNotLonger(v.tag, v.form, |Inner(v)|, |Inner(w)|);
  }

  lemma {:induction false} NotLongerAll(vs: seq<Value>, depth: nat)
    requires AllWellFormed(vs, depth) && |SerAll(vs)| <= 65539
    ensures |SerAll(DerAll(NormAll(vs)))| <= |SerAll(vs)|
    decreases vs, 0
  {
    if vs != [] {
      NotLonger(vs[0], depth);
      NotLongerAll(vs[1..], depth);
      assert DerAll(NormAll(vs))[1..] == DerAll(NormAll(vs[1..]));
    }
  }

  lemma {:induction false} AtMostDoubles(v: Value, depth: nat)
    requires WellFormed(v, depth) && |Ser(v)| < 0x8000_0000_0000
    ensures |Ser(Der(Norm(v)))| <= 2 * |Ser(v)|
    decreases v, 1
  {
    var w := Der(Norm(v));
    SerLength(v);
    SerLength(w);
    if v.Cons? {
      AtMostDoublesAll(v.children, depth + 1);
      InnerBound(v);
    }
    HeaderGrowth(v.tag, v.form, |Inner(v)|, |Inner(w)|);
  }

  lemma {:induction false} AtMostDoublesAll(vs: seq<Value>, depth: nat)
    requires AllWellFormed(vs, depth) && |SerAll(vs)| < 0x8000_0000_0000
    ensures |SerAll(DerAll(NormAll(vs)))| <= 2 * |SerAll(vs)|
    decreases vs, 0
  {
    if vs != [] {
      AtMostDoubles(vs[0], depth);
      AtMostDoublesAll(vs[1..], depth);
      assert DerAll(NormAll(vs))[1..] == DerAll(NormAll(vs[1..]));
    }
  }

  // ---- What the output still says ----

  /** The primitive bytes of a value, in order. */
  function Contents(v: Value): seq<u8>
    decreases v, 1
  {
    if v.Prim? then v.content else ContentsAll(v.children)
  }

  function ContentsAll(vs: seq<Value>): seq<u8>
    decreases vs, 0
  {
    if vs == [] then [] else Contents(vs[0]) + ContentsAll(vs[1..])
  }

  lemma {:induction false} ContentsKept(v: Value)
    ensures Contents(Der(Norm(v))) == Contents(v)
    decreases v, 1
  {
    if v.Cons? {
      var nodes := NormAll(v.children);
      ContentsKeptAll(v.children);
      if Joinable(v.tag, nodes) { ChunkContents(nodes); }
    }
  }

  lemma {:induction false} ContentsKeptAll(vs: seq<Value>)
    ensures ContentsAll(DerAll(NormAll(vs))) == ContentsAll(vs)
    decreases vs, 0
  {
    if vs != [] {
      ContentsKept(vs[0]);
      ContentsKeptAll(vs[1..]);
      assert DerAll(NormAll(vs))[1..] == DerAll(NormAll(vs[1..]));
    }
  }

  lemma {:induction false} ChunkContents(nodes: seq<Node>)
    requires forall i :: 0 <= i < |nodes| ==> IsChunk(nodes[i])
    ensures Chunks(nodes) == ContentsAll(DerAll(nodes))
  {
    if nodes != [] {
      assert IsChunk(nodes[0]);
      ChunkContents(nodes[1..]);
    }
  }

  // ---- The promises of the converter ----

  /**
   * For every input that converts, the output carries the same primitive bytes in the same order. While its content
   * is below 2^32 bytes, it is again a value, read back as the same tree, and it converts to itself.
   */
  lemma {:induction false} ConversionIsCanonical(x: seq<u8>, d: seq<u8>) returns (v: Value, w: Value)
    requires BerToDer(x) == Some(d)
    ensures WellFormed(v, 0) && Ser(v) == x && w == Der(Norm(v)) && Ser(w) == d && Contents(w) == Contents(v)
    ensures |Inner(w)| < Pow256(MAX_LENGTH_BYTES) ==> WellFormed(w, 0) && Norm(w) == Norm(v) && BerToDer(d) == Some(d)
  {
    v := ValueOf(x);
    w := Der(Norm(v));
    ContentsKept(v);
    if |Inner(w)| < Pow256(MAX_LENGTH_BYTES) {
      NormIsNormal(v, 0);
      DerReadsBack(Norm(v), 0);
      ConvertsValue(w);
    }
  }

  /** Bytes that a legal value prints are the DER of no tree with content of 2^32 bytes or more. */
  lemma {:induction false} LegalContentIsShort(n: Node, u: Value)
    requires TagOk(n.tag) && |Inner(Der(n))| < Pow256(8)
    requires Shape(u) && Ser(u) == Ser(Der(n))
    ensures |Inner(Der(n))| < Pow256(MAX_LENGTH_BYTES)
  {
    var w, len := Der(n), |Inner(Der(n))|;
    var d, t := Ser(w), |n.tag|;
    assert w.tag == n.tag && w.form == Definite(MinOctets(len));
    hide Inner, TagOk, LengthOk, Der, LengthField;
    PrintParts(w.tag, w.form, Inner(w), d);
    ValueTag(u, d, t);
    FirstLengthByte(u.tag, u.form, |Inner(u)|);
    assert Header(u.form, |Inner(u)|)[0] == d[t..][0] == LengthField(MinOctets(len), len)[0];
    LongLengthByte(len);
  }

  lemma LongLengthByte(len: nat)
    requires len < Pow256(8)
    ensures len >= Pow256(MAX_LENGTH_BYTES) ==> LengthField(MinOctets(len), len)[0] > 0x84
  {
    PowersOf256();
    FewBytes(len, 8);
    if ByteCount(len) <= MAX_LENGTH_BYTES { PowMonotone(ByteCount(len), MAX_LENGTH_BYTES); }
  }

  lemma FirstLengthByte(tag: seq<u8>, form: Form, len: nat)
    requires HeaderOk(tag, form, len)
    ensures Header(form, len)[0] <= 0x84
  {
  }

  /** The output converts to itself exactly when its content is below 2^32 bytes. */
  lemma {:induction false} IdempotentExactlyTo(x: seq<u8>, d: seq<u8>)
    requires BerToDer(x) == Some(d) && |x| < 0x8000_0000_0000
    ensures BerToDer(d) == Some(d) <==> |Inner(Der(Norm(ValueOf(x))))| < Pow256(MAX_LENGTH_BYTES)
  {
    var v, w := ConversionIsCanonical(x, d);
    Unambiguous(v, ValueOf(x), x);
    if BerToDer(d) == Some(d) {
      AtMostDoubles(v, 0);
      SerLength(w);
      PowersOf256();
      NormIsNormal(v, 0);
      LegalContentIsShort(Norm(v), ValueOf(d));
    }
  }

  /** Within the 8 KiB envelope cap, and up to 65539 bytes, the output is no longer than the input. */
  lemma {:induction false} ConversionNeverGrows(x: seq<u8>, d: seq<u8>)
    requires BerToDer(x) == Some(d) && |x| <= 65539
    ensures |d| <= |x|
  {
    var v := ValueOf(x);
    NotLonger(v, 0);
  }

  /** One byte more, and the output can be longer than the input: its length takes four octets, not `80` and `00 00`. */
  lemma {:induction false} NextSizeCanGrow() returns (x: seq<u8>, d: seq<u8>)
    ensures |x| == 65540 && BerToDer(x) == Some(d) && |d| > |x|
  {
    var v := GrowingValue();
    hide Ser, Der, Norm, WellFormed, BerToDer;
    x, d := Ser(v), Ser(Der(Norm(v)));
    ConvertsValue(v);
  }

  lemma {:induction false} GrowingChild() returns (child: Value)
    ensures WellFormed(child, 1) && child.Prim? && child.tag == [0x04] && |Ser(child)| == 65536
    ensures Der(Norm(child)) == child
  {
    var content: seq<u8> := Zeros(65532);
    child := Prim([0x04], Definite(2), content);
    PowersOf256();
    ExactByteCount(65532, 2);
    SerLength(child);
  }

  lemma {:induction false} OneChild(child: Value)
    requires WellFormed(child, 1) && child.Prim? && child.tag == [0x04]
    ensures var v := Cons([0x30], Indefinite, [child]);
      WellFormed(v, 0) && |Ser(v)| == |Ser(child)| + 4 && Norm(v) == Node([0x30], Constructed([Norm(child)]))
  {
    hide Ser, LengthOk;
    var v := Cons([0x30], Indefinite, [child]);
    assert NormAll([child]) == [Norm(child)];
    assert SerAll([child]) == Ser(child) + SerAll([]);
    SerLength(v);
  }

  lemma {:induction false} OneChildAsDer(n: Node)
    requires 0x80 <= |Ser(Der(n))|
    ensures |Ser(Der(Node([0x30], Constructed([n]))))| == 2 + ByteCount(|Ser(Der(n))|) + |Ser(Der(n))|
  {
    hide Ser, ByteCount;
    var w := Der(Node([0x30], Constructed([n])));
    assert DerAll([n]) == [Der(n)];
    assert SerAll([Der(n)]) == Ser(Der(n)) + SerAll([]);
    SerLength(w);
  }

  lemma {:induction false} GrowingValue() returns (v: Value)
    ensures WellFormed(v, 0) && |Ser(v)| == 65540 && |Ser(Der(Norm(v)))| > 65540
  {
    var child := GrowingChild();
    hide Ser, Der, Norm, WellFormed, ByteCount;
    v := Cons([0x30], Indefinite, [child]);
    OneChild(child);
    OneChildAsDer(Norm(child));
    PowersOf256();
    ExactByteCount(65536, 3);
  }

  /** So 65539 is the largest size up to which no input grows. */
  lemma {:induction false} NeverGrowsExactlyTo(cap: nat)
    ensures (forall x, d :: |x| <= cap && BerToDer(x) == Some(d) ==> |d| <= |x|) <==> cap <= 65539
  {
    hide BerToDer;
    if cap <= 65539 {
      forall x, d | |x| <= cap && BerToDer(x) == Some(d) ensures |d| <= |x| { ConversionNeverGrows(x, d); }
    } else {
      var x, d := NextSizeCanGrow();
    }
  }

  /** Values of one tree have one output. Where its content is below 2^32 bytes, no others have it. */
  lemma {:induction false} SameOutputSameTree(v: Value, w: Value)
    requires WellFormed(v, 0) && WellFormed(w, 0)
    ensures Norm(v) == Norm(w) ==> BerToDer(Ser(v)) == BerToDer(Ser(w))
    ensures |Inner(Der(Norm(v)))| < Pow256(MAX_LENGTH_BYTES) && BerToDer(Ser(v)) == BerToDer(Ser(w)) ==>
      Norm(v) == Norm(w)
  {
    ConvertsValue(v);
    ConvertsValue(w);
    NormIsNormal(v, 0);
    NormIsNormal(w, 0);
    if |Inner(Der(Norm(v)))| < Pow256(MAX_LENGTH_BYTES) && BerToDer(Ser(v)) == BerToDer(Ser(w)) {
      SameDerSameTree(Norm(v), Norm(w));
    }
  }

  lemma {:induction false} SameDerSameTree(m: Node, n: Node)
    requires Normal(m, 0) && Normal(n, 0) && |Inner(Der(m))| < Pow256(MAX_LENGTH_BYTES)
    requires Ser(Der(m)) == Ser(Der(n))
    ensures m == n
  {
    DerReadsBack(m, 0);
    assert TagOk(n.tag) && |n.tag| >= 1;
    DerLength(m);
    DerLength(n);
    hide Ser, Inner, Der, Normal, Norm, Shape, TagOk;
    PowersOf256();
    LegalContentIsShort(n, Der(m));
    DerReadsBack(n, 0);
    Unambiguous(Der(m), Der(n), Ser(Der(m)));
  }

  lemma DerLength(n: Node)
    requires TagOk(n.tag)
    ensures |Inner(Der(n))| <= |Ser(Der(n))|
    ensures |Inner(Der(n))| < Pow256(MAX_LENGTH_BYTES) ==> |Ser(Der(n))| <= |Inner(Der(n))| + 9
  {
    SerLength(Der(n));
  }
}
