/**
 * What the converter does to strings sent in chunks, in the octets of the format. Nothing here speaks of how the
 * parser decides to join.
 */
module BerStrings {
  import opened Bytes
  import opened Ber
  import opened BerConverter
  import BerReader
  import S = BerStreaming

  /** The tags whose chunks are joined: a constructed OCTET STRING, and constructed context-specific values. */
  predicate JoinedTag(tag: seq<u8>) { |tag| == 1 && (tag[0] == 0x24 || 0xA0 <= tag[0] <= 0xBF) }

  /** The octets of an OCTET STRING, sent whole or in chunks of chunks. */
  function Octets(v: Value): Option<seq<u8>>
    decreases v, 1
  {
    match v
    case Prim(tag, _, content) => if tag == [0x04] then Some(content) else None
    case Cons(tag, _, children) => if tag == [0x24] && children != [] then AllOctets(children) else None
  }

  function AllOctets(vs: seq<Value>): Option<seq<u8>>
    decreases vs, 0
  {
    if vs == [] then Some([]) else
    var first :- Octets(vs[0]);
    var rest :- AllOctets(vs[1..]);
    Some(first + rest)
  }

  /** `f` is the shortest length field for `len` bytes: one octet, or the count of octets and no leading zero. */
  predicate ShortestLength(f: seq<u8>, len: nat) {
    if len < 0x80 then f == [len]
    else |f| >= 2 && f[0] == 0x80 + (|f| - 1) && f[1] != 0 && FromBE(f[1..]) == len
  }

  lemma {:induction false} NormOfOctets(v: Value)
    ensures IsChunk(Norm(v)) <==> Octets(v).Some?
    ensures Octets(v).Some? ==> Norm(v).body.content == Octets(v).value
    decreases v, 1
  {
    if v.Cons? { NormOfAllOctets(v.children); }
  }

  predicate AllChunks(ns: seq<Node>) { forall i :: 0 <= i < |ns| ==> IsChunk(ns[i]) }

  lemma {:induction false} NormOfAllOctets(vs: seq<Value>)
    ensures AllChunks(NormAll(vs)) <==> AllOctets(vs).Some?
    ensures AllOctets(vs).Some? ==> Chunks(NormAll(vs)) == AllOctets(vs).value
    decreases vs, 0
  {
    if vs != [] {
      NormOfOctets(vs[0]);
      NormOfAllOctets(vs[1..]);
      var ns, rest := NormAll(vs), NormAll(vs[1..]);
      assert ns == [Norm(vs[0])] + rest && ns[1..] == rest;
      FirstAndRest(Norm(vs[0]), rest);
    }
  }

  lemma FirstAndRest(n: Node, rest: seq<Node>)
    ensures AllChunks([n] + rest) <==> IsChunk(n) && AllChunks(rest)
  {
    var ns := [n] + rest;
    assert ns[0] == n;
    assert forall i :: 0 <= i < |rest| ==> rest[i] == ns[i + 1];
    assert forall i :: 1 <= i < |ns| ==> ns[i] == rest[i - 1];
  }

  lemma JoinableIs(v: Value)
    requires Shape(v) && v.Cons?
    ensures Joinable(v.tag, NormAll(v.children)) <==>
      JoinedTag(v.tag) && v.children != [] && AllOctets(v.children).Some?
  {
    hide TagOk, LengthOk;
    NormOfAllOctets(v.children);
  }

  // ---- What is written for each value ----

  /** `v` is a value that fits the address space of the machine. */
  predicate Input(v: Value) { WellFormed(v, 0) && |Ser(v)| < 0x8000_0000_0000 }

  /**
   * A value under a joined tag that is made of octets becomes one primitive: the tag without its constructed bit,
   * the shortest length, and the octets in order.
   */
  lemma StringsAreJoined(v: Value) returns (f: seq<u8>)
    requires Input(v) && v.Cons? && JoinedTag(v.tag) && v.children != [] && AllOctets(v.children).Some?
    ensures var octets := AllOctets(v.children).value;
      ShortestLength(f, |octets|) && BerToDer(Ser(v)) == Some([v.tag[0] - 0x20] + f + octets)
  {
    NormOfString(v);
    hide Norm, Ser, BerToDer, AllOctets, ShortestLength;
    f := OutputParts(v);
  }

  /** A primitive value keeps its tag and its content. */
  lemma PrimitivesAreKept(v: Value) returns (f: seq<u8>)
    requires Input(v) && v.Prim?
    ensures ShortestLength(f, |v.content|) && BerToDer(Ser(v)) == Some(v.tag + f + v.content)
  {
    f := OutputParts(v);
  }

  /** Any other constructed value keeps its tag, and its children are converted, one for one and in order. */
  lemma OthersKeepTheirChildren(v: Value) returns (f: seq<u8>, parts: seq<seq<u8>>)
    requires Input(v) && v.Cons? && !(JoinedTag(v.tag) && v.children != [] && AllOctets(v.children).Some?)
    ensures |parts| == |v.children|
    ensures forall i :: 0 <= i < |parts| ==> BerToDer(Ser(v.children[i])) == Some(parts[i])
    ensures ShortestLength(f, |Flat(parts)|) && BerToDer(Ser(v)) == Some(v.tag + f + Flat(parts))
  {
    JoinableIs(v);
    hide Ser, BerToDer, ShortestLength, LengthOk, JoinedTag, AllOctets, Joinable;
    assert Der(Norm(v)).tag == v.tag && Inner(Der(Norm(v))) == SerAll(DerAll(NormAll(v.children)));
    f := OutputParts(v);
    parts := PartsOf(v.children, 1);
  }

  function Flat(parts: seq<seq<u8>>): seq<u8> { if parts == [] then [] else parts[0] + Flat(parts[1..]) }

  lemma OutputParts(v: Value) returns (f: seq<u8>)
    requires Input(v)
    ensures var w := Der(Norm(v));
      ShortestLength(f, |Inner(w)|) && BerToDer(Ser(v)) == Some(w.tag + f + Inner(w))
  {
    var w := Der(Norm(v));
    ConvertsValue(v);
    AtMostDoubles(v, 0);
    SerLength(w);
    PowersOf256();
    assert w.form == Definite(MinOctets(|Inner(w)|));
    hide Norm, Der, Ser, BerToDer, ShortestLength, LengthField, Shape, Fits;
    BerReader.DefinitePrint(w);
    f := LengthField(MinOctets(|Inner(w)|), |Inner(w)|);
    ConcatAssoc(w.tag, f, Inner(w));
    MinimalField(|Inner(w)|);
  }

  lemma {:induction false} PartsOf(vs: seq<Value>, depth: nat) returns (parts: seq<seq<u8>>)
    requires AllWellFormed(vs, depth)
    ensures |parts| == |vs| && Flat(parts) == SerAll(DerAll(NormAll(vs)))
    ensures forall i :: 0 <= i < |vs| ==> BerToDer(Ser(vs[i])) == Some(parts[i])
  {
    if vs == [] {
      parts := [];
    } else {
      var rest := PartsOf(vs[1..], depth);
      FitsAbove(vs[0], depth);
      ConvertsValue(vs[0]);
      hide Ser, SerAll, BerToDer, Norm, Der, NormAll, DerAll, Shape, Fits;
      FirstPart(vs);
      parts := [Ser(Der(Norm(vs[0])))] + rest;
      assert parts[1..] == rest;
    }
  }

  lemma FirstPart(vs: seq<Value>)
    requires vs != []
    ensures SerAll(DerAll(NormAll(vs))) == Ser(Der(Norm(vs[0]))) + SerAll(DerAll(NormAll(vs[1..])))
  {
    var ns := NormAll(vs);
    hide Ser, Der, Norm;
    assert ns[1..] == NormAll(vs[1..]) && DerAll(ns)[1..] == DerAll(ns[1..]);
  }

  lemma {:induction false} FitsAbove(v: Value, depth: nat)
    requires Fits(v, depth)
    ensures Fits(v, 0)
    decreases v, depth
  {
    if depth > 0 {
      OneLevelAbove(v, depth);
      FitsAbove(v, depth - 1);
    }
  }

  lemma {:induction false} OneLevelAbove(v: Value, depth: nat)
    requires depth > 0 && Fits(v, depth)
    ensures Fits(v, depth - 1)
  {
    if v.Cons? {
      forall i | 0 <= i < |v.children| ensures Fits(v.children[i], depth) { OneLevelAbove(v.children[i], depth + 1); }
    }
  }

  lemma NormOfString(v: Value)
    requires Shape(v) && v.Cons? && JoinedTag(v.tag) && v.children != [] && AllOctets(v.children).Some?
    ensures Norm(v) == Node([v.tag[0] - 0x20], Primitive(AllOctets(v.children).value))
  {
    JoinableIs(v);
    hide Shape, AllOctets, NormAll;
    NormOfAllOctets(v.children);
  }

  lemma MinimalField(len: nat)
    requires len < Pow256(8)
    ensures ShortestLength(LengthField(MinOctets(len), len), len)
  {
    FewBytes(len, 8);
    if len >= 0x80 {
      LongestField(ByteCount(len), len);
    }
  }

  lemma LongestField(n: nat, len: nat)
    requires 1 <= n < 0x80 && Pow256(n - 1) <= len < Pow256(n)
    ensures var f := LengthField(n, len); f[0] == 0x80 + n && |f| == 1 + n && f[1] != 0 && FromBE(f[1..]) == len
  {
    hide LengthField, FromBE, Pow256;
    LongForm(n, len);
    FromToBE(len, n);
    LeadingByte(len, n);
    hide ToBE;
    assert LengthField(n, len)[1..] == ToBE(len, n);
  }

  /** No constructed value under a joined tag is left with one or more children that are all whole OCTET STRINGs. */
  predicate Tidy(v: Value) {
    v.Cons? ==>
      && (forall i :: 0 <= i < |v.children| ==> Tidy(v.children[i]))
      && !(JoinedTag(v.tag) && v.children != []
           && forall i :: 0 <= i < |v.children| ==> v.children[i].Prim? && v.children[i].tag == [0x04])
  }

  /** Every output is written from such a value. */
  lemma OutputIsTidy(x: seq<u8>, d: seq<u8>) returns (w: Value)
    requires BerToDer(x) == Some(d)
    ensures Ser(w) == d && Tidy(w)
  {
    w := Der(Norm(ValueOf(x)));
    NormIsTidy(ValueOf(x));
  }

  lemma {:induction false} NormIsTidy(v: Value)
    requires Shape(v)
    ensures Tidy(Der(Norm(v)))
  {
    if v.Cons? {
      JoinableIs(v);
      if !Joinable(v.tag, NormAll(v.children)) {
        forall i | 0 <= i < |v.children| ensures Tidy(Der(Norm(v.children[i]))) { NormIsTidy(v.children[i]); }
        NotAllStrings(v.tag, NormAll(v.children));
      }
    }
  }

  lemma NotAllStrings(tag: seq<u8>, ns: seq<Node>)
    requires !Joinable(tag, ns)
    ensures !(JoinedTag(tag) && ns != []
      && forall i :: 0 <= i < |ns| ==> DerAll(ns)[i].Prim? && DerAll(ns)[i].tag == [0x04])
  {
    if JoinedTag(tag) && ns != [] {
      var i :| 0 <= i < |ns| && !IsChunk(ns[i]);
      assert !(DerAll(ns)[i].Prim? && DerAll(ns)[i].tag == [0x04]);
    }
  }

  /** The plain case: one or more primitive OCTET STRINGs, whose contents follow each other. */
  function Concatenated(vs: seq<Value>): seq<u8>
    requires forall i :: 0 <= i < |vs| ==> vs[i].Prim?
  {
    if vs == [] then [] else vs[0].content + Concatenated(vs[1..])
  }

  lemma {:induction false} PlainChunks(vs: seq<Value>)
    requires forall i :: 0 <= i < |vs| ==> vs[i].Prim? && vs[i].tag == [0x04]
    ensures AllOctets(vs) == Some(Concatenated(vs))
  {
    if vs != [] { PlainChunks(vs[1..]); }
  }

  /** One chunk is enough: an encrypted content sent as one OCTET STRING. */
  lemma OneChunkIsJoined()
    ensures BerToDer([0xA0, 0x80, 0x04, 0x02, 0xAA, 0xBB, 0x00, 0x00]) == Some([0x80, 0x02, 0xAA, 0xBB])
  {
    var chunk, v := OneChunk();
    var f := OneChunkConverts(chunk, v);
    hide Ser, WellFormed, BerToDer;
    assert [0x80] + f + chunk.content == [0x80, 0x02, 0xAA, 0xBB];
  }

  lemma OneChunkConverts(chunk: Value, v: Value) returns (f: seq<u8>)
    requires chunk == Prim([0x04], Definite(0), [0xAA, 0xBB]) && v == Cons([0xA0], Indefinite, [chunk])
    requires Input(v)
    ensures f == [0x02] && BerToDer(Ser(v)) == Some([0x80] + f + chunk.content)
  {
    OneOctetString(chunk);
    hide Ser, Input, BerToDer, AllOctets;
    f := StringsAreJoined(v);
  }

  lemma OneOctetString(chunk: Value)
    requires chunk == Prim([0x04], Definite(0), [0xAA, 0xBB])
    ensures AllOctets([chunk]) == Some([0xAA, 0xBB])
  {
    PlainChunks([chunk]);
    assert Concatenated([chunk]) == [0xAA, 0xBB] + Concatenated([]) == [0xAA, 0xBB];
  }

  lemma OneChunk() returns (chunk: Value, v: Value)
    ensures chunk == Prim([0x04], Definite(0), [0xAA, 0xBB]) && v == Cons([0xA0], Indefinite, [chunk])
    ensures WellFormed(v, 0) && Ser(v) == [0xA0, 0x80, 0x04, 0x02, 0xAA, 0xBB, 0x00, 0x00]
  {
    chunk := Prim([0x04], Definite(0), [0xAA, 0xBB]);
    assert Ser(chunk) == [0x04, 0x02, 0xAA, 0xBB];
    assert Shape(chunk);
    OneChildPrints(0xA0, chunk);
    v := Cons([0xA0], Indefinite, [chunk]);
  }

  /** A constructed value of indefinite length around one other value. */
  lemma OneChildPrints(tag: u8, child: Value)
    requires tag == 0x30 || tag == 0xA0
    ensures var v := Cons([tag], Indefinite, [child]);
      && Ser(v) == [tag, 0x80] + Ser(child) + [0x00, 0x00]
      && (Shape(v) <==> Shape(child) && !IsEndOfContents(child))
      && (forall depth: nat :: Fits(v, depth) <==> depth <= 16 && Fits(child, depth + 1))
  {
    hide Ser, LengthOk;
    BerReader.IndefinitePrint([tag], [child]);
    assert [child][1..] == [];
    assert SerAll([child]) == Ser(child) + SerAll([]);
  }

  // ---- What the streaming helper writes ----

  /** A string of two bytes or more, universal or `[0]`, is sent as two halves in an indefinite length. */
  lemma StreamedString(tag: u8, content: seq<u8>) returns (f: seq<u8>, g: seq<u8>)
    requires (tag == 0x04 || tag == 0x80) && 2 <= |content| < 0x8000_0000_0000
    ensures var half := |content| / 2;
      && ShortestLength(f, half) && ShortestLength(g, |content| - half)
      && Ser(S.Stream(Node([tag], Primitive(content)))) ==
           [tag + 0x20] + ([0x80] + ((([0x04] + (f + content[..half])) + ([0x04] + (g + content[half..]))) + [0, 0]))
  {
    hide Ser, ShortestLength, S.Stream, S.Chunk;
    var half := |content| / 2;
    f := ChunkPrints(content[..half]);
    g := ChunkPrints(content[half..]);
    StreamedHalves(tag, content);
  }

  lemma StreamedHalves(tag: u8, content: seq<u8>)
    requires (tag == 0x04 || tag == 0x80) && 2 <= |content|
    ensures var a, b := S.Chunk(content[..|content| / 2]), S.Chunk(content[|content| / 2..]);
      Ser(S.Stream(Node([tag], Primitive(content)))) == [tag + 0x20] + ([0x80] + ((Ser(a) + Ser(b)) + [0, 0]))
  {
    hide Ser, S.Chunk;
    var a, b := S.Chunk(content[..|content| / 2]), S.Chunk(content[|content| / 2..]);
    S.TwoValues(a, b);
    BerReader.IndefinitePrint([tag + 0x20], [a, b]);
  }

  lemma ChunkPrints(content: seq<u8>) returns (f: seq<u8>)
    requires |content| < 0x8000_0000_0000
    ensures ShortestLength(f, |content|) && Ser(S.Chunk(content)) == [0x04] + (f + content)
  {
    hide Ser, ShortestLength, LengthField;
    PowersOf256();
    MinimalField(|content|);
    f := LengthField(MinOctets(|content|), |content|);
    BerReader.DefinitePrint(S.Chunk(content));
  }

  /** Any other primitive is sent as it is, and a constructed value with an indefinite length. */
  lemma StreamedOthers(n: Node)
    ensures n.body.Primitive? && !(|n.body.content| >= 2 && (n.tag == [0x04] || n.tag == [0x80])) ==>
      S.Stream(n) == Der(n)
    ensures n.body.Constructed? ==>
      Ser(S.Stream(n)) == n.tag + ([0x80] + (SerAll(S.StreamAll(n.body.children)) + [0, 0]))
  {
    if n.body.Constructed? {
      BerReader.IndefinitePrint(n.tag, S.StreamAll(n.body.children));
    }
    assert n.tag == [0x04] <==> |n.tag| == 1 && n.tag[0] == 0x04;
    assert n.tag == [0x80] <==> |n.tag| == 1 && n.tag[0] == 0x80;
  }

  // ---- The limits of the grammar ----

  /** `k` constructed values, each the only child of the one around it. */
  function Nested(k: nat): Value { Cons([0x30], Indefinite, if k <= 1 then [] else [Nested(k - 1)]) }

  function NestedBytes(k: nat): seq<u8> {
    if k <= 1 then [0x30, 0x80, 0x00, 0x00] else [0x30, 0x80] + NestedBytes(k - 1) + [0x00, 0x00]
  }

  lemma {:induction false} NestedPrints(k: nat, depth: nat)
    requires k >= 1
    ensures Ser(Nested(k)) == NestedBytes(k) && Shape(Nested(k))
    ensures Fits(Nested(k), depth) <==> depth + k <= 17
  {
    if k == 1 {
      assert SerAll([]) == [];
    } else {
      hide Ser, Shape, Fits;
      NestedPrints(k - 1, depth + 1);
      OneChildPrints(0x30, Nested(k - 1));
    }
  }

  /** Seventeen levels of nesting are accepted, and no more. */
  lemma NestingLimit(k: nat)
    requires k >= 1
    ensures BerToDer(NestedBytes(k)).Some? <==> k <= 17
  {
    NestedPrints(k, 0);
    var x := NestedBytes(k);
    if IsValue(x) { Unambiguous(Nested(k), ValueOf(x), x); }
    assert WellFormed(Nested(k), 0) ==> IsValue(x);
  }

  /** A length may take one to four further octets, without a leading zero, even where fewer would do. */
  lemma LengthLimit(octets: seq<u8>, content: seq<u8>)
    requires 1 <= |octets| < 0x7F && FromBE(octets) == |content|
    ensures BerToDer([0x04, 0x80 + |octets|] + octets + content).Some? <==> |octets| <= 4 && octets[0] != 0
  {
    var x := [0x04, 0x80 + |octets|] + octets + content;
    LongFormPrints(octets, content);
    hide Ser, Shape, WellFormed, LengthOk, FromBE;
    if |octets| <= 4 && octets[0] != 0 {
      LongFormLegal(octets, content);
      assert IsValue(x);
    }
    if IsValue(x) { LongFormRead(ValueOf(x), octets, content); }
  }

  lemma LongFormPrints(octets: seq<u8>, content: seq<u8>)
    requires 1 <= |octets| < 0x7F && FromBE(octets) == |content|
    ensures Ser(Prim([0x04], Definite(|octets|), content)) == [0x04, 0x80 + |octets|] + octets + content
  {
    hide FromBE, LengthField, Ser, WellFormed, LengthOk;
    StringPrints(|octets|, content);
    LongField(octets);
    FourParts(0x04, 0x80 + |octets|, octets, content);
  }

  lemma LongFormLegal(octets: seq<u8>, content: seq<u8>)
    requires 1 <= |octets| <= 4 && octets[0] != 0 && FromBE(octets) == |content|
    ensures WellFormed(Prim([0x04], Definite(|octets|), content), 0)
  {
    hide FromBE, LengthField, Ser, WellFormed, LengthOk;
    StringPrints(|octets|, content);
    LongLength(octets);
  }

  lemma StringPrints(octets: nat, content: seq<u8>)
    ensures var v := Prim([0x04], Definite(octets), content);
      && Ser(v) == [0x04] + (LengthField(octets, |content|) + content)
      && (WellFormed(v, 0) <==> LengthOk(octets, |content|))
  {
    hide Ser, LengthField, LengthOk;
    BerReader.DefinitePrint(Prim([0x04], Definite(octets), content));
  }

  lemma LongField(octets: seq<u8>)
    requires 1 <= |octets| < 0x7F
    ensures LengthField(|octets|, FromBE(octets)) == [0x80 + |octets|] + octets
  {
    hide FromBE, ToBE, LengthField;
    ToFromBE(octets);
    LongForm(|octets|, FromBE(octets));
  }

  lemma LongForm(n: nat, len: nat)
    requires 1 <= n < 0x80
    ensures LengthField(n, len) == [0x80 + n] + ToBE(len, n)
  {
    hide ToBE;
    assert n % 0x80 == n;
  }

  lemma LongLength(octets: seq<u8>)
    requires 1 <= |octets| < 0x7F
    ensures LengthOk(|octets|, FromBE(octets)) <==> |octets| <= 4 && octets[0] != 0
  {
    ToFromBE(octets);
    LeadingByte(FromBE(octets), |octets|);
    hide FromBE, ToBE, Pow256;
  }

  lemma FourParts(a: u8, b: u8, s: seq<u8>, t: seq<u8>)
    ensures [a] + (([b] + s) + t) == [a, b] + s + t
  {
  }

  lemma LongFormRead(u: Value, octets: seq<u8>, content: seq<u8>)
    requires Shape(u) && 1 <= |octets| < 0x7F && Ser(u) == [0x04, 0x80 + |octets|] + octets + content
    ensures |octets| <= 4 && octets[0] != 0
  {
    var x := Ser(u);
    assert x[..1] == [0x04];
    hide Ser, Inner, LengthOk, Header;
    ValueTag(u, x, 1);
    AfterTag(x, 0x80 + |octets|, octets, content);
    LengthOctets(u.tag, u.form, |Inner(u)|, x[1..], octets);
  }

  lemma AfterTag(x: seq<u8>, first: u8, octets: seq<u8>, content: seq<u8>)
    requires x == [0x04, first] + octets + content
    ensures x[1..] == [first] + octets + content && [first] + octets <= x[1..]
  {
  }

  lemma LengthOctets(tag: seq<u8>, form: Form, len: nat, y: seq<u8>, octets: seq<u8>)
    requires HeaderOk(tag, form, len) && Header(form, len) <= y
    requires 1 <= |octets| < 0x7F && [0x80 + |octets|] + octets <= y
    ensures |octets| <= 4 && octets[0] != 0
  {
    assert Header(form, len)[0] == y[0] == 0x80 + |octets|;
    assert form == Definite(|octets|);
    LeadingByte(len, |octets|);
    assert Header(form, len)[1] == ToBE(len, |octets|)[0] == y[1] == octets[0];
  }

  /** A tag may take up to four octets: after the first, continuation octets and one last octet. */
  lemma TagLimit(first: u8, more: seq<u8>, last: u8)
    requires (first == 0x1F || first == 0x5F || first == 0x9F || first == 0xDF) && last < 0x80
    requires forall i :: 0 <= i < |more| ==> more[i] >= 0x80
    ensures BerToDer([first] + more + [last, 0x00]).Some? <==> |more| <= 2
  {
    var x := [first] + more + [last, 0x00];
    LongTagPrints(first, more, last);
    hide Ser, WellFormed, TagOk;
    if |more| <= 2 {
      assert IsValue(x);
    }
    if IsValue(x) { LongTagRead(ValueOf(x), first, more, last); }
  }

  lemma LongTagPrints(first: u8, more: seq<u8>, last: u8)
    requires (first == 0x1F || first == 0x5F || first == 0x9F || first == 0xDF) && last < 0x80
    requires forall i :: 0 <= i < |more| ==> more[i] >= 0x80
    ensures var v := Prim([first] + more + [last], Definite(0), []);
      Ser(v) == [first] + more + [last, 0x00] && (|more| <= 2 ==> WellFormed(v, 0))
  {
    var v := Prim([first] + more + [last], Definite(0), []);
    BerReader.DefinitePrint(v);
    hide Ser;
    assert |more| <= 2 ==> TagOk(v.tag);
  }

  lemma LongTagRead(u: Value, first: u8, more: seq<u8>, last: u8)
    requires Shape(u) && Ser(u) == [first] + more + [last, 0x00]
    requires (first == 0x1F || first == 0x5F || first == 0x9F || first == 0xDF) && last < 0x80
    requires forall i :: 0 <= i < |more| ==> more[i] >= 0x80
    ensures |more| <= 2
  {
    var x, t := Ser(u), |u.tag|;
    PrintParts(u.tag, u.form, Inner(u), x);
    hide Ser, LengthOk;
    assert u.tag == x[..t] && u.tag[0] == x[0] == first;
    assert u.tag[t - 1] == x[t - 1];
    assert forall i :: 1 <= i <= |more| ==> x[i] == more[i - 1];
  }
}
