/** The streaming BER shape that KMS sends, and its way back through the converter. */
module BerStreaming {
  import opened Bytes
  import opened Ber
  import opened BerReader
  import opened BerConverter

  /** An OCTET STRING, universal or context `[0]`, of more than one byte. */
  predicate Splits(n: Node) {
    n.body.Primitive? && |n.tag| == 1 && (n.tag[0] == OCTET_STRING || n.tag[0] == 0x80) && |n.body.content| > 1
  }

  function Chunk(content: seq<u8>): Value {
    Prim([OCTET_STRING], Definite(MinOctets(|content|)), content)
  }

  /** `n` written with indefinite lengths, and strings in two chunks. */
  function Stream(n: Node): Value
    decreases n, 1
  {
    match n.body
    case Primitive(content) =>
      if Splits(n) then
        var half := |content| / 2;
        Cons([n.tag[0] + CONSTRUCTED], Indefinite, [Chunk(content[..half]), Chunk(content[half..])])
      else Prim(n.tag, Definite(MinOctets(|content|)), content)
    case Constructed(children) => Cons(n.tag, Indefinite, StreamAll(children))
  }

  function StreamAll(ns: seq<Node>): (vs: seq<Value>)
    ensures |vs| == |ns|
    ensures forall i :: 0 <= i < |ns| ==> vs[i] == Stream(ns[i])
    decreases ns, 0
  {
    if ns == [] then [] else [Stream(ns[0])] + StreamAll(ns[1..])
  }

  // ---- The helper that writes it ----

  /** The identifier octets of a value whose tag is known to be `tag`. */
  method SkipTag(input: seq<u8>, ghost tag: seq<u8>) returns (t: nat)
    requires TagOk(tag) && tag <= input
    ensures t == |tag|
  {
    assert forall i :: 0 <= i < |tag| ==> input[i] == tag[i];
    t := 1;
    if input[0] % 0x20 == 0x1F {
      while input[t] >= 0x80
        invariant 1 <= t < |tag|
        decreases |input| - t
      {
        t := t + 1;
      }
      t := t + 1;
    }
  }

  /** The length octets at the front of `y`, which are the definite form of `size` in `n` octets. */
  method SkipLength(y: seq<u8>, ghost n: nat, ghost size: nat) returns (k: nat, len: nat)
    requires LengthOk(n, size) && LengthField(n, size) <= y
    ensures k == 1 + n && len == size
  {
    var l := y[0];
    assert LengthField(n, size)[0] == l;
    if l < 0x80 {
      return 1, l;
    }
    var m := l - 0x80;
    assert ToBE(size, n) == LengthField(n, size)[1..] == y[1..1 + m];
    FromToBE(size, n);
    len := ReadBE(y[1..1 + m]);
    k := 1 + m;
  }

  /** Write the streaming form of the DER value at the front of `input`, which is the tree `n`. */
  method Walk(input: seq<u8>, out: seq<u8>, ghost n: Node) returns (used: nat, r: seq<u8>)
    requires Shape(Der(n)) && Ser(Der(n)) <= input && |input| < Pow256(8)
    ensures used == |Ser(Der(n))| && r == out + Ser(Stream(n))
    decreases n, 1
  {
    hide Ser, Stream, Shape, Der, Inner, TagOk, LengthOk, LengthField, IsConstructed;
    ghost var inner := Inner(Der(n));
    DerParts(n, input);
    var t := SkipTag(input, n.tag);
    var k, len := SkipLength(input[t..], MinOctets(|inner|), |inner|);
    var offset := t + k;
    used := offset + len;
    r := WalkContent(input[..t], input[offset..offset + len], out, n);
  }

  method WalkContent(tag: seq<u8>, content: seq<u8>, out: seq<u8>, ghost n: Node) returns (r: seq<u8>)
    requires tag == n.tag && TagOk(tag) && IsConstructed(tag[0]) == n.body.Constructed?
    requires content == Inner(Der(n)) && |content| < Pow256(8)
    requires n.body.Constructed? ==> AllShape(DerAll(n.body.children))
    ensures r == out + Ser(Stream(n))
    decreases n, 0
  {
    if IsConstructed(tag[0]) {
      r := out + tag;
      r := r + [0x80];
      var written := WalkAll(content, n.body.children);
      r := r + written;
      r := r + [0, 0];
      OpenParts(tag, StreamAll(n.body.children), out);
    } else if |tag| == 1 && (tag[0] == OCTET_STRING || tag[0] == 0x80) && |content| > 1 {
      r := WriteChunks(tag[0], content, out, n);
    } else {
      r := out + tag;
      r := EncodeLength(|content|, r);
      r := r + content;
      PrintedParts(tag, MinOctets(|content|), content, out);
    }
  }

  method WriteChunks(first: u8, content: seq<u8>, out: seq<u8>, ghost n: Node) returns (r: seq<u8>)
    requires Splits(n) && n.tag == [first] && n.body.content == content && |content| < Pow256(8)
    ensures r == out + Ser(Stream(n))
  {
    var half := |content| / 2;
    var a, b := content[..half], content[half..];
    r := out + [first + CONSTRUCTED];
    r := r + [0x80];
    ghost var front := r;
    r := WriteChunk(a, r);
    r := WriteChunk(b, r);
    r := r + [0, 0];
    TwoValues(Chunk(a), Chunk(b));
    assert front + Ser(Chunk(a)) + Ser(Chunk(b)) == front + SerAll([Chunk(a), Chunk(b)]);
    OpenParts([first + CONSTRUCTED], [Chunk(a), Chunk(b)], out);
  }

  method WriteChunk(chunk: seq<u8>, out: seq<u8>) returns (r: seq<u8>)
    requires |chunk| < Pow256(8)
    ensures r == out + Ser(Chunk(chunk))
  {
    r := out + [OCTET_STRING];
    r := EncodeLength(|chunk|, r);
    r := r + chunk;
    PrintedParts([OCTET_STRING], MinOctets(|chunk|), chunk, out);
  }

  method WalkAll(content: seq<u8>, ghost ns: seq<Node>) returns (written: seq<u8>)
    requires AllShape(DerAll(ns)) && SerAll(DerAll(ns)) == content && |content| < Pow256(8)
    ensures written == SerAll(StreamAll(ns))
    decreases ns, 0
  {
    hide Ser, SerAll, Shape, Der, DerAll, Stream, StreamAll;
    written := [];
    var inner := 0;
    ghost var i := 0;
    assert ns[0..] == ns;
    while inner < |content|
      invariant 0 <= i <= |ns| && inner <= |content|
      invariant SerAll(DerAll(ns[i..])) == content[inner..]
      invariant written + SerAll(StreamAll(ns[i..])) == SerAll(StreamAll(ns))
      decreases |content| - inner
    {
      WalkNext(ns, i, content[inner..], written);
      var used, more := Walk(content[inner..], written, ns[i]);
      assert content[inner..][used..] == content[inner + used..];
      inner, written, i := inner + used, more, i + 1;
    }
    NothingLeft(ns, i);
  }

  lemma {:induction false} DerParts(n: Node, x: seq<u8>)
    requires Shape(Der(n)) && Ser(Der(n)) <= x
    ensures
      var inner := Inner(Der(n));
      var k := MinOctets(|inner|);
      && TagOk(n.tag) && n.tag <= x && LengthOk(k, |inner|) && LengthField(k, |inner|) <= x[|n.tag|..]
      && |Ser(Der(n))| == |n.tag| + 1 + k + |inner|
      && inner == x[|n.tag| + 1 + k..|n.tag| + 1 + k + |inner|]
    ensures |n.tag| >= 1 && IsConstructed(x[0]) == n.body.Constructed?
    ensures n.body.Constructed? ==> AllShape(DerAll(n.body.children))
  {
    DerForm(n);
    hide Inner, TagOk, LengthOk, IsConstructed, Der, DerAll, LengthField;
    var inner := Inner(Der(n));
    SerLength(Der(n));
    DefiniteParts(n.tag, MinOctets(|inner|), inner, x);
  }

  lemma DerForm(n: Node)
    requires Shape(Der(n))
    ensures Der(n).tag == n.tag && |n.tag| >= 1 && IsConstructed(n.tag[0]) == n.body.Constructed?
    ensures Der(n).form == Definite(MinOctets(|Inner(Der(n))|))
    ensures n.body.Constructed? ==> AllShape(DerAll(n.body.children))
  {
    hide LengthOk, ToBE;
  }

  lemma DefiniteParts(tag: seq<u8>, k: nat, inner: seq<u8>, x: seq<u8>)
    requires Print(tag, Definite(k), inner) <= x
    ensures tag <= x && LengthField(k, |inner|) <= x[|tag|..]
    ensures |tag| + 1 + k + |inner| <= |x| && inner == x[|tag| + 1 + k..|tag| + 1 + k + |inner|]
  {
    PrintParts(tag, Definite(k), inner, x);
    assert inner == x[|tag|..][1 + k..][..|inner|];
  }

  lemma {:induction false} OpenParts(tag: seq<u8>, vs: seq<Value>, out: seq<u8>)
    ensures out + Ser(Cons(tag, Indefinite, vs)) == out + tag + [0x80] + SerAll(vs) + [0, 0]
  {
  }

  lemma {:induction false} TwoValues(v: Value, w: Value)
    ensures SerAll([v, w]) == Ser(v) + Ser(w)
  {
    assert [v, w][1..] == [w];
    assert [w][1..] == [];
    assert SerAll([w]) == Ser(w) + [];
  }

  lemma {:induction false} WalkNext(ns: seq<Node>, i: nat, rest: seq<u8>, written: seq<u8>)
    requires i <= |ns| && rest != [] && AllShape(DerAll(ns)) && SerAll(DerAll(ns[i..])) == rest
    requires written + SerAll(StreamAll(ns[i..])) == SerAll(StreamAll(ns))
    ensures i < |ns| && Shape(Der(ns[i])) && Ser(Der(ns[i])) <= rest && |Ser(Der(ns[i]))| >= 2
    ensures SerAll(DerAll(ns[i + 1..])) == rest[|Ser(Der(ns[i]))|..]
    ensures (written + Ser(Stream(ns[i]))) + SerAll(StreamAll(ns[i + 1..])) == SerAll(StreamAll(ns))
  {
    var more := ns[i..];
    assert more != [];
    assert more[1..] == ns[i + 1..] && more[0] == ns[i];
    assert Der(ns[i]) == DerAll(ns)[i];
    SerLength(Der(ns[i]));
    DerAllHead(more);
    StreamAllHead(more);
    ConcatAssoc(written, Ser(Stream(ns[i])), SerAll(StreamAll(more[1..])));
  }

  lemma {:induction false} DerAllHead(ns: seq<Node>)
    requires ns != []
    ensures SerAll(DerAll(ns)) == Ser(Der(ns[0])) + SerAll(DerAll(ns[1..]))
  {
    assert DerAll(ns)[1..] == DerAll(ns[1..]);
  }

  lemma {:induction false} StreamAllHead(ns: seq<Node>)
    requires ns != []
    ensures SerAll(StreamAll(ns)) == Ser(Stream(ns[0])) + SerAll(StreamAll(ns[1..]))
  {
    assert StreamAll(ns)[1..] == StreamAll(ns[1..]);
  }

  lemma {:induction false} NothingLeft(ns: seq<Node>, i: nat)
    requires i <= |ns| && AllShape(DerAll(ns)) && SerAll(DerAll(ns[i..])) == []
    ensures ns[i..] == [] && SerAll(StreamAll(ns[i..])) == []
  {
    if ns[i..] != [] { SerLength(Der(ns[i..][0])); }
  }

  method ToStreamingBer(der: seq<u8>, ghost n: Node) returns (out: seq<u8>)
    requires Shape(Der(n)) && Ser(Der(n)) == der && |der| < Pow256(8)
    ensures out == Ser(Stream(n))
  {
    var used, r := Walk(der, [], n);
    assert used == |der|;
    out := r;
  }

  // ---- When the converter undoes it ----

  predicate IsZero(n: Node) { n.tag == [0] && n.body == Primitive([]) }

  /** No part of a constructed value is `00 00`. */
  predicate NoZeroChild(n: Node) {
    n.body.Constructed? ==>
      forall i :: 0 <= i < |n.body.children| ==> !IsZero(n.body.children[i]) && NoZeroChild(n.body.children[i])
  }

  /** Every string that is split has room for one more level. */
  predicate Room(n: Node, depth: nat) {
    && (Splits(n) ==> depth < MAX_DEPTH)
    && (n.body.Constructed? ==>
          forall i :: 0 <= i < |n.body.children| ==> Room(n.body.children[i], depth + 1))
  }

  lemma {:induction false} StreamShape(n: Node, depth: nat)
    requires Normal(n, depth) && NoZeroChild(n) && |Ser(Der(n))| < Pow256(MAX_LENGTH_BYTES)
    ensures Shape(Stream(n)) && Norm(Stream(n)) == n
    ensures IsEndOfContents(Stream(n)) <==> IsZero(n)
    decreases n
  {
    SerLength(Der(n));
    if n.body.Constructed? {
      var children := n.body.children;
      forall i | 0 <= i < |children|
        ensures Shape(Stream(children[i])) && Norm(Stream(children[i])) == children[i]
        ensures !IsEndOfContents(Stream(children[i]))
      {
        PartNotLonger(DerAll(children), i);
        StreamShape(children[i], depth + 1);
      }
      assert NormAll(StreamAll(children)) == children;
    } else if Splits(n) {
      SplitShape(n);
    }
  }

  lemma {:induction false} SplitShape(n: Node)
    requires Splits(n) && |n.body.content| < Pow256(MAX_LENGTH_BYTES)
    ensures Shape(Stream(n)) && Norm(Stream(n)) == n
  {
    hide LengthOk, SerAll;
    var content := n.body.content;
    var a, b := content[..|content| / 2], content[|content| / 2..];
    var vs := [Chunk(a), Chunk(b)];
    assert Shape(vs[0]) && Shape(vs[1]);
    TwoChunks(a, b);
    assert Stream(n) == Cons([n.tag[0] + CONSTRUCTED], Indefinite, vs);
    assert a + b == content;
  }

  lemma {:induction false} TwoChunks(a: seq<u8>, b: seq<u8>)
    ensures
      var nodes := NormAll([Chunk(a), Chunk(b)]);
      (forall i :: 0 <= i < |nodes| ==> IsChunk(nodes[i])) && Chunks(nodes) == a + b
  {
    var nodes := NormAll([Chunk(a), Chunk(b)]);
    assert nodes == [Norm(Chunk(a)), Norm(Chunk(b))];
    assert nodes[1..] == [Norm(Chunk(b))] && nodes[1..][1..] == [];
    assert Chunks(nodes[1..]) == b + [] == b;
  }

  lemma {:induction false} StreamFits(n: Node, depth: nat)
    requires Normal(n, depth)
    ensures Fits(Stream(n), depth) <==> Room(n, depth)
    decreases n
  {
    if n.body.Constructed? {
      var children := n.body.children;
      forall i | 0 <= i < |children|
        ensures Fits(StreamAll(children)[i], depth + 1) <==> Room(children[i], depth + 1)
      {
        StreamFits(children[i], depth + 1);
      }
    } else if Splits(n) {
      assert Stream(n).children[0].Prim? && Stream(n).children[1].Prim?;
      assert Fits(Stream(n), depth) <==> Fits(Stream(n).children[0], depth + 1);
    }
  }

  // ---- A `00 00` child closes its parent early, so the closing octets no longer balance ----

  datatype Token = Leaf(v: Value) | Open(tag: seq<u8>) | Close

  predicate TokenOk(t: Token) {
    match t
    case Leaf(v) => Shape(v) && v.Prim? && !IsEndOfContents(v)
    case Open(tag) => TagOk(tag) && IsConstructed(tag[0])
    case Close => true
  }

  predicate TokensOk(ts: seq<Token>) { forall i :: 0 <= i < |ts| ==> TokenOk(ts[i]) }

  function TokenBytes(t: Token): seq<u8> {
    match t
    case Leaf(v) => Ser(v)
    case Open(tag) => tag + [0x80]
    case Close => [0, 0]
  }

  function TokensBytes(ts: seq<Token>): seq<u8> {
    if ts == [] then [] else TokenBytes(ts[0]) + TokensBytes(ts[1..])
  }

  function Weight(t: Token): int { if t.Open? then 1 else if t.Close? then -1 else 0 }

  /** Opening minus closing octets. */
  function Balance(ts: seq<Token>): int {
    if ts == [] then 0 else Weight(ts[0]) + Balance(ts[1..])
  }

  lemma {:induction false} TokensConcat(ts: seq<Token>, us: seq<Token>)
    ensures TokensBytes(ts + us) == TokensBytes(ts) + TokensBytes(us)
  {
    if ts == [] {
      assert ts + us == us;
    } else {
      TokensConcat(ts[1..], us);
      assert (ts + us)[1..] == ts[1..] + us;
      ConcatAssoc(TokenBytes(ts[0]), TokensBytes(ts[1..]), TokensBytes(us));
    }
  }

  lemma {:induction false} BalanceConcat(ts: seq<Token>, us: seq<Token>)
    ensures Balance(ts + us) == Balance(ts) + Balance(us)
  {
    if ts == [] {
      assert ts + us == us;
    } else {
      BalanceConcat(ts[1..], us);
      assert (ts + us)[1..] == ts[1..] + us;
    }
  }

  lemma {:induction false} OneToken(t: Token)
    ensures TokensBytes([t]) == TokenBytes(t) && Balance([t]) == Weight(t)
  {
    assert [t][1..] == [];
    assert TokenBytes(t) + [] == TokenBytes(t);
  }

  /** `Open`, the tokens `mid`, `Close`. */
  lemma {:induction false} Bracketed(tag: seq<u8>, mid: seq<Token>)
    ensures TokensBytes([Open(tag)] + (mid + [Close])) == tag + ([0x80] + (TokensBytes(mid) + [0, 0]))
    ensures Balance([Open(tag)] + (mid + [Close])) == Balance(mid)
  {
    var ts := [Open(tag)] + (mid + [Close]);
    assert ts[0] == Open(tag) && ts[1..] == mid + [Close];
    TokensConcat(mid, [Close]);
    BalanceConcat(mid, [Close]);
    OneToken(Close);
    var b: seq<u8> := [0x80];
    ConcatAssoc(tag, b, TokensBytes(mid + [Close]));
  }

  lemma TokenNonEmpty(t: Token)
    requires TokenOk(t)
    ensures |TokenBytes(t)| >= 2
    ensures [0, 0] <= TokenBytes(t) ==> t.Close?
  {
    if t.Leaf? {
      SerLength(t.v);
      if [0, 0] <= Ser(t.v) { StartsWithZeros(t.v, Ser(t.v)); }
    }
  }

  /** A value read from tokens takes whole tokens, with as many closing as opening. */
  lemma {:induction false} ReadFromTokens(c: Value, ts: seq<Token>) returns (k: nat)
    requires Shape(c) && !IsEndOfContents(c) && TokensOk(ts) && Ser(c) <= TokensBytes(ts)
    ensures k <= |ts| && Ser(c) == TokensBytes(ts[..k]) && Balance(ts[..k]) == 0
    decreases c, 1
  {
    var x := TokensBytes(ts);
    SerLength(c);
    assert ts != [];
    var t, rest := ts[0], ts[1..];
    match t
    case Close =>
      StartsWithZeros(c, x);
      assert false;
    case Leaf(v) =>
      Unambiguous(c, v, x);
      k := 1;
      assert ts[..1] == [t];
      OneToken(t);
    case Open(tag) =>
      OpenHeader(c, tag, TokensBytes(rest));
      var j := ReadAllFromTokens(c.children, rest);
      k := j + 2;
      ClosedTokens(c, tag, ts, j);
  }

  lemma {:induction false} OpenHeader(c: Value, tag: seq<u8>, y: seq<u8>)
    requires Shape(c) && TagOk(tag) && Ser(c) <= (tag + [0x80]) + y
    ensures c.Cons? && c.tag == tag && c.form.Indefinite?
    ensures SerAll(c.children) <= y && [0, 0] <= y[|SerAll(c.children)|..]
  {
    var b: seq<u8> := [0x80];
    var x := (tag + b) + y;
    FrontOfThree(tag, b, y);
    ValueTag(c, x, |tag|);
    ValueLength(c, x, |tag|, Indefinite, 0);
  }

  lemma FrontOfThree(tag: seq<u8>, b: seq<u8>, y: seq<u8>)
    ensures ((tag + b) + y)[..|tag|] == tag && b <= ((tag + b) + y)[|tag|..]
    ensures ((tag + b) + y)[|tag|..][|b|..] == y
  {
    assert ((tag + b) + y)[|tag|..] == b + y;
  }

  lemma {:induction false} ReadAllFromTokens(cs: seq<Value>, ts: seq<Token>) returns (j: nat)
    requires AllShape(cs) && NoEndOfContents(cs) && TokensOk(ts)
    requires SerAll(cs) <= TokensBytes(ts) && [0, 0] <= TokensBytes(ts)[|SerAll(cs)|..]
    ensures j < |ts| && ts[j].Close? && SerAll(cs) == TokensBytes(ts[..j]) && Balance(ts[..j]) == 0
    decreases cs, 0
  {
    hide Ser, SerAll, Shape, IsEndOfContents, TokenOk, TokensBytes, Balance;
    if cs == [] {
      NoTokens(ts);
      FirstCloses(ts);
      j := 0;
    } else {
      ForestHead(cs, TokensBytes(ts));
      var k := ReadFromTokens(cs[0], ts);
      SplitTokens(ts, k);
      OpenForestTail(cs, TokensBytes(ts), TokensBytes(ts[k..]));
      var more := ReadAllFromTokens(cs[1..], ts[k..]);
      j := k + more;
      JoinTokens(ts, k, more);
    }
  }

  lemma NoTokens(ts: seq<Token>)
    ensures SerAll([]) == [] == TokensBytes(ts[..0]) && Balance(ts[..0]) == 0
  {
  }

  lemma {:induction false} FirstCloses(ts: seq<Token>)
    requires TokensOk(ts) && [0, 0] <= TokensBytes(ts)
    ensures ts != [] && ts[0].Close?
  {
    TokenNonEmpty(ts[0]);
    PrefixOfSum(TokenBytes(ts[0]), TokensBytes(ts[1..]), TokensBytes(ts));
  }

  lemma {:induction false} OpenForestTail(cs: seq<Value>, x: seq<u8>, rest: seq<u8>)
    requires cs != [] && SerAll(cs) <= x && [0, 0] <= x[|SerAll(cs)|..] && Ser(cs[0]) <= x && rest == x[|Ser(cs[0])|..]
    ensures SerAll(cs[1..]) <= rest && [0, 0] <= rest[|SerAll(cs[1..])|..]
    ensures SerAll(cs) == Ser(cs[0]) + SerAll(cs[1..])
  {
    ForestHead(cs, x);
  }

  lemma {:induction false} SplitTokens(ts: seq<Token>, k: nat)
    requires k <= |ts|
    ensures TokensBytes(ts[..k]) <= TokensBytes(ts)
    ensures TokensBytes(ts)[|TokensBytes(ts[..k])|..] == TokensBytes(ts[k..])
  {
    assert ts == ts[..k] + ts[k..];
    TokensConcat(ts[..k], ts[k..]);
  }

  lemma {:induction false} JoinTokens(ts: seq<Token>, k: nat, more: nat)
    requires k + more <= |ts|
    ensures TokensBytes(ts[..k + more]) == TokensBytes(ts[..k]) + TokensBytes(ts[k..][..more])
    ensures Balance(ts[..k + more]) == Balance(ts[..k]) + Balance(ts[k..][..more])
  {
    assert ts[..k + more] == ts[..k] + ts[k..][..more];
    TokensConcat(ts[..k], ts[k..][..more]);
    BalanceConcat(ts[..k], ts[k..][..more]);
  }

  lemma {:induction false} ClosedTokens(c: Value, tag: seq<u8>, ts: seq<Token>, j: nat)
    requires ts != [] && ts[0] == Open(tag) && j + 1 < |ts| && ts[j + 1].Close?
    requires c.Cons? && c.tag == tag && c.form.Indefinite?
    requires SerAll(c.children) == TokensBytes(ts[1..][..j]) && Balance(ts[1..][..j]) == 0
    ensures Ser(c) == TokensBytes(ts[..j + 2]) && Balance(ts[..j + 2]) == 0
  {
    hide TokensOk, TokensBytes, Balance;
    assert ts[..j + 2] == [Open(tag)] + (ts[1..][..j] + [Close]);
    Bracketed(tag, ts[1..][..j]);
  }

  // ---- The tokens of a streamed tree ----

  function Tokens(n: Node): seq<Token>
    decreases n, 1
  {
    if IsZero(n) then [Close]
    else if n.body.Constructed? then [Open(n.tag)] + (TokensAll(n.body.children) + [Close])
    else if Splits(n) then
      var half := |n.body.content| / 2;
      [Open([n.tag[0] + CONSTRUCTED]), Leaf(Chunk(n.body.content[..half])), Leaf(Chunk(n.body.content[half..])), Close]
    else [Leaf(Stream(n))]
  }

  function TokensAll(ns: seq<Node>): seq<Token>
    decreases ns, 0
  {
    if ns == [] then [] else Tokens(ns[0]) + TokensAll(ns[1..])
  }

  function Zeros(n: Node): nat
    decreases n, 1
  {
    if IsZero(n) then 1 else if n.body.Constructed? then ZerosAll(n.body.children) else 0
  }

  function ZerosAll(ns: seq<Node>): nat
    decreases ns, 0
  {
    if ns == [] then 0 else Zeros(ns[0]) + ZerosAll(ns[1..])
  }

  lemma {:induction false} TokensOfStream(n: Node, depth: nat)
    requires Normal(n, depth) && |Ser(Der(n))| < Pow256(MAX_LENGTH_BYTES)
    ensures TokensOk(Tokens(n)) && TokensBytes(Tokens(n)) == Ser(Stream(n)) && Balance(Tokens(n)) + Zeros(n) == 0
    decreases n, 1
  {
    hide TokensBytes, Balance, LengthOk, ToBE;
    SerLength(Der(n));
    if n.body.Constructed? {
      TokensOfStreams(n.body.children, depth + 1);
      Bracketed(n.tag, TokensAll(n.body.children));
    } else if Splits(n) {
      TokensOfChunks(n);
    } else if IsZero(n) {
      OneToken(Close);
    } else {
      OneToken(Leaf(Stream(n)));
    }
  }

  lemma {:induction false} TokensOfChunks(n: Node)
    requires Splits(n) && |n.body.content| < Pow256(MAX_LENGTH_BYTES)
    ensures TokensOk(Tokens(n)) && TokensBytes(Tokens(n)) == Ser(Stream(n)) && Balance(Tokens(n)) == 0
  {
    hide TokensBytes, Balance;
    var content := n.body.content;
    var a, b := Chunk(content[..|content| / 2]), Chunk(content[|content| / 2..]);
    var tag := [n.tag[0] + CONSTRUCTED];
    assert Shape(a) && Shape(b);
    var mid := [Leaf(a)] + [Leaf(b)];
    assert Tokens(n) == [Open(tag)] + (mid + [Close]);
    Bracketed(tag, mid);
    TwoLeaves(a, b);
    assert Stream(n) == Cons(tag, Indefinite, [a, b]);
  }

  lemma {:induction false} TwoLeaves(a: Value, b: Value)
    ensures TokensBytes([Leaf(a)] + [Leaf(b)]) == SerAll([a, b]) && Balance([Leaf(a)] + [Leaf(b)]) == 0
  {
    OneToken(Leaf(a));
    OneToken(Leaf(b));
    TokensConcat([Leaf(a)], [Leaf(b)]);
    BalanceConcat([Leaf(a)], [Leaf(b)]);
    TwoValues(a, b);
  }

  lemma {:induction false} TokensOfStreams(ns: seq<Node>, depth: nat)
    requires forall i :: 0 <= i < |ns| ==> Normal(ns[i], depth)
    requires |SerAll(DerAll(ns))| < Pow256(MAX_LENGTH_BYTES)
    ensures TokensOk(TokensAll(ns)) && TokensBytes(TokensAll(ns)) == SerAll(StreamAll(ns))
    ensures Balance(TokensAll(ns)) + ZerosAll(ns) == 0
    decreases ns, 0
  {
    if ns != [] {
      assert DerAll(ns)[1..] == DerAll(ns[1..]) && StreamAll(ns)[1..] == StreamAll(ns[1..]);
      TokensOfStream(ns[0], depth);
      TokensOfStreams(ns[1..], depth);
      TokensConcat(Tokens(ns[0]), TokensAll(ns[1..]));
      BalanceConcat(Tokens(ns[0]), TokensAll(ns[1..]));
    }
  }

  lemma {:induction false} NoZeros(n: Node)
    requires n.body.Constructed? && Zeros(n) == 0
    ensures NoZeroChild(n)
    decreases n
  {
    var children := n.body.children;
    forall i | 0 <= i < |children| ensures !IsZero(children[i]) && NoZeroChild(children[i]) {
      ZerosPart(children, i);
      if children[i].body.Constructed? { NoZeros(children[i]); }
    }
  }

  lemma {:induction false} ZerosPart(ns: seq<Node>, i: nat)
    requires i < |ns|
    ensures Zeros(ns[i]) <= ZerosAll(ns)
  {
    if i > 0 { ZerosPart(ns[1..], i - 1); }
  }

  lemma {:induction false} WholeTokens(ts: seq<Token>, k: nat)
    requires TokensOk(ts) && k <= |ts| && TokensBytes(ts[..k]) == TokensBytes(ts)
    ensures k == |ts|
  {
    SplitTokens(ts, k);
    if k < |ts| { TokenNonEmpty(ts[k..][0]); }
  }

  lemma {:induction false} BalancedStream(n: Node, c: Value)
    requires Normal(n, 0) && |Ser(Der(n))| < Pow256(MAX_LENGTH_BYTES)
    requires Shape(c) && Ser(c) == Ser(Stream(n))
    ensures NoZeroChild(n)
  {
    if n.body.Constructed? {
      TokensOfStream(n, 0);
      assert c.tag[0] == Ser(c)[0] == n.tag[0] by { SerLength(c); }
      var k := ReadFromTokens(c, Tokens(n));
      WholeTokens(Tokens(n), k);
      assert Tokens(n)[..k] == Tokens(n);
      NoZeros(n);
    }
  }

  lemma {:induction false} NormalRoundTrip(n: Node)
    requires Normal(n, 0) && |Ser(Der(n))| < Pow256(MAX_LENGTH_BYTES)
    ensures BerToDer(Ser(Stream(n))) == Some(Ser(Der(n))) <==> NoZeroChild(n) && Room(n, 0)
  {
    var x := Ser(Stream(n));
    StreamFits(n, 0);
    if NoZeroChild(n) && Room(n, 0) {
      StreamShape(n, 0);
      ConvertsValue(Stream(n));
    }
    if BerToDer(x) == Some(Ser(Der(n))) {
      var c := ValueOf(x);
      BalancedStream(n, c);
      StreamShape(n, 0);
      Unambiguous(c, Stream(n), x);
    }
  }

  lemma {:induction false} DerIsInjective(m: Node, n: Node)
    requires Der(m) == Der(n)
    ensures m == n
    decreases m
  {
    if m.body.Constructed? {
      var a, b := m.body.children, n.body.children;
      assert DerAll(a) == DerAll(b);
      assert |a| == |b|;
      forall i | 0 <= i < |a| ensures a[i] == b[i] { DerIsInjective(a[i], b[i]); }
    }
  }

  /** Whatever the converter gives as the DER of a tree, it had nothing left to join in that tree. */
  lemma {:induction false} OutputIsNormal(x: seq<u8>, n: Node)
    requires BerToDer(x) == Some(Ser(Der(n))) && Shape(Der(n)) && |Ser(Der(n))| < Pow256(MAX_LENGTH_BYTES)
    ensures Normal(n, 0)
  {
    hide Ser, Der, Normal;
    var m := Norm(ValueOf(x));
    NormIsNormal(ValueOf(x), 0);
    SerLength(Der(m));
    DerReadsBack(m, 0);
    Unambiguous(Der(m), Der(n), Ser(Der(n)));
    DerIsInjective(m, n);
  }

  /**
   * Converting the streaming form of a DER value gives the value back exactly when the value fits the depth limit
   * with nothing to join, no part of it is `00 00`, and every string that is split has room for one more level.
   */
  lemma {:induction false} StreamingRoundTrip(n: Node)
    requires Shape(Der(n)) && |Ser(Der(n))| < Pow256(MAX_LENGTH_BYTES)
    ensures BerToDer(Ser(Stream(n))) == Some(Ser(Der(n))) <==> Normal(n, 0) && NoZeroChild(n) && Room(n, 0)
  {
    hide Ser, Der, Stream, Shape, Normal, BerToDer, NoZeroChild, Room;
    if BerToDer(Ser(Stream(n))) == Some(Ser(Der(n))) { OutputIsNormal(Ser(Stream(n)), n); }
    if Normal(n, 0) { NormalRoundTrip(n); }
  }
}
