/** The parser of the converter (`enclave/src/kms/ber.rs`), proved against the grammar. */
module BerReader {
  import opened Bytes
  import opened Ber

  /** No well-formed value starts `x`. */
  ghost predicate NoValue(x: seq<u8>, depth: nat) {
    forall w: Value :: WellFormed(w, depth) ==> !(Ser(w) <= x)
  }

  method ReadTag(input: seq<u8>) returns (r: Option<nat>)
    ensures r.Some? ==> 1 <= r.value <= |input| && TagOk(input[..r.value])
    ensures r.None? ==> forall t :: TagOk(t) ==> !(t <= input)
  {
    if |input| == 0 { return None; }
    var first := input[0];
    var offset := 1;
    if first % 0x20 == 0x1F {
      while true
        invariant 1 <= offset <= |input| && offset <= MAX_TAG_BYTES
        invariant forall i :: 1 <= i < offset ==> input[i] >= 0x80
        decreases |input| - offset
      {
        if offset >= |input| { return None; }
        var b := input[offset];
        offset := offset + 1;
        if offset > MAX_TAG_BYTES { return None; }
        if b < 0x80 { break; }
      }
    }
    return Some(offset);
  }

  method ReadBE(bytes: seq<u8>) returns (v: nat)
    ensures v == FromBE(bytes)
  {
    v := 0;
    for i := 0 to |bytes|
      invariant v == FromBE(bytes[..i])
    {
      assert bytes[..i + 1][..i] == bytes[..i];
      v := v * 256 + bytes[i];
    }
    assert bytes[..|bytes|] == bytes;
  }

  lemma LeadingZeroRefused(y: seq<u8>, n: nat)
    requires 1 <= n <= MAX_LENGTH_BYTES && 1 + n <= |y| && y[0] == 0x80 + n && y[1] == 0
    ensures forall m, k :: LengthOk(m, k) ==> !(LengthField(m, k) <= y)
  {
    forall m, k | LengthOk(m, k) ensures !(LengthField(m, k) <= y) {
      if LengthField(m, k) <= y {
        assert LengthField(m, k)[0] == y[0];
        assert LengthField(m, k)[1] == y[1];
        LeadingByte(k, m);
      }
    }
  }

  lemma LengthRead(y: seq<u8>, n: nat)
    requires 1 <= n <= MAX_LENGTH_BYTES && 1 + n <= |y| && y[0] == 0x80 + n && y[1] != 0
    ensures LengthOk(n, FromBE(y[1..1 + n])) && LengthField(n, FromBE(y[1..1 + n])) <= y
  {
    hide ToBE, FromBE;
    var bytes := y[1..1 + n];
    ToFromBE(bytes);
    LeadingByte(FromBE(bytes), n);
    assert y[..1 + n] == [0x80 + n] + bytes;
  }

  /** The length octets at the front of `y`: their form, and the length when it is definite. */
  method ReadLength(y: seq<u8>) returns (r: Option<(Form, nat)>)
    ensures r.Some? && r.value.0.Definite? ==>
      LengthOk(r.value.0.octets, r.value.1) && LengthField(r.value.0.octets, r.value.1) <= y
    ensures r.Some? && r.value.0.Indefinite? ==> [0x80] <= y
    ensures r.None? ==> !([0x80] <= y) && forall n, k :: LengthOk(n, k) ==> !(LengthField(n, k) <= y)
  {
    if |y| == 0 { return None; }
    var l := y[0];
    if l < 0x80 { return Some((Definite(0), l)); }
    if l == 0x80 { return Some((Indefinite, 0)); }
    var n := l - 0x80;
    if n > MAX_LENGTH_BYTES || 1 + n > |y| { return None; }
    var bytes := y[1..1 + n];
    if bytes[0] == 0 {
      LeadingZeroRefused(y, n);
      return None;
    }
    var v := ReadBE(bytes);
    LengthRead(y, n);
    return Some((Definite(n), v));
  }

  // ---- Why each refusal of the parser is right ----

  lemma {:induction false} NoTag(x: seq<u8>, depth: nat)
    requires forall t :: TagOk(t) ==> !(t <= x)
    ensures NoValue(x, depth)
  {
    forall w: Value | WellFormed(w, depth) ensures !(Ser(w) <= x) {
      if Ser(w) <= x { PrintParts(w.tag, w.form, Inner(w), x); }
    }
  }

  lemma {:induction false} NoLength(x: seq<u8>, depth: nat, t: nat)
    requires t <= |x| && TagOk(x[..t]) && !([0x80] <= x[t..])
    requires forall n, k :: LengthOk(n, k) ==> !(LengthField(n, k) <= x[t..])
    ensures NoValue(x, depth)
  {
    forall w: Value | WellFormed(w, depth) ensures !(Ser(w) <= x) {
      if Ser(w) <= x { ValueTag(w, x, t); }
    }
  }

  lemma PrefixIsSlice(p: seq<u8>, x: seq<u8>, t: nat, n: nat, len: nat)
    requires t + 1 + n <= |x| && p <= x[t..][1 + n..] && |p| == len
    ensures t + 1 + n + len <= |x| && p == x[t + 1 + n..t + 1 + n + len]
  {
    assert p == x[t..][1 + n..][..len];
  }

  /** A definite length was read: the content of any value here has that length and place. */
  lemma {:induction false} DefiniteInner(w: Value, x: seq<u8>, t: nat, n: nat, len: nat)
    requires t <= |x| && TagOk(x[..t]) && LengthOk(n, len) && LengthField(n, len) <= x[t..]
    requires Shape(w) && Ser(w) <= x
    ensures t + 1 + n + len <= |x| && Inner(w) == x[t + 1 + n..t + 1 + n + len] && w.tag[0] == x[0]
  {
    assert t >= 1 && x[..t][0] == x[0];
    hide Ser, Inner, Shape, TagOk, LengthOk, LengthField;
    ValueTag(w, x, t);
    ValueLength(w, x, t, Definite(n), len);
    PrefixIsSlice(Inner(w), x, t, n, len);
  }

  lemma {:induction false} NoRoom(x: seq<u8>, depth: nat, t: nat, n: nat, len: nat)
    requires t <= |x| && TagOk(x[..t]) && LengthOk(n, len) && LengthField(n, len) <= x[t..]
    requires t + 1 + n + len > |x|
    ensures NoValue(x, depth)
  {
    forall w: Value | WellFormed(w, depth) ensures !(Ser(w) <= x) {
      if Ser(w) <= x { DefiniteInner(w, x, t, n, len); }
    }
  }

  lemma {:induction false} NoChildren(x: seq<u8>, depth: nat, t: nat, n: nat, len: nat)
    requires t <= |x| && TagOk(x[..t]) && LengthOk(n, len) && LengthField(n, len) <= x[t..]
    requires t + 1 + n + len <= |x| && IsConstructed(x[0])
    requires forall ws :: AllWellFormed(ws, depth + 1) ==> SerAll(ws) != x[t + 1 + n..t + 1 + n + len]
    ensures NoValue(x, depth)
  {
    forall w: Value | WellFormed(w, depth) ensures !(Ser(w) <= x) {
      if Ser(w) <= x { DefiniteInner(w, x, t, n, len); }
    }
  }

  /** An indefinite length was read: the children of any value here and the closing octets follow it. */
  lemma {:induction false} IndefiniteInner(w: Value, x: seq<u8>, t: nat)
    requires t <= |x| && TagOk(x[..t]) && [0x80] <= x[t..]
    requires Shape(w) && Ser(w) <= x
    ensures w.Cons? && w.form.Indefinite? && IsConstructed(x[0]) && SerAll(w.children) + [0, 0] <= x[t..][1..]
  {
    assert t >= 1 && x[..t][0] == x[0];
    hide Ser, SerAll, LengthOk;
    ValueTag(w, x, t);
    ValueLength(w, x, t, Indefinite, 0);
    PrefixOfSum(Inner(w), [0, 0], x[t..][1..]);
  }

  lemma {:induction false} NoIndefinite(x: seq<u8>, depth: nat, t: nat)
    requires t <= |x| && TagOk(x[..t]) && [0x80] <= x[t..]
    requires
      || !IsConstructed(x[0])
      || forall ws :: AllWellFormed(ws, depth + 1) && NoEndOfContents(ws) ==> !(SerAll(ws) + [0, 0] <= x[t..][1..])
    ensures NoValue(x, depth)
  {
    forall w: Value | WellFormed(w, depth) ensures !(Ser(w) <= x) {
      hide Ser, SerAll, TagOk, LengthOk, IsConstructed;
      if Ser(w) <= x { IndefiniteInner(w, x, t); }
    }
  }

  // ---- What the parser read is a value ----

  /** `v` was read at the front of `x`: it is well formed, it prints to the first `used` bytes, and it gives `node`. */
  ghost predicate Reads(x: seq<u8>, depth: nat, v: Value, node: Node, used: nat) {
    used <= |x| && WellFormed(v, depth) && Ser(v) == x[..used] && node == Norm(v)
  }

  lemma {:induction false} ReadDefinite(x: seq<u8>, depth: nat, t: nat, v: Value)
    requires depth <= MAX_DEPTH && t <= |x| && TagOk(x[..t]) && v.tag == x[..t] && v.form.Definite?
    requires IsConstructed(x[0]) == v.Cons? && (v.Cons? ==> AllWellFormed(v.children, depth + 1))
    requires
      var n, len := v.form.octets, |Inner(v)|;
      var offset := t + 1 + n;
      && LengthOk(n, len) && LengthField(n, len) <= x[t..]
      && offset + len <= |x| && Inner(v) == x[offset..offset + len]
    ensures Reads(x, depth, v, Norm(v), t + 1 + v.form.octets + |Inner(v)|)
  {
    assert t >= 1 && v.tag[0] == x[0] && HeaderOk(v.tag, v.form, |Inner(v)|);
    hide HeaderOk, TagOk, LengthOk, LengthField, IsConstructed, Norm, Ser, Inner, WellFormed, AllWellFormed;
    ValueWellFormed(v, depth);
    DefiniteBytes(x, t, v);
  }

  lemma DefiniteBytes(x: seq<u8>, t: nat, v: Value)
    requires t <= |x| && v.tag == x[..t] && v.form.Definite? && LengthField(v.form.octets, |Inner(v)|) <= x[t..]
    requires
      var offset := t + 1 + v.form.octets;
      offset + |Inner(v)| <= |x| && Inner(v) == x[offset..offset + |Inner(v)|]
    ensures Ser(v) == x[..t + 1 + v.form.octets + |Inner(v)|]
  {
    hide LengthField, Ser, Inner;
    DefinitePrint(v);
    DefiniteParts(x, t, LengthField(v.form.octets, |Inner(v)|), t + 1 + v.form.octets + |Inner(v)|);
  }

  lemma DefiniteParts(x: seq<u8>, t: nat, field: seq<u8>, end: nat)
    requires t <= |x| && field <= x[t..] && t + |field| <= end <= |x|
    ensures x[..t] + (field + x[t + |field|..end]) == x[..end]
  {
    SliceOfDrop(x, t, |field|);
    ThreeParts(x, t, t + |field|, end);
  }

  lemma ValueWellFormed(v: Value, depth: nat)
    requires depth <= MAX_DEPTH && HeaderOk(v.tag, v.form, |Inner(v)|) && IsConstructed(v.tag[0]) == v.Cons?
    requires v.Cons? ==> AllWellFormed(v.children, depth + 1) && (v.form.Indefinite? ==> NoEndOfContents(v.children))
    ensures WellFormed(v, depth)
  {
    hide TagOk, LengthOk, IsConstructed, Inner;
  }

  lemma DefinitePrint(v: Value)
    requires v.form.Definite?
    ensures Ser(v) == v.tag + (LengthField(v.form.octets, |Inner(v)|) + Inner(v))
  {
    assert Inner(v) + [] == Inner(v);
  }

  /** `x` starts with a tag of `t` bytes and a definite length of `n` further octets, for `len` bytes that are there. */
  predicate HeaderRead(x: seq<u8>, t: nat, n: nat, len: nat) {
    && t <= |x| && TagOk(x[..t]) && LengthOk(n, len) && LengthField(n, len) <= x[t..] && t + 1 + n + len <= |x|
  }

  lemma {:induction false} ReadPrimitive(x: seq<u8>, depth: nat, t: nat, n: nat, len: nat)
    requires depth <= MAX_DEPTH && HeaderRead(x, t, n, len) && !IsConstructed(x[0])
    ensures
      var content, end := x[t + 1 + n..t + 1 + n + len], t + 1 + n + len;
      Reads(x, depth, Prim(x[..t], Definite(n), content), Node(x[..t], Primitive(content)), end)
  {
    ReadDefinite(x, depth, t, Prim(x[..t], Definite(n), x[t + 1 + n..t + 1 + n + len]));
  }

  lemma {:induction false} ReadConstructed(x: seq<u8>, depth: nat, t: nat, n: nat, len: nat, vs: seq<Value>)
    requires depth <= MAX_DEPTH && HeaderRead(x, t, n, len) && IsConstructed(x[0])
    requires AllWellFormed(vs, depth + 1) && SerAll(vs) == x[t + 1 + n..t + 1 + n + len]
    ensures Reads(x, depth, Cons(x[..t], Definite(n), vs), Join(x[..t], NormAll(vs)), t + 1 + n + len)
  {
    hide TagOk, LengthOk, LengthField, IsConstructed, Join, Ser;
    ReadDefinite(x, depth, t, Cons(x[..t], Definite(n), vs));
  }

  lemma {:induction false} ReadIndefinite(x: seq<u8>, depth: nat, t: nat, vs: seq<Value>, used: nat)
    requires depth <= MAX_DEPTH && t < |x| && TagOk(x[..t]) && IsConstructed(x[0]) && x[t] == 0x80
    requires AllWellFormed(vs, depth + 1) && NoEndOfContents(vs)
    requires t + 1 + used <= |x| && SerAll(vs) + [0, 0] == x[t + 1..][..used]
    ensures Reads(x, depth, Cons(x[..t], Indefinite, vs), Join(x[..t], NormAll(vs)), t + 1 + used)
  {
    assert t >= 1 && x[..t][0] == x[0];
    hide TagOk, LengthOk, LengthField, IsConstructed, Join, Ser, SerAll, WellFormed, AllWellFormed, NoEndOfContents;
    ValueWellFormed(Cons(x[..t], Indefinite, vs), depth);
    OpenedAt(x, t, used);
    IndefinitePrint(x[..t], vs);
  }

  lemma OpenedAt(x: seq<u8>, t: nat, used: nat)
    requires t + 1 + used <= |x| && x[t] == 0x80
    ensures x[..t] + ([0x80] + x[t + 1..][..used]) == x[..t + 1 + used]
  {
    SliceOfDrop(x, t + 1, used);
    assert x[t..t + 1] == [0x80];
    ThreeParts(x, t, t + 1, t + 1 + used);
  }

  lemma IndefinitePrint(tag: seq<u8>, vs: seq<Value>)
    ensures Ser(Cons(tag, Indefinite, vs)) == tag + ([0x80] + (SerAll(vs) + [0, 0]))
  {
  }

  lemma ThreeParts(x: seq<u8>, i: nat, j: nat, k: nat)
    requires i <= j <= k <= |x|
    ensures x[..i] + (x[i..j] + x[j..k]) == x[..k]
  {
  }

  /** The values `vs` were read from the first `offset` bytes of `x` and give `nodes`. */
  ghost predicate ReadsAll(x: seq<u8>, depth: nat, vs: seq<Value>, nodes: seq<Node>, offset: nat) {
    offset <= |x| && AllWellFormed(vs, depth) && SerAll(vs) == x[..offset] && nodes == NormAll(vs)
  }

  lemma {:induction false} ReadOneMore(
    x: seq<u8>, depth: nat, vs: seq<Value>, nodes: seq<Node>, offset: nat, v: Value, node: Node, used: nat)
    requires ReadsAll(x, depth, vs, nodes, offset) && Reads(x[offset..], depth, v, node, used)
    ensures ReadsAll(x, depth, vs + [v], nodes + [node], offset + used)
    ensures used >= 2
    ensures IsEndOfContents(v) ==> [0, 0] <= x[offset..]
  {
    hide Ser, SerAll, Shape, Fits, Norm, IsEndOfContents;
    SerAllAppend(vs, v);
    assert x[..offset] + x[offset..][..used] == x[..offset + used];
    ClosingBytes(v);
  }

  lemma {:induction false} ClosingBytes(v: Value)
    requires Shape(v)
    ensures |Ser(v)| >= 2
    ensures IsEndOfContents(v) ==> Ser(v) == [0, 0]
  {
    if IsEndOfContents(v) { assert v.form == Definite(0); }
  }

  lemma {:induction false} NoMoreOpen(x: seq<u8>, depth: nat, vs: seq<Value>, nodes: seq<Node>, offset: nat)
    requires ReadsAll(x, depth, vs, nodes, offset) && NoEndOfContents(vs)
    requires NoValue(x[offset..], depth) && !([0, 0] <= x[offset..])
    ensures forall ws :: AllWellFormed(ws, depth) && NoEndOfContents(ws) ==> !(SerAll(ws) + [0, 0] <= x)
  {
    forall ws | AllWellFormed(ws, depth) && NoEndOfContents(ws) ensures !(SerAll(ws) + [0, 0] <= x) {
      if SerAll(ws) + [0, 0] <= x { NextOpenChild(vs, ws, x); }
    }
  }

  /**
   * Parse one value at the front of `input`. `v` is the value that was read. A refusal means that there is
   * none, so the parser accepts exactly the grammar.
   */
  method Parse(input: seq<u8>, depth: nat) returns (r: Option<(Node, nat)>, ghost v: Value)
    ensures r.Some? ==> Reads(input, depth, v, r.value.0, r.value.1)
    ensures r.None? ==> NoValue(input, depth)
    decreases |input|, 2
  {
    v := Prim([], Indefinite, []);
    if depth > MAX_DEPTH || |input| < 2 {
      return None, v;
    }
    var t := ReadTag(input);
    if t.None? {
      NoTag(input, depth);
      return None, v;
    }
    var l := ReadLength(input[t.value..]);
    if l.None? {
      NoLength(input, depth, t.value);
      return None, v;
    }
    if l.value.0.Definite? {
      r, v := ParseDefiniteBody(input, depth, t.value, l.value.0.octets, l.value.1);
    } else {
      r, v := ParseIndefiniteBody(input, depth, t.value);
    }
  }

  method ParseDefiniteBody(input: seq<u8>, depth: nat, t: nat, n: nat, len: nat)
    returns (r: Option<(Node, nat)>, ghost v: Value)
    requires depth <= MAX_DEPTH && t <= |input| && TagOk(input[..t])
    requires LengthOk(n, len) && LengthField(n, len) <= input[t..]
    ensures r.Some? ==> Reads(input, depth, v, r.value.0, r.value.1)
    ensures r.None? ==> NoValue(input, depth)
    decreases |input|, 1
  {
    assert t >= 1;
    hide TagOk, LengthOk, LengthField, IsConstructed, Reads, NoValue, Join, Ser, SerAll, Norm, NormAll, AllWellFormed;
    var tag, offset := input[..t], t + 1 + n;
    var end := offset + len;
    v := Prim(tag, Definite(n), []);
    if end > |input| {
      NoRoom(input, depth, t, n, len);
      return None, v;
    }
    if !IsConstructed(input[0]) {
      v := Prim(tag, Definite(n), input[offset..end]);
      var node := Node(tag, Primitive(input[offset..end]));
      assert Reads(input, depth, v, node, end) by { ReadPrimitive(input, depth, t, n, len); }
      return Some((node, end)), v;
    }
    r, v := ParseDefiniteChildren(input, depth, t, n, len);
  }

  method ParseDefiniteChildren(input: seq<u8>, depth: nat, t: nat, n: nat, len: nat)
    returns (r: Option<(Node, nat)>, ghost v: Value)
    requires depth <= MAX_DEPTH && HeaderRead(input, t, n, len) && 1 <= t && IsConstructed(input[0])
    ensures r.Some? ==> Reads(input, depth, v, r.value.0, r.value.1)
    ensures r.None? ==> NoValue(input, depth)
    decreases |input|, 0
  {
    hide TagOk, LengthOk, LengthField, IsConstructed, Reads, NoValue, Join, Ser, SerAll, Norm, NormAll, AllWellFormed;
    var tag, offset := input[..t], t + 1 + n;
    var end := offset + len;
    v := Prim(tag, Definite(n), []);
    var children, vs := ParseDefinite(input[offset..end], depth + 1);
    if children.None? {
      NoChildren(input, depth, t, n, len);
      return None, v;
    }
    v := Cons(tag, Definite(n), vs);
    ReadConstructed(input, depth, t, n, len, vs);
    var node := Joined(Node(tag, Constructed(children.value)));
    return Some((node, end)), v;
  }

  method ParseIndefiniteBody(input: seq<u8>, depth: nat, t: nat) returns (r: Option<(Node, nat)>, ghost v: Value)
    requires depth <= MAX_DEPTH && t <= |input| && TagOk(input[..t]) && [0x80] <= input[t..]
    ensures r.Some? ==> Reads(input, depth, v, r.value.0, r.value.1)
    ensures r.None? ==> NoValue(input, depth)
    decreases |input|, 0
  {
    v := Prim(input[..t], Indefinite, []);
    if !IsConstructed(input[0]) {
      NoIndefinite(input, depth, t);
      return None, v;
    }
    var children, vs := ParseIndefinite(input[t..][1..], depth + 1);
    if children.None? {
      NoIndefinite(input, depth, t);
      return None, v;
    }
    assert input[t + 1..] == input[t..][1..];
    v := Cons(input[..t], Indefinite, vs);
    ReadIndefinite(input, depth, t, vs, children.value.1);
    var node := Joined(Node(input[..t], Constructed(children.value.0)));
    return Some((node, t + 1 + children.value.1)), v;
  }

  /** The children of a definite-length value, which fill `content`. */
  method ParseDefinite(content: seq<u8>, depth: nat) returns (r: Option<seq<Node>>, ghost vs: seq<Value>)
    ensures r.Some? ==> AllWellFormed(vs, depth) && SerAll(vs) == content && r.value == NormAll(vs)
    ensures r.None? ==> forall ws :: AllWellFormed(ws, depth) ==> SerAll(ws) != content
    decreases |content|, 3
  {
    var children: seq<Node> := [];
    vs := [];
    var offset := 0;
    while offset < |content|
      invariant ReadsAll(content, depth, vs, children, offset)
    {
      var p, v := Parse(content[offset..], depth);
      if p.None? {
        forall ws | AllWellFormed(ws, depth) ensures SerAll(ws) != content {
          if SerAll(ws) == content { NextChild(vs, ws, content); }
        }
        return None, vs;
      }
      ReadOneMore(content, depth, vs, children, offset, v, p.value.0, p.value.1);
      children, vs, offset := children + [p.value.0], vs + [v], offset + p.value.1;
    }
    return Some(children), vs;
  }

  method ParseIndefinite(rest: seq<u8>, depth: nat) returns (r: Option<(seq<Node>, nat)>, ghost vs: seq<Value>)
    ensures r.Some? ==> AllWellFormed(vs, depth) && NoEndOfContents(vs) && r.value.0 == NormAll(vs)
    ensures r.Some? ==> r.value.1 <= |rest| && SerAll(vs) + [0, 0] == rest[..r.value.1]
    ensures r.None? ==> forall ws :: AllWellFormed(ws, depth) && NoEndOfContents(ws) ==> !(SerAll(ws) + [0, 0] <= rest)
    decreases |rest|, 3
  {
    hide Ser, Shape, Norm, Fits, IsEndOfContents, NoValue;
    var children: seq<Node> := [];
    vs := [];
    var offset := 0;
    while true
      invariant ReadsAll(rest, depth, vs, children, offset) && NoEndOfContents(vs)
      decreases |rest| - offset
    {
      var next := rest[offset..];
      if |next| >= 2 && next[0] == 0 && next[1] == 0 {
        offset := offset + 2;
        return Some((children, offset)), vs;
      }
      var p, v := Parse(next, depth);
      if p.None? {
        NoMoreOpen(rest, depth, vs, children, offset);
        return None, vs;
      }
      ReadOneMore(rest, depth, vs, children, offset, v, p.value.0, p.value.1);
      children, vs, offset := children + [p.value.0], vs + [v], offset + p.value.1;
    }
  }

  /** Join a constructed string into one primitive. */
  method Joined(node: Node) returns (r: Node)
    requires |node.tag| >= 1
    ensures r == if node.body.Constructed? then Join(node.tag, node.body.children) else node
  {
    if node.body.Primitive? { return node; }
    var children, first := node.body.children, node.tag[0];
    var eligible := |node.tag| == 1 && (first == OCTET_STRING + CONSTRUCTED || first / 0x40 == 2);
    var allChunks := children != [] && forall i :: 0 <= i < |children| ==> IsChunk(children[i]);
    if !(eligible && allChunks) { return node; }
    var joined := [];
    for i := 0 to |children|
      invariant joined + Chunks(children[i..]) == Chunks(children)
    {
      assert IsChunk(children[i]) && children[i..][1..] == children[i + 1..];
      joined := joined + children[i].body.content;
    }
    assert children[|children|..] == [] && joined + [] == joined;
    return Node([ClearConstructed(first)], Primitive(joined));
  }
}
