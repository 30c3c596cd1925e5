/**
 * The shape check that counts field occurrences on the wire before a request is decoded
 * (`enclave/src/framing.rs`, `parent/src/request_shape.rs`). Keys, varints and skipped fields follow the
 * protobuf wire format as the prost library reads it.
 */
module WireShape {
  import opened Bytes

  const MAX_WIRE_ELEMENTS: nat := 0x8_0000
  const RECURSION_LIMIT: nat := 100

  // ---- Wire format ----

  const VARINT: nat := 0
  const SIXTY_FOUR_BIT: nat := 1
  const LENGTH_DELIMITED: nat := 2
  const START_GROUP: nat := 3
  const END_GROUP: nat := 4

  /** At most ten bytes, and the tenth adds one bit. `i` bytes went before. */
  function VarintFrom(b: seq<u8>, i: nat): (r: Option<(nat, seq<u8>)>)
    ensures r.Some? ==> |r.value.1| < |b|
  {
    if b == [] then None
    else if b[0] < 0x80 then if i == 9 && b[0] >= 2 then None else Some((b[0], b[1..]))
    else if i >= 9 then None
    else
      var rest :- VarintFrom(b[1..], i + 1);
      Some((b[0] - 0x80 + 0x80 * rest.0, rest.1))
  }

  function Varint(b: seq<u8>): (r: Option<(nat, seq<u8>)>)
    ensures r.Some? ==> |r.value.1| < |b|
  {
    VarintFrom(b, 0)
  }

  datatype Key = Key(tag: nat, wire: nat, rest: seq<u8>)

  function ReadKey(b: seq<u8>): (r: Option<Key>)
    ensures r.Some? ==> |r.value.rest| < |b| && r.value.tag >= 1 && r.value.wire <= 5
  {
    var key :- Varint(b);
    if key.0 >= 0x1_0000_0000 || key.0 % 8 > 5 || key.0 < 8 then None else Some(Key(key.0 / 8, key.0 % 8, key.1))
  }

  function Drop(b: seq<u8>, n: nat): (r: Option<seq<u8>>)
    ensures r.Some? ==> |r.value| <= |b|
  {
    if n <= |b| then Some(b[n..]) else None
  }

  /** What is left after a field of this wire type. Groups nest at most `depth` deep. */
  function Skip(wire: nat, tag: nat, b: seq<u8>, depth: nat): (r: Option<seq<u8>>)
    ensures r.Some? ==> |r.value| <= |b|
    decreases |b|, 1
  {
    if depth == 0 then None
    else if wire == VARINT then var v :- Varint(b); Some(v.1)
    else if wire == SIXTY_FOUR_BIT then Drop(b, 8)
    else if wire == LENGTH_DELIMITED then var v :- Varint(b); Drop(v.1, v.0)
    else if wire == START_GROUP then SkipGroup(tag, b, depth)
    else if wire == END_GROUP then None
    else Drop(b, 4)
  }

  function SkipGroup(tag: nat, b: seq<u8>, depth: nat): (r: Option<seq<u8>>)
    requires depth > 0
    ensures r.Some? ==> |r.value| <= |b|
    decreases |b|, 0
  {
    var key :- ReadKey(b);
    if key.wire == END_GROUP then if key.tag == tag then Some(key.rest) else None
    else
      var rest :- Skip(key.wire, key.tag, key.rest, depth - 1);
      SkipGroup(tag, rest, depth)
  }

  // ---- The messages that hold a repeated field ----

  datatype Schema =
    | Request | Sign | RgbSource | MerkleProofEntry | SubmitHeaders
    | ParentSign | ParentSourceProof | ParentRgbSource | ParentMerkleProofEntry
    | Leaf

  function Child(schema: Schema, tag: nat): Schema {
    match schema
    case Request => if tag == 3 then Sign else if tag == 11 then SubmitHeaders else Leaf
    case Sign => if tag == 3 then RgbSource else Leaf
    case RgbSource => if tag == 6 then MerkleProofEntry else Leaf
    case ParentSign => if tag == 2 then ParentSourceProof else Leaf
    case ParentSourceProof => if tag == 11 then ParentRgbSource else Leaf
    case ParentRgbSource => if tag == 5 then ParentMerkleProofEntry else Leaf
    case _ => Leaf
  }

  predicate Entered(schema: Schema, key: Key) { Child(schema, key.tag) != Leaf && key.wire == LENGTH_DELIMITED }

  /** The bytes of a nested message and the bytes after it. */
  function Nested(b: seq<u8>): (r: Option<(seq<u8>, seq<u8>)>)
    ensures r.Some? ==> |r.value.0| < |b| && |r.value.1| < |b|
  {
    var length :- Varint(b);
    if length.0 <= |length.1| then Some((length.1[..length.0], length.1[length.0..])) else None
  }

  /** One field: the message inside it when the walk enters it, and the bytes after it. */
  datatype Field = Field(tag: nat, wire: nat, entered: bool, inside: seq<u8>, after: seq<u8>)

  function NextField(b: seq<u8>, schema: Schema): (r: Option<Field>)
    ensures r.Some? ==> |r.value.inside| < |b| && |r.value.after| < |b|
  {
    var key :- ReadKey(b);
    if Entered(schema, key) then
      var parts :- Nested(key.rest);
      Some(Field(key.tag, key.wire, true, parts.0, parts.1))
    else
      var rest :- Skip(key.wire, key.tag, key.rest, RECURSION_LIMIT);
      Some(Field(key.tag, key.wire, false, [], rest))
  }

  function Sum(a: Option<nat>, b: Option<nat>): Option<nat> {
    if a.Some? && b.Some? then Some(a.value + b.value) else None
  }

  /** The field occurrences of a message, at every depth the schema knows, if it is well formed that far. */
  function Count(b: seq<u8>, schema: Schema): Option<nat>
    decreases |b|
  {
    if b == [] then Some(0) else
    var field :- NextField(b, schema);
    Sum(Some(1), Sum(Count(field.inside, Child(schema, field.tag)), Count(field.after, schema)))
  }

  lemma EmptyCount(schema: Schema)
    ensures Count([], schema) == Some(0)
  {
  }

  lemma CountByField(b: seq<u8>, schema: Schema)
    requires b != []
    ensures var field := NextField(b, schema);
      Count(b, schema) == if field.None? then None else
        Sum(Some(1), Sum(Count(field.value.inside, Child(schema, field.value.tag)), Count(field.value.after, schema)))
  {
    hide NextField, Child, Sum;
  }

  /** The count of a message in terms of its first field, as the walk reads it. */
  lemma CountStep(b: seq<u8>, schema: Schema)
    requires b != []
    ensures ReadKey(b).None? ==> Count(b, schema).None?
    ensures ReadKey(b).Some? ==>
      var key := ReadKey(b).value;
      var rest, parts := Skip(key.wire, key.tag, key.rest, RECURSION_LIMIT), Nested(key.rest);
      if Entered(schema, key) then
        Count(b, schema) == if parts.None? then None
          else Sum(Some(1), Sum(Count(parts.value.0, Child(schema, key.tag)), Count(parts.value.1, schema)))
      else
        Count(b, schema) == if rest.None? then None else Sum(Some(1), Count(rest.value, schema))
  {
    hide ReadKey, Skip, Nested, Child, Count;
    CountByField(b, schema);
    if NextField(b, schema).Some? { EmptyCount(Child(schema, NextField(b, schema).value.tag)); }
  }

  // ---- The walk ----

  datatype Refusal = Malformed | NestedTruncated | TooMany

  /** `walk`: `left` is the budget that remains. */
  method Walk(bytes: seq<u8>, schema: Schema, budget: nat) returns (r: Result<(), Refusal>, left: nat)
    // It gives back the budget less the count, exactly when there is a count and the budget covers it.
    ensures r.Ok? <==> Count(bytes, schema).Some? && Count(bytes, schema).value <= budget
    ensures r.Ok? ==> left == budget - Count(bytes, schema).value
    // A well-formed message over the budget is refused for its size.
    ensures Count(bytes, schema).Some? && Count(bytes, schema).value > budget ==> r == Err(TooMany)
    decreases |bytes|
  {
    hide Skip, Varint, ReadKey, Child, Count;
    EmptyCount(schema);
    left := budget;
    var buf := bytes;
    while buf != []
      invariant |buf| <= |bytes| && left <= budget
      invariant Count(bytes, schema) ==
        if Count(buf, schema).None? then None else Some(budget - left + Count(buf, schema).value)
      decreases |buf|
    {
      CountStep(buf, schema);
      var key := ReadKey(buf);
      if key.None? { return Err(Malformed), left; }
      if left == 0 { return Err(TooMany), left; }
      left := left - 1;
      var child := Child(schema, key.value.tag);
      if child == Leaf || key.value.wire != LENGTH_DELIMITED {
        var rest := Skip(key.value.wire, key.value.tag, key.value.rest, RECURSION_LIMIT);
        if rest.None? { return Err(Malformed), left; }
        buf := rest.value;
      } else {
        var length := Varint(key.value.rest);
        if length.None? { return Err(Malformed), left; }
        if length.value.0 > |length.value.1| { return Err(NestedTruncated), left; }
        var inner, after := length.value.1[..length.value.0], length.value.1[length.value.0..];
        var nested;
        nested, left := Walk(inner, child, left);
        if nested.Err? { return nested, left; }
        buf := after;
      }
    }
    return Ok(()), left;
  }

  method CountRequestElements(frame: seq<u8>, schema: Schema) returns (r: Result<nat, Refusal>)
    ensures forall n :: r == Ok(n) <==> Count(frame, schema) == Some(n) && n <= MAX_WIRE_ELEMENTS
  {
    var walked, left := Walk(frame, schema, MAX_WIRE_ELEMENTS);
    match walked
    case Ok(_) => r := Ok(MAX_WIRE_ELEMENTS - left);
    case Err(e) => r := Err(e);
  }

  // ---- The count is additive ----

  lemma {:induction false} VarintAppend(a: seq<u8>, b: seq<u8>, i: nat)
    requires VarintFrom(a, i).Some?
    ensures VarintFrom(a + b, i) == Some((VarintFrom(a, i).value.0, VarintFrom(a, i).value.1 + b))
    decreases |a|
  {
    assert (a + b)[1..] == a[1..] + b;
    if a[0] >= 0x80 { VarintAppend(a[1..], b, i + 1); }
  }

  lemma KeyAppend(a: seq<u8>, b: seq<u8>)
    requires ReadKey(a).Some?
    ensures ReadKey(a + b) == Some(ReadKey(a).value.(rest := ReadKey(a).value.rest + b))
  {
    hide VarintFrom;
    VarintAppend(a, b, 0);
  }

  lemma DropAppend(a: seq<u8>, b: seq<u8>, n: nat)
    requires Drop(a, n).Some?
    ensures Drop(a + b, n) == Some(Drop(a, n).value + b)
  {
    assert (a + b)[n..] == a[n..] + b;
  }

  lemma {:induction false} SkipAppend(wire: nat, tag: nat, a: seq<u8>, b: seq<u8>, depth: nat)
    requires Skip(wire, tag, a, depth).Some?
    ensures Skip(wire, tag, a + b, depth) == Some(Skip(wire, tag, a, depth).value + b)
    decreases |a|, 1
  {
    hide VarintFrom, Drop;
    if wire == VARINT {
      VarintAppend(a, b, 0);
    } else if wire == SIXTY_FOUR_BIT {
      DropAppend(a, b, 8);
    } else if wire == LENGTH_DELIMITED {
      VarintAppend(a, b, 0);
      DropAppend(Varint(a).value.1, b, Varint(a).value.0);
    } else if wire == START_GROUP {
      SkipGroupAppend(tag, a, b, depth);
    } else {
      DropAppend(a, b, 4);
    }
  }

  lemma {:induction false} SkipGroupAppend(tag: nat, a: seq<u8>, b: seq<u8>, depth: nat)
    requires depth > 0 && SkipGroup(tag, a, depth).Some?
    ensures SkipGroup(tag, a + b, depth) == Some(SkipGroup(tag, a, depth).value + b)
    decreases |a|, 0
  {
    hide ReadKey, Skip;
    KeyAppend(a, b);
    var key := ReadKey(a).value;
    if key.wire != END_GROUP {
      SkipAppend(key.wire, key.tag, key.rest, b, depth - 1);
      SkipGroupAppend(tag, Skip(key.wire, key.tag, key.rest, depth - 1).value, b, depth);
    }
  }

  lemma NestedAppend(a: seq<u8>, b: seq<u8>)
    requires Nested(a).Some?
    ensures Nested(a + b) == Some((Nested(a).value.0, Nested(a).value.1 + b))
  {
    hide VarintFrom;
    VarintAppend(a, b, 0);
    var (n, rest) := Varint(a).value;
    assert (rest + b)[..n] == rest[..n] && (rest + b)[n..] == rest[n..] + b;
  }

  lemma FieldAppend(a: seq<u8>, b: seq<u8>, schema: Schema)
    requires NextField(a, schema).Some?
    ensures NextField(a + b, schema) == Some(NextField(a, schema).value.(after := NextField(a, schema).value.after + b))
  {
    hide ReadKey, Skip, Nested, Child;
    KeyAppend(a, b);
    var key := ReadKey(a).value;
    if Entered(schema, key) {
      NestedAppend(key.rest, b);
    } else {
      SkipAppend(key.wire, key.tag, key.rest, b, RECURSION_LIMIT);
    }
  }

  /** Fields written one after the other count for themselves. */
  lemma {:induction false} CountIsAdditive(a: seq<u8>, b: seq<u8>, schema: Schema)
    requires Count(a, schema).Some?
    ensures Count(a + b, schema) == Sum(Count(a, schema), Count(b, schema))
    decreases |a|
  {
    hide NextField, Child, Count;
    if a == [] {
      EmptyCount(schema);
      assert a + b == b;
    } else {
      CountByField(a, schema);
      CountByField(a + b, schema);
      FieldAppend(a, b, schema);
      CountIsAdditive(NextField(a, schema).value.after, b, schema);
    }
  }

  // ---- What a decode builds ----

  /**
   * A decoded message, as far as repeated elements go: its list, and the one message field it may hold, which is
   * either a singular field or a member of a oneof.
   */
  datatype Msg = Msg(items: seq<Msg>, slot: Option<Slot>)
  datatype Slot = Slot(tag: nat, msg: Msg)

  const EMPTY: Msg := Msg([], None)

  /** The repeated field of a message, if it has one. */
  function RepeatedTag(schema: Schema): nat {
    match schema
    case RgbSource => 6
    case ParentRgbSource => 5
    case MerkleProofEntry => 4
    case ParentMerkleProofEntry => 4
    case SubmitHeaders => 1
    case _ => 0
  }

  /** The message, and how many elements were pushed to lists on the way, kept or not. */
  datatype Built = Built(msg: Msg, pushed: nat)

  /**
   * Decodes onto `into`: a repeated field appends, a message field merges into the one that is there, and
   * another member of a oneof replaces it. `clears` says which fields are such members; nothing depends on which.
   */
  function Decode(b: seq<u8>, schema: Schema, into: Msg, clears: (Schema, nat) -> bool): Option<Built>
    decreases |b|
  {
    if b == [] then Some(Built(into, 0)) else
    var field :- NextField(b, schema);
    if field.tag == RepeatedTag(schema) then
      if field.wire != LENGTH_DELIMITED then None else
      var item :- Decode(field.inside, Child(schema, field.tag), EMPTY, clears);
      var more :- Decode(field.after, schema, into.(items := into.items + [item.msg]), clears);
      Some(Built(more.msg, 1 + item.pushed + more.pushed))
    else if field.entered then
      var inner :- Decode(field.inside, Child(schema, field.tag), Held(into, field.tag), clears);
      var more :- Decode(field.after, schema, into.(slot := Some(Slot(field.tag, inner.msg))), clears);
      Some(Built(more.msg, inner.pushed + more.pushed))
    else if Child(schema, field.tag) != Leaf then None
    else Decode(field.after, schema, if clears(schema, field.tag) then into.(slot := None) else into, clears)
  }

  /** What a message field merges into. */
  function Held(m: Msg, tag: nat): Msg {
    if m.slot.Some? && m.slot.value.tag == tag then m.slot.value.msg else EMPTY
  }

  /** The elements of every list in the message. */
  function Elements(m: Msg): nat {
    ElementsAll(m.items) + if m.slot.Some? then Elements(m.slot.value.msg) else 0
  }

  function ElementsAll(s: seq<Msg>): nat {
    if s == [] then 0 else 1 + Elements(s[0]) + ElementsAll(s[1..])
  }

  lemma {:induction false} ElementsAppend(s: seq<Msg>, m: Msg)
    ensures ElementsAll(s + [m]) == ElementsAll(s) + 1 + Elements(m)
  {
    if s == [] {
      assert s + [m] == [m];
      assert ElementsAll([m]) == 1 + Elements(m) + ElementsAll([]);
    } else {
      ElementsAppend(s[1..], m);
      assert (s + [m])[1..] == s[1..] + [m];
    }
  }

  lemma NoElements()
    ensures Elements(EMPTY) == 0
  {
    assert ElementsAll([]) == 0;
  }

  lemma SkippedIsEmpty(b: seq<u8>, schema: Schema)
    requires NextField(b, schema).Some? && !NextField(b, schema).value.entered
    ensures NextField(b, schema).value.inside == []
  {
  }

  lemma ElementsPushed(m: Msg, item: Msg)
    ensures Elements(m.(items := m.items + [item])) == Elements(m) + 1 + Elements(item)
  {
    ElementsAppend(m.items, item);
  }

  lemma ElementsHeld(m: Msg, tag: nat, held: Msg)
    ensures Elements(m.(slot := Some(Slot(tag, held)))) <= Elements(m) - Elements(Held(m, tag)) + Elements(held)
    ensures Elements(m.(slot := None)) <= Elements(m) && Elements(Held(m, tag)) <= Elements(m)
  {
  }

  /** What decodes has a count. Decoding pushes no more elements than that, and keeps no more than it pushed. */
  lemma {:induction false} BuildsAtMostTheCount(b: seq<u8>, schema: Schema, into: Msg, clears: (Schema, nat) -> bool)
    requires Decode(b, schema, into, clears).Some?
    ensures Count(b, schema).Some?
    ensures var d := Decode(b, schema, into, clears).value;
      d.pushed <= Count(b, schema).value && Elements(d.msg) <= Elements(into) + d.pushed
    decreases |b|
  {
    hide NextField, Child, RepeatedTag, Elements, ElementsAll, Held, Count;
    assert Elements(EMPTY) == 0 by { NoElements(); }
    if b == [] {
      EmptyCount(schema);
    } else {
      CountByField(b, schema);
      var field := NextField(b, schema).value;
      var child := Child(schema, field.tag);
      if field.tag == RepeatedTag(schema) {
        BuildsAtMostTheCount(field.inside, child, EMPTY, clears);
        var item := Decode(field.inside, child, EMPTY, clears).value.msg;
        ElementsPushed(into, item);
        BuildsAtMostTheCount(field.after, schema, into.(items := into.items + [item]), clears);
      } else if field.entered {
        BuildsAtMostTheCount(field.inside, child, Held(into, field.tag), clears);
        var inner := Decode(field.inside, child, Held(into, field.tag), clears).value.msg;
        ElementsHeld(into, field.tag, inner);
        BuildsAtMostTheCount(field.after, schema, into.(slot := Some(Slot(field.tag, inner))), clears);
      } else {
        SkippedIsEmpty(b, schema);
        EmptyCount(child);
        ElementsHeld(into, field.tag, EMPTY);
        BuildsAtMostTheCount(
          field.after, schema, if clears(schema, field.tag) then into.(slot := None) else into, clears);
      }
    }
  }

  /**
   * The check refuses a frame that decodes for its size alone, and one that passes decodes to at most 2^19
   * elements.
   */
  lemma AcceptedFrameIsBounded(frame: seq<u8>, schema: Schema, clears: (Schema, nat) -> bool)
    requires Decode(frame, schema, EMPTY, clears).Some?
    ensures Count(frame, schema).Some?
    ensures var d, n := Decode(frame, schema, EMPTY, clears).value, Count(frame, schema).value;
      Elements(d.msg) <= d.pushed <= n && (n <= MAX_WIRE_ELEMENTS ==> Elements(d.msg) <= MAX_WIRE_ELEMENTS)
  {
    hide Decode, Count;
    BuildsAtMostTheCount(frame, schema, EMPTY, clears);
    NoElements();
  }

  /** Outside `Sign` the parent walks any request as a leaf, which counts the same as its own schema would. */
  lemma {:induction false} HeadersCountAsLeaf(b: seq<u8>)
    ensures Count(b, Leaf) == Count(b, SubmitHeaders)
    decreases |b|
  {
    hide ReadKey, Skip, Nested;
    if b != [] && NextField(b, Leaf).Some? { HeadersCountAsLeaf(NextField(b, Leaf).value.after); }
  }
}
