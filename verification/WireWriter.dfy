/**
 * Requests written field by field, with the field numbers of `enclave-proto/proto/enclave.proto` and of the parent's
 * request messages, and what the shape check counts in them. The writer knows nothing of how a message is read.
 */
module WireWriter {
  import opened Bytes
  import opened WireShape

  datatype Field =
    | Number(tag: nat, value: nat)
    | EightBytes(tag: nat, content: seq<u8>)
    | Octets(tag: nat, content: seq<u8>)
    | Message(tag: nat, fields: seq<Field>)
    | Group(tag: nat, fields: seq<Field>)
    | FourBytes(tag: nat, content: seq<u8>)

  // ---- The writer ----

  /** Base 128, least significant digit first; all digits but the last have the high bit set. */
  function WriteVarint(v: nat): (s: seq<u8>)
    ensures s != []
  {
    if v < 128 then [v] else [128 + v % 128] + WriteVarint(v / 128)
  }

  function WriteKey(tag: nat, wire: nat): seq<u8> { WriteVarint(8 * tag + wire) }

  function WriteSized(content: seq<u8>): seq<u8> { WriteVarint(|content|) + content }

  function WriteField(f: Field): seq<u8>
    decreases f, 1
  {
    match f
    case Number(tag, value) => WriteKey(tag, 0) + WriteVarint(value)
    case EightBytes(tag, content) => WriteKey(tag, 1) + content
    case Octets(tag, content) => WriteKey(tag, 2) + WriteSized(content)
    case Message(tag, fields) => WriteKey(tag, 2) + WriteSized(Write(fields))
    case Group(tag, fields) => WriteKey(tag, 3) + (Write(fields) + WriteKey(tag, 4))
    case FourBytes(tag, content) => WriteKey(tag, 5) + content
  }

  function Write(fs: seq<Field>): seq<u8>
    decreases fs, 0
  {
    if fs == [] then [] else WriteField(fs[0]) + Write(fs[1..])
  }

  /** The field occurrences written, at every level of messages. */
  function Occurrences(fs: seq<Field>): nat {
    if fs == [] then 0
    else 1 + (if fs[0].Message? then Occurrences(fs[0].fields) else 0) + Occurrences(fs[1..])
  }

  /** A field that the wire format can carry: 29-bit tags, 64-bit numbers and lengths. */
  predicate Legal(f: Field) {
    && 1 <= f.tag < 0x2000_0000
    && match f
       case Number(_, value) => value < 0x1_0000_0000_0000_0000
       case EightBytes(_, content) => |content| == 8
       case Octets(_, content) => |content| < 0x1_0000_0000_0000_0000
       case Message(_, fields) =>
         |Write(fields)| < 0x1_0000_0000_0000_0000 && forall i :: 0 <= i < |fields| ==> Legal(fields[i])
       case Group(_, fields) => forall i :: 0 <= i < |fields| ==> Legal(fields[i])
       case FourBytes(_, content) => |content| == 4
  }

  /** Groups nest less than `depth` deep. */
  predicate Shallow(f: Field, depth: nat) {
    depth > 0 && (f.Group? ==> forall i :: 0 <= i < |f.fields| ==> Shallow(f.fields[i], depth - 1))
  }

  predicate Ok(f: Field) { Legal(f) && Shallow(f, 100) }

  // ---- The request messages, by field number ----

  /** Fields whose messages are those numbered in `messages`, and no others. */
  predicate Messages(fs: seq<Field>, messages: set<nat>) {
    forall i :: 0 <= i < |fs| ==>
      Ok(fs[i]) && (fs[i].Message? ==> fs[i].tag in messages) && (fs[i].Octets? ==> fs[i].tag !in messages)
  }

  /** A message that holds no messages: `MerkleProofEntry`, `SubmitHeadersRequest`. */
  predicate PlainFields(fs: seq<Field>) { Messages(fs, {}) }

  /** `RgbSource`: 6 is `merkle_proofs`. */
  predicate RgbFields(fs: seq<Field>) {
    Messages(fs, {6}) && forall i :: 0 <= i < |fs| && fs[i].Message? ==> PlainFields(fs[i].fields)
  }

  /** `SignRequest`: 3 is `rgb_source`. */
  predicate SignFields(fs: seq<Field>) {
    Messages(fs, {3}) && forall i :: 0 <= i < |fs| && fs[i].Message? ==> RgbFields(fs[i].fields)
  }

  /** `EnclaveRequest`: 3 is `sign`, 11 is `submit_headers`. */
  predicate RequestFields(fs: seq<Field>) {
    Messages(fs, {3, 11}) && forall i :: 0 <= i < |fs| && fs[i].Message? ==>
      if fs[i].tag == 3 then SignFields(fs[i].fields) else PlainFields(fs[i].fields)
  }

  /** The parent's `RgbSource`: 5 is `merkle_proofs`. */
  predicate ParentRgbFields(fs: seq<Field>) {
    Messages(fs, {5}) && forall i :: 0 <= i < |fs| && fs[i].Message? ==> PlainFields(fs[i].fields)
  }

  /** The parent's `SourceProof`: 11 is `rgb`. */
  predicate ParentSourceFields(fs: seq<Field>) {
    Messages(fs, {11}) && forall i :: 0 <= i < |fs| && fs[i].Message? ==> ParentRgbFields(fs[i].fields)
  }

  /** The parent's `SignRequest`: 2 is `source`. */
  predicate ParentSignFields(fs: seq<Field>) {
    Messages(fs, {2}) && forall i :: 0 <= i < |fs| && fs[i].Message? ==> ParentSourceFields(fs[i].fields)
  }

  // ---- Reading back what was written ----

  /** What `i` bytes of a 64-bit varint leave for the rest. */
  function Room(i: nat): nat
    requires i <= 9
    decreases 9 - i
  {
    if i == 9 then 2 else 128 * Room(i + 1)
  }

  lemma RoomForAll()
    ensures Room(0) == 0x1_0000_0000_0000_0000
  {
    assert Room(7) == 128 * Room(8) == 128 * (128 * Room(9)) == 32768;
    assert Room(5) == 128 * Room(6) == 128 * (128 * Room(7));
    assert Room(3) == 128 * Room(4) == 128 * (128 * Room(5));
    assert Room(1) == 128 * Room(2) == 128 * (128 * Room(3));
    assert Room(0) == 128 * Room(1);
  }

  lemma {:induction false} VarintReads(v: nat, rest: seq<u8>, i: nat)
    requires i <= 9 && v < Room(i)
    ensures VarintFrom(WriteVarint(v) + rest, i) == Some((v, rest))
    decreases v
  {
    var b := WriteVarint(v) + rest;
    if v < 128 {
      assert b[0] == v && b[1..] == rest;
    } else {
      assert Room(9) == 2;
      VarintReads(v / 128, rest, i + 1);
      assert b[0] == 128 + v % 128 && b[1..] == WriteVarint(v / 128) + rest;
    }
  }

  lemma WrittenVarint(v: nat, rest: seq<u8>)
    requires v < 0x1_0000_0000_0000_0000
    ensures Varint(WriteVarint(v) + rest) == Some((v, rest))
  {
    hide VarintFrom, WriteVarint;
    RoomForAll();
    VarintReads(v, rest, 0);
  }

  lemma WrittenKey(tag: nat, wire: nat, rest: seq<u8>)
    requires 1 <= tag < 0x2000_0000 && wire <= 5
    ensures ReadKey(WriteKey(tag, wire) + rest) == Some(Key(tag, wire, rest))
  {
    hide Varint, WriteVarint;
    WrittenVarint(8 * tag + wire, rest);
    assert (8 * tag + wire) / 8 == tag && (8 * tag + wire) % 8 == wire;
  }

  lemma WrittenSized(content: seq<u8>, rest: seq<u8>)
    requires |content| < 0x1_0000_0000_0000_0000
    ensures Varint(WriteSized(content) + rest) == Some((|content|, content + rest))
    ensures Nested(WriteSized(content) + rest) == Some((content, rest))
  {
    hide Varint, WriteVarint;
    WrittenVarint(|content|, content + rest);
    ConcatAssoc(WriteVarint(|content|), content, rest);
    assert (content + rest)[..|content|] == content && (content + rest)[|content|..] == rest;
  }

  /** The wire type of a field and what follows its key. */
  function Wire(f: Field): nat {
    match f
    case Number(_, _) => 0
    case EightBytes(_, _) => 1
    case Octets(_, _) => 2
    case Message(_, _) => 2
    case Group(_, _) => 3
    case FourBytes(_, _) => 5
  }

  function Payload(f: Field): seq<u8> {
    match f
    case Number(_, value) => WriteVarint(value)
    case EightBytes(_, content) => content
    case Octets(_, content) => WriteSized(content)
    case Message(_, fields) => WriteSized(Write(fields))
    case Group(tag, fields) => Write(fields) + WriteKey(tag, 4)
    case FourBytes(_, content) => content
  }

  lemma FieldReads(f: Field, rest: seq<u8>)
    requires Legal(f)
    ensures ReadKey(WriteField(f) + rest) == Some(Key(f.tag, Wire(f), Payload(f) + rest))
  {
    hide ReadKey, WriteKey, WriteSized, WriteVarint, Write;
    assert WriteField(f) == WriteKey(f.tag, Wire(f)) + Payload(f);
    ConcatAssoc(WriteKey(f.tag, Wire(f)), Payload(f), rest);
    WrittenKey(f.tag, Wire(f), Payload(f) + rest);
  }

  predicate AllShallow(fs: seq<Field>, depth: nat) { forall i :: 0 <= i < |fs| ==> Shallow(fs[i], depth) }

  lemma {:induction false} SkipsWritten(f: Field, rest: seq<u8>, depth: nat)
    requires Legal(f)
    ensures Skip(Wire(f), f.tag, Payload(f) + rest, depth) == if Shallow(f, depth) then Some(rest) else None
    decreases f, 1
  {
    hide Varint, WriteVarint, WriteSized, Write, SkipGroup;
    match f
    case Number(_, value) => WrittenVarint(value, rest);
    case EightBytes(_, content) => Dropped(content, rest);
    case Octets(_, content) =>
      WrittenSized(content, rest);
      Dropped(content, rest);
    case Message(_, fields) =>
      WrittenSized(Write(fields), rest);
      Dropped(Write(fields), rest);
    case Group(tag, fields) =>
      ConcatAssoc(Write(fields), WriteKey(tag, 4), rest);
      if depth > 0 { SkipsGroup(tag, fields, rest, depth); }
    case FourBytes(_, content) => Dropped(content, rest);
  }

  lemma Dropped(content: seq<u8>, rest: seq<u8>)
    ensures Drop(content + rest, |content|) == Some(rest)
  {
    assert (content + rest)[|content|..] == rest;
  }

  lemma {:induction false} SkipsGroup(tag: nat, fs: seq<Field>, rest: seq<u8>, depth: nat)
    requires 1 <= tag < 0x2000_0000 && depth > 0
    requires forall i :: 0 <= i < |fs| ==> Legal(fs[i])
    ensures SkipGroup(tag, Write(fs) + (WriteKey(tag, 4) + rest), depth) ==
      if AllShallow(fs, depth - 1) then Some(rest) else None
    decreases fs, 0
  {
    var end := WriteKey(tag, 4) + rest;
    var b := Write(fs) + end;
    if fs == [] {
      assert b == end;
      WrittenKey(tag, 4, rest);
    } else {
      var f, more := fs[0], Write(fs[1..]) + end;
      SkipsWritten(f, more, depth - 1);
      SkipsGroup(tag, fs[1..], rest, depth);
      FirstShallow(fs, depth - 1);
      hide Skip, ReadKey, WriteField, WriteKey, Legal, Shallow, AllShallow;
      assert b == WriteField(f) + more;
      FieldReads(f, more);
    }
  }

  lemma FirstShallow(fs: seq<Field>, depth: nat)
    requires fs != []
    ensures AllShallow(fs, depth) <==> Shallow(fs[0], depth) && AllShallow(fs[1..], depth)
  {
    hide Shallow;
    assert forall i :: 1 <= i < |fs| ==> fs[i] == fs[1..][i - 1];
  }

  // ---- The count of what was written ----

  /** The fields fit `schema`: what the walk would enter is a message, and nothing else is. */
  predicate Conforms(fs: seq<Field>, schema: Schema) {
    forall i :: 0 <= i < |fs| ==> FieldConforms(fs[i], schema)
  }

  predicate FieldConforms(f: Field, schema: Schema) {
    && Ok(f) && (f.Octets? ==> Child(schema, f.tag) == Leaf)
    && (f.Message? ==> Child(schema, f.tag) != Leaf && Conforms(f.fields, Child(schema, f.tag)))
  }

  lemma {:induction false} CountsField(f: Field, schema: Schema)
    requires FieldConforms(f, schema)
    ensures Count(WriteField(f), schema) == Some(1 + if f.Message? then Occurrences(f.fields) else 0)
    decreases f, 1
  {
    var b, payload := WriteField(f), Payload(f);
    hide Count, Child, ReadKey, Skip, Nested, WriteField, Payload, Occurrences;
    assert b + [] == b && payload + [] == payload;
    FieldReads(f, []);
    assert b != [];
    CountStep(b, schema);
    EmptyCount(schema);
    if f.Message? {
      CountsWritten(f.fields, Child(schema, f.tag));
      MessageReads(f);
    } else {
      SkipsWritten(f, [], 100);
    }
  }

  lemma MessageReads(f: Field)
    requires Legal(f) && f.Message?
    ensures Nested(Payload(f)) == Some((Write(f.fields), [])) && Wire(f) == 2
  {
    hide Nested, Write, WriteSized;
    assert Payload(f) + [] == Payload(f);
    WrittenSized(Write(f.fields), []);
  }

  lemma {:induction false} CountsWritten(fs: seq<Field>, schema: Schema)
    requires Conforms(fs, schema)
    ensures Count(Write(fs), schema) == Some(Occurrences(fs))
    decreases fs, 0
  {
    hide Count, WriteField;
    if fs == [] {
      EmptyCount(schema);
    } else {
      CountsField(fs[0], schema);
      CountsWritten(fs[1..], schema);
      CountIsAdditive(WriteField(fs[0]), Write(fs[1..]), schema);
    }
  }

  // ---- The request messages ----

  lemma PlainConforms(fs: seq<Field>, schema: Schema)
    requires PlainFields(fs)
    requires schema == MerkleProofEntry || schema == SubmitHeaders || schema == ParentMerkleProofEntry
    ensures Conforms(fs, schema)
  {
    hide Ok;
  }

  lemma AllConform(fs: seq<Field>, schema: Schema, messages: set<nat>)
    requires Messages(fs, messages) && forall tag :: tag in messages <==> Child(schema, tag) != Leaf
    requires forall i :: 0 <= i < |fs| && fs[i].Message? ==> Conforms(fs[i].fields, Child(schema, fs[i].tag))
    ensures Conforms(fs, schema)
  {
    hide Ok;
  }

  lemma RgbConforms(fs: seq<Field>)
    requires RgbFields(fs)
    ensures Conforms(fs, RgbSource)
  {
    hide Conforms, PlainFields, Ok;
    forall i | 0 <= i < |fs| && fs[i].Message? ensures Conforms(fs[i].fields, MerkleProofEntry) {
      PlainConforms(fs[i].fields, MerkleProofEntry);
    }
    AllConform(fs, RgbSource, {6});
  }

  lemma SignConforms(fs: seq<Field>)
    requires SignFields(fs)
    ensures Conforms(fs, Sign)
  {
    hide Conforms, RgbFields, Ok;
    forall i | 0 <= i < |fs| && fs[i].Message? ensures Conforms(fs[i].fields, RgbSource) { RgbConforms(fs[i].fields); }
    AllConform(fs, Sign, {3});
  }

  lemma RequestConforms(fs: seq<Field>)
    requires RequestFields(fs)
    ensures Conforms(fs, Request)
  {
    hide Conforms, SignFields, PlainFields, Ok;
    forall i | 0 <= i < |fs| && fs[i].Message? ensures Conforms(fs[i].fields, Child(Request, fs[i].tag)) {
      if fs[i].tag == 3 { SignConforms(fs[i].fields); } else { PlainConforms(fs[i].fields, SubmitHeaders); }
    }
    AllConform(fs, Request, {3, 11});
  }

  lemma ParentRgbConforms(fs: seq<Field>)
    requires ParentRgbFields(fs)
    ensures Conforms(fs, ParentRgbSource)
  {
    hide Conforms, PlainFields, Ok;
    forall i | 0 <= i < |fs| && fs[i].Message? ensures Conforms(fs[i].fields, ParentMerkleProofEntry) {
      PlainConforms(fs[i].fields, ParentMerkleProofEntry);
    }
    AllConform(fs, ParentRgbSource, {5});
  }

  lemma ParentSourceConforms(fs: seq<Field>)
    requires ParentSourceFields(fs)
    ensures Conforms(fs, ParentSourceProof)
  {
    hide Conforms, ParentRgbFields, Ok;
    forall i | 0 <= i < |fs| && fs[i].Message? ensures Conforms(fs[i].fields, ParentRgbSource) {
      ParentRgbConforms(fs[i].fields);
    }
    AllConform(fs, ParentSourceProof, {11});
  }

  lemma ParentSignConforms(fs: seq<Field>)
    requires ParentSignFields(fs)
    ensures Conforms(fs, ParentSign)
  {
    hide Conforms, ParentSourceFields, Ok;
    forall i | 0 <= i < |fs| && fs[i].Message? ensures Conforms(fs[i].fields, ParentSourceProof) {
      ParentSourceConforms(fs[i].fields);
    }
    AllConform(fs, ParentSign, {2});
  }

  /** The enclave counts exactly the field occurrences of every request that can be written. */
  lemma CountsEveryOccurrence(fs: seq<Field>)
    requires RequestFields(fs)
    ensures Count(Write(fs), Request) == Some(Occurrences(fs))
  {
    RequestConforms(fs);
    CountsWritten(fs, Request);
  }

  /** So does the parent: a `Sign` request by its own field numbers, any other request as one flat message. */
  lemma ParentCountsEveryOccurrence(fs: seq<Field>)
    ensures ParentSignFields(fs) ==> Count(Write(fs), ParentSign) == Some(Occurrences(fs))
    ensures PlainFields(fs) ==> Count(Write(fs), Leaf) == Some(Occurrences(fs)) == Some(|fs|)
  {
    if ParentSignFields(fs) {
      ParentSignConforms(fs);
      CountsWritten(fs, ParentSign);
    }
    if PlainFields(fs) {
      PlainConforms(fs, SubmitHeaders);
      CountsWritten(fs, SubmitHeaders);
      HeadersCountAsLeaf(Write(fs));
      PlainOccurrences(fs);
    }
  }

  lemma {:induction false} PlainOccurrences(fs: seq<Field>)
    requires forall i :: 0 <= i < |fs| ==> !fs[i].Message?
    ensures Occurrences(fs) == |fs|
  {
    if fs != [] { PlainOccurrences(fs[1..]); }
  }

  /** A group counts once, and is refused when groups nest a hundred deep. */
  lemma GroupsCountOnce(f: Field, schema: Schema)
    requires Legal(f) && f.Group?
    ensures Count(WriteField(f), schema) == if Shallow(f, 100) then Some(1) else None
  {
    var b, payload := WriteField(f), Payload(f);
    hide Count, ReadKey, Skip, Nested, WriteField, Payload;
    assert b + [] == b && payload + [] == payload;
    FieldReads(f, []);
    CountStep(b, schema);
    EmptyCount(schema);
    SkipsWritten(f, [], 100);
  }

  // ---- The frame at the limit ----

  function Copies(f: Field, n: nat): (fs: seq<Field>)
    ensures |fs| == n && forall i :: 0 <= i < n ==> fs[i] == f
  {
    if n == 0 then [] else [f] + Copies(f, n - 1)
  }

  /** A proof that holds one empty path element: four bytes and two occurrences. */
  const SMALL_PROOF: Field := Message(6, [Octets(4, [])])

  function ProofFrame(n: nat): seq<Field> { [Message(3, [Message(3, Copies(SMALL_PROOF, n))])] }

  lemma SmallProof()
    ensures WriteField(SMALL_PROOF) == [0x32, 0x02, 0x22, 0x00]
    ensures Ok(SMALL_PROOF) && PlainFields(SMALL_PROOF.fields) && Occurrences(SMALL_PROOF.fields) == 1
  {
    var item := Octets(4, []);
    assert WriteField(item) == [0x22, 0x00];
    assert Write([item]) == WriteField(item) + Write([]) == [0x22, 0x00];
    assert Legal(item) && Legal(SMALL_PROOF);
    assert Occurrences([item]) == 1 + Occurrences([]);
  }

  lemma {:induction false} SmallProofs(n: nat)
    ensures |Write(Copies(SMALL_PROOF, n))| == 4 * n && Occurrences(Copies(SMALL_PROOF, n)) == 2 * n
  {
    if n > 0 {
      var fs := Copies(SMALL_PROOF, n);
      assert fs[1..] == Copies(SMALL_PROOF, n - 1);
      SmallProof();
      SmallProofs(n - 1);
    }
  }

  /** `n` small proofs count 2 + 2n, so the check accepts up to 262143 of them, whose frame is about 1 MiB. */
  lemma ProofFrameCount(n: nat)
    requires n < 0x1000_0000
    ensures Count(Write(ProofFrame(n)), Request) == Some(2 + 2 * n)
    ensures 2 + 2 * n <= MAX_WIRE_ELEMENTS <==> n <= 262143
  {
    var proofs := Copies(SMALL_PROOF, n);
    SmallProof();
    SmallProofs(n);
    hide WriteVarint, Occurrences, Count;
    VarintLength(4 * n);
    var rgb := Message(3, proofs);
    SingleMessage(3, proofs);
    assert RgbFields(proofs);
    SingleMessage(3, [rgb]);
    assert SignFields([rgb]);
    assert RequestFields(ProofFrame(n));
    CountsEveryOccurrence(ProofFrame(n));
  }

  lemma {:induction false} VarintLength(v: nat)
    ensures |WriteVarint(v)| <= 1 + v
  {
    if v >= 128 { VarintLength(v / 128); }
  }

  /** One message around legal fields. */
  lemma SingleMessage(tag: nat, fs: seq<Field>)
    requires 1 <= tag < 16 && |Write(fs)| < 0x1000_0000_0000 && forall i :: 0 <= i < |fs| ==> Legal(fs[i])
    ensures Ok(Message(tag, fs)) && Occurrences([Message(tag, fs)]) == 1 + Occurrences(fs)
    ensures |Write([Message(tag, fs)])| <= 2 * |Write(fs)| + 2
  {
    var f := Message(tag, fs);
    VarintLength(|Write(fs)|);
    assert Write([f]) == WriteField(f) + Write([]);
    assert Occurrences([f]) == 1 + Occurrences(fs) + Occurrences([]);
  }

  // ---- What a decode of written fields builds ----

  /** The occurrences of fields under a path of field numbers. */
  function At(fs: seq<Field>, path: seq<nat>): nat
    requires path != []
  {
    if fs == [] then 0
    else (if fs[0].tag != path[0] then 0 else if |path| == 1 then 1
          else if fs[0].Message? then At(fs[0].fields, path[1..]) else 0)
         + At(fs[1..], path)
  }

  /** Along `path`, fields are written as sized bytes, as message and bytes fields are. */
  predicate Sized(fs: seq<Field>, path: seq<nat>) {
    path == [] || forall i :: 0 <= i < |fs| && fs[i].tag == path[0] ==>
      fs[i].Octets? || (fs[i].Message? && Sized(fs[i].fields, path[1..]))
  }

  predicate Decodable(fs: seq<Field>, schema: Schema) {
    forall i :: 0 <= i < |fs| ==>
      && (fs[i].tag == RepeatedTag(schema) || Child(schema, fs[i].tag) != Leaf ==> fs[i].Octets? || fs[i].Message?)
      && (fs[i].Message? ==> Decodable(fs[i].fields, Child(schema, fs[i].tag)))
  }

  function Items(fs: seq<Field>, schema: Schema): nat {
    if fs == [] then 0
    else (if fs[0].tag == RepeatedTag(schema) then 1 else 0)
         + (if fs[0].Message? then Items(fs[0].fields, Child(schema, fs[0].tag)) else 0) + Items(fs[1..], schema)
  }

  lemma NextWritten(f: Field, rest: seq<u8>, schema: Schema)
    requires FieldConforms(f, schema)
    ensures NextField(WriteField(f) + rest, schema) ==
      Some(WireShape.Field(f.tag, Wire(f), f.Message?, if f.Message? then Write(f.fields) else [], rest))
  {
    hide ReadKey, Skip, Nested, WriteField, Child, Conforms, Write, WriteSized;
    FieldReads(f, rest);
    if f.Message? {
      WrittenSized(Write(f.fields), rest);
    } else {
      SkipsWritten(f, rest, 100);
    }
  }

  predicate FieldDecodable(f: Field, schema: Schema) {
    f.tag == RepeatedTag(schema) || Child(schema, f.tag) != Leaf ==> f.Octets? || f.Message?
  }

  /** What the fields of a message decode onto. */
  function Onto(f: Field, schema: Schema, into: Msg): Msg {
    if f.tag == RepeatedTag(schema) then EMPTY else Held(into, f.tag)
  }

  /** A decode after its first field goes on with some `m`, and counts the elements of that field. */
  lemma DecodesField(f: Field, rest: seq<u8>, schema: Schema, into: Msg, clears: (Schema, nat) -> bool, n: nat)
      returns (m: Msg)
    requires FieldConforms(f, schema) && FieldDecodable(f, schema)
    requires
      if f.Message? then
        var d := Decode(Write(f.fields), Child(schema, f.tag), Onto(f, schema, into), clears);
        d.Some? && d.value.pushed == n
      else n == 0
    ensures Decode(rest, schema, m, clears).Some? ==>
      var more, d := Decode(rest, schema, m, clears).value, Decode(WriteField(f) + rest, schema, into, clears);
      d.Some? && d.value.pushed == (if f.tag == RepeatedTag(schema) then 1 else 0) + n + more.pushed
  {
    var b, child := WriteField(f) + rest, Child(schema, f.tag);
    NextWritten(f, rest, schema);
    FieldReads(f, rest);
    hide NextField, WriteField, Child, RepeatedTag, Held, Conforms, Legal, Shallow, ReadKey, Write;
    assert b != [];
    if f.tag == RepeatedTag(schema) {
      assert Wire(f) == 2;
      var item := Decode(if f.Message? then Write(f.fields) else [], child, EMPTY, clears);
      m := into.(items := into.items + [item.value.msg]);
    } else if f.Message? {
      var inner := Decode(Write(f.fields), child, Held(into, f.tag), clears);
      m := into.(slot := Some(Slot(f.tag, inner.value.msg)));
    } else {
      m := if clears(schema, f.tag) then into.(slot := None) else into;
    }
  }

  lemma {:induction false} DecodesWritten(fs: seq<Field>, schema: Schema, into: Msg, clears: (Schema, nat) -> bool)
    requires Conforms(fs, schema) && Decodable(fs, schema)
    ensures Decode(Write(fs), schema, into, clears).Some?
    ensures Decode(Write(fs), schema, into, clears).value.pushed == Items(fs, schema)
  {
    if fs == [] {
      assert Write(fs) == [] && Items(fs, schema) == 0;
    } else {
      hide Decode, Write, WriteField, RepeatedTag, Onto, Child, Items;
      hide Conforms, FieldConforms, Decodable, FieldDecodable;
      var f, child := fs[0], Child(schema, fs[0].tag);
      FirstDecodable(fs, schema);
      if f.Message? { DecodesWritten(f.fields, child, Onto(f, schema, into), clears); }
      var m := DecodesField(
        f, Write(fs[1..]), schema, into, clears, if f.Message? then Items(f.fields, child) else 0);
      DecodesWritten(fs[1..], schema, m, clears);
    }
  }

  lemma FirstDecodable(fs: seq<Field>, schema: Schema)
    requires fs != [] && Conforms(fs, schema) && Decodable(fs, schema)
    ensures FieldConforms(fs[0], schema) && FieldDecodable(fs[0], schema)
    ensures fs[0].Message? ==>
      var child := Child(schema, fs[0].tag);
      Conforms(fs[0].fields, child) && Decodable(fs[0].fields, child)
    ensures Conforms(fs[1..], schema) && Decodable(fs[1..], schema)
    ensures Write(fs) == WriteField(fs[0]) + Write(fs[1..])
    ensures Items(fs, schema) == (if fs[0].tag == RepeatedTag(schema) then 1 else 0)
      + (if fs[0].Message? then Items(fs[0].fields, Child(schema, fs[0].tag)) else 0) + Items(fs[1..], schema)
  {
    hide RepeatedTag, Child, Ok, WriteField;
  }

  // ---- The lists of each message ----

  lemma {:induction false} LeafItems(fs: seq<Field>, schema: Schema, list: nat)
    requires PlainFields(fs) && RepeatedTag(schema) == list
    ensures Items(fs, schema) == At(fs, [list])
  {
    if fs != [] { LeafItems(fs[1..], schema, list); }
  }

  /** A list of messages that each hold one list. */
  lemma {:induction false} ListItems(fs: seq<Field>, schema: Schema, list: nat, inner: nat)
    requires Messages(fs, {list}) && RepeatedTag(schema) == list && RepeatedTag(Child(schema, list)) == inner
    requires forall i :: 0 <= i < |fs| && fs[i].Message? ==> PlainFields(fs[i].fields)
    ensures Items(fs, schema) == At(fs, [list]) + At(fs, [list, inner])
  {
    if fs != [] {
      ListItems(fs[1..], schema, list, inner);
      if fs[0].Message? { LeafItems(fs[0].fields, Child(schema, list), inner); }
      assert [list, inner][1..] == [inner];
    }
  }

  /** A message whose only message field holds the elements under `p` and `q`. */
  lemma {:induction false} HeldItems(fs: seq<Field>, schema: Schema, held: nat, p: seq<nat>, q: seq<nat>)
    requires Messages(fs, {held}) && RepeatedTag(schema) == 0 && p != [] && q != []
    requires forall i :: 0 <= i < |fs| && fs[i].Message? ==>
      Items(fs[i].fields, Child(schema, held)) == At(fs[i].fields, p) + At(fs[i].fields, q)
    ensures Items(fs, schema) == At(fs, [held] + p) + At(fs, [held] + q)
  {
    hide Child, RepeatedTag;
    if fs != [] {
      HeldItems(fs[1..], schema, held, p, q);
      assert ([held] + p)[1..] == p && ([held] + q)[1..] == q;
    }
  }

  lemma RgbItems(fs: seq<Field>)
    ensures RgbFields(fs) ==> Items(fs, RgbSource) == At(fs, [6]) + At(fs, [6, 4])
    ensures ParentRgbFields(fs) ==> Items(fs, ParentRgbSource) == At(fs, [5]) + At(fs, [5, 4])
  {
    hide Messages, PlainFields, Items, At;
    if RgbFields(fs) { ListItems(fs, RgbSource, 6, 4); }
    if ParentRgbFields(fs) { ListItems(fs, ParentRgbSource, 5, 4); }
  }

  lemma SignItems(fs: seq<Field>)
    requires SignFields(fs)
    ensures Items(fs, Sign) == At(fs, [3, 6]) + At(fs, [3, 6, 4])
  {
    hide Messages, RgbFields, Items, At;
    forall i | 0 <= i < |fs| && fs[i].Message?
      ensures Items(fs[i].fields, RgbSource) == At(fs[i].fields, [6]) + At(fs[i].fields, [6, 4]) {
      RgbItems(fs[i].fields);
    }
    HeldItems(fs, Sign, 3, [6], [6, 4]);
    assert [3] + [6] == [3, 6] && [3] + [6, 4] == [3, 6, 4];
  }

  lemma ParentSourceItems(fs: seq<Field>)
    requires ParentSourceFields(fs)
    ensures Items(fs, ParentSourceProof) == At(fs, [11, 5]) + At(fs, [11, 5, 4])
  {
    hide Messages, ParentRgbFields, Items, At;
    forall i | 0 <= i < |fs| && fs[i].Message?
      ensures Items(fs[i].fields, ParentRgbSource) == At(fs[i].fields, [5]) + At(fs[i].fields, [5, 4]) {
      RgbItems(fs[i].fields);
    }
    HeldItems(fs, ParentSourceProof, 11, [5], [5, 4]);
    assert [11] + [5] == [11, 5] && [11] + [5, 4] == [11, 5, 4];
  }

  lemma ParentSignItems(fs: seq<Field>)
    requires ParentSignFields(fs)
    ensures Items(fs, ParentSign) == At(fs, [2, 11, 5]) + At(fs, [2, 11, 5, 4])
  {
    hide Messages, ParentSourceFields, Items, At;
    forall i | 0 <= i < |fs| && fs[i].Message?
      ensures Items(fs[i].fields, ParentSourceProof) == At(fs[i].fields, [11, 5]) + At(fs[i].fields, [11, 5, 4]) {
      ParentSourceItems(fs[i].fields);
    }
    HeldItems(fs, ParentSign, 2, [11, 5], [11, 5, 4]);
    assert [2] + [11, 5] == [2, 11, 5] && [2] + [11, 5, 4] == [2, 11, 5, 4];
  }

  lemma {:induction false} RequestItems(fs: seq<Field>)
    requires RequestFields(fs)
    ensures Items(fs, Request) == At(fs, [3, 3, 6]) + At(fs, [3, 3, 6, 4]) + At(fs, [11, 1])
  {
    hide SignFields, PlainFields;
    if fs != [] {
      var f := fs[0];
      RequestItems(fs[1..]);
      if f.Message? && f.tag == 3 { SignItems(f.fields); }
      if f.Message? && f.tag == 11 { LeafItems(f.fields, SubmitHeaders, 1); }
      assert [3, 3, 6][1..] == [3, 6] && [3, 3, 6, 4][1..] == [3, 6, 4] && [11, 1][1..] == [1];
    }
  }

  /** Fields of the right wire type under `path` decode. */
  lemma AllDecodable(fs: seq<Field>, schema: Schema, tag: nat, path: seq<nat>)
    requires Messages(fs, {tag}) && Sized(fs, [tag] + path)
    requires RepeatedTag(schema) == 0 || RepeatedTag(schema) == tag
    requires forall t: nat :: t != tag ==> Child(schema, t) == Leaf
    requires forall i :: 0 <= i < |fs| && fs[i].Message? && Sized(fs[i].fields, path) ==>
      Decodable(fs[i].fields, Child(schema, tag))
    ensures Decodable(fs, schema)
  {
    hide RepeatedTag, Child;
    assert ([tag] + path)[1..] == path;
  }

  lemma LeafDecodable(fs: seq<Field>, schema: Schema, list: nat)
    requires PlainFields(fs) && Sized(fs, [list])
    requires if schema == SubmitHeaders then list == 1
      else list == 4 && schema in {MerkleProofEntry, ParentMerkleProofEntry}
    ensures Decodable(fs, schema)
  {
    assert [list][1..] == [];
  }

  lemma RgbDecodable(fs: seq<Field>)
    ensures RgbFields(fs) && Sized(fs, [6, 4]) ==> Decodable(fs, RgbSource)
    ensures ParentRgbFields(fs) && Sized(fs, [5, 4]) ==> Decodable(fs, ParentRgbSource)
  {
    hide Messages, PlainFields, Sized, Decodable;
    assert [6] + [4] == [6, 4] && [5] + [4] == [5, 4];
    forall i | 0 <= i < |fs| && fs[i].Message? && PlainFields(fs[i].fields) && Sized(fs[i].fields, [4])
      ensures Decodable(fs[i].fields, MerkleProofEntry) && Decodable(fs[i].fields, ParentMerkleProofEntry) {
      LeafDecodable(fs[i].fields, MerkleProofEntry, 4);
      LeafDecodable(fs[i].fields, ParentMerkleProofEntry, 4);
    }
    if RgbFields(fs) && Sized(fs, [6, 4]) { AllDecodable(fs, RgbSource, 6, [4]); }
    if ParentRgbFields(fs) && Sized(fs, [5, 4]) { AllDecodable(fs, ParentRgbSource, 5, [4]); }
  }

  lemma SignDecodable(fs: seq<Field>)
    requires SignFields(fs) && Sized(fs, [3, 6, 4])
    ensures Decodable(fs, Sign)
  {
    hide Messages, RgbFields, Sized, Decodable;
    assert [3] + [6, 4] == [3, 6, 4];
    forall i | 0 <= i < |fs| && fs[i].Message? && Sized(fs[i].fields, [6, 4])
      ensures Decodable(fs[i].fields, RgbSource) {
      RgbDecodable(fs[i].fields);
    }
    AllDecodable(fs, Sign, 3, [6, 4]);
  }

  lemma ParentSignDecodable(fs: seq<Field>)
    requires ParentSignFields(fs) && Sized(fs, [2, 11, 5, 4])
    ensures Decodable(fs, ParentSign)
  {
    hide Messages, ParentSourceFields, Sized, Decodable;
    assert [2] + [11, 5, 4] == [2, 11, 5, 4];
    forall i | 0 <= i < |fs| && fs[i].Message? && Sized(fs[i].fields, [11, 5, 4])
      ensures Decodable(fs[i].fields, ParentSourceProof) {
      ParentSourceDecodable(fs[i].fields);
    }
    AllDecodable(fs, ParentSign, 2, [11, 5, 4]);
  }

  lemma ParentSourceDecodable(fs: seq<Field>)
    requires ParentSourceFields(fs) && Sized(fs, [11, 5, 4])
    ensures Decodable(fs, ParentSourceProof)
  {
    hide Messages, ParentRgbFields, Sized, Decodable;
    assert [11] + [5, 4] == [11, 5, 4];
    forall i | 0 <= i < |fs| && fs[i].Message? && Sized(fs[i].fields, [5, 4])
      ensures Decodable(fs[i].fields, ParentRgbSource) {
      RgbDecodable(fs[i].fields);
    }
    AllDecodable(fs, ParentSourceProof, 11, [5, 4]);
  }

  lemma RequestDecodable(fs: seq<Field>)
    requires RequestFields(fs) && Sized(fs, [3, 3, 6, 4]) && Sized(fs, [11, 1])
    ensures Decodable(fs, Request)
  {
    assert [3, 3, 6, 4][1..] == [3, 6, 4] && [11, 1][1..] == [1];
    hide SignFields, PlainFields, Ok;
    forall i | 0 <= i < |fs| && fs[i].Message?
      ensures Decodable(fs[i].fields, Child(Request, fs[i].tag)) {
      if fs[i].tag == 3 { SignDecodable(fs[i].fields); } else { LeafDecodable(fs[i].fields, SubmitHeaders, 1); }
    }
  }

  /**
   * A request whose lists have the right wire type decodes, and the decode pushes one element for each proof, each
   * path element and each header that was written.
   */
  lemma DecodePushesEveryElement(fs: seq<Field>, clears: (Schema, nat) -> bool)
    requires RequestFields(fs) && Sized(fs, [3, 3, 6, 4]) && Sized(fs, [11, 1])
    ensures var d := Decode(Write(fs), Request, EMPTY, clears);
      d.Some? && d.value.pushed == At(fs, [3, 3, 6]) + At(fs, [3, 3, 6, 4]) + At(fs, [11, 1])
  {
    hide Decode, RequestFields, Conforms, Decodable, Items, Sized, At;
    RequestConforms(fs);
    RequestDecodable(fs);
    RequestItems(fs);
    DecodesWritten(fs, Request, EMPTY, clears);
  }

  lemma ParentDecodePushesEveryElement(fs: seq<Field>, clears: (Schema, nat) -> bool)
    requires ParentSignFields(fs) && Sized(fs, [2, 11, 5, 4])
    ensures var d := Decode(Write(fs), ParentSign, EMPTY, clears);
      d.Some? && d.value.pushed == At(fs, [2, 11, 5]) + At(fs, [2, 11, 5, 4])
  {
    hide Decode, ParentSignFields, Conforms, Decodable, Items, Sized, At;
    ParentSignConforms(fs);
    ParentSignDecodable(fs);
    ParentSignItems(fs);
    DecodesWritten(fs, ParentSign, EMPTY, clears);
  }
}
