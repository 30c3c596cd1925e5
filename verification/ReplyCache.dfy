/**
 * The store of signed replies (`parent/src/signed_responses.rs`): its state under the lock, what each locked
 * section does to it, and what every one of them keeps.
 */
module ReplyCache {
  import opened Bytes

  type Key = seq<u8>
  type Time = nat
  datatype Reply = Reply(signedPsbt: seq<u8>, inputsSigned: nat)

  function Size(r: Reply): nat { |r.signedPsbt| }

  /** An exchange in flight names the channel on which its reply comes. */
  datatype Slot = InFlight(channel: nat) | Done(reply: Reply)

  datatype Limits = Limits(ttl: nat, maxEntries: nat, maxBytes: nat)

  /** `order` lists the finished entries, oldest first, with the time each was stored. */
  datatype State = State(slots: map<Key, Slot>, order: seq<(Key, Time)>, bytes: int)

  const EMPTY := State(map[], [], 0)

  /** Elapsed time, zero when `stored` lies ahead. */
  function Age(stored: Time, now: Time): nat { if now >= stored then now - stored else 0 }

  // ---- What the locked sections do ----

  function EvictOldest(s: State): State {
    if s.order == [] then s else
      var first := s.order[0].0;
      var freed := if first in s.slots && s.slots[first].Done? then Size(s.slots[first].reply) else 0;
      State(s.slots - {first}, s.order[1..], s.bytes - freed)
  }

  function EvictExpired(s: State, ttl: nat, now: Time): State
    decreases |s.order|
  {
    if s.order != [] && Age(s.order[0].1, now) >= ttl then EvictExpired(EvictOldest(s), ttl, now) else s
  }

  predicate Full(s: State, size: nat, limits: Limits) {
    |s.order| >= limits.maxEntries || s.bytes + size > limits.maxBytes
  }

  function MakeRoom(s: State, size: nat, limits: Limits): State
    decreases |s.order|
  {
    if s.order != [] && Full(s, size, limits) then MakeRoom(EvictOldest(s), size, limits) else s
  }

  function Room(s: State, size: nat, now: Time, limits: Limits): State {
    MakeRoom(EvictExpired(s, limits.ttl, now), size, limits)
  }

  function Forget(s: State, key: Key): State { s.(slots := s.slots - {key}) }

  function Keep(s: State, key: Key, reply: Reply, now: Time): State {
    State(s.slots[key := Done(reply)], s.order + [(key, now)], s.bytes + Size(reply))
  }

  /** The in-flight slot goes in every case; a reply above the byte limit leaves no entry. */
  function Store(s: State, key: Key, reply: Reply, now: Time, limits: Limits): State {
    if Size(reply) > limits.maxBytes then Forget(s, key)
    else Keep(Room(Forget(s, key), Size(reply), now, limits), key, reply, now)
  }

  function Begin(s: State, key: Key, channel: nat): State { s.(slots := s.slots[key := InFlight(channel)]) }

  /** A lead that failed frees its key. */
  function Release(s: State, key: Key): State {
    if key in s.slots && s.slots[key].InFlight? then Forget(s, key) else s
  }

  /** What one look at a key finds: a reply, an exchange to wait for, or nothing, and then the caller leads. */
  datatype Found = Serve(reply: Reply) | Wait(channel: nat) | Lead

  /** `next` is the channel of the lead, if the caller gets it. */
  function Claim(s: State, key: Key, now: Time, next: nat, limits: Limits): (State, Found) {
    var t := EvictExpired(s, limits.ttl, now);
    if key !in t.slots then (Begin(t, key, next), Lead)
    else match t.slots[key]
      case Done(reply) => (t, Serve(reply))
      case InFlight(channel) => (t, Wait(channel))
  }

  // ---- What every one of them keeps ----

  function TotalSize(order: seq<(Key, Time)>, slots: map<Key, Slot>): nat {
    if order == [] then 0 else
      var k := order[0].0;
      (if k in slots && slots[k].Done? then Size(slots[k].reply) else 0) + TotalSize(order[1..], slots)
  }

  predicate Distinct(order: seq<(Key, Time)>) {
    forall i, j :: 0 <= i < j < |order| ==> order[i].0 != order[j].0
  }

  predicate Lists(order: seq<(Key, Time)>, key: Key) {
    exists i :: 0 <= i < |order| && order[i].0 == key
  }

  /** The queue lists exactly the finished keys, once each, and `bytes` is the size of their replies. */
  ghost predicate Valid(s: State) {
    && Distinct(s.order)
    && (forall k :: Lists(s.order, k) <==> k in s.slots && s.slots[k].Done?)
    && s.bytes == TotalSize(s.order, s.slots)
  }

  ghost predicate Bounded(s: State, limits: Limits) {
    s.bytes <= limits.maxBytes && |s.order| <= if limits.maxEntries >= 1 then limits.maxEntries else 1
  }

  /** Only finished entries go: other keys keep their slots. */
  ghost predicate OnlyEvicts(s: State, t: State) {
    && (forall k :: k in t.slots ==> k in s.slots && t.slots[k] == s.slots[k])
    && (forall k :: k in s.slots && s.slots[k].InFlight? ==> k in t.slots)
    && |t.order| <= |s.order| && t.order == s.order[|s.order| - |t.order|..]
  }

  lemma {:induction false} TotalSizeAgrees(order: seq<(Key, Time)>, slots: map<Key, Slot>, other: map<Key, Slot>)
    requires forall i :: 0 <= i < |order| ==>
      (order[i].0 in slots <==> order[i].0 in other) && (order[i].0 in slots ==> slots[order[i].0] == other[order[i].0])
    ensures TotalSize(order, slots) == TotalSize(order, other)
  {
    if order != [] { TotalSizeAgrees(order[1..], slots, other); }
  }

  lemma {:induction false} TotalSizeAppend(order: seq<(Key, Time)>, e: (Key, Time), slots: map<Key, Slot>)
    requires e.0 in slots && slots[e.0].Done?
    ensures TotalSize(order + [e], slots) == TotalSize(order, slots) + Size(slots[e.0].reply)
  {
    if order == [] {
      assert [e][1..] == [];
    } else {
      TotalSizeAppend(order[1..], e, slots);
      assert (order + [e])[1..] == order[1..] + [e];
    }
  }

  lemma {:induction false} EvictOldestKeeps(s: State)
    requires Valid(s) && s.order != []
    ensures Valid(EvictOldest(s)) && OnlyEvicts(s, EvictOldest(s)) && EvictOldest(s).bytes <= s.bytes
  {
    var t, first := EvictOldest(s), s.order[0].0;
    assert Lists(s.order, first);
    forall k ensures Lists(t.order, k) <==> k in t.slots && t.slots[k].Done? {
      if Lists(s.order, k) && k != first {
        var i :| 0 <= i < |s.order| && s.order[i].0 == k;
        assert t.order[i - 1].0 == k;
      }
      if Lists(t.order, k) {
        var i :| 0 <= i < |t.order| && t.order[i].0 == k;
        assert s.order[i + 1].0 == k;
      }
    }
    TotalSizeAgrees(s.order[1..], s.slots, t.slots);
  }

  lemma {:induction false} EvictExpiredKeeps(s: State, ttl: nat, now: Time)
    requires Valid(s)
    ensures Valid(EvictExpired(s, ttl, now)) && OnlyEvicts(s, EvictExpired(s, ttl, now))
    ensures EvictExpired(s, ttl, now).bytes <= s.bytes
    decreases |s.order|
  {
    if s.order != [] && Age(s.order[0].1, now) >= ttl {
      EvictOldestKeeps(s);
      EvictExpiredKeeps(EvictOldest(s), ttl, now);
      OnlyEvictsTransitive(s, EvictOldest(s), EvictExpired(s, ttl, now));
    }
  }

  lemma {:induction false} MakeRoomKeeps(s: State, size: nat, limits: Limits)
    requires Valid(s) && size <= limits.maxBytes
    ensures
      var t := MakeRoom(s, size, limits);
      && Valid(t) && OnlyEvicts(s, t) && t.bytes + size <= limits.maxBytes
      && (t.order == [] || |t.order| < limits.maxEntries)
    decreases |s.order|
  {
    if s.order != [] && Full(s, size, limits) {
      EvictOldestKeeps(s);
      MakeRoomKeeps(EvictOldest(s), size, limits);
      OnlyEvictsTransitive(s, EvictOldest(s), MakeRoom(s, size, limits));
    }
  }

  /** The last `n` entries of the queue and a reply of `size` bytes would exceed a limit. */
  predicate TooMany(s: State, n: nat, size: nat, limits: Limits)
    requires n <= |s.order|
  {
    n >= limits.maxEntries || TotalSize(s.order[|s.order| - n..], s.slots) + size > limits.maxBytes
  }

  /** Eviction stops as soon as the reply fits: with one entry fewer evicted, a limit would be exceeded. */
  lemma {:induction false} MakeRoomStops(s: State, size: nat, limits: Limits)
    requires Valid(s)
    ensures
      var n := |MakeRoom(s, size, limits).order|;
      n <= |s.order| && (n < |s.order| ==> TooMany(s, n + 1, size, limits))
    decreases |s.order|
  {
    if s.order != [] && Full(s, size, limits) {
      var t, n := EvictOldest(s), |MakeRoom(s, size, limits).order|;
      EvictOldestKeeps(s);
      MakeRoomStops(t, size, limits);
      if n == |t.order| {
        assert s.order[0..] == s.order;
      } else {
        SameTail(s, t, n + 1, size, limits);
      }
    }
  }

  lemma SameTail(s: State, t: State, n: nat, size: nat, limits: Limits)
    requires Distinct(s.order) && s.order != [] && t == EvictOldest(s) && n <= |t.order|
    ensures TooMany(t, n, size, limits) <==> TooMany(s, n, size, limits)
  {
    hide TotalSize;
    var rest := s.order[|s.order| - n..];
    assert t.order[|t.order| - n..] == rest;
    forall i | 0 <= i < |rest| ensures rest[i].0 != s.order[0].0 { assert rest[i] == s.order[|s.order| - n + i]; }
    assert forall k :: k in t.slots <==> k in s.slots && k != s.order[0].0;
    TotalSizeAgrees(rest, t.slots, s.slots);
  }

  lemma {:induction false} ForgetKeeps(s: State, key: Key)
    requires Valid(s) && (key in s.slots ==> s.slots[key].InFlight?)
    ensures Valid(Forget(s, key))
  {
    var t := Forget(s, key);
    assert !Lists(s.order, key);
    assert forall i :: 0 <= i < |s.order| ==> Lists(s.order, s.order[i].0);
    TotalSizeAgrees(s.order, s.slots, t.slots);
  }

  lemma {:induction false} KeepKeeps(s: State, key: Key, reply: Reply, now: Time)
    requires Valid(s) && key !in s.slots
    ensures Valid(Keep(s, key, reply, now))
  {
    var t := Keep(s, key, reply, now);
    assert !Lists(s.order, key);
    assert forall i :: 0 <= i < |s.order| ==> Lists(s.order, s.order[i].0);
    forall k ensures Lists(t.order, k) <==> k in t.slots && t.slots[k].Done? {
      if Lists(s.order, k) {
        var i :| 0 <= i < |s.order| && s.order[i].0 == k;
        assert t.order[i].0 == k;
      }
      assert t.order[|s.order|].0 == key;
    }
    TotalSizeAgrees(s.order, s.slots, t.slots);
    TotalSizeAppend(s.order, (key, now), t.slots);
  }

  /** Storing a reply keeps the invariants, changes no other in-flight slot, and keeps the reply when it fits. */
  lemma {:induction false} StoreKeeps(s: State, key: Key, reply: Reply, now: Time, limits: Limits)
    requires Valid(s) && Bounded(s, limits) && (key in s.slots ==> s.slots[key].InFlight?)
    ensures
      var t := Store(s, key, reply, now, limits);
      && Valid(t) && Bounded(t, limits)
      && (forall k :: k in s.slots && s.slots[k].InFlight? && k != key ==> k in t.slots && t.slots[k] == s.slots[k])
      && (forall k :: k in t.slots && k != key ==> k in s.slots && t.slots[k] == s.slots[k])
      && (if Size(reply) <= limits.maxBytes then key in t.slots && t.slots[key] == Done(reply) else key !in t.slots)
  {
    hide Valid, Room;
    ForgetKeeps(s, key);
    if Size(reply) <= limits.maxBytes {
      RoomKeeps(Forget(s, key), Size(reply), now, limits);
      KeepKeeps(Room(Forget(s, key), Size(reply), now, limits), key, reply, now);
    }
  }

  lemma {:induction false} RoomKeeps(s: State, size: nat, now: Time, limits: Limits)
    requires Valid(s) && size <= limits.maxBytes
    ensures
      var t := Room(s, size, now, limits);
      && Valid(t) && OnlyEvicts(s, t) && t.bytes + size <= limits.maxBytes
      && (t.order == [] || |t.order| < limits.maxEntries)
  {
    EvictExpiredKeeps(s, limits.ttl, now);
    MakeRoomKeeps(EvictExpired(s, limits.ttl, now), size, limits);
    OnlyEvictsTransitive(s, EvictExpired(s, limits.ttl, now), Room(s, size, now, limits));
  }

  lemma OnlyEvictsTransitive(s: State, t: State, u: State)
    requires OnlyEvicts(s, t) && OnlyEvicts(t, u)
    ensures OnlyEvicts(s, u)
  {
  }

  lemma {:induction false} BeginKeeps(s: State, key: Key, channel: nat)
    requires Valid(s) && key !in s.slots
    ensures Valid(Begin(s, key, channel))
  {
    assert !Lists(s.order, key);
    assert forall i :: 0 <= i < |s.order| ==> Lists(s.order, s.order[i].0);
    TotalSizeAgrees(s.order, s.slots, Begin(s, key, channel).slots);
  }

  lemma {:induction false} DistinctCount(order: seq<(Key, Time)>)
    requires Distinct(order)
    ensures |set i | 0 <= i < |order| :: order[i].0| == |order|
  {
    var keys := set i | 0 <= i < |order| :: order[i].0;
    if order != [] {
      var rest := order[1..];
      DistinctCount(rest);
      var others := set i | 0 <= i < |rest| :: rest[i].0;
      forall k ensures k in keys <==> k == order[0].0 || k in others {
        if k in keys && k != order[0].0 {
          var i :| 0 <= i < |order| && order[i].0 == k;
          assert rest[i - 1].0 == k;
        }
        if k in others {
          var i :| 0 <= i < |rest| && rest[i].0 == k;
          assert order[i + 1].0 == k;
        }
      }
      assert keys == {order[0].0} + others && order[0].0 !in others;
    }
  }

  /** The queue is as long as there are keys with a finished reply. */
  lemma FinishedCount(s: State)
    requires Valid(s)
    ensures |s.order| == |set k | k in s.slots && s.slots[k].Done?|
  {
    DistinctCount(s.order);
    var keys := set i | 0 <= i < |s.order| :: s.order[i].0;
    var finished := set k | k in s.slots && s.slots[k].Done?;
    forall k ensures k in keys <==> k in finished { assert k in keys <==> Lists(s.order, k); }
    assert keys == finished;
  }

  // ---- How old a served reply can be ----

  predicate Sorted(order: seq<(Key, Time)>) {
    forall i, j :: 0 <= i < j < |order| ==> order[i].1 <= order[j].1
  }

  predicate AllFresh(order: seq<(Key, Time)>, ttl: nat, now: Time) {
    forall i :: 0 <= i < |order| ==> Age(order[i].1, now) < ttl
  }

  /** Eviction goes no further than the first entry that is not expired. */
  lemma {:induction false} EvictionStops(s: State, ttl: nat, now: Time, i: nat)
    requires i < |s.order| && Age(s.order[i].1, now) < ttl
    ensures
      var t := EvictExpired(s, ttl, now).order;
      |s.order| - i <= |t| <= |s.order| && t == s.order[|s.order| - |t|..]
    decreases |s.order|
  {
    if Age(s.order[0].1, now) >= ttl { EvictionStops(EvictOldest(s), ttl, now, i - 1); }
  }

  /** No expired entry stands behind one that is not expired. */
  predicate ExpiredFirst(order: seq<(Key, Time)>, ttl: nat, now: Time) {
    forall i, j :: 0 <= i < j < |order| && Age(order[i].1, now) < ttl ==> Age(order[j].1, now) < ttl
  }

  /** One eviction leaves only entries younger than the age limit exactly when every expired entry comes first. */
  lemma {:induction false} FreshExactlyIfExpiredFirst(s: State, ttl: nat, now: Time)
    ensures AllFresh(EvictExpired(s, ttl, now).order, ttl, now) <==> ExpiredFirst(s.order, ttl, now)
    decreases |s.order|
  {
    if s.order != [] {
      if Age(s.order[0].1, now) >= ttl {
        var rest := EvictOldest(s);
        assert rest.order == s.order[1..];
        FreshExactlyIfExpiredFirst(rest, ttl, now);
        assert ExpiredFirst(s.order, ttl, now) ==> ExpiredFirst(rest.order, ttl, now) by {
          assert forall i :: 0 <= i < |rest.order| ==> rest.order[i] == s.order[i + 1];
        }
        assert forall i :: 1 <= i < |s.order| ==> s.order[i] == rest.order[i - 1];
      } else {
        assert EvictExpired(s, ttl, now) == s;
      }
    }
  }

  lemma {:induction false} SortedIsFresh(s: State, ttl: nat, now: Time)
    requires Sorted(s.order)
    ensures AllFresh(EvictExpired(s, ttl, now).order, ttl, now)
    decreases |s.order|
  {
    if s.order != [] && Age(s.order[0].1, now) >= ttl { SortedIsFresh(EvictOldest(s), ttl, now); }
  }

  /**
   * No reply of age `ttl` or more is left after an eviction, whenever it runs, exactly when the entries are
   * in clock order. `complete` reads the clock before it takes the lock, so the code does not ensure that order.
   */
  lemma {:induction false} FreshExactlyInClockOrder(s: State, ttl: nat)
    requires ttl > 0
    ensures (forall now :: AllFresh(EvictExpired(s, ttl, now).order, ttl, now)) <==> Sorted(s.order)
  {
    if Sorted(s.order) {
      forall now ensures AllFresh(EvictExpired(s, ttl, now).order, ttl, now) { SortedIsFresh(s, ttl, now); }
    } else {
      var i, j :| 0 <= i < j < |s.order| && s.order[i].1 > s.order[j].1;
      var now := s.order[j].1 + ttl;
      EvictionStops(s, ttl, now, i);
      var t := EvictExpired(s, ttl, now).order;
      assert t[j - (|s.order| - |t|)] == s.order[j];
      assert !AllFresh(t, ttl, now);
    }
  }

  /** Two completions that read the clock in one order and lock in the other: the second is served when expired. */
  lemma StaleReplyServed(a: Key, b: Key, reply: Reply)
    requires a != b && |reply.signedPsbt| <= 100
    ensures
      var limits := Limits(10, 8, 1000);
      var s := Begin(Begin(EMPTY, a, 0), b, 1);
      var t := Store(Store(s, a, reply, 6, limits), b, reply, 5, limits);
      t.order == [(a, 6), (b, 5)] && Claim(t, b, 15, 2, limits).1 == Serve(reply) && Age(5, 15) >= limits.ttl
  {
    var limits := Limits(10, 8, 1000);
    var s := Begin(Begin(EMPTY, a, 0), b, 1);
    var t := Store(s, a, reply, 6, limits);
    assert t.order == [(a, 6)];
    assert Forget(t, b).order == [(a, 6)];
  }
}
