/** How long the store keeps a finished reply: what goes is expired or in the way, and what stays is served. */
module ReplyLifetime {
  import opened Bytes
  import opened ReplyCache

  /** An age limit of zero expires everything; a reply stored ahead of the clock has no age. */
  predicate Expired(stored: Time, ttl: nat, now: Time) { ttl == 0 || stored + ttl <= now }

  /** The first `k` entries have expired. */
  predicate ExpiredTo(order: seq<(Key, Time)>, k: nat, ttl: nat, now: Time)
    requires k <= |order|
  {
    forall j :: 0 <= j < k ==> Expired(order[j].1, ttl, now)
  }

  /** An eviction takes exactly the expired entries at the front. */
  lemma {:induction false} EvictsExpiredFront(s: State, ttl: nat, now: Time) returns (k: nat)
    ensures k <= |s.order| && EvictExpired(s, ttl, now).order == s.order[k..] && ExpiredTo(s.order, k, ttl, now)
    ensures k < |s.order| ==> !Expired(s.order[k].1, ttl, now)
    decreases |s.order|
  {
    if s.order != [] && Expired(s.order[0].1, ttl, now) {
      var rest := EvictOldest(s);
      var m := EvictsExpiredFront(rest, ttl, now);
      k := m + 1;
      assert rest.order == s.order[1..] && s.order[1..][m..] == s.order[k..];
      forall j | 0 <= j < k ensures Expired(s.order[j].1, ttl, now) {
        if j > 0 { assert s.order[j] == rest.order[j - 1]; }
      }
    } else {
      k := 0;
      assert s.order[0..] == s.order;
    }
  }

  /** A finished key stays in an eviction exactly if an entry up to it has not expired. */
  lemma StaysExactly(s: State, ttl: nat, now: Time, i: nat)
    requires Valid(s) && i < |s.order|
    ensures var t, key := EvictExpired(s, ttl, now), s.order[i].0;
      && key in s.slots && (key in t.slots <==> !ExpiredTo(s.order, i + 1, ttl, now))
      && (key in t.slots ==> t.slots[key] == s.slots[key])
  {
    hide TotalSize;
    var t, key := EvictExpired(s, ttl, now), s.order[i].0;
    var k := EvictsExpiredFront(s, ttl, now);
    EvictExpiredKeeps(s, ttl, now);
    assert Lists(s.order, key);
    if i >= k {
      assert t.order[i - k].0 == key;
      assert Lists(t.order, key);
    } else {
      forall j | 0 <= j < |t.order| ensures t.order[j].0 != key { assert t.order[j] == s.order[k + j]; }
      assert !Lists(t.order, key);
    }
  }

  /**
   * One look at a key: a finished reply is served exactly if an entry up to it has not expired, a running exchange
   * is waited for, and otherwise the caller leads on its own channel.
   */
  lemma ClaimExactly(s: State, key: Key, now: Time, next: nat, limits: Limits)
    requires Valid(s)
    ensures var (t, found) := Claim(s, key, now, next, limits);
      && (key !in s.slots ==> found == Lead)
      && (key in s.slots && s.slots[key].InFlight? ==> found == Wait(s.slots[key].channel))
      && (forall i :: 0 <= i < |s.order| && s.order[i].0 == key ==>
            && key in s.slots && s.slots[key].Done?
            && found == if ExpiredTo(s.order, i + 1, limits.ttl, now) then Lead else Serve(s.slots[key].reply))
      && (found == Lead ==> key in t.slots && t.slots[key] == InFlight(next))
  {
    hide EvictExpired, ExpiredTo, TotalSize;
    EvictExpiredKeeps(s, limits.ttl, now);
    forall i | 0 <= i < |s.order| && s.order[i].0 == key
      ensures key in s.slots && s.slots[key].Done?
      ensures Claim(s, key, now, next, limits).1 ==
        if ExpiredTo(s.order, i + 1, limits.ttl, now) then Lead else Serve(s.slots[key].reply)
    {
      StaysExactly(s, limits.ttl, now, i);
      assert Lists(s.order, key);
    }
  }

  /** The last entry that `Room` evicts has expired with all before it, or was in the way of the reply. */
  lemma RoomStops(s: State, size: nat, now: Time, limits: Limits)
    requires Valid(s)
    ensures var n := |Room(s, size, now, limits).order|;
      && n <= |s.order|
      && (n < |s.order| ==> ExpiredTo(s.order, |s.order| - n, limits.ttl, now) || TooMany(s, n + 1, size, limits))
  {
    hide TotalSize, MakeRoom, EvictExpired, Lists;
    var u := EvictExpired(s, limits.ttl, now);
    var k := EvictsExpiredFront(s, limits.ttl, now);
    EvictExpiredKeeps(s, limits.ttl, now);
    MakeRoomStops(u, size, limits);
    var n := |MakeRoom(u, size, limits).order|;
    if n < |u.order| { SameLastEntries(s, u, k, n + 1, size, limits); }
  }

  lemma SameLastEntries(s: State, u: State, k: nat, n: nat, size: nat, limits: Limits)
    requires Valid(u) && OnlyEvicts(s, u) && k <= |s.order| && u.order == s.order[k..] && n <= |u.order|
    ensures TooMany(u, n, size, limits) <==> TooMany(s, n, size, limits)
  {
    hide TotalSize;
    var rest := s.order[|s.order| - n..];
    assert u.order[|u.order| - n..] == rest;
    forall i | 0 <= i < |rest| ensures rest[i].0 in u.slots {
      assert rest[i] == u.order[|u.order| - n + i];
      assert Lists(u.order, rest[i].0);
    }
    TotalSizeAgrees(rest, u.slots, s.slots);
  }

  /** A reply that was stored is served to whoever asks for it before the age limit. */
  lemma StoredIsServed(s: State, key: Key, reply: Reply, now: Time, limits: Limits, later: Time, next: nat)
    requires Valid(s) && Bounded(s, limits) && (key in s.slots ==> s.slots[key].InFlight?)
    requires Size(reply) <= limits.maxBytes && !Expired(now, limits.ttl, later)
    ensures Claim(Store(s, key, reply, now, limits), key, later, next, limits).1 == Serve(reply)
  {
    StoreKeeps(s, key, reply, now, limits);
    var t := Store(s, key, reply, now, limits);
    var last := |t.order| - 1;
    assert t.order[last] == (key, now);
    hide Valid, Bounded, Claim, Store;
    ClaimExactly(t, key, later, next, limits);
    assert !Expired(t.order[last].1, limits.ttl, later);
  }
}
