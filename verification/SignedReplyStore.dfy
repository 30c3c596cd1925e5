/** The mutex-guarded store, as the object that the locked sections update in place. */
module SignedReplyStore {
  import opened ReplyCache
  import Spec = ReplyCache

  class SignedResponses {
    var slots: map<Key, Slot>
    var order: seq<(Key, Time)>
    var bytes: int
    const limits: Limits

    ghost function View(): State
      reads this
    {
      State(slots, order, bytes)
    }

    constructor (limits: Limits)
      ensures View() == EMPTY && this.limits == limits
      ensures Valid(View()) && Bounded(View(), limits)
    {
      slots, order, bytes, this.limits := map[], [], 0, limits;
    }

    /** Drop the oldest entry. False when there is none. The byte count never goes below zero. */
    method EvictOldest() returns (evicted: bool)
      requires Valid(View())
      modifies this
      ensures evicted == (old(order) != [])
      ensures View() == Spec.EvictOldest(old(View()))
      ensures Valid(View()) && bytes >= 0
    {
      if order == [] { return false; }
      EvictOldestKeeps(View());
      var first := order[0].0;
      order := order[1..];
      if first in slots {
        var slot := slots[first];
        slots := slots - {first};
        if slot.Done? { bytes := bytes - Size(slot.reply); }
      }
      return true;
    }

    method EvictExpired(now: Time)
      requires Valid(View())
      modifies this
      ensures View() == Spec.EvictExpired(old(View()), limits.ttl, now)
      ensures Valid(View()) && OnlyEvicts(old(View()), View()) && bytes <= old(bytes)
    {
      EvictExpiredKeeps(View(), limits.ttl, now);
      while order != []
        invariant Valid(View())
        invariant Spec.EvictExpired(View(), limits.ttl, now) == Spec.EvictExpired(old(View()), limits.ttl, now)
        decreases |order|
      {
        if Age(order[0].1, now) >= limits.ttl {
          var _ := EvictOldest();
        } else {
          break;
        }
      }
    }

    /** One look at `key` under the lock. A caller that leads opens the channel `next`. */
    method ClaimOnce(key: Key, now: Time, next: nat) returns (found: Found)
      requires Valid(View()) && Bounded(View(), limits)
      modifies this
      ensures (View(), found) == Claim(old(View()), key, now, next, limits)
      ensures Valid(View()) && Bounded(View(), limits)
    {
      EvictExpired(now);
      if key in slots {
        match slots[key]
        case Done(reply) => return Serve(reply);
        case InFlight(channel) => return Wait(channel);
      }
      BeginKeeps(View(), key, next);
      slots := slots[key := InFlight(next)];
      return Lead;
    }

    /** Keep the reply of a finished exchange, within the count and byte limits. */
    method Store(key: Key, response: Reply, now: Time)
      requires Valid(View()) && Bounded(View(), limits) && (key in slots ==> slots[key].InFlight?)
      modifies this
      ensures View() == Spec.Store(old(View()), key, response, now, limits)
      ensures Valid(View()) && Bounded(View(), limits)
    {
      ghost var before := View();
      slots := slots - {key};
      ForgetKeeps(before, key);
      if Size(response) <= limits.maxBytes {
        KeepReply(key, response, now);
      }
      assert View() == Spec.Store(before, key, response, now, limits);
      StoreKeeps(before, key, response, now, limits);
    }

    method KeepReply(key: Key, response: Reply, now: Time)
      requires Valid(View())
      modifies this
      ensures View() == Keep(Room(old(View()), Size(response), now, limits), key, response, now)
    {
      EvictExpired(now);
      MakeRoom(Size(response));
      bytes := bytes + Size(response);
      slots := slots[key := Done(response)];
      order := order + [(key, now)];
    }

    /** Evict the oldest entries until the count and `size` more bytes fit, or none is left. */
    method MakeRoom(size: nat)
      requires Valid(View())
      modifies this
      ensures View() == Spec.MakeRoom(old(View()), size, limits) && Valid(View())
    {
      while |order| >= limits.maxEntries || bytes + size > limits.maxBytes
        invariant Valid(View())
        invariant Spec.MakeRoom(View(), size, limits) == Spec.MakeRoom(old(View()), size, limits)
        decreases |order|
      {
        var evicted := EvictOldest();
        if !evicted { break; }
      }
    }

    /** The lead of `key` was dropped without a reply. */
    method Release(key: Key)
      requires Valid(View()) && Bounded(View(), limits)
      modifies this
      ensures View() == Spec.Release(old(View()), key)
      ensures Valid(View()) && Bounded(View(), limits)
    {
      if key in slots && slots[key].InFlight? {
        ForgetKeeps(View(), key);
        slots := slots - {key};
      }
    }

    /** The number of keys with a finished reply. In-flight keys do not count. */
    method Stored() returns (n: nat)
      requires Valid(View())
      ensures n == |set k | k in slots && slots[k].Done?|
    {
      FinishedCount(View());
      return |order|;
    }
  }
}
