/**
 * The single-flight protocol around the reply store, with any number of clients.
 *
 * Each step is one locked section of the store, or one action on a reply channel, so a run is any interleaving
 * of them. Completing a lead is two steps (store the reply, then send it to the waiters), and so is dropping one
 * (free the key, then close the channel).
 */
module SingleFlight {
  import opened ReplyCache

  /** The reply channel of one exchange, and the client that opened it. `Closed` is an exchange that failed. */
  datatype Channel = Channel(key: Key, lead: nat, state: ChannelState)
  datatype ChannelState = Pending | Sent(reply: Reply) | Closed

  /** A client holds a lead while its exchange runs, and then until the channel is settled. */
  datatype Client =
    | Idle
    | Waiting(key: Key, channel: nat)
    | Holding(key: Key, channel: nat, stage: Stage)
    | Served(key: Key, reply: Reply)
  datatype Stage = Exchanging | Stored(reply: Reply) | Freed

  /** `given` records every reply passed to `complete`, with the key of its lead. */
  datatype Sys = Sys(cache: State, channels: seq<Channel>, clients: map<nat, Client>, given: set<(Key, Reply)>)

  predicate Init(s: Sys) {
    s.cache == EMPTY && s.channels == [] && s.given == {} && forall c :: c in s.clients ==> s.clients[c].Idle?
  }

  // ---- The steps ----

  datatype Step =
    | ClaimKey(c: nat, key: Key, now: Time)
    | StoreReply(c: nat, reply: Reply, now: Time)
    | SendReply(c: nat)
    | FreeKey(c: nat)
    | CloseChannel(c: nat)
    | Wake(c: nat)
    | Leave(c: nat)

  function Become(s: Sys, c: nat, to: Client): Sys { s.(clients := s.clients[c := to]) }

  function Settle(s: Sys, channel: nat, state: ChannelState): Sys {
    if channel >= |s.channels| then s
    else s.(channels := s.channels[channel := s.channels[channel].(state := state)])
  }

  function Claimed(s: Sys, c: nat, key: Key, now: Time, limits: Limits): Sys {
    var (cache, found) := Claim(s.cache, key, now, |s.channels|, limits);
    match found
    case Serve(reply) => Become(s.(cache := cache), c, Served(key, reply))
    case Wait(channel) => Become(s.(cache := cache), c, Waiting(key, channel))
    case Lead => TakeLead(s.(cache := cache), c, key)
  }

  function TakeLead(s: Sys, c: nat, key: Key): Sys {
    Become(s.(channels := s.channels + [Channel(key, c, Pending)]), c, Holding(key, |s.channels|, Exchanging))
  }

  predicate Exchanges(s: Sys, c: nat) {
    c in s.clients && s.clients[c].Holding? && s.clients[c].stage.Exchanging?
  }

  predicate WaitsOn(s: Sys, c: nat) {
    c in s.clients && s.clients[c].Waiting? && s.clients[c].channel < |s.channels|
  }

  /** A new request, or a waiter whose channel closed without a reply and looks again. */
  predicate MayClaim(s: Sys, c: nat, key: Key) {
    || (c in s.clients && s.clients[c].Idle?)
    || (WaitsOn(s, c) && s.clients[c].key == key && s.channels[s.clients[c].channel].state.Closed?)
  }

  predicate Enabled(s: Sys, step: Step) {
    match step
    case ClaimKey(c, key, _) => MayClaim(s, c, key)
    case StoreReply(c, _, _) => Exchanges(s, c)
    case SendReply(c) => c in s.clients && s.clients[c].Holding? && s.clients[c].stage.Stored?
    case FreeKey(c) => Exchanges(s, c)
    case CloseChannel(c) => c in s.clients && s.clients[c].Holding? && s.clients[c].stage.Freed?
    case Wake(c) => WaitsOn(s, c) && s.channels[s.clients[c].channel].state.Sent?
    // The request of a waiting or served client ends. A lead does not end with it: it is on the worker.
    case Leave(c) => c in s.clients && (s.clients[c].Waiting? || s.clients[c].Served?)
  }

  function Apply(s: Sys, step: Step, limits: Limits): Sys
    requires Enabled(s, step)
  {
    match step
    case ClaimKey(c, key, now) => Claimed(s, c, key, now, limits)
    case StoreReply(c, reply, now) =>
      var me := s.clients[c];
      Become(s.(cache := Store(s.cache, me.key, reply, now, limits), given := s.given + {(me.key, reply)}),
             c, me.(stage := Stored(reply)))
    case SendReply(c) => Become(Settle(s, s.clients[c].channel, Sent(s.clients[c].stage.reply)), c, Idle)
    case FreeKey(c) =>
      var me := s.clients[c];
      Become(s.(cache := Release(s.cache, me.key)), c, me.(stage := Freed))
    case CloseChannel(c) => Become(Settle(s, s.clients[c].channel, Closed), c, Idle)
    case Wake(c) =>
      var me := s.clients[c];
      Become(s, c, Served(me.key, s.channels[me.channel].state.reply))
    case Leave(c) => Become(s, c, Idle)
  }

  // ---- The invariant ----

  /** The lead of an open channel holds it, and nobody else does. */
  ghost predicate ChannelsHeld(s: Sys) {
    && (forall c :: c in s.clients && s.clients[c].Holding? ==>
          && s.clients[c].channel < |s.channels|
          && s.channels[s.clients[c].channel] == Channel(s.clients[c].key, c, Pending))
    && (forall h :: 0 <= h < |s.channels| && s.channels[h].state.Pending? ==>
          var c := s.channels[h].lead;
          c in s.clients && s.clients[c].Holding? && s.clients[c].channel == h)
  }

  /** A slot is in flight exactly while the exchange of its lead runs. */
  ghost predicate SlotsMatchLeads(s: Sys) {
    && (forall c :: Exchanges(s, c) ==>
          s.clients[c].key in s.cache.slots && s.cache.slots[s.clients[c].key] == InFlight(s.clients[c].channel))
    && (forall k :: k in s.cache.slots && s.cache.slots[k].InFlight? ==>
          var h := s.cache.slots[k].channel;
          && h < |s.channels| && s.channels[h].key == k
          && Exchanges(s, s.channels[h].lead) && s.clients[s.channels[h].lead].channel == h
          && s.clients[s.channels[h].lead].key == k)
  }

  /** Every reply anywhere for a key was given to `complete` by a lead of that key. */
  ghost predicate RepliesGiven(s: Sys) {
    && (forall k :: k in s.cache.slots && s.cache.slots[k].Done? ==> (k, s.cache.slots[k].reply) in s.given)
    && (forall h :: 0 <= h < |s.channels| && s.channels[h].state.Sent? ==>
          (s.channels[h].key, s.channels[h].state.reply) in s.given)
    && (forall c :: c in s.clients && s.clients[c].Served? ==> (s.clients[c].key, s.clients[c].reply) in s.given)
    && (forall c :: c in s.clients && s.clients[c].Holding? && s.clients[c].stage.Stored? ==>
          (s.clients[c].key, s.clients[c].stage.reply) in s.given)
    && (forall c :: c in s.clients && s.clients[c].Waiting? ==>
          s.clients[c].channel < |s.channels| && s.channels[s.clients[c].channel].key == s.clients[c].key)
  }

  ghost predicate Inv(s: Sys, limits: Limits) {
    && Valid(s.cache) && Bounded(s.cache, limits)
    && ChannelsHeld(s) && SlotsMatchLeads(s) && RepliesGiven(s)
  }

  lemma {:induction false} EvictionKeepsInv(s: Sys, now: Time, limits: Limits)
    requires Inv(s, limits)
    ensures Inv(s.(cache := EvictExpired(s.cache, limits.ttl, now)), limits)
  {
    hide Valid, EvictExpired;
    EvictExpiredKeeps(s.cache, limits.ttl, now);
  }

  lemma {:induction false} LeadHoldsChannel(s: Sys, c: nat, key: Key)
    requires ChannelsHeld(s) && MayClaim(s, c, key)
    ensures ChannelsHeld(TakeLead(s, c, key))
  {
  }

  lemma {:induction false} LeadMatchesSlot(s: Sys, c: nat, key: Key)
    requires ChannelsHeld(s) && SlotsMatchLeads(s) && MayClaim(s, c, key) && key !in s.cache.slots
    ensures SlotsMatchLeads(TakeLead(s.(cache := Begin(s.cache, key, |s.channels|)), c, key))
  {
    var t := TakeLead(s.(cache := Begin(s.cache, key, |s.channels|)), c, key);
    forall d | Exchanges(t, d)
      ensures t.clients[d].key in t.cache.slots && t.cache.slots[t.clients[d].key] == InFlight(t.clients[d].channel)
    {
      if d != c { assert Exchanges(s, d); }
    }
    forall k | k in t.cache.slots && t.cache.slots[k].InFlight? && k != key
      ensures Exchanges(t, t.channels[t.cache.slots[k].channel].lead)
    {
      assert k in s.cache.slots && Exchanges(s, s.channels[s.cache.slots[k].channel].lead);
    }
  }

  lemma {:induction false} LeadKeepsInv(s: Sys, c: nat, key: Key, limits: Limits)
    requires Inv(s, limits) && MayClaim(s, c, key) && key !in s.cache.slots
    ensures Inv(TakeLead(s.(cache := Begin(s.cache, key, |s.channels|)), c, key), limits)
  {
    hide Valid, SlotsMatchLeads;
    BeginKeeps(s.cache, key, |s.channels|);
    LeadHoldsChannel(s.(cache := Begin(s.cache, key, |s.channels|)), c, key);
    LeadMatchesSlot(s, c, key);
  }

  lemma {:induction false} ClaimKeepsInv(s: Sys, c: nat, key: Key, now: Time, limits: Limits)
    requires Inv(s, limits) && MayClaim(s, c, key)
    ensures Inv(Claimed(s, c, key, now, limits), limits)
  {
    EvictionKeepsInv(s, now, limits);
    var t := s.(cache := EvictExpired(s.cache, limits.ttl, now));
    if key !in t.cache.slots {
      LeadKeepsInv(t, c, key, limits);
    } else {
      var to := match t.cache.slots[key]
        case Done(reply) => Served(key, reply)
        case InFlight(channel) => Waiting(key, channel);
      BystanderKeepsInv(t, c, to, limits);
    }
  }

  lemma {:induction false} BystanderKeepsLeads(s: Sys, c: nat, to: Client)
    requires ChannelsHeld(s) && SlotsMatchLeads(s) && c in s.clients && !s.clients[c].Holding? && !to.Holding?
    ensures ChannelsHeld(Become(s, c, to)) && SlotsMatchLeads(Become(s, c, to))
  {
    var t := Become(s, c, to);
    assert forall d :: Exchanges(t, d) <==> Exchanges(s, d);
  }

  /** A client without a lead may become idle, served with a given reply, or a waiter on a channel of its key. */
  lemma {:induction false} BystanderKeepsInv(s: Sys, c: nat, to: Client, limits: Limits)
    requires Inv(s, limits) && c in s.clients && !s.clients[c].Holding? && !to.Holding?
    requires to.Served? ==> (to.key, to.reply) in s.given
    requires to.Waiting? ==> to.channel < |s.channels| && s.channels[to.channel].key == to.key
    ensures Inv(Become(s, c, to), limits)
  {
    BystanderKeepsLeads(s, c, to);
    hide Valid, Bounded, ChannelsHeld, SlotsMatchLeads;
  }

  lemma {:induction false} StoreKeepsInv(s: Sys, c: nat, reply: Reply, now: Time, limits: Limits)
    requires Inv(s, limits) && Exchanges(s, c)
    ensures Inv(Apply(s, StoreReply(c, reply, now), limits), limits)
  {
    StoreKeepsLeads(s, c, reply, now, limits);
    StoreKeepsReplies(s, c, reply, now, limits);
    hide Valid, Bounded, Store, ChannelsHeld, SlotsMatchLeads, RepliesGiven;
    assert s.clients[c].key in s.cache.slots ==> s.cache.slots[s.clients[c].key].InFlight? by { LeadsInFlight(s, c); }
    StoreKeeps(s.cache, s.clients[c].key, reply, now, limits);
  }

  lemma LeadsInFlight(s: Sys, c: nat)
    requires SlotsMatchLeads(s) && Exchanges(s, c)
    ensures s.clients[c].key in s.cache.slots && s.cache.slots[s.clients[c].key].InFlight?
  {
  }

  lemma {:induction false} StoreKeepsLeads(s: Sys, c: nat, reply: Reply, now: Time, limits: Limits)
    requires Inv(s, limits) && Exchanges(s, c)
    ensures var t := Apply(s, StoreReply(c, reply, now), limits); ChannelsHeld(t) && SlotsMatchLeads(t)
  {
    hide Valid, Bounded, Store, RepliesGiven;
    StoreKeeps(s.cache, s.clients[c].key, reply, now, limits);
  }

  lemma {:induction false} StoreKeepsReplies(s: Sys, c: nat, reply: Reply, now: Time, limits: Limits)
    requires Inv(s, limits) && Exchanges(s, c)
    ensures RepliesGiven(Apply(s, StoreReply(c, reply, now), limits))
  {
    LeadsInFlight(s, c);
    hide Valid, Bounded, Store, ChannelsHeld, SlotsMatchLeads;
    StoreKeeps(s.cache, s.clients[c].key, reply, now, limits);
  }

  lemma {:induction false} FreeKeepsInv(s: Sys, c: nat, limits: Limits)
    requires Inv(s, limits) && Exchanges(s, c)
    ensures Inv(Apply(s, FreeKey(c), limits), limits)
  {
    hide Valid;
    ForgetKeeps(s.cache, s.clients[c].key);
  }

  lemma {:induction false} SettleKeepsInv(s: Sys, c: nat, state: ChannelState, limits: Limits)
    requires Inv(s, limits) && c in s.clients && s.clients[c].Holding? && !s.clients[c].stage.Exchanging?
    requires !state.Pending? && (state.Sent? ==> (s.clients[c].key, state.reply) in s.given)
    ensures Inv(Become(Settle(s, s.clients[c].channel, state), c, Idle), limits)
  {
    hide Valid, Bounded;
  }

  lemma {:induction false} StepKeepsInv(s: Sys, step: Step, limits: Limits)
    requires Inv(s, limits) && Enabled(s, step)
    ensures Inv(Apply(s, step, limits), limits)
  {
    match step
    case ClaimKey(c, key, now) => ClaimKeepsInv(s, c, key, now, limits);
    case StoreReply(c, reply, now) => StoreKeepsInv(s, c, reply, now, limits);
    case SendReply(c) => SettleKeepsInv(s, c, Sent(s.clients[c].stage.reply), limits);
    case FreeKey(c) => FreeKeepsInv(s, c, limits);
    case CloseChannel(c) => SettleKeepsInv(s, c, Closed, limits);
    case Wake(c) =>
      BystanderKeepsInv(s, c, Served(s.clients[c].key, s.channels[s.clients[c].channel].state.reply), limits);
    case Leave(c) => BystanderKeepsInv(s, c, Idle, limits);
  }

  // ---- Whole runs ----

  ghost predicate IsRun(states: seq<Sys>, steps: seq<Step>, limits: Limits) {
    && |states| == |steps| + 1
    && Init(states[0])
    && forall i :: 0 <= i < |steps| ==>
      Enabled(states[i], steps[i]) && states[i + 1] == Apply(states[i], steps[i], limits)
  }

  lemma {:induction false} RunKeepsInv(states: seq<Sys>, steps: seq<Step>, limits: Limits, i: nat)
    requires IsRun(states, steps, limits) && i < |states|
    ensures Inv(states[i], limits)
  {
    if i > 0 {
      RunKeepsInv(states, steps, limits, i - 1);
      StepKeepsInv(states[i - 1], steps[i - 1], limits);
    }
  }

  /** At every moment a key has at most one running exchange, and its slot is in flight exactly while there is one. */
  lemma {:induction false} OneExchangePerKey(states: seq<Sys>, steps: seq<Step>, limits: Limits, i: nat)
    requires IsRun(states, steps, limits) && i < |states|
    ensures
      var s := states[i];
      && (forall c, d :: Exchanges(s, c) && Exchanges(s, d) && s.clients[c].key == s.clients[d].key ==> c == d)
      && (forall k :: k in s.cache.slots && s.cache.slots[k].InFlight? <==>
            exists c :: Exchanges(s, c) && s.clients[c].key == k)
  {
    RunKeepsInv(states, steps, limits, i);
  }

  /** The store is within its limits at every moment. */
  lemma {:induction false} StoreAlwaysBounded(states: seq<Sys>, steps: seq<Step>, limits: Limits, i: nat)
    requires IsRun(states, steps, limits) && i < |states|
    ensures Valid(states[i].cache) && Bounded(states[i].cache, limits)
  {
    RunKeepsInv(states, steps, limits, i);
  }

  lemma {:induction false} GivenWasStored(
    states: seq<Sys>, steps: seq<Step>, limits: Limits, i: nat, key: Key, reply: Reply) returns (j: nat)
    requires IsRun(states, steps, limits) && i < |states| && (key, reply) in states[i].given
    ensures j < i && steps[j].StoreReply? && steps[j].reply == reply && states[j].clients[steps[j].c].key == key
  {
    j := i - 1;
    if (key, reply) in states[j].given {
      j := GivenWasStored(states, steps, limits, j, key, reply);
    }
  }

  /** A served client has the reply that an earlier lead of the same key gave to `complete`. */
  lemma {:induction false} ServedWasCompleted(
    states: seq<Sys>, steps: seq<Step>, limits: Limits, i: nat, c: nat) returns (j: nat)
    requires IsRun(states, steps, limits) && i < |states| && c in states[i].clients && states[i].clients[c].Served?
    ensures
      && j < i && steps[j].StoreReply? && steps[j].reply == states[i].clients[c].reply
      && Exchanges(states[j], steps[j].c) && states[j].clients[steps[j].c].key == states[i].clients[c].key
  {
    RunKeepsInv(states, steps, limits, i);
    j := GivenWasStored(states, steps, limits, i, states[i].clients[c].key, states[i].clients[c].reply);
  }

  /** A settled channel stays as it is. */
  lemma {:induction false} SettledForGood(states: seq<Sys>, steps: seq<Step>, limits: Limits, i: nat, j: nat, h: nat)
    requires IsRun(states, steps, limits) && i <= j < |states|
    requires h < |states[i].channels| && !states[i].channels[h].state.Pending?
    ensures h < |states[j].channels| && states[j].channels[h] == states[i].channels[h]
    decreases j
  {
    hide Inv, Enabled, Apply;
    if i < j {
      SettledForGood(states, steps, limits, i, j - 1, h);
      RunKeepsInv(states, steps, limits, j - 1);
      StepLeavesSettled(states[j - 1], steps[j - 1], limits, h);
    }
  }

  lemma StepLeavesSettled(s: Sys, step: Step, limits: Limits, h: nat)
    requires Inv(s, limits) && Enabled(s, step) && h < |s.channels| && !s.channels[h].state.Pending?
    ensures var t := Apply(s, step, limits); h < |t.channels| && t.channels[h] == s.channels[h]
  {
    hide Valid, Bounded, SlotsMatchLeads, RepliesGiven, Store, Forget, Release, EvictExpired, Begin;
  }

  /**
   * Once a lead has sent its reply, a client that waits on its channel can only take that reply or leave,
   * whatever the store kept.
   */
  lemma {:induction false} WaiterGetsTheReply(
    states: seq<Sys>, steps: seq<Step>, limits: Limits, i: nat, j: nat, c: nat)
    requires IsRun(states, steps, limits) && i < j < |states| && steps[i].SendReply?
    requires c in states[j].clients && states[j].clients[c].Waiting?
    requires states[j].clients[c].channel == states[i].clients[steps[i].c].channel
    ensures
      var s, lead := states[j], states[i].clients[steps[i].c];
      && s.clients[c].key == lead.key
      && (forall key, now :: !Enabled(s, ClaimKey(c, key, now)))
      && Enabled(s, Wake(c)) && Apply(s, Wake(c), limits).clients[c] == Served(lead.key, lead.stage.reply)
  {
    RunKeepsInv(states, steps, limits, i);
    RunKeepsInv(states, steps, limits, j);
    SettledForGood(states, steps, limits, i + 1, j, states[i].clients[steps[i].c].channel);
  }

  /** Once the channel of a dropped lead is closed, no later claim waits on it. */
  lemma {:induction false} ClosedChannelNotSeen(
    states: seq<Sys>, steps: seq<Step>, limits: Limits, i: nat, j: nat, h: nat)
    requires IsRun(states, steps, limits) && i <= j < |steps| && steps[j].ClaimKey?
    requires h < |states[i].channels| && states[i].channels[h].state.Closed?
    ensures
      var after := states[j + 1].clients[steps[j].c];
      after.Waiting? ==>
        after.channel != h && after.channel < |states[j + 1].channels|
        && states[j + 1].channels[after.channel].state.Pending?
  {
    SettledForGood(states, steps, limits, i, j + 1, h);
    RunKeepsInv(states, steps, limits, j + 1);
  }

  /** A waiter is never stuck: its channel is settled, or the client that holds it still has to settle it. */
  lemma {:induction false} WaitersAreNotStuck(states: seq<Sys>, steps: seq<Step>, limits: Limits, i: nat, c: nat)
    requires IsRun(states, steps, limits) && i < |states| && c in states[i].clients && states[i].clients[c].Waiting?
    ensures
      var s := states[i];
      exists step :: Enabled(s, step) && (
        || (step.Wake? && step.c == c) || (step.ClaimKey? && step.c == c)
        || (step.c in s.clients && s.clients[step.c].Holding? && s.clients[step.c].channel == s.clients[c].channel))
  {
    RunKeepsInv(states, steps, limits, i);
    var s := states[i];
    var h := s.clients[c].channel;
    match s.channels[h].state
    case Sent(_) => assert Enabled(s, Wake(c));
    case Closed => assert Enabled(s, ClaimKey(c, s.clients[c].key, 0));
    case Pending =>
      var d := s.channels[h].lead;
      match s.clients[d].stage
      case Exchanging => assert Enabled(s, FreeKey(d));
      case Stored(_) => assert Enabled(s, SendReply(d));
      case Freed => assert Enabled(s, CloseChannel(d));
  }

  // ---- The age of served replies ----

  /** Every completion takes the lock with a time no earlier than those stored before it. */
  ghost predicate InClockOrder(states: seq<Sys>, steps: seq<Step>)
    requires |states| == |steps| + 1
  {
    forall i, k :: 0 <= i < |steps| && steps[i].StoreReply? && 0 <= k < |states[i].cache.order| ==>
      states[i].cache.order[k].1 <= steps[i].now
  }

  lemma {:induction false} RunStaysSorted(states: seq<Sys>, steps: seq<Step>, limits: Limits, i: nat)
    requires IsRun(states, steps, limits) && InClockOrder(states, steps) && i < |states|
    ensures Sorted(states[i].cache.order)
  {
    if i > 0 {
      RunStaysSorted(states, steps, limits, i - 1);
      RunKeepsInv(states, steps, limits, i - 1);
      hide Inv, Enabled, Apply, Sorted;
      StepStaysSorted(states[i - 1], steps[i - 1], limits);
    }
  }

  lemma {:induction false} StepStaysSorted(s: Sys, step: Step, limits: Limits)
    requires Inv(s, limits) && Enabled(s, step) && Sorted(s.cache.order)
    requires step.StoreReply? ==> forall k :: 0 <= k < |s.cache.order| ==> s.cache.order[k].1 <= step.now
    ensures Sorted(Apply(s, step, limits).cache.order)
  {
    hide Valid, Bounded, EvictExpired, Store, ChannelsHeld, RepliesGiven;
    match step
    case ClaimKey(_, _, now) =>
      EvictExpiredKeeps(s.cache, limits.ttl, now);
      SuffixStaysSorted(s.cache.order, |s.cache.order| - |EvictExpired(s.cache, limits.ttl, now).order|);
    case StoreReply(c, reply, now) =>
      StoreStaysSorted(s.cache, s.clients[c].key, reply, now, limits);
    case _ =>
  }

  lemma SuffixStaysSorted(order: seq<(Key, Time)>, k: nat)
    requires Sorted(order) && k <= |order|
    ensures Sorted(order[k..])
  {
  }

  lemma {:induction false} StoreStaysSorted(s: State, key: Key, reply: Reply, now: Time, limits: Limits)
    requires Valid(s) && Sorted(s.order) && (key in s.slots ==> s.slots[key].InFlight?)
    requires forall i :: 0 <= i < |s.order| ==> s.order[i].1 <= now
    ensures Sorted(Store(s, key, reply, now, limits).order)
  {
    ForgetKeeps(s, key);
    if Size(reply) <= limits.maxBytes {
      RoomKeeps(Forget(s, key), Size(reply), now, limits);
      var kept := Room(Forget(s, key), Size(reply), now, limits).order;
      SuffixStaysSorted(s.order, |s.order| - |kept|);
      LaterEntryStaysSorted(kept, (key, now));
    }
  }

  lemma LaterEntryStaysSorted(order: seq<(Key, Time)>, e: (Key, Time))
    requires Sorted(order) && forall i :: 0 <= i < |order| ==> order[i].1 <= e.1
    ensures Sorted(order + [e])
  {
  }

  /** In such a run, a reply that a claim finds in the store is younger than the age limit. */
  lemma {:induction false} ServedRepliesAreFresh(states: seq<Sys>, steps: seq<Step>, limits: Limits, i: nat)
    requires IsRun(states, steps, limits) && InClockOrder(states, steps) && i < |steps| && steps[i].ClaimKey?
    ensures AllFresh(states[i + 1].cache.order, limits.ttl, steps[i].now)
    ensures states[i + 1].clients[steps[i].c].Served? ==> Lists(states[i + 1].cache.order, steps[i].key)
  {
    RunStaysSorted(states, steps, limits, i);
    RunKeepsInv(states, steps, limits, i);
    RunKeepsInv(states, steps, limits, i + 1);
    SortedIsFresh(states[i].cache, limits.ttl, steps[i].now);
  }

  /**
   * The run behind `StaleReplyServed`: two leads read the clock at 5 and 6 and take the lock in the other order, and
   * a third client is served the older reply when it is past the age limit.
   */
  lemma StaleReplyServedInARun(a: Key, b: Key, reply: Reply) returns (states: seq<Sys>, steps: seq<Step>)
    requires a != b && |reply.signedPsbt| <= 100
    ensures var limits := Limits(10, 8, 1000);
      && IsRun(states, steps, limits) && |steps| == 5
      && steps[2] == StoreReply(0, reply, 6) && steps[3] == StoreReply(1, reply, 5) && steps[4] == ClaimKey(2, b, 15)
      && 2 in states[5].clients && states[5].clients[2] == Served(b, reply) && Age(5, 15) >= limits.ttl
  {
    hide Init, Enabled, Apply, IsRun, Begin;
    var limits := Limits(10, 8, 1000);
    var s0, s1, s2 := TwoLeads(a, b, limits);
    var s3, s4, s5 := StaleClaim(s2, a, b, reply);
    states, steps := [s0], [];
    StartRun(s0, limits);
    states, steps := ExtendRun(states, steps, ClaimKey(0, a, 0), limits);
    states, steps := ExtendRun(states, steps, ClaimKey(1, b, 0), limits);
    states, steps := ExtendRun(states, steps, StoreReply(0, reply, 6), limits);
    states, steps := ExtendRun(states, steps, StoreReply(1, reply, 5), limits);
    states, steps := ExtendRun(states, steps, ClaimKey(2, b, 15), limits);
  }

  lemma StartRun(s: Sys, limits: Limits)
    requires Init(s)
    ensures IsRun([s], [], limits)
  {
  }

  lemma ExtendRun(states: seq<Sys>, steps: seq<Step>, step: Step, limits: Limits)
    returns (longer: seq<Sys>, more: seq<Step>)
    requires |states| == |steps| + 1 && IsRun(states, steps, limits) && Enabled(states[|steps|], step)
    ensures longer == states + [Apply(states[|steps|], step, limits)] && more == steps + [step]
    ensures IsRun(longer, more, limits)
  {
    hide Init, Enabled, Apply;
    longer, more := states + [Apply(states[|steps|], step, limits)], steps + [step];
    forall i | 0 <= i < |more|
      ensures Enabled(longer[i], more[i]) && longer[i + 1] == Apply(longer[i], more[i], limits)
    {
      if i < |steps| { assert longer[i] == states[i] && longer[i + 1] == states[i + 1] && more[i] == steps[i]; }
    }
  }

  lemma StaleClaim(s2: Sys, a: Key, b: Key, reply: Reply) returns (s3: Sys, s4: Sys, s5: Sys)
    requires a != b && |reply.signedPsbt| <= 100
    requires s2.cache == Begin(Begin(EMPTY, a, 0), b, 1) && |s2.channels| == 2
    requires s2.clients == map[0 := Holding(a, 0, Exchanging), 1 := Holding(b, 1, Exchanging), 2 := Idle]
    ensures var limits := Limits(10, 8, 1000);
      && Enabled(s2, StoreReply(0, reply, 6)) && s3 == Apply(s2, StoreReply(0, reply, 6), limits)
      && Enabled(s3, StoreReply(1, reply, 5)) && s4 == Apply(s3, StoreReply(1, reply, 5), limits)
      && Enabled(s4, ClaimKey(2, b, 15)) && s5 == Apply(s4, ClaimKey(2, b, 15), limits)
      && 2 in s5.clients && s5.clients[2] == Served(b, reply)
  {
    hide Claim, Store, Begin;
    var limits := Limits(10, 8, 1000);
    s3 := Apply(s2, StoreReply(0, reply, 6), limits);
    s4 := Apply(s3, StoreReply(1, reply, 5), limits);
    StaleReplyServed(a, b, reply);
    s5 := Apply(s4, ClaimKey(2, b, 15), limits);
  }

  /** Two clients of a new store lead on different keys. */
  lemma TwoLeads(a: Key, b: Key, limits: Limits) returns (s0: Sys, s1: Sys, s2: Sys)
    requires a != b
    ensures Init(s0) && Enabled(s0, ClaimKey(0, a, 0)) && s1 == Apply(s0, ClaimKey(0, a, 0), limits)
    ensures Enabled(s1, ClaimKey(1, b, 0)) && s2 == Apply(s1, ClaimKey(1, b, 0), limits)
    ensures s2.cache == Begin(Begin(EMPTY, a, 0), b, 1) && |s2.channels| == 2
    ensures s2.clients == map[0 := Holding(a, 0, Exchanging), 1 := Holding(b, 1, Exchanging), 2 := Idle]
  {
    s0 := Sys(EMPTY, [], map[0 := Idle, 1 := Idle, 2 := Idle], {});
    s1 := Apply(s0, ClaimKey(0, a, 0), limits);
    assert s1.cache == Begin(EMPTY, a, 0);
    s2 := Apply(s1, ClaimKey(1, b, 0), limits);
  }
}
