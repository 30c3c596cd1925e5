/**
 * The sliding window that paces header sync (`parent/src/header_sync.rs`): at most 50,000 headers in any
 * 60 seconds. Times are nanoseconds of a clock that never goes back.
 */
module HeaderRate {
  const RATE_LIMIT: nat := 50_000
  const RATE_WINDOW: nat := 60_000_000_000

  datatype Batch = Batch(at: nat, headers: nat)

  function Total(s: seq<Batch>): nat {
    if s == [] then 0 else s[0].headers + Total(s[1..])
  }

  /** The headers recorded from `from` on, for 60 seconds. */
  function InWindow(s: seq<Batch>, from: nat): nat {
    if s == [] then 0
    else (if from <= s[0].at < from + 60_000_000_000 then s[0].headers else 0) + InWindow(s[1..], from)
  }

  predicate InOrder(s: seq<Batch>) { forall i, j :: 0 <= i < j < |s| ==> s[i].at <= s[j].at }

  /** Any run of batches that starts and ends within one window is within the limit. */
  ghost predicate Limited(s: seq<Batch>) {
    forall i, j :: 0 <= i <= j < |s| && s[j].at < s[i].at + RATE_WINDOW ==> Total(s[i..j + 1]) <= RATE_LIMIT
  }

  /** The headers of the batches that are less than a window old. */
  function Recent(s: seq<Batch>, now: nat): nat {
    if s == [] then 0 else (if now < s[0].at + RATE_WINDOW then s[0].headers else 0) + Recent(s[1..], now)
  }

  class Clock {
    var now: nat
    ghost var sleeps: nat

    method Read() returns (t: nat)
      modifies this
      ensures old(now) <= now == t && sleeps == old(sleeps)
    {
      var later: nat :| now <= later;
      now := later;
      t := now;
    }

    method Sleep(d: nat)
      modifies this
      ensures now >= old(now) + d && sleeps == old(sleeps) + 1
    {
      var later: nat :| now + d <= later;
      now, sleeps := later, sleeps + 1;
    }
  }

  /** `sent` is the history without its first `gone` batches, which are a window old. */
  ghost predicate Paced(sent: seq<Batch>, history: seq<Batch>, gone: nat, now: nat) {
    && gone <= |history| && sent == history[gone..]
    && InOrder(history) && Limited(history) && Total(sent) <= RATE_LIMIT
    && (forall i :: 0 <= i < |history| ==> history[i].at <= now)
    && (forall i :: 0 <= i < gone ==> history[i].at + RATE_WINDOW <= now)
  }

  class HeaderSync {
    const clock: Clock
    var sent: seq<Batch>
    ghost var history: seq<Batch>
    ghost var gone: nat

    ghost predicate Valid()
      reads this, clock
    {
      Paced(sent, history, gone, clock.now)
    }

    constructor (clock: Clock)
      ensures Valid() && sent == [] && history == [] && this.clock == clock
    {
      this.clock := clock;
      sent, history, gone := [], [], 0;
    }

    ghost predicate FrontExpired()
      reads this, clock
    {
      sent != [] && sent[0].at + RATE_WINDOW <= clock.now
    }

    method DropExpired(now: nat)
      requires Valid() && now == clock.now
      modifies this`sent, this`gone
      ensures Valid()
      ensures |sent| <= |old(sent)|
      ensures old(FrontExpired()) ==> |sent| < |old(sent)|
      ensures sent != [] ==> sent[0].at <= now < sent[0].at + RATE_WINDOW
      ensures Total(sent) == Recent(old(sent), now)
    {
      hide Paced;
      FrontInPast(sent, history, gone, now);
      while sent != [] && now - sent[0].at >= RATE_WINDOW
        invariant Valid() && (sent != [] ==> sent[0].at <= now)
        invariant |sent| < |old(sent)| || sent == old(sent)
        invariant Recent(sent, now) == Recent(old(sent), now)
        decreases |sent|
      {
        FrontDropped(sent, history, gone, now);
        sent, gone := sent[1..], gone + 1;
        FrontInPast(sent, history, gone, now);
      }
      SentInOrder(sent, history, gone, now);
      AllRecent(sent, now);
    }

    method Used() returns (used: nat)
      ensures used == Total(sent)
    {
      used := 0;
      for i := 0 to |sent|
        invariant used + Total(sent[i..]) == Total(sent)
      {
        used := used + sent[i].headers;
      }
    }

    /**
     * Records `n` more headers, when the window has room for them. The sum of used and new headers stays within
     * the 32 bits it is taken in. Callers send at most 2016 at a time.
     */
    method WaitForRate(n: nat)
      requires Valid() && n + RATE_LIMIT < 0x1_0000_0000
      modifies this, clock
      ensures n <= RATE_LIMIT ==> Valid()
      ensures exists at :: old(clock.now) <= at && history == old(history) + [Batch(at, n)]
      // It never sleeps when there is room beside the batches that are less than a window old.
      ensures Recent(old(sent), old(clock.now)) + n <= RATE_LIMIT ==> clock.sleeps == old(clock.sleeps)
      ensures (forall from :: InWindow(history, from) <= 50_000) <==> n <= 50_000
    {
      hide Paced, Total;
      while true
        invariant Valid() && history == old(history) && old(clock.now) <= clock.now
        invariant Recent(old(sent), old(clock.now)) + n <= RATE_LIMIT ==>
          sent == old(sent) && clock.sleeps == old(clock.sleeps)
        decreases |sent| - if FrontExpired() then 1 else 0
      {
        ghost var before := clock.now;
        var now := clock.Read();
        Later(sent, history, gone, before, now);
        RecentShrinks(sent, old(clock.now), now);
        DropExpired(now);
        var used := Used();
        if sent != [] && used + n > RATE_LIMIT {
          clock.Sleep(RATE_WINDOW - (now - sent[0].at));
          Later(sent, history, gone, now, clock.now);
        } else {
          RoomFor(sent, n, used);
          break;
        }
      }
      ghost var before := clock.now;
      var at := clock.Read();
      Later(sent, history, gone, before, at);
      if n <= RATE_LIMIT { Recorded(sent, history, gone, Batch(at, n)); }
      LastWindow(history, Batch(at, n));
      sent, history := sent + [Batch(at, n)], history + [Batch(at, n)];
      if n <= RATE_LIMIT { WindowsAreLimited(sent, history, gone, at); }
    }
  }

  lemma {:induction false} RecentShrinks(s: seq<Batch>, now: nat, later: nat)
    requires now <= later
    ensures Recent(s, later) <= Recent(s, now)
  {
    if s != [] { RecentShrinks(s[1..], now, later); }
  }

  lemma SentInOrder(sent: seq<Batch>, history: seq<Batch>, gone: nat, now: nat)
    requires Paced(sent, history, gone, now)
    ensures InOrder(sent)
  {
    hide Limited, Total;
  }

  lemma {:induction false} AllRecent(s: seq<Batch>, now: nat)
    requires InOrder(s) && (s != [] ==> now < s[0].at + RATE_WINDOW)
    ensures Recent(s, now) == Total(s)
  {
    if s != [] { AllRecent(s[1..], now); }
  }

  lemma RoomFor(sent: seq<Batch>, n: nat, used: nat)
    requires used == Total(sent) && (sent == [] || used + n <= RATE_LIMIT)
    ensures n <= RATE_LIMIT ==> Total(sent) + n <= RATE_LIMIT
  {
  }

  lemma FrontInPast(sent: seq<Batch>, history: seq<Batch>, gone: nat, now: nat)
    requires Paced(sent, history, gone, now)
    ensures sent != [] ==> sent[0].at <= now
  {
  }

  lemma FrontDropped(sent: seq<Batch>, history: seq<Batch>, gone: nat, now: nat)
    requires Paced(sent, history, gone, now) && sent != [] && sent[0].at + RATE_WINDOW <= now
    ensures Paced(sent[1..], history, gone + 1, now)
  {
    hide Limited, InOrder;
    assert sent[1..] == history[gone + 1..];
  }

  lemma Later(sent: seq<Batch>, history: seq<Batch>, gone: nat, now: nat, later: nat)
    requires Paced(sent, history, gone, now) && now <= later
    ensures Paced(sent, history, gone, later)
  {
    hide Limited, InOrder, Total;
  }

  lemma {:induction false} TotalAppend(s: seq<Batch>, b: Batch)
    ensures Total(s + [b]) == Total(s) + b.headers
  {
    if s == [] {
      assert s + [b] == [b];
      assert Total([b]) == b.headers + Total([]);
    } else {
      TotalAppend(s[1..], b);
      assert (s + [b])[1..] == s[1..] + [b];
    }
  }

  lemma {:induction false} TotalOfSuffix(s: seq<Batch>, i: nat)
    requires i <= |s|
    ensures Total(s[i..]) <= Total(s)
  {
    if i > 0 {
      TotalOfSuffix(s[1..], i - 1);
      assert s[1..][i - 1..] == s[i..];
    }
  }

  lemma LimitedAppend(history: seq<Batch>, gone: nat, b: Batch)
    requires gone <= |history| && Limited(history) && Total(history[gone..]) + b.headers <= RATE_LIMIT
    requires forall i :: 0 <= i < gone ==> history[i].at + RATE_WINDOW <= b.at
    ensures Limited(history + [b])
  {
    hide Total;
    var s := history + [b];
    forall i, j | 0 <= i <= j < |s| && s[j].at < s[i].at + RATE_WINDOW ensures Total(s[i..j + 1]) <= RATE_LIMIT {
      if j < |history| {
        assert s[i..j + 1] == history[i..j + 1];
      } else {
        assert s[i..j + 1] == history[i..] + [b];
        TotalAppend(history[i..], b);
        assert i >= gone;
        TotalOfSuffix(history[gone..], i - gone);
        assert history[gone..][i - gone..] == history[i..];
      }
    }
  }

  /** A batch that fits beside all that are younger than a window keeps the history within the limit. */
  lemma Recorded(sent: seq<Batch>, history: seq<Batch>, gone: nat, b: Batch)
    requires Paced(sent, history, gone, b.at) && Total(sent) + b.headers <= RATE_LIMIT
    ensures Paced(sent + [b], history + [b], gone, b.at)
  {
    hide Total, Limited;
    TotalAppend(sent, b);
    LimitedAppend(history, gone, b);
    assert (history + [b])[gone..] == history[gone..] + [b];
  }

  // ---- The bound over every window ----

  lemma {:induction false} NothingBefore(s: seq<Batch>, from: nat)
    requires forall i :: 0 <= i < |s| ==> s[i].at >= from + RATE_WINDOW
    ensures InWindow(s, from) == 0
  {
    if s != [] { NothingBefore(s[1..], from); }
  }

  /** From the first batch of a window on, the window holds a run of batches from the front. */
  lemma {:induction false} WindowIsRun(s: seq<Batch>, from: nat) returns (n: nat)
    requires InOrder(s) && forall i :: 0 <= i < |s| ==> s[i].at >= from
    ensures n <= |s| && InWindow(s, from) == Total(s[..n])
    ensures forall i :: 0 <= i < n ==> s[i].at < from + RATE_WINDOW
  {
    if s == [] || s[0].at >= from + RATE_WINDOW {
      NothingBefore(s, from);
      n := 0;
    } else {
      var m := WindowIsRun(s[1..], from);
      n := m + 1;
      assert s[..n][1..] == s[1..][..m];
    }
  }

  /** In every history that the sync can record, no window of 60 seconds holds more than 50,000 headers. */
  lemma {:induction false} EveryWindowIsLimited(history: seq<Batch>, from: nat)
    requires InOrder(history) && Limited(history)
    ensures InWindow(history, from) <= 50_000
  {
    if history != [] && history[0].at < from {
      LimitedRest(history);
      EveryWindowIsLimited(history[1..], from);
    } else {
      var n := WindowIsRun(history, from);
      if n > 0 {
        var last := n - 1;
        assert history[last].at < history[0].at + RATE_WINDOW;
        assert history[..n] == history[0..last + 1];
      }
    }
  }

  /** The window that a batch opens holds at least that batch. */
  lemma {:induction false} LastWindow(s: seq<Batch>, b: Batch)
    ensures InWindow(s + [b], b.at) >= b.headers
  {
    if s == [] {
      assert s + [b] == [b];
    } else {
      LastWindow(s[1..], b);
      assert (s + [b])[1..] == s[1..] + [b];
    }
  }

  lemma WindowsAreLimited(sent: seq<Batch>, history: seq<Batch>, gone: nat, now: nat)
    requires Paced(sent, history, gone, now)
    ensures forall from :: InWindow(history, from) <= RATE_LIMIT
  {
    forall from ensures InWindow(history, from) <= RATE_LIMIT { EveryWindowIsLimited(history, from); }
  }

  lemma LimitedRest(s: seq<Batch>)
    requires s != [] && Limited(s)
    ensures Limited(s[1..])
  {
    hide Total;
    var t := s[1..];
    forall i, j | 0 <= i <= j < |t| && t[j].at < t[i].at + RATE_WINDOW ensures Total(t[i..j + 1]) <= RATE_LIMIT {
      assert t[i..j + 1] == s[i + 1..j + 1 + 1];
    }
  }
}
