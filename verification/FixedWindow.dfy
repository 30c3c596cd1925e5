/** The fixed-window budget that all clients of a method share (`parent/src/transport_security.rs`). */
module FixedWindow {
  datatype Window = Window(start: nat, used: nat)

  /** The two readings of the clock that a charge may make, under the lock. */
  datatype Call = Call(now: nat, reset: nat)

  predicate Elapsed(w: Window, period: nat, c: Call) { w.start + period <= c.now }

  function Opened(w: Window, period: nat, c: Call): Window { if Elapsed(w, period, c) then Window(c.reset, 0) else w }

  function Charge(w: Window, limit: nat, period: nat, c: Call): Window {
    var v := Opened(w, period, c);
    if v.used >= limit then v else v.(used := v.used + 1)
  }

  function Charges(w: Window, limit: nat, period: nat, c: Call): nat {
    if Opened(w, period, c).used >= limit then 0 else 1
  }

  class Budget {
    const limit: nat
    var window: Window

    constructor (limit: nat, now: nat)
      ensures this.limit == limit && window == Window(now, 0)
    {
      this.limit := limit;
      window := Window(now, 0);
    }

    method ChargeOne(period: nat, c: Call) returns (admitted: bool)
      requires window.start <= c.now <= c.reset && window.used <= limit
      modifies this
      ensures window == Charge(old(window), limit, period, c) && window.used <= limit
      ensures Charges(old(window), limit, period, c) == if admitted then 1 else 0
    {
      if c.now - window.start >= period { window := Window(c.reset, 0); }
      if window.used >= limit { return false; }
      window := window.(used := window.used + 1);
      return true;
    }
  }

  function After(w: Window, limit: nat, period: nat, calls: seq<Call>): Window
    decreases |calls|
  {
    if calls == [] then w else After(Charge(w, limit, period, calls[0]), limit, period, calls[1..])
  }

  function Admitted(w: Window, limit: nat, period: nat, calls: seq<Call>): nat
    decreases |calls|
  {
    if calls == [] then 0
    else Charges(w, limit, period, calls[0]) + Admitted(Charge(w, limit, period, calls[0]), limit, period, calls[1..])
  }

  /** The clock does not go back from one reading to the next. */
  predicate InOrder(calls: seq<Call>) {
    && (forall i :: 0 <= i < |calls| ==> calls[i].now <= calls[i].reset)
    && (forall i, j :: 0 <= i < j < |calls| ==> calls[i].reset <= calls[j].now)
  }

  lemma {:induction false} StaysWithinLimit(w: Window, limit: nat, period: nat, calls: seq<Call>)
    requires w.used <= limit
    ensures After(w, limit, period, calls).used <= limit
    decreases |calls|
  {
    if calls != [] { StaysWithinLimit(Charge(w, limit, period, calls[0]), limit, period, calls[1..]); }
  }

  lemma {:induction false} RunsCompose(w: Window, limit: nat, period: nat, first: seq<Call>, rest: seq<Call>)
    ensures After(w, limit, period, first + rest) == After(After(w, limit, period, first), limit, period, rest)
    ensures Admitted(w, limit, period, first + rest) ==
      Admitted(w, limit, period, first) + Admitted(After(w, limit, period, first), limit, period, rest)
    decreases |first|
  {
    if first == [] {
      assert first + rest == rest;
    } else {
      assert (first + rest)[1..] == first[1..] + rest;
      RunsCompose(Charge(w, limit, period, first[0]), limit, period, first[1..], rest);
    }
  }

  function Smaller(a: nat, b: nat): nat { if a < b then a else b }

  /** While the window stays open, calls are admitted until nothing is left of it, and then none. */
  lemma {:induction false} OneWindow(w: Window, limit: nat, period: nat, calls: seq<Call>)
    requires w.used <= limit && forall i :: 0 <= i < |calls| ==> calls[i].now < w.start + period
    ensures Admitted(w, limit, period, calls) == Smaller(|calls|, limit - w.used)
    decreases |calls|
  {
    if calls != [] { OneWindow(Charge(w, limit, period, calls[0]), limit, period, calls[1..]); }
  }

  /** The first call a period after the start opens a new window, which admits up to the limit again. */
  lemma {:induction false} NewWindow(w: Window, limit: nat, period: nat, calls: seq<Call>)
    requires calls != [] && calls[0].now >= w.start + period
    requires forall i :: 0 <= i < |calls| ==> calls[i].now < calls[0].reset + period
    ensures Admitted(w, limit, period, calls) == Smaller(|calls|, limit)
  {
    OneWindow(Window(calls[0].reset, 0), limit, period, calls);
  }

  /** Calls within one period see at most one new window. */
  lemma {:induction false} TwoWindows(w: Window, limit: nat, period: nat, calls: seq<Call>, start: nat)
    requires w.used <= limit && InOrder(calls)
    requires forall i :: 0 <= i < |calls| ==> start <= calls[i].now < start + period
    ensures Admitted(w, limit, period, calls) <= limit - w.used + limit
    decreases |calls|
  {
    if calls != [] {
      var next := Charge(w, limit, period, calls[0]);
      if Elapsed(w, period, calls[0]) {
        OneWindow(next, limit, period, calls[1..]);
      } else {
        TwoWindows(next, limit, period, calls[1..], start);
      }
    }
  }

  /** In every run, an interval of one period admits at most twice the limit. */
  lemma PeriodAdmitsAtMost(
      w: Window, limit: nat, period: nat, before: seq<Call>, calls: seq<Call>, after: seq<Call>, start: nat)
    requires w.used <= limit && InOrder(before + calls + after)
    requires forall i :: 0 <= i < |calls| ==> start <= calls[i].now < start + period
    ensures Admitted(w, limit, period, before + calls + after) - Admitted(w, limit, period, before)
        - Admitted(After(w, limit, period, before + calls), limit, period, after)
      == Admitted(After(w, limit, period, before), limit, period, calls)
    ensures Admitted(After(w, limit, period, before), limit, period, calls) <= 2 * limit
  {
    RunsCompose(w, limit, period, before + calls, after);
    RunsCompose(w, limit, period, before, calls);
    StaysWithinLimit(w, limit, period, before);
    assert InOrder(calls) by {
      var all := before + calls + after;
      assert forall i :: 0 <= i < |calls| ==> calls[i] == all[|before| + i];
    }
    TwoWindows(After(w, limit, period, before), limit, period, calls, start);
  }
}
