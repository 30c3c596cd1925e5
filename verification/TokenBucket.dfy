/**
 * The token bucket of a seed-broker peer (`parent/src/seed_persistence.rs`): four operations a second, bursts of
 * eight. Seconds and tokens are real numbers.
 */
module TokenBucket {
  const OPERATION_RATE: real := 4.0
  const OPERATION_BURST: real := 8.0

  datatype Bucket = Bucket(tokens: real, last: real)

  /** A time before the last one adds nothing. */
  function Elapsed(from: real, to: real): (d: real)
    ensures d >= 0.0
  {
    if to > from then to - from else 0.0
  }

  function Refill(b: Bucket, now: real): Bucket {
    var tokens := b.tokens + Elapsed(b.last, now) * OPERATION_RATE;
    Bucket(if tokens < OPERATION_BURST then tokens else OPERATION_BURST, now)
  }

  function Spend(b: Bucket): Bucket { if b.tokens < 1.0 then b else b.(tokens := b.tokens - 1.0) }

  predicate Valid(b: Bucket) { 0.0 <= b.tokens <= OPERATION_BURST }

  class Peer {
    var bucket: Bucket

    constructor (now: real)
      ensures bucket == Bucket(8.0, now)
    {
      bucket := Bucket(OPERATION_BURST, now);
    }

    method TakeToken(now: real) returns (admitted: bool)
      requires Valid(bucket)
      modifies this
      ensures Valid(bucket)
      ensures bucket == After(old(bucket), [now]) && Admitted(old(bucket), [now]) == (if admitted then 1 else 0)
    {
      var tokens := bucket.tokens + Elapsed(bucket.last, now) * OPERATION_RATE;
      if tokens > OPERATION_BURST { tokens := OPERATION_BURST; }
      bucket := Bucket(tokens, now);
      assert bucket == Refill(old(bucket), now);
      OneCall(old(bucket), now);
      if bucket.tokens < 1.0 { return false; }
      bucket := bucket.(tokens := bucket.tokens - 1.0);
      return true;
    }
  }

  /** The bucket after calls at these times, in the order they took the lock. */
  function After(b: Bucket, times: seq<real>): Bucket
    decreases |times|
  {
    if times == [] then b else After(Spend(Refill(b, times[0])), times[1..])
  }

  /** How many of the calls are admitted. */
  function Admitted(b: Bucket, times: seq<real>): nat
    decreases |times|
  {
    if times == [] then 0
    else (if Refill(b, times[0]).tokens < 1.0 then 0 else 1) + Admitted(Spend(Refill(b, times[0])), times[1..])
  }

  lemma OneCall(b: Bucket, now: real)
    ensures After(b, [now]) == Spend(Refill(b, now))
    ensures Admitted(b, [now]) == if Refill(b, now).tokens < 1.0 then 0 else 1
  {
    assert [now][1..] == [];
  }

  /** How far the times climb, steps back not counted. */
  function Climb(times: seq<real>): real {
    if |times| <= 1 then 0.0 else Elapsed(times[0], times[1]) + Climb(times[1..])
  }

  predicate InOrder(times: seq<real>) { forall i, j :: 0 <= i < j < |times| ==> times[i] <= times[j] }

  lemma {:induction false} KeepsValid(b: Bucket, times: seq<real>)
    requires Valid(b)
    ensures Valid(After(b, times))
    decreases |times|
  {
    if times != [] { KeepsValid(Spend(Refill(b, times[0])), times[1..]); }
  }

  /** The calls of a run are those of its first part and then those of the rest. */
  lemma {:induction false} RunsCompose(b: Bucket, first: seq<real>, rest: seq<real>)
    ensures After(b, first + rest) == After(After(b, first), rest)
    ensures Admitted(b, first + rest) == Admitted(b, first) + Admitted(After(b, first), rest)
    decreases |first|
  {
    if first == [] {
      assert first + rest == rest;
    } else {
      assert (first + rest)[1..] == first[1..] + rest;
      RunsCompose(Spend(Refill(b, first[0])), first[1..], rest);
    }
  }

  /** After a refill, what is admitted is paid for by the tokens there and those the later climbs add. */
  lemma {:induction false} TokensPay(b: Bucket, times: seq<real>)
    requires Valid(b) && times != []
    ensures Admitted(b, times) as real <= Refill(b, times[0]).tokens + OPERATION_RATE * Climb(times)
    decreases |times|
  {
    var full := Refill(b, times[0]);
    var next := Spend(full);
    var rest := times[1..];
    if rest != [] {
      TokensPay(next, rest);
      assert Refill(next, rest[0]).tokens <= next.tokens + OPERATION_RATE * Elapsed(times[0], times[1]);
    }
  }

  /** In any order of times, a stretch of calls admits at most the burst and the rate over its climbs. */
  lemma AdmitsAtMost(b: Bucket, times: seq<real>)
    requires Valid(b) && times != []
    ensures Admitted(b, times) as real <= 8.0 + 4.0 * Climb(times)
  {
    TokensPay(b, times);
  }

  lemma {:induction false} ClimbInOrder(times: seq<real>)
    requires times != [] && InOrder(times)
    ensures Climb(times) == times[|times| - 1] - times[0]
  {
    if |times| > 1 { ClimbInOrder(times[1..]); }
  }

  /** In every run whose calls lock in clock order, an interval of `t` seconds admits at most 8 + 4t. */
  lemma IntervalAdmitsAtMost(b: Bucket, before: seq<real>, times: seq<real>, after: seq<real>, start: real, t: real)
    requires Valid(b) && InOrder(before + times + after) && t >= 0.0
    requires forall i :: 0 <= i < |times| ==> start <= times[i] <= start + t
    ensures Admitted(b, before + times + after) - Admitted(b, before) - Admitted(After(b, before + times), after)
      == Admitted(After(b, before), times)
    ensures Admitted(After(b, before), times) as real <= 8.0 + 4.0 * t
  {
    RunsCompose(b, before + times, after);
    RunsCompose(b, before, times);
    KeepsValid(b, before);
    if times != [] {
      AdmitsAtMost(After(b, before), times);
      assert InOrder(times) by {
        forall i, j | 0 <= i < j < |times| ensures times[i] <= times[j] {
          var all := before + times + after;
          assert times[i] == all[|before| + i] && times[j] == all[|before| + j];
        }
      }
      ClimbInOrder(times);
    }
  }

  function Repeat(t: real, n: nat): seq<real> { if n == 0 then [] else [t] + Repeat(t, n - 1) }

  lemma {:induction false} DrainAt(tokens: nat, t: real)
    requires tokens <= 8
    ensures Admitted(Bucket(tokens as real, t), Repeat(t, tokens)) == tokens
    ensures After(Bucket(tokens as real, t), Repeat(t, tokens)) == Bucket(0.0, t)
  {
    if tokens > 0 {
      assert Repeat(t, tokens)[1..] == Repeat(t, tokens - 1);
      DrainAt(tokens - 1, t);
    }
  }

  /**
   * The clock is read before the lock. Calls that take the lock out of order can pass the bound of their
   * interval: here ten in a quarter of a second, where in order there are at most nine.
   */
  lemma OutOfOrderAdmitsMore()
    ensures var times := Repeat(0.0, 8) + [0.25, 0.0, 0.25];
      && (forall t :: t in times ==> 0.0 <= t <= 0.25)
      && Admitted(Bucket(8.0, 0.0), times) as real > 8.0 + 4.0 * 0.25
  {
    DrainAt(8, 0.0);
    var tail := [0.25, 0.0, 0.25];
    RunsCompose(Bucket(8.0, 0.0), Repeat(0.0, 8), tail);
    assert tail[1..] == [0.0, 0.25] && [0.0, 0.25][1..] == [0.25];
    assert Admitted(Bucket(0.0, 0.0), [0.25]) == 1;
    OneCall(Bucket(0.0, 0.0), 0.25);
    assert Admitted(Bucket(0.0, 0.25), [0.0, 0.25]) == 1;
    assert Admitted(Bucket(0.0, 0.0), tail) == 2;
    RepeatIsConstant(0.0, 8);
  }

  lemma {:induction false} RepeatIsConstant(t: real, n: nat)
    ensures forall x :: x in Repeat(t, n) ==> x == t
  {
    if n > 0 { RepeatIsConstant(t, n - 1); }
  }

  // ---- When the bound of an interval holds in any order ----

  lemma {:induction false} ClimbJoin(first: seq<real>, rest: seq<real>)
    requires first != []
    ensures Climb(first + rest) == Climb(first) + Climb([first[|first| - 1]] + rest)
    decreases |first|
  {
    if |first| == 1 {
      assert first == [first[0]];
    } else {
      assert (first + rest)[1..] == first[1..] + rest;
      ClimbJoin(first[1..], rest);
    }
  }

  lemma {:induction false} ClimbOfConstant(times: seq<real>, start: real)
    requires forall x :: x in times ==> x == start
    ensures Climb(times) == 0.0
  {
    if |times| > 1 {
      assert times[0] in times && times[1] in times && forall x :: x in times[1..] ==> x in times;
      ClimbOfConstant(times[1..], start);
    }
  }

  /** `k` times a step of `s` up from `start` and back. */
  function Pairs(start: real, s: real, k: nat): seq<real> {
    if k == 0 then [] else [start + s, start] + Pairs(start, s, k - 1)
  }

  lemma {:induction false} PairsClimb(start: real, s: real, k: nat)
    requires s > 0.0
    ensures var times := [start] + Pairs(start, s, k); times[|times| - 1] == start && Climb(times) == s * k as real
  {
    if k > 0 {
      hide Climb;
      var rest := [start] + Pairs(start, s, k - 1);
      PairsClimb(start, s, k - 1);
      OneFewer(s, k);
      StepClimb(start, s, rest);
      assert [start] + Pairs(start, s, k) == [start, start + s] + rest;
    }
  }

  lemma StepClimb(start: real, s: real, rest: seq<real>)
    requires s > 0.0 && rest != [] && rest[0] == start
    ensures Climb([start, start + s] + rest) == s + Climb(rest)
  {
    var times := [start, start + s] + rest;
    assert times[1..] == [start + s] + rest && times[1..][1..] == rest;
  }

  /** Steps that add one token between them admit one call, and leave the bucket empty again. */
  lemma {:induction false} PairsAdmitOne(tokens: real, start: real, s: real, k: nat)
    requires tokens >= 0.0 && s > 0.0 && k >= 1 && tokens + OPERATION_RATE * (s * k as real) == 1.0
    ensures Admitted(Bucket(tokens, start), Pairs(start, s, k)) == 1
    ensures After(Bucket(tokens, start), Pairs(start, s, k)) == Bucket(0.0, start)
    decreases k
  {
    hide Admitted, After, Refill, Spend;
    var b, rest := Bucket(tokens, start), Pairs(start, s, k - 1);
    OneFewer(s, k);
    assert Pairs(start, s, k) == [start + s, start] + rest;
    RunsCompose(b, [start + s, start], rest);
    OnePair(tokens, start, s);
    if k == 1 {
      NoCalls(Bucket(0.0, start));
    } else {
      PairsAdmitOne(tokens + OPERATION_RATE * s, start, s, k - 1);
    }
  }

  lemma OneFewer(s: real, k: nat)
    requires s > 0.0 && k >= 1
    ensures s * k as real == s + s * (k - 1) as real && (k > 1 ==> s * (k - 1) as real > 0.0)
  {
  }

  lemma NoCalls(b: Bucket)
    ensures After(b, []) == b && Admitted(b, []) == 0
  {
  }

  lemma OnePair(tokens: real, start: real, s: real)
    requires tokens >= 0.0 && s > 0.0 && tokens + OPERATION_RATE * s <= 1.0
    ensures var b, next := Bucket(tokens, start), tokens + OPERATION_RATE * s;
      if next < 1.0 then Admitted(b, [start + s, start]) == 0 && After(b, [start + s, start]) == Bucket(next, start)
      else Admitted(b, [start + s, start]) == 1 && After(b, [start + s, start]) == Bucket(0.0, start)
  {
    hide Admitted, After;
    TwoCalls(Bucket(tokens, start), start + s, start);
  }

  lemma TwoCalls(b: Bucket, t: real, u: real)
    ensures
      var c := Spend(Refill(b, t));
      && After(b, [t, u]) == Spend(Refill(c, u))
      && Admitted(b, [t, u]) ==
        (if Refill(b, t).tokens < 1.0 then 0 else 1) + (if Refill(c, u).tokens < 1.0 then 0 else 1)
  {
    assert [t, u][1..] == [u];
    OneCall(Spend(Refill(b, t)), u);
  }

  function Blocks(start: real, s: real, k: nat, n: nat): seq<real> {
    if n == 0 then [] else Pairs(start, s, k) + Blocks(start, s, k, n - 1)
  }

  lemma {:induction false} BlocksAdmit(start: real, s: real, k: nat, n: nat)
    requires s > 0.0 && k >= 1 && s * k as real == 0.25
    ensures Admitted(Bucket(0.0, start), Blocks(start, s, k, n)) == n
  {
    if n > 0 {
      PairsAdmitOne(0.0, start, s, k);
      RunsCompose(Bucket(0.0, start), Pairs(start, s, k), Blocks(start, s, k, n - 1));
      BlocksAdmit(start, s, k, n - 1);
    }
  }

  lemma {:induction false} BlocksClimb(start: real, s: real, k: nat, n: nat)
    requires s > 0.0 && s * k as real == 0.25
    ensures Climb([start] + Blocks(start, s, k, n)) == 0.25 * n as real
  {
    if n > 0 {
      PairsClimb(start, s, k);
      var first, rest := [start] + Pairs(start, s, k), Blocks(start, s, k, n - 1);
      ClimbJoin(first, rest);
      BlocksClimb(start, s, k, n - 1);
      assert [start] + Blocks(start, s, k, n) == first + rest;
    }
  }

  lemma {:induction false} PairsWithin(start: real, s: real, k: nat)
    ensures forall x :: x in Pairs(start, s, k) ==> x == start || x == start + s
  {
    if k > 0 { PairsWithin(start, s, k - 1); }
  }

  lemma {:induction false} BlocksWithin(start: real, s: real, k: nat, n: nat)
    ensures forall x :: x in Blocks(start, s, k, n) ==> x == start || x == start + s
  {
    if n > 0 {
      PairsWithin(start, s, k);
      BlocksWithin(start, s, k, n - 1);
    }
  }

  /** Steps of at most `t` that make a quarter of a second. */
  lemma SmallSteps(t: real) returns (k: nat, s: real)
    requires t > 0.0
    ensures k >= 1 && 0.0 < s <= t && s * k as real == 0.25
  {
    var q := 0.25 / t;
    Quotient(0.25, t);
    k := q.Floor + 1;
    var r := k as real;
    s := 0.25 / r;
    Quotient(0.25, r);
    StepFits(q, r, s, t);
  }

  lemma StepFits(q: real, r: real, s: real, t: real)
    requires q * t == s * r && 0.0 < q < r && t > 0.0
    ensures s <= t
  {
    TimesLess(q, r, t);
    LessTimes(s, t, r);
  }

  lemma LessTimes(a: real, b: real, c: real)
    requires a * c <= b * c && c > 0.0
    ensures a <= b
  {
    if a > b { TimesLess(b, a, c); }
  }

  lemma Quotient(a: real, b: real)
    requires a > 0.0 && b > 0.0
    ensures a / b > 0.0 && a / b * b == a
  {
  }

  lemma TimesLess(a: real, b: real, c: real)
    requires a < b && c > 0.0
    ensures a * c < b * c && c * a == a * c && c * b == b * c
  {
  }

  /** Calls that never leave an interval of `t` seconds and still pass 8 + `n` admissions, for any `n`. */
  lemma {:induction false} ClimbsAdmit(start: real, t: real, n: nat) returns (times: seq<real>)
    requires t > 0.0
    ensures times != [] && InInterval(times, start, t)
    ensures Climb(times) == 0.25 * n as real && Admitted(Bucket(8.0, start), times) == 8 + n
  {
    var k, s := SmallSteps(t);
    var drain, rest := Repeat(start, 8), Blocks(start, s, k, n);
    times := drain + rest;
    DrainAt(8, start);
    RepeatIsConstant(start, 8);
    BlocksWithin(start, s, k, n);
    RunsCompose(Bucket(OPERATION_BURST, start), drain, rest);
    BlocksAdmit(start, s, k, n);
    assert drain != [] && drain[|drain| - 1] in drain;
    ClimbJoin(drain, rest);
    ClimbOfConstant(drain, start);
    BlocksClimb(start, s, k, n);
  }

  predicate InInterval(times: seq<real>, start: real, t: real) { forall x :: x in times ==> start <= x <= start + t }

  /** Every stretch of calls in the interval whose times climb by at most `c` keeps to 8 + 4t. */
  ghost predicate KeepsBound(start: real, t: real, c: real) {
    forall b, times :: Valid(b) && times != [] && InInterval(times, start, t) && Climb(times) <= c ==>
      Admitted(b, times) as real <= 8.0 + 4.0 * t
  }

  lemma WholeTokens(b: Bucket, times: seq<real>, c: real)
    requires Valid(b) && times != [] && Climb(times) <= c
    ensures Admitted(b, times) <= 8 + (OPERATION_RATE * c).Floor
  {
    hide Admitted, Climb, Valid;
    AdmitsAtMost(b, times);
  }

  /**
   * In whatever order calls take the lock, an interval of `t` seconds admits at most 8 + 4t exactly as long as the
   * whole tokens that the climbs of its times add are no more than 4t. An instant always keeps to its bound.
   */
  lemma BoundHoldsExactlyTo(start: real, t: real, c: real)
    requires t >= 0.0 && c >= 0.0
    ensures KeepsBound(start, t, c) <==> t == 0.0 || (4.0 * c).Floor as real <= 4.0 * t
  {
    hide Admitted, Climb, Valid, InInterval;
    var n := (OPERATION_RATE * c).Floor;
    if t == 0.0 {
      forall b, times | Valid(b) && times != [] && InInterval(times, start, t) && Climb(times) <= c
        ensures Admitted(b, times) as real <= OPERATION_BURST + OPERATION_RATE * t
      {
        InstantClimb(times, start);
        WholeTokens(b, times, 0.0);
      }
    } else if n as real <= OPERATION_RATE * t {
      forall b, times | Valid(b) && times != [] && InInterval(times, start, t) && Climb(times) <= c
        ensures Admitted(b, times) as real <= OPERATION_BURST + OPERATION_RATE * t
      {
        WholeTokens(b, times, c);
      }
    } else {
      var times := ClimbsAdmit(start, t, n);
      var full := Bucket(OPERATION_BURST, start);
      FullIsValid(start);
      assert Climb(times) <= c;
      assert !(Admitted(full, times) as real <= OPERATION_BURST + OPERATION_RATE * t);
    }
  }

  lemma InstantClimb(times: seq<real>, start: real)
    requires InInterval(times, start, 0.0)
    ensures Climb(times) == 0.0
  {
    ClimbOfConstant(times, start);
  }

  lemma FullIsValid(start: real)
    ensures Valid(Bucket(OPERATION_BURST, start))
  {
  }
}
