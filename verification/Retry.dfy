/** The retry loop of Client.Post: how often it calls, what it returns, and how long it sleeps. */
module Retry {
  import opened Wrappers
  import opened Durations

  datatype Config = Config(maxAttempts: int, initial: Duration, max: Duration)

  function Initial(c: Config): Duration {
    if c.initial <= 0 then SECOND else c.initial
  }

  function Ceiling(c: Config): Duration {
    if c.max <= 0 then 30 * SECOND else c.max
  }

  function Attempts(c: Config): int {
    if c.maxAttempts <= 0 then 3 else c.maxAttempts
  }

  /** The interval after a sleep; the doubling wraps at 64 bits. */
  function Grow(interval: Duration, max: Duration): Duration {
    if interval < max then
      var doubled := Wrap(interval * 2);
      if doubled > max then max else doubled
    else interval
  }

  /** The interval of sleep k, counting from 0. */
  function IntervalAt(init: Duration, max: Duration, k: nat): Duration {
    if k == 0 then init else Grow(IntervalAt(init, max, k - 1), max)
  }

  /** The first n intervals. */
  function Intervals(init: Duration, max: Duration, n: nat): seq<Duration> {
    if n == 0 then [] else Intervals(init, max, n - 1) + [IntervalAt(init, max, n - 1)]
  }

  /** What some sleeps add up to; time.Sleep returns at once from a negative interval. */
  function Slept(sleeps: seq<Duration>): nat {
    if sleeps == [] then 0 else Slept(sleeps[..|sleeps| - 1]) + Max(0, sleeps[|sleeps| - 1])
  }

  /** The interval doubled in place and cut to the ceiling. */
  method Double(interval: Duration, maxInterval: Duration) returns (next: Duration)
    ensures next == Grow(interval, maxInterval)
  {
    next := interval;
    if next < maxInterval {
      next := Wrap(next * 2);
      if next > maxInterval {
        next := maxInterval;
      }
    }
  }

  /** Settings that are not positive mean three attempts, one second, and thirty seconds; positive ones mean themselves. */
  lemma SettingsOrDefaults(c: Config)
    ensures c.maxAttempts >= 1 ==> Attempts(c) == c.maxAttempts
    ensures c.maxAttempts < 1 ==> Attempts(c) == 3
    ensures c.initial >= 1 ==> Initial(c) == c.initial
    ensures c.initial < 1 ==> Initial(c) == 1_000_000_000
    ensures c.max >= 1 ==> Ceiling(c) == c.max
    ensures c.max < 1 ==> Ceiling(c) == 30_000_000_000
  {
  }

  /** Post; outcomes(k) is the error of attempt k, None when it succeeds. */
  method Post(c: Config, outcomes: nat -> Option<string>) returns (lastErr: Option<string>, calls: nat, sleeps: seq<Duration>)
    ensures 1 <= calls <= Attempts(c)
    ensures forall k: nat | k < calls - 1 :: outcomes(k).Some?
    ensures lastErr == outcomes(calls - 1) && (lastErr.Some? ==> calls == Attempts(c))
    ensures sleeps == Intervals(Initial(c), Ceiling(c), calls - 1)
    ensures Slept(sleeps) <= (Attempts(c) - 1) * Max(Initial(c), Ceiling(c))
  {
    lastErr := None;
    sleeps := [];
    var interval := Initial(c);
    var maxInterval := Ceiling(c);
    var attempts := Attempts(c);
    var attempt := 0;
    while attempt < attempts
      invariant 0 <= attempt < attempts
      invariant forall k: nat | k < attempt :: outcomes(k).Some?
      invariant interval == IntervalAt(Initial(c), Ceiling(c), attempt)
      invariant sleeps == Intervals(Initial(c), Ceiling(c), attempt)
    {
      lastErr := outcomes(attempt);
      calls := attempt + 1;
      TotalSleep(c, calls, sleeps);
      if lastErr.None? {
        return;
      }
      if attempt == attempts - 1 {
        return;
      }
      sleeps := sleeps + [interval];
      interval := Double(interval, maxInterval);
      attempt := attempt + 1;
    }
  }

  /** init times 2 to the power k. */
  function Doubled(init: int, k: nat): int {
    if k == 0 then init else 2 * Doubled(init, k - 1)
  }

  /** The back-off that is meant: double up to the ceiling, or stay if the first interval is not below it. */
  function Law(init: int, max: int, k: nat): int {
    if init >= max then init else Min(max, Doubled(init, k))
  }

  /** The first of init, 2 init, 4 init, ... that reaches 2^62; doubling it leaves 64 bits. */
  function Peak(init: int): (p: int)
    requires 0 < init
    ensures p >= HALF && p >= init && (init < TOP ==> p < TOP)
    decreases HALF - init
  {
    if init >= HALF then init else Peak(2 * init)
  }

  function PeakIndex(init: int): nat
    requires 0 < init
    decreases HALF - init
  {
    if init >= HALF then 0 else 1 + PeakIndex(2 * init)
  }

  lemma {:induction false} DoubledShift(init: int, k: nat)
    ensures Doubled(init, k + 1) == Doubled(2 * init, k)
  {
    if k > 0 {
      DoubledShift(init, k - 1);
    }
  }

  lemma {:induction false} DoubledGrows(init: int, k: nat)
    requires 0 < init
    ensures Doubled(init, k) >= init
  {
    if k > 0 {
      DoubledGrows(init, k - 1);
    }
  }

  lemma {:induction false} PeakIsDoubled(init: int)
    requires 0 < init
    ensures Doubled(init, PeakIndex(init)) == Peak(init)
    decreases HALF - init
  {
    if init < HALF {
      PeakIsDoubled(2 * init);
      DoubledShift(init, PeakIndex(2 * init));
    }
  }

  lemma {:induction false} BelowThePeak(init: int, k: nat)
    requires 0 < init && Doubled(init, k) < Peak(init)
    ensures Doubled(init, k) < HALF
    decreases k
  {
    if init >= HALF {
      DoubledGrows(init, k);
      assert false;
    } else if k > 0 {
      DoubledShift(init, k - 1);
      BelowThePeak(2 * init, k - 1);
    }
  }

  lemma GrowDoubles(v: Duration, max: Duration)
    requires 0 < v <= max && (v < HALF || v == max)
    ensures Grow(v, max) == Min(max, 2 * v)
  {
  }

  lemma {:induction false} LawUpToThePeak(init: Duration, max: Duration, k: nat)
    requires 0 < init < max
    requires max <= Peak(init) || Doubled(init, k) <= Peak(init)
    ensures IntervalAt(init, max, k) == Min(max, Doubled(init, k))
  {
    if k > 0 {
      var d := Doubled(init, k - 1);
      assert Doubled(init, k) == 2 * d;
      DoubledGrows(init, k - 1);
      LawUpToThePeak(init, max, k - 1);
      if d < Peak(init) {
        BelowThePeak(init, k - 1);
      }
      GrowDoubles(IntervalAt(init, max, k - 1), max);
    }
  }

  lemma {:induction false} StaysAboveTheCeiling(init: Duration, max: Duration, k: nat)
    requires init >= max
    ensures IntervalAt(init, max, k) == init
  {
    if k > 0 {
      StaysAboveTheCeiling(init, max, k - 1);
    }
  }

  /** A ceiling past the peak lets the doubling overflow: the next interval is negative, so there is no sleep at all. */
  lemma OverflowsPastThePeak(init: Duration, max: Duration)
    requires 0 < init < max && Peak(init) < max
    ensures IntervalAt(init, max, PeakIndex(init) + 1) < 0 < Law(init, max, PeakIndex(init) + 1)
  {
    PeakIsDoubled(init);
    LawUpToThePeak(init, max, PeakIndex(init));
    DoubledGrows(init, PeakIndex(init) + 1);
  }

  /** For instance: a first interval of 2^62 ns under the highest ceiling there is. */
  lemma OverflowExample()
    ensures IntervalAt(HALF, TOP - 1, 1) == -TOP
    ensures Law(HALF, TOP - 1, 1) == TOP - 1
  {
    assert IntervalAt(HALF, TOP - 1, 0) == HALF && Doubled(HALF, 0) == HALF;
  }

  /** The back-off law holds for every sleep exactly when the ceiling is no higher than the peak. */
  lemma LawHolds(init: Duration, max: Duration)
    requires 0 < init && 0 < max
    ensures (forall k: nat :: IntervalAt(init, max, k) == Law(init, max, k)) <==> init >= max || max <= Peak(init)
  {
    if init >= max {
      forall k: nat ensures IntervalAt(init, max, k) == Law(init, max, k) {
        StaysAboveTheCeiling(init, max, k);
      }
    } else if max <= Peak(init) {
      forall k: nat ensures IntervalAt(init, max, k) == Law(init, max, k) {
        LawUpToThePeak(init, max, k);
      }
    } else {
      OverflowsPastThePeak(init, max);
    }
  }

  /** In particular for every ceiling up to 2^62 ns, about 146 years. */
  lemma LawHoldsUpToHalf(init: Duration, max: Duration, k: nat)
    requires 0 < init && 0 < max <= HALF
    ensures IntervalAt(init, max, k) == Law(init, max, k)
  {
    LawHolds(init, max);
  }

  lemma {:induction false} IntervalsAreBounded(init: Duration, max: Duration, k: nat)
    ensures IntervalAt(init, max, k) <= Max(init, max)
  {
    if k > 0 {
      IntervalsAreBounded(init, max, k - 1);
    }
  }

  lemma OneMoreBound(n: nat, bound: nat)
    ensures (n + 1) * bound == n * bound + bound
  {
  }

  lemma MoreOfBound(n: nat, m: nat, bound: nat)
    requires n <= m
    ensures n * bound <= m * bound
  {
  }

  lemma {:induction false} SleptIsBounded(init: Duration, max: Duration, n: nat, bound: nat, sleeps: seq<Duration>)
    requires bound == Max(init, max) && sleeps == Intervals(init, max, n)
    ensures Slept(sleeps) <= n * bound
  {
    if n > 0 {
      var init' := Intervals(init, max, n - 1);
      SleptIsBounded(init, max, n - 1, bound, init');
      assert sleeps[..|sleeps| - 1] == init';
      assert IntervalAt(init, max, n - 1) <= bound by {
        IntervalsAreBounded(init, max, n - 1);
      }
      OneMoreBound(n - 1, bound);
    }
  }

  /** The total time asleep, overflow or not, for any number of calls that Post makes. */
  lemma TotalSleep(c: Config, calls: nat, sleeps: seq<Duration>)
    requires 1 <= calls <= Attempts(c) && sleeps == Intervals(Initial(c), Ceiling(c), calls - 1)
    ensures Slept(sleeps) <= (Attempts(c) - 1) * Max(Initial(c), Ceiling(c))
  {
    var bound := Max(Initial(c), Ceiling(c));
    SleptIsBounded(Initial(c), Ceiling(c), calls - 1, bound, sleeps);
    MoreOfBound(calls - 1, Attempts(c) - 1, bound);
  }
}
