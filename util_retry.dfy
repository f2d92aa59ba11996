/**
 * util/retry.go: a retry counter whose interval is fixed or grows by a step
 * up to a cap, and DoRetry, which calls a function until it succeeds or the
 * counter is used up. Sleeping is left out; the function's successive
 * results are a parameter.
 */
module UtilRetry {
  import opened Wrappers
  import opened Go

  /** The fields of a retryCounter: retries so far and the interval settings. */
  datatype CounterState = CounterState(
    count: int,          // retries so far
    maxCount: int,       // 0 means unlimited
    interval: Duration,  // the current interval
    maxInterval: Duration,  // 0 means no cap
    step: Duration)

  /** What NewStepRetryCounter asserts of its arguments, and what NextInterval keeps. */
  predicate ValidCounter(s: CounterState) {
    s.maxCount >= 0 && s.interval >= 0 && s.step >= 0 && s.maxInterval >= 0
    && (s.interval > 0 || s.step > 0)
    && s.count >= 0 && (s.maxCount > 0 ==> s.count <= s.maxCount)
  }

  predicate Exhausted(s: CounterState) {
    s.maxCount > 0 && s.count >= s.maxCount
  }

  /** The interval after one more retry: grown by the step while below the cap, then capped. */
  function Grown(s: CounterState): (iv: Duration)
    ensures s.step == 0 ==> iv == s.interval
    ensures iv >= s.interval
    ensures s.maxInterval > 0 && s.interval <= s.maxInterval ==> iv <= s.maxInterval
  {
    if s.step > 0 && (s.maxInterval <= 0 || s.interval < s.maxInterval) then
      var x := s.interval + s.step;
      if s.maxInterval > 0 && x > s.maxInterval then s.maxInterval else x
    else s.interval
  }

  /** NextInterval on the counter's fields: the new fields and the interval returned. */
  function Next(s: CounterState): (CounterState, Duration) {
    if Exhausted(s) then (s, 0)
    else
      var iv := Grown(s);
      (s.(count := s.count + 1, interval := iv), iv)
  }

  /**
   * A used-up counter returns 0 and stays as it is; any other counter counts
   * one more retry and returns a positive interval, which is the grown one.
   * The settings never change, and the count never passes maxCount.
   */
  lemma NextSpec(s: CounterState)
    requires ValidCounter(s)
    ensures var (t, d) := Next(s);
      ValidCounter(t) &&
      t.maxCount == s.maxCount && t.maxInterval == s.maxInterval && t.step == s.step &&
      (Exhausted(s) ==> t == s && d == 0) &&
      (!Exhausted(s) ==> t.count == s.count + 1 && d == t.interval && d > 0)
  {
  }

  /** maxCount = 0 means unlimited: NextInterval never returns 0. */
  lemma UnlimitedNeverZero(s: CounterState)
    requires ValidCounter(s) && s.maxCount == 0
    ensures Next(s).1 > 0
  {
  }

  /** The fields after k calls of NextInterval. */
  function Iterate(s: CounterState, k: nat): CounterState
    decreases k
  {
    if k == 0 then s else Iterate(Next(s).0, k - 1)
  }

  function Min(a: int, b: int): int {
    if a <= b then a else b
  }

  /** A fixed counter (step 0) keeps its interval, and each call below maxCount counts one retry. */
  lemma {:induction false} FixedCounter(s: CounterState, k: nat)
    requires ValidCounter(s) && s.step == 0 && s.maxCount > 0
    ensures Iterate(s, k).interval == s.interval
    ensures Iterate(s, k).count == Min(s.count + k, s.maxCount)
    decreases k
  {
    if k > 0 {
      NextSpec(s);
      FixedCounter(Next(s).0, k - 1);
    }
  }

  /** A limited counter is used up exactly after maxCount - count calls. */
  lemma {:induction false} LimitedCounter(s: CounterState, k: nat)
    requires ValidCounter(s) && s.maxCount > 0
    ensures Iterate(s, k).count == Min(s.count + k, s.maxCount)
    ensures Exhausted(Iterate(s, k)) <==> k >= s.maxCount - s.count
    ensures ValidCounter(Iterate(s, k))
    decreases k
  {
    if k > 0 {
      NextSpec(s);
      LimitedCounter(Next(s).0, k - 1);
    }
  }

  /**
   * An unlimited stepped counter with a cap returns its start interval plus
   * one step per call, until that reaches the cap (2s, 4s, 6s, 8s, 9s, 9s for
   * a 2s step and a 9s cap).
   */
  lemma {:induction false} SteppedCounter(s: CounterState, k: nat)
    requires ValidCounter(s) && s.maxCount == 0 && s.step > 0 && s.maxInterval > 0
    requires s.interval <= s.maxInterval
    ensures Iterate(s, k).interval == Min(s.interval + k * s.step, s.maxInterval)
    ensures Iterate(s, k).count == s.count + k
    decreases k
  {
    if k > 0 {
      var t := Next(s).0;
      NextSpec(s);
      SteppedCounter(t, k - 1);
      assert t.interval == Min(s.interval + s.step, s.maxInterval);
      assert s.interval + k * s.step == s.interval + s.step + (k - 1) * s.step;
    }
  }

  /** util.retryCounter */
  class RetryCounter {
    var count: int
    var maxCount: int
    var interval: Duration
    var maxInterval: Duration
    var stepInterval: Duration

    function State(): CounterState
      reads this
    {
      CounterState(count, maxCount, interval, maxInterval, stepInterval)
    }

    predicate Valid()
      reads this
    {
      ValidCounter(State())
    }

    /** util.NewStepRetryCounter */
    constructor NewStepRetryCounter(maxCount: int, initInterval: Duration, stepInterval: Duration, maxInterval: Duration)
      requires maxCount >= 0 && initInterval >= 0 && stepInterval >= 0 && maxInterval >= 0
      requires initInterval > 0 || stepInterval > 0
      ensures Valid()
      ensures State() == CounterState(0, maxCount, initInterval, maxInterval, stepInterval)
    {
      count := 0;
      this.maxCount := maxCount;
      interval := initInterval;
      this.maxInterval := maxInterval;
      this.stepInterval := stepInterval;
    }

    /** util.NewRetryCounter: a fixed interval, no step and no cap. */
    constructor NewRetryCounter(maxCount: int, interval: Duration)
      requires maxCount >= 0 && interval > 0
      ensures Valid()
      ensures State() == CounterState(0, maxCount, interval, 0, 0)
    {
      count := 0;
      this.maxCount := maxCount;
      this.interval := interval;
      maxInterval := 0;
      stepInterval := 0;
    }

    /** RetryCounter.Count: the retries handed out so far, never more than a positive maxCount. */
    function Count(): (n: int)
      reads this
      ensures Valid() ==> 0 <= n && (maxCount > 0 ==> n <= maxCount)
    {
      count
    }

    /** RetryCounter.NextInterval */
    method NextInterval() returns (d: Duration)
      requires Valid()
      modifies this
      ensures Valid()
      ensures (State(), d) == Next(old(State()))
    {
      if maxCount > 0 && count >= maxCount {
        return 0;
      }
      count := count + 1;
      if stepInterval > 0 && (maxInterval <= 0 || interval < maxInterval) {
        interval := interval + stepInterval;
        if maxInterval > 0 && interval > maxInterval {
          interval := maxInterval;
        }
      }
      d := interval;
      NextSpec(old(State()));
    }
  }

  /**
   * How a run of DoRetry ends: fn succeeded, the counter gave up and fn's
   * last error is returned, or the given results of fn ran out first (Go
   * would go on calling fn).
   */
  datatype RetryOutcome = Succeeded | GaveUp(err: Error) | WindowEnded

  datatype RetryRun = RetryRun(outcome: RetryOutcome, counter: CounterState, calls: nat)

  /** DoRetry on its own terms, for the successive results of fn (None is a nil error). */
  function RetrySpec(s: CounterState, results: seq<Option<Error>>): (r: RetryRun)
    ensures r.calls <= |results|
    ensures r.outcome.Succeeded? ==> r.calls >= 1 && results[r.calls - 1].None?
    ensures r.outcome.GaveUp? ==> r.calls >= 1 && results[r.calls - 1] == Some(r.outcome.err)
    ensures r.outcome.WindowEnded? ==> r.calls == |results|
    ensures forall i :: 0 <= i < r.calls - 1 ==> results[i].Some?
    decreases |results|
  {
    if results == [] then RetryRun(WindowEnded, s, 0)
    else if results[0].None? then RetryRun(Succeeded, s, 1)
    else
      var (t, d) := Next(s);
      if d <= 0 then RetryRun(GaveUp(results[0].value), t, 1)
      else
        var rest := RetrySpec(t, results[1..]);
        assert forall i :: 1 <= i < |results| ==> results[i] == results[1..][i - 1];
        RetryRun(rest.outcome, rest.counter, rest.calls + 1)
  }

  /**
   * A limited counter that keeps failing makes DoRetry call fn exactly
   * maxCount - count + 1 times and return the last error.
   */
  lemma {:induction false} RetryGivesUp(s: CounterState, results: seq<Option<Error>>)
    requires ValidCounter(s) && s.maxCount > 0
    requires |results| > s.maxCount - s.count
    requires forall i :: 0 <= i < |results| ==> results[i].Some?
    ensures RetrySpec(s, results).outcome.GaveUp?
    ensures RetrySpec(s, results).calls == s.maxCount - s.count + 1
    decreases s.maxCount - s.count
  {
    NextSpec(s);
    if !Exhausted(s) {
      var t := Next(s).0;
      assert forall i :: 0 <= i < |results[1..]| ==> results[1..][i] == results[i + 1];
      RetryGivesUp(t, results[1..]);
    }
  }

  /**
   * When fn first succeeds at call k + 1 and the counter allows k retries,
   * DoRetry succeeds after exactly k + 1 calls.
   */
  lemma {:induction false} RetrySucceeds(s: CounterState, results: seq<Option<Error>>, k: nat)
    requires ValidCounter(s)
    requires k < |results| && results[k].None?
    requires forall i :: 0 <= i < k ==> results[i].Some?
    requires s.maxCount == 0 || k <= s.maxCount - s.count
    ensures RetrySpec(s, results).outcome.Succeeded?
    ensures RetrySpec(s, results).calls == k + 1
    decreases k
  {
    if k > 0 {
      NextSpec(s);
      var t := Next(s).0;
      assert forall i :: 0 <= i < k - 1 ==> results[1..][i] == results[i + 1];
      RetrySucceeds(t, results[1..], k - 1);
    }
  }

  /** util.DoRetry, with fn's successive results given. */
  method DoRetry(counter: RetryCounter, results: seq<Option<Error>>) returns (outcome: RetryOutcome, calls: nat)
    requires counter.Valid()
    modifies counter
    ensures counter.Valid()
    ensures RetryRun(outcome, counter.State(), calls) == RetrySpec(old(counter.State()), results)
  {
    calls := 0;
    while true
      invariant 0 <= calls <= |results|
      invariant counter.Valid()
      invariant RetrySpec(old(counter.State()), results) ==
        (var r := RetrySpec(counter.State(), results[calls..]); RetryRun(r.outcome, r.counter, r.calls + calls))
      decreases |results| - calls
    {
      if calls == |results| {
        return WindowEnded, calls;
      }
      var err := results[calls];
      calls := calls + 1;
      if err.None? {
        return Succeeded, calls;
      }
      var sleep := counter.NextInterval();
      if sleep <= 0 {
        return GaveUp(err.value), calls;
      }
      assert results[calls - 1..][1..] == results[calls..];
    }
  }
}
