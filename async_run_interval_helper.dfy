/**
 * async/run_interval_helper.go: a builder for a task run at an interval,
 * with an optional timeout, a delay before the first run and a bound on
 * how many times the task is retried. Run wraps the task in a callback that
 * counts the retries down and aborts the loop when they are used up.
 *
 * The interval loop that calls the callback (async/run.go) is not part of
 * this model; the callback is modelled on its own, and a scenario drives it
 * the way that loop does while the context stays live.
 */
module AsyncRunIntervalHelper {
  import opened Wrappers
  import opened Text
  import opened Go
  import opened AsyncCtx

  class RunIntervalHelper {
    var interval: Duration
    var timeout: Duration
    var initRunDelay: Duration
    var maxRetryCount: int64
    /** Whether a non-nil context was given through WithContext. */
    var hasContext: bool

    /** async.NewRunIntervalHelper: the interval must be positive; the first run waits one interval, retries are unlimited (-1), no timeout. */
    constructor (interval: Duration)
      requires interval > 0
      ensures this.interval == interval && initRunDelay == interval
      ensures maxRetryCount == -1 && timeout == 0 && !hasContext
    {
      this.interval := interval;
      timeout := 0;
      initRunDelay := interval;
      maxRetryCount := -1;
      hasContext := false;
    }

    /** RunIntervalHelper.WithContext: records whether a context was given; a nil one means context.Background. */
    method WithContext(given: bool) returns (r: RunIntervalHelper)
      modifies this
      ensures r == this && hasContext == given
      ensures interval == old(interval) && timeout == old(timeout)
      ensures initRunDelay == old(initRunDelay) && maxRetryCount == old(maxRetryCount)
    {
      hasContext := given;
      return this;
    }

    /** RunIntervalHelper.WithTimeout: the timeout must not be negative; 0 means none. */
    method WithTimeout(t: Duration) returns (r: RunIntervalHelper)
      requires t >= 0
      modifies this
      ensures r == this && timeout == t
      ensures interval == old(interval) && hasContext == old(hasContext)
      ensures initRunDelay == old(initRunDelay) && maxRetryCount == old(maxRetryCount)
    {
      timeout := t;
      return this;
    }

    /** RunIntervalHelper.WithInitRunDelay: the delay must not be negative. */
    method WithInitRunDelay(delay: Duration) returns (r: RunIntervalHelper)
      requires delay >= 0
      modifies this
      ensures r == this && initRunDelay == delay
      ensures interval == old(interval) && hasContext == old(hasContext)
      ensures timeout == old(timeout) && maxRetryCount == old(maxRetryCount)
    {
      initRunDelay := delay;
      return this;
    }

    /** RunIntervalHelper.WithMaxRetryCount: n must not be negative; the task then runs at most n + 1 times. */
    method WithMaxRetryCount(n: int64) returns (r: RunIntervalHelper)
      requires n >= 0
      modifies this
      ensures r == this && maxRetryCount == n
      ensures interval == old(interval) && hasContext == old(hasContext)
      ensures timeout == old(timeout) && initRunDelay == old(initRunDelay)
    {
      maxRetryCount := n;
      return this;
    }

    /**
     * RunIntervalHelper.Run: the callback starts from maxRetryCount retries
     * and has a cancel function to call only when a timeout was set.
     */
    method Run() returns (cb: RetryCallback)
      ensures fresh(cb)
      ensures cb.retry == maxRetryCount && cb.hasCancel == (timeout > 0) && cb.cancelCalls == 0
    {
      cb := new RetryCallback(maxRetryCount, timeout > 0);
    }
  }

  /** What one run of the callback decides: the retries left, whether it aborts, whether it cancels. */
  datatype Decision = Decision(retry: int64, abort: bool, cancel: bool)

  /**
   * The callback's decision after the task, given the retries left and
   * whether the context it was handed is done: a live context with retries
   * left uses one up; a live context with none left is aborted; and a
   * context that is done by then (aborted included) is canceled. A negative
   * count (-1) never runs out.
   */
  function Decide(retry: int64, done: bool): (d: Decision)
    ensures !done && retry > 0 ==> d == Decision(retry - 1, false, false)
    ensures !done && retry == 0 ==> d == Decision(0, true, true)
    ensures !done && retry < 0 ==> d == Decision(retry, false, false)
    ensures done ==> d == Decision(retry, false, true)
  {
    if !done && retry > 0 then Decision(retry - 1, false, false)
    else if !done && retry == 0 then Decision(retry, true, true)
    else Decision(retry, false, done)
  }

  /** The retries left after k runs on a live context, starting from r, and whether one of them aborted. */
  function LiveRuns(r: int64, k: nat): Decision
    decreases k
  {
    if k == 0 then Decision(r, false, false)
    else
      var prev := LiveRuns(r, k - 1);
      if prev.abort then prev
      else
        var d := Decide(prev.retry, false);
        Decision(d.retry, d.abort, prev.cancel || d.cancel)
  }

  /**
   * With n retries and a context that stays live, the first n runs only
   * count down and the run n + 1 aborts: the task runs exactly n + 1 times.
   */
  lemma {:induction false} CountdownRuns(n: int64, k: nat)
    requires n >= 0 && k <= n as int
    ensures LiveRuns(n, k) == Decision(n - k as int64, false, false)
    ensures LiveRuns(n, k + 1).abort == (k == n as int)
    decreases k
  {
    if k > 0 {
      CountdownRuns(n, k - 1);
    }
  }

  /** Without a retry bound (-1), no run on a live context ever aborts. */
  lemma {:induction false} UnlimitedNeverAborts(k: nat)
    ensures LiveRuns(-1, k) == Decision(-1, false, false)
    decreases k
  {
    if k > 0 {
      UnlimitedNeverAborts(k - 1);
    }
  }

  /** The closure Run hands to the interval loop, with its own retry counter. */
  class RetryCallback {
    var retry: int64
    const hasCancel: bool
    /** How many times the callback called cancel (a no-op without a timeout). */
    var cancelCalls: nat

    constructor (retry: int64, hasCancel: bool)
      ensures this.retry == retry && this.hasCancel == hasCancel && cancelCalls == 0
    {
      this.retry := retry;
      this.hasCancel := hasCancel;
      cancelCalls := 0;
    }

    /**
     * One run of the callback. The loop hands it a context frozen as not
     * done (`frozen`), whose Done is the wrapped context's abort flag, or
     * the live one once the parent has ended. The task runs first and may
     * abort the context (`taskAborts`); then the decision is applied.
     */
    method Invoke(c: BaseCtx, frozen: bool, taskAborts: bool)
      modifies this, c
      ensures var done := if frozen then old(c.Aborted()) || taskAborts else old(c.Done()) || taskAborts;
        var d := Decide(old(retry), done);
        retry == d.retry && c.Aborted() == (old(c.Aborted()) || taskAborts || d.abort)
        && cancelCalls == old(cancelCalls) + (if d.cancel then 1 else 0)
      ensures c.parentErr == old(c.parentErr) && c.count == old(c.count)
    {
      if taskAborts {
        c.Abort();
      }
      var done := if frozen then c.Aborted() else c.Done();
      if !done && retry > 0 {
        retry := retry - 1;
        return;
      }
      if !done && retry == 0 {
        c.Abort();
        done := true;
      }
      if done {
        cancelCalls := cancelCalls + 1;
      }
    }
  }

  /**
   * The helper's own test with WithMaxRetryCount(3): driven as the interval
   * loop does while the context stays live (count up, then the callback on
   * a frozen context, then stop if aborted), the task runs four times and
   * the loop ends.
   */
  method MaxRetryScenario() returns (runs: nat)
    ensures runs == 4
  {
    var h := new RunIntervalHelper(Second);
    h := h.WithMaxRetryCount(3);
    var cb := h.Run();
    var c := new BaseCtx(false, None);
    runs := 0;
    while runs < 10
      invariant c.Valid() && c.count == runs && runs < 4
      invariant !c.Aborted() && cb.retry == 3 - runs as int64
      decreases 10 - runs
    {
      c.IncrCount();
      ghost var before := cb.retry;
      cb.Invoke(c, true, false);
      assert c.Aborted() <==> before == 0;
      runs := runs + 1;
      if c.Aborted() {
        return;
      }
    }
  }
}
