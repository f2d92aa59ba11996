/**
 * async/do.go: DoUntilCancel runs a callback again and again on the calling
 * goroutine. Before each pass the context's counter goes up by one. When
 * the parent context has ended, the callback runs one last time with the
 * live context and the loop returns; otherwise it gets a frozen context
 * and the loop returns if the callback aborted it.
 *
 * Whether the parent has ended at the top of pass i is the oracle errs[i]
 * (its Err(), None while live), and whether the callback of pass i aborts
 * is aborts[i]. The loop is run for at most |errs| passes.
 */
module AsyncDo {
  import opened Wrappers
  import opened Text
  import opened Go
  import opened AsyncCtx

  /** What one callback saw: the pass counter, whether it got the live context, and the context's answers. */
  datatype Call = Call(count: int, live: bool, view: CtxView)

  /** What a live context with parent error e and no abort answers. */
  function LiveView(e: Option<Error>): (v: CtxView)
    ensures v.canceled <==> e == Some(Go.Canceled)
    ensures v.timeout <==> e == Some(DeadlineExceeded)
    ensures v.done <==> v.canceled || v.timeout
    ensures v.err == e
  {
    CtxView(e == Some(Go.Canceled) || e == Some(DeadlineExceeded), e == Some(Go.Canceled), e == Some(DeadlineExceeded), e)
  }

  /** The view of a context frozen as not done and not aborted. */
  const Frozen := CtxView(false, false, false, None)

  /**
   * DoUntilCancel. Pass k sees count k + 1. A pass that finds the parent
   * ended gets the live context and is the last; any other pass gets a
   * frozen context that reports nothing, and is the last exactly when its
   * callback aborted. `stopped` is false only when the oracle ran out.
   */
  method DoUntilCancel(errs: seq<Option<Error>>, aborts: seq<bool>) returns (calls: seq<Call>, stopped: bool)
    requires |errs| == |aborts| && |errs| < MaxInt64
    ensures |calls| <= |errs|
    ensures forall k :: 0 <= k < |calls| ==> calls[k].count == k + 1
    ensures forall k :: 0 <= k < |calls| ==> (calls[k].live <==> errs[k].Some?)
    ensures forall k :: 0 <= k < |calls| && calls[k].live ==> calls[k].view == LiveView(errs[k])
    ensures forall k :: 0 <= k < |calls| && !calls[k].live ==> calls[k].view == Frozen
    ensures forall k :: 0 <= k < |calls| - 1 ==> errs[k].None? && !aborts[k]
    ensures stopped ==> |calls| > 0 && (errs[|calls| - 1].Some? || aborts[|calls| - 1])
    ensures !stopped ==> |calls| == |errs| && forall k :: 0 <= k < |errs| ==> errs[k].None? && !aborts[k]
  {
    var c := new BaseCtx(true, None);
    calls := [];
    var i := 0;
    while i < |errs|
      invariant 0 <= i <= |errs| && |calls| == i
      invariant c.Valid() && c.hasParent && c.count == i && !c.aborted
      invariant forall k :: 0 <= k < i ==> calls[k] == Call(k + 1, false, Frozen) && errs[k].None? && !aborts[k]
      decreases |errs| - i
    {
      c.IncrCount();
      c.parentErr := errs[i];
      if errs[i].Some? {
        calls := calls + [Call(c.Count(), true, c.View())];
        return calls, true;
      }
      var f := new FreezeCtx(c, false);
      calls := calls + [Call(f.Count(), false, f.View())];
      if aborts[i] {
        f.Abort();
      }
      if c.Aborted() {
        return calls, true;
      }
      i := i + 1;
    }
    return calls, false;
  }

  /**
   * DoUntilCancel's own test: the parent is canceled after the third pass,
   * so the callback runs four times, the first three with a frozen context
   * and the fourth with the live one, which reports Canceled.
   */
  method CancelAfterThreeScenario() returns (calls: seq<Call>)
    ensures |calls| == 4
    ensures calls[3] == Call(4, true, CtxView(true, true, false, Some(Go.Canceled)))
    ensures forall k :: 0 <= k < 3 ==> calls[k] == Call(k + 1, false, Frozen)
  {
    var errs := [None, None, None, Some(Go.Canceled), Some(Go.Canceled)];
    var aborts := [false, false, false, false, false];
    var stopped;
    calls, stopped := DoUntilCancel(errs, aborts);
    assert errs[3].Some?;
    assert |calls| - 1 <= 3;
    assert errs[|calls| - 1].Some?;
  }
}
