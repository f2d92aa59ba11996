/**
 * async/ctx.go: the task context handed to loop callbacks. BaseCtx wraps an
 * optional context.Context (its Err() is kept as a field the surrounding code
 * sets as the parent ends), an abort flag and a loop counter; FreezeCtx hides
 * the parent's state while the loop has not seen it end.
 */
module AsyncCtx {
  import opened Wrappers
  import opened Text
  import opened Go
  import UtilAtomic

  /**
   * What a Context answers: Done, Canceled, Timeout and Error. Code that
   * takes the Context interface (NewResultWithCtx, GroupResult.cancel)
   * only reads these answers.
   */
  datatype CtxView = CtxView(done: bool, canceled: bool, timeout: bool, err: Option<Error>)

  class BaseCtx {
    /** Whether a parent context.Context was given (NewCtx accepts nil). */
    const hasParent: bool
    /** The parent's Err(): None while it is live. */
    var parentErr: Option<Error>
    var aborted: bool
    var count: int

    predicate Valid()
      reads this
    {
      IsInt64(count) && (!hasParent ==> parentErr.None?)
    }

    /** async.NewCtx: not aborted, count 0, and the parent's current Err(). */
    constructor (hasParent: bool, parentErr: Option<Error>)
      requires !hasParent ==> parentErr.None?
      ensures Valid() && this.hasParent == hasParent && this.parentErr == parentErr
      ensures !Aborted() && Count() == 0
    {
      this.hasParent := hasParent;
      this.parentErr := parentErr;
      aborted := false;
      count := 0;
    }

    /** BaseCtx.Canceled: the parent ended with context.Canceled. */
    predicate Canceled()
      reads this
      ensures Canceled() ==> !Timeout()
    {
      hasParent && parentErr == Some(Go.Canceled)
    }

    /** BaseCtx.Timeout: the parent ended with context.DeadlineExceeded. */
    predicate Timeout()
      reads this
      ensures Timeout() ==> hasParent && parentErr.Some? && parentErr != Some(Go.Canceled)
    {
      hasParent && parentErr == Some(DeadlineExceeded)
    }

    /** BaseCtx.Aborted: Abort was called; an aborted context is Done, and without a parent only then. */
    predicate Aborted()
      reads this
      ensures Aborted() ==> Done()
      ensures !hasParent ==> (Aborted() <==> Done())
    {
      aborted
    }

    /** BaseCtx.Done: canceled, timed out or aborted, so Done without Abort means the parent ended. */
    predicate Done()
      reads this
      ensures Done() && !aborted ==> hasParent && parentErr.Some?
    {
      Canceled() || Timeout() || aborted
    }

    /** BaseCtx.Error: the parent's Err(), nil without a parent. */
    function Error(): (e: Option<Error>)
      reads this
      ensures !hasParent ==> e.None?
      ensures Canceled() ==> e == Some(Go.Canceled)
      ensures Timeout() ==> e == Some(DeadlineExceeded)
    {
      if hasParent then parentErr else None
    }

    /** BaseCtx.Count: the number of loop passes so far, from 1, an int64. */
    function Count(): (n: int)
      reads this
      ensures Valid() ==> IsInt64(n)
    {
      count
    }

    /** The answers of this context through the Context interface. */
    function View(): (v: CtxView)
      reads this
      ensures v.done == Done() && v.canceled == Canceled() && v.timeout == Timeout() && v.err == Error()
    {
      CtxView(Done(), Canceled(), Timeout(), Error())
    }

    /** BaseCtx.Abort: sets the abort flag for good; a second call changes nothing. */
    method Abort()
      modifies this
      ensures Aborted() && Done()
      ensures parentErr == old(parentErr) && count == old(count)
    {
      aborted := true;
    }

    /** BaseCtx.incrCount: adds exactly one to the count, wrapping as an int64 would. */
    method IncrCount()
      requires Valid()
      modifies this
      ensures Valid()
      ensures Count() == UtilAtomic.WrapInt64(old(Count()) + 1)
      ensures old(Count()) < MaxInt64 ==> Count() == old(Count()) + 1
      ensures parentErr == old(parentErr) && aborted == old(aborted)
    {
      count := UtilAtomic.WrapInt64(count + 1);
    }
  }

  /**
   * FreezeCtx: the context a loop callback gets while the loop has not seen
   * the parent end. It is Done only when frozen as done or aborted, and until
   * then reports no cancellation, no timeout and no error.
   */
  class FreezeCtx {
    const ctx: BaseCtx
    const done: bool

    /** async.newFreezeCtx */
    constructor (ctx: BaseCtx, done: bool)
      ensures this.ctx == ctx && this.done == done
    {
      this.ctx := ctx;
      this.done := done;
    }

    /**
     * FreezeCtx.Done: the frozen flag or the wrapped context's abort. Frozen
     * as not done, it ignores the parent's end and is Done only on Abort.
     */
    predicate Done()
      reads this, ctx
      ensures ctx.Aborted() ==> Done()
      ensures !done ==> (Done() <==> ctx.aborted)
    {
      done || ctx.Aborted()
    }

    /** FreezeCtx.Aborted delegates, so an aborted frozen context is Done. */
    predicate Aborted()
      reads this, ctx
      ensures Aborted() <==> ctx.aborted
      ensures Aborted() ==> Done()
    {
      ctx.Aborted()
    }

    /** FreezeCtx.Count delegates: the wrapped context's loop passes. */
    function Count(): (n: int)
      reads this, ctx
      ensures n == ctx.count
      ensures ctx.Valid() ==> IsInt64(n)
    {
      ctx.Count()
    }

    /** FreezeCtx.Canceled: false until Done, then the wrapped context's answer. */
    predicate Canceled()
      reads this, ctx
      ensures Canceled() <==> Done() && ctx.Canceled()
    {
      if !Done() then false else ctx.Canceled()
    }

    /** FreezeCtx.Timeout: false until Done, then the wrapped context's answer. */
    predicate Timeout()
      reads this, ctx
      ensures Timeout() <==> Done() && ctx.Timeout()
    {
      if !Done() then false else ctx.Timeout()
    }

    /** FreezeCtx.Error: nil until Done, then the wrapped context's error. */
    function Error(): (e: Option<Error>)
      reads this, ctx
      ensures !Done() ==> e.None?
      ensures Done() ==> e == ctx.Error()
    {
      if !Done() then None else ctx.Error()
    }

    /** The answers of this context through the Context interface. */
    function View(): (v: CtxView)
      reads this, ctx
      ensures v.done == Done() && v.canceled == Canceled() && v.timeout == Timeout() && v.err == Error()
    {
      CtxView(Done(), Canceled(), Timeout(), Error())
    }

    /** FreezeCtx.Abort delegates, so the frozen context is Done afterwards. */
    method Abort()
      modifies ctx
      ensures ctx.Aborted() && Done()
      ensures ctx.parentErr == old(ctx.parentErr) && ctx.count == old(ctx.count)
    {
      ctx.Abort();
    }
  }

  /**
   * A context frozen as not done hides a parent that has ended: its view is
   * neither done, canceled nor timed out and carries no error, until the
   * wrapped context is aborted.
   */
  lemma FrozenHidesParent(f: FreezeCtx)
    requires !f.done && !f.ctx.Aborted()
    ensures f.View() == CtxView(false, false, false, None)
  {
  }
}
