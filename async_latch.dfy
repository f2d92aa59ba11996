/**
 * async/latch.go: a latch that is either closed (callers of Wait block) or
 * open. The AtomicBool cell behind it is kept here as a plain field, and the
 * condition variable that wakes the waiters is not modelled.
 */
module AsyncLatch {

  class Latch {
    var isClosed: bool

    /** async.NewLatch */
    constructor (isClosed: bool)
      ensures IsClosed() == isClosed
    {
      this.isClosed := isClosed;
    }

    /** Latch.IsClosed: the state the last Open, Close or successful swap left. */
    function IsClosed(): (closed: bool)
      reads this
      ensures closed == isClosed
    {
      isClosed
    }

    /**
     * Latch.CASwap: when the latch is in the expected state it moves to the
     * other one and the answer is true; otherwise nothing changes.
     */
    method CASwap(expectIsClosed: bool) returns (swapped: bool)
      modifies this
      ensures swapped <==> old(IsClosed()) == expectIsClosed
      ensures swapped ==> IsClosed() == !expectIsClosed
      ensures !swapped ==> IsClosed() == old(IsClosed())
    {
      if isClosed != expectIsClosed {
        return false;
      }
      isClosed := !expectIsClosed;
      return true;
    }

    /** Latch.Open: leaves the latch open, whatever its state was. */
    method Open()
      modifies this
      ensures !IsClosed()
    {
      if isClosed {
        var _ := CASwap(true);
      }
    }

    /** Latch.CAOpen: opens a closed latch and says whether it did. */
    method CAOpen() returns (changed: bool)
      modifies this
      ensures changed <==> old(IsClosed())
      ensures !IsClosed()
    {
      if !isClosed {
        return false;
      }
      changed := CASwap(true);
    }

    /** Latch.Close: leaves the latch closed, whatever its state was. */
    method Close()
      modifies this
      ensures IsClosed()
    {
      if !isClosed {
        var _ := CASwap(false);
      }
    }

    /** Latch.CAClose: closes an open latch and says whether it did. */
    method CAClose() returns (closed: bool)
      modifies this
      ensures closed <==> !old(IsClosed())
      ensures IsClosed()
    {
      if isClosed {
        return false;
      }
      closed := CASwap(false);
    }

    /**
     * Latch.Wait: on an open latch it returns at once (passes is true). On a
     * closed latch it blocks until another goroutine opens it; a sequential
     * model stops there, with passes false, and changes nothing.
     */
    method Wait() returns (passes: bool)
      ensures passes <==> !IsClosed()
    {
      if !isClosed {
        return true;
      }
      return false;
    }
  }

  /**
   * The sequence the latch's own test goes through: a second CAOpen or
   * CAClose reports false, and Open and Close are idempotent.
   */
  method OpenCloseScenario() returns (l: Latch)
    ensures fresh(l) && !l.IsClosed()
  {
    l := new Latch(true);
    var first := l.CAOpen();
    var second := l.CAOpen();
    assert first && !second;
    var closed := l.CAClose();
    var closedAgain := l.CAClose();
    assert closed && !closedAgain && l.IsClosed();
    l.Close();
    assert l.IsClosed();
    l.Open();
    l.Open();
    assert !l.IsClosed();
  }
}
