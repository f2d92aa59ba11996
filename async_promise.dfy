/**
 * async/promise.go: DoAll and DoAny run error-returning functions one after
 * another on the calling goroutine. A function's effects besides its error
 * are not modelled; `called` counts the functions invoked.
 */
module AsyncPromise {
  import opened Wrappers
  import opened Go

  /**
   * DoAll: invokes the functions in order until one fails and returns that
   * first error, without invoking the rest; nil when all succeed, including
   * when there are none.
   */
  method DoAll(fns: seq<() -> Option<Error>>) returns (err: Option<Error>, ghost called: nat)
    ensures called <= |fns|
    ensures forall k :: 0 <= k < called - 1 ==> fns[k]().None?
    ensures err.Some? ==> called > 0 && err == fns[called - 1]()
    ensures err.None? ==> called == |fns| && forall k :: 0 <= k < |fns| ==> fns[k]().None?
  {
    called := 0;
    for i := 0 to |fns|
      invariant called == i
      invariant forall k :: 0 <= k < i ==> fns[k]().None?
    {
      var e := fns[i]();
      called := called + 1;
      if e.Some? {
        return e, called;
      }
    }
    return None, called;
  }

  /**
   * DoAny: invokes the functions in order until one succeeds and returns nil
   * then, without invoking the rest; when all fail it returns the last
   * function's error, and nil when there are none.
   */
  method DoAny(fns: seq<() -> Option<Error>>) returns (err: Option<Error>, ghost called: nat)
    ensures called <= |fns|
    ensures forall k :: 0 <= k < called - 1 ==> fns[k]().Some?
    ensures err.None? && called > 0 ==> fns[called - 1]().None?
    ensures err.None? && called == 0 ==> fns == []
    ensures err.Some? ==> called == |fns| > 0 && err == fns[|fns| - 1]() && forall k :: 0 <= k < |fns| ==> fns[k]().Some?
  {
    var cause: Option<Error> := None;
    called := 0;
    for i := 0 to |fns|
      invariant called == i
      invariant forall k :: 0 <= k < i ==> fns[k]().Some?
      invariant cause == (if i == 0 then None else fns[i - 1]())
    {
      cause := fns[i]();
      called := called + 1;
      if cause.None? {
        return None, called;
      }
    }
    return cause, called;
  }
}
