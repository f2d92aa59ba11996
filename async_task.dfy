/**
 * async/task.go: the four function shapes that implement the Task interface
 * and how each one's Run turns the function's return into a Result. What the
 * functions do besides returning is not modelled.
 */
module AsyncTask {
  import opened Wrappers
  import opened Go
  import opened AsyncResult

  /** A Task: one of TaskFn, VoidTaskFn, ErrTaskFn and ValTaskFn (ToTask, ToVoidTask, ... wrap a function as one). */
  datatype Task =
    | TaskFn(fn: () -> AnyResult)
    | VoidTaskFn(voidFn: () -> ())
    | ErrTaskFn(errFn: () -> Option<Error>)
    | ValTaskFn(valFn: () -> (Value, Option<Error>))

  /** Task.Run for each shape. */
  function Run(t: Task): (r: AnyResult)
    ensures t.TaskFn? ==> r == t.fn()
    ensures !t.TaskFn? ==> r.Some? && !r.value.canceled && !r.value.timeout
    ensures t.VoidTaskFn? ==> r.value.value == Nil && r.value.err.None?
    ensures t.ErrTaskFn? ==> r.value.value == Nil && r.value.err == t.errFn()
    ensures t.ValTaskFn? ==> r.value.value == t.valFn().0 && r.value.err == t.valFn().1
  {
    match t
    case TaskFn(fn) => fn()
    case VoidTaskFn(fn) =>
      var _ := fn();
      Some(NewResult(Nil, None))
    case ErrTaskFn(fn) => Some(NewResult(Nil, fn()))
    case ValTaskFn(fn) =>
      var (v, err) := fn();
      Some(NewResult(v, err))
  }

  /**
   * What a ValTaskFn returns reaches its caller through the Result's typed
   * accessor: a string value with no error is read back by String, and an
   * error comes out of every accessor.
   */
  lemma ValTaskRoundTrip(t: Task)
    requires t.ValTaskFn?
    ensures t.valFn().1.None? && t.valFn().0.Str? ==> AsyncResult.String(Run(t).value) == Cast(t.valFn().0.s, None)
    ensures t.valFn().1.Some? ==> AsyncResult.Int(Run(t).value).err == t.valFn().1 && AsyncResult.String(Run(t).value).err == t.valFn().1
  {
  }
}
