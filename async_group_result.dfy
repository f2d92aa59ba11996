/**
 * async/group_result.go: what a task group collects. Each finished task
 * puts its result under its index; the first error, the first finished
 * index and the first successful index are kept once set; and once the
 * group's wait was canceled or timed out, later results are ignored.
 *
 * The lock is not modelled: every call here runs to its end before the
 * next one. Results are non-nil (put calls HasError on them).
 */
module AsyncGroupResult {
  import opened Wrappers
  import opened Text
  import opened Go
  import opened AsyncCtx
  import opened AsyncResult

  /** The fields of a GroupResult, as a value. */
  datatype GroupState = GroupState(
    err: Option<Error>,
    firstOkIdx: int64,
    firstDoneIdx: int64,
    results: map<int64, BaseResult>,
    canceled: bool,
    timeout: bool)
  {
    /** Whether put still accepts results. */
    predicate Accepting() {
      !canceled && !timeout
    }
  }

  /** newGroupResult: no error, both indices -1, no results. */
  const Fresh := GroupState(None, -1, -1, map[], false, false)

  /**
   * GroupResult.put: ignored once canceled or timed out; otherwise the
   * result is stored under i, and the first-done index, the first-ok index
   * and the error are each set only if still unset.
   */
  function PutState(s: GroupState, i: int64, r: BaseResult): (s': GroupState)
    ensures !s.Accepting() ==> s' == s
    ensures s.Accepting() ==> s'.Accepting() && s'.results == s.results[i := r]
    ensures s.firstDoneIdx != -1 ==> s'.firstDoneIdx == s.firstDoneIdx
    ensures s.firstOkIdx != -1 ==> s'.firstOkIdx == s.firstOkIdx
    ensures s.err.Some? ==> s'.err == s.err
    ensures s.Accepting() && s.firstDoneIdx == -1 ==> s'.firstDoneIdx == i
    ensures s.Accepting() && s.firstOkIdx == -1 ==> s'.firstOkIdx == (if r.err.None? then i else -1)
    ensures s.Accepting() && s.err.None? ==> s'.err == r.err
  {
    if !s.Accepting() then s
    else
      s.(firstDoneIdx := if s.firstDoneIdx == -1 then i else s.firstDoneIdx,
         firstOkIdx := if s.firstOkIdx == -1 && r.err.None? then i else s.firstOkIdx,
         err := if s.err.None? && r.err.Some? then r.err else s.err,
         results := s.results[i := r])
  }

  /**
   * GroupResult.cancel: nothing happens unless the context is done and
   * neither flag is set yet; then the context's timeout and canceled flags
   * are copied, and its error is kept only when no task error came first.
   */
  function CancelState(s: GroupState, c: CtxView): (s': GroupState)
    ensures !c.done || !s.Accepting() ==> s' == s
    ensures c.done && s.Accepting() ==>
      s'.timeout == c.timeout && s'.canceled == c.canceled
      && s'.err == (if s.err.Some? then s.err else c.err)
      && s'.results == s.results && s'.firstOkIdx == s.firstOkIdx && s'.firstDoneIdx == s.firstDoneIdx
  {
    if !c.done || s.timeout || s.canceled then s
    else s.(err := if s.err.None? then c.err else s.err, timeout := c.timeout, canceled := c.canceled)
  }

  /** The state after the results of `puts` were put one after another. */
  function PutAll(s: GroupState, puts: seq<(int64, BaseResult)>): GroupState
    decreases |puts|
  {
    if puts == [] then s else PutAll(PutState(s, puts[0].0, puts[0].1), puts[1..])
  }

  /** The first error among the results, in the order they were put. */
  function FirstErr(puts: seq<(int64, BaseResult)>): Option<Error>
    decreases |puts|
  {
    if puts == [] then None
    else if puts[0].1.err.Some? then puts[0].1.err
    else FirstErr(puts[1..])
  }

  /** The index of the first error-free result, -1 when there is none. */
  function FirstOkIdx(puts: seq<(int64, BaseResult)>): int64
    decreases |puts|
  {
    if puts == [] then -1
    else if puts[0].1.err.None? then puts[0].0
    else FirstOkIdx(puts[1..])
  }

  /** The indices the results were put under. */
  function Indices(puts: seq<(int64, BaseResult)>): set<int64> {
    set k | 0 <= k < |puts| :: puts[k].0
  }

  /** Task indices are the group's task counter minus one: never negative. */
  predicate TaskIndices(puts: seq<(int64, BaseResult)>) {
    forall k :: 0 <= k < |puts| ==> puts[k].0 >= 0
  }

  /** Once the wait was canceled or timed out, no later put changes anything. */
  lemma {:induction false} StoppedIgnoresPuts(s: GroupState, puts: seq<(int64, BaseResult)>)
    requires !s.Accepting()
    ensures PutAll(s, puts) == s
    decreases |puts|
  {
    if puts != [] {
      StoppedIgnoresPuts(PutState(s, puts[0].0, puts[0].1), puts[1..]);
    }
  }

  /**
   * From a fresh group, the collected error is the error of the first
   * failing result, later failures never overwrite it, and a group whose
   * tasks all succeed has no error.
   */
  lemma {:induction false} ErrIsFirstFailure(s: GroupState, puts: seq<(int64, BaseResult)>)
    requires s.Accepting()
    ensures PutAll(s, puts).err == (if s.err.Some? then s.err else FirstErr(puts))
    decreases |puts|
  {
    if puts != [] {
      ErrIsFirstFailure(PutState(s, puts[0].0, puts[0].1), puts[1..]);
    }
  }

  /** The first-done index is the index of the first result put; it is -1 only when nothing was put. */
  lemma {:induction false} FirstDoneIsFirstPut(s: GroupState, puts: seq<(int64, BaseResult)>)
    requires s.Accepting() && TaskIndices(puts)
    ensures s.firstDoneIdx != -1 ==> PutAll(s, puts).firstDoneIdx == s.firstDoneIdx
    ensures s.firstDoneIdx == -1 && puts != [] ==> PutAll(s, puts).firstDoneIdx == puts[0].0
    ensures s.firstDoneIdx == -1 && puts == [] ==> PutAll(s, puts).firstDoneIdx == -1
    decreases |puts|
  {
    if puts != [] {
      FirstDoneIsFirstPut(PutState(s, puts[0].0, puts[0].1), puts[1..]);
    }
  }

  /** The first-ok index is the index of the first error-free result put, -1 when all failed. */
  lemma {:induction false} FirstOkIsFirstSuccess(s: GroupState, puts: seq<(int64, BaseResult)>)
    requires s.Accepting() && TaskIndices(puts)
    ensures PutAll(s, puts).firstOkIdx == (if s.firstOkIdx != -1 then s.firstOkIdx else FirstOkIdx(puts))
    decreases |puts|
  {
    if puts != [] {
      FirstOkIsFirstSuccess(PutState(s, puts[0].0, puts[0].1), puts[1..]);
    }
  }

  /** Every accepted result is stored under its index, so Size counts the distinct indices. */
  lemma {:induction false} ResultsCoverIndices(s: GroupState, puts: seq<(int64, BaseResult)>)
    requires s.Accepting()
    ensures PutAll(s, puts).results.Keys == s.results.Keys + Indices(puts)
    decreases |puts|
  {
    if puts != [] {
      var s1 := PutState(s, puts[0].0, puts[0].1);
      ResultsCoverIndices(s1, puts[1..]);
      assert Indices(puts) == {puts[0].0} + Indices(puts[1..]) by {
        forall i | i in Indices(puts) ensures i in {puts[0].0} + Indices(puts[1..]) {
          var k :| 0 <= k < |puts| && puts[k].0 == i;
          if k > 0 {
            assert puts[1..][k - 1].0 == i;
          }
        }
        forall i | i in Indices(puts[1..]) ensures i in Indices(puts) {
          var k :| 0 <= k < |puts[1..]| && puts[1..][k].0 == i;
          assert puts[k + 1].0 == i;
        }
      }
    }
  }

  /**
   * A wait that timed out (or was canceled) freezes the collection: the
   * error is the first task error if one came before, else the context's,
   * and results finished later are not added.
   */
  lemma CancelFreezes(s: GroupState, c: CtxView, late: seq<(int64, BaseResult)>)
    requires s.Accepting() && c.done && (c.timeout || c.canceled)
    ensures PutAll(CancelState(s, c), late) == CancelState(s, c)
    ensures CancelState(s, c).err == (if s.err.Some? then s.err else c.err)
    ensures CancelState(s, c).results == s.results
  {
    StoppedIgnoresPuts(CancelState(s, c), late);
  }

  class GroupResult {
    var err: Option<Error>
    var firstOkIdx: int64
    var firstDoneIdx: int64
    var resultMap: map<int64, BaseResult>
    var canceled: bool
    var timeout: bool

    /** The fields as a value. */
    function State(): GroupState
      reads this
    {
      GroupState(err, firstOkIdx, firstDoneIdx, resultMap, canceled, timeout)
    }

    /** newGroupResult */
    constructor ()
      ensures State() == Fresh
    {
      err := None;
      firstOkIdx := -1;
      firstDoneIdx := -1;
      resultMap := map[];
      canceled := false;
      timeout := false;
    }

    /** GroupResult.cancel */
    method Cancel(c: CtxView)
      modifies this
      ensures State() == CancelState(old(State()), c)
    {
      if !c.done || timeout || canceled {
        return;
      }
      if err.None? {
        err := c.err;
      }
      timeout := c.timeout;
      canceled := c.canceled;
    }

    /** GroupResult.put */
    method Put(i: int64, result: BaseResult)
      modifies this
      ensures State() == PutState(old(State()), i, result)
    {
      if timeout || canceled {
        return;
      }
      if firstDoneIdx == -1 {
        firstDoneIdx := i;
      }
      var hasErr := result.err.Some?;
      if firstOkIdx == -1 && !hasErr {
        firstOkIdx := i;
      }
      if err.None? && hasErr {
        err := result.err;
      }
      resultMap := resultMap[i := result];
    }

    /** GroupResult.Error: the error the collection state records (the first task error, or the context's). */
    function Error(): (e: Option<Error>)
      reads this
      ensures e == State().err
    {
      err
    }

    /** GroupResult.HasError */
    predicate HasError()
      reads this
      ensures HasError() <==> Error().Some?
    {
      err.Some?
    }

    /** GroupResult.Canceled: set by a canceled wait, after which no result is accepted. */
    predicate Canceled()
      reads this
      ensures Canceled() ==> !State().Accepting()
    {
      canceled
    }

    /** GroupResult.Timeout: set by a timed-out wait, after which no result is accepted. */
    predicate Timeout()
      reads this
      ensures Timeout() ==> !State().Accepting()
    {
      timeout
    }

    /** GroupResult.Get: the result stored under idx, nil when there is none. */
    function Get(idx: int64): (r: AnyResult)
      reads this
      ensures idx in resultMap ==> r == Some(resultMap[idx])
      ensures idx !in resultMap ==> r.None?
    {
      if idx in resultMap then Some(resultMap[idx]) else None
    }

    /** GroupResult.FirstOk: nil while no task succeeded, else that task's result. */
    function FirstOk(): (r: AnyResult)
      reads this
      ensures firstOkIdx == -1 ==> r.None?
      ensures firstOkIdx != -1 ==> r == Get(firstOkIdx)
    {
      if firstOkIdx == -1 then None else Get(firstOkIdx)
    }

    /** GroupResult.FirstDone: nil while no task finished, else the first finished task's result. */
    function FirstDone(): (r: AnyResult)
      reads this
      ensures firstDoneIdx == -1 ==> r.None?
      ensures firstDoneIdx != -1 ==> r == Get(firstDoneIdx)
    {
      if firstDoneIdx == -1 then None else Get(firstDoneIdx)
    }

    /** GroupResult.Size: the number of distinct indices with a result. */
    function Size(): (n: int)
      reads this
      ensures n == |resultMap.Keys|
    {
      |resultMap|
    }

    /** GroupResult.ResultMap: a copy of the results, entry by entry. */
    method ResultMap() returns (m: map<int64, BaseResult>)
      ensures m == resultMap
    {
      var src := resultMap;
      m := map[];
      var rest := src.Keys;
      while rest != {}
        invariant rest <= src.Keys
        invariant m.Keys == src.Keys - rest
        invariant forall k :: k in m ==> m[k] == src[k]
        decreases rest
      {
        var k :| k in rest;
        m := m[k := src[k]];
        rest := rest - {k};
      }
    }

    /**
     * GroupResult.ResultList, corrected: the list runs up to the largest
     * task index, and position k holds the result of task k, nil where
     * that task's result was not collected.
     */
    method ResultList() returns (list: seq<AnyResult>)
      ensures IndexedBy(list, resultMap)
    {
      var src := resultMap;
      var n := 0;
      var rest := src.Keys;
      while rest != {}
        invariant rest <= src.Keys
        invariant forall k :: k in src.Keys - rest && k >= 0 ==> (k as int) < n
        invariant n == 0 || Lookup(src, n - 1).Some?
        decreases rest
      {
        var k :| k in rest;
        if k >= 0 && k as int >= n {
          n := k as int + 1;
        }
        assert src.Keys - (rest - {k}) == (src.Keys - rest) + {k};
        rest := rest - {k};
      }
      assert src.Keys - rest == src.Keys;
      list := seq(n, _ => None);
      rest := src.Keys;
      while rest != {}
        invariant rest <= src.Keys
        invariant forall k :: k in src && k >= 0 ==> (k as int) < n
        invariant |list| == n
        invariant forall j :: 0 <= j < n ==> list[j] == (if Lookup(src, j).Some? && (j as int64) !in rest then Lookup(src, j) else None)
        decreases rest
      {
        var k :| k in rest;
        if k >= 0 {
          list := list[k as int := Some(src[k])];
        }
        rest := rest - {k};
      }
    }
  }

  /** The result stored under task index k (an int), nil when none. */
  function Lookup(m: map<int64, BaseResult>, k: int): (r: AnyResult)
    ensures r.Some? ==> IsInt64(k) && k as int64 in m && r.value == m[k as int64]
  {
    if IsInt64(k) && k as int64 in m then Some(m[k as int64]) else None
  }

  /**
   * The list ResultList is meant to give: position k holds the result of
   * task k, every non-negative index fits, and the list ends at the
   * largest index.
   */
  predicate IndexedBy(list: seq<AnyResult>, m: map<int64, BaseResult>) {
    (forall k :: 0 <= k < |list| ==> list[k] == Lookup(m, k))
    && (forall i :: i in m && i >= 0 ==> (i as int) < |list|)
    && (|list| == 0 || Lookup(m, |list| - 1).Some?)
  }

  /** At most one list is indexed by a given result map. */
  lemma IndexedByUnique(l1: seq<AnyResult>, l2: seq<AnyResult>, m: map<int64, BaseResult>)
    requires IndexedBy(l1, m) && IndexedBy(l2, m)
    ensures l1 == l2
  {
    if |l1| > 0 {
      assert ((|l1| - 1) as int64) in m;
    }
    if |l2| > 0 {
      assert ((|l2| - 1) as int64) in m;
    }
  }

  /**
   * GroupResult.ResultList as written: a list of length Size() into which
   * each result is written at its index. An index outside [0, Size()) makes
   * the write panic (None here), whatever order the map is visited in.
   */
  function ResultListAsWritten(m: map<int64, BaseResult>): (r: Option<seq<AnyResult>>)
    ensures r.Some? <==> forall i :: i in m ==> 0 <= i as int < |m|
    ensures r.Some? ==> |r.value| == |m| && forall k :: 0 <= k < |m| ==> r.value[k] == Lookup(m, k)
  {
    if exists i :: i in m && !(0 <= i as int < |m|) then None
    else Some(seq(|m|, k => Lookup(m, k)))
  }

  /**
   * The indices of a task group start at 0 and go up by one. When the
   * indices collected are exactly a prefix of those, as after a Wait for
   * every task, the list as written does not panic and is the corrected
   * list.
   */
  lemma AsWrittenAgreesWhenDense(m: map<int64, BaseResult>)
    requires ResultListAsWritten(m).Some?
    ensures IndexedBy(ResultListAsWritten(m).value, m)
  {
    var l := ResultListAsWritten(m).value;
    if |m| > 0 {
      CardinalityBound(m.Keys, |m| - 1);
      assert Lookup(m, |m| - 1).Some?;
    }
  }

  /** A set of int64 values in [0, k) has at most k elements. */
  lemma {:induction false} CardAtMost(s: set<int64>, k: nat)
    requires k <= MaxInt64 + 1
    requires forall i :: i in s ==> 0 <= i as int < k
    ensures |s| <= k
    decreases k
  {
    if k == 0 {
      assert forall i :: i !in s;
    } else {
      var t := s - {(k - 1) as int64};
      CardAtMost(t, k - 1);
    }
  }

  /** A set of int64 values in [0, n] that has more than n elements holds n. */
  lemma CardinalityBound(s: set<int64>, n: nat)
    requires forall i :: i in s ==> 0 <= i as int <= n
    requires |s| > n
    ensures IsInt64(n) && (n as int64) in s
  {
    if n > MaxInt64 {
      CardAtMost(s, MaxInt64 + 1);
      assert false;
    }
    if (n as int64) !in s {
      CardAtMost(s, n);
      assert false;
    }
  }

  /**
   * A wait that times out after task 1 but before task 0 leaves only index 1
   * collected; the list as written then writes index 1 of a list of length
   * 1 and panics, while the corrected list is [nil, result 1].
   */
  lemma ResultListPanicsOnGap(r: BaseResult)
    ensures ResultListAsWritten(map[1 as int64 := r]) == None
    ensures IndexedBy([None, Some(r)], map[1 as int64 := r])
  {
    var m := map[1 as int64 := r];
    assert 1 as int64 in m && !(0 <= 1 < |m|);
  }
}
