/**
 * async/cache_group.go: a single-flight cache. The first Do on a key runs
 * its task and keeps the result; later calls get the kept result. Each
 * holder's WaitGroup (callers waiting for a task still running) is not
 * modelled: every Do here runs its task to the end before anything else
 * happens.
 */
module AsyncCacheGroup {
  import opened Wrappers
  import opened Go
  import UString
  import Text
  import opened AsyncResult
  import opened AsyncTask

  class CacheGroup {
    /** The holders map: the result kept for each key. */
    var holders: map<string, AnyResult>

    /** async.NewCacheGroup */
    constructor ()
      ensures holders == map[]
    {
      holders := map[];
    }

    /**
     * CacheGroup.Do: the key must not be blank. A key already present gives
     * its kept result and the task is not run; otherwise the task runs once,
     * and its result is kept under the key and returned. `ran` records
     * whether the task was run.
     */
    method Do(key: string, task: Task) returns (r: AnyResult, ghost ran: bool)
      requires !UString.Empty(key)
      modifies this
      ensures ran <==> key !in old(holders)
      ensures !ran ==> r == old(holders)[key] && holders == old(holders)
      ensures ran ==> r == Run(task) && holders == old(holders)[key := r]
      ensures key in holders && holders[key] == r
    {
      if key in holders {
        return holders[key], false;
      }
      holders := holders[key := None];
      var result := Run(task);
      holders := holders[key := result];
      return result, true;
    }

    /** CacheGroup.Get: the kept result, nil for a key never done; nothing is inserted. */
    function Get(key: string): (r: AnyResult)
      reads this
      ensures key in holders ==> r == holders[key]
      ensures key !in holders ==> r.None?
    {
      if key in holders then holders[key] else None
    }

    /** CacheGroup.Del: forgets the key and returns its kept result, nil when absent. */
    method Del(key: string) returns (r: AnyResult)
      modifies this
      ensures r == old(Get(key))
      ensures holders == old(holders) - {key}
      ensures key !in old(holders) ==> holders == old(holders)
    {
      if key in holders {
        r := holders[key];
        holders := holders - {key};
        return;
      }
      return None;
    }
  }

  /** The key of the cache's test is not blank, so the scenario below applies to it. */
  lemma KeyNotBlank()
    ensures !UString.Empty("1")
  {
    assert !Text.IsSpace("1"[0]);
  }

  /**
   * The cache's own test, run sequentially on a key that is not blank (the
   * test uses "1", see KeyNotBlank): the second Do on the key returns the
   * first result without running its task, Del returns the kept result, and
   * after Del a Get finds nothing.
   */
  method DoGetDelScenario(key: string, first: Task, second: Task) returns (g: CacheGroup)
    requires !UString.Empty(key)
    ensures fresh(g) && g.holders == map[]
  {
    g := new CacheGroup();
    var r1, ran1 := g.Do(key, first);
    var r2, ran2 := g.Do(key, second);
    assert ran1 && !ran2 && r2 == r1 == Run(first);
    assert g.Get(key) == r1;
    var removed := g.Del(key);
    assert removed == r1;
    assert g.Get(key).None?;
  }
}
