/**
 * rdb/scheduler/option.go: the options of the Redis-backed task scheduler.
 * Option.MustNormalize walks the Tasks map and writes each task's name, key
 * prefix and defaults into the *TaskOption it finds there, so the task
 * options are objects updated in place; the map itself is never reassigned
 * by the modelled operations, so it is a constant of the Option. The Redis
 * client options are only recorded as present; the root CancelableContext
 * MustNormalize creates is not modelled.
 */
module RdbSchedulerOption {
  import opened Go
  import UString
  import Text

  /** The default key prefix Option.MustNormalize gives a blank TaskKeyPrefix. */
  const DefaultTaskKeyPrefix: string := "task:"

  /** A string whose first character is not white space is not blank. */
  lemma NotBlank(s: string)
    requires s != [] && !Text.IsSpace(s[0])
    ensures !UString.Empty(s) && !Text.AllSpace(s)
  {
  }

  /** The key prefix Option.MustNormalize keeps: a blank one becomes "task:". */
  function PrefixOrDefault(p: string): (r: string)
    ensures !UString.Empty(r) && !Text.AllSpace(r)
    ensures UString.Empty(p) ==> r == DefaultTaskKeyPrefix
    ensures !UString.Empty(p) ==> r == p
  {
    if UString.Empty(p) then NotBlank(DefaultTaskKeyPrefix); DefaultTaskKeyPrefix else p
  }

  /** InvokeTimeRange is either empty or an ordered pair of HHMI times. */
  predicate ValidRange(r: seq<int>) {
    |r| == 0 || (|r| == 2 && r[0] <= r[1])
  }

  /** A non-positive duration is replaced by the default, a positive one is kept. */
  function OrDefault(d: Duration, dflt: Duration): (r: Duration)
    requires dflt > 0
    ensures r > 0
    ensures d > 0 ==> r == d
    ensures d <= 0 ==> r == dflt
  {
    if d <= 0 then dflt else d
  }

  class TaskOption {
    var name: string
    var keyPrefix: string
    var disabled: bool
    var disableTaskLock: bool
    var taskLockTTL: Duration
    var invokeInternal: Duration
    var invokeTimeRange: seq<int>

    /** A task option as configured: name and key prefix are set by Option.MustNormalize. */
    constructor (disabled: bool, disableTaskLock: bool, taskLockTTL: Duration, invokeInternal: Duration, invokeTimeRange: seq<int>)
      ensures name == "" && keyPrefix == ""
      ensures this.disabled == disabled && this.disableTaskLock == disableTaskLock
      ensures this.taskLockTTL == taskLockTTL && this.invokeInternal == invokeInternal
      ensures this.invokeTimeRange == invokeTimeRange
    {
      name := "";
      keyPrefix := "";
      this.disabled := disabled;
      this.disableTaskLock := disableTaskLock;
      this.taskLockTTL := taskLockTTL;
      this.invokeInternal := invokeInternal;
      this.invokeTimeRange := invokeTimeRange;
    }

    /** What TaskOption.MustNormalize leaves behind, besides the names it checks. */
    predicate Normalized()
      reads this
    {
      ValidRange(invokeTimeRange) && taskLockTTL > 0 && invokeInternal > 0
    }

    /** TaskOption.TaskLockKey: the prefix, ":lock:" and the task name. */
    function TaskLockKey(): string
      reads this
    {
      keyPrefix + ":lock:" + name
    }

    /** TaskOption.TaskInvokeTimeKey: the prefix, ":invoke:" and the task name. */
    function TaskInvokeTimeKey(): string
      reads this
    {
      keyPrefix + ":invoke:" + name
    }

    /**
     * TaskOption.MustNormalize: name and key prefix must not be blank and the
     * time range must be valid; a non-positive lock TTL becomes 10s and a
     * non-positive invoke interval 1m. Nothing else changes.
     */
    method MustNormalize() returns (r: TaskOption)
      requires !Text.AllSpace(name) && !Text.AllSpace(keyPrefix)
      requires ValidRange(invokeTimeRange)
      modifies this
      ensures r == this && Normalized()
      ensures taskLockTTL == OrDefault(old(taskLockTTL), 10 * Second)
      ensures invokeInternal == OrDefault(old(invokeInternal), Minute)
      ensures name == old(name) && keyPrefix == old(keyPrefix)
      ensures disabled == old(disabled) && disableTaskLock == old(disableTaskLock)
      ensures invokeTimeRange == old(invokeTimeRange)
      ensures old(Normalized()) ==> taskLockTTL == old(taskLockTTL) && invokeInternal == old(invokeInternal)
    {
      if taskLockTTL <= 0 {
        taskLockTTL := 10 * Second;
      }
      if invokeInternal <= 0 {
        invokeInternal := Minute;
      }
      return this;
    }
  }

  /** The lock key ends with the task name, right after the prefix and ":lock:". */
  lemma LockKeyNamesTask(o: TaskOption)
    ensures var k := o.TaskLockKey();
      |k| == |o.keyPrefix| + 6 + |o.name| && k[..|o.keyPrefix|] == o.keyPrefix
      && k[|o.keyPrefix|..|o.keyPrefix| + 6] == ":lock:" && k[|o.keyPrefix| + 6..] == o.name
  {
    var k := o.TaskLockKey();
    assert k == (o.keyPrefix + ":lock:") + o.name;
    assert k[..|o.keyPrefix| + 6] == o.keyPrefix + ":lock:";
  }

  /** The invoke-time key ends with the task name, right after the prefix and ":invoke:". */
  lemma InvokeKeyNamesTask(o: TaskOption)
    ensures var k := o.TaskInvokeTimeKey();
      |k| == |o.keyPrefix| + 8 + |o.name| && k[..|o.keyPrefix|] == o.keyPrefix
      && k[|o.keyPrefix|..|o.keyPrefix| + 8] == ":invoke:" && k[|o.keyPrefix| + 8..] == o.name
  {
    var k := o.TaskInvokeTimeKey();
    assert k == (o.keyPrefix + ":invoke:") + o.name;
    assert k[..|o.keyPrefix| + 8] == o.keyPrefix + ":invoke:";
  }

  /** Tasks that share a key prefix have the same lock key exactly when they have the same name; likewise for invoke keys. */
  lemma KeysDistinguishTasks(a: TaskOption, b: TaskOption)
    requires a.keyPrefix == b.keyPrefix
    ensures a.TaskLockKey() == b.TaskLockKey() <==> a.name == b.name
    ensures a.TaskInvokeTimeKey() == b.TaskInvokeTimeKey() <==> a.name == b.name
  {
    LockKeyNamesTask(a);
    LockKeyNamesTask(b);
    InvokeKeyNamesTask(a);
    InvokeKeyNamesTask(b);
  }

  /** Under one prefix a lock key is never an invoke-time key: they differ right after the prefix's colon. */
  lemma LockKeyIsNotInvokeKey(a: TaskOption, b: TaskOption)
    requires a.keyPrefix == b.keyPrefix
    ensures a.TaskLockKey() != b.TaskInvokeTimeKey()
  {
    LockKeyNamesTask(a);
    InvokeKeyNamesTask(b);
    var p := |a.keyPrefix|;
    assert a.TaskLockKey()[p + 1] == ":lock:"[1] == 'l';
    assert b.TaskInvokeTimeKey()[p + 1] == ":invoke:"[1] == 'i';
  }

  /** The fields of a TaskOption that are configured rather than derived. */
  datatype Config = Config(disabled: bool, disableTaskLock: bool, taskLockTTL: Duration, invokeInternal: Duration, invokeTimeRange: seq<int>)

  /** The configuration of a task option. */
  function ConfigOf(o: TaskOption): Config
    reads o
  {
    Config(o.disabled, o.disableTaskLock, o.taskLockTTL, o.invokeInternal, o.invokeTimeRange)
  }

  /** The option o still has the configuration c, except that either duration may already be defaulted. */
  predicate Kept(o: TaskOption, c: Config)
    reads o
  {
    o.disabled == c.disabled && o.disableTaskLock == c.disableTaskLock && o.invokeTimeRange == c.invokeTimeRange
    && (o.taskLockTTL == c.taskLockTTL || o.taskLockTTL == OrDefault(c.taskLockTTL, 10 * Second))
    && (o.invokeInternal == c.invokeInternal || o.invokeInternal == OrDefault(c.invokeInternal, Minute))
  }

  /** No *TaskOption is stored under two keys. */
  predicate Injective(tasks: map<string, TaskOption?>) {
    forall a, b :: a in tasks && b in tasks && tasks[a] == tasks[b] ==> a == b
  }

  /** The configured fields of every task, as Option.MustNormalize finds them. */
  ghost function Configs(tasks: map<string, TaskOption?>): (c: map<string, Config>)
    reads tasks.Values
    requires forall n :: n in tasks ==> tasks[n] != null
    ensures c.Keys == tasks.Keys
  {
    map n | n in tasks :: ConfigOf(tasks[n])
  }

  /** The task stored under n has the prefix, a key it is stored under as its name, and the defaults of its configuration c. */
  ghost predicate Finished(tasks: map<string, TaskOption?>, prefix: string, n: string, c: Config)
    reads tasks.Values
    requires n in tasks && tasks[n] != null
  {
    var o := tasks[n];
    o.keyPrefix == prefix && o.Normalized() && o.name in tasks && tasks[o.name] == o
    && o.taskLockTTL == OrDefault(c.taskLockTTL, 10 * Second) && o.invokeInternal == OrDefault(c.invokeInternal, Minute)
  }

  /**
   * The walk of Option.MustNormalize with the names in pending still to
   * visit: every task still has its configuration c0, up to the defaults,
   * and the tasks under the names already visited are finished.
   */
  ghost predicate Walked(tasks: map<string, TaskOption?>, prefix: string, pending: set<string>, c0: map<string, Config>)
    reads tasks.Values
  {
    forall n {:trigger tasks[n]} :: n in tasks ==>
      n in c0 && tasks[n] != null && ValidRange(c0[n].invokeTimeRange)
      && Kept(tasks[n], c0[n]) && (n !in pending ==> Finished(tasks, prefix, n, c0[n]))
  }

  /** The walk before any name is visited. */
  lemma WalkStart(tasks: map<string, TaskOption?>, prefix: string, c0: map<string, Config>)
    requires forall n :: n in tasks ==> tasks[n] != null && ValidRange(tasks[n].invokeTimeRange)
    requires c0 == Configs(tasks)
    ensures Walked(tasks, prefix, tasks.Keys, c0)
  {
  }

  /** The tasks after Option.MustNormalize, whose configurations were c0: the walk has visited every name. */
  ghost predicate TasksNormalized(tasks: map<string, TaskOption?>, prefix: string, c0: map<string, Config>)
    reads tasks.Values
  {
    Walked(tasks, prefix, {}, c0)
  }

  /**
   * What Option.MustNormalize leaves: every task has the shared prefix, the
   * TaskOption defaults over its configuration, and as name a key it is
   * stored under; each task is named by its own key when no task is stored
   * twice.
   */
  lemma NormalizedTasks(tasks: map<string, TaskOption?>, prefix: string, c0: map<string, Config>)
    requires TasksNormalized(tasks, prefix, c0)
    ensures forall n :: n in tasks ==>
      tasks[n].keyPrefix == prefix && tasks[n].Normalized()
      && tasks[n].name in tasks && tasks[tasks[n].name] == tasks[n]
    ensures Injective(tasks) ==> forall n :: n in tasks ==> tasks[n].name == n
    ensures forall n :: n in tasks ==>
      tasks[n].taskLockTTL == OrDefault(c0[n].taskLockTTL, 10 * Second)
      && tasks[n].invokeInternal == OrDefault(c0[n].invokeInternal, Minute)
      && tasks[n].disabled == c0[n].disabled && tasks[n].disableTaskLock == c0[n].disableTaskLock
      && tasks[n].invokeTimeRange == c0[n].invokeTimeRange
  {
    forall n | n in tasks
      ensures tasks[n].keyPrefix == prefix && tasks[n].Normalized()
      ensures tasks[n].name in tasks && tasks[tasks[n].name] == tasks[n]
    {
      assert Finished(tasks, prefix, n, c0[n]);
    }
    if Injective(tasks) {
      forall n | n in tasks
        ensures tasks[n].name == n
      {
        assert tasks[tasks[n].name] == tasks[n];
      }
    }
  }

  /** One round of the walk: the task under name gets its name, the prefix and its defaults. */
  method WalkStep(tasks: map<string, TaskOption?>, prefix: string, name: string, ghost pending: set<string>, ghost c0: map<string, Config>)
    requires name in tasks && !Text.AllSpace(name) && !Text.AllSpace(prefix) && Walked(tasks, prefix, pending, c0)
    modifies tasks[name]
    ensures Walked(tasks, prefix, pending - {name}, c0)
  {
    var to := tasks[name];
    to.name := name;
    to.keyPrefix := prefix;
    var _ := to.MustNormalize();
    forall n | n in tasks
      ensures Kept(tasks[n], c0[n]) && (n !in pending - {name} ==> Finished(tasks, prefix, n, c0[n]))
    {
      if tasks[n] == to {
        assert old(Kept(tasks[n], c0[n]));
      }
    }
  }

  /** The loop of Option.MustNormalize over the map, in the map's order. */
  method Walk(tasks: map<string, TaskOption?>, prefix: string)
    requires !Text.AllSpace(prefix)
    requires forall n :: n in tasks ==> tasks[n] != null && !Text.AllSpace(n) && ValidRange(tasks[n].invokeTimeRange)
    modifies tasks.Values
    ensures forall n :: n in tasks ==>
      tasks[n].keyPrefix == prefix && tasks[n].Normalized()
      && tasks[n].name in tasks && tasks[tasks[n].name] == tasks[n]
    ensures Injective(tasks) ==> forall n :: n in tasks ==> tasks[n].name == n
    ensures forall n :: n in tasks ==>
      tasks[n].taskLockTTL == OrDefault(old(tasks[n].taskLockTTL), 10 * Second)
      && tasks[n].invokeInternal == OrDefault(old(tasks[n].invokeInternal), Minute)
    ensures forall n :: n in tasks ==>
      tasks[n].disabled == old(tasks[n].disabled) && tasks[n].disableTaskLock == old(tasks[n].disableTaskLock)
      && tasks[n].invokeTimeRange == old(tasks[n].invokeTimeRange)
  {
    ghost var c0 := Configs(tasks);
    WalkStart(tasks, prefix, c0);
    var rest := tasks.Keys;
    while rest != {}
      invariant rest <= tasks.Keys
      invariant Walked(tasks, prefix, rest, c0)
      decreases rest
    {
      var name :| name in rest;
      WalkStep(tasks, prefix, name, rest, c0);
      rest := rest - {name};
    }
    NormalizedTasks(tasks, prefix, c0);
  }

  class Option {
    const hasRedis: bool
    const tasks: map<string, TaskOption?>
    var taskKeyPrefix: string

    /** An Option literal: whether Redis options are set, the tasks and the key prefix. */
    constructor (hasRedis: bool, tasks: map<string, TaskOption?>, taskKeyPrefix: string)
      ensures this.hasRedis == hasRedis
      ensures this.tasks == tasks && this.taskKeyPrefix == taskKeyPrefix
    {
      this.hasRedis := hasRedis;
      this.tasks := tasks;
      this.taskKeyPrefix := taskKeyPrefix;
    }

    /**
     * Option.MustNormalize: Redis must be set and Tasks non-empty, every task
     * non-nil with a non-blank map key and a valid time range. A blank prefix
     * becomes "task:". Every task gets the shared prefix, a map key it is
     * stored under as its name, and the TaskOption defaults. When one
     * *TaskOption is stored under several keys it keeps the last key the walk
     * gives it; when none is, each task is named by its own key.
     */
    method MustNormalize() returns (r: Option)
      requires hasRedis && |tasks| > 0
      requires forall n :: n in tasks ==> tasks[n] != null && !Text.AllSpace(n) && ValidRange(tasks[n].invokeTimeRange)
      modifies this, tasks.Values
      ensures r == this
      ensures taskKeyPrefix == PrefixOrDefault(old(taskKeyPrefix))
      ensures forall n :: n in tasks ==>
        tasks[n].keyPrefix == taskKeyPrefix && tasks[n].Normalized()
        && tasks[n].name in tasks && tasks[tasks[n].name] == tasks[n]
      ensures Injective(tasks) ==> forall n :: n in tasks ==> tasks[n].name == n
      ensures forall n :: n in tasks ==>
        tasks[n].taskLockTTL == OrDefault(old(tasks[n].taskLockTTL), 10 * Second)
        && tasks[n].invokeInternal == OrDefault(old(tasks[n].invokeInternal), Minute)
      ensures forall n :: n in tasks ==>
        tasks[n].disabled == old(tasks[n].disabled) && tasks[n].disableTaskLock == old(tasks[n].disableTaskLock)
        && tasks[n].invokeTimeRange == old(tasks[n].invokeTimeRange)
    {
      taskKeyPrefix := PrefixOrDefault(taskKeyPrefix);
      Walk(tasks, taskKeyPrefix);
      return this;
    }

    /** Option.MustGetTaskOption: the name must be a key of Tasks. */
    function MustGetTaskOption(name: string): (to: TaskOption?)
      reads this
      requires name in tasks
      ensures to in tasks.Values
    {
      tasks[name]
    }
  }

  /** The keys of the scenario below, spelled out. */
  lemma ScenarioKeys()
    ensures DefaultTaskKeyPrefix + ":lock:" + "a" == "task::lock:a"
    ensures DefaultTaskKeyPrefix + ":invoke:" + "b" == "task::invoke:b"
  {
  }

  /**
   * Two tasks under the default prefix: after MustNormalize each is named by
   * its key, and the default prefix already ends in a colon, so the lock key
   * of "a" is "task::lock:a".
   */
  method DefaultPrefixScenario() returns (lockA: string, invokeB: string)
    ensures lockA == "task::lock:a" && invokeB == "task::invoke:b"
  {
    var a := new TaskOption(false, false, 0, 0, []);
    var b := new TaskOption(false, true, 5 * Second, 0, [1200, 1400]);
    var o := new Option(true, map["a" := a, "b" := b], "");
    assert o.tasks.Values == {a, b} by {
      assert o.tasks["a"] == a && o.tasks["b"] == b;
    }
    assert !Text.AllSpace("a") && !Text.AllSpace("b") by {
      assert !Text.IsSpace("a"[0]) && !Text.IsSpace("b"[0]);
    }
    assert Injective(o.tasks) by {
      assert a != b;
    }
    var _ := o.MustNormalize();
    assert a.name == "a" && b.name == "b" by {
      assert o.tasks["a"] == a && o.tasks["b"] == b;
    }
    assert UString.Empty("");
    assert o.taskKeyPrefix == DefaultTaskKeyPrefix;
    assert a.keyPrefix == DefaultTaskKeyPrefix && b.keyPrefix == DefaultTaskKeyPrefix;
    var ta := o.MustGetTaskOption("a");
    var tb := o.MustGetTaskOption("b");
    lockA := ta.TaskLockKey();
    invokeB := tb.TaskInvokeTimeKey();
    assert lockA == DefaultTaskKeyPrefix + ":lock:" + "a";
    assert invokeB == DefaultTaskKeyPrefix + ":invoke:" + "b";
    ScenarioKeys();
  }
}
