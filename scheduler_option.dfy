/**
 * scheduler/option.go: the options of the cron task scheduler. Each task's
 * options are a *TaskOption the Tasks map points to, and MustNormalize
 * rewrites two of its flags in place, so the task options are objects. The
 * map itself is never reassigned by the modelled operations, so it is a
 * constant of the Option.
 */
module SchedulerOption {
  import Text

  class TaskOption {
    var cron: string
    var enableRecover: bool
    var skipIfStillRunning: bool
    var delayIfStillRunning: bool

    /** A task option as configured. */
    constructor (cron: string, enableRecover: bool, skipIfStillRunning: bool, delayIfStillRunning: bool)
      ensures this.cron == cron && this.enableRecover == enableRecover
      ensures this.skipIfStillRunning == skipIfStillRunning && this.delayIfStillRunning == delayIfStillRunning
    {
      this.cron := cron;
      this.enableRecover := enableRecover;
      this.skipIfStillRunning := skipIfStillRunning;
      this.delayIfStillRunning := delayIfStillRunning;
    }
  }

  /**
   * Every task is present and has a cron expression that is not blank: not
   * all white space, which is what _string.Empty rejects
   * (UString.Empty).
   */
  predicate TasksValid(tasks: map<string, TaskOption?>)
    reads tasks.Values
  {
    forall n :: n in tasks ==> tasks[n] != null && !Text.AllSpace(tasks[n].cron)
  }

  /** Every task recovers from a crash and skips a run while the previous one is still running. */
  predicate TasksNormalized(tasks: map<string, TaskOption?>)
    reads tasks.Values
  {
    forall n :: n in tasks ==> tasks[n] != null && tasks[n].enableRecover && tasks[n].skipIfStillRunning
  }

  class Option {
    var enableCronSeconds: bool
    const tasks: map<string, TaskOption?>

    /** An Option literal. */
    constructor (enableCronSeconds: bool, tasks: map<string, TaskOption?>)
      ensures this.enableCronSeconds == enableCronSeconds && this.tasks == tasks
    {
      this.enableCronSeconds := enableCronSeconds;
      this.tasks := tasks;
    }

    /**
     * Option.MustNormalize: every task must be non-nil with a cron that is
     * not blank. Each task then recovers from crashes and skips a run while
     * the previous one is still running, whatever it was configured with;
     * its cron and DelayIfStillRunning stay as they are.
     */
    method MustNormalize() returns (r: Option)
      requires TasksValid(tasks)
      modifies tasks.Values
      ensures r == this
      ensures TasksValid(tasks) && TasksNormalized(tasks)
      ensures forall n :: n in tasks ==>
        tasks[n].cron == old(tasks[n].cron) && tasks[n].delayIfStillRunning == old(tasks[n].delayIfStillRunning)
      ensures old(TasksNormalized(tasks)) ==> forall n :: n in tasks ==>
        tasks[n].enableRecover == old(tasks[n].enableRecover) && tasks[n].skipIfStillRunning == old(tasks[n].skipIfStillRunning)
    {
      var rest := tasks.Keys;
      while rest != {}
        invariant rest <= tasks.Keys
        invariant forall n :: n in tasks ==> tasks[n] != null
        invariant forall n :: n in tasks ==>
          tasks[n].cron == old(tasks[n].cron) && tasks[n].delayIfStillRunning == old(tasks[n].delayIfStillRunning)
        invariant forall n :: n in tasks && n !in rest ==> tasks[n].enableRecover && tasks[n].skipIfStillRunning
        decreases rest
      {
        var name :| name in rest;
        var task := tasks[name];
        task.enableRecover := true;
        task.skipIfStillRunning := true;
        rest := rest - {name};
      }
      return this;
    }

    /** Option.Task: the option stored under name; nil when Tasks is empty or has no such name. */
    function Task(name: string): (t: TaskOption?)
      reads this
      ensures name in tasks ==> t == tasks[name]
      ensures name !in tasks ==> t == null
    {
      if |tasks| > 0 then (if name in tasks then tasks[name] else null) else null
    }
  }

  /** After MustNormalize, every name of Tasks finds a task that recovers and skips overlapping runs. */
  lemma NormalizedTaskFound(o: Option, name: string)
    requires TasksNormalized(o.tasks) && name in o.tasks
    ensures o.Task(name) != null && o.Task(name).enableRecover && o.Task(name).skipIfStillRunning
  {
  }

  /**
   * A task configured to delay rather than skip overlapping runs still
   * skips them after MustNormalize: its DelayIfStillRunning is kept but no
   * longer takes effect.
   */
  method DelayOverriddenScenario() returns (skip: bool, delay: bool)
    ensures skip && delay
  {
    var t := new TaskOption("*/5 * * * *", false, false, true);
    var o := new Option(false, map["report" := t]);
    assert o.tasks.Values == {t} by {
      assert o.tasks["report"] == t;
    }
    assert !Text.AllSpace(t.cron) by {
      assert !Text.IsSpace(t.cron[0]);
    }
    var _ := o.MustNormalize();
    var found := o.Task("report");
    skip := found.skipIfStillRunning;
    delay := found.delayIfStillRunning;
  }
}
