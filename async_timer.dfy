/**
 * async/timer.go: a timing wheel. Each task is put into one of bucketsNum
 * buckets, with a round count; every tick the executor visits the current
 * bucket, counts down the rounds of the tasks in it, fires those whose
 * round is 0, drops those marked removed, and moves to the next bucket.
 *
 * The run goroutine handles one event at a time (a tick, a put, a delete or
 * the close), so each event is modelled as one step. Tasks are shared
 * between the key index and the buckets by pointer; here they live in the
 * arena `store` under an id, and the index and the buckets hold ids.
 */
module AsyncTimer {
  import opened Wrappers
  import opened Go

  /** *timerExecutorTask */
  datatype TimerTask = TimerTask(
    delay: Duration,
    key: Value,
    value: Value,
    bucketIdx: int,
    round: int,
    removed: bool,
    cyclic: bool)

  /** The fields of a TimerExecutor the run goroutine works on, as a value. */
  datatype TimerState = TimerState(
    store: map<int, TimerTask>,
    tasks: map<Value, int>,
    buckets: seq<map<Value, int>>,
    cur: int,
    period: Duration,
    nextId: int,
    closed: bool,
    hasOnClosed: bool)

  /** Bucket b holds key k under a task placed in bucket b with that key. */
  predicate Placed(s: TimerState, b: int, k: Value)
    requires 0 <= b < |s.buckets| && k in s.buckets[b]
  {
    var id := s.buckets[b][k];
    id in s.store && s.store[id].key == k && s.store[id].bucketIdx == b
  }

  /**
   * What every step keeps: the wheel has a positive period and at least one
   * bucket; every task is placed in a bucket with a round >= 0; the index
   * and the buckets point at tasks with their own key. (The index may lose
   * a key whose task is still in a bucket; see StalePurgeOrphansTask.)
   */
  predicate Valid(s: TimerState) {
    s.period > 0 && |s.buckets| > 0 && 0 <= s.cur < |s.buckets| && s.nextId >= 0
    && (forall id :: id in s.store ==> 0 <= id < s.nextId && 0 <= s.store[id].bucketIdx < |s.buckets|
                                         && s.store[id].round >= 0 && s.store[id].delay > 0 && s.store[id].key != Nil)
    && (forall k :: k in s.tasks ==> s.tasks[k] in s.store && s.store[s.tasks[k]].key == k)
    && (forall b, k :: 0 <= b < |s.buckets| && k in s.buckets[b] ==> Placed(s, b, k))
  }

  /** async.NewTimerExecutor: bucketsNum empty buckets, at bucket 0, no tasks. */
  function NewState(period: Duration, bucketsNum: int): (s: TimerState)
    requires period > 0 && bucketsNum > 0
    ensures Valid(s) && |s.buckets| == bucketsNum && s.tasks == map[] && !s.closed
  {
    TimerState(map[], map[], seq(bucketsNum, _ => map[]), 0, period, 0, false, false)
  }

  /** The del case of run: the key's task, if any, is marked removed; nothing else changes. */
  function MarkRemoved(s: TimerState, key: Value): (s': TimerState)
    requires Valid(s)
    ensures Valid(s')
    ensures key !in s.tasks ==> s' == s
    ensures key in s.tasks ==> s' == s.(store := s.store[s.tasks[key] := s.store[s.tasks[key]].(removed := true)])
  {
    if key in s.tasks then s.(store := s.store[s.tasks[key] := s.store[s.tasks[key]].(removed := true)]) else s
  }

  /** resetTaskPosition: whole periods of the delay, counted from the current bucket. */
  function Steps(s: TimerState, delay: Duration): int
    requires s.period > 0 && delay > 0
  {
    delay / s.period
  }

  /** Where resetTaskPosition places a task put with this delay: its bucket and its round. */
  function Position(s: TimerState, delay: Duration): (p: (int, int))
    requires Valid(s) && delay > 0
    ensures 0 <= p.0 < |s.buckets| && p.1 >= 0
  {
    Wheel(delay / s.period, s.cur, |s.buckets|)
  }

  /** The bucket `steps` buckets after cur on a wheel of n, and the full turns on the way. */
  function Wheel(steps: int, cur: int, n: int): (p: (int, int))
    requires steps >= 0 && 0 <= cur < n
    ensures 0 <= p.0 < n && p.1 >= 0
  {
    ((steps + cur) % n, steps / n)
  }

  /** putTask: the task gets the next id and becomes its key's task in the index and in its bucket. */
  function Insert(s: TimerState, t: TimerTask): (s': TimerState)
    requires Valid(s) && 0 <= t.bucketIdx < |s.buckets| && t.round >= 0 && t.delay > 0 && t.key != Nil
    ensures Valid(s')
    ensures s'.store == s.store[s.nextId := t] && s'.tasks == s.tasks[t.key := s.nextId]
    ensures s'.buckets == s.buckets[t.bucketIdx := s.buckets[t.bucketIdx][t.key := s.nextId]]
    ensures s'.nextId == s.nextId + 1 && s'.cur == s.cur && s'.closed == s.closed && s'.hasOnClosed == s.hasOnClosed && s'.period == s.period
  {
    var s' := s.(store := s.store[s.nextId := t],
                 tasks := s.tasks[t.key := s.nextId],
                 buckets := s.buckets[t.bucketIdx := s.buckets[t.bucketIdx][t.key := s.nextId]],
                 nextId := s.nextId + 1);
    assert forall c, k :: 0 <= c < |s'.buckets| && k in s'.buckets[c] ==> Placed(s', c, k) by {
      forall c, k | 0 <= c < |s'.buckets| && k in s'.buckets[c] ensures Placed(s', c, k) {
        if c != t.bucketIdx || k != t.key {
          assert k in s.buckets[c] && Placed(s, c, k);
        }
      }
    }
    s'
  }

  /**
   * onPut: a task the key already has is marked removed, and the new task
   * goes to bucket (steps + cur) mod bucketsNum with round steps div
   * bucketsNum, where steps is the number of whole periods in its delay.
   */
  function PutState(s: TimerState, delay: Duration, key: Value, value: Value, cyclic: bool): (s': TimerState)
    requires Valid(s) && delay > 0 && key != Nil
    ensures Valid(s')
    ensures s' == Insert(MarkRemoved(s, key), TimerTask(delay, key, value, Position(s, delay).0, Position(s, delay).1, false, cyclic))
  {
    var p := Position(s, delay);
    Insert(MarkRemoved(s, key), TimerTask(delay, key, value, p.0, p.1, false, cyclic))
  }

  /** A task the tick takes out of its bucket: removed, or in its last round. */
  predicate Drops(t: TimerTask) {
    t.removed || t.round == 0
  }

  /** A task the tick fires: not removed and in its last round. */
  predicate Fires(t: TimerTask) {
    !t.removed && t.round == 0
  }

  /** The current bucket. */
  function Current(s: TimerState): map<Value, int>
    requires 0 <= s.cur < |s.buckets|
  {
    s.buckets[s.cur]
  }

  /** Whether the entry of key k in the current bucket was visited (in D) and is dropped. */
  predicate DroppedIn(s: TimerState, D: set<Value>, k: Value)
    requires 0 <= s.cur < |s.buckets|
  {
    k in D && k in Current(s) && Current(s)[k] in s.store && Drops(s.store[Current(s)[k]])
  }

  /** Whether task id was visited in the current bucket (its key in D) and has its round counted down. */
  predicate CountedDown(s: TimerState, D: set<Value>, id: int)
    requires 0 <= s.cur < |s.buckets|
  {
    id in s.store && s.store[id].key in D && s.store[id].key in Current(s)
    && Current(s)[s.store[id].key] == id && !s.store[id].removed && s.store[id].round > 0
  }

  /** The current bucket once the keys in D were visited: the dropped entries are gone. */
  function BucketAfter(s: TimerState, D: set<Value>): map<Value, int>
    requires 0 <= s.cur < |s.buckets|
  {
    map k | k in Current(s) && !DroppedIn(s, D, k) :: Current(s)[k]
  }

  /** The index once the keys in D were visited: delTask deletes the key of every dropped entry. */
  function TasksAfter(s: TimerState, D: set<Value>): map<Value, int>
    requires 0 <= s.cur < |s.buckets|
  {
    map k | k in s.tasks && !DroppedIn(s, D, k) :: s.tasks[k]
  }

  /** The tasks once the keys in D were visited: the kept ones have one round fewer. */
  function StoreAfter(s: TimerState, D: set<Value>): map<int, TimerTask>
    requires 0 <= s.cur < |s.buckets|
  {
    map id | id in s.store :: if CountedDown(s, D, id) then s.store[id].(round := s.store[id].round - 1) else s.store[id]
  }

  /** The entries fired once the keys in D were visited. */
  function FiredAfter(s: TimerState, D: set<Value>): map<Value, int>
    requires 0 <= s.cur < |s.buckets|
  {
    map k | k in D && k in Current(s) && Current(s)[k] in s.store && Fires(s.store[Current(s)[k]]) :: Current(s)[k]
  }

  /**
   * onTick: only the current bucket is visited. Its removed tasks are
   * deleted without firing, tasks with rounds left count one down and
   * stay, and the others are deleted and fired; then the wheel moves to
   * the next bucket.
   */
  function TickState(s: TimerState): (s': TimerState)
    requires Valid(s)
    ensures Valid(s')
    ensures s'.cur == (s.cur + 1) % |s.buckets| && |s'.buckets| == |s.buckets|
    ensures forall b :: 0 <= b < |s.buckets| && b != s.cur ==> s'.buckets[b] == s.buckets[b]
    ensures s'.nextId == s.nextId && s'.closed == s.closed && s'.hasOnClosed == s.hasOnClosed && s'.period == s.period
  {
    var D := Current(s).Keys;
    var s' := s.(store := StoreAfter(s, D), tasks := TasksAfter(s, D),
                 buckets := s.buckets[s.cur := BucketAfter(s, D)], cur := (s.cur + 1) % |s.buckets|);
    assert forall b, k :: 0 <= b < |s'.buckets| && k in s'.buckets[b] ==> Placed(s', b, k) by {
      forall b, k | 0 <= b < |s'.buckets| && k in s'.buckets[b] ensures Placed(s', b, k) {
        assert k in s.buckets[b] && Placed(s, b, k);
      }
    }
    s'
  }

  /** The tasks a tick fires, by key. */
  function Fired(s: TimerState): map<Value, int>
    requires Valid(s)
  {
    FiredAfter(s, Current(s).Keys)
  }

  /** A task still in the wheel: not removed, and the entry of its key in its bucket. */
  predicate Live(s: TimerState, id: int)
    requires Valid(s)
  {
    id in s.store && !s.store[id].removed
    && s.store[id].key in s.buckets[s.store[id].bucketIdx]
    && s.buckets[s.store[id].bucketIdx][s.store[id].key] == id
  }

  /** The ticks a live task still waits before the tick that fires it: buckets to go, plus full turns. */
  function Remaining(s: TimerState, id: int): (r: int)
    requires Valid(s) && id in s.store
    ensures r >= 0
  {
    (s.store[id].bucketIdx - s.cur) % |s.buckets| + s.store[id].round * |s.buckets|
  }

  /** n ticks in a row. */
  function Ticks(s: TimerState, n: nat): (s': TimerState)
    requires Valid(s)
    ensures Valid(s')
    decreases n
  {
    if n == 0 then s else Ticks(TickState(s), n - 1)
  }

  /** The quotient and remainder of Euclidean division are the only ones. */
  lemma DivModUnique(x: int, n: int, d: int, r: int)
    requires n > 0 && 0 <= r < n && x == d * n + r
    ensures x % n == r && x / n == d
  {
    var d', r' := x / n, x % n;
    assert x == d' * n + r' && 0 <= r' < n;
    var e := d - d';
    assert e * n == r' - r;
    MulSign(e, n);
  }

  lemma MulSign(e: int, n: int)
    requires n > 0
    ensures e >= 1 ==> e * n >= n
    ensures e <= -1 ==> e * n <= -n
  {
    if e >= 1 {
      assert e * n == (e - 1) * n + n;
    } else if e <= -1 {
      assert e * n == -((-e - 1) * n) - n;
    }
  }

  /** The wheel counts the steps of a placement back exactly: buckets ahead plus full turns. */
  lemma WheelRemaining(steps: int, cur: int, n: int)
    requires steps >= 0 && 0 <= cur < n
    ensures (Wheel(steps, cur, n).0 - cur) % n + Wheel(steps, cur, n).1 * n == steps
  {
    var q := (steps + cur) / n;
    var b := (steps + cur) % n;
    var d := steps / n;
    var r := steps % n;
    assert steps == d * n + r;
    if r + cur < n {
      DivModUnique(steps + cur, n, d, r + cur);
      DivModUnique(b - cur, n, 0, r);
    } else {
      DivModUnique(steps + cur, n, d + 1, r + cur - n);
      assert b - cur == r - n;
      DivModUnique(b - cur, n, -1, r);
    }
  }

  /** Moving the wheel one bucket brings every other bucket one bucket closer, and the current one a full turn away. */
  lemma StepCloser(b: int, cur: int, n: int)
    requires 0 <= b < n && 0 <= cur < n
    ensures b == cur ==> (b - (cur + 1) % n) % n == n - 1
    ensures b != cur ==> (b - (cur + 1) % n) % n == (b - cur) % n - 1
    ensures b == cur ==> (b - cur) % n == 0
    ensures b != cur ==> (b - cur) % n >= 1
  {
    var next := if cur + 1 < n then cur + 1 else 0;
    if cur + 1 < n {
      DivModUnique(cur + 1, n, 0, cur + 1);
    } else {
      DivModUnique(cur + 1, n, 1, 0);
    }
    assert (cur + 1) % n == next;
    if b >= cur {
      DivModUnique(b - cur, n, 0, b - cur);
    } else {
      DivModUnique(b - cur, n, -1, b - cur + n);
    }
    if b >= next {
      DivModUnique(b - next, n, 0, b - next);
    } else {
      DivModUnique(b - next, n, -1, b - next + n);
    }
  }

  /** A task put with delay D is live and waits D div period ticks before the tick that fires it. */
  lemma PutWaits(s: TimerState, delay: Duration, key: Value, value: Value, cyclic: bool)
    requires Valid(s) && delay > 0 && key != Nil
    ensures var s' := PutState(s, delay, key, value, cyclic);
      Live(s', s.nextId) && Remaining(s', s.nextId) == delay / s.period
  {
    WheelRemaining(delay / s.period, s.cur, |s.buckets|);
  }

  /** A tick leaves a task outside the current bucket as it is, in its bucket, and does not fire it. */
  lemma TickPasses(s: TimerState, id: int)
    requires Valid(s) && Live(s, id) && s.store[id].bucketIdx != s.cur
    ensures TickState(s).store[id] == s.store[id] && Live(TickState(s), id)
    ensures id !in Fired(s).Values
  {
    var t := s.store[id];
    assert !CountedDown(s, Current(s).Keys, id);
    forall k | k in Fired(s) ensures Fired(s)[k] != id {
      assert k in Current(s) && Placed(s, s.cur, k);
    }
  }

  /** A tick counts down a task of the current bucket with rounds left, keeps it there, and does not fire it. */
  lemma TickTurns(s: TimerState, id: int)
    requires Valid(s) && Live(s, id) && s.store[id].bucketIdx == s.cur && s.store[id].round > 0
    ensures TickState(s).store[id] == s.store[id].(round := s.store[id].round - 1) && Live(TickState(s), id)
    ensures id !in Fired(s).Values
  {
    var t := s.store[id];
    assert CountedDown(s, Current(s).Keys, id);
    assert !DroppedIn(s, Current(s).Keys, t.key);
    forall k | k in Fired(s) ensures Fired(s)[k] != id {
      assert k in Current(s) && Placed(s, s.cur, k);
    }
  }

  /** A tick fires a task of the current bucket in its last round and takes it out of the bucket. */
  lemma TickFires(s: TimerState, id: int)
    requires Valid(s) && Live(s, id) && s.store[id].bucketIdx == s.cur && s.store[id].round == 0
    ensures s.store[id].key in Fired(s) && Fired(s)[s.store[id].key] == id
    ensures !Live(TickState(s), id)
  {
    assert DroppedIn(s, Current(s).Keys, s.store[id].key);
  }

  /** The ticks a task at bucket b with `round` turns left waits, with the wheel at cur. */
  function Wait(b: int, cur: int, n: int, round: int): int
    requires n > 0
  {
    (b - cur) % n + round * n
  }

  /** One step of the wheel takes one tick off the wait of every task except one due now. */
  lemma WaitStep(b: int, cur: int, n: int, round: int)
    requires 0 <= b < n && 0 <= cur < n && round >= 0
    ensures b != cur ==> Wait(b, cur, n, round) > 0 && Wait(b, (cur + 1) % n, n, round) == Wait(b, cur, n, round) - 1
    ensures b == cur && round > 0 ==> Wait(b, cur, n, round) > 0 && Wait(b, (cur + 1) % n, n, round - 1) == Wait(b, cur, n, round) - 1
    ensures b == cur && round == 0 ==> Wait(b, cur, n, round) == 0
  {
    StepCloser(b, cur, n);
    assert (round - 1) * n == round * n - n;
    MulSign(round, n);
  }

  /**
   * One tick brings a live task one tick closer: while it still has to
   * wait it stays live, is not fired and waits one tick less; with nothing
   * left to wait, the tick fires it and takes it out of the wheel.
   */
  lemma TickCountdown(s: TimerState, id: int)
    requires Valid(s) && Live(s, id)
    ensures Remaining(s, id) > 0 ==>
      Live(TickState(s), id) && Remaining(TickState(s), id) == Remaining(s, id) - 1
      && TickState(s).store[id].key == s.store[id].key && id !in Fired(s).Values
    ensures Remaining(s, id) == 0 ==>
      var k := s.store[id].key;
      k in Fired(s) && Fired(s)[k] == id && !Live(TickState(s), id)
  {
    var t := s.store[id];
    var n := |s.buckets|;
    WaitStep(t.bucketIdx, s.cur, n, t.round);
    assert Remaining(s, id) == Wait(t.bucketIdx, s.cur, n, t.round);
    if t.bucketIdx != s.cur {
      TickPasses(s, id);
    } else if t.round > 0 {
      TickTurns(s, id);
    } else {
      TickFires(s, id);
    }
  }

  /** A live task stays live over the ticks it waits, one tick less each time. */
  lemma {:induction false} Countdown(s: TimerState, id: int, j: nat)
    requires Valid(s) && Live(s, id) && j <= Remaining(s, id)
    ensures Live(Ticks(s, j), id) && Remaining(Ticks(s, j), id) == Remaining(s, id) - j
    ensures Ticks(s, j).store[id].key == s.store[id].key
    decreases j
  {
    if j > 0 {
      TickCountdown(s, id);
      Countdown(TickState(s), id, j - 1);
    }
  }

  /**
   * A live task that is neither deleted nor replaced is not fired by the
   * ticks it waits, and is fired by the next one.
   */
  lemma FiresAfterWaiting(s: TimerState, id: int)
    requires Valid(s) && Live(s, id)
    ensures forall j :: 0 <= j < Remaining(s, id) ==> id !in Fired(Ticks(s, j)).Values
    ensures var last := Ticks(s, Remaining(s, id));
      s.store[id].key in Fired(last) && Fired(last)[s.store[id].key] == id
  {
    var r := Remaining(s, id);
    forall j | 0 <= j < r ensures id !in Fired(Ticks(s, j)).Values {
      Countdown(s, id, j);
      var sj := Ticks(s, j);
      assert Remaining(sj, id) == r - j > 0;
      TickCountdown(sj, id);
    }
    Countdown(s, id, r);
    var last := Ticks(s, r);
    assert Remaining(last, id) == 0;
    assert last.store[id].key == s.store[id].key;
    TickCountdown(last, id);
  }

  /**
   * The precision window of the executor, in ticks: a task put with delay
   * D, then left alone, is fired by tick D div period + 1 after the Put and
   * by no tick before it.
   */
  lemma PutFiresOnTick(s: TimerState, delay: Duration, key: Value, value: Value, cyclic: bool)
    requires Valid(s) && delay > 0 && key != Nil
    ensures var s' := PutState(s, delay, key, value, cyclic);
      && (forall j :: 0 <= j < delay / s.period ==> s.nextId !in Fired(Ticks(s', j)).Values)
      && key in Fired(Ticks(s', delay / s.period)) && Fired(Ticks(s', delay / s.period))[key] == s.nextId
  {
    PutWaits(s, delay, key, value, cyclic);
    FiresAfterWaiting(PutState(s, delay, key, value, cyclic), s.nextId);
  }

  /** A task marked removed is never fired, and stays marked. */
  lemma RemovedNotFired(s: TimerState, id: int)
    requires Valid(s) && id in s.store && s.store[id].removed
    ensures id !in Fired(s).Values
    ensures id in TickState(s).store && TickState(s).store[id].removed
  {
    forall k | k in Fired(s) ensures Fired(s)[k] != id {
    }
  }

  /** Over any number of ticks, a task marked removed is never fired. */
  lemma {:induction false} RemovedNeverFires(s: TimerState, id: int, j: nat)
    requires Valid(s) && id in s.store && s.store[id].removed
    ensures id !in Fired(Ticks(s, j)).Values
    ensures id in Ticks(s, j).store && Ticks(s, j).store[id].removed
    decreases j
  {
    RemovedNotFired(s, id);
    if j > 0 {
      RemovedNeverFires(TickState(s), id, j - 1);
    }
  }

  /**
   * Del of a key with a task marks that task removed, so no later tick
   * fires it; Del of a key without a task changes nothing. A Put on a key
   * does the same to the key's previous task, so only the new one fires.
   */
  lemma DelCancels(s: TimerState, key: Value, j: nat)
    requires Valid(s)
    ensures key !in s.tasks ==> MarkRemoved(s, key) == s
    ensures key in s.tasks ==> s.tasks[key] !in Fired(Ticks(MarkRemoved(s, key), j)).Values
  {
    if key in s.tasks {
      RemovedNeverFires(MarkRemoved(s, key), s.tasks[key], j);
    }
  }

  /** A Put on a key whose task is pending replaces it: the old task is never fired. */
  lemma PutReplaces(s: TimerState, delay: Duration, key: Value, value: Value, cyclic: bool, j: nat)
    requires Valid(s) && delay > 0 && key != Nil && key in s.tasks
    ensures var s' := PutState(s, delay, key, value, cyclic);
      s'.tasks[key] == s.nextId && s.tasks[key] !in Fired(Ticks(s', j)).Values
  {
    var s' := PutState(s, delay, key, value, cyclic);
    assert s'.store[s.tasks[key]].removed;
    RemovedNeverFires(s', s.tasks[key], j);
  }

  /** Tasks stay in the arena with their delay, key, value and cyclic flag; only removed and round change. */
  predicate Keeps(s: TimerState, s': TimerState) {
    forall id :: id in s.store ==>
      id in s'.store && s'.store[id].delay == s.store[id].delay && s'.store[id].key == s.store[id].key
      && s'.store[id].value == s.store[id].value && s'.store[id].cyclic == s.store[id].cyclic
  }

  /** runTasks: the fired tasks re-armed one after another, in the order given. */
  function RearmAll(s: TimerState, ids: seq<int>): (s': TimerState)
    requires Valid(s) && forall i :: 0 <= i < |ids| ==> ids[i] in s.store
    ensures Valid(s') && s.store.Keys <= s'.store.Keys
    decreases |ids|
  {
    if ids == [] then s
    else
      var prev := RearmAll(s, ids[..|ids| - 1]);
      Rearm(prev, ids[|ids| - 1])
  }

  /**
   * runTasks for one fired task: after the handler, a cyclic task is put
   * again with its delay, key and value (PutTask, which does nothing once
   * the executor is closed); any other task is not re-armed.
   */
  function Rearm(s: TimerState, id: int): (s': TimerState)
    requires Valid(s) && id in s.store
    ensures Valid(s') && s.store.Keys <= s'.store.Keys
  {
    var t := s.store[id];
    if t.cyclic && !s.closed then PutState(s, t.delay, t.key, t.value, true) else s
  }

  /** Re-arming keeps every task's delay, key, value and cyclic flag. */
  lemma RearmKeeps(s: TimerState, id: int)
    requires Valid(s) && id in s.store
    ensures Keeps(s, Rearm(s, id))
  {
  }

  /** So does re-arming a whole list of fired tasks. */
  lemma {:induction false} RearmAllKeeps(s: TimerState, ids: seq<int>)
    requires Valid(s) && forall i :: 0 <= i < |ids| ==> ids[i] in s.store
    ensures Keeps(s, RearmAll(s, ids))
    decreases |ids|
  {
    if ids != [] {
      var prev := RearmAll(s, ids[..|ids| - 1]);
      RearmAllKeeps(s, ids[..|ids| - 1]);
      RearmKeeps(prev, ids[|ids| - 1]);
    }
  }

  /** A cyclic task comes back with its own delay, key and value, and waits its delay again; others do not. */
  lemma RearmPutsBack(s: TimerState, id: int)
    requires Valid(s) && id in s.store
    ensures var t := s.store[id];
      && (!t.cyclic || s.closed ==> Rearm(s, id) == s)
      && (t.cyclic && !s.closed ==>
            var s' := Rearm(s, id);
            && s'.tasks[t.key] == s.nextId && Live(s', s.nextId)
            && s'.store[s.nextId].delay == t.delay && s'.store[s.nextId].value == t.value && s'.store[s.nextId].cyclic
            && Remaining(s', s.nextId) == t.delay / s.period)
  {
    var t := s.store[id];
    if t.cyclic && !s.closed {
      PutWaits(s, t.delay, t.key, t.value, true);
    }
  }

  /**
   * onClosed: the handler (when one was set) is called once for every key
   * still in the index, with its task's value. Deleted tasks not yet
   * purged by a tick are still in the index and are reported too.
   */
  function ClosedCalls(s: TimerState): (calls: map<Value, Value>)
    requires Valid(s)
    ensures s.hasOnClosed ==> calls.Keys == s.tasks.Keys
    ensures !s.hasOnClosed ==> calls == map[]
  {
    if s.hasOnClosed then map k | k in s.tasks :: s.store[s.tasks[k]].value else map[]
  }

  /** The state of the orphan example after its two puts: the first task removed, the second a round away in bucket 0. */
  lemma TwoPutsOneKey(k: Value, v: Value)
    requires k != Nil
    ensures var s2 := PutState(PutState(NewState(1, 2), 1, k, v, false), 2, k, v, false);
      && s2.cur == 0 && |s2.buckets| == 2 && s2.tasks == map[k := 1]
      && s2.store == map[0 := TimerTask(1, k, v, 1, 0, true, false), 1 := TimerTask(2, k, v, 0, 1, false, false)]
      && s2.buckets[0] == map[k := 1] && s2.buckets[1] == map[k := 0]
  {
    var s0 := NewState(1, 2);
    var s1 := PutState(s0, 1, k, v, false);
    assert Position(s0, 1) == (1, 0);
    assert s1.buckets[1] == map[k := 0] && s1.buckets[0] == map[];
    var s2 := PutState(s1, 2, k, v, false);
    assert Position(s1, 2) == (0, 1);
  }

  /**
   * The stale purge, on a wheel of 2 buckets with period 1: Put(k, 1) puts
   * task 0 in bucket 1, and Put(k, 2) marks it removed and puts task 1 in
   * bucket 0 with one turn to go. The first tick counts task 1 down; the
   * second purges task 0 from bucket 1 and, with it, deletes k from the
   * index, which by then names task 1. Task 1 is still in the wheel, a Del
   * of k can no longer reach it, and the third tick fires it.
   */
  lemma StalePurgeOrphansTask(k: Value, v: Value)
    requires k != Nil
    ensures var s4 := Ticks(PutState(PutState(NewState(1, 2), 1, k, v, false), 2, k, v, false), 2);
      && k !in s4.tasks && Live(s4, 1)
      && MarkRemoved(s4, k) == s4
      && k in Fired(s4) && Fired(s4)[k] == 1
  {
    TwoPutsOneKey(k, v);
    var s2 := PutState(PutState(NewState(1, 2), 1, k, v, false), 2, k, v, false);
    OrphanFirstTick(s2, k, v);
    OrphanTick(TickState(s2), k);
    assert Ticks(s2, 2) == TickState(TickState(s2));
  }

  /** The first tick of the orphan example: task 1 counts its round down, nothing else changes. */
  lemma OrphanFirstTick(s2: TimerState, k: Value, v: Value)
    requires k != Nil
    requires Valid(s2) && s2.cur == 0 && |s2.buckets| == 2 && s2.tasks == map[k := 1]
    requires s2.store == map[0 := TimerTask(1, k, v, 1, 0, true, false), 1 := TimerTask(2, k, v, 0, 1, false, false)]
    requires s2.buckets[0] == map[k := 1] && s2.buckets[1] == map[k := 0]
    ensures var s3 := TickState(s2);
      && s3.cur == 1 && |s3.buckets| == 2 && s3.buckets[1] == map[k := 0] && s3.buckets[0] == map[k := 1]
      && 0 in s3.store && s3.store[0].removed && 1 in s3.store && s3.store[1].bucketIdx == 0
      && s3.store[1].round == 0 && !s3.store[1].removed && s3.store[1].key == k
  {
    TickTurns(s2, 1);
  }

  /** The second tick of the orphan example. */
  lemma OrphanTick(s3: TimerState, k: Value)
    requires Valid(s3) && s3.cur == 1 && |s3.buckets| == 2 && s3.buckets[1] == map[k := 0] && s3.buckets[0] == map[k := 1]
    requires 0 in s3.store && s3.store[0].removed && 1 in s3.store && s3.store[1].bucketIdx == 0
    requires s3.store[1].round == 0 && !s3.store[1].removed && s3.store[1].key == k
    ensures var s4 := TickState(s3);
      && k !in s4.tasks && Live(s4, 1)
      && MarkRemoved(s4, k) == s4
      && k in Fired(s4) && Fired(s4)[k] == 1
  {
    var s4 := TickState(s3);
    assert DroppedIn(s3, Current(s3).Keys, k);
    assert k !in s4.tasks;
    assert Live(s3, 1);
    TickPasses(s3, 1);
    assert s4.cur == 0 && s4.store[1].round == 0;
    TickFires(s4, 1);
  }

  /** Re-arming one more fired task: the task is still in the arena with the key, value and flags it fired with. */
  lemma RearmAllStep(s: TimerState, ids: seq<int>, i: int)
    requires Valid(s) && (forall j :: 0 <= j < |ids| ==> ids[j] in s.store) && 0 <= i < |ids|
    ensures var prev := RearmAll(s, ids[..i]);
      && ids[i] in prev.store && prev.store[ids[i]].key == s.store[ids[i]].key
      && prev.store[ids[i]].value == s.store[ids[i]].value
      && RearmAll(s, ids[..i + 1]) == Rearm(prev, ids[i])
  {
    assert ids[..i + 1][..i] == ids[..i];
    RearmAllKeeps(s, ids[..i]);
  }

  /** Once every key of the current bucket was visited, only the move to the next bucket is left. */
  lemma TickDone(s: TimerState)
    requires Valid(s)
    ensures TickState(s) == s.(store := StoreAfter(s, Current(s).Keys), tasks := TasksAfter(s, Current(s).Keys),
                               buckets := s.buckets[s.cur := BucketAfter(s, Current(s).Keys)], cur := (s.cur + 1) % |s.buckets|)
    ensures Fired(s) == FiredAfter(s, Current(s).Keys)
  {
  }

  /** Before the tick visits any key, nothing has changed. */
  lemma TickStart(s: TimerState)
    requires Valid(s)
    ensures StoreAfter(s, {}) == s.store && TasksAfter(s, {}) == s.tasks
    ensures BucketAfter(s, {}) == Current(s) && FiredAfter(s, {}) == map[]
  {
  }

  /**
   * One visit of onTick's loop: the task under key in the current bucket is
   * still as it was, and the visit drops it (deleting key from the index and
   * the bucket, and firing it when it is not removed) or counts its round down.
   */
  lemma TickStep(s: TimerState, D: set<Value>, key: Value)
    requires Valid(s) && D <= Current(s).Keys && key in Current(s) && key !in D
    ensures Current(s)[key] in s.store && Current(s)[key] in StoreAfter(s, D)
    ensures StoreAfter(s, D)[Current(s)[key]] == s.store[Current(s)[key]]
    ensures s.store[Current(s)[key]].key == key && s.store[Current(s)[key]].bucketIdx == s.cur
    ensures Drops(s.store[Current(s)[key]]) ==>
      && StoreAfter(s, D + {key}) == StoreAfter(s, D)
      && TasksAfter(s, D + {key}) == TasksAfter(s, D) - {key}
      && BucketAfter(s, D + {key}) == BucketAfter(s, D) - {key}
    ensures !Drops(s.store[Current(s)[key]]) ==>
      && StoreAfter(s, D + {key}) == StoreAfter(s, D)[Current(s)[key] := s.store[Current(s)[key]].(round := s.store[Current(s)[key]].round - 1)]
      && TasksAfter(s, D + {key}) == TasksAfter(s, D)
      && BucketAfter(s, D + {key}) == BucketAfter(s, D)
    ensures Fires(s.store[Current(s)[key]]) ==> FiredAfter(s, D + {key}) == FiredAfter(s, D)[key := Current(s)[key]]
    ensures !Fires(s.store[Current(s)[key]]) ==> FiredAfter(s, D + {key}) == FiredAfter(s, D)
  {
    assert Placed(s, s.cur, key);
  }

  /** The executor: the run goroutine's state, changed one event at a time. */
  class TimerExecutor {
    var store: map<int, TimerTask>
    var tasks: map<Value, int>
    var buckets: seq<map<Value, int>>
    var currentBucketIdx: int
    const period: Duration
    var nextId: int
    var closed: bool
    var hasOnClosed: bool

    function State(): TimerState
      reads this
    {
      TimerState(store, tasks, buckets, currentBucketIdx, period, nextId, closed, hasOnClosed)
    }

    /** async.NewTimerExecutor: period and bucketsNum must be positive; the buckets are made one by one. */
    constructor (period: Duration, bucketsNum: int)
      requires period > 0 && bucketsNum > 0
      ensures State() == NewState(period, bucketsNum)
    {
      store := map[];
      tasks := map[];
      currentBucketIdx := 0;
      this.period := period;
      nextId := 0;
      closed := false;
      hasOnClosed := false;
      var bs: seq<map<Value, int>> := [];
      for i := 0 to bucketsNum
        invariant |bs| == i && forall b :: 0 <= b < i ==> bs[b] == map[]
      {
        bs := bs + [map[]];
      }
      buckets := bs;
    }

    /** TimerExecutor.WithOnClosedHandler: whether a handler is given is all that is kept. */
    method WithOnClosedHandler(given: bool) returns (r: TimerExecutor)
      modifies this
      ensures r == this && State() == old(State()).(hasOnClosed := given)
    {
      hasOnClosed := given;
      return this;
    }

    /**
     * TimerExecutor.PutTask: the delay must be positive and the key not nil.
     * Once the executor is closed nothing is put and the answer is false;
     * otherwise the run goroutine handles the put (onPut).
     */
    method PutTask(delay: Duration, key: Value, value: Value, cyclic: bool) returns (ok: bool)
      requires Valid(State()) && delay > 0 && key != Nil
      modifies this
      ensures ok == !old(closed)
      ensures ok ==> State() == PutState(old(State()), delay, key, value, cyclic)
      ensures !ok ==> State() == old(State())
    {
      if closed {
        return false;
      }
      OnPut(TimerTask(delay, key, value, 0, 0, false, cyclic));
      return true;
    }

    /** TimerExecutor.Put: a task without a value that fires once. */
    method Put(delay: Duration, key: Value) returns (ok: bool)
      requires Valid(State()) && delay > 0 && key != Nil
      modifies this
      ensures ok == !old(closed)
      ensures ok ==> State() == PutState(old(State()), delay, key, Nil, false)
      ensures !ok ==> State() == old(State())
    {
      ok := PutTask(delay, key, Nil, false);
    }

    /** TimerExecutor.Del: the key must not be nil; the run goroutine marks the key's task removed. */
    method Del(key: Value) returns (ok: bool)
      requires Valid(State()) && key != Nil
      modifies this
      ensures ok == !old(closed)
      ensures ok ==> State() == MarkRemoved(old(State()), key)
      ensures !ok ==> State() == old(State())
    {
      if closed {
        return false;
      }
      if key in tasks {
        var id := tasks[key];
        store := store[id := store[id].(removed := true)];
      }
      return true;
    }

    /** onPut: the key's old task is marked removed, then the new one is placed. */
    method OnPut(task: TimerTask)
      requires Valid(State()) && task.delay > 0 && task.key != Nil && !task.removed
      modifies this
      ensures State() == PutState(old(State()), task.delay, task.key, task.value, task.cyclic)
    {
      if task.key in tasks {
        var id := tasks[task.key];
        store := store[id := store[id].(removed := true)];
      }
      assert State() == MarkRemoved(old(State()), task.key);
      ghost var p := Position(old(State()), task.delay);
      assert Position(State(), task.delay) == p;
      PutTaskAt(task);
      assert task.(bucketIdx := p.0, round := p.1) == TimerTask(task.delay, task.key, task.value, p.0, p.1, false, task.cyclic);
    }

    /** resetTaskPosition: the task's bucket and round for its delay, counted from the current bucket. */
    method ResetTaskPosition(task: TimerTask) returns (placed: TimerTask)
      requires Valid(State()) && task.delay > 0
      ensures placed == task.(bucketIdx := Position(State(), task.delay).0, round := Position(State(), task.delay).1)
    {
      var steps := task.delay / period;
      placed := task.(bucketIdx := (steps + currentBucketIdx) % |buckets|, round := steps / |buckets|);
    }

    /** putTask: the placed task gets the next id and becomes its key's entry in the index and its bucket. */
    method PutTaskAt(task: TimerTask)
      requires Valid(State()) && task.delay > 0 && task.key != Nil
      modifies this
      ensures State() == Insert(old(State()), task.(bucketIdx := Position(old(State()), task.delay).0,
                                                  round := Position(old(State()), task.delay).1))
    {
      var t := ResetTaskPosition(task);
      var id := nextId;
      nextId := nextId + 1;
      store := store[id := t];
      tasks := tasks[t.key := id];
      buckets := buckets[t.bucketIdx := buckets[t.bucketIdx][t.key := id]];
    }

    /** delTask: the task's key leaves the index and the task's bucket. */
    method DelTask(t: TimerTask)
      requires 0 <= t.bucketIdx < |buckets|
      modifies this
      ensures tasks == old(tasks) - {t.key}
      ensures buckets == old(buckets)[t.bucketIdx := old(buckets)[t.bucketIdx] - {t.key}]
      ensures store == old(store) && currentBucketIdx == old(currentBucketIdx) && nextId == old(nextId)
      ensures closed == old(closed) && hasOnClosed == old(hasOnClosed)
    {
      tasks := tasks - {t.key};
      buckets := buckets[t.bucketIdx := buckets[t.bucketIdx] - {t.key}];
    }

    /**
     * onTick: visits the current bucket, dropping, counting down and firing
     * as TickState says, and returns the fired tasks by key (the handler
     * runs them in runTasks). The wheel then moves to the next bucket.
     */
    method OnTick() returns (fired: map<Value, int>)
      requires Valid(State()) && !closed
      modifies this
      ensures State() == TickState(old(State())) && fired == Fired(old(State()))
    {
      ghost var s := State();
      TickStart(s);
      assert s.buckets[s.cur := Current(s)] == s.buckets;
      var bucket := buckets[currentBucketIdx];
      if |bucket| != 0 {
        fired := VisitAll(s, bucket);
      } else {
        assert Current(s).Keys == {};
        fired := map[];
      }
      TickDone(s);
      NextBucket();
    }

    /** The loop of onTick over the current bucket, as it was when the tick began. */
    method VisitAll(ghost s: TimerState, bucket: map<Value, int>) returns (fired: map<Value, int>)
      requires Valid(s) && bucket == Current(s) && Visited(s, {})
      modifies this
      ensures Visited(s, Current(s).Keys) && fired == FiredAfter(s, Current(s).Keys)
    {
      fired := map[];
      var rest := bucket.Keys;
      assert bucket.Keys - rest == {};
      while rest != {}
        invariant rest <= bucket.Keys
        invariant Visited(s, bucket.Keys - rest) && fired == FiredAfter(s, bucket.Keys - rest)
        decreases rest
      {
        var key :| key in rest;
        assert bucket.Keys - (rest - {key}) == (bucket.Keys - rest) + {key};
        fired := Visit(s, bucket.Keys - rest, key, fired);
        rest := rest - {key};
      }
      assert bucket.Keys - rest == Current(s).Keys;
    }

    /** The executor as the tick of s leaves it once the keys in D of the current bucket were visited. */
    ghost predicate Visited(s: TimerState, D: set<Value>)
      requires 0 <= s.cur < |s.buckets|
      reads this
    {
      && currentBucketIdx == s.cur && period == s.period && nextId == s.nextId
      && closed == s.closed && hasOnClosed == s.hasOnClosed
      && store == StoreAfter(s, D) && tasks == TasksAfter(s, D)
      && buckets == s.buckets[s.cur := BucketAfter(s, D)]
    }

    /** One pass of onTick's loop: the task under key is deleted when removed, counted down, or deleted and fired. */
    method Visit(ghost s: TimerState, ghost D: set<Value>, key: Value, fired: map<Value, int>) returns (fired': map<Value, int>)
      requires Valid(s) && D <= Current(s).Keys && key in Current(s) && key !in D
      requires Visited(s, D) && fired == FiredAfter(s, D)
      modifies this
      ensures Visited(s, D + {key}) && fired' == FiredAfter(s, D + {key})
    {
      TickStep(s, D, key);
      var id := buckets[currentBucketIdx][key];
      assert id == Current(s)[key];
      var task := store[id];
      fired' := fired;
      if task.removed {
        DelTask(task);
        assert buckets == s.buckets[s.cur := BucketAfter(s, D) - {key}];
      } else if task.round > 0 {
        store := store[id := task.(round := task.round - 1)];
      } else {
        DelTask(task);
        assert buckets == s.buckets[s.cur := BucketAfter(s, D) - {key}];
        fired' := fired[key := id];
      }
    }

    /** The deferred step of onTick: the next bucket, back to 0 after the last. */
    method NextBucket()
      requires 0 <= currentBucketIdx < |buckets|
      modifies this
      ensures store == old(store) && tasks == old(tasks) && buckets == old(buckets) && nextId == old(nextId)
      ensures currentBucketIdx == (old(currentBucketIdx) + 1) % |buckets|
      ensures closed == old(closed) && hasOnClosed == old(hasOnClosed)
    {
      currentBucketIdx := currentBucketIdx + 1;
      if currentBucketIdx == |buckets| {
        currentBucketIdx := 0;
      }
    }

    /**
     * runTasks: the handler gets each fired task's key and value in order,
     * and a cyclic task is put again with its delay (which does nothing once
     * the executor is closed).
     */
    method RunTasks(ids: seq<int>) returns (handled: seq<(Value, Value)>)
      requires Valid(State()) && forall i :: 0 <= i < |ids| ==> ids[i] in store
      modifies this
      ensures State() == RearmAll(old(State()), ids)
      ensures |handled| == |ids|
      ensures forall i :: 0 <= i < |ids| ==> handled[i] == (old(store)[ids[i]].key, old(store)[ids[i]].value)
    {
      ghost var s := State();
      handled := [];
      for i := 0 to |ids|
        invariant State() == RearmAll(s, ids[..i])
        invariant |handled| == i
        invariant forall j :: 0 <= j < i ==> handled[j] == (s.store[ids[j]].key, s.store[ids[j]].value)
      {
        RearmAllStep(s, ids, i);
        var h := RunTask(ids[i]);
        assert State() == RearmAll(s, ids[..i + 1]);
        assert h == (s.store[ids[i]].key, s.store[ids[i]].value);
        handled := handled + [h];
      }
      assert ids[..|ids|] == ids;
    }

    /** One pass of runTasks' loop: the handler gets the key and value, and a cyclic task is put again. */
    method RunTask(id: int) returns (h: (Value, Value))
      requires Valid(State()) && id in store
      modifies this
      ensures State() == Rearm(old(State()), id)
      ensures h == (old(store)[id].key, old(store)[id].value)
    {
      var task := store[id];
      h := (task.key, task.value);
      if task.cyclic {
        var _ := PutTask(task.delay, task.key, task.value, true);
      }
    }

    /**
     * TimerExecutor.Close: the first call closes the executor, and onClosed
     * hands every task still in the index to the closed handler, when there
     * is one. A later Close does nothing.
     */
    method Close() returns (calls: map<Value, Value>)
      requires Valid(State())
      modifies this
      ensures State() == old(State()).(closed := true)
      ensures old(closed) ==> calls == map[]
      ensures !old(closed) ==> calls == ClosedCalls(old(State()))
    {
      if closed {
        return map[];
      }
      closed := true;
      calls := map[];
      if hasOnClosed {
        var rest := tasks.Keys;
        while rest != {}
          invariant rest <= tasks.Keys && calls.Keys == tasks.Keys - rest
          invariant forall k :: k in calls ==> calls[k] == store[tasks[k]].value
          decreases rest
        {
          var key :| key in rest;
          calls := calls[key := store[tasks[key]].value];
          rest := rest - {key};
        }
        assert tasks.Keys - rest == tasks.Keys;
      }
    }
  }
}
