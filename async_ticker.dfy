/**
 * async/ticker.go: a ticker that emits a tick when enough work has been
 * counted (MaxCount), or when its period elapses with enough work
 * (MinCount) and enough time since the last tick (MinDelay); and an
 * executor that buffers items and hands them to a handler in one batch on
 * each tick.
 *
 * The clock is the parameter `now`. The channel of ticks has one slot,
 * modelled as `slot`; the goroutines that forward time.Ticker events and
 * consume ticks are modelled as the methods HandleTickEvent and ConsumeTick,
 * called one at a time. The handler is modelled by the log of the batches
 * it received.
 */
module AsyncTicker {
  import opened Wrappers
  import opened Text
  import opened Go
  import UtilAtomic

  /** async.TickerOption */
  datatype TickerOption = TickerOption(period: Duration, minDelay: Duration, minCount: int, maxCount: int)

  /** async.NewTickerOption: MinDelay is left 0, for MustNormalize to fill in. */
  function NewTickerOption(minCount: int, maxCount: int, period: Duration): (o: TickerOption)
    ensures o.minCount == minCount && o.maxCount == maxCount && o.period == period && o.minDelay == 0
  {
    TickerOption(period, 0, minCount, maxCount)
  }

  /** The checks MustNormalize asserts: nothing negative, MinCount <= MaxCount, and not all three zero. */
  predicate Normalizable(o: TickerOption) {
    o.period >= 0 && o.minCount >= 0 && o.maxCount >= 0 && o.minCount <= o.maxCount
    && (o.minCount > 0 || o.maxCount > 0 || o.period > 0)
  }

  /** The margin taken off the period for time.Ticker's jitter. */
  const Jitter: Duration := 100 * Millisecond

  /**
   * TickerOption.MustNormalize: a periodic ticker without a MinDelay gets
   * one: the period itself below 100ms, otherwise the period less 100ms.
   * Everything else is kept.
   */
  function MustNormalize(o: TickerOption): (n: TickerOption)
    requires Normalizable(o)
    ensures Normalizable(n)
    ensures n.period == o.period && n.minCount == o.minCount && n.maxCount == o.maxCount
    ensures o.period > 0 && o.minDelay <= 0 && o.period < Jitter ==> n.minDelay == o.period
    ensures o.period > 0 && o.minDelay <= 0 && o.period >= Jitter ==> n.minDelay == o.period - Jitter
    ensures !(o.period > 0 && o.minDelay <= 0) ==> n.minDelay == o.minDelay
  {
    if o.period > 0 && o.minDelay <= 0 then
      o.(minDelay := if o.period < Jitter then o.period else o.period - Jitter)
    else o
  }

  /**
   * Normalizing twice is normalizing once (NewTickerExecutor normalizes and
   * NewTicker normalizes again). A period of exactly 100ms normalizes to a
   * MinDelay of 0, which stays 0 the second time.
   */
  lemma NormalizeIdempotent(o: TickerOption)
    requires Normalizable(o)
    ensures MustNormalize(MustNormalize(o)) == MustNormalize(o)
  {
  }

  class Ticker {
    const option: TickerOption
    var isClosed: bool
    var lastTickTime: Instant
    var currentCount: int
    /** The tick waiting in the channel's one-slot buffer, if any. */
    var slot: Option<Instant>

    predicate Valid()
      reads this
    {
      IsInt64(currentCount)
    }

    /** async.NewTicker: normalized options, open, count 0, last tick now, no tick waiting. */
    constructor (o: TickerOption, now: Instant)
      requires Normalizable(o)
      ensures option == MustNormalize(o) && Valid()
      ensures !isClosed && lastTickTime == now && currentCount == 0 && slot.None?
    {
      option := MustNormalize(o);
      isClosed := false;
      lastTickTime := now;
      currentCount := 0;
      slot := None;
    }

    /** Ticker.Close: closes once; a second call changes nothing. A tick already waiting can still be received. */
    method Close()
      modifies this
      ensures isClosed
      ensures lastTickTime == old(lastTickTime) && currentCount == old(currentCount) && slot == old(slot)
    {
      if isClosed {
        return;
      }
      isClosed := true;
    }

    /** Ticker.Count: the count while open, 0 once closed. */
    function Count(): (n: int)
      reads this
      ensures !isClosed ==> n == currentCount
      ensures isClosed ==> n == 0
    {
      if !isClosed then currentCount else 0
    }

    /** Ticker.ResetCount: sets the count to 0 while open; nothing once closed. */
    method ResetCount()
      modifies this
      ensures currentCount == (if old(isClosed) then old(currentCount) else 0)
      ensures isClosed == old(isClosed) && lastTickTime == old(lastTickTime) && slot == old(slot)
    {
      if !isClosed {
        currentCount := 0;
      }
    }

    /**
     * Ticker.fireTick: nothing when closed or when a tick is already
     * waiting; otherwise the tick `now` is put in the slot, the count drops
     * by what it was (to 0), and the last tick time becomes now.
     */
    method FireTick(now: Instant) returns (fired: bool)
      requires Valid()
      modifies this
      ensures Valid()
      ensures fired <==> !old(isClosed) && old(slot).None?
      ensures fired ==> slot == Some(now) && currentCount == 0 && lastTickTime == now
      ensures !fired ==> slot == old(slot) && currentCount == old(currentCount) && lastTickTime == old(lastTickTime)
      ensures isClosed == old(isClosed)
    {
      if isClosed {
        return false;
      }
      var cc := currentCount;
      if slot.None? {
        slot := Some(now);
        currentCount := UtilAtomic.WrapInt64(currentCount + UtilAtomic.WrapInt64(-cc));
        lastTickTime := now;
        return true;
      }
      return false;
    }

    /**
     * Ticker.handleTickEvent, on each period of the time.Ticker: the tick
     * fires only with at least MinCount counted (when MinCount is set) and
     * at least MinDelay since the last tick (when MinDelay is set).
     */
    method HandleTickEvent(now: Instant) returns (fired: bool)
      requires Valid()
      modifies this
      ensures Valid()
      ensures fired <==>
        (option.minCount <= 0 || old(currentCount) >= option.minCount)
        && (option.minDelay <= 0 || now - old(lastTickTime) >= option.minDelay)
        && !old(isClosed) && old(slot).None?
      ensures fired ==> slot == Some(now) && currentCount == 0 && lastTickTime == now
      ensures !fired ==> slot == old(slot) && currentCount == old(currentCount) && lastTickTime == old(lastTickTime)
      ensures isClosed == old(isClosed)
    {
      if option.minCount > 0 && currentCount < option.minCount {
        return false;
      }
      if option.minDelay > 0 {
        if now - lastTickTime < option.minDelay {
          return false;
        }
      }
      fired := FireTick(now);
    }

    /**
     * Ticker.IncrCount: only a positive n on an open ticker with MaxCount
     * set is counted (with int64 wrap-around); the tick fires when the new
     * count reaches MaxCount and no tick is waiting.
     */
    method IncrCount(n: int, now: Instant) returns (fired: bool)
      requires Valid() && IsInt64(n)
      modifies this
      ensures Valid()
      ensures var counted := n > 0 && option.maxCount > 0 && !old(isClosed);
        var c := UtilAtomic.WrapInt64(old(currentCount) + n);
        && (fired <==> counted && c >= option.maxCount && old(slot).None?)
        && (fired ==> slot == Some(now) && currentCount == 0 && lastTickTime == now)
        && (!fired && counted ==> currentCount == c && slot == old(slot) && lastTickTime == old(lastTickTime))
        && (!counted ==> currentCount == old(currentCount) && slot == old(slot) && lastTickTime == old(lastTickTime))
      ensures isClosed == old(isClosed)
    {
      fired := false;
      if n > 0 && option.maxCount > 0 && !isClosed {
        currentCount := UtilAtomic.WrapInt64(currentCount + n);
        if currentCount >= option.maxCount {
          fired := FireTick(now);
        }
      }
    }

    /** A receive on the channel C: takes the waiting tick, None when there is none. */
    method Receive() returns (t: Option<Instant>)
      modifies this
      ensures t == old(slot) && slot.None?
      ensures isClosed == old(isClosed) && currentCount == old(currentCount) && lastTickTime == old(lastTickTime)
    {
      t := slot;
      slot := None;
    }
  }

  class TickerExecutor {
    const ticker: Ticker
    var isClosed: bool
    var tasks: seq<Value>
    /** The batches the handler received, in order. */
    var handled: seq<seq<Value>>

    predicate Valid()
      reads this, ticker
    {
      ticker.Valid() && isClosed == ticker.isClosed
    }

    /** async.NewTickerExecutor: an open executor with an empty buffer over a new ticker. */
    constructor (o: TickerOption, now: Instant)
      requires Normalizable(o)
      ensures Valid() && fresh(ticker)
      ensures ticker.option == MustNormalize(o) && !ticker.isClosed && ticker.slot.None? && ticker.currentCount == 0
      ensures !isClosed && tasks == [] && handled == []
    {
      NormalizeIdempotent(o);
      ticker := new Ticker(MustNormalize(o), now);
      isClosed := false;
      tasks := [];
      handled := [];
    }

    /** TickerExecutor.TaskSize */
    function TaskSize(): (n: int)
      reads this
      ensures n == |tasks|
    {
      |tasks|
    }

    /**
     * TickerExecutor.invoke: an empty buffer gives 0 and the handler is not
     * called; otherwise the handler gets the whole buffer, the buffer is
     * emptied, the ticker's count is reset, and the batch size is returned.
     */
    method Invoke() returns (n: int)
      requires Valid()
      modifies this, ticker
      ensures Valid()
      ensures n == |old(tasks)| && tasks == []
      ensures old(tasks) == [] ==> handled == old(handled) && ticker.currentCount == old(ticker.currentCount)
      ensures old(tasks) != [] ==> handled == old(handled) + [old(tasks)]
      ensures old(tasks) != [] ==> ticker.currentCount == (if ticker.isClosed then old(ticker.currentCount) else 0)
      ensures isClosed == old(isClosed) && ticker.isClosed == old(ticker.isClosed)
      ensures ticker.slot == old(ticker.slot) && ticker.lastTickTime == old(ticker.lastTickTime)
    {
      if |tasks| == 0 {
        return 0;
      }
      var batch := tasks;
      tasks := [];
      ticker.ResetCount();
      handled := handled + [batch];
      return |batch|;
    }

    /** TickerExecutor.InvokeNow: hands the buffer to the handler now, without waiting for a tick. */
    method InvokeNow()
      requires Valid()
      modifies this, ticker
      ensures Valid()
      ensures tasks == [] && handled == old(handled) + (if old(tasks) == [] then [] else [old(tasks)])
      ensures ticker.currentCount == (if old(tasks) != [] && !ticker.isClosed then 0 else old(ticker.currentCount))
      ensures isClosed == old(isClosed) && ticker.isClosed == old(ticker.isClosed) && ticker.slot == old(ticker.slot)
      ensures ticker.lastTickTime == old(ticker.lastTickTime)
    {
      var _ := Invoke();
    }

    /**
     * TickerExecutor.Add: while open, the items are appended in order and
     * count is added to the ticker (which may fire); after Close it is ignored.
     */
    method Add(count: int, items: seq<Value>, now: Instant) returns (fired: bool)
      requires Valid() && IsInt64(count)
      modifies this, ticker
      ensures Valid()
      ensures !old(isClosed) ==> tasks == old(tasks) + items
      ensures !old(isClosed) ==>
        (fired <==> (count > 0 && ticker.option.maxCount > 0 && old(ticker.slot).None?
                     && UtilAtomic.WrapInt64(old(ticker.currentCount) + count) >= ticker.option.maxCount))
      ensures !old(isClosed) ==>
        var counted := count > 0 && ticker.option.maxCount > 0;
        var c := UtilAtomic.WrapInt64(old(ticker.currentCount) + count);
        && (fired ==> ticker.currentCount == 0 && ticker.lastTickTime == now)
        && (!fired && counted ==>
              ticker.currentCount == c && ticker.slot == old(ticker.slot) && ticker.lastTickTime == old(ticker.lastTickTime))
        && (!counted ==>
              ticker.currentCount == old(ticker.currentCount) && ticker.slot == old(ticker.slot)
              && ticker.lastTickTime == old(ticker.lastTickTime))
      ensures old(isClosed) ==> tasks == old(tasks) && !fired && ticker.slot == old(ticker.slot)
      ensures old(isClosed) ==> ticker.currentCount == old(ticker.currentCount) && ticker.lastTickTime == old(ticker.lastTickTime)
      ensures fired ==> ticker.slot == Some(now)
      ensures isClosed == old(isClosed) && handled == old(handled) && ticker.isClosed == old(ticker.isClosed)
    {
      fired := false;
      if !isClosed {
        tasks := tasks + items;
        fired := ticker.IncrCount(count, now);
      }
    }

    /**
     * TickerExecutor.Close: the first call closes the ticker and hands what
     * is buffered to the handler; a later call changes nothing.
     */
    method Close()
      requires Valid()
      modifies this, ticker
      ensures Valid() && isClosed && ticker.isClosed
      ensures !old(isClosed) ==> tasks == [] && handled == old(handled) + (if old(tasks) == [] then [] else [old(tasks)])
      ensures old(isClosed) ==> tasks == old(tasks) && handled == old(handled) && ticker.isClosed == old(ticker.isClosed)
      ensures ticker.slot == old(ticker.slot) && ticker.currentCount == old(ticker.currentCount)
      ensures ticker.lastTickTime == old(ticker.lastTickTime)
    {
      if !isClosed {
        isClosed := true;
        ticker.Close();
        var _ := Invoke();
      }
    }

    /**
     * One pass of the goroutine NewTickerExecutor starts: when a tick is
     * waiting it is received and the buffer is handed to the handler.
     */
    method ConsumeTick() returns (ticked: bool)
      requires Valid()
      modifies this, ticker
      ensures Valid()
      ensures ticked <==> old(ticker.slot).Some?
      ensures ticker.slot.None?
      ensures ticked ==> tasks == [] && handled == old(handled) + (if old(tasks) == [] then [] else [old(tasks)])
      ensures ticked ==> ticker.currentCount == (if old(tasks) != [] && !ticker.isClosed then 0 else old(ticker.currentCount))
      ensures !ticked ==> tasks == old(tasks) && handled == old(handled) && ticker.currentCount == old(ticker.currentCount)
      ensures isClosed == old(isClosed) && ticker.isClosed == old(ticker.isClosed)
      ensures ticker.lastTickTime == old(ticker.lastTickTime)
    {
      var t := ticker.Receive();
      ticked := t.Some?;
      if ticked {
        InvokeNow();
      }
    }
  }

  /**
   * The executor's own test (ex1): with MinCount = MaxCount = 1 and no
   * period, each Add of one item fires a tick at once, and each tick hands
   * that item to the handler alone.
   */
  method EachAddFiresScenario(now: Instant) returns (e: TickerExecutor)
    ensures fresh(e) && e.handled == [[Int(1)], [Int(2)]] && e.TaskSize() == 0
  {
    e := new TickerExecutor(NewTickerOption(1, 1, 0), now);
    var fired := e.Add(1, [Int(1)], now);
    assert fired && e.tasks == [Int(1)];
    var ticked := e.ConsumeTick();
    assert e.handled == [[Int(1)]];
    fired := e.Add(1, [Int(2)], now);
    assert fired && e.tasks == [Int(2)];
    ticked := e.ConsumeTick();
  }

  /**
   * The executor's own test (ex2): below MaxCount nothing fires; Close hands
   * the buffered item to the handler, and a later Add is ignored.
   */
  method CloseFlushesScenario(now: Instant) returns (e: TickerExecutor)
    ensures fresh(e) && e.handled == [[Int(1)]] && e.TaskSize() == 0
  {
    e := new TickerExecutor(NewTickerOption(0, 3, 0), now);
    var fired := e.Add(1, [Int(1)], now);
    assert !fired && e.tasks == [Int(1)];
    e.Close();
    fired := e.Add(1, [Int(2)], now);
  }
}
