# b-go-util, modelled in Dafny

b-go-util is a Go library of utilities for services. This project models its sequential core and proves properties of that model.

- **Asynchronous helpers (package async).**
  - The task shapes and their results.
  - The result list and map.
  - The task context and its frozen view.
  - The DoUntilCancel loop and the DoAll/DoAny promises.
  - The group result a task group collects.
  - The single-flight cache group.
  - The blocker slot, the block group and the latch.
  - The interval-run builder.
  - The batching ticker.
  - The timing wheel of the timer executor.
- **General utilities (package util).**
  - Business errors with numeric codes and their HTTP statuses.
  - Signed tokens.
  - PKCS #7 padding.
  - Yuan-to-cent conversion.
  - Unix timestamps as text.
  - The retry counter and DoRetry.
  - The separator split function.
  - The supplier registry.
  - The atomic cells.
- **Collections.**
  - The string, int64 and int32 sets (packages set and _set).
  - The slice helpers of _string, _int64 and _interface.
  - The in-memory store.
- **Service glue.**
  - gRPC/business code translation, the log level for a gRPC code, the request state and metadata lookup (package rpc).
  - HTTP errors, the error-handling middleware's mapping and the response body map (package http).
  - Paging (orm/page.go) and sorted-set score ranges (rdb/z.go).
  - The option normalisation of both schedulers, and the cron scheduler's log text.
  - Logger configuration defaults (slog/conf.go).
  - How conf/cfg.go finds a configuration file and binds `${NAME:default}` settings to environment variables.
  - The working-directory and debug holder of conf/util.go.

Each Go file of the core has its own module (`async/timer.go` is `AsyncTimer` in `async_timer.dfy`, and so on).

State that the Go code changes in place is modelled as classes with `modifies` clauses, and loops as methods with invariants. This covers the timer wheel, the ticker, group results, caches, sets, stores and counters. Pure Go code is modelled as functions and lemmas.

Three modules are shared:
- `Wrappers` holds Option and Result.
- `Go` holds dynamic values, errors, instants and gRPC codes.
- `Text` holds the string functions of Go's standard library the code relies on.

Locks, goroutines and channels are not modelled. Every operation is one step that runs to its end before the next one starts.

## Model

| member | source | states |
|---|---|---|
| AsyncBlockGroup.HolderPut | async/block_group.go:30-37 | a Put marks the holder as having a result and stores it; a holder that already had one only has its result replaced |
| AsyncBlockGroup.BlockGroup.constructor | async/block_group.go:45-49 | a new group holds no holders |
| AsyncBlockGroup.BlockGroup.Has | async/block_group.go:51-61 | true exactly when the key is not blank and has a holder |
| AsyncBlockGroup.BlockGroup.Peek | async/block_group.go:64-77 | the holder's last result when Has, nil otherwise; reads only |
| AsyncBlockGroup.BlockGroup.Get | async/block_group.go:81-104 | a blank key gives nil and changes nothing; otherwise the key ends up with a holder (a new empty one when absent, existing holders unchanged), and a value is returned exactly when that holder has a result, and it is that result |
| AsyncBlockGroup.BlockGroup.Put | async/block_group.go:107-126 | the key must not be blank; its holder, created when absent, receives the value, which Peek then returns |
| AsyncBlockGroup.BlockGroup.PutIfExist | async/block_group.go:129-143 | succeeds exactly when the key already had a holder; then only that holder receives the value, otherwise nothing changes |
| AsyncBlockGroup.BlockGroup.Remove | async/block_group.go:146-161 | returns what Peek returned before, and deletes the key's holder when there was one; afterwards the key is absent |
| AsyncBlockGroup.BlockGroup.RemoveAll | async/block_group.go:163-176 | no holder is left |
| AsyncBlockGroup.PutIfExistScenario | test/async/blocker_test.go:48-122 | the test's sequence: PutIfExist on an absent key inserts nothing, Put then makes the key present, and Get returns the value put |
| AsyncBlocker.Blocker.constructor | async/blocker.go:15-19 | a new blocker holds no value and Peek gives nil |
| AsyncBlocker.Blocker.Of | async/blocker.go:21-23 | a blocker made from v holds v, even when v is nil |
| AsyncBlocker.Blocker.HasValue | async/blocker.go:28-33 | a slot whose Peek is not nil holds a value |
| AsyncBlocker.Blocker.Peek | async/blocker.go:44-48 | nil for an empty slot, the value held for a full one |
| AsyncBlocker.Blocker.Get | async/blocker.go:36-41 | on a full slot, the value held |
| AsyncBlocker.Blocker.Put | async/blocker.go:51-61 | the slot is full and holds v, whatever it held before |
| AsyncBlocker.Blocker.Remove | async/blocker.go:64-77 | returns the value held before (nil when empty) and leaves the slot empty |
| AsyncBlocker.PutRemoveScenario | test/async/blocker_test.go:11-46 | the test's sequence: a nil Put fills the slot, Remove empties it, a Remove on an empty slot gives nil |
| AsyncCacheGroup.CacheGroup.constructor | async/cache_group.go:21-25 | a new cache keeps no result |
| AsyncCacheGroup.CacheGroup.Do | async/cache_group.go:28-48 | the key must not be blank; the task runs exactly when the key has no kept result, and then its result is kept; otherwise the kept result is returned and nothing changes |
| AsyncCacheGroup.CacheGroup.Get | async/cache_group.go:52-62 | the kept result of the key, none for a key never done |
| AsyncCacheGroup.CacheGroup.Del | async/cache_group.go:65-75 | returns what Get returned before and forgets only that key |
| AsyncCacheGroup.DoGetDelScenario | test/async/cache_group_test.go:25-123 | the tests' sequence: a second Do returns the first result without running its task, and Del empties the cache |
| AsyncCtx.BaseCtx.constructor | async/ctx.go:26-32 | a new context is not aborted, has count 0 and carries its parent's error |
| AsyncCtx.BaseCtx.Canceled | async/ctx.go:56-58 | a canceled context is never also timed out |
| AsyncCtx.BaseCtx.Done | async/ctx.go:34-36 | a context that is done without having been aborted has a parent that ended with an error |
| AsyncCtx.BaseCtx.Aborted | async/ctx.go:43-45 | an aborted context is done; without a parent, done exactly when aborted |
| AsyncCtx.BaseCtx.Count | async/ctx.go:52-54 | the loop count, an int64 in a valid context |
| AsyncCtx.BaseCtx.Timeout | async/ctx.go:60-62 | a timed-out context has a parent that ended with an error other than context.Canceled |
| AsyncCtx.BaseCtx.Error | async/ctx.go:64-69 | nil without a parent; context.Canceled when canceled; context.DeadlineExceeded when timed out |
| AsyncCtx.BaseCtx.View | async/ctx.go:9-17 | the Context interface's answers are those of Done, Canceled, Timeout and Error |
| AsyncCtx.BaseCtx.Abort | async/ctx.go:39-41 | the context is aborted and done from then on; its parent's error and its count are unchanged |
| AsyncCtx.BaseCtx.IncrCount | async/ctx.go:47-49 | the count grows by exactly one, wrapping as an int64 does; nothing else changes |
| AsyncCtx.FreezeCtx.constructor | async/ctx.go:80-82 | the frozen context wraps ctx with the given done flag |
| AsyncCtx.FreezeCtx.Done | async/ctx.go:84-86 | done whenever the wrapped context is aborted; frozen as not done, done exactly then |
| AsyncCtx.FreezeCtx.Aborted | async/ctx.go:92-94 | the wrapped context's abort, which makes the frozen context done |
| AsyncCtx.FreezeCtx.Count | async/ctx.go:96-98 | the wrapped context's count, an int64 when that context is valid |
| AsyncCtx.FreezeCtx.Canceled | async/ctx.go:100-106 | canceled exactly when frozen as done and the wrapped context is canceled |
| AsyncCtx.FreezeCtx.Timeout | async/ctx.go:108-114 | timed out exactly when frozen as done and the wrapped context is timed out |
| AsyncCtx.FreezeCtx.Error | async/ctx.go:116-122 | nil until frozen as done, then the wrapped context's error |
| AsyncCtx.FreezeCtx.View | async/ctx.go:72-75 | the Context interface's answers are those of Done, Canceled, Timeout and Error |
| AsyncCtx.FreezeCtx.Abort | async/ctx.go:88-90 | aborts the wrapped context, so the frozen one is done; nothing else of it changes |
| AsyncCtx.FrozenHidesParent | async/ctx.go:84-122 | a context frozen as not done over a context that is not aborted reports not done, not canceled, not timed out and no error, whatever the parent did |
| AsyncDo.LiveView | async/do.go:14-16 | on the round where the outer context has ended, the task sees it canceled exactly when its error is context.Canceled, timed out exactly when it is context.DeadlineExceeded, and done in either case |
| AsyncDo.DoUntilCancel | async/do.go:9-26 | the count seen on the k-th call is k; each call made before the context ended sees a frozen, not-done context; the call made once it ended sees the context live and ends the loop; an abort ends the loop after the call that made it; over a finite window with neither, every round ran |
| AsyncDo.CancelAfterThreeScenario | test/async/do_test.go:29-56 | canceling after the third call gives exactly four calls, the last one seeing the context canceled |
| AsyncGroupResult.PutState | async/group_result.go:39-62 | once canceled or timed out a put changes nothing; otherwise the result is stored under its index, the first-done index, the first-ok index and the first error are set only while unset, by this put |
| AsyncGroupResult.CancelState | async/group_result.go:23-36 | only an ended context changes an accepting group: the group records timeout or cancel and keeps an earlier error, else takes the context's; results and indices are kept |
| AsyncGroupResult.StoppedIgnoresPuts | async/group_result.go:43-46 | a group that stopped accepting ignores any sequence of puts |
| AsyncGroupResult.ErrIsFirstFailure | async/group_result.go:57-59 | after a sequence of puts, the group's error is the one it already had, else the first failing result's error |
| AsyncGroupResult.FirstDoneIsFirstPut | async/group_result.go:48-50 | after a sequence of puts, the first-done index is the one already set, else the first put's index, else unset |
| AsyncGroupResult.FirstOkIsFirstSuccess | async/group_result.go:52-55 | after a sequence of puts, the first-ok index is the one already set, else the index of the first successful put |
| AsyncGroupResult.ResultsCoverIndices | async/group_result.go:61 | after a sequence of puts, the result map's keys are the earlier keys plus every index put |
| AsyncGroupResult.CancelFreezes | async/group_result.go:23-46 | after a cancel or timeout, later puts change nothing; the error is the first error, else the context's; results are kept |
| AsyncGroupResult.GroupResult.constructor | async/group_result.go:18-20 | a new group has no results, unset indices, no error and is neither canceled nor timed out |
| AsyncGroupResult.GroupResult.Cancel | async/group_result.go:23-36 | the new state is CancelState of the old one |
| AsyncGroupResult.GroupResult.Put | async/group_result.go:39-62 | the new state is PutState of the old one |
| AsyncGroupResult.GroupResult.Error | async/group_result.go:65-67 | the error of the collection state that PutState and CancelState maintain |
| AsyncGroupResult.GroupResult.Canceled | async/group_result.go:74-76 | a canceled group accepts no more results |
| AsyncGroupResult.GroupResult.Timeout | async/group_result.go:79-81 | a timed-out group accepts no more results |
| AsyncGroupResult.GroupResult.HasError | async/group_result.go:69-71 | true exactly when Error is not nil |
| AsyncGroupResult.GroupResult.Get | async/group_result.go:112-114 | the result stored under the index, none when absent |
| AsyncGroupResult.GroupResult.FirstOk | async/group_result.go:94-100 | none while the first-ok index is unset, else the result stored under it |
| AsyncGroupResult.GroupResult.FirstDone | async/group_result.go:103-109 | none while the first-done index is unset, else the result stored under it |
| AsyncGroupResult.GroupResult.Size | async/group_result.go:117-119 | the number of results stored |
| AsyncGroupResult.GroupResult.ResultMap | async/group_result.go:122-129 | a copy equal to the stored results |
| AsyncGroupResult.GroupResult.ResultList | async/group_result.go:132-140 | the list that holds each stored result at its own index and nil elsewhere (corrected form, see Findings) |
| AsyncGroupResult.Lookup | async/group_result.go:135-137 | a list slot holds the result stored under that index, if any |
| AsyncGroupResult.IndexedByUnique | async/group_result.go:132-140 | at most one list is indexed by a given result map |
| AsyncGroupResult.ResultListAsWritten | async/group_result.go:132-140 | as written, the list has the map's size and succeeds exactly when every index is below that size; then slot k holds the result under k |
| AsyncGroupResult.AsWrittenAgreesWhenDense | async/group_result.go:132-140 | whenever the code as written does not panic, its list is the corrected one |
| AsyncGroupResult.ResultListPanicsOnGap | async/group_result.go:132-140 | the map holding one result under index 1 makes the code as written index out of range, while the corrected list is [nil, result] |
| AsyncLatch.Latch.constructor | async/latch.go:16-23 | a new latch is closed exactly as asked |
| AsyncLatch.Latch.CASwap | async/latch.go:57-71 | swaps exactly when the latch was in the expected state, and then flips it; otherwise leaves it |
| AsyncLatch.Latch.Open | async/latch.go:25-29 | the latch is open |
| AsyncLatch.Latch.CAOpen | async/latch.go:32-38 | reports a change exactly when the latch was closed; it is open afterwards |
| AsyncLatch.Latch.Close | async/latch.go:40-44 | the latch is closed |
| AsyncLatch.Latch.CAClose | async/latch.go:47-53 | reports a change exactly when the latch was open; it is closed afterwards |
| AsyncLatch.Latch.IsClosed | async/latch.go:73-75 | the state the flag holds |
| AsyncLatch.Latch.Wait | async/latch.go:77-89 | passes at once exactly when the latch is open; on a closed latch the caller stays blocked; nothing changes |
| AsyncLatch.OpenCloseScenario | test/async/latch_test.go:28-106 | the test's sequence: a second CAOpen or CAClose reports no change, Open and Close are idempotent, and the latch ends open |
| AsyncPromise.DoAll | async/promise.go:9-17 | runs the functions in order and stops at the first error, which it returns; every function before it succeeded; nil exactly when all succeeded |
| AsyncPromise.DoAny | async/promise.go:32-41 | runs the functions in order and stops at the first success, returning nil; every function before it failed; when all fail, the last error; nil for no functions |
| AsyncResult.NewResult | async/result.go:40-42 | the result carries the value and error given and is neither canceled nor timed out |
| AsyncResult.NewResultWithCtx | async/result.go:44-46 | the result has a nil value and takes the context's error, canceled and timed-out state |
| AsyncResult.Bool | async/result.go:68-78 | an error wins (false and that error); else a bool value is returned; else false and TypeCastErr |
| AsyncResult.Int | async/result.go:80-90 | an error wins (0 and that error); else an int value is returned; else 0 and TypeCastErr |
| AsyncResult.Int32 | async/result.go:92-102 | an error wins; else an int32 value is returned; else 0 and TypeCastErr |
| AsyncResult.Int64 | async/result.go:104-113 | an error wins; else an int64 value is returned; else 0 and TypeCastErr |
| AsyncResult.String | async/result.go:115-125 | an error wins; else a string value is returned; else "" and TypeCastErr |
| AsyncResult.MustBool | async/result.go:127-131 | callable only when Bool gives no error; then the result holds no error and the value is that bool |
| AsyncResult.MustInt | async/result.go:133-137 | callable only when Int gives no error; then the value is that int |
| AsyncResult.MustInt32 | async/result.go:139-143 | callable only when Int32 gives no error; then the value is that int32 |
| AsyncResult.MustInt64 | async/result.go:145-149 | callable only when Int64 gives no error; then the value is that int64 |
| AsyncResult.MustString | async/result.go:151-155 | callable only when String gives no error; then the value is that string |
| AsyncResult.NewResultCasts | async/result.go:40-125 | a result made from a value reads it back through the accessor of its own type; Go's int and int64 are distinct types, so each accessor fails with TypeCastErr on the other, and nil fails every accessor |
| AsyncResult.ErrorWins | async/result.go:68-125 | a result made with an error returns that error from every typed accessor |
| AsyncResult.ResultList.constructor | async/result.go:165-167 | a new list is empty |
| AsyncResult.ResultList.Size | async/result.go:169-171 | the number of results added |
| AsyncResult.ResultList.Has | async/result.go:173-175 | true exactly for the indices 0 to Size - 1 |
| AsyncResult.ResultList.Get | async/result.go:177-183 | the result at the index when Has, nil otherwise |
| AsyncResult.ResultList.Add | async/result.go:185-189 | the results are appended in order |
| AsyncResult.ResultList.ToSlice | async/result.go:191-196 | a copy equal to the results |
| AsyncResult.ResultMap.constructor | async/result.go:255-257 | a new map is empty |
| AsyncResult.ResultMap.Size | async/result.go:259-261 | the number of keys |
| AsyncResult.ResultMap.Has | async/result.go:263-266 | a key not held reads as nil through Get |
| AsyncResult.ResultMap.Get | async/result.go:268-270 | the result under the key when present, nil otherwise |
| AsyncResult.ResultMap.Put | async/result.go:272-274 | the key now holds the result; other keys are kept |
| AsyncResult.ResultMap.Del | async/result.go:276-283 | returns what Get returned before and removes only that key |
| AsyncResult.ResultMap.ToMap | async/result.go:285-293 | a copy equal to the map |
| AsyncRunIntervalHelper.RunIntervalHelper.constructor | async/run_interval_helper.go:20-28 | the interval must be positive; the first run is delayed by one interval, retries are unlimited (-1), there is no timeout and no external context |
| AsyncRunIntervalHelper.RunIntervalHelper.WithContext | async/run_interval_helper.go:31-34 | sets only the external context and returns the same helper |
| AsyncRunIntervalHelper.RunIntervalHelper.WithTimeout | async/run_interval_helper.go:37-41 | the timeout must not be negative; sets only it and returns the same helper |
| AsyncRunIntervalHelper.RunIntervalHelper.WithInitRunDelay | async/run_interval_helper.go:44-48 | the delay must not be negative; sets only it and returns the same helper |
| AsyncRunIntervalHelper.RunIntervalHelper.WithMaxRetryCount | async/run_interval_helper.go:51-55 | the count must not be negative; sets only it and returns the same helper |
| AsyncRunIntervalHelper.RunIntervalHelper.Run | async/run_interval_helper.go:58-72 | the callback starts with the maximum retry count as its countdown, and with a cancel function exactly when a timeout is set |
| AsyncRunIntervalHelper.Decide | async/run_interval_helper.go:73-86 | on a live context a positive countdown is decremented; a countdown at 0 aborts and cancels; a negative countdown never changes; a done context only cancels |
| AsyncRunIntervalHelper.CountdownRuns | async/run_interval_helper.go:73-82 | with a countdown of n, the first n + 1 live runs leave n - k retries after run k, and only run n + 1 aborts |
| AsyncRunIntervalHelper.UnlimitedNeverAborts | async/run_interval_helper.go:75-82 | with the default -1 no number of live runs aborts |
| AsyncRunIntervalHelper.RetryCallback.constructor | async/run_interval_helper.go:65-71 | the callback's countdown and cancel function as Run sets them up |
| AsyncRunIntervalHelper.RetryCallback.Invoke | async/run_interval_helper.go:72-86 | one call of the callback: the countdown, abort and cancel follow Decide on whether the context is done after the task ran; nothing else of the context changes |
| AsyncRunIntervalHelper.MaxRetryScenario | test/async/run_interval_helper_test.go:38-89 | with a maximum retry count of 3 the task runs 4 times |
| AsyncTask.Run | async/task.go:14-29 | a TaskFn returns its own result; the other three kinds return a result that is neither canceled nor timed out: nil and no error for VoidTaskFn, nil and the function's error for ErrTaskFn, the function's value and error for ValTaskFn |
| AsyncTask.ValTaskRoundTrip | async/task.go:27-29 | a ValTaskFn's string value is read back by String; its error is returned by every typed accessor |
| AsyncTicker.NewTickerOption | async/ticker.go:17-19 | the option has the counts and the period given and no minimum delay |
| AsyncTicker.MustNormalize | async/ticker.go:21-38 | the asserts become the precondition; with a period and no minimum delay, the minimum delay becomes the period, less 100 ms jitter when the period is at least that; otherwise it is kept; the counts and the period never change |
| AsyncTicker.NormalizeIdempotent | async/ticker.go:21-38 | normalizing twice is normalizing once |
| AsyncTicker.Ticker.constructor | async/ticker.go:54-66 | a new ticker runs on the normalized option, is open, has count 0, no waiting tick, and counts time from now |
| AsyncTicker.Ticker.Close | async/ticker.go:68-79 | the ticker is closed; its count, last tick time and waiting tick are kept |
| AsyncTicker.Ticker.Count | async/ticker.go:109-115 | the current count while open, 0 once closed |
| AsyncTicker.Ticker.ResetCount | async/ticker.go:117-121 | the count is 0 unless the ticker is closed; nothing else changes |
| AsyncTicker.Ticker.FireTick | async/ticker.go:130-147 | fires exactly when the ticker is open and no tick is waiting; a tick then waits, stamped now, the count is reset and the last tick time is now; otherwise nothing changes |
| AsyncTicker.Ticker.HandleTickEvent | async/ticker.go:94-107 | a time.Ticker event fires exactly when the count has reached MinCount (or there is none), MinDelay has passed since the last tick (or there is none), and a tick can be sent; the state changes as FireTick says |
| AsyncTicker.Ticker.IncrCount | async/ticker.go:123-128 | a positive increment on an open ticker with a MaxCount adds to the count, wrapping as an int64, and fires when the count reaches MaxCount and a tick can be sent; otherwise nothing changes |
| AsyncTicker.Ticker.Receive | async/ticker.go:44-52 | a receive on the channel takes the waiting tick, if any, and leaves the slot empty |
| AsyncTicker.TickerExecutor.constructor | async/ticker.go:157-171 | the executor is open with no items and a new open ticker on the normalized option |
| AsyncTicker.TickerExecutor.TaskSize | async/ticker.go:173-178 | the number of items buffered |
| AsyncTicker.TickerExecutor.Invoke | async/ticker.go:208-218 | the buffer is emptied and its size returned; a non-empty buffer is handed to the handler as one batch and the ticker's count is reset; an empty one is not handed over |
| AsyncTicker.TickerExecutor.InvokeNow | async/ticker.go:201-206 | the buffer, when not empty, is handed over as one batch and emptied; the count is reset on an open ticker and otherwise kept; the tick slot and last tick time are unchanged |
| AsyncTicker.TickerExecutor.Add | async/ticker.go:191-199 | an open executor appends the items and adds their count to the ticker as IncrCount does: a tick that fires resets the count and records now; otherwise a positive count with a positive MaxCount adds to the count with int64 wrap-around and anything else leaves count, slot and last tick time as they were; a closed executor changes nothing |
| AsyncTicker.TickerExecutor.Close | async/ticker.go:180-189 | closes the executor and its ticker and hands the remaining buffer over as one batch, leaving the ticker's count, tick slot and last tick time as they were; a second Close changes nothing |
| AsyncTicker.TickerExecutor.ConsumeTick | async/ticker.go:162-166 | one pass of the consuming goroutine: when a tick waits it is taken and InvokeNow runs; otherwise nothing changes; the last tick time is kept either way |
| AsyncTicker.EachAddFiresScenario | test/async/ticker_test.go:64-124 | with MinCount = MaxCount = 1, each Add of one item fires a tick and the handler receives each item alone |
| AsyncTicker.CloseFlushesScenario | test/async/ticker_test.go:64-124 | below MaxCount nothing fires; Close hands the buffered item over and a later Add is ignored |
| AsyncTimer.NewState | async/timer.go:42-66 | a new executor has as many empty buckets as asked, no tasks, and is open |
| AsyncTimer.Position | async/timer.go:187-191 | the bucket of a task lies on the wheel and its round is not negative |
| AsyncTimer.WheelRemaining | async/timer.go:187-191 | the bucket offset from the current bucket plus the rounds times the wheel size gives back exactly the number of steps of the delay |
| AsyncTimer.Insert | async/timer.go:193-197 | the task is stored, indexed under its key and filed in its bucket, and the executor stays well formed |
| AsyncTimer.MarkRemoved | async/timer.go:121-124 | an unknown key changes nothing; a known key marks only that task removed |
| AsyncTimer.PutState | async/timer.go:144-151 | a put marks the previous task under the key removed and then files the new task at the position its delay gives |
| AsyncTimer.TickState | async/timer.go:153-185 | a tick leaves every other bucket alone and moves the current bucket one step round the wheel |
| AsyncTimer.PutWaits | async/timer.go:187-197 | a task put with a delay is live and has delay / period ticks left before it runs |
| AsyncTimer.TickPasses | async/timer.go:166-180 | a task in another bucket is untouched by a tick and does not run |
| AsyncTimer.TickTurns | async/timer.go:174-175 | a task in the current bucket with rounds left loses one round and does not run |
| AsyncTimer.TickFires | async/timer.go:176-178 | a task in the current bucket with no round left runs and leaves the executor |
| AsyncTimer.TickCountdown | async/timer.go:153-185 | each tick brings a live task one tick nearer; when none is left the task runs on this tick |
| AsyncTimer.Countdown | async/timer.go:153-185 | after j ticks, with j no more than the ticks left, a task is still live with j fewer ticks left |
| AsyncTimer.FiresAfterWaiting | async/timer.go:153-185 | a live task does not run before its ticks are used up, and runs on exactly that tick |
| AsyncTimer.PutFiresOnTick | async/timer.go:84-101 | a task put with a delay does not run on the first delay / period ticks after the put and runs on the next one |
| AsyncTimer.RemovedNotFired | async/timer.go:172-173 | a task marked removed does not run on a tick and stays marked |
| AsyncTimer.RemovedNeverFires | async/timer.go:172-173 | a task marked removed never runs, however many ticks pass |
| AsyncTimer.DelCancels | async/timer.go:103-112 | deleting an unknown key changes nothing; deleting a known key keeps its task from ever running |
| AsyncTimer.PutReplaces | async/timer.go:144-151 | putting under a key already present makes the new task the key's task and the old one never runs |
| AsyncTimer.RearmPutsBack | async/timer.go:204-214 | after its run, a one-shot task or any task of a closed executor leaves nothing behind; a cyclic task is put back with its delay, value and cyclic flag and waits delay / period ticks again |
| AsyncTimer.RearmAllKeeps | async/timer.go:204-214 | running a list of tasks keeps the executor well formed and forgets no stored task |
| AsyncTimer.ClosedCalls | async/timer.go:132-142 | on close the handler, when set, is called once for each key the executor holds; without one nothing is called |
| AsyncTimer.TwoPutsOneKey | async/timer.go:144-151 | two puts under one key leave the first task marked removed in bucket 1 and the second live in bucket 0, with the key mapped to the second |
| AsyncTimer.StalePurgeOrphansTask | async/timer.go:172-173 | a stale copy purged from its bucket also drops the key of the live replacement from the task index: the replacement still runs, but a later Del of the key no longer reaches it |
| AsyncTimer.TimerExecutor.constructor | async/timer.go:42-66 | the executor's state is the new state for the period and bucket count |
| AsyncTimer.TimerExecutor.WithOnClosedHandler | async/timer.go:69-72 | only the handler is set, and the executor itself is returned |
| AsyncTimer.TimerExecutor.Put | async/timer.go:80-82 | a one-shot put with a nil value; refused, changing nothing, once closed |
| AsyncTimer.TimerExecutor.PutTask | async/timer.go:84-101 | on an open executor the state becomes the put state; once closed it is refused and nothing changes |
| AsyncTimer.TimerExecutor.Del | async/timer.go:103-112 | on an open executor the key's task is marked removed; once closed it is refused and nothing changes |
| AsyncTimer.TimerExecutor.OnPut | async/timer.go:144-151 | the state becomes the put state for the task |
| AsyncTimer.TimerExecutor.ResetTaskPosition | async/timer.go:187-191 | the task gets the bucket and round of its delay and nothing else of it changes |
| AsyncTimer.TimerExecutor.PutTaskAt | async/timer.go:193-197 | the task is filed at the position its delay gives |
| AsyncTimer.TimerExecutor.DelTask | async/timer.go:199-202 | the key leaves the task index and the task's bucket, and nothing else changes |
| AsyncTimer.TimerExecutor.OnTick | async/timer.go:153-185 | the new state is the tick state and the tasks handed to runTasks are exactly those due in the current bucket |
| AsyncTimer.TimerExecutor.NextBucket | async/timer.go:154-159 | the current bucket advances by one and wraps to 0 at the bucket count; nothing else changes |
| AsyncTimer.TimerExecutor.RunTasks | async/timer.go:204-214 | the handler is called once per task, in order, with its key and value, and every cyclic task is put back |
| AsyncTimer.TimerExecutor.RunTask | async/timer.go:205-212 | one handler call with the task's key and value, then the task is put back if cyclic |
| AsyncTimer.TimerExecutor.Close | async/timer.go:74-78 | the executor is closed; the first close calls the handler once per held key, a second calls nothing |
| UInterface.Of | _interface/util.go:5-7 | the variadic arguments come back as the same slice, unchanged |
| UInterface.ToIntSlice | _interface/util.go:9-18 | the result holds every int item and only int items, and is no longer than the input |
| UInterface.ToInt64Slice | _interface/util.go:20-29 | the result holds every int64 item and only int64 items, and is no longer than the input |
| UInterface.ToStringSlice | _interface/util.go:31-40 | the result holds every string item and only string items, and is no longer than the input |
| UInterface.ToIntSliceConcat | _interface/util.go:9-18 | the filter keeps order: filtering a concatenation concatenates the filtered parts |
| UInterface.ToInt64SliceConcat | _interface/util.go:20-29 | the same order-keeping law for the int64 filter |
| UInterface.ToStringSliceConcat | _interface/util.go:31-40 | the same order-keeping law for the string filter |
| UInterface.IntsOnlyMatchInt | _interface/util.go:9-40 | a slice of ints is returned whole by the int filter and dropped entirely by the int64 and string filters: the filters go by dynamic type, with no conversion |
| UInterface.FlatItem | _interface/util.go:45-56 | an item that is not a slice is kept as it is |
| UInterface.Flat | _interface/util.go:43-59 | no items give no result |
| UInterface.FlatConcat | _interface/util.go:43-59 | flattening works item by item: flattening a concatenation concatenates the flattened parts |
| UInterface.FlatKeepsNonSlices | _interface/util.go:43-59 | items none of which is a slice come back unchanged |
| UInterface.FlatOneLevel | _interface/util.go:43-59 | one slice is spread into its elements, but a slice nested in it stays a slice: only one level is flattened |
| UString.Empty | _string/util.go:11-13 | a string is empty after TrimSpace exactly when every character is white space |
| UString.FirstNotEmpty | _string/util.go:16-24 | "" when every item is blank; otherwise the first item that is not blank |
| UString.IfEls | _string/util.go:26-32 | okVal when ok, notOkVal otherwise; the same generic function serves _int64.IfEls (_int64/util.go:5-11) |
| UString.TrimCRLF | _string/util.go:35-37 | the result has no line feed and is no longer than the input |
| UString.TrimCRLFNoNewline | _string/util.go:35-37 | a string without a line feed is left as it is |
| UString.TrimCRLFIdempotent | _string/util.go:35-37 | trimming twice is trimming once |
| UString.TrimCRLFLine | _string/util.go:35-37 | a line ended by "\n" or "\r\n" loses its line ending and keeps its text |
| UString.TrimCRLFBreak | _string/util.go:35-37 | a leading "\n" or "\r\n" is dropped |
| UString.TrimCRLFCons | _string/util.go:35-37 | a character that does not start a line ending is kept |
| UString.TrimCRLFKeepsOthers | _string/util.go:35-37 | apart from line feeds and carriage returns, every character is kept, in order |
| UString.ToInt64Slice | _string/util.go:39-51 | succeeds exactly when every item parses, giving the parsed values in order; otherwise fails with the error of the first item that does not parse |
| UString.ToInterfaceSlice | _string/util.go:53-61 | the same strings, in order, as dynamic values |
| UString.ToInterfaceSliceStrings | _string/util.go:53-61 | the string filter gives the strings back; the int filter finds none |
| UInt64.ToStringSlice | _int64/util.go:13-20 | the same length, each element the base-10 rendering of the input at that index |
| UInt64.ToStringSliceParses | _int64/util.go:13-20 | the renderings parse back to the original int64 values |
| UInt64.ToInterfaceSlice | _int64/util.go:22-30 | the same int64 values, in order, as dynamic values |
| UInt64.ToInterfaceSliceInt64s | _int64/util.go:22-30 | the int64 filter gives the values back; the int filter finds none |
| UtilAtomic.WrapInt64 | util/atomic.go:65-67 | the result is an int64, equal to the input when the input already is one, and congruent to it modulo 2^64: two's-complement wrap-around |
| UtilAtomic.ToInt32 | util/atomic.go:81-83 | the result is an int32, equal to the input when it fits, and congruent to it modulo 2^32: Go's truncating conversion |
| UtilAtomic.AtomicBool.constructor | util/atomic.go:13-20 | the int32 cell holds 1 for true and 0 for false, so Value is the value given |
| UtilAtomic.AtomicBool.Set | util/atomic.go:22-28 | the cell holds 1 or 0 as the value given says, and Value reads it back |
| UtilAtomic.AtomicBool.CASwap | util/atomic.go:30-39 | swaps exactly when the flag held expected, and then holds its negation; otherwise the cell is unchanged |
| UtilAtomic.AtomicBool.Value | util/atomic.go:41-43 | true exactly when the cell holds 1, and false exactly when it holds 0 in a valid flag |
| UtilAtomic.AtomicBool.True | util/atomic.go:45-47 | the same answer as Value |
| UtilAtomic.AtomicBool.False | util/atomic.go:49-51 | the complement of True |
| UtilAtomic.AtomicInt64.constructor | util/atomic.go:57-59 | the counter holds the int64 given |
| UtilAtomic.AtomicInt64.Set | util/atomic.go:61-63 | the counter holds the int64 given |
| UtilAtomic.AtomicInt64.Incr | util/atomic.go:65-67 | the counter adds n with 64-bit wrap-around and returns the new value |
| UtilAtomic.AtomicInt64.CASwap | util/atomic.go:69-71 | swaps exactly when the counter held expected, and then holds target; otherwise nothing changes |
| UtilAtomic.AtomicInt64.Value | util/atomic.go:73-75 | the int64 held |
| UtilAtomic.AtomicInt64.String | util/atomic.go:85-87 | decimal text that strconv.ParseInt reads back as the value |
| UtilAtomic.AtomicInt64.Int32 | util/atomic.go:81-83 | a value that fits in 32 bits comes back unchanged |
| UtilAtomic.AtomicTime.constructor | util/atomic.go:93-95 | no time is stored yet |
| UtilAtomic.AtomicTime.Set | util/atomic.go:97-100 | the time given is stored and the holder itself is returned |
| UtilAtomic.AtomicTime.Value | util/atomic.go:102-108 | the zero time while nothing is stored, the stored time afterwards |
| UtilAtomic.AtomicTime.CASwap | util/atomic.go:110-112 | swaps exactly when the stored time is expected, and then stores target; otherwise nothing changes |
| UtilAtomic.AtomicError.constructor | util/atomic.go:131-134 | a packed nil error is stored, so Value is nil |
| UtilAtomic.AtomicError.Value | util/atomic.go:136-138 | nil when nothing was ever stored; otherwise the error whose box is stored |
| UtilAtomic.AtomicError.Set | util/atomic.go:140-143 | the error given, nil included, is stored packed, Value reads it back and the holder itself is returned |
| UtilAtomic.AtomicError.CASwap | util/atomic.go:149-151 | swaps exactly when a packed expected error is stored (so never before the first store), and then Value is target; otherwise nothing changes |
| UtilAtomic.AtomicError.SetIfAbsent | util/atomic.go:145-147 | stores the error exactly when a nil error is stored, and otherwise keeps the one held |
| UtilAtomic.IncrUndo | util/atomic.go:65-67 | adding n and then -n gives back the original value, even across wrap-around |
| UtilAtomic.WrapUnique | util/atomic.go:65-67 | any value congruent modulo 2^64 to an int64 wraps to that int64 |
| UtilAtomic.IncrOverflow | util/atomic.go:65-67 | adding 1 to the largest int64 gives the smallest |
| UtilCrypto.Token.constructor | util/crypto.go:35-39 | a zero Token: no headers, the zero time and no signature |
| UtilCrypto.Token.NewToken | util/crypto.go:41-43 | a token with the headers given, created now, with no signature |
| UtilCrypto.Token.AddHeader | util/crypto.go:45-57 | the old headers are kept, each new item is appended in order as its string, byte or %v rendering, the rest of the token is unchanged, and the token itself is returned |
| UtilCrypto.Token.Val | util/crypto.go:59-72 | each header followed by a dot, then the creation time in Unix seconds, a dot and the signature |
| UtilCrypto.DottedSplit | util/crypto.go:59-72 | parts without a dot, each followed by a dot, split on the dot back into those parts |
| UtilCrypto.ValSplits | util/crypto.go:59-72 | splitting a value on the dot gives its headers back first |
| UtilCrypto.EncodeToken | util/crypto.go:99-124 | a blank key fails with "key为空", a nil token with "token为空"; otherwise the encoded token: hex headers, creation seconds and the HMAC signature of that body |
| UtilCrypto.MustEncodeToken | util/crypto.go:126-130 | the panics become the precondition; the result is the encoded token |
| UtilCrypto.DecodeHeaders | util/crypto.go:151-158 | succeeds exactly when every header part is valid hex, giving the decoded headers in order |
| UtilCrypto.DecodeHeadersFirstFailure | util/crypto.go:151-158 | the error names the first part that is not valid hex |
| UtilCrypto.DecodeHexParts | util/crypto.go:110-115 | hex-encoded headers decode back to the headers |
| UtilCrypto.ParseParts | util/crypto.go:143-160 | the signature is the last part; parsing succeeds exactly when the timestamp parses and every header decodes |
| UtilCrypto.ParseSpec | util/crypto.go:132-161 | a blank token fails with "token为空", one without a dot with "token格式错误"; on success the signature is the part after the last dot |
| UtilCrypto.ReadParts | util/crypto.go:143-160 | the Token built from the parts has exactly the headers, time and signature the specification gives, or the same error |
| UtilCrypto.ParseToken | util/crypto.go:132-161 | a fresh Token with exactly what the specification parses, or the same error |
| UtilCrypto.CheckSpec | util/crypto.go:165-193 | a blank key fails with "key为空" and a parse error is passed on; with a positive ttl the age is measured as time.Since does; where Go's duration arithmetic is exact, a token more than ttl from now fails with "token已失效" and a token that passes is within ttl; a token that passes carries the HMAC of the text before its last dot |
| UtilCrypto.ParseAndCheckToken | util/crypto.go:165-193 | a fresh Token with exactly what the check accepts, or the same error; the age is time.Since of the creation second, negated as an int64 when negative |
| UtilCrypto.CheckToken | util/crypto.go:195-198 | no error exactly when the check accepts the token, and otherwise the check's error |
| UtilCrypto.SplitEncoded | util/crypto.go:99-124 | an encoded token splits on the dot into the hex headers, the seconds and the signature |
| UtilCrypto.EncodedNotEmpty | util/crypto.go:99-124 | an encoded token is never blank |
| UtilCrypto.EncodeParseRoundTrip | util/crypto.go:99-161 | parsing an encoded token gives back its headers, its creation time truncated to whole seconds, and its signature |
| UtilCrypto.EncodeCheckRoundTrip | util/crypto.go:99-193 | a token encoded with a key passes the check with that key exactly when the ttl is off or the age Go computes is at most ttl; where that arithmetic is exact, exactly when the creation second lies within ttl of now |
| UtilCrypto.ForgedSignRejected | util/crypto.go:186-190 | a token whose signature is not the HMAC of its body is rejected |
| UtilCrypto.SinceUnix | util/crypto.go:176 | an int64, equal to now minus the creation second held to the int64 range whenever time.Unix's internal seconds do not wrap |
| UtilCrypto.GoAbs | util/crypto.go:177-179 | the absolute value of every duration but the smallest int64, which stays negative |
| UtilCrypto.CheckSpecExact | util/crypto.go:165-193 | the intended check: a token it accepts passes the key, parse and signature checks, and lies within a positive ttl of now by its exact distance |
| UtilCrypto.FarFutureTokenAccepted | util/crypto.go:175-183 | a correctly signed token created more than the largest duration after now passes the check as written for any positive ttl, and fails the intended one |
| UtilCrypto.CheckAgreesInRange | util/crypto.go:175-183 | where Go's duration arithmetic is exact, the check as written and the intended one give the same result |
| UtilCryptoAes.Pkcs7Padding | util/crypto_aes.go:15-24 | the data followed by the padding count, each byte holding that count (as a byte) |
| UtilCryptoAes.PaddingFillsBlock | util/crypto_aes.go:15-24 | between 1 and blockSize bytes are added, a whole block when the data fills its blocks, and the result is a multiple of blockSize |
| UtilCryptoAes.Pkcs7UnPadding | util/crypto_aes.go:26-33 | empty data stays empty; data whose last byte exceeds its length makes the slice panic (none); otherwise the prefix without as many bytes as the last byte says |
| UtilCryptoAes.UnpadPad | util/crypto_aes.go:15-33 | with a block size from 1 to 255, unpadding a padding gives back the data, without a panic |
| UtilCryptoAes.PadByteWraps | util/crypto_aes.go:15-33 | with block size 256 and whole blocks of data, the padding byte wraps to 0 and unpadding removes nothing |
| UtilCryptoAes.UnpadDoesNotCheck | util/crypto_aes.go:26-33 | unpadding trusts the last byte without checking the other padding bytes, and panics when it exceeds the length |
| UtilCryptoAes.CheckIv | util/crypto_aes.go:51-53 | passes exactly when the iv is one block long |
| UtilCryptoAes.CheckEncryptedLength | util/crypto_aes.go:80-82 | passes exactly when the ciphertext is at least one block and a whole number of blocks |
| UtilCryptoAes.CheckNonce | util/crypto_aes.go:99-101 | passes exactly when the nonce is 12 bytes |
| UtilCryptoAes.EncryptAesCbcChecks | util/crypto_aes.go:36-60 | the cipher runs exactly when the key has an AES length and the iv is one block |
| UtilCryptoAes.DecryptAesCbcChecks | util/crypto_aes.go:62-87 | the cipher runs exactly when the key, the iv and the ciphertext length all pass; a bad key is reported first |
| UtilCryptoAes.DecryptAesCbc | util/crypto_aes.go:62-87 | a bad key fails with aes.KeySizeError's text and a failed iv or length check with its error; the plain text comes back exactly when the checks pass and the deciphered bytes unpad, and it is their unpadding |
| UtilCryptoAes.DecryptPadded | util/crypto_aes.go:36-87 | ciphertext that passes the checks and deciphers to padded data decrypts to that data |
| UtilCryptoAes.WrongPadIsError | util/crypto_aes.go:62-87 | a deciphered last byte beyond the length is reported as the recovered slice panic, with a negative bound |
| UtilCryptoAes.EncryptAesGcmChecks | util/crypto_aes.go:92-117 | the cipher runs exactly when the nonce is 12 bytes and the key has an AES length; the nonce is checked first |
| UtilCurrency.ToCent | util/currency.go:16-38 | success is an int64; a failure wraps the parse error of the digits the amount was reduced to |
| UtilCurrency.ToCentDecimal | util/currency.go:16-38 | digits, a point and digits give 100 times the whole part plus the first two fraction digits as cents |
| UtilCurrency.ToCentWhole | util/currency.go:16-38 | a whole amount gives 100 times its value |
| UtilCurrency.ToCentIgnoresCommas | util/currency.go:17 | commas anywhere are ignored |
| UtilCurrency.ToCentEmpty | util/currency.go:16-38 | the empty amount gives 0: "00" parses |
| UtilCurrency.ToCentGrouped | util/currency.go:16-38 | a thousands comma between digit groups is ignored |
| UtilCurrency.ToCentSeveralPoints | util/currency.go:18-31 | only the last point is the decimal point: earlier points are dropped and their digits join the whole part |
| UtilCurrency.SameDigitsSameCents | util/currency.go:16-38 | two amounts reduced to the same digits give the same result |
| UtilCurrency.ToCentDropsTail | util/currency.go:26-28 | fraction digits after the second are ignored, not rounded |
| UtilCurrency.ToCentRejectsLetter | util/currency.go:32-36 | a character other than a digit, sign, comma or point makes the amount fail |
| UtilCurrency.ToCentQuoteFails | util/currency.go:16-36 | a quote after digits within 2^64 - 1 makes the amount fail with a syntax error on the digits, the quote and "00" |
| UtilCurrency.ToCentQuoteOverflows | util/currency.go:16-36 | digits past 2^64 - 1 before the quote make the amount fail with a range error instead |
| UtilCurrency.ToCentCauseQuoted | util/currency.go:32-35 | the wrapped strconv message shows those digits as strconv.Quote writes them, the quote behind a backslash |
| UtilCurrency.FracCentsBound | util/currency.go:21-29 | the cents taken from the fraction are below 100 |
| UtilCurrency.TwoFractionDigits | util/currency.go:21-29 | the fraction is padded or cut to exactly two digits |
| UtilCurrency.TwoFractionDigitsValue | util/currency.go:21-29 | those two digits are worth the cents of the fraction |
| UtilError.NewBizError | util/error.go:74-89 | the error keeps its code and cause; its message is "(code)" and the text, followed by "->" and the cause's text when there is a cause |
| UtilError.NewNilError | util/error.go:27-29 | a business error with code 1 and the cause given |
| UtilError.NewAssertFailError | util/error.go:31-33 | a business error with code 3 and the cause given |
| UtilError.NewInternalError | util/error.go:35-37 | a business error with code 2 and the cause given |
| UtilError.NewIllegalArgError | util/error.go:39-41 | a business error with code 4 and the cause given |
| UtilError.NewIllegalStateError | util/error.go:43-45 | a business error with code 5 and the cause given |
| UtilError.NewTypeCastError | util/error.go:47-49 | a business error with code 6 and the cause given |
| UtilError.NewForbiddenError | util/error.go:51-53 | a business error with code 7 and the cause given |
| UtilError.NewTooOftenError | util/error.go:55-57 | a business error with code 9 and the cause given |
| UtilError.NewRedisError | util/error.go:59-61 | a business error with code 100 and the cause given |
| UtilError.NewDBError | util/error.go:63-65 | a business error with code 200 and the cause given |
| UtilError.BizErrorText | util/error.go:91-97 | a nil *BizError has the empty message |
| UtilError.BizErrorCode | util/error.go:99-105 | a nil *BizError has code 0 (OK) |
| UtilError.BizErrorUnwrap | util/error.go:107-113 | a nil *BizError has no cause |
| UtilError.AsBizError | util/error.go:116-121 | a nil error is not a business error; a business error is found as itself |
| UtilError.ToBizError | util/error.go:123-133 | a nil error becomes a business error with code 0 and no cause |
| UtilError.IsBizError | util/error.go:135-138 | true exactly when AsBizError finds a business error |
| UtilError.GetBizErrCode | util/error.go:140-150 | 0 for a nil error, -1 for an error with no business error in its chain |
| UtilError.HasErrCode | util/error.go:152-162 | a nil error has exactly the code 0 |
| UtilError.HasErrCodeOK | util/error.go:164-166 | the error has code 0 |
| UtilError.HasErrCodeNil | util/error.go:168-170 | the error has code 1 |
| UtilError.ToHttpStatus | util/error.go:172-187 | 200 exactly for code 0, 400 for 4, 401 for 10, 403 for 7, 429 for 9, and 500 for every other code |
| UtilError.HasErrCodeMatchesGet | util/error.go:140-162 | HasErrCode holds exactly when GetBizErrCode gives that code and the error is nil or a business error: an error outside the chain has no code, not even -1 |
| UtilError.ToBizErrorKeepsCode | util/error.go:123-150 | ToBizError keeps the code GetBizErrCode reports, except for a nil *BizError, which reports 0 but is converted to code -1 |
| UtilError.WrappedBizCode | util/error.go:116-150 | a business error wrapped in any number of other errors is still found, with its code, by AsBizError, GetBizErrCode and ToBizError |
| UtilProvider.RegisterSpec | util/provider.go:17-30 | every key must be hashable (no slice or []byte, on which Go's map panics); without a clash, the registered keys are the old ones plus the given ones, none of which was registered; a clash names a given key; either way old entries keep their supplier and new entries get the one given |
| UtilProvider.RegisterPrefix | util/provider.go:21-27 | keys before a clash stay registered |
| UtilProvider.Provider.constructor | util/provider.go:10-14 | no supplier is registered |
| UtilProvider.Provider.MustRegister | util/provider.go:17-30 | the asserts on the keys and the unhashable-key panic become the precondition; the suppliers and the clash that would panic are those of the registration specification |
| UtilProvider.Provider.Get | util/provider.go:37-43 | the key must be hashable; nil for an unregistered key; the supplier's value for a registered one |
| UtilProvider.Provider.HasSupplier | util/provider.go:32-35 | the key must be hashable; a key without a supplier gets nil from Get |
| UtilProvider.RegisteredKeysGet | util/provider.go:21-43 | after a registration without a clash every key given has a supplier, Get of it returns the shared supplier's value, and old keys are unchanged |
| UtilProvider.DuplicateKeyClashes | util/provider.go:21-24 | a key given twice in one call clashes |
| UtilProvider.RegisterHas | util/provider.go:21-24 | a key already registered clashes |
| UtilRetry.Grown | util/retry.go:59-65 | the interval never shrinks, stays put with no step, and never passes a positive maximum it started under |
| UtilRetry.NextSpec | util/retry.go:49-68 | an exhausted counter returns 0 and changes nothing; otherwise the count goes up by one and the returned interval is the new, positive interval; the limits are kept |
| UtilRetry.UnlimitedNeverZero | util/retry.go:53-55 | a counter without a maximum count never returns 0 |
| UtilRetry.FixedCounter | util/retry.go:25-27 | with no step the interval never changes, and after k calls the count is the smaller of count + k and the maximum |
| UtilRetry.LimitedCounter | util/retry.go:49-68 | after k calls the count is the smaller of count + k and the maximum, and the counter is exhausted exactly when k reaches the retries left |
| UtilRetry.SteppedCounter | util/retry.go:59-65 | after k calls the interval is the smaller of interval + k steps and the maximum |
| UtilRetry.RetryCounter.NewStepRetryCounter | util/retry.go:30-43 | the asserts become the precondition; the counter starts at count 0 with the settings given |
| UtilRetry.RetryCounter.NewRetryCounter | util/retry.go:25-27 | a counter with the interval given and no step or maximum interval |
| UtilRetry.RetryCounter.NextInterval | util/retry.go:49-68 | the new state and the interval returned are those of the step specification |
| UtilRetry.RetryCounter.Count | util/retry.go:45-47 | the retries handed out: never negative, and never above a positive maximum count |
| UtilRetry.RetrySpec | util/retry.go:72-89 | fn is called no more often than the results allow; a success ends on a nil result, giving up ends on the error returned, and every earlier call failed |
| UtilRetry.RetryGivesUp | util/retry.go:76-88 | with a maximum count and every call failing, DoRetry gives up after the retries left plus the first call |
| UtilRetry.RetrySucceeds | util/retry.go:76-80 | when call k is the first to succeed and the retries allow it, DoRetry succeeds after k + 1 calls |
| UtilRetry.DoRetry | util/retry.go:72-89 | the outcome, the calls made and the counter's new state are those of the retry specification |
| UtilScanner.SplitFn | util/scanner.go:10-27 | at EOF: the rest as the final token, or io.EOF when nothing is left; otherwise the token before the first separator, advancing past it, or a request for more data when there is no separator |
| UtilScanner.TokensAreSplitPieces | util/scanner.go:10-34 | the tokens a scanner reads are the pieces between separators, without an empty last piece |
| UtilScanner.SplitAtFirst | util/scanner.go:21-23 | the first token is the data before the first separator and scanning resumes after it |
| UtilTime.TimeUnixMills | util/time.go:23-25 | the milliseconds since the epoch, truncated toward zero |
| UtilTime.FormatUnixTime | util/time.go:14-16 | decimal Unix seconds that strconv.ParseInt reads back |
| UtilTime.TimestampText | util/time.go:33-45 | a text exists exactly for an int, int64, uint64 or string |
| UtilTime.ParseUnixTime | util/time.go:32-62 | another type fails; a text whose length in UTF-8 bytes (Go's len) is not 10 or 13 fails with the length error; a success had 10 or 13 characters that parse, read as seconds or as milliseconds |
| UtilTime.ParseSeconds | util/time.go:32-62 | a 10-digit timestamp, as int, int64 or string, gives that many seconds |
| UtilTime.ParseMillis | util/time.go:32-62 | a 13-digit timestamp gives that many milliseconds |
| UtilTime.FormatParseUnixTime | util/time.go:14-62 | parsing a formatted time gives it back truncated to the second |
| UtilTime.MillisParseUnixTime | util/time.go:23-62 | parsing a time in milliseconds gives it back truncated to the millisecond |
| UtilTime.ParseNegativeTenChars | util/time.go:47-61 | "-123456789" is ten bytes, so it is read as -123456789 seconds |
| UtilTime.NonAsciiCountsBytes | util/time.go:47-55 | the length test counts bytes: eight digits and a two-byte character, such as "12345678é", are nine characters but ten bytes, so they pass the length test and fail as an unparsable value |
| RpcError.BuildRpcCodeCodeMap | rpc/error.go:26-33 | the reverse table has exactly the gRPC codes of the forward table as keys, each mapped to a business code that the forward table sends back to it |
| RpcError.RpcCodeCodeMapIsInverse | rpc/error.go:11-33 | the two code tables are inverse to each other in both directions |
| RpcError.RpcToBizInverts | rpc/error.go:26-33 | every gRPC code of the reverse table goes to a business code that the forward table sends back to it |
| RpcError.BizToRpcInverts | rpc/error.go:11-33 | every business code of the forward table goes to a gRPC code that the reverse table sends back to it |
| RpcError.ToRpcErrCode | rpc/error.go:35-41 | the table's gRPC code for a known business code, the default otherwise |
| RpcError.ToBizErrCode | rpc/error.go:43-49 | the table's business code for a known gRPC code, the default otherwise |
| RpcError.IsRpcErrCode | rpc/error.go:51-53 | true exactly for the codes up to Unauthenticated |
| RpcError.CodeConversionsRoundTrip | rpc/error.go:35-53 | a known business code survives the trip to gRPC and back, a known gRPC code the trip the other way, and a known business code always becomes a standard gRPC code |
| RpcError.IsRpcErr | rpc/error.go:55-58 | true for nil and for a status error, false for any other error |
| RpcError.ToRpcErr | rpc/error.go:60-77 | nil and status errors are returned as they are; any other error gets code Unknown without a business error, the table's gRPC code for a known business code, and the business code itself as a uint32 otherwise; a code that comes out as OK gives nil, as status.Error does; the message is the error's text, or fmt.Sprintf of the arguments joined to it |
| RpcError.ToBizErr | rpc/error.go:79-92 | nil stays nil; anything else becomes a business error, a non-status error through ToBizError |
| RpcError.BizErrThroughRpc | rpc/error.go:60-92 | a business error with a known code other than OK, sent to gRPC and back, is a business error with the same code and message and no cause; with code OK it is sent as nil and comes back as nil |
| RpcError.UnmappedCodeThroughRpc | rpc/error.go:69-70 | a business code outside the table crosses as the same raw gRPC code and comes back as itself, when no gRPC code of the table has that number |
| RpcError.OkCodeConvertsToNil | rpc/error.go:68-76 | a business error with code 0, a nil *BizError and a code that is 0 as a uint32 all convert to nil |
| RpcMwLogger.CodeToLogLevel | rpc/mw_logger.go:24-33 | Debug exactly for OK, Warn exactly for Canceled, Unknown and DeadlineExceeded, Error for every other code, and never Info |
| RpcMwState.BaseState.constructor | rpc/mw_state.go:37-39 | a new state is empty |
| RpcMwState.BaseState.Of | rpc/mw_state.go:41-48 | the state holds a copy of the values given |
| RpcMwState.BaseState.Put | rpc/mw_state.go:50-52 | the key now holds the value and reads back |
| RpcMwState.BaseState.Del | rpc/mw_state.go:54-58 | the key is gone; an absent key changes nothing |
| RpcMwState.BaseState.Clear | rpc/mw_state.go:60-62 | the state is empty |
| RpcMwState.BaseState.ToMap | rpc/mw_state.go:64-71 | a copy with the same entries |
| RpcMwState.BaseState.Get | rpc/mw_state.go:78-81 | the value and true for a present key, nil and false otherwise |
| RpcMwState.BaseState.Has | rpc/mw_state.go:73-76 | exactly Get's ok flag, and a missing key gives nil |
| RpcMwState.BaseState.MustInt | rpc/mw_state.go:87-94 | the cast panic becomes the precondition; the int stored under the key |
| RpcMwState.BaseState.MustInt64 | rpc/mw_state.go:96-103 | the cast panic becomes the precondition; the int64 stored under the key |
| RpcMwState.BaseState.MustString | rpc/mw_state.go:105-112 | the cast panic becomes the precondition; the string stored under the key |
| RpcMwState.MWState.constructor | rpc/mw_state.go:127-131 | the middleware holds the state given |
| RpcMwState.MWState.Handle | rpc/mw_state.go:133-141 | a context that has a State keeps it; one without gets the middleware's; the callback runs on the resulting context and its State |
| RpcMwState.ChainSharesState | rpc/mw_state.go:133-141 | in a chain the first middleware puts its State into the context and the second uses that State rather than its own |
| RpcMwState.ChainScenario | rpc/mw_state.go:133-141 | a value put into the State the first middleware installed is read back through the State the second passes on |
| RpcUtil.GetMDVal | rpc/util.go:65-80 | found exactly when the metadata is not empty and the index is within the key's values counting from either end; then the value at that index, with a negative index counting from the end; "" otherwise |
| RpcUtil.KeyCaseInsensitive | rpc/util.go:70 | the key is looked up in lower case, so its case does not matter |
| RpcUtil.NegativeIndexFromEnd | rpc/util.go:73-76 | index -k gives the same value as index n - k |
| HttpErrors.NewError | http/error.go:29-45 | the error has the status, code and cause given; its message is the text, followed by "->" and the cause's text when there is a cause |
| HttpErrors.New400Error | http/error.go:47-49 | an error with status 400 and the code and cause given |
| HttpErrors.New500Error | http/error.go:51-53 | an error with status 500 and the code and cause given |
| HttpErrors.ErrorOf | http/error.go:55-61 | a nil *Error has the empty message |
| HttpErrors.StatusOf | http/error.go:63-69 | a nil *Error has status 200 |
| HttpErrors.CodeOf | http/error.go:71-77 | a nil *Error has code 0 |
| HttpErrors.UnwrapOf | http/error.go:79-85 | a nil *Error has no cause |
| HttpErrors.OK | http/error.go:87-89 | true exactly when the status, 200 for nil, is 200 |
| HttpErrors.MarshalJSON | http/error.go:91-101 | JSON null exactly for a nil *Error |
| HttpErrors.UnmarshalJSON | http/error.go:103-112 | the target's cause is kept |
| HttpErrors.JsonRoundTrip | http/error.go:91-112 | unmarshalling a marshalled error gives back its status, code and message, with the target's own cause; null leaves zeros |
| HttpErrors.AsError | http/error.go:115-120 | nil is not an HTTP error; an HTTP error is found as itself |
| HttpErrors.IsError | http/error.go:122-125 | true for an HTTP error, false for nil |
| HttpMwErrHandler.MWErrorHandler.constructor | http/mw_err_handler.go:30-35 | parsing the status from the code is on by default; logging of 400 errors is off, with no response field and no hooks |
| HttpMwErrHandler.MWErrorHandler.EnableLog400Err | http/mw_err_handler.go:37-40 | only the flag changes, and the handler itself is returned |
| HttpMwErrHandler.MWErrorHandler.EnableParseHttpStatusFromErrCode | http/mw_err_handler.go:42-45 | only the flag changes, and the handler itself is returned |
| HttpMwErrHandler.MWErrorHandler.WithRspErrField | http/mw_err_handler.go:47-50 | only the field changes, and the handler itself is returned |
| HttpMwErrHandler.MWErrorHandler.WithSendRspHook | http/mw_err_handler.go:52-55 | only the hook flag changes, and the handler itself is returned |
| HttpMwErrHandler.MWErrorHandler.WithToHttpErrHook | http/mw_err_handler.go:57-60 | only the hook changes, and the handler itself is returned |
| HttpMwErrHandler.MWErrorHandler.IsValidationErr | http/mw_err_handler.go:111-127 | a bind error is a validation error; otherwise exactly the validator's and the validation library's error types are |
| HttpMwErrHandler.MWErrorHandler.ToHttpErrCode | http/mw_err_handler.go:129-149 | an error that is not a validation-library rule error has its business code; a validation.Error, alone or first of a validation.Errors, gives its code read by strconv.Atoi, or the business code when that fails; an empty validation.Errors gives its business code |
| HttpMwErrHandler.MWErrorHandler.ToHttpErrStatus | http/mw_err_handler.go:151-159 | with parsing off, or for a code up to 999, the status util.ToHttpStatus gives the code, so one of 200, 400, 401, 403, 429 and 500, and 200 exactly for code 0 |
| HttpMwErrHandler.MWErrorHandler.ToHttpErr | http/mw_err_handler.go:161-181 | no errors give none; a hook decides when set; an *Error on the last error's chain is returned as it is; otherwise a validation error becomes status 400 and any other error gets the status of its code, each with ToHttpErrCode's code and the error's text |
| HttpMwErrHandler.MWErrorHandler.SendErrRsp | http/mw_err_handler.go:62-91 | nothing for a nil error; logged exactly when 400 logging is on or the status is above 400; sent by the hook when one is set, else as JSON, under rspErrField unless that field is blank |
| HttpMwErrHandler.HttpErrorPassesThrough | http/mw_err_handler.go:166-171 | an *Error recorded last, inside its *gin.Error, is ToHttpErr's answer unchanged when no hook is set |
| HttpMwErrHandler.RuleCodeSetsCode | http/mw_err_handler.go:129-181 | a validation rule with the code "400900", alone or first of several, gives a 400 error with code 400900 |
| HttpMwErrHandler.LeadingDigits | http/mw_err_handler.go:156 | the first three decimal digits of a number n of at least three digits, times the power of ten of the rest, bracket n |
| HttpMwErrHandler.ParseLeadingDigits | http/mw_err_handler.go:156-157 | for a code above 999, the first three characters parse to the code divided by that power of ten, which lies between 100 and 999 |
| HttpMwErrHandler.StatusFromLeadingDigits | http/mw_err_handler.go:151-159 | with parsing on and a code above 999, the status is the code's first three digits, between 100 and 999 |
| HttpMwErrHandler.StatusOfTestCodes | http/mw_err_handler.go:151-159 | with parsing on, 400901 gives 400 and 902 gives 500 through the fallback |
| HttpUtil.ToMap | http/util.go:15-30 | "data", "error" and "total" are present exactly when the field is not nil or zero, there are no other keys, and each holds its field |
| HttpUtil.ToMapReadsBack | http/util.go:15-30 | the body can be read back from its map |
| OrmPage.NewPager | orm/page.go:24-31 | the page and size given, with default size 30 and maximum 100 |
| OrmPage.Limit | orm/page.go:33-43 | the default size for a size not above 0; otherwise a positive limit no bigger than the size, capped by a positive maximum, and the maximum whenever it is smaller than the size |
| OrmPage.Offset | orm/page.go:45-51 | an int64: 0 for the first page or a non-positive limit; Limit × (No − 1), at least one page in, while that product fits in an int; past that Go's int wraps |
| OrmPage.NewPagerBounds | orm/page.go:24-51 | a pager made by NewPager asks for between 1 and 100 rows, from a non-negative offset while the page is at most MaxInt64 / 100, and for 30 when the size is not positive |
| OrmPage.PagesAreContiguous | orm/page.go:45-51 | page n + 1 starts exactly where page n ends, while its offset fits in an int |
| OrmPage.OffsetWraps | orm/page.go:45-51 | page 2^62 + 1 of size 2 gets the negative offset -2^63: the int product wraps |
| OrmPage.TenthPageOfTwoScenario | orm/page.go:24-51 | page 10 of size 2 takes 2 rows from offset 18 |
| RdbZ.Bound | rdb/z.go:63-76 | the largest int64 is "+inf" and the smallest "-inf" |
| RdbZ.BoundReadsBack | rdb/z.go:63-76 | any other bound starts with "(" exactly when exclusive, and without it parses back to the number |
| RdbZ.ZRangeOption.constructor | rdb/z.go:39-41 | the scores given, inclusive at both ends, with no offset or count |
| RdbZ.ZRangeOption.Limit | rdb/z.go:43-46 | only offset and count change, and the option itself is returned |
| RdbZ.ZRangeOption.Exclude | rdb/z.go:49-52 | only the two exclusion flags change, and the option itself is returned |
| RdbZ.ZRangeOption.Build | rdb/z.go:54-61 | offset and count are copied; infinite scores become "-inf" and "+inf" |
| RdbZ.BuildReadsBack | rdb/z.go:54-76 | finite bounds read back to the scores, and each starts with "(" exactly when that end is excluded |
| RdbSchedulerOption.PrefixOrDefault | rdb/scheduler/option.go:64-66 | a blank prefix becomes "task:", any other is kept; the result is never blank |
| RdbSchedulerOption.OrDefault | rdb/scheduler/option.go:39-45 | a positive duration is kept, any other becomes the default |
| RdbSchedulerOption.TaskOption.constructor | rdb/scheduler/option.go:12-21 | a task option as configured, with no name or key prefix yet |
| RdbSchedulerOption.TaskOption.MustNormalize | rdb/scheduler/option.go:31-48 | the asserts become the precondition; a non-positive lock TTL becomes 10 s and a non-positive interval 1 min; everything else is kept, a normalized option is unchanged, and the option itself is returned |
| RdbSchedulerOption.LockKeyNamesTask | rdb/scheduler/option.go:23-25 | the lock key is the prefix, ":lock:" and the task name |
| RdbSchedulerOption.InvokeKeyNamesTask | rdb/scheduler/option.go:27-29 | the invoke-time key is the prefix, ":invoke:" and the task name |
| RdbSchedulerOption.KeysDistinguishTasks | rdb/scheduler/option.go:23-29 | under one prefix, two tasks have the same lock key, or the same invoke-time key, exactly when they have the same name |
| RdbSchedulerOption.LockKeyIsNotInvokeKey | rdb/scheduler/option.go:23-29 | under one prefix, no lock key is an invoke-time key |
| RdbSchedulerOption.Walk | rdb/scheduler/option.go:68-73 | every task gets the prefix, a name under which the map holds it (its own key when no option is shared), and is normalized, its other settings kept |
| RdbSchedulerOption.Option.constructor | rdb/scheduler/option.go:50-56 | an Option literal |
| RdbSchedulerOption.Option.MustNormalize | rdb/scheduler/option.go:58-76 | the asserts become the precondition; the prefix defaults to "task:", and every task gets that prefix and a name under which the map holds it, then is normalized, keeping its other settings |
| RdbSchedulerOption.Option.MustGetTaskOption | rdb/scheduler/option.go:82-86 | the missing-task panic becomes the precondition; the option is one of the tasks |
| RdbSchedulerOption.DefaultPrefixScenario | rdb/scheduler/option.go:58-76 | with a blank prefix, tasks "a" and "b" get the keys "task::lock:a" and "task::invoke:b" |
| SchedulerOption.TaskOption.constructor | scheduler/option.go:11-16 | a task option as configured |
| SchedulerOption.Option.constructor | scheduler/option.go:5-8 | an Option literal |
| SchedulerOption.Option.MustNormalize | scheduler/option.go:18-30 | the asserts become the precondition; every task then recovers and skips overlapping runs, its cron and DelayIfStillRunning kept; a normalized Option is unchanged |
| SchedulerOption.Option.Task | scheduler/option.go:32-38 | the task stored under the name, nil when there is none |
| SchedulerOption.NormalizedTaskFound | scheduler/option.go:18-38 | after MustNormalize every name finds a task that recovers and skips overlapping runs |
| SchedulerOption.DelayOverriddenScenario | scheduler/option.go:18-30 | a task set to delay overlapping runs keeps that flag but skips them after MustNormalize |
| SchedulerLog.Entries | scheduler/log.go:46-61 | one entry per key, each the key and, when there is one, "=" and its value |
| SchedulerLog.KeyStep | scheduler/log.go:47-53 | a key adds a comma when it is not the first, then its %v rendering |
| SchedulerLog.ValueStep | scheduler/log.go:56-60 | a value adds "=" and its rendering, RFC 3339 for a time |
| SchedulerLog.FormatLog | scheduler/log.go:37-65 | no pairs give the message alone; otherwise the message, "[", the comma-joined entries and "]" |
| SchedulerLog.BodySplits | scheduler/log.go:37-65 | when no rendering holds a comma or "=", splitting the body on commas gives back the entries |
| SchedulerLog.BodyReadsBack | scheduler/log.go:37-65 | in the same case every pair reads back as its key and value, and a trailing key alone as itself |
| SchedulerLog.EntryPairs | scheduler/log.go:46-61 | every complete pair splits on "=" into its key and value |
| SchedulerLog.LastEntryBare | scheduler/log.go:46-61 | an odd count leaves the last key without "=" |
| SlogConf.Normalize | slog/conf.go:30-40 | an empty encoding becomes "console" and an empty log path "./log/app.log"; set values and every other field are kept |
| SlogConf.NormalizeIdempotent | slog/conf.go:30-40 | normalizing twice is normalizing once |
| SetInt64Set.Int64Set.constructor | set/int64_set.go:9-16 | the set holds exactly the items given, duplicates collapsed |
| SetInt64Set.Int64Set.Contains | set/int64_set.go:32-35 | a set that contains an item is not Empty |
| SetInt64Set.Int64Set.Add | set/int64_set.go:37-39 | the item is added |
| SetInt64Set.Int64Set.AddAll | set/int64_set.go:41-45 | every item given is added and nothing else |
| SetInt64Set.Int64Set.Remove | set/int64_set.go:47-54 | true exactly when the item was present; it is absent afterwards and nothing else changes |
| SetInt64Set.Int64Set.RemoveAll | set/int64_set.go:56-60 | exactly the items given are removed |
| SetInt64Set.Int64Set.Clear | set/int64_set.go:62-64 | the set is empty |
| SetInt64Set.Int64Set.Clone | set/int64_set.go:66-74 | a new set, independent of the receiver, with the same elements |
| SetInt64Set.Int64Set.Union | set/int64_set.go:91-101 | the receiver becomes its union with other (unchanged for a nil or empty other) and is returned |
| SetInt64Set.Int64Set.Diff | set/int64_set.go:104-114 | the receiver loses the elements of other (unchanged for a nil or empty other) and is returned |
| SetInt64Set.Int64Set.Intersect | set/int64_set.go:117-132 | the receiver keeps only the elements of other, so a nil or empty other empties it, and is returned |
| SetInt64Set.Size | set/int64_set.go:18-23 | the number of elements, 0 for a nil set |
| SetInt64Set.Empty | set/int64_set.go:25-30 | true exactly when the set, nil counting as empty, has no elements |
| SetStringSet.StringSet.constructor | set/string_set.go:9-16 | the set holds exactly the items given, duplicates collapsed |
| SetStringSet.StringSet.Contains | set/string_set.go:32-35 | a set that contains an item is not Empty |
| SetStringSet.StringSet.Add | set/string_set.go:37-39 | the item is added |
| SetStringSet.StringSet.AddAll | set/string_set.go:41-45 | every item given is added and nothing else |
| SetStringSet.StringSet.Remove | set/string_set.go:47-54 | true exactly when the item was present; it is absent afterwards and nothing else changes |
| SetStringSet.StringSet.RemoveAll | set/string_set.go:56-60 | exactly the items given are removed |
| SetStringSet.StringSet.Clear | set/string_set.go:62-64 | the set is empty |
| SetStringSet.StringSet.Clone | set/string_set.go:66-74 | a new set, independent of the receiver, with the same elements |
| SetStringSet.StringSet.Union | set/string_set.go:91-101 | the receiver becomes its union with other (unchanged for a nil or empty other) and is returned |
| SetStringSet.StringSet.Diff | set/string_set.go:104-114 | the receiver loses the elements of other (unchanged for a nil or empty other) and is returned |
| SetStringSet.StringSet.Intersect | set/string_set.go:117-132 | the receiver keeps only the elements of other, so a nil or empty other empties it, and is returned |
| SetStringSet.Size | set/string_set.go:18-23 | the number of elements, 0 for a nil set |
| SetStringSet.Empty | set/string_set.go:25-30 | true exactly when the set, nil counting as empty, has no elements |
| USetInt32Set.Int32Set.constructor | _set/int32_set.go:9-16 | the set holds exactly the items given, duplicates collapsed |
| USetInt32Set.Int32Set.Contains | _set/int32_set.go:32-35 | a set that contains an item is not Empty |
| USetInt32Set.Int32Set.ContainsAll | _set/int32_set.go:37-45 | true exactly when every item given is in the set |
| USetInt32Set.Int32Set.ContainsSet | _set/int32_set.go:47-59 | true exactly when other, nil or empty counting as no elements, is a subset of the set |
| USetInt32Set.Int32Set.Add | _set/int32_set.go:69-71 | the item is added |
| USetInt32Set.Int32Set.AddAll | _set/int32_set.go:73-77 | every item given is added and nothing else |
| USetInt32Set.Int32Set.Remove | _set/int32_set.go:79-86 | true exactly when the item was present; it is absent afterwards and nothing else changes |
| USetInt32Set.Int32Set.RemoveAll | _set/int32_set.go:88-92 | exactly the items given are removed |
| USetInt32Set.Int32Set.Clear | _set/int32_set.go:94-96 | the set is empty |
| USetInt32Set.Int32Set.Clone | _set/int32_set.go:98-106 | a new set, independent of the receiver, with the same elements |
| USetInt32Set.Int32Set.Union | _set/int32_set.go:123-133 | the receiver becomes its union with other (unchanged for a nil or empty other) and is returned |
| USetInt32Set.Int32Set.Diff | _set/int32_set.go:136-146 | the receiver loses the elements of other (unchanged for a nil or empty other) and is returned |
| USetInt32Set.Int32Set.Intersect | _set/int32_set.go:149-164 | the receiver keeps only the elements of other, so a nil or empty other empties it, and is returned |
| USetInt32Set.Size | _set/int32_set.go:18-23 | the number of elements, 0 for a nil set |
| USetInt32Set.Empty | _set/int32_set.go:25-30 | true exactly when the set, nil counting as empty, has no elements |
| USetStringSet.StringSet.constructor | _set/string_set.go:9-16 | the set holds exactly the items given, duplicates collapsed |
| USetStringSet.StringSet.Contains | _set/string_set.go:32-35 | a set that contains an item is not Empty |
| USetStringSet.StringSet.ContainsAll | _set/string_set.go:37-45 | true exactly when every item given is in the set |
| USetStringSet.StringSet.ContainsSet | _set/string_set.go:47-59 | true exactly when other, nil or empty counting as no elements, is a subset of the set |
| USetStringSet.StringSet.Add | _set/string_set.go:87-89 | the item is added |
| USetStringSet.StringSet.AddAll | _set/string_set.go:91-95 | every item given is added and nothing else |
| USetStringSet.StringSet.Remove | _set/string_set.go:97-104 | true exactly when the item was present; it is absent afterwards and nothing else changes |
| USetStringSet.StringSet.RemoveAll | _set/string_set.go:106-110 | exactly the items given are removed |
| USetStringSet.StringSet.Clear | _set/string_set.go:112-114 | the set is empty |
| USetStringSet.StringSet.Clone | _set/string_set.go:116-124 | a new set, independent of the receiver, with the same elements |
| USetStringSet.StringSet.Pop | _set/string_set.go:126-150 | removes and returns up to n elements as a new set: none for n below 1, all when n is at least the size, otherwise exactly n; the two sets split the old one |
| USetStringSet.StringSet.Union | _set/string_set.go:167-177 | the receiver becomes its union with other (unchanged for a nil or empty other) and is returned |
| USetStringSet.StringSet.Diff | _set/string_set.go:180-190 | the receiver loses the elements of other (unchanged for a nil or empty other) and is returned |
| USetStringSet.StringSet.NewDiff | _set/string_set.go:192-205 | a new set of the receiver's elements not in other; the receiver is unchanged |
| USetStringSet.StringSet.Intersect | _set/string_set.go:208-223 | the receiver keeps only the elements of other, so a nil or empty other empties it, and is returned |
| USetStringSet.Size | _set/string_set.go:18-23 | the number of elements, 0 for a nil set |
| USetStringSet.Empty | _set/string_set.go:25-30 | true exactly when the set, nil counting as empty, has no elements |
| USetStringSet.Equal | _set/string_set.go:61-77 | true exactly when both sets, nil counting as empty, have the same elements |
| Store.StrconvInt | store/store.go:132 | a string that parses gives its int64 and no error; otherwise a NumError naming the function and the input, with 0 for a syntax error and the int64 limit of the sign for an out-of-range number, as strconv returns |
| Store.CastErr | store/store.go:51-53 | the cast error is a plain error |
| Store.MemoryStore.constructor | store/store.go:36-40 | an empty store |
| Store.MemoryStore.Of | store/store.go:42-49 | the store holds a copy of the map given |
| Store.MemoryStore.Keys | store/store.go:55-65 | every key exactly once, in some order |
| Store.MemoryStore.Get | store/store.go:72-78 | the value and true for a present key, nil and false otherwise |
| Store.MemoryStore.HasKey | store/store.go:67-70 | true exactly for a present key |
| Store.MemoryStore.GetVal | store/store.go:80-83 | the value of a present key, nil otherwise |
| Store.MemoryStore.GetString | store/store.go:85-100 | ErrKeyNotExist for an absent key; otherwise no error, with a string as it is and any other value in its %v text |
| Store.MemoryStore.GetBool | store/store.go:102-119 | ErrKeyNotExist for an absent key; a bool as it is; a string through ParseBool; any other value a cast error; false whenever there is an error |
| Store.MemoryStore.GetInt | store/store.go:121-146 | ErrKeyNotExist for an absent key; a string through Atoi; a signed integer as it is; any other value 0 and a cast error to "int" |
| Store.MemoryStore.GetInt64 | store/store.go:148-173 | ErrKeyNotExist for an absent key; a string through ParseInt; a signed integer as it is; any other value 0 and a cast error to "int64" |
| Store.MemoryStore.GetOrDefault | store/store.go:175-184 | the stored value when the key is present, the default otherwise |
| Store.MemoryStore.GetStringOrDefault | store/store.go:186-192 | the string getter's value when it has no error, the default otherwise |
| Store.MemoryStore.GetBoolOrDefault | store/store.go:194-200 | the bool getter's value when it has no error, the default otherwise |
| Store.MemoryStore.GetIntOrDefault | store/store.go:202-208 | the int getter's value when it has no error, the default otherwise |
| Store.MemoryStore.GetInt64OrDefault | store/store.go:210-216 | the int64 getter's value when it has no error, the default otherwise |
| Store.MemoryStore.Put | store/store.go:218-226 | the key now holds the value; the previous value, nil when there was none, is returned |
| Store.MemoryStore.Remove | store/store.go:228-236 | the key is gone; its previous value, nil when there was none, is returned |
| Store.MemoryStore.Clear | store/store.go:238-243 | the store is empty |
| Store.IntGettersAgree | store/store.go:121-173 | on a 64-bit platform GetInt and GetInt64 give the same value and fail together |
| Store.DecimalReadsBack | store/store.go:121-216 | an int64 stored as its decimal text reads back through both integer getters and their defaults |
| Store.AbsentKey | store/store.go:67-216 | for an absent key every typed getter reports ErrKeyNotExist, HasKey is false, GetVal is nil and the defaults are returned |
| Store.OutOfRangeClamps | store/store.go:158-159 | a decimal text beyond int64 reads as the int64 limit of its sign, with a range error |
| Store.OverflowBeforeJunkClamps | store/store.go:121-173 | digits past 2^64 - 1 followed by a character that is not a digit read, through both Atoi and ParseInt, as the int64 limit of their sign with a range error |
| Text.ParseIntIsSteps | store/store.go:159 | ParseInt agrees with strconv.ParseInt read step by step: sign, then the digit loop that stops at the first character that is not a digit or at the first digit that passes 2^64 - 1, then the int64 bound of the sign |
| Text.ScanUintRun | store/store.go:159 | the digit loop stops with a range error exactly when the digits before the first character that is not a digit pass 2^64 - 1, else with a syntax error at that character, else with the value |
| Text.ParseIntRangeBeforeJunk | store/store.go:159 | digits past 2^64 - 1 followed by a character that is not a digit are a range error, with or without a minus sign |
| Text.ParseIntJunkIsSyntax | store/store.go:159 | digits within 2^64 - 1 followed by a character that is not a digit are a syntax error, with or without a minus sign |
| Store.PutRemoveScenario | store/store.go:218-236 | putting a key and removing it leaves the store empty again |
| ConfUtil.SyncMap.constructor | conf/util.go:12-19 | an empty map |
| ConfUtil.SyncMap.Get | conf/util.go:21-27 | the value and true for a present key, nil and false otherwise |
| ConfUtil.SyncMap.GetBool | conf/util.go:29-37 | the bool and true exactly when the key holds a bool; false and false otherwise |
| ConfUtil.SyncMap.GetString | conf/util.go:39-47 | the string and true exactly when the key holds a string; "" and false otherwise |
| ConfUtil.SyncMap.Put | conf/util.go:49-54 | the key now holds the value and reads back; every other key reads as before |
| ConfUtil.SetWorkingDir | conf/util.go:56-58 | the directory is stored under "wd" and reads back; the debug switch is unchanged |
| ConfUtil.GetWorkingDir | conf/util.go:60-62 | the string under "wd" and true exactly when one is stored |
| ConfUtil.EnableDebug | conf/util.go:64-66 | the switch is stored under "debug" and reads back; the working directory is unchanged |
| ConfUtil.IsDebugEnable | conf/util.go:68-70 | the bool under "debug" and true exactly when one is stored |
| ConfUtil.SettingsIndependentScenario | conf/util.go:56-70 | after setting both, each reads back its own value |
| ConfCfg.NameLen | conf/cfg.go:22 | the length of the longest run of name characters at the start: the greedy name group of the pattern |
| ConfCfg.ParseEnv | conf/cfg.go:109-121 | an empty name comes with an empty default; a found name is a run of name characters and the value is "${name}" or "${name:default}" with no line feed in the default |
| ConfCfg.ParseEnvName | conf/cfg.go:109-121 | "${name}" gives the name and an empty default |
| ConfCfg.ParseEnvDefault | conf/cfg.go:109-121 | "${name:default}" gives the name and the default, the colon dropped |
| ConfCfg.TrimTrailingSlashes | conf/cfg.go:56 | a prefix of the path that does not end in a slash, only slashes removed |
| ConfCfg.Base | conf/cfg.go:56 | never empty, and either "/" or free of slashes |
| ConfCfg.Ext | conf/cfg.go:58 | a suffix of the name that is empty or a dot followed by neither a dot nor a slash |
| ConfCfg.BaseIsSelf | conf/cfg.go:56-57 | the file has no directory part exactly when it is "/" or has no slash, which is when its base is itself |
| ConfCfg.FileName | conf/cfg.go:56-64 | starts with the stem of the base name; is that stem when BGO_CONF_ENV is unset or empty, and is followed by "." and its value otherwise |
| ConfCfg.ConfDir | conf/cfg.go:66-73 | the argument's cleaned directory when it has a "/" and is not "/"; for a plain name BGO_CONF_DIR when set and not empty, else "./conf" |
| ConfCfg.LoadFileName | conf/cfg.go:56-64 | the file name is FileName's, and the directory flag says whether the base differs from the argument |
| ConfCfg.Load | conf/cfg.go:46-73 | a nil dst fails with "dst is nil", a blank file with "file path is empty"; otherwise the file name and the directory of the file to read |
| ConfCfg.ConfDirChoice | conf/cfg.go:66-73 | a path with a directory part uses that directory; otherwise BGO_CONF_DIR when set and not empty, else "./conf" |
| ConfCfg.FileNameOfPath | conf/cfg.go:56-64 | the file name is the base without its extension, with "." and the BGO_CONF_ENV value appended when that is set and not empty |
| ConfCfg.FileNameOfPlain | conf/cfg.go:56-64 | a name without "/" or "." is its own file name, followed by "." and BGO_CONF_ENV when that is set, so "app" with BGO_CONF_ENV=dev is read as "app.dev" |
| ConfCfg.Viper.constructor | conf/cfg.go:80 | no Set or BindEnv calls yet |
| ConfCfg.Viper.Set | conf/cfg.go:138 | a Set call is recorded |
| ConfCfg.Viper.Bind | conf/cfg.go:142 | a BindEnv call is recorded |
| ConfCfg.BindConfEnv | conf/cfg.go:123-147 | the calls made are exactly those the specification of a setting lists, in order |
| ConfCfg.BindSettings | conf/cfg.go:88-90 | each top-level setting is bound in turn |
| ConfCfg.CallsUnderKey | conf/cfg.go:123-128 | every call made for a setting is for its key or a key nested under it |
| ConfCfg.UnsetTakesDefault | conf/cfg.go:137-140 | "${name:default}" with the variable unset sets the key to the default |
| ConfCfg.SetBindsEnv | conf/cfg.go:142-144 | "${name:default}" with the variable set binds the key to it |
| ConfCfg.PlainLeafIgnored | conf/cfg.go:129-133 | a value that is not a string or has no variable reference makes no call |
| ConfCfg.NestedDefaultScenario | conf/cfg.go:123-147 | in a nested table only the reference string makes a call, setting "db.host" to its default |

## Left out

- Concurrency: locks, goroutines, channels, WaitGroups, condition variables and the waiting they do are not modelled. Each operation is one step, and a call that would block is either reported as such (BlockGroup.Get, and Latch.Wait, which reports whether it passes) or excluded by its precondition (Blocker.Get needs a full slot).
- The Sync* result containers of async/result.go are the same list and map behind a lock. The plain classes model them.
- async/pool.go (the worker pool), async/run.go, async/group.go, async/runner.go and async/done.go are not part of this model. They only dispatch goroutines and select on channels, and pool.go relies on a sleep to work around a race.
- async/barrier.go is not part of this model: its behaviour depends on wall-clock time racing a compare-and-swap.
- AsyncRunIntervalHelper: the interval loop that calls the callback (runCancelableInterval in async/run.go) is not part of this model. The helper's call to it also passes a different number of arguments than run.go declares.
- AsyncTicker, AsyncTimer:
  - time.Ticker (initTimeTicker) is not modelled; its ticks are the steps HandleTickEvent and OnTick.
  - The handler runs in its own goroutine in Go (`go e.runTasks`); here it is called in order.
  - DoCancelableTask/DoTimeLimitTask are not modelled.
- The clock is a parameter `now` or an instant argument wherever the source reads time.Now.
- UtilAtomic.AtomicTime.CASwap, UtilAtomic.AtomicError.CASwap: the comparison is equality of values. Go's atomic.Value.CompareAndSwap compares interfaces with ==. For an errors.New value that is pointer identity, so two errors with the same text do not match. A dynamic type that is not comparable panics. A time.Time compares its wall clock, monotonic reading and location rather than the instant.
- Text.Quote (the quoting in strconv's error messages, Go.ErrorText): ASCII is escaped as strconv.Quote escapes it and a character beyond ASCII is written as it is; strconv.Quote writes a \u or \U escape for one that unicode.IsPrint rejects, and a \x escape for a byte that is not valid UTF-8, which a string of characters cannot hold.
- RpcMwState.MWState.Handle: the MWStateOnRequest callback is modelled by the error it returns, as a pure function of the context, the State and the method name; updates the Go callback makes to the State are made by the caller around Handle instead.
- AsyncTimer.TimerExecutor and RpcMwState.BaseState: their keys are any dynamic value, as in Go's map[interface{}], but a slice or []byte key, on which Go's map panics with "hash of unhashable type", is stored like any other; only util.Provider's operations require hashable keys.
- UtilTime.TimeUnixMills: the milliseconds are exact for every instant. Go's UnixNano is undefined outside the int64 nanosecond range, roughly the years 1678 to 2262, and so is the result there.
- UtilCrypto.SinceUnix: time.Unix and time.Since are modelled by their documented arithmetic (internal seconds from year 1 held in an int64, a difference saturated to the int64 range), not by their code. Wall and monotonic readings are one instant.
- UtilCurrency.ToCent: lengths and indices count characters, where Go's len and slicing count bytes. The two agree on ASCII amounts; with other characters the amount fails either way, but the text in the error can differ.
- AsyncTimer.TimerExecutor.ResetTaskPosition: steps + currentBucketIdx is an unbounded integer here. Go's int sum wraps when delay / period comes within the bucket count of MaxInt64, which needs a delay near 292 years at a 1 ns period.
- RpcUtil.GetMDVal: the key is lower-cased for ASCII letters only (Text.ToLower); Go's strings.ToLower also folds other Unicode letters.
- UtilRetry.RetryCounter.NextInterval: interval + step is an unbounded integer here; Go's time.Duration sum wraps past MaxInt64, which only settings near 292 years could reach.
- util/crypto.go: HMAC-SHA-512, the bytes of a Go string and fmt's %v text are parameters.
- ParseToken, ReadParts: on an error Go also returns the partly filled *Token (the sign and time read so far). The model returns only the error.
- util/crypto_aes.go: the AES block cipher and GCM calls are not part of this model; PKCS #7 padding, the argument checks and the recover around DecryptAesCbc are. The CBC decipher is a parameter of UtilCryptoAes.DecryptAesCbc, and EncryptAesCbc and the GCM functions are modelled by their checks only.
- UtilCryptoAes.DecryptAesCbc: the ciphertext is taken by value and the plain text returned as a new sequence. Go's CryptBlocks(encrypted, encrypted) deciphers in place, so the caller's ciphertext slice is overwritten with the deciphered bytes, also when the unpadding panic is then recovered into an error, and the returned plain text shares that slice's backing array. The model does not capture the overwritten argument or the aliasing.
- util/crypto_aes_helper.go (framing around the cipher) and util/crypt_rsa.go are not part of this model.
- util.HexMd5 (an MD5 digest) and util/rand.go (randomness) are not part of this model. util.HS512 is the parameter `hs512`.
- Token.String, Token.Encode and Token.MustEncode only forward to Val, EncodeToken and MustEncodeToken. They are not modelled separately.
- DecryptAesGcm makes no check of its own before the cipher calls, so nothing of it is modelled.
- fmt: util.Sprintf, fmt's %v, and time.Time.Format with the layout of section 5.6 of RFC 3339 are opaque string functions passed as parameters. util/print.go is not part of this model.
- Panics a caller is meant to avoid become preconditions: the Must* functions (MustEncodeToken, MustRegister, MustInt and the like), the type assertions of rpc/mw_state.go and the assertions of util/assert.go. A panic the source itself recovers from is modelled as an error instead (the slice panic of Pkcs7UnPadding inside DecryptAesCbc).
  - The non-nil check on a supplier is dropped, because a Dafny function value is never nil.
- Provider.MustRegister: a panic part-way through the loop is modelled as a result naming the key that panicked, with the earlier keys kept. A recover in the caller is not modelled.
- Go map iteration order is not fixed.
  - Loops over a map visit its keys in an order the model chooses (`:|`).
  - Every property proved holds for any visiting order.
- conf/cfg.go:
  - Reading the file, unmarshalling it into dst and making the directory absolute with viper are not modelled, and neither is the Debug log line.
  - The settings tree is given as a value.
  - path/filepath.Clean is a parameter `clean`.
  - viper's lower-casing of keys and the logging of a BindEnv failure are not modelled.
- conf/conf.go (MustSetConfEnv, MustSetConfDir, MustLoad) is not part of this model: it sets process environment variables and calls log.Panic.
- The environment of conf/cfg.go is a map parameter.
- Sets: ForEach, ToSlice and String of the four set types are not part of this model. ToSlice's order is Go's map order and String is fmt output.
- util/atomic_bool.go and util/atomic_int64.go redefine the types of util/atomic.go and are not modelled a second time. orm/scope.go redefines the Pager of orm/page.go, and util/util.go repeats util/file.go and util/print.go; neither is modelled again.
- OrmPage.Offset: Go's int is taken as 64 bits. The exact step of Limit × (No − 1) from one page to the next is stated by OrmPage.PagesAreContiguous only while the offset fits in an int.
- RpcError.IsRpcErr: status.FromError is applied to the error itself; the model does not look for a status error further down a wrap chain.
- RpcError: the codes ErrCodeUnAuth, ErrCodeNotFound, ErrCodeCanceled and ErrCodeAborted that rpc/error.go reads from package util are not declared in util/error.go. The model gives them the distinct values 11 to 14.
- rdb/z.go NewZ: its float64 score is not modelled.
- RdbSchedulerOption: the Redis client options are only recorded as present, and the root cancelable context MustNormalize creates is not modelled.
- The following packages and files are outside the modelled core, because they wrap external frameworks or the operating system:
  - bbolt: bolt/*.
  - gorm: orm/db.go, orm/log.go, orm/option.go, orm/util.go.
  - grpc/pool.go.
  - rpc/mw_auth.go, rpc/mw_auth_simple.go, rpc/mw_error.go, rpc/health.go, rpc/proto.go.
  - gin and resty: http/server.go, http/mw_session.go, http/client.go, http/mw_logger.go, http/option.go.
  - cron: scheduler/scheduler.go.
  - The Redis cache, limiter, locker and scheduler.
  - zap: slog/log.go.
  - util/file.go, util/json.go, util/gbk.go, util/net.go, util/signal.go, util/buffer.go, util/context.go.
  - _reflect and _stream.
- The gRPC interceptors of rpc/mw_state.go only call handle and pass the context on; they are not modelled.
- Other functions of the core files are not part of this model, because they only wire the modelled parts into goroutines, frameworks, the clock or files:
  - DoUntilTimeout (async/do.go), which is DoUntilCancel under a timeout context.
  - DoCancelableAll, DoCancelableAny, RunAll, RunAny and their cancelable forms (async/promise.go), which run the functions in goroutines.
  - ToTask, ToVoidTask, ToErrTask and ToValTask (async/task.go), which are the constructors of AsyncTask.Task.
  - newBlockResultHolder and blockResultHolder.Unblock (async/block_group.go), which are WaitGroup work.
  - NewZNow, NewZSlice and NewZNowSlice (rdb/z.go), which use a float score and the clock.
  - Option.RootContext (rdb/scheduler/option.go).
  - FormatPlainDate, FormatPlainTime, ParsePlainDate and ParsePlainTime (util/time.go), which are time.Format and time.Parse layouts.
  - NewFileLineScanner, ForEachFileLine and ForEachFileLineBytes (util/scanner.go), which read files.
  - MWErrorHandler.Handle (http/mw_err_handler.go) and NoRouteHandler (http/util.go), which are gin handlers.
  - StateFromContext, StateIntoContext and the interceptor constructors (rpc/mw_state.go).
  - The logger and interceptor constructors of rpc/mw_logger.go, and the server and connection helpers of rpc/util.go.
  - The zap logger wrappers of scheduler/log.go.

## Findings

| source | as written | input that shows it | evidently intended | confidence | as-written member | corrected member |
|---|---|---|---|---|---|---|
| async/group_result.go:132-140 | ResultList makes a list of length len(resultMap) and writes each result at its task index | a result map holding one result, under index 1 (task 0 has not put one): the write at index 1 is out of range and panics | a list indexed by task index, long enough for the largest index, with nil where no result was put | not executed | AsyncGroupResult.ResultListAsWritten, AsyncGroupResult.ResultListPanicsOnGap | AsyncGroupResult.GroupResult.ResultList, AsyncGroupResult.AsWrittenAgreesWhenDense, AsyncGroupResult.IndexedByUnique |
| util/crypto.go:176-183 | the token's age is time.Since(createdAt), negated when negative, and compared with ttl | a correctly signed token with creation second 12000000000 (year 2350), checked in 2026 with a ttl of one hour: Since saturates to the smallest int64 duration, its negation is still negative, and the token passes | a token more than ttl away from now, in either direction, fails with "token已失效" | not executed | UtilCrypto.CheckSpec, UtilCrypto.FarFutureTokenAccepted | UtilCrypto.CheckSpecExact, UtilCrypto.CheckAgreesInRange |

ParseAndCheckToken and CheckToken keep the check as written, since that is what callers of the package get. CheckSpecExact is the intended check, and CheckAgreesInRange shows that the two agree on every token whose age Go computes exactly, that is, within about 292 years of now.
