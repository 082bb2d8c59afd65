# OpenTrace: a verified model of its stateful core

OpenTrace is a self-hosted log and monitoring server written in Go. This project models
the parts of it whose correctness rests on an invariant rather than on a single function
body, and proves those invariants in Dafny 4.11:

- the per-key **rate limiter**: a bounded map with a FIFO of eviction records and lazy
  compaction (`RateLimiter`, `FixedWindow`, `Fairness`, `Saturation`, `LimiterClass`);
- the **ingest queue**: concurrent enqueuers and flushers over a failing store, and a
  shutdown that must strand nothing (`IngestQueue`, `IngestProgress`, `IngestQueueClass`,
  `IngestOrder`, `IngestCalls`);
- the **post-processing pool**: a bounded channel, an entry counter and a stop that closes
  the channel (`PostProcessor`, `PostProcessorCalls`, `PostProcessorCap`);
- the **job queue**: one worker, a reaper, a scheduler and crashes over one table of rows
  (`JobQueue`, `JobLife`, `JobTable`);
- the **keyed mutex** and the **watch evaluation** it protects (`KeyedMutex`,
  `WatchEvaluator`, `WatchEvaluation`);
- the **SQL guardrail**: a lexer to a normal form, word scanners over it and the read-only
  check (`SqlNormalize`, `SqlLexer`, `SqlForms`, `SqlSpaces`, `SqlInk`, `SqlTokens`,
  `SqlWords`, `SqlGuard`, `SqlStatements`, `SqlRaw`);
- the **edit distance** behind field suggestions, the **dotenv** loader, the **circuit
  breaker** and the **UTF-8 truncation** of log fields (`EditDistance`, `FieldSuggestion`,
  `DotEnv`, `DotEnvFile`, `CircuitBreaker`, `Truncation`, `Utf8`).

`Sums` holds facts about sums over sequences, `AsciiCase` says when two texts agree up to
the case of their letters. `dafny verify dfyconfig.toml` checks all of it.

## How the model is built

Code that changes fields is a class with those fields, whose methods are proved against a
function on values. Code that several goroutines run is a state machine: a goroutine is a
program counter, each atomic section of the source one step, and a theorem speaks of every
sequence of enabled steps. What the source takes from outside enters as data: the time, the
outcome of a store call, the measured value of a watch, the order in which goroutines run.
Automatic induction is off on every lemma, so that a proof is what its body says. Safety is
stated of every run; that something can still happen (a stop returns, a mutex is taken) is
stated as a continuation that exists from every reachable state, since no scheduler is
modelled.

Assumptions that the theorems rest on:

- the clock does not run backwards (rate limiter only);
- a `BatchInsert` that fails has stored nothing, one that succeeds has stored its chunk;
- one job worker per table, as `cmd/opentrace/main.go` starts it, and job types that only
  their schedule enqueues;
- the write with which `recordFailedCheck` reschedules a watch succeeds;
- while a server runs, only its evaluator sets a watch to triggered, as the callers of
  `UpdateStatus` under `internal/` have it. The demo data of `cmd/opentrace/seed.go` sets
  watches to triggered as well, with counters; those are rows a start-up finds, and the
  watch theorems start from any stored rows and survive crashes.

Where the code does less than its comments say, the model follows the code:

- `SqlSpaces.TabSurvives`: whitespace inside quoted identifiers and executed comments is
  copied, although the comment on `normalizeSQL` has every whitespace rune collapse;
  `SqlInk.OddFreeExactly` says on which queries the comment is right.
- `IngestOrder.FailedFlushRestores`: `requeueOrDrop` prepends a chunk as older than anything
  buffered, which is so of the first chunk of a flush only; further ones end up reversed.
- `JobQueue.BackoffExact`: the delay 2^n * 5s overflows 64 bits for jobs of more than 31
  attempts.
- `JobQueue.RetriedTooOften`: `Retry` returns a dead job to the queue without giving an
  attempt back, so a job can be claimed more often than `max_attempts`; `RetryOverdraws`
  says when.
- `PostProcessor.CapExceeded`: two calls that look at the entry counter before either adds
  to it take it over `maxQueuedPostprocessEntries`; `PostProcessorCap.CapExactly` says that it stays
  within if and only if no two calls overlap there.
- `Saturation.FloodDisagrees`: with 10000 unexpired windows a newcomer makes the limiter
  forget a key; `ExactlyUnsaturated` says that the limiter can be told from an unbounded
  counter if and only if that happens.
- `DotEnv.UnquotedComment`: an inline comment behind an empty value becomes the value.
- `Truncation.FitsTheCap`: a cap below the 14 bytes of the marker is overrun.
- The comment on `NewRateLimiter` gives five minutes between sweeps, the constant is one;
  no theorem depends on it.

## Model

| member | source | states |
|---|---|---|
| `RateLimiter.ExactlyOneRecord` | internal/api/middleware.go:86-104 | every live entry is named by exactly one unconsumed FIFO record |
| `RateLimiter.EvictOldest` | internal/api/middleware.go:178-186 | the eviction loop ends one below capacity, loses only entries created before all those it keeps, and moves records without dropping any |
| `RateLimiter.EvictsEarliestExpiry` | internal/api/middleware.go:174-186 | at capacity exactly one entry goes, and no other expires before it |
| `RateLimiter.LiveRecordsSpec` | internal/api/middleware.go:213-218 | compaction keeps exactly the records that match a live entry, in creation order |
| `RateLimiter.LiveRecordsCount` | internal/api/middleware.go:213-218 | it keeps one record per entry the FIFO names, never more than it scanned |
| `RateLimiter.CompactKeeps` | internal/api/middleware.go:197-221 | after a compaction check the memory bound holds, the map is untouched, and a scan costs at most ten times the slots it discards |
| `RateLimiter.AppendKeeps` | internal/api/middleware.go:187-189 | a new entry and its record keep creation order equal to expiry order and every entry named |
| `RateLimiter.PurgeKeeps` | internal/api/middleware.go:161-169 | a cleanup sweep keeps the representation: it only makes records stale |
| `RateLimiter.BumpKeeps` | internal/api/middleware.go:271-273 | counting a request leaves identity and expiry of the entry alone |
| `RateLimiter.StepGood` | internal/api/middleware.go:153-190 | every locked section keeps the representation and the bounds on map, consumed slots and FIFO length, and its work is paid for by the slots it removes |
| `RateLimiter.RunGood` | internal/api/middleware.go:153-288 | the same over any sequence of requests and sweeps |
| `RateLimiter.ReachableGood` | internal/api/middleware.go:135-288 | in every reachable state at most 10000 entries, fewer than 1024 consumed slots, and a FIFO below 1024 or at most twice the map |
| `RateLimiter.AmortisedCost` | internal/api/middleware.go:135-221 | over any run, slots consumed are at most the insertions and records scanned at most ten times the insertions |
| `FixedWindow.EvictionIsHarmless` | internal/api/middleware.go:178-186 | with fewer than 10000 unexpired windows, eviction removes only an expired one |
| `FixedWindow.StepRefines` | internal/api/middleware.go:153-288 | one locked section decides as the unbounded counter does and stays coupled to it |
| `FixedWindow.Refines` | internal/api/middleware.go:153-288 | over whole runs the limiter takes exactly the decisions of an unbounded per-key fixed-window counter for which sweeps do nothing |
| `Saturation.CoupledExactly` | internal/api/middleware.go:178-190 | a request that opens a window keeps the limiter in step with the unbounded counter if and only if fewer than 10000 windows are unexpired |
| `Saturation.Forgets` | internal/api/middleware.go:178-186 | at 10000 unexpired windows a newcomer displaces a key whose window is open |
| `Saturation.SaturationForgets` | internal/api/middleware.go:178-288 | from every saturated state the newcomer and then the displaced key, often enough, get decisions that differ from the counter's |
| `Saturation.ExactlyUnsaturated` | internal/api/middleware.go:153-288 | over any run, further requests of a key with an open window tell the limiter from the unbounded counter if and only if the run saturated it |
| `Saturation.FloodDisagrees` | internal/api/middleware.go:178-288 | a run from start-up on which they differ: limit 1, 10000 keys, a newcomer and the key it displaced |
| `FixedWindow.WithinAllowance` | internal/api/middleware.go:259-288 | from any point of a run, the admissions of a key within a span are bounded by what its current window and one more can give |
| `FixedWindow.SpanBound` | internal/api/middleware.go:259-288 | in any span no longer than the window a key is admitted at most 2 * max(1, limit) times |
| `Fairness.NeverRefusedWithinLimit` | internal/api/middleware.go:259-288 | on a run that never saturates the map, a request is admitted if its key asked at most max(1, limit) times within the window before it, however requests and sweeps mix |
| `Fairness.RefusedBeyondLimit` | internal/api/middleware.go:263-286 | on such a run a request inside an open window that has counted the limit is refused |
| `Fairness.WindowsCount` | internal/api/middleware.go:263-273 | a window was opened in the past and counts no more than the requests of its key since it was opened |
| `Fairness.SweepForgetsExpired` | internal/api/middleware.go:161-170 | after a sweep exactly the expired windows are gone and the open ones are as they were |
| `LimiterClass.Limiter.constructor` | internal/api/middleware.go:110-125 | a new limiter is the initial state of the runs above |
| `LimiterClass.Limiter.AddEntryLocked` | internal/api/middleware.go:178-190 | evicts, inserts, records and compacts as the specification does |
| `LimiterClass.Limiter.EvictToCapacity` | internal/api/middleware.go:179-186 | the loop over `order` and `orderHead` is the specified eviction |
| `LimiterClass.Limiter.OrderNeedsCompactionLocked` | internal/api/middleware.go:197-203 | decides the two triggers of the specification |
| `LimiterClass.Limiter.CompactOrderLocked` | internal/api/middleware.go:209-221 | the rebuilt slice is the specified list of live records, or nothing changes |
| `LimiterClass.Limiter.CleanupTick` | internal/api/middleware.go:161-170 | whatever order the map is visited in, one tick is the specified sweep |
| `LimiterClass.Limiter.Admit` | internal/api/middleware.go:263-286 | decision and new state of a request are those of the specification |
| `IngestQueue.NewConfig` | internal/ingest/queue.go:62-86 | positive settings are kept, others become 10000 and 1000 |
| `IngestQueue.MoveBalances` | internal/ingest/queue.go:97-247 | a goroutine's step moves entries between offered, accepted, buffered, held, persisted and dropped without creating or losing one |
| `IngestQueue.NextConserves` | internal/ingest/queue.go:97-287 | every step of any goroutine keeps the ledger of every entry and `dropCount` equal to what was dropped |
| `IngestQueue.MoveProgress` | internal/ingest/queue.go:97-247 | no step reopens a stopped queue, refills a drained one or exceeds `maxQueueSize` |
| `IngestQueue.NextShutdown` | internal/ingest/queue.go:250-287 | once the flush loop is past its last take the buffer stays empty, whoever races it |
| `IngestQueue.Conservation` | internal/ingest/queue.go:97-247 | in every interleaving accepted equals persisted plus buffered plus held plus dropped, entry by entry, and the buffer is within `maxQueueSize` |
| `IngestQueue.RejectedNowhere` | internal/ingest/queue.go:97-145 | what is stored, buffered, held or dropped of an entry is what was offered less what calls turned away or have yet to decide; an entry all of whose calls returned an error is nowhere |
| `IngestQueue.StopLeavesBufferEmpty` | internal/ingest/queue.go:270-287 | from the return of the `Stop` that shut the queue down the buffer is empty in every continuation |
| `IngestQueue.NothingStranded` | internal/ingest/queue.go:97-287 | with all goroutines done, accepted is persisted plus dropped and offered is accepted plus rejected, as multisets |
| `IngestQueueClass.Queue.constructor` | internal/ingest/queue.go:62-86 | a new queue is the initial state of the machine |
| `IngestQueueClass.Queue.TryBuffer` | internal/ingest/queue.go:148-154 | the batch is appended whole if it fits `maxQueueSize`, and nothing changes otherwise; reports the new depth |
| `IngestQueueClass.Queue.InsertWithRetry` | internal/ingest/queue.go:193-222 | the retry loop is the machine's attempts on one chunk, ending in success or in the failing state |
| `IngestQueueClass.Queue.RequeueOrDrop` | internal/ingest/queue.go:226-247 | the chunk returns to the front of the buffer if the queue runs and has room, and is dropped and counted otherwise, nothing else changing |
| `IngestQueueClass.Queue.FlushBatch` | internal/ingest/queue.go:177-190 | chunk by chunk ends where the machine ends |
| `IngestQueueClass.Queue.Flush` | internal/ingest/queue.go:157-170 | takes the buffer and writes it as the machine does |
| `IngestQueueClass.Queue.Enqueue` | internal/ingest/queue.go:97-145 | the call is the machine's goroutine run alone, about which `IngestCalls` says what it does with a batch; success takes the whole batch, an error none of it |
| `IngestQueueClass.Queue.Retry` | internal/ingest/queue.go:125-139 | the second try after a flush is the machine's, with the same all-or-nothing outcome |
| `IngestQueueClass.Queue.InsertNow` | internal/ingest/queue.go:141-145 | the synchronous insert: stored and accepted if it succeeds, rejected if not, the buffer untouched |
| `IngestQueueClass.StepShrinks` | internal/ingest/queue.go:97-247 | every step of a call is progress: calls end |
| `IngestQueueClass.SoloBalances` | internal/ingest/queue.go:97-247 | a whole call keeps the ledger of every entry |
| `IngestOrder.StepInOrder` | internal/ingest/queue.go:97-190 | every step of an uninterrupted call on a running queue whose store works keeps acceptance order and loses nothing |
| `IngestOrder.SoloInOrder` | internal/ingest/queue.go:97-190 | such a call ends with its batch accepted behind all others, in order |
| `IngestOrder.FirstInFirstOut` | internal/ingest/queue.go:97-190 | from start-up, any sequence of Enqueue and Flush calls on a store that works leaves all entries given to it, in order, persisted first and then, less than one batch of them, buffered |
| `IngestOrder.FlushEnds` | internal/ingest/queue.go:157-247 | for any pattern of failing inserts: what an uninterrupted flush stores in order, and which chunks a running queue takes back in reverse order and a stopped one drops in order |
| `IngestOrder.FailedFlush` | internal/ingest/queue.go:157-247 | a flush whose inserts all fail puts every entry back, the chunks in reverse order |
| `IngestOrder.FailedFlushRestores` | internal/ingest/queue.go:226-233 | with distinct entries it leaves the queue as it was if and only if the buffer was a single chunk |
| `IngestCalls.RoomIsEnough` | internal/ingest/queue.go:108-115 | where there is room a batch is accepted whatever the store does; below a full batch nothing is inserted, from a full batch on the whole buffer is flushed |
| `IngestCalls.OverflowIsBuffered` | internal/ingest/queue.go:117-139 | a batch that finds no room but is within `maxQueueSize` is accepted after a flush of what was buffered, and goes through the buffer: it uses no insert of its own, and is flushed in chunks if it fills a batch |
| `IngestCalls.OversizeIsInserted` | internal/ingest/queue.go:117-145 | a batch larger than the queue reaches the store intact, behind what was buffered, with one insert |
| `IngestCalls.StoppedInserts` | internal/ingest/queue.go:97-145 | a stopped queue passes the batch to the store: accepted exactly if that one insert succeeds, the buffer untouched |
| `IngestCalls.FlushStores` | internal/ingest/queue.go:157-190 | a flush on a store that works stores the buffer in order with as many inserts as there are chunks |
| `IngestProgress.TickDrains` | internal/ingest/queue.go:250-266 | from any state with the loop at its tick, a tick whose inserts succeed moves the buffer to the store, in order, and changes nothing else |
| `IngestProgress.StepNearer` | internal/ingest/queue.go:97-287 | a goroutine whose inserts succeed, the loop told to leave, gets nearer to its end with every step: no path goes round for ever |
| `IngestProgress.CanShutDown` | internal/ingest/queue.go:250-287 | from every reachable state there is a continuation that ends with all goroutines done and the buffer empty: neither a `Stop` nor the loop can be left waiting for good |
| `PostProcessor.RunSafe` | internal/ingest/postprocess.go:35-81 | a goroutine's step keeps readers on the open pool, and drained pools drained |
| `PostProcessor.StopSafe` | internal/ingest/postprocess.go:84-106 | closing the channel under the write lock leaves no sender on it |
| `PostProcessor.NoSendOnClosed` | internal/ingest/postprocess.go:62-106 | in every interleaving with start and stop, a goroutine at its send finds the channel open |
| `PostProcessor.NeverTwice` | internal/ingest/postprocess.go:35-81 | no batch is processed more often than it was handed over |
| `PostProcessor.ExactlyOnce` | internal/ingest/postprocess.go:35-106 | at rest every batch was processed exactly as often as handed over and every counter is zero |
| `PostProcessor.StopDrains` | internal/ingest/postprocess.go:84-106 | when stop reports success its pool has no job, no worker and a zero counter |
| `PostProcessorCalls.ChannelBound` | internal/ingest/postprocess.go:35-81 | in every reachable state no channel holds more batches than it was made for |
| `PostProcessorCalls.QueuedWithRoom` | internal/ingest/postprocess.go:62-81 | a batch for which counter and channel have room goes to the pool and is counted, and its caller does not process it |
| `PostProcessorCalls.InlineWithoutRoom` | internal/ingest/postprocess.go:62-81 | without a pool, or with counter or channel full, the caller processes it, and pool and counter are as they were |
| `PostProcessorCalls.Starts` | internal/ingest/postprocess.go:35-60 | a first start makes an open, empty pool of at least one worker and one place, a further one does nothing |
| `PostProcessorCalls.WorkerExits` | internal/ingest/postprocess.go:46-58 | a worker of a closed pool can work off all that is left and exit |
| `PostProcessorCalls.StopCanSucceed` | internal/ingest/postprocess.go:84-106 | in every reachable state with a waiting stop there is a continuation in which that stop reports success |
| `PostProcessor.CapHolds` | internal/ingest/postprocess.go:12-24 | the counter stays within 5000 if no two calls overlap between look and addition |
| `PostProcessor.CapBreaks` | internal/ingest/postprocess.go:62-81 | from any state with two such calls whose batches do not both fit, the counter can exceed 5000 |
| `PostProcessor.CapExceeded` | internal/ingest/postprocess.go:62-81 | such a state is reachable from start-up |
| `PostProcessorCap.CapExactly` | internal/ingest/postprocess.go:12-81 | on all runs with at most n calls between look and addition at a time the counter stays within 5000 if and only if n is at most one |
| `JobQueue.ReapExhaustedKeeps` | internal/jobs/queue.go:243-264 | the first reaper statement alone keeps the budget, fits a half-made `Fail` and revives nothing |
| `JobQueue.ReapRetryableKeeps` | internal/jobs/queue.go:265-281 | so does the second |
| `JobQueue.PruneKeeps` | internal/jobs/queue.go:212-222 | so does pruning |
| `JobQueue.ClaimKeeps` | internal/jobs/queue.go:86-123 | a claim is paid out of the attempts the row has left |
| `JobQueue.CompleteKeeps` | internal/jobs/queue.go:126-136 | an unconditional, late completion breaks nothing |
| `JobQueue.FailKeeps` | internal/jobs/queue.go:141-173 | the late second half of `Fail` neither overdraws the budget nor revives a job the reaper buried |
| `JobQueue.InsertSchedule` | internal/jobs/scheduler.go:77-99 | an insert after a zero count leaves at most one live job of the type |
| `JobQueue.BudgetRespected` | internal/jobs/queue.go:86-173 | over all runs with crashes and reaping no job is claimed more than `max_attempts` times, and every pending or running one has an attempt left |
| `JobQueue.OneLivePerSchedule` | internal/jobs/scheduler.go:77-99 | a type enqueued only by its schedule has at most one pending or running job in every reachable state |
| `JobQueue.NeverRevived` | internal/jobs/worker.go:161-203 | no reachable step brings a completed or dead job back |
| `JobQueue.FreshClaimSurvives` | internal/jobs/queue.go:227-281 | the reaper does not take away a job whose claim is younger than the visibility timeout |
| `JobQueue.FailedJobWaits` | internal/jobs/queue.go:158-166 | a failed job with an attempt left can be claimed again if and only if its documented delay is over |
| `JobQueue.RetryOverdraws` | internal/jobs/queue.go:176-186 | `Retry` keeps the attempt budget exactly when it changes nothing; the revived job is due at once, and claiming it is one too many exactly when its budget was used up |
| `JobQueue.RetriedTooOften` | internal/jobs/queue.go:176-186 | a run from start-up after which `Retry` and a poll make two claims of a job that has one attempt |
| `JobQueue.BackoffFits` | internal/jobs/queue.go:158-161 | up to 30 the computed delay is the documented one and positive |
| `JobQueue.BackoffExact` | internal/jobs/queue.go:158-161 | all delays of a job are the documented ones if and only if `max_attempts` is at most 31 |
| `JobQueue.BackoffOverflows` | internal/jobs/queue.go:158-161 | the 31st delay is negative |
| `JobLife.CompletedForGood` | internal/jobs/worker.go:161-203 | from the completion of its handler on a job is completed, is never pending or running again and is never claimed again, on any continuation with crashes, reaping and pruning |
| `JobLife.SettledForGood` | internal/jobs/queue.go:86-281 | the same from any reachable state in which a job is found completed or dead |
| `JobLife.ReapedRow` | internal/jobs/queue.go:243-281 | the two reaper statements together: rows that are no orphans are untouched, every orphan is charged an attempt, is dead if that was its last, and otherwise can be claimed exactly from now on |
| `JobLife.OrphanedRow` | internal/jobs/queue.go:227-252 | at start-up every running row is an orphan, later exactly those claimed before the deadline |
| `JobLife.ClaimsFirst` | internal/jobs/queue.go:86-105 | the row claimed is a due one of the highest priority and among those the oldest, and conversely |
| `JobLife.LastFailureBuries` | internal/jobs/queue.go:141-173 | a failure is final if and only if it uses up the attempts, is counted, and touches no other row |
| `JobLife.PrunedRow` | internal/jobs/queue.go:212-222 | pruning removes exactly the completed and dead rows older than the cutoff |
| `JobLife.StartUpReclaims` | internal/jobs/queue.go:227-281 | after a crash in any reachable state, start-up leaves no row running and loses none |
| `JobLife.ScheduleFires` | internal/jobs/scheduler.go:77-99 | in a reachable state without a live job of its type a schedule enqueues one, which is then the only live one |
| `JobLife.ScheduleWaits` | internal/jobs/scheduler.go:77-99 | with a live job of its type it enqueues none |
| `JobTable.Queue.constructor` | internal/jobs/queue.go:48-50 | an empty table |
| `JobTable.Queue.EnqueueAt` | internal/jobs/queue.go:58-82 | the whole new row, with its queue, defaults and times; it can be claimed exactly from the default queue and from its due time on |
| `JobTable.Queue.ClaimNext` | internal/jobs/queue.go:86-123 | claims a due row that no due row of the queue precedes, marks it running from now and changes no other; claims none only if none is due |
| `JobTable.Queue.Complete` | internal/jobs/queue.go:126-136 | the row, if there is one, is completed whatever its status, and nothing else changes |
| `JobTable.Queue.Fail` | internal/jobs/queue.go:141-173 | the whole new table: pending again after the backoff while attempts remain, dead otherwise, unchanged with an error if there is no row |
| `JobTable.Queue.Retry` | internal/jobs/queue.go:176-186 | a dead row becomes pending and due now; any other table is left as it is |
| `JobTable.Queue.ReapOrphaned` | internal/jobs/queue.go:243-281 | both statements in turn leave no orphan, and the number reported is the number of orphans there were |
| `KeyedMutex.LastUser` | internal/watcher/watch_evaluator.go:76-87 | two goroutines on one mutex mean a count of at least two, so the map forgets a key only with its last user |
| `KeyedMutex.MutualExclusion` | internal/watcher/watch_evaluator.go:65-88 | two holders of a key are the same goroutine |
| `KeyedMutex.AcquiredIsFree` | internal/watcher/watch_evaluator.go:65-88 | a key whose mutex can be taken is held by nobody, also across forgetting and re-creation |
| `KeyedMutex.Guarantees` | internal/watcher/watch_evaluator.go:54-88 | over all interleavings: one holder per key, `refs` is the number of waiters, holders and releasing goroutines, and the map names exactly the keys in use |
| `KeyedMutex.EmptyWhenDone` | internal/watcher/watch_evaluator.go:76-95 | the map is empty once every goroutine is out |
| `KeyedMutex.NobodyStuck` | internal/watcher/watch_evaluator.go:65-88 | no deadlock: in every reachable state every goroutine can take its next step, unless it waits for a key that somebody holds |
| `KeyedMutex.Registry.Enter` | internal/watcher/watch_evaluator.go:65-75 | the locked section of lock is the machine's entering step |
| `KeyedMutex.Registry.Leave` | internal/watcher/watch_evaluator.go:78-87 | the locked section of unlock is its leaving step |
| `KeyedMutex.MapIsKeysInUse` | internal/watcher/watch_evaluator.go:65-88 | the map names exactly the keys that some goroutine waits for, holds or is releasing |
| `KeyedMutex.Registry.Size` | internal/watcher/watch_evaluator.go:91-95 | the number of distinct keys that goroutines wait for, hold or are releasing |
| `WatchEvaluator.EvalMoveInv` | internal/watcher/watch_evaluator.go:127-229 | every store call of an evaluation keeps the row consistent with the history of checks, failed calls included |
| `WatchEvaluator.ElsewhereInv` | internal/watcher/watch_evaluator.go:106-123 | a status change by someone else in the middle of an evaluation does not disturb that |
| `WatchEvaluator.SettledInv` | internal/watcher/watch_evaluator.go:160-194 | a crash between the two writes of a breached check leaves a counter that has counted the check |
| `WatchEvaluator.OneAlertPerTransition` | internal/watcher/watch_evaluator.go:127-194 | from any stored rows, over every interleaving with crashes and outside status changes, alerts are as many as transitions into triggered |
| `WatchEvaluator.NoAlertWhileTriggered` | internal/watcher/watch_evaluator.go:175-194 | a watch that start-up finds triggered alerts only after someone moved it |
| `WatchEvaluator.AlertsAreApart` | internal/watcher/watch_evaluator.go:175-194 | between two alerts of a watch someone moved its status away from triggered |
| `WatchEvaluator.AlertsAreEarned` | internal/watcher/watch_evaluator.go:160-194 | each alert ends a run of at least max(1, MinConsecutive) breached checks, failed checks not counted |
| `WatchEvaluator.NoAlertMissed` | internal/watcher/watch_evaluator.go:160-194 | the converse: in every reachable history a breached check is followed by its alert, or by the death of the process before it, unless its run is shorter than MinConsecutive or the watch was triggered at some point since the check before; a failing write makes a failed check of it |
| `WatchEvaluator.LogAnswered` | internal/watcher/watch_evaluator.go:160-194 | a breached check and its answer keep history and row consistent |
| `WatchEvaluator.NoIncrementLost` | internal/watcher/watch_evaluator.go:106-229 | whenever nobody holds the watch the stored counter is the length of the current run of breaches |
| `WatchEvaluation.Evaluator.Evaluate` | internal/watcher/watch_evaluator.go:106-123 | row, history, error and alert for every measurement and every pattern of failing store calls; an alert is reported if and only if the calls succeed, the check is breached, the run reaches MinConsecutive and the watch was not triggered |
| `WatchEvaluation.Evaluator.EvaluateLocked` | internal/watcher/watch_evaluator.go:127-194 | success if and only if the measurement and the writes it needs succeed, with the whole new row; failure leaves status and history for the repair |
| `WatchEvaluation.Evaluator.RecordFailedCheck` | internal/watcher/watch_evaluator.go:203-229 | the counter is put back, or an invalid watch is retired, and the failure is recorded |
| `SqlForms.QuoteEndExact` | internal/guardrail/sql_normalize.go:97-111 | an end is found if and only if the text begins with a well-formed body and a closing quote that is not doubled, and it is the one found |
| `SqlForms.DollarEndExact` | internal/guardrail/sql_normalize.go:115-128 | a dollar quote is found if and only if the text begins with a tag that occurs again, and it ends with the first such occurrence |
| `SqlNormalize.TokenStable` | internal/guardrail/sql_normalize.go:36-88 | a token that ends before a literal is the same token whatever the literal says, the lookahead for a closing dollar tag included |
| `SqlNormalize.LexedOpaque` | internal/guardrail/sql_normalize.go:32-88 | the lexed text is the same for both bodies of a literal the lexer reaches |
| `SqlNormalize.LiteralOpacity` | internal/guardrail/sql_normalize.go:32-151 | replacing the body of a single-quoted literal the lexer reaches by any text free of quotes, backslashes and dollars leaves the normal form unchanged |
| `SqlLexer.ScanQuoted` | internal/guardrail/sql_normalize.go:97-111 | the loop finds the end the recursive description gives, or reports there is none |
| `SqlLexer.ScanDollarQuote` | internal/guardrail/sql_normalize.go:115-128 | the same for tags and the first later occurrence of the tag |
| `SqlLexer.ScanBlockComment` | internal/guardrail/sql_normalize.go:134-151 | end and executed text of a comment |
| `SqlLexer.CollapseSpaces` | internal/guardrail/sql_normalize.go:175-191 | the builder loop computes the collapsed text |
| `SqlLexer.Turn` | internal/guardrail/sql_normalize.go:36-88 | one turn of the index-driven loop reads exactly the token at the head of the remaining text, which `SqlForms` describes form by form |
| `SqlLexer.NormalizeSQL` | internal/guardrail/sql_normalize.go:32-92 | the whole loop computes the compositional normal form, and fails if and only if the lexer reaches an unterminated quote or comment |
| `SqlForms.QuotedIdentifier` | internal/guardrail/sql_normalize.go:47-55 | an identifier written in double quotes or backticks, with its quotes doubled, is read as its name set off by spaces, for every name |
| `SqlForms.CommentLexed` | internal/guardrail/sql_normalize.go:66-74 | a block comment is a gap that keeps only what the database executes of it |
| `SqlForms.VersionDropped` | internal/guardrail/sql_normalize.go:142-150 | an executed comment loses its exclamation mark and version number and nothing else |
| `SqlForms.LineCommentLexed` | internal/guardrail/sql_normalize.go:76-78 | a line comment is a gap up to its newline |
| `SqlForms.DollarQuoted` | internal/guardrail/sql_normalize.go:57-64 | a dollar-quoted string is masked whole, for every tag and body without an earlier closing tag |
| `SqlForms.OtherByte` | internal/guardrail/sql_normalize.go:80-87 | any other byte, parentheses among them, is kept as it is |
| `SqlForms.Whitespace` | internal/guardrail/sql_normalize.go:80-87 | a whitespace byte becomes one space |
| `SqlForms.LoneDollar` | internal/guardrail/sql_normalize.go:57-64 | a dollar that begins no dollar quote is kept |
| `SqlForms.PlainComment` | internal/guardrail/sql_normalize.go:66-74 | a comment that is not executed leaves spaces only |
| `SqlForms.LastComment` | internal/guardrail/sql_normalize.go:76-78 | a line comment on the last line ends with the text |
| `SqlForms.LiteralMasked` | internal/guardrail/sql_normalize.go:38-46 | a single-quoted literal is masked, whatever it says |
| `SqlForms.TokenFails` | internal/guardrail/sql_normalize.go:36-88 | reading a token fails if and only if the text begins with a quote never closed or a comment never ended |
| `SqlForms.MalformedExactly` | internal/guardrail/sql_normalize.go:32-92 | a query is malformed if and only if the lexer reaches such a place |
| `SqlSpaces.CollapsedShape` | internal/guardrail/sql_normalize.go:175-191 | collapsing leaves no two spaces in a row and every other character in its order |
| `SqlSpaces.CollapsedFields` | internal/guardrail/sql_normalize.go:175-191 | it keeps the words between spaces and their order: none is joined, split or lost |
| `SqlSpaces.TrimmedBoth` | internal/guardrail/sql_normalize.go:91-91 | trimming takes all whitespace off both ends and nothing else |
| `SqlSpaces.NormalizedShape` | internal/guardrail/sql_normalize.go:91-91 | the normal form has no run of spaces and no whitespace at its ends |
| `SqlSpaces.OddFreeUntrimmed` | internal/guardrail/sql_normalize.go:36-91 | before its ends are trimmed the text is free of tabs, newlines and the like if and only if no quoted identifier and no executed comment that the lexer reaches holds any |
| `SqlInk.OddFreeExactly` | internal/guardrail/sql_normalize.go:15-92 | the result is free of them if and only if no token the lexer reaches copies any between two characters that are no whitespace |
| `SqlInk.OddFreeIfNoneCopied` | internal/guardrail/sql_normalize.go:15-92 | in particular it is when none is copied |
| `SqlInk.EdgeIsTrimmed` | internal/guardrail/sql_normalize.go:91-91 | a query of which one is copied and then trimmed away |
| `SqlSpaces.TabSurvives` | internal/guardrail/sql_normalize.go:47-55 | a concrete quoted identifier whose tab is kept |
| `SqlTokens.WordIsLexeme` | internal/guardrail/sql_normalize.go:195-211 | a delimited occurrence of a word is a maximal identifier run with that text, and conversely |
| `SqlTokens.OverlapNotBounded` | internal/guardrail/sql_normalize.go:202-203 | skipping a whole word length loses nothing: a hit inside a hit is never delimited |
| `SqlTokens.LexemeListed` | internal/guardrail/sql_normalize.go:195-211 | the tokenizer lists every maximal run |
| `SqlTokens.ContainsWord` | internal/guardrail/sql_normalize.go:195-211 | true if and only if some token is the word |
| `SqlTokens.ContainsWordNotCall` | internal/guardrail/sql_normalize.go:216-239 | true if and only if some token is the word and no parenthesis follows it |
| `SqlTokens.HasFunctionCall` | internal/guardrail/sql_generic.go:288-322 | true if and only if some token is the name, or starts with it, and a parenthesis follows |
| `SqlTokens.OpensExactly` | internal/guardrail/sql_generic.go:313-320 | a parenthesis follows if and only if there is one with nothing but blanks in front of it |
| `SqlWords.ListedAreWords` | internal/guardrail/sql_generic.go:72-266 | all listed keywords, functions and families consist of identifier bytes without a lower-case letter, which the exactness of the scanners and of upper-casing asks of a word |
| `SqlGuard.CallsSideEffectingFunction` | internal/guardrail/sql_generic.go:270-282 | names a denied function that is called, or none if none is |
| `SqlGuard.ListsAreTokens` | internal/guardrail/sql_generic.go:91-106 | running through the four lists finds nothing if and only if no token is forbidden |
| `SqlGuard.CheckNoWriteAnywhere` | internal/guardrail/sql_generic.go:91-106 | accepts if and only if a checker over maximal identifier tokens does, and a rejection names a word that is there |
| `SqlGuard.PragmaSplits` | internal/guardrail/sql_generic.go:210-220 | the name found stands behind dotted qualifiers and ends at its last identifier byte |
| `SqlGuard.SplitIsUnique` | internal/guardrail/sql_generic.go:210-220 | that description leaves only one name and rest |
| `SqlGuard.ScanPragmaName` | internal/guardrail/sql_generic.go:210-220 | the loop and its recursion compute that split |
| `SqlGuard.ValidateReadOnlyPragma` | internal/guardrail/sql_generic.go:182-206 | allowed if and only if the PRAGMA is listed and in its read form; which refusal is given when |
| `SqlGuard.ValidateStatement` | internal/guardrail/sql_generic.go:36-64 | allowed if and only if its kind of statement permits it, and which refusals each kind can give; not a reading statement if and only if it begins with none of the words |
| `SqlGuard.ValidateReadOnlyGeneric` | internal/guardrail/sql_generic.go:10-65 | allowed if and only if the query is one well-formed statement that is permitted, which `SqlRaw` says of the raw text; blank, unterminated, empty and multiple statements get their own errors, exactly |
| `SqlGuard.HasLimitGeneric` | internal/guardrail/sql_generic.go:337-347 | true if and only if LIMIT is a token of the upper-cased normal form, which `SqlRaw.LimitExactly` reads off the lexed text |
| `SqlGuard.VerdictIgnoresLiterals` | internal/guardrail/sql_generic.go:10-65 | whether a query is permitted does not depend on the text of a literal |
| `SqlStatements.UpperKeeps` | internal/guardrail/sql_generic.go:32-34 | upper-casing keeps the length, leaves no lower-case letter and changes nothing but the case of letters |
| `SqlStatements.UpperExactly` | internal/guardrail/sql_generic.go:32-34 | two texts agree upper-cased if and only if they agree letter by letter up to case |
| `SqlStatements.TrimStatementExact` | internal/guardrail/sql_generic.go:20-27 | all semicolons and spaces at the end are cut off, and nothing else |
| `SqlStatements.StripExplainExact` | internal/guardrail/sql_generic.go:111-123 | what is explained is what stands behind the keyword and a list of options in parentheses, if there is one, with all blanks around it cut off |
| `SqlStatements.BarePragma` | internal/guardrail/sql_generic.go:182-206 | a PRAGMA without an argument is permitted if and only if its name is listed |
| `SqlStatements.PragmaWithMore` | internal/guardrail/sql_generic.go:182-206 | a PRAGMA with something behind its name is permitted if and only if that is a parenthesis and the name takes an argument; an assignment never is |
| `SqlRaw.CollapsedMarks` | internal/guardrail/sql_normalize.go:175-191 | collapsing spaces keeps the identifiers of a text and what follows each |
| `SqlRaw.CheckedMarks` | internal/guardrail/sql_generic.go:10-34 | the statement that is checked has the identifiers of the lexed text in upper case, each followed by a parenthesis exactly where it was |
| `SqlRaw.LexedDecides` | internal/guardrail/sql_generic.go:10-106 | a SELECT or WITH query is permitted if and only if it is one statement and no identifier of its lexed text is, up to case, a write keyword, or a denied function or family that is called |
| `SqlRaw.ReachedIsMarked` | internal/guardrail/sql_generic.go:10-34 | every maximal identifier run of the raw query that the lexer reaches is an identifier of the lexed text |
| `SqlRaw.RawKeywordRefused` | internal/guardrail/sql_generic.go:10-106 | a SELECT or WITH query with a write keyword, in any case of letters, where the lexer reads code is refused, whatever surrounds it |
| `SqlRaw.RawCallRefused` | internal/guardrail/sql_generic.go:225-322 | so is one with the name of a denied function or family, in any case of letters, and a parenthesis behind it, whitespace and comments between them included |
| `SqlRaw.QuotedCallRefused` | internal/guardrail/sql_generic.go:225-322 | putting the name in quotes does not help |
| `SqlRaw.RawAnalyzeRefused` | internal/guardrail/sql_generic.go:43-46 | an EXPLAIN in which the lexer reaches ANALYZE, in any case of letters, is refused |
| `SqlRaw.ShowDecides` | internal/guardrail/sql_generic.go:36-64 | a SHOW or DESCRIBE, in any case of letters, is permitted if and only if it is a single statement |
| `SqlRaw.PragmaDecides` | internal/guardrail/sql_generic.go:36-64 | a PRAGMA if and only if it is one and in a permitted form |
| `SqlRaw.ExplainDecides` | internal/guardrail/sql_generic.go:36-64 | an EXPLAIN if and only if it is one, holds no ANALYZE, and what it explains begins like a reading statement and holds nothing forbidden |
| `SqlRaw.OthersRefused` | internal/guardrail/sql_generic.go:36-64 | a statement that begins with none of the known words never is |
| `SqlRaw.LimitExactly` | internal/guardrail/sql_generic.go:337-347 | a query has a LIMIT if and only if an identifier of its lexed text is that word up to case |
| `EditDistance.CellIsLev` | internal/ingest/validate.go:342-360 | the table cell (i, j) is the distance of the prefixes |
| `EditDistance.Distance` | internal/ingest/validate.go:342-360 | two rows, swapped, compute the recursive distance |
| `EditDistance.FillRow` | internal/ingest/validate.go:349-357 | one pass in place turns row i - 1 into row i |
| `EditDistance.LevSymmetric` | internal/ingest/validate.go:342-360 | the distance is symmetric |
| `EditDistance.LevZero` | internal/ingest/validate.go:342-360 | it is zero on equal strings only |
| `EditDistance.LevTriangle` | internal/ingest/validate.go:342-360 | it satisfies the triangle inequality |
| `EditDistance.LevIsLeast` | internal/ingest/validate.go:341-360 | it is the least number of one-character insertions, removals and replacements |
| `EditDistance.SuggestNearest` | internal/ingest/validate.go:332-338 | whatever order names are visited in, the result is a nearest name below distance 3, or empty if there is none |
| `FieldSuggestion.SuggestField` | internal/ingest/validate.go:324-339 | the alias of the trimmed, lower-cased key if it has one, spelled out when nested; otherwise a nearest name, or nothing |
| `FieldSuggestion.CanonicalIgnores` | internal/ingest/validate.go:325-325 | two keys are looked up alike if and only if, blanks around them aside, they agree up to the case of their letters |
| `FieldSuggestion.LowerExactly` | internal/ingest/validate.go:325-325 | two texts agree lower-cased if and only if they agree letter by letter up to case |
| `FieldSuggestion.SpelledOut` | internal/ingest/validate.go:326-331 | a target without a dot is suggested as it is, a nested one as its field and what to put inside it |
| `DotEnv.ClosingQuote` | internal/config/config.go:142-153 | the index of the closing quote that the recursive description gives, or -1 |
| `DotEnv.ExpandEscapes` | internal/config/config.go:157-184 | the builder loop computes the expansion |
| `DotEnv.ParseEnvValue` | internal/config/config.go:111-137 | the branches compute the parsed value |
| `DotEnv.ExpandsEscaped` | internal/config/config.go:157-184 | expansion undoes escaping on every string |
| `DotEnv.EscapeMeanings` | internal/config/config.go:157-184 | which escapes mean what, and that a backslash in front of anything else, or last, stays |
| `DotEnv.CloseAheadExact` | internal/config/config.go:142-153 | the closing quote found is the first one that no backslash escapes, and none is found only if there is none |
| `DotEnv.ClosesAfterEscaped` | internal/config/config.go:142-153 | the scan for the quote skips exactly the escapes that are written |
| `DotEnv.DoubleQuotedRoundTrip` | internal/config/config.go:111-184 | every string, escaped in double quotes, reads back, whatever follows the closing quote |
| `DotEnv.SingleQuotedRoundTrip` | internal/config/config.go:111-153 | text without a single quote, in single quotes, reads back verbatim |
| `DotEnv.PlainRoundTrip` | internal/config/config.go:128-137 | a value that needs no quotes reads as written, blanks around it aside |
| `DotEnv.UnterminatedKept` | internal/config/config.go:111-127 | a value whose quote is never closed is kept as it stands |
| `DotEnv.UnquotedComment` | internal/config/config.go:128-137 | an unquoted value loses a trailing comment if and only if it is not empty |
| `DotEnv.LineRoundTrip` | internal/config/config.go:89-99 | a line KEY="escaped value" gives the key and the value, for every value |
| `DotEnv.LineSkipped` | internal/config/config.go:89-99 | a line sets nothing if and only if it is blank, a comment or has no equals sign |
| `DotEnvFile.LoadEnvFile` | internal/config/config.go:87-104 | the scanner loop applies every line of the file in turn |
| `DotEnvFile.LineIsOneLine` | internal/config/config.go:87-99 | the line written for any value is a single line of the file |
| `DotEnvFile.CarriageReturns` | internal/config/config.go:87-89 | a carriage return in front of a newline is not part of the line |
| `DotEnvFile.LastLine` | internal/config/config.go:87-89 | the last line needs no newline |
| `DotEnvFile.FileRoundTrip` | internal/config/config.go:66-104 | a file of such lines sets exactly its keys, each to its value unless the environment had one already |
| `CircuitBreaker.NewConfig` | internal/connector/circuit_breaker.go:52-71 | positive settings are kept, others become 5 failures, 30 seconds and 2 successes |
| `CircuitBreaker.Guard.State` | internal/connector/circuit_breaker.go:74-82 | reports open if and only if `Allow` would refuse at that instant, and changes nothing |
| `CircuitBreaker.Guard.Allow` | internal/connector/circuit_breaker.go:86-105 | refuses while open within the timeout, half-opens after it |
| `CircuitBreaker.Guard.RecordSuccess` | internal/connector/circuit_breaker.go:108-124 | counts towards closing when half-open, clears the failures when closed |
| `CircuitBreaker.Guard.RecordFailure` | internal/connector/circuit_breaker.go:127-145 | counts towards opening when closed, reopens when half-open |
| `CircuitBreaker.Guard.Reset` | internal/connector/circuit_breaker.go:148-154 | closes and clears both counters |
| `CircuitBreaker.AlwaysExplained` | internal/connector/circuit_breaker.go:74-154 | after any events the counters are the failures in a row, below the threshold, and the successes in a row since half-opening |
| `CircuitBreaker.OpensOnStreak` | internal/connector/circuit_breaker.go:127-145 | from closed an event opens the circuit if and only if it completes a streak of threshold failures |
| `CircuitBreaker.ClosesOnStreak` | internal/connector/circuit_breaker.go:108-124 | without a reset the circuit closes if and only if the event is the success that completes `halfOpenMax` in a row since half-opening |
| `CircuitBreaker.RefusesWhileRecent` | internal/connector/circuit_breaker.go:86-105 | requests are refused if and only if the circuit is open and its latest failure is younger than the timeout |
| `CircuitBreaker.PhaseMoves` | internal/connector/circuit_breaker.go:74-154 | after any events and for any next one, exactly when the circuit is open, half-open and closed: a failure while half-open always reopens it, a question after the timeout half-opens it, a reset closes it |
| `Utf8.EncodedHead` | internal/ingest/limits.go:37-50 | the encoding of a Unicode scalar value, by section 3 of RFC 3629, is read as one character |
| `Utf8.HeadEncodes` | internal/ingest/limits.go:37-50 | what is read as one character is the encoding of one |
| `Utf8.EncodedIsValid` | internal/ingest/limits.go:37-50 | the encoding of any text is valid |
| `Utf8.ValidIsEncoded` | internal/ingest/limits.go:37-50 | valid bytes are the encoding of some text |
| `Truncation.Kept` | internal/ingest/limits.go:45-48 | backing up ends at the last character start at or below the cut |
| `Truncation.TruncateField` | internal/ingest/limits.go:37-50 | the loop computes the truncation |
| `Truncation.CutAtRuneStart` | internal/ingest/limits.go:45-49 | cutting valid text in front of a character start leaves valid text on both sides |
| `Truncation.TruncatedIsValid` | internal/ingest/limits.go:37-50 | valid UTF-8 stays valid for every cap |
| `Utf8.TruncatedText` | internal/ingest/limits.go:37-50 | the truncation of an encoded text is an encoded text |
| `Truncation.TruncatedKeepsMost` | internal/ingest/limits.go:37-50 | what is kept is a prefix at most three bytes shorter than the cap allows |
| `Truncation.TruncatedIsLongest` | internal/ingest/limits.go:37-50 | no longer valid prefix leaves room for the marker |
| `Truncation.FitsTheCap` | internal/ingest/limits.go:31-50 | the result fits the cap if and only if nothing had to be cut or the cap holds the marker, equals the input if and only if that fits or is the marker itself, and is the bare marker under a smaller cap |

## Left out

- Connectors, notifiers, HTTP handlers, MCP tools and the agent: calls into code that is not logic of this repository.
- The columnar log engine and the SQLite stores other than the jobs table: SQL strings and files.
- The rate limiter's client address, Retry-After header and `lastSeen` field: none of them takes part in a decision.
- The ingest queue's metrics, back-off sleeps and log lines; `flushCount` and `overflowCount` are counted in the class without a claim.
- IngestQueueClass.Queue.Enqueue: one caller at a time; interleavings are the subject of `IngestQueue`, whose steps the method is proved to follow.
- Post-processing side effects: processing a batch is one step that cannot fail.
- JobQueue.BudgetRespected: speaks of runs without `Retry`, which only tests call; `RetryOverdraws` and `RetriedTooOften` say what it does to the budget.
- Job payloads, error texts and the string form of timestamps: times are integers.
- JobTable.Queue.ClaimNext: the claim is atomic, being one transaction on the only connection to the database; the failing final SELECT is in `JobQueue`.
- Watch metrics, operators and next-check times: a check is breached, normal, failed or invalid.
- WatchEvaluation.Evaluator.Evaluate: the lock is taken for granted; `WatchEvaluator` proves what it buys over interleavings.
- Alert rows, notifications and the watch stream's own start and stop: an alert is the stored transition it reports.
- Non-ASCII text in the SQL guardrail: characters stand for bytes, whitespace is ASCII whitespace and upper-casing is ASCII upper-casing.
- SqlTokens.ContainsWord: for words of identifier bytes, which all words of the guardrail are; a word with other bytes can be missed when it overlaps itself.
- The PostgreSQL parser-based validator and its LIMIT rewriting: it rests on an external parser.
- FieldSuggestion.SuggestField: the alias table and the accepted names are parameters, letters are ASCII, and a nested name is put in plain quotes.
- The dotenv reader's 64 KiB limit on a line and the file's permissions.
- Validation reports, field kinds and wire types of the ingest handler: case tables without an invariant.
