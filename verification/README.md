# Transaction relayer: verified model

A Dafny model of the relayer's state-keeping components and proofs of what they guarantee over whole runs. `dafny verify dfyconfig.toml` checks everything.

The model follows the source text as written, including the modules that `src/lib.rs` has switched off. Objects that the source updates in place are classes whose methods are proved against functions or relations on values; the theorems are about those, over runs of any length. Code that several tasks interleave (`TaskLifecycle`, `QueueCapacity`, `Pipeline`, `ResourceSafety`, `CircuitBreaker`) is a state machine with one step for each section that holds a lock and for each database write; the methods of the classes are calls that nothing interrupts, and lemmas show that they are those sections one after the other. Every clock reading is an input, as are fresh identifiers, transaction hashes, answers of the chain and of the database. Floating-point factors are exact reals, cut down where the source casts.

| files | component |
|---|---|
| `RateLimiter`, `RateWindows` | the three nested windows of the API rate limiter |
| `ReplayProtection`, `ReplayRuns` | the pruned per-address nonce log |
| `MemoryCache`, `LruOrder`, `LruInclusion` | the LRU and TTL cache, what its entries and evictions say about the past, and two capacities compared |
| `CacheManager`, `CacheFreshness` | memory in front of Redis, and how stale an answer can be |
| `WalletPool`, `Rotation`, `WalletHistory` | the wallet pool, fairness of its rotation, its two ledgers, and both told from the operations alone |
| `BinaryHeap`, `Scheduler`, `QueueCapacity` | the priority queue, the scheduler object, the size of the queue |
| `TaskLifecycle`, `TaskGuarantees`, `TaskHistory`, `SlowCallers` | the life of a task over all interleavings of the scheduler's sections, what follows, tasks and results told from the events alone, and callers that are interrupted between their sections |
| `TransactionTracker`, `Pipeline`, `PipelineSafety`, `StatusCauses` | submit, cancel, executor loop and tracker loop interleaved, and why a transaction has the status it has |
| `TrackerLoop`, `ExecutorLoop`, `LoopRefinement`, `ObjectRuns` | the two loops as objects, their rounds as runs of that state machine, and any sequence of calls |
| `ConcurrencyController` (and module `ResourceSafety`) | permits and summed resources |
| `CircuitBreaker`, `RequestStats` | breaker timers, the truncating running average |
| `GasOracle`, `GasPriceOracle` | EIP-1559 fee pairs from fetch to choice, the oracle object |
| `Retry` | the two backoff loops |
| `Wrappers` | optional values and facts about collections, keys and division |

## Where the code is not what its comments, tests or callers expect

Each of these is proved, with the exact condition where there is one.

- `ScheduledTask::cmp` is the reverse of the order its comment describes (`src/queue/scheduler.rs:33-35`): the queue hands out the lowest priority and the latest time first, against `test_task_priority` (`Scheduler.CmpReversesIntent`, `Scheduler.LowerPriorityFirst`, `Scheduler.LaterFirst`, `TaskHistory.LowestAndLatestNext`).
- `get_next_wallet` does not rotate; only acquiring does, against `test_wallet_rotation` (`Rotation.AskingTwiceNamesTheSame`).
- The gateway's hourly and daily limits never matter, exactly as long as 1440 times the minute limit fits 32 bits; the release profile wraps (`RateWindows.GatewayDecidesByMinute`).
- The executor loop reports a failure before it retries, so its retries find nothing, in whatever state (`ExecutorLoop.RetryAfterReportIsIdle`, `PipelineSafety.CancelledNeverExecuted`).
- A task cancelled while a worker holds it reappears as completed or failed, and one that is being reported is found and shows its result all the same (`TaskGuarantees.CancellationFinalIffFoundWaiting`).
- Between the two sections of `complete_task` an id is in processing and has a result, and between those of `retry_task` it is nowhere (`TaskGuarantees.TwoPlacesOnlyWhileReporting`, `TaskGuarantees.NoPlaceOnlyInHands`). Unless something is cancelled or cleared, a status read is sure to find a submitted id exactly when the id waits or has a result as the read begins, and a cancellation exactly when it waits; otherwise they may miss it, also while it is live throughout (`SlowCallers.ReadIsSureIffWaitingOrDone`, `SlowCallers.CancellationIsSureIffWaiting`).
- `max_queue_size` is kept exactly when there is a single submitter; t submitters can exceed it by t - 1 (`QueueCapacity.CapacityKeptIffOneSubmitter`).
- A time to live below one second makes SETEX 0, which Redis rejects after memory was written: an overwritten value can come back (`CacheFreshness.HarmlessIffTaken`).
- Summed resources keep within the limit that every acquire checks exactly when there is at most one permit; they can reach 100 times the number of permits (`ResourceSafety.LimitKeptIffOnePermit`, `ResourceSafety.BoundIsReached`).
- The memory cache keeps within `max_size` exactly as long as no key is set while it is full and every entry was accessed at the instant the eviction reads; there is no bound otherwise (`LruInclusion.CapacityKeptIffNoTiedSet`, `LruInclusion.TiedClockOutgrows`).
- The breaker's `failure_threshold` is never read: a threshold is honoured exactly up to one with one call at a time, and only when it is zero over all interleavings (`CircuitBreaker.SeriallyHonouredIffAtMostOne`, `CircuitBreaker.HonouredIffZero`). A probe that fails leaves the breaker open for good (`CircuitBreaker.FailedProbeIsFatal`), and a timer that comes late half-opens a breaker that a probe has closed (`CircuitBreaker.ClosedHalfOpensAgain`).
- A validated fee configuration can still yield pairs that EIP-1559 forbids (`GasOracle.ValidationIsNotEnough`).
- The backoff loops do not cap the first sleep (`Retry.FormulaIffInitialWithinCap`).
- The running average is the truncated exact one exactly when the remainders its divisions dropped add up to less than the number of requests; it can report 0 for 0, 1, ..., n - 1 (`RequestStats.AverageExactIffLittleDropped`, `RequestStats.DriftIsReached`).
- `get_next_nonce` wraps at the last 64-bit number (`ReplayRuns.NextNonceAccepted`).
- Adding an address that the pool knows already resets one of its two ledgers; over a run they agree exactly as long as that does not happen to a wallet with transactions (`Rotation.LedgersAgreeIffNoRestart`).

## Model

| member | source | states |
|---|---|---|
| RateLimiter.RateLimiter.CheckRateLimit | src/api/auth.rs:109-143 | a call is admitted when none of the three windows ending now is full in the history it finds; the history is pruned to a day and gains the instant of an admitted call, other identifiers are untouched |
| RateLimiter.RateLimiter.GetRateLimitStats | src/api/auth.rs:145-178 | the identifier, the three counts of its history cut to 32 bits, zero for unknown identifiers, and the configured limits; nothing changes |
| RateLimiter.PruningInvisible | src/api/auth.rs:116-119 | after any run the pruned history and the full log count alike in every window a later call can look at |
| RateLimiter.DecidesAsFullLog | src/api/auth.rs:109-143 | every decision of every run is that of a limiter that forgets nothing |
| RateWindows.LogSpaced | src/api/auth.rs:121-142 | the accepted instants are in order, and any two that are a limit's number of places apart are at least that limit's window apart |
| RateWindows.WindowBound | src/api/auth.rs:109-143 | any half-open window of a minute, an hour or a day, wherever it starts, holds at most the corresponding limit of accepted requests |
| RateWindows.RefusedOnlyWhenFull | src/api/auth.rs:121-139 | a request is refused if and only if one of the windows ending at it holds exactly its limit of acceptances |
| RateWindows.StatsAreExact | src/api/auth.rs:145-178 | reported statistics are the true window counts of the full log and within the limits; neither pruning nor the 32-bit casts lose anything |
| RateWindows.RedundantIffRoomForMinutes | src/api/auth.rs:109-143 | the hour and day checks never change a decision if and only if they leave room for 60 and 1440 full minutes (or nothing is admitted at all) |
| RateWindows.GatewayDecidesByMinute | src/api/gateway.rs:144-150 | with the limits the gateway derives, the minute window alone decides every run if and only if 1440 times the minute limit fits 32 bits |
| ReplayProtection.ReplayProtection.CheckAndRecord | src/security/replay.rs:36-72 | rejected exactly when the nonce has an entry younger than the window; an accepted call adds its entry and drops the expired ones of its address only |
| ReplayProtection.ReplayProtection.IsNonceUsed | src/security/replay.rs:74-91 | true exactly when the address has an entry with the nonce younger than the window |
| ReplayProtection.ReplayProtection.GetNextNonce | src/security/replay.rs:93-112 | the successor, in 64-bit arithmetic, of the greatest nonce among the address's unexpired entries, or of zero |
| ReplayProtection.ReplayProtection.CleanUp | src/security/replay.rs:114-141 | one round of the cleaner keeps exactly the unexpired entries and forgets addresses without any |
| ReplayProtection.LiveMembers | src/security/replay.rs:62-68 | what `retain` leaves are exactly the entries later than the cutoff |
| ReplayProtection.LiveKeeps | src/security/replay.rs:62-68 | each later entry stays as often as it was |
| ReplayProtection.CleanedKeeps | src/security/replay.rs:114-141 | the cleaner forgets an address if and only if none of its entries is later than the cutoff, and leaves the others exactly their later entries |
| ReplayRuns.AcceptancesFarApart | src/security/replay.rs:36-72 | with clocks read before the lock and out of order by at most a skew, two acceptances of a nonce of an address are at least window minus skew apart, with pruning and cleaning interleaved anywhere |
| ReplayRuns.BoundIsReached | src/security/replay.rs:36-72 | for every window and every skew within it, none included, some run accepts a nonce twice exactly window minus skew apart |
| ReplayRuns.PruningInvisible | src/security/replay.rs:62-68 | with clocks in order, stored entries and full log have the same unexpired entries at every cutoff a later call can use |
| ReplayRuns.AnswersAsFullLog | src/security/replay.rs:74-91 | verdicts and `is_nonce_used` answer as a log that forgets nothing |
| ReplayRuns.TopAsFullLog | src/security/replay.rs:93-112 | the nonce that `get_next_nonce` builds on is that of a log that forgets nothing |
| ReplayRuns.NextNonceIsLeastAbove | src/security/replay.rs:93-112 | the proposed nonce is above every live nonce and its predecessor is live, or it is 1; it is zero if and only if the last 64-bit number is live |
| ReplayRuns.LiveNoncesDistinct | src/security/replay.rs:46-60 | in every reachable state the unexpired entries of an address carry different nonces |
| ReplayRuns.NextNonceAccepted | src/security/replay.rs:93-112 | the proposed nonce is accepted at the same or any later time if and only if it did not wrap, or it wrapped and zero is free |
| MemoryCache.MemoryCache.constructor | src/cache/memory.rs:57-68 | a new cache is empty and keeps its capacity and default time to live |
| MemoryCache.MemoryCache.Get | src/cache/memory.rs:70-84 | a hit is an entry whose expiry is not past and gets its access recorded; an expired entry is removed and missed; the rows of `LruOrder` say what recording means without naming it |
| MemoryCache.MemoryCache.EvictLru | src/cache/memory.rs:201-223 | drops an entry that nobody was accessed earlier than, or nothing when no access lies strictly before now |
| MemoryCache.MemoryCache.Set | src/cache/memory.rs:86-98 | evicts first when the cache is full and the key new, then stores the fresh entry |
| MemoryCache.MemoryCache.SetMultiple | src/cache/memory.rs:136-150 | a run of plain sets in the order in which the items come, under one lock |
| MemoryCache.MemoryCache.Delete | src/cache/memory.rs:100-103 | removes the key only, and says whether it was there |
| MemoryCache.MemoryCache.Clear | src/cache/memory.rs:115-119 | empties the cache |
| MemoryCache.MemoryCache.CleanupExpired | src/cache/memory.rs:185-199 | keeps exactly the unexpired entries and counts the others |
| LruOrder.EntriesAreHistory | src/cache/memory.rs:33-98 | on every run, whatever its clock, an entry holds what the key's last set stored, the number of hits since, and the instant of its last touch, a set or a hit, all read off the operations and the answers of the gets |
| LruOrder.AnswersAreHistory | src/cache/memory.rs:70-84 | a get hits if and only if the key is cached and the time to live of its last set has not run out, and then answers the value of that set |
| LruOrder.CleanupDropsTheExpired | src/cache/memory.rs:185-199 | on every run a cleanup drops a cached key if and only if the time to live of its last set has run out, and no later get can tell |
| LruOrder.EarliestTouchedIsDropped | src/cache/memory.rs:86-98 | with a strictly advancing clock a cached key survives the set of a new key on a full cache if and only if some other cached key was touched before it; any other set drops nothing |
| LruInclusion.NeverOutgrowsCapacity | src/cache/memory.rs:86-98 | with a strictly advancing clock the cache never holds more than max(1, max_size) entries on any run |
| LruInclusion.FullSetGrowsIffTied | src/cache/memory.rs:86-98 | setting a new key on a full cache makes it grow if and only if no entry was accessed before the instant the eviction reads |
| LruInclusion.CapacityKeptIffNoTiedSet | src/cache/memory.rs:86-98 | on any run, whatever its clock, the cache keeps within max(1, max_size) if and only if no such set occurs |
| LruInclusion.LargerCacheIncludes | src/cache/memory.rs:70-103 | on the same operations the cache of capacity k + 1 holds every entry of the cache of capacity k, equal in value, expiry and last access, and at most one more, at every moment and however ties are broken |
| LruInclusion.EnlargingKeepsHits | src/cache/memory.rs:70-103 | enlarging `max_size` by any amount never turns a hit into a miss nor changes what it returns |
| LruInclusion.SameRuns | src/cache/memory.rs:201-223 | with a strictly advancing clock the map's iteration order never shows: the operations determine the contents |
| LruInclusion.TiedClockOutgrows | src/cache/memory.rs:208-215 | at one instant any number of keys fits into a cache of any capacity |
| LruInclusion.RunExists | src/cache/memory.rs:70-103 | every sequence of operations has a run at every capacity, so the comparison above is never empty |
| CacheManager.CacheManager.Get | src/cache/memory.rs:333-351 | memory first, then Redis if in use, whose hit goes back to memory with the default time to live |
| CacheManager.CacheManager.Set | src/cache/memory.rs:353-365 | sets memory, then Redis for the whole seconds of the time to live; fails, with memory already set, when there is not one |
| CacheManager.CacheManager.Delete | src/cache/memory.rs:367-385 | removes the key from both tiers and says whether either had it |
| CacheManager.CacheManager.Clear | src/cache/memory.rs:403-415 | empties memory, and Redis if it is in use |
| CacheFreshness.HitsAreCurrent | src/cache/memory.rs:333-385 | while Redis takes every time to live, a hit is always the value set last, and never later than its set plus the greater of its memory life and its Redis life followed by a default memory life |
| CacheFreshness.ServedPastItsTtl | src/cache/memory.rs:341-348 | in caches of every capacity, a value whose time to live Redis takes can be served one instant before its life in Redis plus a default memory life |
| CacheFreshness.ServedUntilIsMet | src/cache/memory.rs:333-365 | the bound on staleness is met exactly, for every time to live that Redis takes, every capacity, with Redis or without |
| CacheFreshness.RejectedSetResurfaces | src/cache/redis.rs:97-117 | for every time to live that Redis rejects there is a run that serves a value after it was overwritten |
| CacheFreshness.HarmlessIffTaken | src/cache/redis.rs:97-117 | a time to live keeps all hits current if and only if Redis is off or it makes at least one whole second |
| WalletPool.WalletPool.AddWallet | src/wallet/pool.rs:57-90 | appends the wallet, activates its address once and starts its statistics over |
| WalletPool.WalletPool.RemoveWallet | src/wallet/pool.rs:92-110 | removes the address from list, active list and statistics, and nothing else |
| WalletPool.WalletPool.SelectRoundRobin | src/wallet/pool.rs:205-222 | picks the first of the addresses last used earliest, provided that was before now; otherwise the first address |
| WalletPool.WalletPool.GetNextWallet | src/wallet/pool.rs:112-130 | names the record of the selected address, and changes nothing |
| WalletPool.WalletPool.AcquireWallet | src/wallet/pool.rs:132-143 | names that wallet and marks its address as used now |
| WalletPool.WalletPool.ReleaseWallet | src/wallet/pool.rs:145-169 | counts the transaction in both ledgers of the address |
| WalletPool.Find | src/wallet/pool.rs:124-129 | the first wallet with the address, or none |
| Rotation.ReachableConsistent | src/wallet/pool.rs:57-169 | every pool that is made from the empty one under a strict clock lists each active address once, with statistics and a last use of its own |
| Rotation.NextIsOldest | src/wallet/pool.rs:205-222 | in every consistent pool the next wallet is one that no active wallet was used before |
| Rotation.AcquireAdvances | src/wallet/pool.rs:132-143 | an acquire takes w exactly when nobody is older; otherwise the one it takes leaves the set of wallets older than w |
| Rotation.OthersDoNotOvertake | src/wallet/pool.rs:57-110 | adding, removing and releasing other wallets never puts anyone in front of w |
| Rotation.EveryWalletGetsItsTurn | src/wallet/pool.rs:132-169 | an active wallet left alone is chosen within as many acquires as there were active wallets, whatever happens to others meanwhile |
| Rotation.RoundRobin | src/wallet/pool.rs:132-143 | with acquires only, a wallet is chosen precisely at every n-th acquire, from its place in the order of last use on |
| Rotation.ExactlyOnceInN | src/wallet/pool.rs:132-143 | any n consecutive acquires choose each of the n active wallets exactly once |
| Rotation.AskingTwiceNamesTheSame | src/wallet/pool.rs:112-130 | asking for the next wallet twice, at any two instants, names the same one |
| Rotation.ChoiceIsDetermined | src/wallet/pool.rs:205-222 | whatever the clock and the statistics, at most one address can be selected |
| Rotation.EarlierListedWinsTies | src/wallet/pool.rs:211-219 | of two addresses used at the same instant the one listed later is never selected |
| Rotation.LedgersKeepAgreeing | src/wallet/pool.rs:145-169 | acquiring, releasing and removing keep the counts of the wallet record and of the usage statistics equal |
| Rotation.AddingKeepsAgreementIffNew | src/wallet/pool.rs:57-90 | adding keeps them equal for an address if and only if it is not added over one that has transactions |
| Rotation.LedgersAgreeIffNoRestart | src/wallet/pool.rs:57-169 | on every run from the empty pool the two ledgers agree on all addresses if and only if no address is added that is in the pool with transactions |
| Rotation.ReleasedAgrees | src/types/wallet.rs:35-49 | a release counts the same successes, failures and total in both ledgers |
| WalletHistory.StatisticsAreHistory | src/wallet/pool.rs:57-169 | on every run from the empty pool the statistics of an address exist if and only if it was added and not removed since, and are the successes, failures, gas, average gas and last use of the operations since its last adding |
| WalletHistory.RecordsAreHistory | src/wallet/pool.rs:57-158 | so are the counts, the success rate and the last use in its wallet record, since it entered the pool |
| WalletHistory.EarliestUsedIsChosen | src/wallet/pool.rs:132-143 | with a strictly advancing clock an acquire hands out the record of the pool's wallet whose last adding, acquiring or releasing lies furthest back, and fails only when the pool is empty |
| BinaryHeap.Push | src/queue/scheduler.rs:88-91 | the elements are those before and the new one |
| BinaryHeap.Pop | src/queue/scheduler.rs:97-100 | takes the top away, as one occurrence, and leaves the rest; nothing from an empty heap |
| BinaryHeap.RunIsHeap | src/queue/scheduler.rs:31-37 | every run of push, pop and retain keeps the heap order, for any total comparison |
| BinaryHeap.PopsTheBest | src/queue/scheduler.rs:97-100 | every pop in every run returns a pending element that nothing pending exceeds |
| BinaryHeap.Drain | src/queue/scheduler.rs:97-100 | draining returns a permutation of what is pending |
| BinaryHeap.DrainDescends | src/queue/scheduler.rs:97-100 | draining returns it in descending order |
| Scheduler.OrdersAreTotal | src/queue/scheduler.rs:31-37 | both the written comparison and the described order compare any two, transitively |
| Scheduler.CmpReversesIntent | src/queue/scheduler.rs:31-37 | the written comparison is exactly the reverse of higher weight first, then earlier time |
| Scheduler.PopsTheLeastUrgent | src/queue/scheduler.rs:97-100 | on every run a pop returns a least urgent pending task, where the described order would give a most urgent one |
| Scheduler.BacklogRunsBackwards | src/queue/scheduler.rs:31-37 | a drained backlog has weights that never fall and, among equal weights, times that never rise |
| Scheduler.LowerPriorityFirst | src/queue/scheduler.rs:370-386 | of two requests with different priorities, ranked Low, Normal, High, Critical, the lower one is handed out, in whichever order they are scheduled |
| Scheduler.LaterFirst | src/queue/scheduler.rs:31-37 | of two requests with the same priority the one scheduled later is handed out |
| Scheduler.MostUrgentIffAllAlike | src/queue/scheduler.rs:97-100 | on every run a popped task is a most urgent one, as described, if and only if all pending ones are equally urgent |
| Scheduler.TaskScheduler.ScheduleTask | src/queue/scheduler.rs:68-95 | refuses when the queue is at capacity, changing nothing; otherwise pushes a fresh entry with no retries |
| Scheduler.TaskScheduler.GetNextTask | src/queue/scheduler.rs:97-100 | removes and returns the top of the queue |
| Scheduler.TaskScheduler.StartProcessing | src/queue/scheduler.rs:102-113 | appends to the entries in processing, which no permit bounds |
| Scheduler.TaskScheduler.CompleteTask | src/queue/scheduler.rs:115-143 | records the result on its side and takes the id out of processing |
| Scheduler.TaskScheduler.RetryTask | src/queue/scheduler.rs:145-175 | takes the first entry with the id out of processing and puts it back with one more retry, or records a failure when it has none left |
| Scheduler.TaskScheduler.GetTaskStatus | src/queue/scheduler.rs:200-234 | the first of queue, processing, completed and failed that holds the id |
| Scheduler.TaskScheduler.CancelTask | src/queue/scheduler.rs:236-260 | drops the id from queue and processing, and says whether either held it |
| Scheduler.TaskScheduler.ClearCompletedTasks | src/queue/scheduler.rs:262-284 | forgets exactly the results not later than the cutoff, and counts them |
| TaskLifecycle.StepAgrees | src/queue/scheduler.rs:68-284 | every locked section of every operation, in any interleaving the protocol allows, keeps queue, processing, hands, results, pop counts and half-done cancellations in agreement with a ledger of one phase per id |
| TaskLifecycle.RunAgrees | src/queue/scheduler.rs:68-284 | so they agree in every reachable state, also between the sections of one operation |
| TaskGuarantees.UninterruptedOperations | src/queue/scheduler.rs:115-284 | completing, cancelling and clearing are their sections one directly after the other |
| TaskGuarantees.UninterruptedSubmission | src/queue/scheduler.rs:68-95 | so is scheduling, which refuses exactly at capacity |
| TaskGuarantees.UninterruptedRetry | src/queue/scheduler.rs:145-175 | so is retrying, whether it finds nothing, puts the task back or gives up |
| TaskGuarantees.OnePlaceEach | src/queue/scheduler.rs:200-234 | the phase of an id says in every reachable state which collections and hands hold it, and what a status read at that moment returns |
| TaskGuarantees.TwoPlacesOnlyWhileReporting | src/queue/scheduler.rs:127-139 | an id is in two of the four collections if and only if its worker is between the two sections of `complete_task`; then they are processing and one result |
| TaskGuarantees.NoPlaceOnlyInHands | src/queue/scheduler.rs:145-165 | a submitted id has no status if and only if it is about to be pushed, handed out, between the two sections of `retry_task`, cancelled, or its result is cleared |
| SlowCallers.StatusReadIsTrueThen | src/queue/scheduler.rs:200-234 | whatever happens between the four sections of a status read, its answer is true of the moment at which it was found; without interruption it is the status |
| SlowCallers.ReadIsSureIffWaitingOrDone | src/queue/scheduler.rs:200-234 | a read finds a submitted id under all that submitters and workers may do between its sections, as long as nothing is cancelled or cleared, if and only if the id waits or has a result when it begins |
| SlowCallers.CancellationIsSureIffWaiting | src/queue/scheduler.rs:236-260 | a cancellation answers true under all of that if and only if the id waits when it begins |
| SlowCallers.SlowReadMissesARetry | src/queue/scheduler.rs:200-234 | in particular, from every state with a running task that has retries left, a read around its retry finds nothing although the task ends up waiting |
| SlowCallers.SlowCancellationMissesARetry | src/queue/scheduler.rs:236-260 | and a cancellation around it answers false while the task ends up waiting |
| TaskGuarantees.RetriesAndPopsBounded | src/queue/scheduler.rs:145-175 | nothing pending or in processing has more than three retries, and nothing is popped more than four times |
| TaskGuarantees.NextTaskIsLeastUrgent | src/queue/scheduler.rs:97-100 | with retries, cancellations and clearing interleaved, the next one is still a least urgent pending one |
| TaskHistory.RunIsHistory | src/queue/scheduler.rs:68-175 | in every reachable state a task carries the request submitted under its id, the weight of that priority, the number of times it was put back, and the instant of its push, or of its last return plus five seconds for each retry; a result carries the instant of its report |
| TaskHistory.LowestAndLatestNext | src/queue/scheduler.rs:97-100 | so over every interleaving the task handed out next is one of the lowest priority among all that wait, and of those the one due last |
| TaskHistory.ClearingKeepsTheRecent | src/queue/scheduler.rs:262-284 | clearing keeps a result if and only if it was reported after the cutoff |
| TaskGuarantees.StepMoves | src/queue/scheduler.rs:68-284 | every section leaves an id in its phase or makes one of the allowed moves |
| TaskGuarantees.StepUsesWork | src/queue/scheduler.rs:68-175 | no section but the check of a submission gives an id more work, and each push, pop and section of a worker takes some away |
| TaskGuarantees.WorkRunsOut | src/queue/scheduler.rs:68-175 | once submissions stop, all further pushes, pops and sections of workers together are bounded by the work left |
| TaskGuarantees.FoundWaitingIsFinal | src/queue/scheduler.rs:239-245 | the first section of a cancellation finds an id if and only if it waits, and then it is gone for good |
| TaskGuarantees.CancellationFinalIffFoundWaiting | src/queue/scheduler.rs:236-260 | whatever happened between its sections, a cancellation that answers true is final if and only if its first section found the id or the result was cleared before the worker left; what shows at once is the result, if the id was reported |
| QueueCapacity.QueueBound | src/queue/scheduler.rs:68-95 | with t submitters, pending and about to be pushed never exceed max_queue_size - 1 + t + the retries put back so far |
| QueueCapacity.CapacityKeptIffOneSubmitter | src/queue/scheduler.rs:68-95 | without retries the queue keeps within max_queue_size on all runs if and only if there is one submitter |
| TransactionTracker.ReadExactly | src/queue/tracker.rs:83-138 | for every answer: failed exactly with both block numbers known and a status other than 1, confirmed exactly with status 1 and a block that is deep enough, processing exactly with one that is not, pending exactly without a receipt, an error exactly otherwise |
| TransactionTracker.StaysConfirmed | src/queue/tracker.rs:104-121 | what is confirmed stays confirmed as the chain grows |
| PipelineSafety.GateKeeps | src/api/gateway.rs:1145-1188 | each section of submitting and cancelling keeps the invariant that one party holds each transaction |
| PipelineSafety.StoreKeeps | src/api/gateway.rs:901-927 | storing the row before scheduling keeps it |
| PipelineSafety.ExecKeeps | src/queue/executor.rs:248-314 | each section of the executor loop keeps it |
| PipelineSafety.LetGoKeeps | src/queue/executor.rs:66-158 | the executor's writes and hand-overs keep it, whether the database carries them out or not |
| PipelineSafety.ReportKeeps | src/queue/executor.rs:253-299 | reporting and retrying keep it; a retry finds nothing in processing |
| PipelineSafety.TrackKeeps | src/queue/tracker.rs:140-246 | each section of the tracker loop keeps it |
| PipelineSafety.EntryAdded | src/queue/tracker.rs:53-67 | adding a hash that was never tracked, while the tracker iterates over its copy, keeps the two invariants of the tracked entries |
| PipelineSafety.RunKeeps | src/queue/executor.rs:66-158 | the invariant holds after every interleaving of all four |
| PipelineSafety.AtMostOneTerminalWrite | src/queue/tracker.rs:140-246 | over every interleaving no successful status write follows a terminal one of the same transaction |
| PipelineSafety.WritesHitRows | src/api/gateway.rs:901-927 | every status write concerns a stored row |
| StatusCauses.EveryStatusIsJustified | src/queue/tracker.rs:70-246 | over every interleaving, a status that was written follows its cause: Submitted an accepted sending; Confirmed and Processing besides a receipt of that very hash with status 1, deep enough or not; Failed a rejected sending or a receipt without status 1; Cancelled a cancellation that found the task |
| StatusCauses.EveryResultIsJustified | src/queue/executor.rs:248-314 | over every interleaving, an id among the scheduler's completed results was accepted by the provider, and one among its failed results was rejected or had no wallet |
| PipelineSafety.CancelledNeverExecuted | src/queue/scheduler.rs:236-260 | what a cancellation found is never popped, nothing is popped twice, and the loop never puts anything back |
| StatusCauses.ExecutedOnceOrWithdrawn | src/queue/scheduler.rs:236-260 | told by the events alone: what was popped is never found by a cancellation, before or after, and never popped again |
| PipelineSafety.PoppedCannotBeCancelled | src/queue/scheduler.rs:236-260 | once popped, a transaction is in neither collection that a cancellation searches |
| TrackerLoop.TransactionTracker.AddTransaction | src/queue/tracker.rs:53-67 | the hash is tracked for the transaction, never checked so far |
| TrackerLoop.TransactionTracker.ProcessOne | src/queue/tracker.rs:148-235 | an entry that is not due is left alone; a settled one is written and leaves if that succeeds; an open one is marked as checked; each adds to the right counts |
| TrackerLoop.TransactionTracker.ProcessPendingTransactions | src/queue/tracker.rs:140-246 | a round gives every entry one turn, in some order and each with its own clock readings; entries left, writes and counts are those of the turns |
| TrackerLoop.EntriesAccountedFor | src/queue/tracker.rs:140-246 | no entry gets lost: those that leave are the settled ones whose write succeeded, and the other errors are checks without an answer |
| TrackerLoop.CheckedWhenDue | src/queue/tracker.rs:148-235 | a round leaves an entry alone if and only if less than the interval has passed since it was last checked or its receipt cannot be read; an open one is marked, and a settled one leaves if and only if its final status is stored |
| TrackerLoop.CountedAs | src/queue/tracker.rs:155-235 | which counts an entry adds to, by its receipt and its write |
| TrackerLoop.EntryIsHistory | src/queue/tracker.rs:148-235 | over any number of rounds an entry tells when and how often it was checked: in the rounds that came no sooner than the interval after the check before and found it open |
| LoopRefinement.RoundIsRun | src/queue/tracker.rs:140-246 | a round is a run of the state machine's tracker from rest to rest with the same entries left and the same writes |
| ExecutorLoop.TaskExecutor.ExecuteTask | src/queue/executor.rs:66-158 | takes the next wallet and gives it back with the outcome; writes Submitted or Failed, or nothing without a wallet; tracks the hash of what was sent |
| ExecutorLoop.TaskExecutor.ExecuteNext | src/queue/executor.rs:248-314 | one round pops, executes and reports; it never puts anything back into the queue |
| ExecutorLoop.AttemptIsCounted | src/queue/executor.rs:66-158 | an attempt with a wallet counts as one transaction in both of its ledgers, as failed if and only if sending failed, and without gas |
| ExecutorLoop.RetryAfterReportIsIdle | src/queue/executor.rs:260-299 | in every state of the scheduler a retry that follows the report of the same id changes nothing |
| LoopRefinement.NextIsRun | src/queue/executor.rs:248-314 | a round is a run of the state machine's executor from idle to idle with the same effect on scheduler, database and tracker |
| ObjectRuns.CallsAreRun | src/queue/executor.rs:248-314 | every sequence of uninterrupted submissions, cancellations and rounds of the two loops is one of the interleavings of the pipeline |
| ObjectRuns.ObjectsWriteOneTerminalStatus | src/queue/tracker.rs:140-246 | so over every such sequence no status write follows a terminal one of the same transaction |
| ObjectRuns.UninterruptedCancel | src/queue/scheduler.rs:236-260 | in any state the two sections of a cancellation, without a break, are the whole one, and go on to write if and only if one of the two collections held the id |
| ConcurrencyController.ConcurrencyController.AcquirePermit | src/queue/concurrency.rs:54-86 | uninterrupted, it registers and keeps a permit if and only if none of the sums of cpu, memory and network exceeds 100 with the new usage, and otherwise leaves all as it was |
| ConcurrencyController.ConcurrencyController.CheckResourceLimits | src/queue/concurrency.rs:99-112 | true if and only if none of the three sums over the active entries and the new usage exceeds 100 |
| ConcurrencyController.ConcurrencyController.ReleasePermit | src/queue/concurrency.rs:88-97 | the entries of other ids remain, each as often as before, and none of this id; permits are not touched |
| ConcurrencyController.ConcurrencyController.CleanupExpiredTasks | src/queue/concurrency.rs:143-162 | exactly the entries whose time is not up remain, each as often as before, and the others are counted |
| ConcurrencyController.WithoutIdKeeps | src/queue/concurrency.rs:88-97 | releasing keeps an entry as often as it was if it has another id, and not at all otherwise |
| ConcurrencyController.UnexpiredKeeps | src/queue/concurrency.rs:143-162 | expiry keeps an entry as often as it was if its time is not up, and not at all otherwise |
| ResourceSafety.StepSafe | src/queue/concurrency.rs:54-112 | each of permit, check, registration, release, expiry and dropped permit keeps the bound below |
| ResourceSafety.ResourceBound | src/queue/concurrency.rs:54-112 | each of the three sums, of active and about-to-register entries, is at most 100 times the number of acquires that may overlap between check and registration; 100 when they are serial |
| ResourceSafety.WidthIsAtMostPermits | src/queue/concurrency.rs:54-70 | no run overlaps more acquires than max_concurrent, so 100 times that bounds every run |
| ResourceSafety.BoundIsReached | src/queue/concurrency.rs:99-112 | for every max_concurrent some run reaches 100 times it |
| ResourceSafety.LimitKeptIffOnePermit | src/queue/concurrency.rs:54-112 | the three active sums keep within 100 on all runs if and only if max_concurrent is at most one |
| CircuitBreaker.CircuitBreaker.Call | src/api/middleware.rs:250-288 | an uninterrupted call is refused exactly when the breaker is open, and leaves breaker and timers as the state machine does |
| CircuitBreaker.HalfOpensBounded | src/api/middleware.rs:290-305 | over all interleavings, half-openings plus running timers equal the failures of calls that saw the breaker closed |
| CircuitBreaker.WhatChangesTheBreaker | src/api/middleware.rs:250-305 | over all interleavings only a timer half-opens the breaker, any failure opens it, and only the success of a call that saw HalfOpen closes it |
| CircuitBreaker.StuckIffNothingPending | src/api/middleware.rs:250-305 | the breaker stays open under every continuation if and only if it is open with no timer running and no call under way; then every call is refused unrun |
| CircuitBreaker.RunIsOrderly | src/api/middleware.rs:290-305 | with one call at a time there is at most one timer, and only while open and idle |
| CircuitBreaker.FailedProbeIsFatal | src/api/middleware.rs:269-274 | with one call at a time a probe that fails leaves the breaker open for ever |
| CircuitBreaker.SeriallyHonouredIffAtMostOne | src/api/middleware.rs:277-297 | with one call at a time, leaving Closed for Open takes `threshold` failures of calls that saw Closed since it last closed, on all runs, if and only if the threshold is at most one |
| CircuitBreaker.HonouredIffZero | src/api/middleware.rs:250-297 | over all interleavings that holds if and only if the threshold is zero |
| CircuitBreaker.TwoProbesTrip | src/api/middleware.rs:258-275 | because of two probes under way one can close the breaker and the other open it again |
| CircuitBreaker.HalfOpensIffTimerLeft | src/api/middleware.rs:299-304 | a closed breaker at rest half-opens by itself if and only if a timer is left |
| CircuitBreaker.ClosedHalfOpensAgain | src/api/middleware.rs:290-305 | and one can be left after a probe has closed the breaker |
| RequestStats.MiddlewareManager.RecordRequest | src/api/middleware.rs:45-67 | only the identifier's counter changes: one request more on its side, the time, the truncated average |
| RequestStats.CountersAreIndependent | src/api/middleware.rs:45-53 | however the requests of several identifiers interleave, each counter is that of its identifier's own requests |
| RequestStats.CountsAddUp | src/api/middleware.rs:55-63 | successes are counted exactly, with failures make up the total, and the last request leaves its time |
| RequestStats.AverageDrift | src/api/middleware.rs:64-66 | the exact sum exceeds n times the reported average by 0 to n(n - 1)/2, for every sample sequence |
| RequestStats.DriftIsDropped | src/api/middleware.rs:64-66 | the drift is exactly the sum of the remainders that the divisions dropped |
| RequestStats.AverageExactIffLittleDropped | src/api/middleware.rs:64-66 | the reported average is the truncated exact one if and only if that sum is less than the number of requests |
| RequestStats.TotalTimeFits | src/api/middleware.rs:64-65 | the intermediate total never exceeds the exact sum, so it overflows only if that does |
| RequestStats.AverageBetween | src/api/middleware.rs:64-66 | the average lies between the least and the greatest sample |
| RequestStats.DriftIsReached | src/api/middleware.rs:64-66 | samples 0, 1, ..., n - 1 are reported as 0, so the drift bound is exact for every n |
| GasOracle.RecommendedFromHeld | src/utils/gas.rs:153-181 | from the initial pair or one fetched with any base fee that does not wrap when the tip is added, the recommendation for every priority is well-formed, if the condition below holds |
| GasOracle.WellFormedIffRoomForTip | src/utils/gas.rs:91-181 | all recommendations are well-formed if and only if the configured maximum is at least 1.3 times the fetched priority fee (and the minimum), and the multiplier is at least 1 or the minimum at least the tip |
| GasOracle.WellFormedForAnyWordIff | src/utils/gas.rs:91-181 | if the node may report any 256-bit base fee, the recommendations are all well-formed if and only if besides the configured minimum is at least the tip |
| GasOracle.ValidationIsNotEnough | src/config/settings.rs:283-296 | the default configuration meets it; two that pass validation do not |
| GasOracle.ChosenPair | src/queue/executor.rs:178-211 | where recommendations are well-formed, the chosen pair for a validated request is well-formed, with a maximum not below the requested nor below 80% of the recommended |
| GasOracle.RequestSentIff | src/queue/executor.rs:178-211 | for a validated request the requested pair is sent if and only if five times its maximum is at least four times the recommended one, or the pairs coincide; otherwise the recommended one is, and without an oracle always the requested one |
| GasOracle.ValidInWei | src/utils/validation.rs:104-142 | a request is accepted if and only if its priority fee is positive and at most its maximum, and that is between 1 and 1000 gwei |
| GasOracle.RecommendedInIntegers | src/utils/gas.rs:157-172 | a recommendation is the current fees times 3/2 and 13/10, 6/5, 1 or 4/5 in truncating integer arithmetic, within the bounds |
| GasOracle.FetchedInIntegers | src/utils/gas.rs:91-105 | a fetched maximum is the base fee plus 2 gwei times the multiplier in truncating integer arithmetic within the bounds, and the priority fee the greater of 2 gwei and the minimum; the fetch aborts if and only if the sum, wrapped at 256 bits, does not fit 64 |
| GasOracle.RecommendationsMonotone | src/utils/gas.rs:157-172 | a more urgent priority is never recommended less, on either fee |
| GasPriceOracle.GasPriceOracle.FetchGasPrice | src/utils/gas.rs:69-145 | a failed or aborted fetch changes nothing; otherwise the clamped pair becomes current and enters the history, which drops its oldest beyond 1000 |
| GasPriceOracle.FetchOutcome | src/utils/gas.rs:69-101 | exactly which replies make a fetch fail, abort or update; a missing base fee counts as 20 gwei |
| GasPriceOracle.GasPriceOracle.GetStatistics | src/utils/gas.rs:213-270 | least, greatest, the 256-bit sum over the count, and the trend of the last two; the current pair when there is no history |
| GasPriceOracle.SentPairsWellFormed | src/queue/executor.rs:178-211 | after every sequence of replies, failures included, what is sent for a request that passed `validate_gas_prices` is well-formed, under the condition above, or the one below if a base fee wraps when the tip is added |
| GasPriceOracle.HistoryIsRecent | src/utils/gas.rs:121-135 | the history is exactly the last 1000 snapshots, or all while there are fewer |
| GasPriceOracle.SumWraps | src/utils/gas.rs:229-243 | the sum behind the average is the exact one modulo 2^256 |
| GasPriceOracle.AverageBetweenExtremes | src/utils/gas.rs:229-243 | with 64-bit fees the sum cannot wrap and the average lies between least and greatest |
| Retry.RetryWithBackoff | src/utils/retry.rs:36-99 | calls until the first success, non-retryable error or exhausted retries, with the k-th sleep between; an error always counts max_retries + 1 |
| Retry.Retry | src/utils/retry.rs:102-156 | the same calls and sleeps, returning the last outcome |
| Retry.SameRun | src/utils/retry.rs:36-156 | the number of calls and all sleeps are determined, so both loops make the same |
| Retry.RetryableIff | src/utils/retry.rs:65-66 | a failure is retried if and only if there are no patterns or its message is some pattern with text before and after |
| Retry.FormulaIffInitialWithinCap | src/utils/retry.rs:83-87 | all sleeps are min(initial times multiplier^k, max_delay) if and only if the initial delay is within max_delay, for every multiplier |
| Retry.TotalSleep | src/utils/retry.rs:36-99 | then a run sleeps at most max_retries times max_delay in all |

## Left out

- HTTP routing, JSON, headers, CORS, logging, metrics formatting, pagination and search: plumbing around the modelled operations.
- SQL and Redis clients, persistence: the database is a map from ids to statuses whose writes may fail (its CHECK constraint rejects `submitted`), Redis a map with whole-second expiry, written by this process only, one operation at a time and without lost connections.
- The Ethereum provider: receipts, head numbers, hashes and send results are inputs; hashes are distinct and ids fresh.
- Hashing, signing, EIP-712, address and number parsing: library calls.
- Rotation strategies other than the default, pool statistics, wallet health: the default one is the only one whose fairness has to be derived.
- Priority scoring, alerts, rotation statistics, error contexts: easy members or heuristics.
- Reconfiguration at run time (`adjust_concurrency_limits`, `set_price_bounds`, `set_multiplier`, `set_rotation_strategy`): parameters are fixed for a run.
- Read-only accessors of the cache (`exists`, `get_multiple`, `get_stats`, `get_keys`, `get_entry_info`): they add no behaviour of their own.
- The objects of the two loops run one uninterrupted round per call; what happens between their sections is the matter of the state machine, whose runs the rounds are. Entries of a `HashMap` come in any order.
- Signing and sending inside `execute_transaction` is one input (a hash or an error); the fee pair it uses is `GasOracle.Chosen`.
- Each locked section has one clock reading where the source takes two in a row.
- Rounding of `f64`: percentages, delays and fee factors are exact; a negative or not-a-number factor for a duration, on which the source panics, is excluded.
- Liveness of the loops and of waiting for a semaphore: what is proved instead is a measure that falls (`TaskGuarantees.WorkRunsOut`) and fairness counted in acquires.
- Which of several equal elements a pop returns, and the order that `retain` leaves: the heap of the model breaks ties and rebuilds in its own way, where the standard one may return another of the equal elements.
- Borrow-checker slips in modules that are switched off, such as the use after move at `src/queue/scheduler.rs:93`, are read as intended.
- The retry delay that `retry_task` announces is not enforced by the source: `scheduled_at` only orders the queue.
- RequestStats.MiddlewareManager.RecordRequest: does not model 64-bit wrap-around, because `RequestStats.TotalTimeFits` shows it cannot happen before the exact sum of response times overflows.
- WalletPool.WalletPool.ReleaseWallet: does not model 64-bit wrap-around of gas totals and counters.
- CacheManager.CacheManager.Set: a rejected time to live makes the Redis client panic after memory was written; the model reports false and goes on, as in a build that unwinds. The release profile aborts the process instead (`Cargo.toml:103`), and what a restarted process finds in Redis is not modelled.
- CacheFreshness.RejectedSetResurfaces: is about the build that unwinds, for the same reason.
- CacheFreshness.HarmlessIffTaken: its failing half is about the build that unwinds, too.
- RateWindows.GatewayDecidesByMinute: is about the release build, in which integers wrap; with overflow checks the gateway panics when it derives a limit that does not fit.
- ReplayRuns.NextNonceAccepted: is about the release build, too; with overflow checks `get_next_nonce` panics at the last 64-bit number.
- Scheduler.TaskScheduler.CompleteTask: the stored result has no transaction hash, error message or processing time, which nothing in the scheduler reads.
- GasOracle.RecommendedInIntegers: does not model that `f64` rounds amounts beyond 53 bits.
- GasOracle.FetchedInIntegers: nor does this, nor that a decimal factor is rounded to begin with.
- GasOracle.RequestSentIff: nor does this.
- LruInclusion.LargerCacheIncludes: assumes a strictly advancing clock, because eviction skips entries accessed at the very instant it reads.
- Rotation.EveryWalletGetsItsTurn: assumes a strictly advancing clock and acquires that do not overlap; concurrent acquires can name the same wallet.
