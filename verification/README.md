# Verified models of the coordination, caching and scoring kernels

This project models the stateful and arithmetic kernels of the repository's `internal/` packages and proves
what they guarantee over whole runs. `dafny verify dfyconfig.toml` checks everything.

How the models are laid out:

- **Protocols** (task queue, cache, batch flush, circuit breaker, blackboard) have a `...Model`
  module: the state as a value, one step function for each operation, runs as sequences of events, and the
  theorems about every run. A second module holds the objects that the source updates in place; each method is
  proved equal to its step function. The parallel scan is a step system beside the sequential loop it refines.
- **Algorithms** (Pareto ranks, regret, baselines, change points, Welch's test, policy evaluation, budgeted
  assignment, discounted UCB) are methods with the source's loops, proved against an independent definition of what
  the result means.

Conventions. `float64` is `real`; time is an integer clock passed in; roots, logarithms and the gamma
function are parameters. Map iteration visits keys in an arbitrary order. Locks become atomic steps: where the source
drops a lock in the middle of an operation, the model has one step for each critical section.

What turned out to differ from the source's own words:

- The comment on `pending` says it is sorted by priority. A task is put back at the end whatever its priority, so the
  list is sorted throughout a run exactly when every task that is put back fits there (`SortedExactly`).
  `ClaimHighestExactly` says when `Claim` takes a highest-priority task, and `ClaimPassesOverRequeued` is a run in
  which it does not.
- "Only one probe at a time" holds while calls end within the cooldown (`OneProbeAtATime`), and fails for any
  longer bound (`TwoProbes`).
- A baseline window is cut to whole hours, so a window below one hour keeps only observations from the future;
  `WindowExactly` says which windows are exact.
- A flush can reorder the batch queue in two ways: its overflow returns behind requests that arrived meanwhile, and a
  failed batch returns in front of earlier ones (`OverflowReorders`, `RequeueReorders`). `OrderKeptExactly`,
  `OneFlushOrderExactly` and `DeliveryExactly` say when the order of arrival is kept.
- A restart brings collected blackboard keys back and undoes TTLs set since the last Put or Snapshot
  (`RestartResurrects`, `ExpiredReturns`, `ShortTtlReturns`); `RestartExactly` says when it changes nothing.
- A task ID used twice can lose a task (`ReusedIdLosesTask`); `KeptExactly` says when every submission is kept, and the
  theorems of `TaskQueueModel` about runs ask for fresh IDs.
- A sequential scan whose context ends within its last refresh returns a list all the same (`CutExactly`); the worker
  pool then fails.
- The zero guards on the least-squares slope, the CUSUM peak and Welch's denominators, and the clamps on regret
  contributions, on reward variances and on significance, never fire; neither do the guards of the continued fraction
  for samples of at most 10^14 values. The methods keep them and the proofs show that they are dead.

## Model

| member | source | states |
|---|---|---|
| TaskQueueModel.RunsKeep | internal/distributed/queue.go:121-292 | Every state of every run of Submit, Claim, Start, Complete, Fail and ReclaimStale with fresh IDs satisfies the invariant: conservation, bounded windows, consistent records and the weakened priority order. |
| TaskQueueModel.OneTaskOnePlace | internal/distributed/queue.go:121-292 | Every accepted task is in exactly one of pending, claimed, dead letters or history, or evicted from the latter two, which are the most recent suffixes of all deaths and completions. |
| TaskQueueModel.ClaimRespectsPriority | internal/distributed/queue.go:138-168 | Claim never passes over a never-requeued task of higher priority, and never-requeued tasks of one priority are claimed in the order of submission. |
| TaskQueueModel.ClaimHighestExactly | internal/distributed/queue.go:157-168 | With fresh IDs, Claim takes a highest-priority pending task if and only if no requeued task in the queue outranks the head. |
| TaskOrder.SortedExactly | internal/distributed/queue.go:75-75 | Every state of a run, whatever its IDs, has its pending list sorted by priority if and only if every task that Fail or ReclaimStale puts back has no higher priority than the last pending task. |
| TaskOrder.FreshRunsAreRuns | internal/distributed/queue.go:121-292 | Runs with fresh IDs are runs with any IDs, so the results about the latter hold of them. |
| TaskOrder.StepSorted | internal/distributed/queue.go:140-151 | From a sorted list, one step leaves a sorted list if and only if it meets its guard; Submit always does. |
| TaskOrder.SortedHead | internal/distributed/queue.go:157-165 | While every put-back fits, Claim takes a highest-priority pending task. |
| TaskQueueModel.ClaimPassesOverRequeued | internal/distributed/queue.go:237-242 | A concrete run in which an urgent task that failed once waits behind a trivial one. |
| TaskQueueModel.RetryAccounting | internal/distributed/queue.go:159-266 | Retries equal the accepted Fail calls, stay within the limit while the task lives and are one past it when it is dead; the state matches the place; claimed, dead and completed tasks name the worker and time of their last claim, completed ones the reported result and its time, failed ones the last message, and requeued ones no worker. |
| TaskQueueModel.SubmitRecords | internal/distributed/queue.go:121-136 | A submission is recorded exactly when there is room, as a pending task with its own ID or the generated one, the given priority, the current time and its own retry limit or the default. |
| TaskQueueModel.StepCopies | internal/distributed/queue.go:121-292 | Whatever the IDs, a step adds a copy of a task by an accepted submission, loses one by a claim whose ID is already claimed, and otherwise keeps the number of copies under every ID. |
| TaskOrder.CopiesAccount | internal/distributed/queue.go:121-292 | In every run with any IDs, the accepted submissions under an ID are the copies pending, claimed, dead and completed, and the claims under it that overwrote another one. |
| TaskOrder.KeptExactly | internal/distributed/queue.go:167-174 | With any IDs, every accepted submission is kept if and only if no Claim so far met the ID of its head among the claims. |
| TaskQueueModel.ReusedIdLosesTask | internal/distributed/queue.go:167-174 | From the empty queue, two submissions under one ID, each claimed in turn, leave only the second task anywhere. |
| TaskQueueModel.ReclaimLeaves | internal/distributed/queue.go:277-286 | A sweep takes exactly the listed stale claims away and leaves the others untouched. |
| TaskQueueModel.SweepTakesStale | internal/distributed/queue.go:270-292 | In every run a sweep takes a claimed task back into the queue exactly when its last claim is longer ago than the claim timeout. |
| TaskQueueModel.SweepNext | internal/distributed/queue.go:277-286 | One step of the sweep over the claims map, in any order, is one step of the listed reclaim. |
| TaskQueue.DistributedQueue.Submit | internal/distributed/queue.go:121-155 | Refuses a full queue without touching the task; otherwise the new state is the specified insertion before the first strictly lower priority. |
| TaskQueue.DistributedQueue.Claim | internal/distributed/queue.go:159-179 | Hands out the head and files it as claimed, or returns null from an empty queue. |
| TaskQueue.DistributedQueue.Start | internal/distributed/queue.go:182-192 | Marks a claimed task as running; an unknown ID changes nothing. |
| TaskQueue.DistributedQueue.Complete | internal/distributed/queue.go:195-220 | Moves a claimed task to the bounded history; an unknown ID changes nothing. |
| TaskQueue.DistributedQueue.Fail | internal/distributed/queue.go:224-267 | Requeues at the tail within the retry limit, else moves to the bounded dead-letter queue; an unknown ID changes nothing. |
| TaskQueue.DistributedQueue.ReclaimStale | internal/distributed/queue.go:270-292 | Returns every claim older than the timeout to the tail, each once, and counts them. |
| TaskQueue.DistributedQueue.AddHistory | internal/distributed/queue.go:339-344 | Keeps the 500 most recent completions. |
| TaskQueue.DistributedQueue.constructor | internal/distributed/queue.go:86-104 | Replaces settings out of range by the defaults; a retry limit of zero is kept. |
| TaskQueueModel.NormalizeExactly | internal/distributed/queue.go:86-104 | The defaults are 1000 pending, 2 retries, 300 time units and 100 dead letters, and settings stay as they are exactly when all are in range. |
| LruModel.RunsKeep | internal/enhancer/cache.go:162-282 | Every reachable cache state is a bounded list of distinct keys in recency order that agrees with the latest puts and the counters. |
| LruModel.BoundedAndCounted | internal/enhancer/cache.go:192-219 | The cache never exceeds its size, holds a key once, and hits plus misses are the Gets since the last Clear. |
| LruModel.CountersAreHistory | internal/enhancer/cache.go:162-282 | The hits are the Gets answered and the evictions the Puts that pushed a key out, since the last Clear. |
| LruModel.HitIsLatestPut | internal/enhancer/cache.go:162-188 | A hit returns the value of the latest Put of the key not invalidated or cleared since, and that Put is within the TTL. |
| LruModel.GetHits | internal/enhancer/cache.go:162-219 | In every run whose Gets are not later than now, a Get returns the latest Put of the key when that is within the TTL and fewer than maxSize distinct other keys were called since. |
| LruModel.GetHitsCrowd | internal/enhancer/cache.go:162-219 | The same when fewer than maxSize distinct other keys were put or hit since the key last was. |
| LruModel.GetMissesExactly | internal/enhancer/cache.go:175-188 | A Get of a cached key misses if and only if its latest Put is longer ago than the TTL. |
| LruModel.LedgerIsHistory | internal/enhancer/cache.go:162-250 | The record used by the theorems is what the calls since the last Clear and their answers say: the keys put or hit in order, the latest Put of each key, the Gets, and whether a cached key was invalidated or found expired. |
| LruModel.EvictionNeedsCrowd | internal/enhancer/cache.go:207-210 | A key leaves for lack of room only after at least maxSize distinct other keys were put or hit since it was. |
| LruModel.ExactlyLru | internal/enhancer/cache.go:132-250 | While no cached key was invalidated or found expired since the last Clear, a key is cached if and only if it was put or hit since that Clear and fewer than maxSize distinct other keys were since. |
| LruModel.RecencyRank | internal/enhancer/cache.go:184-200 | The place of a key in the recency list is the number of distinct keys touched since. |
| LruModel.SurvivesPut | internal/enhancer/cache.go:207-210 | Only a Put of an absent key into a full cache removes anything, and only the entry at the back. |
| LruCache.EnhancerCache.Get | internal/enhancer/cache.go:162-188 | The map and the linked list together perform the recency-sequence step: a hit exactly for a cached key stored no longer ago than the TTL, with its value, else a miss, with the counters. |
| LruCache.EnhancerCache.Put | internal/enhancer/cache.go:192-219 | Refreshes in place or evicts from the back until there is room and links a new element at the front. |
| LruCache.EnhancerCache.Invalidate | internal/enhancer/cache.go:223-238 | Removes the listed keys from the map and the list and keeps the order of the others. |
| LruCache.EnhancerCache.Clear | internal/enhancer/cache.go:241-250 | Empties the map, the list and the counters. |
| LruCache.EnhancerCache.EvictLru | internal/enhancer/cache.go:273-282 | Removes the entry at the back from both structures and counts it; does nothing to an empty list. |
| LruCache.EnhancerCache.constructor | internal/enhancer/cache.go:144-157 | Replaces a size or TTL that is not positive by 256 entries or ten minutes. |
| BatchModel.NothingLost | internal/batch/manager.go:96-181 | Under any interleaving of Submits and multi-step Flushes and any client outcomes, each accepted request is exactly once queued, inside a Flush or delivered; every batch is non-empty and within the maximum. |
| BatchModel.FlushAloneQueue | internal/batch/manager.go:131-181 | The steps of an undisturbed Flush add up to one transition of the queue and at most one delivered batch. |
| BatchModel.QueueAfterEffect | internal/batch/manager.go:150-174 | Success removes exactly the oldest prefix; failure leaves the requests in their order. |
| BatchModel.AloneIsFifo | internal/batch/manager.go:131-181 | While nothing interrupts a Flush, Submits included, deliveries followed by the queue are the arrivals in order, through any failures. |
| BatchModel.FlushesDrain | internal/batch/manager.go:131-181 | Enough accepted flushes empty the queue, one full batch at a time. |
| BatchOrder.TicketsMatch | internal/batch/manager.go:96-181 | Tickets that move through every run as the requests do always name the arrival number of the request at their place. |
| BatchOrder.OrderKeptExactly | internal/batch/manager.go:152-171 | Under any overlap of Submits and Flushes the queue is in order of arrival throughout if and only if every overflow returns behind requests that arrived before it and every failed batch in front of requests that arrived after it. |
| BatchOrder.OneFlushOrderExactly | internal/batch/manager.go:131-181 | While flushes do not overlap each other, with Submits at any point, the queue is in order of arrival throughout if and only if no overflow returns to a queue that is not empty. |
| BatchOrder.DeliveryExactly | internal/batch/manager.go:131-181 | While flushes do not overlap each other, with Submits at any point, what was delivered, then what is held, then the queue are the arrivals in order in every state if and only if no overflow meets a queue that is not empty. |
| BatchOrder.LineOfRequests | internal/batch/manager.go:131-181 | When the tickets line up, so do the requests: delivered, held and queued ones make up the arrivals. |
| BatchOrder.OverflowReorders | internal/batch/manager.go:152-161 | A run of one Flush and a late Submit that leaves the overflow behind the later request. |
| BatchOrder.RequeueReorders | internal/batch/manager.go:164-171 | A run of two failing Flushes without any overflow that leaves the later request in front of the earlier one, for every batch size. |
| BatchManagement.BatchManager.Submit | internal/batch/manager.go:96-120 | Queues a normal request, tagged with the tracking ID when it has none of its own; sends an urgent one at once as a batch of one and leaves the queue alone. |
| BatchManagement.BatchManager.Flush | internal/batch/manager.go:131-181 | An undisturbed Flush calls the client with the oldest requests up to the maximum, or not at all for an empty queue, and leaves the specified queue. |
| BatchManagement.BatchManager.PutBack | internal/batch/manager.go:157-159 | Returns the overflow to the back one request at a time, in order. |
| BatchManagement.BatchManager.RequeueFailed | internal/batch/manager.go:166-171 | Returns a failed batch to the front in order. |
| BreakerModel.BreakerSafety | internal/enhancer/circuit.go:36-85 | For any number of interleaved calls: closed exactly when the trailing run of failures is shorter than the limit; half-open means an admitted probe is in flight; each admitted call makes at most 1 + maxRetries client calls and records once. |
| BreakerModel.NeverWedged | internal/enhancer/circuit.go:36-53 | Once no admitted call is in flight, a call asking after the open period is let through. |
| BreakerModel.HalfOpenRefuses | internal/enhancer/circuit.go:49-50 | A half-open breaker refuses every call and stays as it is until a record or a reset. |
| BreakerModel.OpenRefuses | internal/enhancer/circuit.go:39-48 | After a failure opened the breaker, it stays so and refuses every call until the cooldown has passed since that failure, unless it hears of another call or a reset. |
| BreakerModel.OneProbeAtATime | internal/enhancer/circuit.go:44-50 | At most one probe is in flight whenever calls end within the cooldown. |
| BreakerModel.TwoProbes | internal/enhancer/circuit.go:65-74 | For every longer bound there is a run with two probes at once. |
| HybridEngine.CircuitBreaker.Allow | internal/enhancer/circuit.go:36-53 | Admits, opens for a probe after the open period, or refuses. |
| HybridEngine.CircuitBreaker.RecordSuccess | internal/enhancer/circuit.go:56-62 | Closes the breaker and clears the failures. |
| HybridEngine.CircuitBreaker.RecordFailure | internal/enhancer/circuit.go:65-74 | Counts a failure and opens the breaker for the cooldown from the limit on. |
| HybridEngine.CircuitBreaker.ForceClosed | internal/enhancer/circuit.go:78-85 | The manual reset to a fresh breaker. |
| HybridEngine.RetryImprove | internal/enhancer/backoff.go:127-153 | The retry loop stops at the first attempt that answers, fails for good, is the last allowed or is cancelled in its sleep, and reports that attempt. |
| HybridEngine.LoopIsSolo | internal/enhancer/backoff.go:127-153 | The loop is the step system's call run to its verdict with the same number of client calls. |
| HybridEngine.SoloVerdict | internal/enhancer/backoff.go:127-153 | A call makes at least one and at most 1 + maxRetries attempts, all but the last transient failures that were slept on; it succeeds exactly when the last is answered. |
| HybridEngine.Engine.BreakerOf | internal/enhancer/hybrid.go:174-184 | Returns the breaker of a provider, creating a fresh one on first use, and changes no state of any breaker. |
| HybridEngine.EffectOfCall | internal/enhancer/hybrid.go:80-171 | No client call is made exactly when the call is local, cached or refused; at most four are, until one is answered, fails for good or is cancelled; an answer closes the breaker and is cached, a failure is counted and from the limit on opens it for the cooldown; only the mode without fallback reports the error. |
| HybridEngine.EnhanceHybrid | internal/enhancer/hybrid.go:80-171 | One call from start to end: its provider's breaker hears of it exactly once if it was admitted and never if it was local, cached or refused, no other breaker does, and the answer of the last client call is cached exactly on success. |
| BlackboardModel.CompositeKeyInjective | internal/blackboard/blackboard.go:60-63 | Composite keys tell entries apart when namespaces hold no NUL. |
| BlackboardModel.CollidesExactly | internal/blackboard/blackboard.go:60-63 | A pair shares its composite key with another pair if and only if one of its parts holds NUL. |
| BlackboardModel.LogRecovers | internal/blackboard/blackboard.go:83-296 | At every moment of every run of Put, GC, SetTTL, Snapshot and restart, replaying the log yields every live entry and beyond those exactly the keys collected since the last Snapshot or restart, each but for its last SetTTL since it was logged. |
| BlackboardModel.SnapshotThenRestart | internal/blackboard/blackboard.go:195-239 | A restart right after a Snapshot restores memory exactly. |
| BlackboardModel.ReplayOfListing | internal/blackboard/blackboard.go:271-296 | Replaying any listing of the entries, in any order, gives the entries back. |
| BlackboardModel.RestartResurrects | internal/blackboard/blackboard.go:173-183 | A restart brings back what the last Put of each key or a later Snapshot logged, with the TTL and refresh time of then: every live entry and exactly the collected ones, each but for its last SetTTL since. |
| BlackboardModel.RestartExactly | internal/blackboard/blackboard.go:243-296 | A restart changes nothing if and only if nothing is collected and the last SetTTL of every live key since it was logged, if any, gave it the logged TTL and refresh time. |
| BlackboardModel.ShortTtlReturns | internal/blackboard/blackboard.go:243-296 | A run in which a restart undoes the longer TTL of a live entry, and GC then collects it. |
| BlackboardModel.ExpiredReturns | internal/blackboard/blackboard.go:173-183 | A run in which an entry that expired and was collected is back after a restart, still expired. |
| BlackboardModel.VersionCountsPuts | internal/blackboard/blackboard.go:107-113 | While a key is not deleted its version rises by one with each accepted Put, also across restarts. |
| BlackboardModel.CasWinsOnce | internal/blackboard/blackboard.go:90-99 | Of two winning compare-and-swap Puts with the same expected version, the key was deleted in between. |
| BlackboardModel.PutStores | internal/blackboard/blackboard.go:83-134 | A Put that is not refused stores the given namespace, key, value and writer under the next version, with the times and TTL of the source, in memory and as the last line of the log, and changes no other key. |
| BlackboardStore.Blackboard.Put | internal/blackboard/blackboard.go:83-134 | Refuses on a version conflict without a change; else the entry read back has the namespace, key, value and writer given, the next version, now as refresh time, its first time of creation and the given or default TTL, and is appended to the log. |
| BlackboardModel.GetReturnsLatestPut | internal/blackboard/blackboard.go:116-147 | Until a key is put again or deleted, a reader finds the value and writer of the last accepted Put, under the version and creation time it got, also across restarts. |
| BlackboardStore.Blackboard.Gc | internal/blackboard/blackboard.go:173-183 | Removes exactly the expired entries and leaves the log. |
| BlackboardModel.GcRemovesExactly | internal/blackboard/blackboard.go:173-183 | A key survives a collection exactly when it is present and has no TTL or was refreshed no longer ago than that. |
| BlackboardModel.TtlCounts | internal/blackboard/eviction.go:8-20 | After a SetTTL or an accepted Put with a TTL, the key survives a collection exactly until that TTL has passed since. |
| BlackboardStore.Blackboard.SetTtl | internal/blackboard/eviction.go:8-20 | Changes TTL and refresh time of an existing entry without logging; reports whether it exists. |
| BlackboardStore.Blackboard.Snapshot | internal/blackboard/blackboard.go:195-239 | Replaces the log by one line for each entry, in any order; nothing without a state directory. |
| BlackboardStore.Blackboard.Load | internal/blackboard/blackboard.go:271-296 | Reading line by line with later lines winning is the replay of the log. |
| Pareto.DominanceIsStrictOrder | internal/bandit/multiobjective.go:332-363 | Dominance is irreflexive, asymmetric and transitive for any objectives. |
| Pareto.CheckDominates | internal/bandit/multiobjective.go:335-363 | The loop with its early exit decides dominance. |
| Pareto.AssignRanks | internal/bandit/multiobjective.go:367-403 | Terminates with every arm ranked by the length of the longest chain of arms dominating it, and changes nothing but ranks. |
| Pareto.LayersAreChains | internal/bandit/multiobjective.go:365-403 | Peeling off undominated layers assigns exactly the longest-chain lengths. |
| Pareto.PeelStep | internal/bandit/multiobjective.go:372-401 | One round ranks the undominated arms and keeps the state between rounds. |
| Pareto.SharesSumToOne | internal/bandit/multiobjective.go:99-111 | Normalized weights sum to one for any given weights, in both branches, and stay non-negative. |
| Pareto.ScoreIsAverage | internal/bandit/multiobjective.go:302-313 | With non-negative weights the score of an arm lies within any bounds that its means obey, minimized ones turned around. |
| Pareto.ScoreWeighs | internal/bandit/multiobjective.go:99-111 | Two arms that read alike on all objectives but one differ in score by their difference there times its weight over the sum of the weights, or over the number of objectives when that sum is not positive. |
| Pareto.DominatorScores | internal/bandit/multiobjective.go:302-313 | With non-negative weights a dominating arm has at least the scalarized mean of the dominated one. |
| Pareto.FirstIsBest | internal/bandit/multiobjective.go:318-329 | With non-negative weights the head of the sorted list has rank 0 and the best scalarized mean of all arms, not just of its front. |
| Pareto.ObserveMoves | internal/bandit/multiobjective.go:241-254 | An observation keeps the posterior mean strictly between 0 and 1, raises it for a clamped value of at least one half and lowers it for a smaller one. |
| Pareto.PosteriorIsHistory | internal/bandit/multiobjective.go:235-286 | After any values, clamped to [0, 1], the posterior is one plus the values of at least one half and one plus what the others fall short of 1, and the variance times n squared is the sum of squared differences over all pairs. |
| Pareto.MultiObjectiveBandit.constructor | internal/bandit/multiobjective.go:94-130 | Takes the default objectives when none are given, normalizes the weights and starts every posterior at the uniform prior. |
| Pareto.VarianceWithin | internal/bandit/multiobjective.go:279-286 | The variance of rewards clamped to [0, 1] is never negative, so its clamp never fires, and at most one quarter. |
| Pareto.MultiObjectiveBandit.Update | internal/bandit/multiobjective.go:226-261 | Updates exactly the named objectives of one known arm, posterior and running sums, in any order of the rewards map, and ignores unknown names. |
| Pareto.MultiObjectiveBandit.ParetoFront | internal/bandit/multiobjective.go:265-330 | Returns every arm once with its summaries and selections, ranked by longest chain of dominators, sorted by rank and then score. With non-negative weights the first arm has the best score, and every score is in (0, 1) and between any bounds of the arm's means, costs turned around; two arms that differ on one objective differ in score by that difference times the objective's share of the weights. |
| Pareto.MultiObjectiveBandit.Select | internal/bandit/multiobjective.go:134-199 | Selects the first arm of the highest score under any samples and counts that selection and no other; none without arms. |
| Pareto.SampleArm | internal/bandit/multiobjective.go:148-184 | The score of an arm is the weighted sum of its samples, with costs counted a fifth more under a tight budget. |
| Pareto.BudgetReweighs | internal/bandit/multiobjective.go:148-184 | The score to select by is the weighted sum of the samples, under a tight budget with the weight of a minimized cost raised by a fifth. |
| Pareto.SelectionAverages | internal/bandit/multiobjective.go:150-165 | For non-negative weights that add up to one the weighted sum of samples lies within any bounds of the samples, minimized ones turned around. |
| Pareto.SelectionWeighs | internal/bandit/multiobjective.go:150-165 | Changing one sample changes the weighted sum by that objective's weight times the change, with the sign turned for a minimized one. |
| Slope.PairwiseRise | internal/bandit/regret.go:176-199 | The least-squares numerator is the sum over all pairs of points of the products of their coordinate differences. |
| Slope.DenominatorPositive | internal/bandit/regret.go:195-198 | The least-squares denominator is positive from two points on, so the zero guard never fires, and zero before. |
| Slope.SlopeWithin | internal/bandit/regret.go:185-199 | The slope lies within any bounds that all steps of the series obey. |
| Slope.FlatExactly | internal/bandit/regret.go:148-150 | For a series that never falls the slope is zero if and only if nothing was added in the window. |
| Regret.RateWithin | internal/bandit/regret.go:108-122 | The convergence rate of any history of at least two pulls is defined, is never negative, lies between the least and the largest regret of one step of the window of 100, and is zero exactly when nothing was added in it. |
| Regret.ConvergenceRate | internal/bandit/regret.go:176-200 | The loop computes the least-squares slope of the last 100 values, and 0 below two values. |
| Regret.RegretAccounts | internal/bandit/regret.go:125-146 | Contributions add up to n times the optimal mean minus the total reward and to the total regret less the rewards above the best mean; fractions sum to at most one, and to one only without such rewards. |
| Regret.ContribsRegroup | internal/bandit/regret.go:127-130 | Summing contributions arm by arm is summing the unclamped regret pull by pull. |
| Regret.CumulativeSplits | internal/bandit/regret.go:114-123 | Clamped cumulative regret is the unclamped one plus what the rewards above the best mean exceed it by. |
| Regret.ContribExact | internal/bandit/regret.go:129-133 | The clamp on a contribution never fires. |
| Regret.RegretTracker.RecordPull | internal/bandit/regret.go:73-85 | Appends the pull with its step and keeps the per-arm totals equal to sums over the history. |
| Regret.RegretTracker.Best | internal/bandit/regret.go:97-106 | Finds an arm of the largest observed mean, in any order of the map. |
| Regret.RegretTracker.MakeReport | internal/bandit/regret.go:88-171 | The whole report: cumulative series, one breakdown for each pulled arm, optimal arm, rate and totals; empty for no pulls. |
| BaselineModel.PercentileUnique | internal/e2e/baseline.go:189-199 | At most one value has fewer than p in a hundred of the observations below it and at least p in a hundred not above it. |
| Baseline.PercentileFIsPercentile | internal/e2e/baseline.go:190-199 | Indexing a sorted list yields, for every percentage in 1..100, the value with fewer than p in a hundred of the observations below it and at least p in a hundred not above it. |
| Baseline.RankBetween | internal/e2e/baseline.go:193-199 | The rank is the least number that makes up the percentage of the sample, within the sample and at least one. |
| BaselineModel.UnionBetween | internal/e2e/baseline.go:107-121 | The percentile of the union of groups lies between the percentiles of two of the groups. |
| BaselineModel.LowSide | internal/e2e/baseline.go:79-121 | If in every group fewer than p in a hundred observations are below a value, so are fewer than p in a hundred of the union. |
| BaselineModel.HighSide | internal/e2e/baseline.go:79-121 | If in every group at least p in a hundred observations are not above a value, so are at least p in a hundred of the union. |
| BaselineModel.StatsObserved | internal/e2e/baseline.go:95-121 | Every reported percentile is the value of an observation of its group, or of the whole for the aggregate. |
| BaselineModel.PercentilesOrdered | internal/e2e/baseline.go:98-121 | Percentiles grow with the percentage. |
| BaselineModel.BaselineBounds | internal/e2e/baseline.go:95-121 | In every baseline all aggregate percentiles lie between two groups' ones, P50 is at most P95 everywhere, and the sample counts add up to the observations kept. |
| BaselineModel.WindowExactly | internal/e2e/baseline.go:55-66 | The time window is the requested one if and only if the hours are whole or no window is asked for. |
| BaselineModel.RatesWithin | internal/e2e/baseline.go:123-144 | All rates are between zero and one; the verified rate is one exactly when no observation was unverified and failed or in error. |
| BaselineModel.RatesExactly | internal/e2e/baseline.go:123-144 | Each rate is 1, and 0, exactly when all observations, or none, have its mark: idle, verified or not failing, with an error. |
| Baseline.CountRates | internal/e2e/baseline.go:127-144 | The loop computes the completion, verified and error rates. |
| Baseline.BuildBaseline | internal/e2e/baseline.go:54-147 | Yields one entry for each key that occurs, the aggregate and the rates, none of them for no observations kept; of the costs and latencies of every group and of the whole, fewer than 50 and 95 in a hundred are below the reported P50 and P95 and at least that many not above, and each is an observed value. |
| Baseline.Filter | internal/e2e/baseline.go:57-66 | Keeps the eligible observations of the window in order. |
| Baseline.GroupByKey | internal/e2e/baseline.go:83-93 | One group for each key with its values in order of observation. |
| BaselineModel.CountsPermute | internal/e2e/baseline.go:96-97 | What the percentiles depend on is unchanged by sorting. |
| CusumModel.PosIsBest | internal/eval/changepoint.go:69-83 | At every index the recurrence holds the maximum of 0 and the best sum of the drifted signal over stretches ending there. |
| CusumModel.Mirror | internal/eval/changepoint.go:84-91 | The negative side, restarts included, is the positive side of the negated signal. |
| CusumModel.ResetExplains | internal/eval/changepoint.go:62-92 | The recorded restart is the last zero of the sum or the start, and from there the sum is plain addition. |
| CusumModel.PlaceExplains | internal/eval/changepoint.go:111-129 | A point over the threshold is charged to the index from which the larger side rose: its sum is zero there, or the index is the first, positive ever after, and at least 4 at the point. |
| Cusum.ChangeDrifts | internal/eval/changepoint.go:111-156 | A listed change is at such an index, and its significance times the peak is the sum reached. |
| Cusum.ChangeShifts | internal/eval/changepoint.go:130-152 | The means before and after a change, weighed with the lengths of the two sides, give the sum of the series, and it rises exactly when the mean before is not above that of the whole. |
| CusumModel.ExceedsExactly | internal/eval/changepoint.go:120-129 | A point exceeds the threshold if and only if some stretch ending there drifts up or down by it; the magnitude is the larger side. |
| CusumModel.SomePeak | internal/eval/changepoint.go:50-60 | A normalized signal reaches one standard deviation somewhere, and there one of the sums is positive. |
| Cusum.DetectedOnce | internal/eval/changepoint.go:113-134 | Every restart charged with an exceedance is detected. |
| Cusum.TopFive | internal/eval/changepoint.go:158-168 | Reported change points have different places and significance in (0, 1] in descending order, each lies where the side that exceeded the threshold began its rise, they are the most significant ones, at most five, and exist exactly when some point exceeds the threshold. |
| Cusum.Accumulate | internal/eval/changepoint.go:64-93 | One pass fills the four arrays with both sums and their restarts. |
| Cusum.Peak | internal/eval/changepoint.go:95-104 | Finds the largest magnitude of either sum. |
| Cusum.Detect | internal/eval/changepoint.go:111-156 | Lists one change point for each index that is charged with an exceedance, at the first of them, with means before and after and direction. |
| Cusum.DetectChangepoints | internal/eval/changepoint.go:39-169 | The whole detection from the observations, a metric and its name: nothing for fewer than ten observations or a constant metric, else the report above over the normalized values; the guard on the peak never fires. |
| Cusum.MeanStddev | internal/eval/changepoint.go:210-227 | The loops compute the mean and the root of the variance. |
| ParallelScan.Scan | internal/discovery/scanner.go:15-59 | The sequential scan fails exactly when reading fails or a context check does, and otherwise returns one entry for each directory with a .ralph directory or a .ralphrc file, sorted by name, the last as a cancelled refresh left it if the context ended within it. |
| ParallelScan.SortNames | internal/discovery/scanner.go:28-59 | The sorted list names exactly the directories that hold either marker, with what their entry says, in order of their names. |
| ParallelScan.CutExactly | internal/discovery/scanner.go:28-52 | A cancellation inside the last refresh goes unnoticed by the sequential scan and changes its list if and only if that refresh was of a repository and found something else. |
| ParallelScan.SendsNeverBlock | internal/discovery/parallel.go:61-100 | Neither the feeder nor a worker ever finds its channel full. |
| ParallelScan.NeverStuck | internal/discovery/parallel.go:64-113 | A pool without an outcome always has a step to take besides cancellation. |
| ParallelScan.StepDecreases | internal/discovery/parallel.go:64-113 | Every step of any interleaving, cancellation included, decreases a measure. |
| ParallelScan.CountStep | internal/discovery/parallel.go:67-90 | Without cancellation every step keeps the number of copies of each repository, wherever it is. |
| ParallelScan.RunsKeep | internal/discovery/parallel.go:61-123 | Every run keeps the invariant and has a number of steps bounded by the directories and workers. |
| ParallelScan.MatchesScan | internal/discovery/parallel.go:18-123 | Whatever a call with any number of workers returns is exactly the list of the sequential scan, also for a root without directories, unless the directory could not be read or the context was cancelled. |
| Welch.FreedomWithin | internal/eval/ab_runner.go:216-223 | Degrees of freedom are defined whenever some error is positive, lie between the smaller sample's and both samples' together, and reach the upper bound exactly for errors in proportion. |
| Welch.FreedomFormula | internal/eval/ab_runner.go:216-223 | The degrees of freedom times (u^2 q + v^2 p) are (u + v)^2 p q, for squared errors u and v and degrees p and q of the two samples. |
| Welch.ErrorVanishes | internal/eval/ab_runner.go:229-240 | A sample has no squared error exactly when it is constant. |
| Welch.VarianceIsPairs | internal/eval/ab_runner.go:230-240 | The sample variance times n (n - 1) is the sum of squared differences over all pairs. |
| Welch.ThresholdMirrors | internal/eval/ab_runner.go:262-265 | A reflected argument is below the mirrored threshold, so reflection happens at most once. |
| Welch.BetaReflects | internal/eval/ab_runner.go:254-268 | Away from the threshold, the function and the one with swapped parameters and mirrored argument add up to one. |
| Welch.BetaIsQuotient | internal/eval/ab_runner.go:268-318 | Up to the threshold, the function times the continued fraction truncated after the last round is the front factor. |
| Lentz.FirstDenominator | internal/eval/ab_runner.go:276-280 | The continued fraction is only entered where its first denominator is positive. |
| Lentz.DenominatorsPositive | internal/eval/ab_runner.go:261-315 | Wherever the continued fraction is entered, every denominator of every truncation is positive and never less than a fixed share of the one before, whatever the signs of the numerators. |
| Lentz.ForwardIsNested | internal/eval/ab_runner.go:274-312 | While no guard fires, the forward loop holds the truncated fraction, evaluated from the inside out, after every half round. |
| Lentz.LoopIsFraction | internal/eval/ab_runner.go:270-318 | For parameters that add up to at most 10^14 - 3 no guard fires, and the loop returns exactly the continued fraction truncated after its last round. |
| Pade.FractionMatchesSeries | internal/eval/ab_runner.go:281-303 | Truncated after its j-th numerator, the fraction agrees with the hypergeometric series of the incomplete beta function in all coefficients up to the j-th: its denominator times the series is its numerator that far. |
| Pade.FractionIsQuotient | internal/eval/ab_runner.go:281-303 | Numerator and denominator of the truncated fraction are the values at the argument of the polynomials with those coefficients. |
| Pade.Contiguous | internal/eval/ab_runner.go:281-303 | Neighbouring hypergeometric series differ by a third one times the argument and a factor; for the series of the beta function these factors are the numerators of the source. |
| Lentz.ContinuedFraction | internal/eval/ab_runner.go:270-316 | The loop takes rounds until one changes the value by less than the tolerance, at most 200, and returns the value then. |
| Welch.BetaExact | internal/eval/ab_runner.go:254-318 | Directly or after reflecting, the beta function enters its continued fraction only where the loop returns exactly the truncated fraction. |
| Welch.IncompleteBeta | internal/eval/ab_runner.go:254-318 | The method computes the beta function: 0 outside [0, 1], the ends themselves, one reflection above the threshold, else front factor times fraction. |
| Welch.SampleExact | internal/eval/ab_runner.go:200-227 | For two samples of at most 10^14 values together, the p-value of the test rests on an exact truncated fraction. |
| Welch.SampleFreedom | internal/eval/ab_runner.go:216-223 | The degrees of freedom of two samples that are not both constant are defined and lie between the smaller sample's and both samples' together. |
| Welch.TTestConfidence | internal/eval/ab_runner.go:200-227 | Zero for samples below two values or two constant samples; else one minus the beta function at the Welch-Satterthwaite degrees of freedom and the argument given by the means and the errors. |
| Welch.Tail | internal/eval/ab_runner.go:209-226 | For positive error the second zero guard never fires, and the tail is the beta function at the stated degrees of freedom and argument. |
| Welch.Argument | internal/eval/ab_runner.go:244-250 | The argument of the beta function is in (0, 1], and 1 exactly for equal means. |
| Welch.ComputeVariance | internal/eval/ab_runner.go:230-240 | The loop computes the sample variance, and 0 below two values. |
| Pairs.PairsExpand | internal/eval/counterfactual.go:58-59 | Lagrange's identity: n times the sum of squares less the square of the sum is the sum of squared differences over all pairs. |
| Counterfactual.EffectiveWithin | internal/eval/counterfactual.go:58-59 | The effective sample size lies between one and n; it is n exactly for equal weights and one exactly for one observation. |
| Counterfactual.CompletionWithin | internal/eval/counterfactual.go:48-56 | The estimated completion is in [0, 1], one exactly when all and zero exactly when none passed. |
| Counterfactual.CostWithin | internal/eval/counterfactual.go:48-56 | The estimated cost lies within any bounds of the observed costs. |
| Counterfactual.GroupsWeigh | internal/eval/counterfactual.go:32-56 | When passed and failed observations each share one weight and one cost, the estimates are the averages of the two groups in the proportion of those weights times their numbers. |
| Counterfactual.BernoulliVariance | internal/eval/counterfactual.go:61-72 | The weighted variance of the indicator is p(1 - p). |
| Counterfactual.EvaluatePolicy | internal/eval/counterfactual.go:26-87 | For any policy and observations the estimates are the averages, variance and effective size under the clamped propensities, with all the ranges and exact cases above, and the interval is 1.96 standard errors to each side. |
| Counterfactual.IntervalWithin | internal/eval/counterfactual.go:61-79 | The interval contains the estimated rate, is at most 1.96 wide, and is a point exactly for a rate of zero or one. |
| Knapsack.SolveBudgetKnapsack | internal/bandit/budget_knapsack.go:37-96 | One pass over the sorted pairs is a complete run of the greedy process; each assignment has the best quality per cost of all pairs still open and affordable. |
| Knapsack.GreedyIsSound | internal/bandit/budget_knapsack.go:70-93 | Such a run stays within the budget, gives a task at most one arm, the most efficient affordable one, and leaves a task out only when all its arms cost more than is left. |
| Knapsack.GreedyIsEfficient | internal/bandit/budget_knapsack.go:65-93 | Each assignment has at least the quality per cost of every other pair of a task that was still open and affordable at that point. |
| Knapsack.TakeNext | internal/bandit/budget_knapsack.go:75-92 | Taking the next affordable pair of an unassigned task continues the greedy run, although earlier pairs were skipped. |
| Knapsack.Score | internal/bandit/budget_knapsack.go:47-63 | Collects exactly the pairs of positive cost and quality. |
| Ucb.NextPull | internal/bandit/ucb.go:96-107 | Discounting all arms and crediting one is what the next pull does to the explicit weighted sums. |
| Ucb.TotalIsGeometric | internal/bandit/ucb.go:101-106 | The discounted total is a geometric sum, and at least one from the first pull on. |
| Ucb.CountsAreTotal | internal/bandit/ucb.go:96-106 | The discounted counts of the arms add up to the total. |
| Ucb.MeanWithin | internal/bandit/ucb.go:71-71 | A pulled arm has positive discounted count and a discounted mean within the bounds of the rewards. |
| Ucb.DiscountedUCB1.ScoresDefined | internal/bandit/ucb.go:64-74 | With every arm pulled, the logarithm is of at least one and no score divides by zero. |
| Ucb.DiscountedUCB1.Update | internal/bandit/ucb.go:85-108 | After any run of updates the statistics of every arm are the explicit discounted sums over its own pulls; unknown arms are ignored. |
| Ucb.DiscountedUCB1.Select | internal/bandit/ucb.go:49-80 | The first arm never pulled, else one with the highest sum of discounted mean and bonus; none without arms. |
| Ucb.DiscountedUCB1.constructor | internal/bandit/ucb.go:29-45 | Clamps a discount outside (0, 1] to 0.99 and starts empty. |

## Left out

- `internal/distributed/scheduler.go`: its capacity and support claims do not hold of the code; the rest is sums.
- Queue callbacks, logging and the payload fields of a task; prompts, errors and results are numbers that stand for them.
- A caller that submits a task object already held by the queue, or changes one it got from `Claim`.
- Cache keys: hashing and normalization of prompts are opaque, so two prompts with one key are one key here; `Invalidate` gets the list of keys.
- The pointer algorithm of `container/list` itself is not part of this repository; the list here is a ring of elements with the same operations.
- Batch polling, and the scheduler's shutdown, which flushes once.
- `HybridEngine.EnhanceHybrid`: the prompt cache is a flag for a hit and the call whose answer is stored; its own eviction is not modelled.
- `HybridEngine.RetryImprove`: the error text tests and the delays are a three-way outcome and a flag for a cancelled sleep.
- Interleaved file writes of the blackboard: Put and Snapshot are atomic here although the source writes outside the lock; JSON, file errors and watchers.
- `Regret.RegretTracker.MakeReport`: the root of a logarithm in the Bayesian bound is a parameter.
- `Baseline.BuildBaseline`: the group key is given with each observation instead of being joined from title and provider.
- `Welch.TTestConfidence`: the factor in front of the continued fraction, made of logarithms and the gamma function, is a parameter.
- `Pareto.MultiObjectiveBandit.Select`: the Thompson samples are a parameter; the rationale text is not modelled.
- `Knapsack.SolveBudgetKnapsack`: does not model a missing predictor, which yields no assignments; tasks and arms are their positions.
- `Ucb.DiscountedUCB1.Select`: the exploration bonus is a parameter defined for a total of at least one and a positive count.
- Floating-point rounding, the width of Go integers, and overflow.
- Prompt scoring, templates, CLI, TUI, servers, clients and configuration: input and output or heuristics.
