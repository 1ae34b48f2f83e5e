# Verified model of the nof-rep load generators

nof-rep keeps four variants of the SPDK `nvme perf` load generator. Each keeps a fixed number of I/O tasks in
flight on NVMe namespaces and replaces every completed one by a new submission until time runs out, a cap on
the number of I/Os is reached or a namespace disappears. Then it drains and frees everything.

- `perf.c` runs single tasks, with a retry queue, an exact cap and a drain loop.
- `perf_rep.c` sends every logical I/O to R namespaces: a *group* of one main task and R - 1 copies that share
  one buffer and form a barrier. The group goes on, or is released, when the last replica is back.
- `perf_batch.c` and `perf_rep_batch.c` add *pacing*: finished tasks or groups wait in a linked list and leave
  it in batches, controlled by two counters.

The project models these engines, proves what every step keeps and what holds over every run, and ties the
in-place code to the model. `dafny verify dfyconfig.toml` checks all of it.

## How it is built

Each engine is a state machine on values. A *run* is any sequence of events: completions in any order, error
statuses, draining, warm-up resets, retry passes, pacing blocks. An event that cannot happen in a state changes
nothing, so a theorem over all event sequences is a theorem over all interleavings. The device is the
environment: it accepts or rejects a submission, and later hands back any request that is outstanding. Random
draws, clocks and device answers are parameters of the events.

The code that updates fields in place is modelled by classes (`Worker`, `NsWorker`, `Pacer`, `TaskLinks`,
`Ring`, `SglTask`, `MetaConfig`). Their methods have the loops and branches of the program, and their contracts
equate the new state with the step of the state machine, so that every theorem applies to them. Automatic
induction is switched off throughout: every inductive proof is written out.

| file | content |
|---|---|
| `ReplicaGroup`, `ReplicaRuns`, `ReplicaTheorems` | the replica group protocol, its invariant, its theorems |
| `ReplicaScenarios`, `ReplicaIds` | runs given explicitly, and exactly when ids are unique |
| `ReplicaDrain`, `ReplicaWorker` | the drain loop as events; the same engine in place |
| `TaskLifecycle`, `TaskRuns`, `TaskWorker` | the single-task engine: model, theorems, in place |
| `SubmissionLog`, `TaskLog` | the submissions of a run, numbered: offsets, directions, what fails and what drains |
| `Refinement` | every run of the group protocol is a run of the single-task engine |
| `PacedReplica`, `PacedTheorems`, `PacedLog`, `PacedWorker` | the paced replica engine: model, theorems, in place |
| `PacedTasks`, `PacedTaskLaws` | the paced single-task engine with retries |
| `LinkQueue`, `Fifo` | the linked list on the heap, and the queue law |
| `Uring` | the kernel-ring back end |
| `Sgl`, `Lba`, `Workload` | scatter-gather cursor, block addresses, offsets and read share |
| `Association`, `Metadata` | workers and namespaces, the metadata option |
| `Counting`, `Arith` | counting in sequences, a few non-linear facts |

Some state exists for the proofs only: `round`, `released`, `freed` and `outstanding` record what happened, and
the status `Parked` marks a task that the engine holds itself. `depth` is decremented in 64 bits; the proofs
show where it cannot wrap.

## Where code and intention part

- The comment in `perf_rep.c` says that adding the queue depth to an I/O id avoids conflicts. In all runs live
  groups have different ids if and only if the queue depth is 1, or a cap smaller than the queue depth plus `W`
  ends the run before the 32-bit wrap (`IdsUniqueIff`). `W` is the quotient of 2^32 by the queue depth, less one
  if the division is exact. Otherwise slot 0 can wait in flight while another group goes around `W` times and
  gets the id of slot 0 (`CollidingRun`).
- `cleanup_ns_worker_ctx` completes queued tasks that were never submitted. All tasks are freed exactly once,
  but the counters balance, and the depth is 0, if and only if the queue was empty (`CleanupFreesAll`). With
  continue-on-error some run always ends otherwise (`CleanupUnbalancedRun`).
- The pop loop of `perf_rep_batch.c` relies on a non-empty list and on its assertion that the main context does
  not drain. Both hold at every pop of every run if and only if the batch size is 0, or is at most the queue
  depth and divides the cap (`AssertionIffBatchFits`). The options accept any batch size; with 0 nothing is
  ever submitted (`ZeroBatch`). The credit scheme and the barrier between batches do not depend on that: they
  hold in every run until something drains, and afterwards the block stays shut.
- The sequential offset of a replica wraps at the smallest namespace, a random one is drawn over the main
  namespace. Random offsets stay inside every replica's namespace in all runs if and only if the main namespace
  is a smallest one, or the smallest is larger than the largest number the generator returns (`RandomReplicas`).
- With `io_limit` the shared cursor wraps at the smallest of the divided sizes, and on equality only. All
  sequential offsets lie inside all namespaces if and only if the limit does not exceed the smallest size
  (`LimitedCursor`); the runs of the engine stay inside if and only if that holds or the cap does not exceed the
  smallest size (`LimitedRuns`). With sizes 10 and 3 and limit 4, for instance, the cursor never wraps.
- A worker gets all namespaces, as the replica engine needs, if and only if there is one worker or one
  namespace, unless every core is used (`AllNamespaces`).
- A separator after the last pair of the metadata option makes it an error, after the pairs in front of it
  have taken effect (`AcceptedLanguage`, `ParseMetadata`).
- The scatter-gather cursor stands on a piece, as the next callback asserts, if and only if the offset lies
  inside the buffer (`ResetSgl`).

## Model

| member | source | states |
|---|---|---|
| `ReplicaGroup.MinSize` | app/spdk_nvme_perf_rep/perf_rep.c:1612-1622 | the wrap of the shared cursor is one of the namespace sizes and below none of them |
| `ReplicaGroup.DepthPositive` | app/spdk_nvme_perf_rep/perf_rep.c:1768-1769 | a context with an outstanding replica has a positive depth, so the 64-bit decrement of a completion never wraps |
| `ReplicaGroup.ArriveKeeps` | app/spdk_nvme_perf_rep/perf_rep.c:1811-1818 | a returning replica keeps the invariant; the last one leaves its group idle with the barrier rearmed |
| `ReplicaGroup.AdvanceIdKeeps` | app/spdk_nvme_perf_rep/perf_rep.c:1819-1834 | handing out the next id keeps the replicas in agreement and the id tied to slot and round |
| `ReplicaGroup.SubmitKeeps` | app/spdk_nvme_perf_rep/perf_rep.c:1657-1731 | submitting an idle group keeps depths equal to the outstanding replicas, the shared offset inside the smallest namespace, and the cap |
| `ReplicaGroup.ReleaseKeeps` | app/spdk_nvme_perf_rep/perf_rep.c:1738-1756 | releasing an idle group logs it once and disturbs no other group |
| `ReplicaRuns.StepKeeps` | app/spdk_nvme_perf_rep/perf_rep.c:1758-1864 | every event keeps the protocol invariant |
| `ReplicaRuns.EveryRun` | app/spdk_nvme_perf_rep/perf_rep.c:2062-2202 | the protocol invariant holds after every run, whatever the interleaving |
| `ReplicaTheorems.DoubleCount` | app/spdk_nvme_perf_rep/perf_rep.c:1721-1722 | outstanding replicas counted by context equal those the barriers still miss |
| `ReplicaTheorems.Conservation` | app/spdk_nvme_perf_rep/perf_rep.c:1721-1769 | in every run the depths add up to the replicas the live groups wait for, and each is at most the queue depth |
| `ReplicaTheorems.CountersBalance` | app/spdk_nvme_perf_rep/perf_rep.c:1721-1769 | without a warm-up reset, submitted equals completed plus in flight on every context of every run |
| `ReplicaTheorems.WarmupCarry` | app/spdk_nvme_perf_rep/perf_rep.c:2156-2165 | after a warm-up reset the imbalance of the counters stays exactly what was in flight at the reset |
| `ReplicaTheorems.RoundAgreement` | app/spdk_nvme_perf_rep/perf_rep.c:1693-1696 | in every run a live group has one offset, one direction and one id; its barrier counts exactly the replicas that are back; every context is sent one request per round started |
| `ReplicaTheorems.OncePerReplica` | app/spdk_nvme_perf_rep/perf_rep.c:1811-1818 | in every run each replica of each group has come back exactly once for every completed round, and in the current one if and only if it is not in flight, so it goes out once per round |
| `ReplicaTheorems.DrainSafety` | app/spdk_nvme_perf_rep/perf_rep.c:1828-1832 | once one context drains, no continuation submits anything or restarts a group, and each completion lowers the total depth by one |
| `ReplicaTheorems.DrainComplete` | app/spdk_nvme_perf_rep/perf_rep.c:2187-2202 | all depths are zero if and only if every group has been released exactly once |
| `ReplicaTheorems.DrainCanFinish` | app/spdk_nvme_perf_rep/perf_rep.c:2187-2202 | from every draining state exactly as many completions as requests in flight release everything |
| `ReplicaTheorems.ReleasedLast` | app/spdk_nvme_perf_rep/perf_rep.c:1734-1756 | a group's shared buffer goes only with its own last outstanding replica, never while another one is in flight |
| `ReplicaTheorems.SequentialSweep` | app/spdk_nvme_perf_rep/perf_rep.c:1680-1685 | in every sequential run the n-th round submitted uses offset n modulo the smallest size on all replicas, and offset n if that size is 0 |
| `ReplicaTheorems.ExactCap` | app/spdk_nvme_perf_rep/perf_rep.c:1727-1729 | no run submits more than the cap on any namespace |
| `ReplicaTheorems.CapIsReached` | app/spdk_nvme_perf_rep/perf_rep.c:1727-1729 | a run that only the cap ends submits exactly the cap on every namespace and, once drained, has completed exactly that |
| `ReplicaTheorems.SubmitSites` | app/spdk_nvme_perf_rep/perf_rep.c:1673 | a step that submits found no context draining; a submission that makes one context drain makes all of them drain |
| `ReplicaTheorems.NewDrain` | app/spdk_nvme_perf_rep/perf_rep.c:1727-1729 | without a hotplug or the end of time, contexts start to drain all together |
| `ReplicaTheorems.DrainsIff` | app/spdk_nvme_perf_rep/perf_rep.c:1727-1856 | in every run a context drains if and only if it was stopped itself, by time or by its own namespace going away, or exactly the cap has been submitted to it |
| `ReplicaIds.IdValue` | app/spdk_nvme_perf_rep/perf_rep.c:1819-1823 | ids are never 0 and fit 32 bits; below the wrap the id is slot + 1 + round times queue depth |
| `ReplicaIds.IdInjective` | app/spdk_nvme_perf_rep/perf_rep.c:1819-1825 | below the wrap two ids are equal if and only if slot and round are |
| `ReplicaIds.IdsCollideAfterWrap` | app/spdk_nvme_perf_rep/perf_rep.c:1819-1825 | for every queue depth of at least 2 a slot other than 0 gets the first id of slot 0 after the number of rounds that reaches the wrap |
| `ReplicaIds.IdsUnique` | app/spdk_nvme_perf_rep/perf_rep.c:1825-1833 | in every run live groups that have not wrapped carry different, non-zero ids |
| `ReplicaIds.IdLaw` | app/spdk_nvme_perf_rep/perf_rep.c:1819-1833 | in every run a replica that has come back n times and is in flight carries the id of round n, and keeps it until the rest of the round is back |
| `ReplicaIds.RoundBound` | app/spdk_nvme_perf_rep/perf_rep.c:1727-1833 | with a cap, a live group of any run has completed at most as many rounds as the cap exceeds the queue depth |
| `ReplicaIds.CollidingRun` | app/spdk_nvme_perf_rep/perf_rep.c:1819-1833 | unless the cap forbids it, a run, given explicitly, in which two groups are in flight with one id |
| `ReplicaIds.IdsUniqueIff` | app/spdk_nvme_perf_rep/perf_rep.c:1819-1833 | in all runs live groups have different ids if and only if the queue depth is 1 or the cap ends the run before the wrap |
| `ReplicaScenarios.GoAround` | app/spdk_nvme_perf_rep/perf_rep.c:1758-1837 | as far as the cap allows, any group can complete any number of rounds while all the others stay in flight |
| `ReplicaWorker.RepOrder` | app/spdk_nvme_perf_rep/perf_rep.c:1961-1975 | the replica list names every context once, the main one first or, on request, last, the copies in context order |
| `ReplicaWorker.Worker.constructor` | app/spdk_nvme_perf_rep/perf_rep.c:2062-2105 | a worker starts in the initial state |
| `ReplicaWorker.Worker.GetMinSizeInIos` | app/spdk_nvme_perf_rep/perf_rep.c:1612-1622 | the loop finds the smallest size |
| `ReplicaWorker.Worker.SubmitReplicas` | app/spdk_nvme_perf_rep/perf_rep.c:1693-1730 | the loop submits each replica exactly once, in list order, with one offset and direction, and touches nothing else |
| `ReplicaWorker.Worker.SubmitSingleIoRep` | app/spdk_nvme_perf_rep/perf_rep.c:1657-1731 | in place, a submission is the atomic round of the protocol, and the requests leave in list order |
| `ReplicaWorker.Worker.ArriveAtBarrier` | app/spdk_nvme_perf_rep/perf_rep.c:1768-1818 | counts the replica back and reports whether it was the last |
| `ReplicaWorker.Worker.HandOutId` | app/spdk_nvme_perf_rep/perf_rep.c:1819-1834 | the scan reports whether no context drains, and then every replica has the new id |
| `ReplicaWorker.Worker.RepTaskRelease` | app/spdk_nvme_perf_rep/perf_rep.c:1738-1756 | both buffers, every iovec array and every task are freed exactly once, the main task last |
| `ReplicaWorker.Worker.TaskComplete` | app/spdk_nvme_perf_rep/perf_rep.c:1758-1837 | the completion in place is the completion of the protocol, and keeps the invariant |
| `ReplicaWorker.Worker.AllocateGroup` | app/spdk_nvme_perf_rep/perf_rep.c:1958-1975 | the allocation loop builds the replica list in the order above, all tasks with one id |
| `ReplicaWorker.Worker.SubmitIoRep` | app/spdk_nvme_perf_rep/perf_rep.c:1947-1979 | allocating and submitting group by group is the start of a run; no group finds a context draining |
| `ReplicaDrain.PollEffect` | app/spdk_nvme_perf_rep/perf_rep.c:2195-2197 | while something drains, a poll takes out of flight exactly the slots it hands back, on its own context only, and the depth falls by the number of different ones that were outstanding |
| `ReplicaDrain.PassEffect` | app/spdk_nvme_perf_rep/perf_rep.c:2188-2201 | a pass leaves all contexts draining, puts nothing new in flight, and leaves all contexts empty if and only if it hands back, per context, every slot outstanding there |
| `ReplicaWorker.Worker.CheckIo` | app/spdk_nvme_perf_rep/perf_rep.c:2195-2197 | every replica handed back is completed: none of those slots is outstanding on the context afterwards, and its depth has fallen by the number of different ones that were |
| `ReplicaWorker.Worker.DrainOne` | app/spdk_nvme_perf_rep/perf_rep.c:2190-2199 | a turn marks the context and polls it only if something is in flight, which is as good as always polling it |
| `ReplicaWorker.Worker.DrainPass` | app/spdk_nvme_perf_rep/perf_rep.c:2188-2201 | though it looks at the contexts one by one, a pass counts exactly those with something in flight at its end; none if and only if it handed back everything outstanding, and if and only if every group has been released, once |
| `ReplicaWorker.Worker.DrainLoop` | app/spdk_nvme_perf_rep/perf_rep.c:2187-2202 | the loop ends if and only if some pass hands back, per context, every slot then outstanding there, so in particular if some pass does for those outstanding at the start; then every group has been released exactly once |
| `TaskLifecycle.SubmitKeeps` | app/spdk_nvme_perf/perf.c:1569-1627 | a submission, accepted or rejected, keeps each task in exactly one place |
| `TaskLifecycle.CompleteKeeps` | app/spdk_nvme_perf/perf.c:1629-1692 | a completion keeps each task in exactly one place, whether it is freed or goes out again |
| `TaskLifecycle.AccountKeeps` | app/spdk_nvme_perf/perf.c:1638-1639 | a completed task was counted, so the depth does not wrap |
| `TaskLifecycle.RetryPassKeeps` | app/spdk_nvme_perf/perf.c:1894-1909 | a retry pass keeps each task in exactly one place, across rejections and draining in the middle |
| `TaskRuns.EveryRun` | app/spdk_nvme_perf/perf.c:1880-1985 | the task invariant holds after every run |
| `TaskRuns.TaskPartition` | app/spdk_nvme_perf/perf.c:1606-1622 | in every run each task is in flight, queued once or freed once, the three sizes add up to the allocated tasks, and accepted submissions respect the cap |
| `TaskRuns.NothingLost` | app/spdk_nvme_perf/perf.c:1606-1618 | with continue-on-error nothing fails and in flight plus queued make up all tasks until draining; without it the queue stays empty and a missing task means draining or a failed status |
| `TaskRuns.DrainSafety` | app/spdk_nvme_perf/perf.c:1678-1683 | once the context drains no continuation submits or retries; exactly the tasks that complete are freed, in that order |
| `TaskRuns.RetryOrder` | app/spdk_nvme_perf/perf.c:1894-1909 | a pass attempts a prefix of the queue once each, stops only by draining, leaves rejected then untouched tasks in the old order, and draws one offset per attempt |
| `TaskRuns.RetryDraining` | app/spdk_nvme_perf/perf.c:1902-1906 | what a draining pass has left goes back to the queue unchanged and in order |
| `TaskRuns.CarryFixed` | app/spdk_nvme_perf/perf.c:1620-1639 | without a warm-up reset no run changes completed plus in flight minus submitted |
| `TaskRuns.WarmupCarry` | app/spdk_nvme_perf/perf.c:1936-1947 | after a warm-up reset the imbalance of the counters stays what was in flight at the reset |
| `TaskRuns.CleanupFreesAll` | app/spdk_nvme_perf/perf.c:1761-1771 | after cleanup every task has been freed exactly once; counters still balance, and the depth is 0, if and only if the queue was empty |
| `TaskRuns.CleanupUnbalancedRun` | app/spdk_nvme_perf/perf.c:1761-1771 | with continue-on-error some run ends with every task queued, and its cleanup leaves the counters unbalanced and the depth wrapped |
| `TaskLog.OffsetLaw` | app/spdk_nvme_perf/perf.c:1579-1597 | in every run, rejections and retry passes counted, a task whose latest submission was the n-th of the context is at offset n modulo the size in sequential mode and at what was drawn in the others, has the direction its roll decides, is in flight only if that submission was accepted and queued only if it was rejected |
| `TaskLog.FailedIff` | app/spdk_nvme_perf/perf.c:1606-1716 | in every run a context has failed if and only if continue-on-error is off and an error status was seen or a submission rejected |
| `TaskLog.DrainsIff` | app/spdk_nvme_perf/perf.c:1624-1714 | in every run a context drains if and only if time was up, a status said that the namespace is gone, or exactly the cap has been submitted; no other error status drains it |
| `TaskWorker.NsWorker.constructor` | app/spdk_nvme_perf/perf.c:1754-1759 | a context starts in the initial state |
| `TaskWorker.NsWorker.SubmitSingleIo` | app/spdk_nvme_perf/perf.c:1569-1627 | the submission in place is the submission of the model, in all three outcomes |
| `TaskWorker.NsWorker.TaskComplete` | app/spdk_nvme_perf/perf.c:1629-1692 | the completion in place is the completion of the model |
| `TaskWorker.NsWorker.IoComplete` | app/spdk_nvme_perf/perf.c:1694-1719 | an error status marks or drains the context, only without continue-on-error, before the task completes |
| `TaskWorker.NsWorker.SubmitIo` | app/spdk_nvme_perf/perf.c:1738-1752 | the allocation loop is the start of a run; no task finds the context draining |
| `TaskWorker.NsWorker.RetryQueued` | app/spdk_nvme_perf/perf.c:1894-1909 | the swap loop ends, and is the retry pass of the model |
| `TaskWorker.NsWorker.CleanupNsWorkerCtx` | app/spdk_nvme_perf/perf.c:1761-1771 | the cleanup loop ends, and is the cleanup of the model |
| `Refinement.SubmitRefines` | app/spdk_nvme_perf_rep/perf_rep.c:1657-1731 | a round sent to all replicas looks like one accepted submission of a single task |
| `Refinement.ArriveStutters` | app/spdk_nvme_perf_rep/perf_rep.c:1811-1814 | a replica that is not the last changes nothing that the single-task engine can see |
| `Refinement.DeliverRefines` | app/spdk_nvme_perf_rep/perf_rep.c:1758-1837 | the last replica of a round looks like the completion of a single task, resubmitted or freed alike |
| `Refinement.Simulation` | app/spdk_nvme_perf_rep/perf_rep.c:1657-1837 | every run of the group protocol maps to a run of the single-task engine with the same offsets, directions, frees, submissions, draining and cursor |
| `Refinement.LiveGroupsAreDepth` | app/spdk_nvme_perf/perf.c:1620 | live groups are exactly the queue depth of the single-task engine |
| `Refinement.RoundsAreCompletions` | app/spdk_nvme_perf/perf.c:1639 | the single-task engine completes as many tasks as the groups complete rounds |
| `PacedReplica.CreditKeeps` | app/spdk_nvme_perf_rep_batch/perf_rep_batch.c:1845-1880 | while the cap has room for whole batches every event keeps the credit scheme |
| `PacedReplica.PaceEffect` | app/spdk_nvme_perf_rep_batch/perf_rep_batch.c:2195-2209 | a pacing block that submits takes one whole batch from the front of the list, also when the cap is met on the way, and something drains afterwards if and only if the cap is met |
| `PacedReplica.ShutKeeps` | app/spdk_nvme_perf_rep_batch/perf_rep_batch.c:1862-1867 | once a context drains it does in every later state, with the list and both counters as they were |
| `PacedReplica.StepKeeps` | app/spdk_nvme_perf_rep_batch/perf_rep_batch.c:1845-1880 | whatever the cap, every event keeps the credit scheme or leaves the pacing block shut |
| `PacedReplica.EveryRun` | app/spdk_nvme_perf_rep_batch/perf_rep_batch.c:2114-2214 | in every run, whatever the cap, the credit scheme holds until a context drains and the block is shut from then on |
| `PacedReplica.PopLoopKeeps` | app/spdk_nvme_perf_rep_batch/perf_rep_batch.c:2196-2206 | a batch with room below the cap is popped in list order, and only its last submission can start draining |
| `PacedTheorems.CreditInvariant` | app/spdk_nvme_perf_rep_batch/perf_rep_batch.c:1869-1878 | while nothing drains, listed groups plus groups out make up the queue depth, and the two counters differ by the groups out |
| `PacedTheorems.QuietIffAllPending` | app/spdk_nvme_perf_rep_batch/perf_rep_batch.c:1869-1878 | all groups are listed if and only if no request is in flight on any namespace |
| `PacedTheorems.BatchBarrier` | app/spdk_nvme_perf_rep_batch/perf_rep_batch.c:2195-2209 | a step submits only if it is a pacing block that finds every replica of every group back, and then one whole batch from the front |
| `PacedTheorems.BatchesNeverOverlap` | app/spdk_nvme_perf_rep_batch/perf_rep_batch.c:2195-2209 | in every run nothing is submitted while a request of an earlier batch is in flight |
| `PacedTheorems.NeverStuck` | app/spdk_nvme_perf_rep_batch/perf_rep_batch.c:2195-2214 | with nothing in flight and nothing draining, two pacing blocks send a batch |
| `PacedTheorems.PacedDrainSafety` | app/spdk_nvme_perf_rep_batch/perf_rep_batch.c:1862-1867 | once a context drains, even in the middle of a batch, the list freezes and nothing more is submitted in any continuation |
| `PacedTheorems.ListRun` | app/spdk_nvme_perf_rep_batch/perf_rep_batch.c:2197-2203 | over a whole run the list is a queue of pushes and whole batches that never asks for more than it holds |
| `PacedTheorems.PacedBoundedWait` | app/spdk_nvme_perf_rep_batch/perf_rep_batch.c:2195-2209 | a listed group leaves in list order, in the batch its position fixes, within ceil(queue depth / batch size) batches |
| `PacedTheorems.ReachBatches` | app/spdk_nvme_perf_rep_batch/perf_rep_batch.c:2195-2209 | any number of whole batches below the cap can be sent and completed |
| `PacedTheorems.UnsafeRun` | app/spdk_nvme_perf_rep_batch/perf_rep_batch.c:2196-2206 | a cap the batch size does not divide is met in the middle of a batch, by a run given explicitly |
| `PacedTheorems.SafeIffRoom` | app/spdk_nvme_perf_rep_batch/perf_rep_batch.c:2196-2206 | the pops of a block are safe if and only if the cap leaves room for the batch |
| `PacedTheorems.OversizedRun` | app/spdk_nvme_perf_rep_batch/perf_rep_batch.c:2196-2206 | a batch size above the queue depth fails in the first pacing block |
| `PacedTheorems.ZeroBatch` | app/spdk_nvme_perf_rep_batch/perf_rep_batch.c:2196-2209 | with batch size 0 no run ever submits anything |
| `PacedTheorems.AssertionIffBatchFits` | app/spdk_nvme_perf_rep_batch/perf_rep_batch.c:2196-2206 | every pop of every run finds an entry and a main context that does not drain, if and only if the batch size is 0, or is at most the queue depth and divides the cap |
| `PacedLog.PacedIds` | app/spdk_nvme_perf_rep_batch/perf_rep_batch.c:1853-1867 | in every paced run all replicas of a live group that was listed n times again carry the id of round n, below the wrap slot + 1 + n times queue depth |
| `PacedLog.PacedOffsets` | app/spdk_nvme_perf_rep_batch/perf_rep_batch.c:1705-1726 | in every paced run the n-th round popped is at n modulo the smallest size, or where it was drawn, with the direction its roll decides, on all replicas of the group that was popped |
| `PacedLog.PacedCounters` | app/spdk_nvme_perf_rep_batch/perf_rep_batch.c:1755-1803 | in every paced run, draining or not, each depth counts the groups with a request out on the context, and without a reset submitted equals completed plus in flight |
| `PacedLog.PacedWarmupCarry` | app/spdk_nvme_perf_rep_batch/perf_rep_batch.c:2228-2240 | after a warm-up reset of a paced run the imbalance stays what was in flight at the reset |
| `PacedLog.PacedDrainLoop` | app/spdk_nvme_perf_rep_batch/perf_rep_batch.c:2259-2274 | however the main loop ended, the drain loop submits nothing, leaves the list alone and keeps every group in order |
| `PacedLog.PacedDrainComplete` | app/spdk_nvme_perf_rep_batch/perf_rep_batch.c:2259-2274 | nothing is in flight if and only if every group has been released, once, or waits in the list |
| `PacedLog.PacedDrainsIff` | app/spdk_nvme_perf_rep_batch/perf_rep_batch.c:1761-1899 | in the main loop a context drains if and only if its own namespace is gone or the cap is reached |
| `PacedWorker.Pacer.constructor` | app/spdk_nvme_perf_rep_batch/perf_rep_batch.c:3978-3980 | the list is the sentinel alone, the counters are 0 |
| `PacedWorker.Pacer.SubmitIoRep` | app/spdk_nvme_perf_rep_batch/perf_rep_batch.c:1990-2031 | the allocation loop lists every group once and submits none |
| `PacedWorker.Pacer.TaskComplete` | app/spdk_nvme_perf_rep_batch/perf_rep_batch.c:1792-1880 | the completion in place, pushing onto the heap list, is the completion of the model and keeps the credit scheme |
| `PacedWorker.Pacer.PopBatch` | app/spdk_nvme_perf_rep_batch/perf_rep_batch.c:2196-2206 | the loop dereferences no null entry; the assertion stops it if and only if the pops of the batch are not all safe, and otherwise it is the loop of the model |
| `PacedWorker.Pacer.PacingBlock` | app/spdk_nvme_perf_rep_batch/perf_rep_batch.c:2195-2214 | the block in place is stopped by the assertion if and only if the cap leaves less room than a batch, and otherwise is the block of the model and keeps the credit scheme |
| `PacedTasks.WaitingOrBusy` | app/spdk_nvme_perf_batch/perf_batch.c:1726-1735 | every allocated task waits in the list, is in flight, is in a retry queue or has been freed, and none is freed before draining |
| `PacedTasks.StepKeeps` | app/spdk_nvme_perf_batch/perf_batch.c:1950-2000 | every event keeps each task in one place, and keeps the credit scheme until a context drains |
| `PacedTasks.CreditWithRetry` | app/spdk_nvme_perf_batch/perf_batch.c:1642-1658 | in every state of every run in which no context drains, tasks in flight plus tasks in retry queues equal the difference of the counters, across every rejected and retried submission, and the list holds a whole batch when one is due |
| `PacedTaskLaws.TaskPlaces` | app/spdk_nvme_perf_batch/perf_batch.c:1642-1735 | in every run, draining included, each task is in exactly one of in flight, retry queue, pacing list and freed, and the places add up |
| `PacedTaskLaws.DrainLaw` | app/spdk_nvme_perf_batch/perf_batch.c:1714-1735 | while a context drains no step lists a task of it; a completion on it changes neither the list nor the counter of finished tasks and frees exactly its task |
| `PacedTaskLaws.DrainRun` | app/spdk_nvme_perf_batch/perf_batch.c:1714-1735 | over every continuation the tasks freed on a draining context are exactly its completed ones, in order, and none of its tasks enters the list |
| `PacedTaskLaws.DrainsIff` | app/spdk_nvme_perf_batch/perf_batch.c:1661-1760 | in every run a context drains if and only if it was stopped itself or has reached its cap |
| `PacedTaskLaws.ListRun` | app/spdk_nvme_perf_batch/perf_batch.c:1984-1991 | over every run the list is a queue: listed and pushed tasks are the popped and still listed ones, in order |
| `PacedTaskLaws.OffsetLaw` | app/spdk_nvme_perf_batch/perf_batch.c:1614-1640 | in every run the n-th submission on a context, popped or retried, accepted or not, leaves its task at offset n modulo the size, or where it was drawn, with the direction its roll decides |
| `PacedTaskLaws.CountersBalance` | app/spdk_nvme_perf_batch/perf_batch.c:1656-1675 | without a reset submitted equals completed plus in flight on every context, draining or not |
| `PacedTaskLaws.WarmupCarry` | app/spdk_nvme_perf_batch/perf_batch.c:2014-2024 | after a warm-up reset the imbalance stays what was in flight at the reset |
| `LinkQueue.TaskLinks.constructor` | app/spdk_nvme_perf_rep_batch/perf_rep_batch.c:3978-3980 | the empty list has its tail at the sentinel |
| `LinkQueue.TaskLinks.Push` | app/spdk_nvme_perf_rep_batch/perf_rep_batch.c:1872-1876 | appends to the contents |
| `LinkQueue.TaskLinks.Pop` | app/spdk_nvme_perf_rep_batch/perf_rep_batch.c:2197-2203 | takes the first of the contents; the tail is the sentinel again if and only if the list is empty |
| `Fifo.FifoLaw` | app/spdk_nvme_perf_rep_batch/perf_rep_batch.c:2195-2206 | what was listed and pushed is what was popped and is still listed, in order |
| `Fifo.BatchOfIsQuotient` | app/spdk_nvme_perf_rep_batch/perf_rep_batch.c:2196-2206 | the batch that takes position p is the quotient of p by the batch size |
| `Fifo.BoundedWait` | app/spdk_nvme_perf_rep_batch/perf_rep_batch.c:2196-2206 | an entry leaves in exactly that batch, whatever is pushed behind it |
| `Uring.Ring.constructor` | app/spdk_nvme_perf/perf.c:578-593 | both counters start at 0 on a context that has submitted nothing, and the completion array has room for the queue depth |
| `Uring.Ring.UringSubmitIo` | app/spdk_nvme_perf/perf.c:501-523 | a request is counted as prepared if and only if the ring has an entry left |
| `Uring.Ring.SubmitSingleIo` | app/spdk_nvme_perf/perf.c:1569-1627 | a submission, accepted or rejected, leaves the difference of prepared requests and depth unchanged |
| `Uring.Ring.SubmitIo` | app/spdk_nvme_perf/perf.c:1738-1752 | starting all tasks keeps prepared plus in-kernel requests equal to the depth |
| `Uring.Ring.RetryQueued` | app/spdk_nvme_perf/perf.c:1894-1909 | a retry pass between two polls keeps that equality, across rejections and draining in the middle |
| `Uring.CqeEffect` | app/spdk_nvme_perf/perf.c:549-568 | after a completion the task is in flight and prepared again, with the depth as it was, if and only if the context does not drain and the submission is accepted, otherwise the depth is one less; both directions of when the context has failed and when it drains |
| `Uring.RoundRetries` | app/spdk_nvme_perf/perf.c:1894-1909 | a round whose retries are all accepted empties the retry queue and prepares as many requests |
| `Uring.Ring.CheckIo` | app/spdk_nvme_perf/perf.c:525-571 | the poll hands over what is prepared and delivers every completion once, or changes only the status if the kernel refuses; prepared plus in-kernel requests equal the depth before and after; the peek fits the array |
| `Uring.Ring.Deliver` | app/spdk_nvme_perf/perf.c:549-568 | the loop delivers the completions in order; inside it the undelivered ones make up the difference between the two counts |
| `Uring.Ring.DeliverOne` | app/spdk_nvme_perf/perf.c:549-568 | one completion in place has exactly the effect above, touches its own task only, and moves prepared minus depth by one |
| `Uring.Ring.WorkFn` | app/spdk_nvme_perf/perf.c:1880-1985 | a whole run of retry passes, polls, resets and drains has the effect of its rounds, and after every round prepared plus in-kernel requests equal the queue depth |
| `Uring.CompletionEffect` | app/spdk_nvme_perf/perf.c:1629-1692 | a completion lowers the depth by one unless the task is accepted again, and touches no other task |
| `Sgl.SglTask.constructor` | app/spdk_nvme_perf/perf.c:451-474 | the pieces cover the buffer exactly, in order, and their number fits a signed 32-bit integer |
| `Sgl.SglTask.ResetSgl` | app/spdk_nvme_perf/perf.c:415-430 | the cursor is on a piece if and only if the offset is inside the buffer, and then it is quotient and remainder |
| `Sgl.SglTask.NextSge` | app/spdk_nvme_perf/perf.c:432-449 | hands out the rest of the piece under the cursor and moves to the next |
| `Sgl.SglTask.Gather` | app/spdk_nvme_perf/perf.c:415-449 | reset followed by next calls yields exactly the bytes from the offset to the end, in order, in non-empty pieces of at most one unit |
| `Sgl.BelowCount` | app/spdk_nvme_perf/perf.c:458 | the rounded-up quotient is the least number of pieces that covers the buffer |
| `Lba.InsideNamespace` | app/spdk_nvme_perf/perf.c:1373-1413 | an I/O below the size ends inside the namespace, also when sectors do not divide I/Os |
| `Lba.NothingWasted` | app/spdk_nvme_perf/perf.c:1412-1413 | the blocks of an I/O cover it up to less than a sector, and one more I/O than the size does not fit |
| `Lba.SideBySide` | app/spdk_nvme_perf/perf.c:910 | I/Os stand side by side from block 0 on |
| `Lba.DisjointBlocks` | app/spdk_nvme_perf/perf.c:910 | I/Os at different offsets touch different blocks |
| `Lba.ReplicasInside` | app/spdk_nvme_perf_rep/perf_rep.c:936 | in every sequential run every replica ends inside its own namespace, though sizes and sectors differ |
| `Lba.RandomReplicas` | app/spdk_nvme_perf_rep/perf_rep.c:1678-1679 | random offsets stay inside every replica's namespace in all runs if and only if the main namespace is a smallest one or the smallest exceeds the largest draw |
| `Lba.OutsideRun` | app/spdk_nvme_perf_rep/perf_rep.c:1678-1679 | otherwise a run, given explicitly and with a draw the generator can return, aims a replica past its namespace |
| `Lba.LimitedMin` | app/spdk_nvme_perf_rep_batch/perf_rep_batch.c:1646-1655 | the shared cursor wraps at the quotient of the smallest size by the limit |
| `Lba.LimitedCursor` | app/spdk_nvme_perf_rep_batch/perf_rep_batch.c:1487 | every offset of the sequential cursor is below every size if and only if the limit does not exceed the smallest size |
| `Lba.LimitedFailingRun` | app/spdk_nvme_perf_rep_batch/perf_rep_batch.c:1705-1719 | otherwise, and if the cap exceeds the smallest size, a run, given explicitly, leaves the smallest namespace |
| `Lba.LimitedRuns` | app/spdk_nvme_perf_rep_batch/perf_rep_batch.c:1487 | in all runs every replica stays inside its namespace if and only if the limit or a cap does not exceed the smallest size |
| `Workload.CursorIsRemainder` | app/spdk_nvme_perf/perf.c:1584-1587 | the cursor visits all offsets in turn: after n submissions it is n modulo the size |
| `Workload.ReadShare` | app/spdk_nvme_perf/perf.c:1592-1597 | of any hundred consecutive rolls exactly the configured percentage read |
| `Workload.ReadIff` | app/spdk_nvme_perf/perf.c:1592-1597 | all three branches are one rule: the roll modulo 100 is below the percentage |
| `Association.Associate` | app/spdk_nvme_perf/perf.c:3290-3339 | the default pairs are the two round-robin walks; with every core, each worker is paired with every namespace once, worker after worker in the order of the list |
| `Association.PairAt` | app/spdk_nvme_perf/perf.c:3317-3336 | the i-th default pair is namespace i modulo their number with worker i modulo theirs |
| `Association.CoversAll` | app/spdk_nvme_perf/perf.c:3317-3336 | as many pairs as the longer list has elements, all different, no worker and no namespace left out |
| `Association.Balanced` | app/spdk_nvme_perf/perf.c:3298-3304 | two workers differ by at most one namespace and two namespaces by at most one worker |
| `Association.AllNamespaces` | app/spdk_nvme_perf/perf.c:3298-3304 | a worker gets all namespaces if and only if there is one worker or one namespace |
| `Association.PosIsRemainder` | app/spdk_nvme_perf/perf.c:3326-3334 | stepping to the next element and back to the first is the remainder |
| `Metadata.ParseOfRender` | app/spdk_nvme_perf/perf.c:2479-2524 | parsing what well-formed pairs render to gives back exactly those pairs |
| `Metadata.RenderOfParse` | app/spdk_nvme_perf/perf.c:2479-2524 | every accepted text is the rendering of the pairs that were found in it |
| `Metadata.AcceptedLanguage` | app/spdk_nvme_perf/perf.c:2526-2544 | a text is accepted if and only if it is such a rendering, buffer limits and separators included |
| `Metadata.FlagsMeaning` | app/spdk_nvme_perf/perf.c:2546-2560 | a flag is set afterwards if and only if it was set before or some pair sets it |
| `Metadata.ContainsIff` | app/spdk_nvme_perf/perf.c:2551-2559 | a check name is found if and only if the value is some text, the name, and some text |
| `Metadata.OrderIrrelevant` | app/spdk_nvme_perf/perf.c:2546-2560 | neither the order of the pairs nor repeating one makes a difference |
| `Metadata.MetaConfig.ParseMetadata` | app/spdk_nvme_perf/perf.c:2526-2567 | the return code tells whether the whole text was accepted, and the pairs in front of an error take effect all the same |

## Left out

- A rejected submission of a single replica in `perf_rep.c` and `perf_rep_batch.c`: the retry path there passes an uninitialised offset, links a task into two lists through one field and frees the shared buffer once per replica, so it has no defined behaviour to model. Every replica is accepted in the replica engines; failure and retry are modelled where they are sound, in `perf.c` and `perf_batch.c`.
- More than one worker thread on the paced engines: the list and the two counters are unprotected globals there, so one worker is modelled. The other engines keep all their state per worker.
- A replica number different from the number of contexts of a worker: `AllNamespaces` says when the two agree.
- The successor that `rep_task_release` reads from a task it has just freed: the list is modelled as walked before the frees.
- The `next` field of a new list sentinel, which the program leaves uninitialised: the list starts empty.
- The timing of `judge_if_send`, the end of the run and the warm-up: a pacing block, a drain or a reset may come at any point of a run.
- Groups and tasks still in the pacing list when the program exits: the program never frees them.
- Pacing in `perf_batch.c` without continue-on-error, where a rejected task is freed and its credit never comes back.
- The I/O ids of the single-task engines, which only exist in builds that log latencies.
- PacedTasks.CreditWithRetry: needs the batch to be at most the allocated tasks; the options do not enforce it. The loop of this block is modelled on values; `PacedWorker` has the same block in place.
- Lba.LimitedCursor: `io_limit` 0 divides by zero when the namespace is registered, so it is excluded. The runs of `LimitedRuns` are those without pacing; the cursor is the same with it.
- Zipf offsets: the generator is a parameter, and no bound is claimed for it.
- The NVMe, RDMA and libaio back ends, queue pair selection, end-to-end protection data and transport statistics: the device is the environment.
- Latency logging, histograms, timestamps and printed reports.
- Option parsing other than the metadata option; the guards it enforces are the validity predicates of the configurations.
