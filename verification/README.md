# Protocols and trace tools of the btrfs models, proved for any size

The repository describes btrfs protocols in TLA+ and checks kernel traces against them
with Python tools. The TLA+ was explored for a handful of tasks, writers and levels.
This project states the same protocols as step functions and proves their properties for
any number of tasks, writers, aborters, threads, levels, heap slots, extents and
operations, and it proves what the trace tools promise about their output.

## How it is built

A protocol is a module with a `State`, a `Step` datatype that has one constructor for each
TLA+ action, and `Fire(c, s, a)`, the successor of `s` under `a` or `None` when `a` is not
enabled. `Runs.After` folds `Fire` over a sequence of steps; invariants, measures and
simulations are proved for one step and lifted to all runs there. Constants of a model are
a `Config`. A TLA+ `CHOOSE` that picks a slot, an extent or a ticket is a parameter of the
step, so every choice is covered. Stuttering steps change nothing and are left out.

| modules | what they model |
|---|---|
| `QgroupLifecycle`, `QgroupMoves`, `QgroupSafety`, `QgroupRace`, `QgroupLone`, `QgroupWakeup`, `QgroupStranded`, `QgroupScenarios` | enable, disable, rescan, wait, unmount and the worker of `BtrfsQgroupLifecycle.tla` |
| `QgroupLanguage`, `QgroupCausality` | the words one task can emit, and queue-before-worker |
| `QgroupRuns`, `QgroupMirror`, `QgroupDelay`, `QgroupSameTraces` | cutting runs, and runs rearranged without a visible difference |
| `QgroupUnmount`, `UnmountReading`, `UnmountMutants` | what an unmount shows, and when a disable can be read as one |
| `QgroupTrace`, `QgroupReplay` | the replay of `BtrfsQgroupTrace.tla`, sound, and where it is complete |
| `MutantLaws`, `TraceEvents`, `SwapMutants`, `DropMutants`, `DropSurvivor`, `DupMutants`, `EarlyWorkerMutants` | `mutate_trace.py` |
| `TraceConversion` | `trace_to_tla.py` |
| `TransactionChain` | `BtrfsTransactionChain.tla` |
| `ExtentBufferLock`, `ExtentBufferQueue` | `BtrfsExtentBufferLock.tla` (Fixed actions), its Concrete and its Refinement |
| `Transaction`, `TransactionTwoStep` | `BtrfsTransaction.tla` and `BtrfsTransactionTwoStep.tla` |
| `TransactionAbort`, `TransactionCommit`, `TransactionJoin` | `BtrfsTransactionAbort.tla`, `BtrfsTransactionCommit.tla`, `BtrfsTransactionUAFNFixed.tla` |
| `DelayedRefs`, `SpaceReservation` | `BtrfsDelayedRefsRaceFixed.tla`, `BtrfsSpaceReservationLiveness.tla` |
| `WindowScan`, `CommitWindowLaws`, `OverlapScan` | `qgroup_window_scan.py` |
| `TraceChecker`, `FsyncLogTree`, `FreeSpaceCache` | the checker base class and two checkers |
| `Runs`, `Counting`, `Sets`, `Sorting`, `Options` | runs, counts, sets, the stable sort |

## Where the code does not do what its text says

- `drop_enter` is not illegal by construction (`tracing/mutate_trace.py:17-24`). After a
  finished wait the free of a disable can be read as the free of an unmount, if the task
  was alone. `UnmountMutants.DroppedIsAcceptedIff` gives the exact condition on the trace,
  and `DropSurvivor.DropCanSurvive` a trace of 24 events for which the tool, run with its
  defaults, writes a legal mutant. Uncut mutants of traces in which every operation
  finishes are not affected.
- `swap_same_task` is illegal by construction as long as four events are kept after the
  swapped position, which the default does (`SwapMutants.PaddedSwapIsIllegal`); with fewer
  the same exception applies, exactly as `SwapMutants.CutSwapIsLegalIff` says.
- The replay restriction is not complete (`models/trace-validated/BtrfsQgroupTrace.tla:39-44`):
  an enable that has created the quota tree but shown no further event already lets
  another task's rescan proceed. `QgroupTrace.ReplayIncomplete` shows it. It is complete
  under the condition of `QgroupReplay.ReplayIsComplete`: interruptions inside zero
  tracking, inside the free loop and after it lose nothing, since a task can put these
  off to just before its own next event. A wait can be put off too, unless meanwhile
  another task resets the completion and queues the worker: then the read that was put
  off finds a rescan running that the original read did not.
- `wait_vs_commit` is described as the wait of a disable (`tracing/qgroup_window_scan.py:20-23`),
  but the probe sees only the standalone wait and the unmount:
  `CommitWindowLaws.WaitIsNoDisable`.
- A commit window may end in the zero tracking of an enable
  (`tracing/qgroup_window_scan.py:92-94`): `CommitWindowLaws.SpuriousWindow`.
- `trace_to_tla.py --fs` is ignored when the trace has a single other filesystem
  (`tracing/trace_to_tla.py:74`): `TraceConversion.FsIsHonouredIff`.
- `WriterBailOut` and `CommitterReset` of the chaining protocol can never happen, and below
  the root no extent-buffer lock is ever waited for.
- Recovery falls back to nothing, not to the older copy, when the first superblock is valid
  and the second newer but torn (`models/track-a/BtrfsTransactionCommit.tla:93-99`). No run
  of the protocol gets there.

## Model

| member | source | states |
|---|---|---|
| QgroupRace.FixExcludesUaf | models/trace-validated/BtrfsQgroupLifecycle.tla:684-706 | With the fix, in every run for any task set: nothing was freed under an iterator, whoever iterates holds qgroup_lock, and nobody iterates beside the free loop. |
| QgroupRace.UafIffFixAbsent | models/trace-validated/BtrfsQgroupLifecycle.tla:684-689 | Some run reaches use-after-free if and only if the fix is absent and there are at least two tasks. |
| QgroupRace.WorkerRaceIffFixAbsent | models/trace-validated/BtrfsQgroupLifecycle.tla:691-706 | Some run has the free loop beside the scanning worker if and only if the fix is absent and there are at least two tasks. |
| QgroupLone.RunKeepsLone | models/trace-validated/BtrfsQgroupLifecycle.tla:128-682 | With a single task, in every run rescan_running says exactly whether the worker is still to come or mid-run, and past its own wait the task finds it false; so nothing is freed under anyone. |
| QgroupRace.UnfixedReachesUaf | models/trace-validated/BtrfsQgroupLifecycle.tla:347-356 | Any two tasks, one disabling and one rescanning, suffice for the use-after-free of the unfixed kernel. |
| QgroupSafety.StepEffect | models/trace-validated/BtrfsQgroupLifecycle.tla:142-636 | What any step may do to program counters, subvol_sem, the unmount gate, qgroup_lock and the set of iterators. |
| QgroupSafety.StepKeepsLocks | models/trace-validated/BtrfsQgroupLifecycle.tla:142-636 | Every step keeps the lock discipline: iterators own qgroup_lock, subvol_sem is held exactly inside enable and disable, an unmount is alone. |
| QgroupSafety.StepAbandonsNone | models/trace-validated/BtrfsQgroupLifecycle.tla:294-308 | Every step keeps: a sleeping disabler or unmounter whose completion is not done has a worker queued or mid-run, or (disable only) a rescan on its way to queue one with accounting on. |
| QgroupSafety.RunKeepsInv | models/trace-validated/BtrfsQgroupLifecycle.tla:128-682 | The lock discipline and the wake-up guarantee hold in every reachable state, for any task set. |
| QgroupWakeup.SleeperCanBeWoken | models/trace-validated/BtrfsQgroupLifecycle.tla:511-523 | From every reachable state in which a disabler or unmounter sleeps, steps of other tasks alone lead to a state where its own next step is enabled. |
| QgroupWakeup.WorkerCompletes | models/trace-validated/BtrfsQgroupLifecycle.tla:578-628 | A queued or running worker can reach complete_all without the sleeper. |
| QgroupWakeup.RescanCompletes | models/trace-validated/BtrfsQgroupLifecycle.tla:404-453 | A rescan past its init with accounting on can queue the worker and so complete the wait. |
| QgroupStranded.WaiterCanBeStranded | models/trace-validated/BtrfsQgroupLifecycle.tla:474-486 | Three tasks can leave a standalone waiter asleep with the completion reset, accounting off and no worker coming, with or without the fix. |
| QgroupStranded.StrandedIffThreeTasks | models/trace-validated/BtrfsQgroupLifecycle.tla:467-486 | A waiter can be stranded if and only if there are at least three tasks: with two, whoever sleeps always has a worker coming or a task on its way to queue one. |
| QgroupStranded.StrandedForGood | models/trace-validated/BtrfsQgroupLifecycle.tla:481-486 | A stranded waiter stays asleep along every continuation in which no enable starts. |
| QgroupRace.UnmountStartsAfresh | models/trace-validated/BtrfsQgroupLifecycle.tla:557-572 | The end of an unmount leaves the state of a first mount, whatever run led there, but for what the worker is in the middle of. |
| QgroupLifecycle.AcceptedPrefix | models/trace-validated/BtrfsQgroupLifecycle.tla:641-682 | Every prefix of what the probes see of a run is what they see of some run. |
| QgroupLanguage.RunFits | models/trace-validated/BtrfsQgroupLifecycle.tla:641-676 | In every run each task's place fits the phase that its own observable events spell, including the two readings of a finished wait. |
| QgroupLanguage.AcceptedIsAlive | models/trace-validated/BtrfsQgroupLifecycle.tla:641-682 | No run, for any task set and either kernel, shows a trace in which some task's events leave the per-task order. |
| QgroupLanguage.IdleRunRests | models/trace-validated/BtrfsQgroupLifecycle.tla:641-682 | A run that ends with every task idle spells, for every task, a word at rest. |
| QgroupCausality.RunPaysForWorker | models/trace-validated/BtrfsQgroupLifecycle.tla:444-453 | In every run, worker starts plus those queued or about to be never outnumber finished (or begun) zero trackings. |
| QgroupCausality.WorkerStartsArePaidFor | tracing/mutate_trace.py:111-116 | In every prefix of an accepted trace worker starts are at most the finished, hence at most the begun, zero trackings. |
| QgroupTrace.ReplayIsRun | models/trace-validated/BtrfsQgroupTrace.tla:46-84 | Every replay is a run of the life cycle that shows exactly the events consumed so far. |
| QgroupTrace.ConsumedIsAccepted | models/trace-validated/BtrfsQgroupTrace.tla:76-87 | A trace consumed to its end is what the probes see of some run. |
| QgroupReplay.ReplayIsComplete | models/trace-validated/BtrfsQgroupTrace.tla:30-45 | If each enable, disable and rescan that has begun shows its next event first, and no other task tracks or queues during a wait that is interrupted, replay consumes a trace if and only if some run shows it. |
| QgroupReplay.RunReplays | models/trace-validated/BtrfsQgroupTrace.tla:46-84 | Step by step: for a run of such a trace there is a replay that keeps up with it, in a state that differs only in what its tasks have put off. |
| QgroupDelay.StepFollows | models/trace-validated/BtrfsQgroupLifecycle.tla:142-636 | Every step of a run is followed by a run in which each task puts off its lock regions, its free loop and its waits to just before its next event: same flags, same events. |
| QgroupSameTraces.AcceptedByAny | models/trace-validated/BtrfsQgroupLifecycle.tla:641-682 | Every task set that has the tasks of a trace, in either kernel, explains it as well as any other. |
| QgroupSameTraces.FixIsInvisible | models/trace-validated/BtrfsQgroupLifecycle.tla:684-689 | The fixed and the unfixed kernel show exactly the same traces. |
| QgroupTrace.ReplayIncomplete | models/trace-validated/BtrfsQgroupTrace.tla:39-44 | In general it does not: with two tasks a trace that a run shows cannot be replayed, against the soundness comment in the source. |
| TraceEvents.AsTraceWellAttributed | tracing/trace_to_tla.py:96-99 | Exactly the worker's actions are attributed to the worker. |
| TraceEvents.ConvertedReplayIsSound | models/trace-validated/BtrfsQgroupTrace.tla:84-87 | Replaying a converted trace to its end shows that some run of the life cycle emits it. |
| QgroupUnmount.UnmountIsAlone | models/trace-validated/BtrfsQgroupLifecycle.tla:497-509 | In every accepted trace a wait that leads to a free without a disable begins with all other tasks at rest, and until the free is done only the worker shows an event beside it. |
| QgroupUnmount.WorkComesFromEnable | models/trace-validated/BtrfsQgroupLifecycle.tla:557-572 | After such a free the worker starts only once an enable has begun. |
| QgroupUnmount.OpenUnmountIsShort | models/trace-validated/BtrfsQgroupLifecycle.tla:578-636 | While such a free is open at most three more events come. |
| QgroupUnmount.DisableHoldsOffEnable | models/trace-validated/BtrfsQgroupLifecycle.tla:261-268 | Until a disable is done no task begins to enable. |
| UnmountReading.ReadPath | models/trace-validated/BtrfsQgroupLifecycle.tla:467-572 | A stretch of a run in which a task waits and disables, with nobody but the worker beside it, is step by step one in which it unmounts. |
| UnmountReading.LaterPath | models/trace-validated/BtrfsQgroupLifecycle.tla:365-372 | After the free, what the others do beside the open disable they can do after the unmount, if no worker starts. |
| MutantLaws.SwappedPhases | tracing/mutate_trace.py:70-83 | Swapping two consecutive events of a live task kills its word at the second, and at the first exactly unless the pair reads as the start of an unmount. |
| MutantLaws.DuplicatedPhases | tracing/mutate_trace.py:102-108 | Doubling a Done event kills the word at the copy. |
| MutantLaws.DroppedPhases | tracing/mutate_trace.py:86-99 | Dropping an Enter followed by an event of its task kills the word if and only if what is left is not a disable's free read as an unmount's. |
| MutantLaws.DroppedPrefix | tracing/mutate_trace.py:93-97 | The same exactly, for the prefix up to the orphaned event. |
| MutantLaws.MovedWorkerRejected | tracing/mutate_trace.py:111-127 | Moving the k-th worker start before the k-th zero tracking makes the trace, up to the old position, no trace of any run: two starts in a row, or one start too many. |
| UnmountMutants.DroppedIsAcceptedIff | tracing/mutate_trace.py:86-99 | Without one of its Enter events an accepted trace is accepted, by the same task set or by any, if and only if the event starts a disable, right after a wait, that can pass for an unmount: others at rest before the wait, only the worker beside it until the free is done, no event of the task after that and no worker start. |
| UnmountMutants.CutSwappedIsAcceptedIff | tracing/mutate_trace.py:70-83 | With two consecutive events of a task swapped and cut after the first, it is accepted if and only if they are such a disable and its free and the cut keeps only the first; four events on it never is. |
| TraceEvents.Spread | tracing/mutate_trace.py:62-67 | All candidates if there are at most n, else n of them starting with the first; an error exactly for n = 0 with candidates left. |
| TraceEvents.SampleInRange | tracing/mutate_trace.py:66-67 | The sampled positions are in range, start at 0 and strictly increase, so none is taken twice. |
| SwapMutants.GroupByTask | tracing/mutate_trace.py:72-74 | The dictionary lists for each task exactly the positions of its events, in order. |
| SwapMutants.TaskPairs | tracing/mutate_trace.py:75-77 | The candidates are exactly the pairs of consecutive events of one task, in trace order, each once. |
| SwapMutants.GenSwapSameTask | tracing/mutate_trace.py:70-83 | Each sampled pair yields the trace with the two events swapped; for a legal trace every mutant is illegal, and also every cut of it that keeps four or more events after the promised position. |
| SwapMutants.CutSwapIsLegalIff | tracing/mutate_trace.py:172 | For a legal trace a cut after the promised position is legal if and only if it keeps the first event of a disable and its free and the disable can pass for an unmount up to there. |
| SwapMutants.PaddedSwapIsIllegal | tracing/mutate_trace.py:152-172 | With four or more events kept after the promised position (the default is ten) what is written of a swap mutant is always illegal. |
| DropMutants.NextPosition | tracing/mutate_trace.py:95 | The next event of the same task. |
| DropMutants.OrphaningEnters | tracing/mutate_trace.py:88-92 | The candidates are exactly the Enter events whose task has a later event, in order. |
| DropMutants.GenDropEnter | tracing/mutate_trace.py:86-99 | Each sampled Enter yields the trace without it and the position of the orphan; for a legal trace a mutant is legal exactly where that Enter can pass for the start of an unmount, and for a finished trace none is. |
| DropMutants.DropIsLegalIff | tracing/mutate_trace.py:86-97 | For a legal trace: without an Enter event whose task goes on it is legal if and only if the event starts a disable that can pass for an unmount. |
| DropMutants.FinishedDropIsIllegal | tracing/mutate_trace.py:86-97 | In the trace of a run that ends with every task idle, no Enter can be dropped unnoticed. |
| DropMutants.CutDropIsLegalIff | tracing/mutate_trace.py:172 | What is written of the mutant is legal if and only if the same holds of the trace up to the cut. |
| DropSurvivor.DropCanSurvive | tracing/mutate_trace.py:147-172 | A trace of 24 events of two threads, all operations finished, of which the tool writes by default a drop_enter mutant that is legal; with no padding a swap at the same place is legal too. |
| DropSurvivor.LongDisableFinishes | tracing/mutate_trace.py:147-159 | That trace is shown by a run that ends with every task idle. |
| DupMutants.DonePositions | tracing/mutate_trace.py:104 | The candidates are exactly the Done events, in order. |
| DupMutants.GenDupDone | tracing/mutate_trace.py:102-108 | Each sampled Done yields the trace with it doubled, which is illegal whatever the trace. |
| DupMutants.CutDupIsIllegal | tracing/mutate_trace.py:172 | So is every cut that keeps the promised position. |
| EarlyWorkerMutants.Positions | tracing/mutate_trace.py:117-119 | The list holds exactly the positions of the action, and the k-th entry has k occurrences before it. |
| EarlyWorkerMutants.EarlyCandidates | tracing/mutate_trace.py:120-121 | The candidates are exactly the k for which the k-th zero tracking starts before the k-th worker start. |
| EarlyWorkerMutants.GenEarlyWorker | tracing/mutate_trace.py:111-127 | Each sampled candidate yields the trace with the worker start moved; for a legal trace every mutant is illegal. |
| EarlyWorkerMutants.CutEarlyIsIllegal | tracing/mutate_trace.py:172 | So is every cut that reaches past the old position. |
| TraceConversion.GroupByFs | tracing/trace_to_tla.py:70-73 | The events of each filesystem in order, the filesystems in the order of first appearance. |
| TraceConversion.PickDefault | tracing/trace_to_tla.py:83-86 | The first of the longest groups among those with quota activity, or among all if none has any. |
| TraceConversion.Convert | tracing/trace_to_tla.py:70-101 | The first of the chosen events in the order of time, as many as the limit keeps, with their threads; an error exactly for an absent filesystem among several, or when the limit keeps nothing. |
| TraceConversion.ChosenInOrder | tracing/trace_to_tla.py:79-92 | What is replayed is sorted by time and a permutation of the chosen events; a filesystem asked for contributes all its events and no others. |
| TraceConversion.CandidatesAreEligible | tracing/trace_to_tla.py:84-86 | Beside a filesystem with quota activity none without is a candidate. |
| TraceConversion.ConvertedIsPrefix | tracing/trace_to_tla.py:90-92 | What is replayed under a limit is a first part of what is replayed without one, as long as the limit allows. |
| TraceConversion.FsIsHonouredIff | tracing/trace_to_tla.py:74-82 | All chosen events are of the filesystem asked for if and only if it occurs or there are several: with a single other one the request is ignored. |
| TraceConversion.TasksAreListed | tracing/trace_to_tla.py:96-101 | The listed user tasks are exactly those with an event, and every event belongs to one of them or to the worker. |
| TraceConversion.ListedTasksSuffice | tracing/trace_to_tla.py:101 | A trace is legal if and only if a run with the listed tasks alone shows it, of either kernel. |
| Sorting.SortBySorts | tracing/trace_to_tla.py:90 | The sort yields a sorted permutation. |
| Sorting.SortByIsStable | tracing/trace_to_tla.py:90 | Events with equal time stamps keep their order. |
| TransactionChain.WriterKeepsRefcounts | models/track-a/BtrfsTransactionChain.tla:139-188 | Every writer step, the hand-off from one transaction to the next included, keeps each reference count equal to the number of writers active or asleep on the transaction. |
| TransactionChain.RunKeepsInv | models/track-a/BtrfsTransactionChain.tla:101-309 | In every run the counts are exact, the committer's place fixes the states of both transactions, and every engaged writer names an unfinished one. |
| TransactionChain.NoUseAfterComplete | models/track-a/BtrfsTransactionChain.tla:316-346 | Counts are never negative, nobody is engaged with a completed transaction, the second exists no sooner than the first is unblocked, nothing is ever aborted. |
| TransactionChain.BailOutAndResetNeverFire | models/track-a/BtrfsTransactionChain.tla:199-207 | WriterBailOut and CommitterReset are never enabled in a reachable state. |
| TransactionChain.StatesMoveForward | models/track-a/BtrfsTransactionChain.tla:70-78 | Along every run each transaction only moves forward through the commit sequence. |
| TransactionChain.StepsFall | models/track-a/BtrfsTransactionChain.tla:126-259 | Every step from a reachable state lowers one measure. |
| TransactionChain.RunsAreShort | models/track-a/BtrfsTransactionChain.tla:297-309 | Every run has at most 6 MaxOps + 13 steps, whatever the scheduler does. |
| TransactionChain.NotFinishedCanStep | models/track-a/BtrfsTransactionChain.tla:247-259 | Until both transactions are completed some step is enabled. |
| TransactionChain.MaximalRunFinishes | models/track-a/BtrfsTransactionChain.tla:348-360 | A run that cannot go on has completed both transactions, both counts are zero and every writer is idle again. |
| TransactionChain.EveryRunCanFinish | models/track-a/BtrfsTransactionChain.tla:348-360 | Every run has a continuation that completes both transactions. |
| ExtentBufferLock.LockIsSafe | models/track-a/BtrfsExtentBufferLock.tla:192-199 | In every run nobody asks for a level while holding it or one below, and at most one thread holds anything. |
| ExtentBufferQueue.StepRefines | models/track-a/BtrfsExtentBufferLockRefinement.tla:20-31 | Every step of the queued lock is, under the mapping, one step of the atomic lock, or none for joining a queue. |
| ExtentBufferQueue.RunRefines | models/track-a/BtrfsExtentBufferLockRefinement.tla:30-31 | Every run of the queued lock maps to a run of the atomic lock with the mapped final state, for any levels and threads. |
| ExtentBufferQueue.QueuedLockIsSafe | models/track-a/BtrfsExtentBufferLockRefinement.tla:20-31 | Lock order and single holder carry over; each queue lists exactly the threads asleep for its level, each once, and only the root has one. |
| ExtentBufferQueue.OnlyRootIsContended | models/track-a/BtrfsExtentBufferLockConcrete.tla:53-62 | Whoever wants a level below the root finds it free and its queue empty. |
| ExtentBufferQueue.QueueIsFifo | models/track-a/BtrfsExtentBufferLockConcrete.tla:53-75 | Along every run, those queued and joined are those served followed by those still queued, in the same order. |
| ExtentBufferQueue.NobodyOvertakes | models/track-a/BtrfsExtentBufferLockConcrete.tla:41-75 | A free level with a queue goes to the head of the queue and to nobody else. |
| ExtentBufferQueue.NeverStuck | models/track-a/BtrfsExtentBufferLock.tla:201-206 | In every reachable state some step is enabled. |
| ExtentBufferQueue.WaiterCanAcquire | models/track-a/BtrfsExtentBufferLockConcrete.tla:64-75 | From every reachable state the steps of others alone bring a queued thread to the head of a free lock. |
| Transaction.StepInv | models/track-a/BtrfsTransaction.tla:71-156 | Every step keeps the counters equal to the writers they count and at most one committer. |
| Transaction.CommitIsExclusive | models/track-a/BtrfsTransaction.tla:182-187 | In every run, during COMMIT_DOING there is no external writer and the committer is the only writer, for any writer set. |
| TransactionTwoStep.StepSimulates | models/track-a/BtrfsTransactionTwoStep.tla:94-237 | Every step of the two-step protocol is a step of the atomic one or changes nothing there. |
| TransactionTwoStep.RunSimulates | models/track-a/BtrfsTransactionTwoStep.tla:242-269 | Every run of the two-step protocol implements a run of the atomic one, operation bound included. |
| TransactionTwoStep.CommitIsExclusive | models/track-a/BtrfsTransactionTwoStep.tla:274-279 | The guarantees of COMMIT_DOING carry over; others are at most between a check and its action. |
| TransactionTwoStep.CommitCanComplete | models/track-a/BtrfsTransactionTwoStep.tla:292-293 | From every reachable state with a commit begun, steps that are not joins lead to COMPLETED. |
| TransactionAbort.AbortIsSafe | models/track-a/BtrfsTransactionAbort.tla:345-358 | In every run: each count is the running reference plus the writers at the slot, no writer points at a freed slot, ABORTED implies the error, and then only an aborted transaction runs. |
| TransactionAbort.WalkWakesEveryone | models/track-a/BtrfsTransactionAbort.tla:253-275 | When AbortRemoveTrans can fire no writer is blocked on the aborted transaction. |
| TransactionAbort.ErrorIsFinal | models/track-a/BtrfsTransactionAbort.tla:353-354 | Once the error is set it stays, and no other transaction ever becomes the running one. |
| TransactionAbort.AbortIsReported | models/track-a/BtrfsTransactionAbort.tla:204-232 | A writer inside an aborted transaction that has not yet succeeded leaves, whatever run follows, from the error state. |
| TransactionAbort.SleeperCanBeWoken | models/track-a/BtrfsTransactionAbort.tla:361-362 | From every reachable state the steps of others alone let the commit wake a blocked writer. |
| TransactionAbort.WriterKeepsCounts | models/track-a/BtrfsTransactionAbort.tla:171-298 | Every writer step keeps the counts exact and the lock held by exactly one joining writer. |
| TransactionCommit.Chosen | models/track-a/BtrfsTransactionCommit.tla:88-104 | On any disk recovery picks the newest valid generation, unless the first copy is valid and the second newer but torn; with both copies empty or valid it is their maximum. |
| TransactionCommit.CrashThenRecover | models/track-a/BtrfsTransactionCommit.tla:81-104 | A crash in any phase and recovery: both copies name the newest generation from before, which is 0 or entirely on disk. |
| TransactionCommit.CommitsAreDurable | models/track-a/BtrfsTransactionCommit.tla:114-122 | Over every run with any crashes the newest named generation never goes back, is entirely on disk and is at most the pending one. |
| TransactionCommit.ConsistentIffRoom | models/track-a/BtrfsTransactionCommit.tla:114-119 | The active superblock is consistent in every run if and only if the disk has two blocks for each generation. |
| TransactionJoin.JoinIsSafe | models/track-a/BtrfsTransactionUAFNFixed.tla:69-128 | In every run each count is the running reference plus the writers at the slot, the lock has exactly one holder while taken, and the slot a writer reads is allocated. |
| TransactionJoin.HeldUntilReleased | models/track-a/BtrfsTransactionUAFNFixed.tla:69-101 | From joining to release, along every run, the writer's slot is neither freed nor created anew. |
| DelayedRefs.HeadsAreSafe | models/track-a/BtrfsDelayedRefsRaceFixed.tla:189-199 | In every run disk counts and disk plus pending are never negative, a dead head has nothing pending, and both checks of RunnerApplyHead hold. |
| DelayedRefs.LedgerBalances | models/track-a/BtrfsDelayedRefsRaceFixed.tla:73-151 | For every extent, over every run, disk + pending + dropped = 1 + committed. |
| SpaceReservation.SpaceIsConserved | models/track-d/BtrfsSpaceReservationLiveness.tla:199-220 | In every run free + reserved = total + rounds, reserved is the sum of the granted requests, and free is never negative. |
| SpaceReservation.BudgetIsSpent | models/track-d/BtrfsSpaceReservationLiveness.tla:127-165 | The flusher takes at most 4 MaxFlushRounds + 1 steps in any run; each spends one unit of a budget that nobody else touches. |
| SpaceReservation.BlockedIsServed | models/track-d/BtrfsSpaceReservationLiveness.tla:116-165 | While a ticket is blocked the flusher can step until its rounds are used up, and from then on the ticket can be cancelled. |
| SpaceReservation.NoTicketIsStuck | models/track-d/BtrfsSpaceReservationLiveness.tla:222-224 | From every reachable state the flusher alone, within its budget, leads to the grant or the cancellation of a blocked ticket. |
| WindowScan.Intervals | tracing/qgroup_window_scan.py:64-85 | The intervals are exactly the bracket-matched pairs of start and end of one thread and kind, in the order of their ends. |
| WindowScan.MatchedOnceAndNested | tracing/qgroup_window_scan.py:64-68 | Each start and each end is in at most one matched pair, and two pairs of a thread and kind are nested or apart. |
| WindowScan.CommitWindows | tracing/qgroup_window_scan.py:92-104 | The windows are exactly: a rescan start, the thread's next zero tracking, no other rescan start in between. |
| CommitWindowLaws.WindowIsCommitIff | tracing/qgroup_window_scan.py:92-104 | Over the events of any number of filesystems, each legal by itself: a window between events of one filesystem is the commit of its rescan if and only if the thread does not return from a rescan of it meanwhile; a window that ends in no rescan ends in an enable. |
| CommitWindowLaws.WaitIsNoDisable | tracing/qgroup_window_scan.py:20-23 | A reported wait begins with its thread between two operations, so it is never the wait of a disable. |
| CommitWindowLaws.SpuriousWindow | tracing/qgroup_window_scan.py:92-94 | A legal trace with a reported window that is no commit. |
| OverlapScan.OverlapIsSharedInstant | tracing/qgroup_window_scan.py:88-89 | For spans that last, overlap means sharing an instant. |
| OverlapScan.ScanOne | tracing/qgroup_window_scan.py:139-147 | Stopping at the first candidate that starts too late loses no hit. |
| OverlapScan.Scan | tracing/qgroup_window_scan.py:135-148 | The search reports exactly the overlapping pairs of other tasks on the same filesystem, each as often as an all-pairs search. |
| TraceChecker.BtrfsChecker.Violate | tracing/checkers/checker_base.py:70-85 | A violation is appended and the verdict turns negative. |
| TraceChecker.BtrfsChecker.ExitCode | tracing/checkers/checker_base.py:117-118 | 0 exactly when there is no violation. |
| FsyncLogTree.FsyncLogTreeChecker.LogExtent | tracing/checkers/btrfs_fsync_log_tree_checker.py:54-72 | One violation for every earlier extent of the fsync that overlaps, in order, and the extent is added. |
| FsyncLogTree.FsyncLogTreeChecker.ProcessEvent | tracing/checkers/btrfs_fsync_log_tree_checker.py:42-81 | Tables and violations after the event are those of the longer history. |
| FsyncLogTree.FsyncLogTreeChecker.Run | tracing/checkers/btrfs_fsync_log_tree_checker.py:42-81 | The stream conforms if and only if the extents of every fsync are pairwise disjoint, every drop returned 0 and no probe violation came. |
| FsyncLogTree.QuietIffConforms | tracing/checkers/btrfs_fsync_log_tree_checker.py:42-81 | The same for the computed violations, over all histories. |
| FsyncLogTree.LogsMembers | tracing/checkers/btrfs_fsync_log_tree_checker.py:57-72 | The list compared with holds exactly what the thread logged since its fsync last started or ended. |
| FsyncLogTree.OverlapIsSharedOffset | tracing/checkers/btrfs_fsync_log_tree_checker.py:25-28 | For extents that are not empty, overlap means sharing an offset. |
| FreeSpaceCache.FreeSpaceCacheChecker.ProcessEvent | tracing/checkers/btrfs_free_space_cache_checker.py:30-55 | Cache and violations after the event are those of the longer history. |
| FreeSpaceCache.FreeSpaceCacheChecker.Run | tracing/checkers/checker_base.py:91-104 | The stream conforms if and only if every address alternates between added and removed, starting with added, and no probe violation came; every parsed event is counted. |
| FreeSpaceCache.QuietIffConforms | tracing/checkers/btrfs_free_space_cache_checker.py:30-55 | The same for the computed violations, over all histories. |
| FreeSpaceCache.CopiesWhileAlternating | tracing/checkers/btrfs_free_space_cache_checker.py:33-49 | While the rule is kept an address is in the cache once if it was last added and not at all otherwise. |

## Left out

- Temporal fairness and liveness under it. Progress is stated as an enabled step with a
  falling measure, or as a continuation that others can take.
- QgroupReplay.ReplayIsComplete: the condition is sufficient, not exact. Events of the worker
  between the start of a disable and its next event are excluded as well: a disable whose
  internal steps are put off past the worker's exit no longer stops the worker, so the
  flags differ.
- TraceEvents.Spread: only the count and the first pick, and exact reals for Python's floats.
- TraceEvents.SampleInRange: exact reals, where the source rounds; the positions could differ
  from Python's for lengths beyond what a float divides exactly.
- CommitWindowLaws.WindowIsCommitIff: says which operation a window belongs to, not how
  FLAG_RESCAN and rescan_running stand inside it.
- QgroupWakeup.SleeperCanBeWoken: for disable and unmount only; a standalone waiter can be left
  asleep for good, exactly when there are at least three tasks (`QgroupStranded.StrandedIffThreeTasks`).
  No text promises otherwise.
- TransactionCommit.ConsistentIffRoom: a block past the end of the disk is never written and reads as
  unwritten; the TLA+ leaves it undefined.
- OverlapScan.Scan: the search of one span is a method of its own, where the source nests the loop.
- The Buggy variants, and the models with two fixed processes.
- `NoStaleCheckJoin` of the two-step protocol: a checking writer may outlive a change of state and
  retry, so it is not an invariant.
- The bound on the number of events emitted, the text of messages, manifests and reports; reading
  and writing files, JSON, command lines, printing.
- The sorting by time in `mutate_trace.py` and `qgroup_window_scan.py` before their functions run.
- An empty `--fs` argument, which Python takes for none: it is `None` here.
- `comm`, which is only printed.
- Constants stay at what the models say (two chained transactions, one worker, one committer).
