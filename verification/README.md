# Concurrent protocols of the inject samples and test suites

This project models the concurrent protocols that the sample programs and the twister suites of the repository run,
and proves about every schedule what those programs assert while one schedule runs. Constants of the programs (item
counts, capacities, thread counts, rounds, yields, `PingCount`) are parameters.

## How a protocol is modelled

Each protocol is a state, an event type and a total function `Step` from a state and an event to a state. An event
that is not enabled changes nothing, so a sequence of events is a schedule, and a theorem over all sequences of events
speaks about all schedules (`Runs`). A step is one mutex operation, one load or store of an atomic, one access to a
plain field, one assignment to a variable of its own or one local decision; a segment of the key scripts, which runs
with the mutex held or before there are other threads, is one step. Waiting on a condition variable releases the mutex
in the same step; a woken thread must take the mutex again; a spurious wakeup is an event of its own.

Beside each protocol stands a class with the mutable fields of the program. Its methods are the operations of the
program, one step at a time, in place; each is proved to do what `Step` says, and a `Run` method, a loop over a
schedule, is proved to keep what the theorems promise.

The memory model follows section 6.9.2 of ISO/IEC 14882:2020. Atomics are sequentially consistent, as in the programs,
so a load reads the last store; a plain read may return any write that no later write known to the reader hides.
`HappensBefore` proves that the vector clocks of `MemoryModel` decide exactly the happens-before relation and that the
race flag is set exactly when an execution contains a data race. Mutexes, condition variables, semaphores, barriers,
once controls and keys are modelled after their pages in IEEE Std 1003.1-2017, System Interfaces.

| file | protocol |
|---|---|
| `Runs.dfy` | runs of a step system, invariants, bounded runs |
| `MemoryModel.dfy`, `HappensBefore.dfy`, `Traces.dfy` | plain and atomic memory, happens-before, data races, the operations of each thread |
| `WriteOnce.dfy`, `WriteOnceLimits.dfy`, `WriteOnceTrace.dfy` | one writer, many readers over one atomic |
| `TokenRing.dfy`, `TokenRingLimits.dfy`, `TokenRingTrace.dfy` | M writers and M readers over one signed atomic |
| `TestMemModel.dfy` | both as objects |
| `PingPong.dfy`, `PingPongLimits.dfy`, `PingPongTrace.dfy`, `TestAtomics.dfy` | turns through an atomic status |
| `Bucket.dfy`, `BucketRefinement.dfy`, `BucketObject.dfy` | the bounded bucket, both forms of notification |
| `Bounce.dfy`, `BounceTurn.dfy`, `BounceRotation.dfy`, `BounceBound.dfy`, `BounceLimits.dfy`, `BounceTrace.dfy` | the bounce phase of the pthread test |
| `Barrier.dfy`, `Execution.dfy`, `PthreadExecution.dfy` | its broadcast and barrier phases; the whole test; all three as objects |
| `StageScheduler.dfy`, `StageBound.dfy` | K threads taking turns through a stage counter |
| `KeyTable.dfy`, `KeyScripts.dfy`, `KeyLimits.dfy`, `PthreadSpecific.dfy` | thread-specific keys and the scripts that use them |
| `PthreadOnce.dfy`, `PthreadOnceStart.dfy`, `PthreadOnceLimits.dfy`, `PthreadOnceObject.dfy` | once-initialisation and its start-up handshake |
| `StateHandshake.dfy` | the two-thread state handshake |
| `ExceptionStacks.dfy`, `ExceptionScripts.dfy`, `ExceptionsObject.dfy` | exceptions in one pool, the handlers around the handshake |

## Where a promise holds only under a condition

- Token ring: indices are clamped to the array, so the ring is free of data races, and no REQUIRE of a reader ever fails,
  exactly when every index has a slot.
- Write once, read many: free of data races exactly when the start value differs from the value given to `reset`.
  What a reader has read is passed on by its write-back to whoever reads that store. It is passed on to every later
  load, in all runs, exactly when there is at most one reader: a plain store starts anew what the atomic passes on, so
  of two readers that both loaded before either stored, the second replaces what the first published
  (`WriteOnceTrace.ReplacingRun`). Of a given run, the atomic passes it on exactly as long as the write-back is the last
  store or happens before the last store. No access of the program depends on it.
- Bucket: both threads can finish exactly when the capacity is at least one, or there are no items.
- Bounce phase: whatever the schedule, everybody gets through without spurious wakeups exactly when there is one thread
  with one round. For all other sizes thread 0 running ahead through its first signal wastes it
  (`BounceLimits.SoloRunWastes`), and somebody is stranded; the test counts on the sleep of thread 0 and on the yields.
  Of a given run, everybody gets through exactly when no signal is wasted while somebody has rounds to go; with a
  first-in, first-out queue and nobody taking the turn before all others wait, none is. A lone thread gets through
  exactly with one spurious wakeup for each round but the last. The same conditions decide whether the whole test ends.
- Key scripts: every assertion holds exactly when `key4` is not given the slot `key2` had; the lowest free slot never
  is.
- Ping-pong: main's final checks hold exactly when there is at least one round to play.
- Start-up handshake: each thread reads its own index in all runs, and all runs end, exactly when main has no spurious
  wakeup: with one, some run reads a wrong index, and some run loses the start signal of the last thread and hangs.
  Main's last check holds exactly when there is a thread.

The comment at samples/cpp_atomic_mm/src/main.cpp:144-146 says that a reader of index `idx` waits for `idx + 1`; the
code waits for `idx`, and the model follows the code.

## Model

| member | source | states |
|---|---|---|
| `MemoryModel.ReadLast` | samples/cpp_atomic_mm/src/main.cpp:97-102 | a plain read by a thread that knows all writes of a field can return nothing but the last of them, and does not race |
| `MemoryModel.JoinedAll` | samples/cpp_atomic_mm/src/main.cpp:188-197 | after joining every thread, main knows every access ever made |
| `HappensBefore.KnowsIffHappensBefore` | samples/cpp_atomic_mm/src/main.cpp:69-76 | the clock of a thread knows an earlier access exactly when that access happens before, through any chain of release stores and acquire loads |
| `HappensBefore.FlagIffDataRace` | samples/cpp_atomic_mm/src/main.cpp:42-64 | the race flag is set exactly when two conflicting accesses are not ordered by happens-before |
| `Traces.LeavesThroughStore` | samples/cpp_atomic_mm/src/main.cpp:103 | a plain access happens before something another thread does only through a later store of its own thread |
| `Traces.AtomKnowsIffSent` | samples/cpp_atomic_mm/src/main.cpp:93-103 | what an atomic passes on is exactly what happens before the last store to it |
| `TokenRing.EveryRunIsForced` | samples/cpp_atomic_mm/src/main.cpp:111-160 | with a slot for each index: no race, no failed REQUIRE, at most one thread inside, turns taken as W0, R0, W1, R1, ...; whenever nobody is inside `value1` holds what `sync_value` holds, so each reader leaves in both the number it asks the next put with; and at the end `array[i] == i` and `value1 == sync_value == -((M % array_size) + 1)` |
| `TokenRing.RunnerWorks` | samples/cpp_atomic_mm/src/main.cpp:119-122 | until all are done one thread can leave its spin loop or go on with its turn, and doing so leaves less work |
| `TokenRingLimits.OnlySpinsAreIdle` | samples/cpp_atomic_mm/src/main.cpp:149-151 | every step does exactly one unit of the remaining work, except a failed spin |
| `TokenRingLimits.EveryRunIsBounded` | samples/cpp_atomic_mm/src/main.cpp:111-160 | failed spins apart a run takes at most 9 M steps, and all threads are done exactly when it has taken them |
| `TokenRingLimits.EveryRunCanFinish` | samples/cpp_atomic_mm/src/main.cpp:300-341 | whatever has happened, all threads can still get done |
| `TokenRingLimits.RaceFreeIffEveryIndexHasASlot` | samples/cpp_atomic_mm/src/main.cpp:112 | all runs are free of races exactly when M is at most the array size |
| `TokenRingLimits.RequiresHoldIffEveryIndexHasASlot` | samples/cpp_atomic_mm/src/main.cpp:152-153 | no REQUIRE of a reader fails in any run exactly when M is at most the array size; beyond it a reader that shares the last index finds `value1` already set for the next put |
| `TokenRingLimits.NoDataRace` | samples/cpp_atomic_mm/src/main.cpp:124-127 | no execution of the ring contains a data race by the definition of the standard |
| `TokenRingLimits.MainRegainsMemory` | samples/cpp_atomic_mm/src/main.cpp:319-340 | after the joins every plain access happens before what main does next |
| `TokenRingTrace.EveryThreadRunsItsProgram` | samples/cpp_atomic_mm/src/main.cpp:124-159 | for any number of threads and slots each thread makes exactly the stores, reads and assignments written down for it, in order, and is done when it has made them all: a reader of slot i reads the slot, then `value1`, then puts -1 or -(i + 2) into `value1` and into the atomic |
| `TokenRingTrace.EveryThreadAcquires` | samples/cpp_atomic_mm/src/main.cpp:119-122 | failed spins apart each thread makes exactly one acquire load |
| `TokenRingTrace.FailedIffMismatch` | samples/cpp_atomic_mm/src/main.cpp:152-153 | a REQUIRE has failed exactly when a reader read anything but its index |
| `WriteOnce.EveryReaderSeesTheWriter` | samples/cpp_atomic_mm/src/main.cpp:66-104 | no race and no failed REQUIRE; a reader past its spin loop, whichever store it read, can read only `startValue` and `startValue + i`; that readers store and are read from is the subject of the rows of `WriteOnceTrace` |
| `WriteOnceLimits.OnlySpinsAreIdle` | samples/cpp_atomic_mm/src/main.cpp:94-95 | every step does exactly one unit of the remaining work, except a failed spin before the publication |
| `WriteOnceLimits.EveryRunIsBounded` | samples/cpp_atomic_mm/src/main.cpp:66-104 | failed spins apart a run takes at most (R + 1)(slots + 4) - 1 steps, and all threads are done exactly when it has taken them |
| `WriteOnceLimits.EndIsPublished` | samples/cpp_atomic_mm/src/main.cpp:72-76 | once the writer is done the fields hold what it wrote, and keep it |
| `WriteOnceLimits.EveryRunCanFinish` | samples/cpp_atomic_mm/src/main.cpp:174-198 | whatever has happened, writer and readers can still get done |
| `WriteOnceLimits.RaceFreeIffTold` | samples/cpp_atomic_mm/src/main.cpp:93-97 | all runs are free of races exactly when the start value differs from the reset value, or nobody reads |
| `WriteOnceLimits.NoDataRace` | samples/cpp_atomic_mm/src/main.cpp:99-103 | no execution with any number of readers contains a data race |
| `WriteOnceLimits.MainRegainsMemory` | samples/cpp_atomic_mm/src/main.cpp:218-231 | after the joins the fields can be reset without a race |
| `WriteOnceTrace.EveryThreadRunsItsProgram` | samples/cpp_atomic_mm/src/main.cpp:66-103 | each thread makes exactly the stores, reads and assignments written down for it, in order, and is done when it has made them all: a reader reads `value1`, then every slot, then stores `startValue` back |
| `WriteOnceTrace.EveryThreadAcquires` | samples/cpp_atomic_mm/src/main.cpp:94-96 | failed spins apart a reader makes two acquire loads, the writer one |
| `WriteOnceTrace.FailedIffMismatch` | samples/cpp_atomic_mm/src/main.cpp:96-102 | a REQUIRE has failed exactly when a check met a value other than the one the writer puts there |
| `WriteOnceTrace.DoneReadersWroteBack` | samples/cpp_atomic_mm/src/main.cpp:97-103 | a reader that is done has stored after all its reads, and all of them happen before every load that reads this store |
| `WriteOnceTrace.WriteBackIsKnown` | samples/cpp_atomic_mm/src/main.cpp:103 | in every run, right after its write-back the atomic passes on all a reader has read |
| `WriteOnceTrace.KnownIffWriteBackReachesLastStore` | samples/cpp_atomic_mm/src/main.cpp:103 | later it does so exactly as long as that write-back is the last store or happens before the last store |
| `WriteOnceTrace.WriteBacksKnownIffOneReader` | samples/cpp_atomic_mm/src/main.cpp:103 | in all runs the atomic passes on what the readers that are done have read exactly when there is at most one reader |
| `WriteOnceTrace.ReplacingRun` | samples/cpp_atomic_mm/src/main.cpp:93-103 | for any two or more readers a run in which the write-back of the second replaces what the first has published |
| `WriteOnceTrace.ReaderFollowsReader` | samples/cpp_atomic_mm/src/main.cpp:94-103 | for any two or more readers a run in which a reader leaves its spin loop on a load that reads from another reader's store |
| `TestMemModel.Fields.constructor` | samples/cpp_atomic_mm/src/main.cpp:52-54 | the fields start at zero |
| `TestMemModel.Fields.Reset` | samples/cpp_atomic_mm/src/main.cpp:56-64 | every slot holds `array_value`, `value1` and `sync_value` hold `v1` |
| `TestMemModel.Fields.TakeFrom` | samples/cpp_atomic_mm/src/main.cpp:319-340 | main, knowing every access, finds the last value of every field |
| `TestMemModel.RingTest.CreateThreads` | samples/cpp_atomic_mm/src/main.cpp:304-318 | the ring starts from the fields as `reset` left them |
| `TestMemModel.RingTest.PutThreadType11` | samples/cpp_atomic_mm/src/main.cpp:111-129 | one step of a writer, in place, is the step the theorems are about |
| `TestMemModel.RingTest.GetThreadType11` | samples/cpp_atomic_mm/src/main.cpp:140-160 | the same for a reader |
| `TestMemModel.RingTest.Step` | samples/cpp_atomic_mm/src/main.cpp:300-318 | the step of whichever thread is scheduled |
| `TestMemModel.RingTest.RunThreads` | samples/cpp_atomic_mm/src/main.cpp:302-318 | reset, creation and a schedule of steps, in place |
| `TestMemModel.RingTest.JoinThreads` | samples/cpp_atomic_mm/src/main.cpp:319-340 | after the joins every written slot, `value1` and the atomic have their final values |
| `TestMemModel.RingTest.Test11` | samples/cpp_atomic_mm/src/main.cpp:300-341 | under any schedule nothing fails or races, and if all get done the slots, `value1` and the atomic of the object have their final values |
| `TestMemModel.ReadManyTest.CreateThreads` | samples/cpp_atomic_mm/src/main.cpp:178-187 | one writer and R readers start from the fields as `reset` left them |
| `TestMemModel.ReadManyTest.PutThreadType01` | samples/cpp_atomic_mm/src/main.cpp:66-78 | one step of the writer, in place |
| `TestMemModel.ReadManyTest.GetThreadType01` | samples/cpp_atomic_mm/src/main.cpp:90-104 | one step of a reader, in place |
| `TestMemModel.ReadManyTest.Step` | samples/cpp_atomic_mm/src/main.cpp:260-286 | the step of whichever thread is scheduled |
| `TestMemModel.ReadManyTest.RunThreads` | samples/cpp_atomic_mm/src/main.cpp:176-187 | reset, creation and a schedule of steps, in place |
| `TestMemModel.ReadManyTest.JoinThreads` | samples/cpp_atomic_mm/src/main.cpp:188-197 | after the joins the fields hold what the writer wrote |
| `TestMemModel.ReadManyTest.Test01` | samples/cpp_atomic_mm/src/main.cpp:174-298 | under any schedule nothing fails or races, and after the joins main may use the fields again and finds what the writer wrote |
| `PingPong.EveryRunTakesTurns` | samples/cpp_atomic_pong/src/main.cpp:155-223 | no race and no failed REQUIRE; one thread in its turn at a time, the one the status names; PING means equal rounds, PONG one ping more; the counter, read and written apart, loses no increment; each thread-local counter counts its own rounds |
| `PingPong.RecordIsExact` | samples/cpp_atomic_pong/src/main.cpp:131-136 | between turns the plain record holds the status and the exact counts |
| `PingPongLimits.OnlySpinsAreIdle` | samples/cpp_atomic_pong/src/main.cpp:57-69 | every step but a failed spin does exactly one unit of the remaining work |
| `PingPongLimits.EveryRunIsBounded` | samples/cpp_atomic_pong/src/main.cpp:230-278 | failed spins apart a run makes at most 28 PingCount + 3 steps, and is over exactly when it has made them |
| `PingPongLimits.SomeoneMoves` | samples/cpp_atomic_pong/src/main.cpp:161-162 | until the run is over some thread can do more than spin |
| `PingPongLimits.EveryRunCanFinish` | samples/cpp_atomic_pong/src/main.cpp:265 | main can always come to see both threads ready, and all can finish |
| `PingPongLimits.NoDataRace` | samples/cpp_atomic_pong/src/main.cpp:164-183 | no execution of `ping` and `pong` contains a data race on the record |
| `PingPongLimits.FinalRequiresIffPlayed` | samples/cpp_atomic_pong/src/main.cpp:280-289 | whatever copy of the record main may read after the joins, its final REQUIREs, that on its own thread-local counter among them, hold exactly when PingCount is at least 1 |
| `PingPongTrace.EveryThreadPlaysItsRounds` | samples/cpp_atomic_pong/src/main.cpp:160-186 | each thread plays its rounds in order and nothing else, and all of them when it is done: in round k `ping` reads the record, counts to 2k + 1, publishes PONG, 2k + 1, k + 1, k and passes PONG; `pong` counts to 2k + 2, publishes and passes PING, or IDLE in the last round |
| `PingPongTrace.EveryThreadAcquires` | samples/cpp_atomic_pong/src/main.cpp:158-171 | failed spins apart a thread makes one load to get ready and four in each round |
| `PingPongTrace.FailedIffMismatch` | samples/cpp_atomic_pong/src/main.cpp:164-169 | a REQUIRE has failed exactly when the status is not the one of the turn, or the copy of the record does not have that status, the count, a total that adds up and the thread's own count |
| `TestAtomics.AtomicsTest.constructor` | samples/cpp_atomic_pong/src/main.cpp:142-153 | `reset(PING)` and the start of both threads |
| `TestAtomics.AtomicsTest.AwaitTurn` | samples/cpp_atomic_pong/src/main.cpp:155-163 | getting ready, spinning and checking the status again, in place |
| `TestAtomics.AtomicsTest.CopyRecord` | samples/cpp_atomic_pong/src/main.cpp:165 | copying one field of the record |
| `TestAtomics.AtomicsTest.PublishRecord` | samples/cpp_atomic_pong/src/main.cpp:181 | publishing one field of the record |
| `TestAtomics.AtomicsTest.Ping` | samples/cpp_atomic_pong/src/main.cpp:166-183 | the checks and updates of `ping`, in place |
| `TestAtomics.AtomicsTest.Pong` | samples/cpp_atomic_pong/src/main.cpp:203-220 | the checks and updates of `pong`, in place |
| `TestAtomics.AtomicsTest.ThreadStep` | samples/cpp_atomic_pong/src/main.cpp:155-223 | one step of either thread |
| `TestAtomics.AtomicsTest.StepOnce` | samples/cpp_atomic_pong/src/main.cpp:230-278 | one step of either thread or main |
| `TestAtomics.AtomicsTest.Test01` | samples/cpp_atomic_pong/src/main.cpp:230-290 | under any schedule nothing fails or races, and the final checks hold exactly when there was a round |
| `Bucket.EveryRunBalances` | samples/cpp_stlthreads/src/main.cpp:52-95 | no abort; with the mutex free `given == taken + value`, the value is within the capacity and each thread-local tally equals its counter; the producer is about to notify only at value 1, the consumer only at capacity - 1, in the one form with the mutex, in the other without; whoever waits, waits for what still is so or is still to be announced |
| `Bucket.NotifiesIffCrossed` | samples/cpp_pthreads/src/main.cpp:64-105 | each side notifies exactly as often as its items made the bucket stop being empty, or stop being full |
| `Bucket.FailedIffMismatch` | samples/cpp_pthreads/src/main.cpp:61-98 | a thread has aborted exactly when its thread-local tally differed from the shared counter |
| `Bucket.EveryStuckRunIsFinished` | samples/cpp_pthreads/src/main.cpp:188-194 | no wakeup is lost: where nobody can go on, both are done and main's checks hold: all items given and taken, nothing left, its own thread-local counter untouched |
| `Bucket.EveryRunIsBounded` | samples/cpp_stlthreads/src/main.cpp:98-118 | a run has at most 22 N + 2 steps, and three more for each spurious wakeup |
| `Bucket.FinishesIffRoom` | samples/cpp_pthreads/src/main.cpp:76-110 | both threads can finish exactly when the capacity is at least 1 or there are no items |
| `BucketRefinement.StepRefines` | samples/cpp_pthreads/src/main.cpp:40-110 | each step is one allowed operation of an atomic bounded counter, or invisible |
| `BucketRefinement.EveryRunRefines` | samples/cpp_pthreads/src/main.cpp:112-134 | each run of either form is a legal history of the atomic bounded counter |
| `BucketRefinement.LegalBalances` | samples/cpp_pthreads/src/main.cpp:188-191 | in a legal history the counter is what was given less what was taken, within the capacity |
| `BucketObject.SharedBucket.constructor` | samples/cpp_stlthreads/src/main.cpp:45-49 | an empty bucket with nothing given or taken |
| `BucketObject.SharedBucket.NotifyCondition` | samples/cpp_stlthreads/src/main.cpp:70-73 | the other thread leaves the wait set if it is in it |
| `BucketObject.SharedBucket.TakeStep` | samples/cpp_stlthreads/src/main.cpp:52-74 | one step of taking items, in place |
| `BucketObject.SharedBucket.GiveStep` | samples/cpp_stlthreads/src/main.cpp:76-95 | one step of giving items, in place |
| `BucketObject.SharedBucket.StepOnce` | samples/cpp_stlthreads/src/main.cpp:98-118 | one step of whichever thread is scheduled, or a spurious wakeup |
| `BucketObject.SharedBucket.Run` | samples/cpp_stlthreads/src/main.cpp:133-152 | under any schedule nothing aborts, and where nobody can go on main's checks hold |
| `BounceTurn.EveryRunKeepsTheTurn` | tests/pthread/src/pthread.c:89-124 | nobody sees a foreign claim or locks twice; turns carried plus signals that found nobody are one plus the spurious wakeups; each thread claims once a round |
| `BounceTurn.StuckIsFinishedIffNotHarmed` | tests/pthread/src/pthread.c:99-123 | where nobody can go on and nothing woke spuriously, all are through exactly when no signal was wasted |
| `BounceTurn.LoneThreadNeedsHelp` | tests/pthread/src/pthread.c:98-99 | a thread alone gets through exactly with B - 1 spurious wakeups |
| `BounceLimits.SoloRunWastes` | tests/pthread/src/pthread.c:80-122 | the run in which thread 0 alone goes through its first signal wastes it, for all sizes but one thread with one round |
| `BounceLimits.NoneWastedIffOneClaim` | tests/pthread/src/pthread.c:98-123 | without spurious wakeups no run wastes a signal exactly when there is one thread with one round |
| `BounceLimits.AllGetThroughIffOneClaim` | tests/pthread/src/pthread.c:89-124 | without spurious wakeups every run that cannot go on has everybody through exactly when there is one thread with one round |
| `BounceRotation.ClaimsRotate` | tests/pthread/src/pthread.c:106-123 | under the scheduling the test counts on, claims follow a fixed rotation that thread 0 begins, and no signal is wasted |
| `BounceRotation.DisciplinedRunsFinish` | tests/pthread/src/pthread.c:93-104 | under it no run stops before every thread has claimed exactly BOUNCES times |
| `BounceBound.EveryRunIsBounded` | tests/pthread/src/pthread.c:89-124 | every run is finite, with any spurious wakeups |
| `BounceTrace.EveryClaimIsWatched` | tests/pthread/src/pthread.c:109-120 | in every run each thread has looked at each claim it passed on exactly J times |
| `BounceTrace.FailedIffAlarmed` | tests/pthread/src/pthread.c:82-115 | `bounce_failed` is set exactly when a thread got the mutex twice or met a foreign claim |
| `Barrier.AllAsleep` | tests/pthread/src/pthread.c:131-134 | with all flags set and the mutex taken by main, every worker is in the wait set, or was woken spuriously |
| `Barrier.BroadcastReachesAll` | tests/pthread/src/pthread.c:321-333 | the one broadcast finds every worker waiting, and no worker is past the barrier before all are in it, so `barrier_failed` stays 0 |
| `Barrier.StuckRunsHaveEnded` | tests/pthread/src/pthread.c:335-353 | where nobody can go on main has ended, past both semaphore loops, with exactly one serial thread counted |
| `Barrier.EveryRunIsBounded` | tests/pthread/src/pthread.c:321-337 | every run is finite: a semaphore token sends main around a loop once |
| `Barrier.EveryFlagIsLookedAt` | tests/pthread/src/pthread.c:140-147 | before it comes to the barrier each worker has looked at the flag of each worker exactly once |
| `Barrier.FailedIffAlarmed` | tests/pthread/src/pthread.c:141-143 | `barrier_failed` is set exactly when a worker found another one through the barrier |
| `Execution.EveryRunIsSafe` | tests/pthread/src/pthread.c:67-150 | in every run of the whole test the mutex has one owner, no check fails, and at the broadcast every thread is through its rounds and waits, or was woken spuriously |
| `Execution.StuckRunsEndIffNotHarmed` | tests/pthread/src/pthread.c:268-356 | where nobody can go on the whole test has ended exactly when everybody is through the rounds, without spurious wakeups there exactly when no signal was wasted, and then with one serial thread |
| `Execution.TestEndsIffOneClaim` | tests/pthread/src/pthread.c:89-124 | whatever the schedule the whole test ends without spurious wakeups in the rounds exactly when there is one thread with one round |
| `Execution.EveryRunIsBounded` | tests/pthread/src/pthread.c:67-356 | every run of the whole test is finite |
| `PthreadExecution.BounceTest.constructor` | tests/pthread/src/pthread.c:291-293 | the threads at their start |
| `PthreadExecution.BounceTest.TryDoubleLock` | tests/pthread/src/pthread.c:80-87 | the attempt to lock twice, in place |
| `PthreadExecution.BounceTest.AwaitTurn` | tests/pthread/src/pthread.c:91-104 | waiting for the turn, or sleeping in thread 0's first round |
| `PthreadExecution.BounceTest.UseTurn` | tests/pthread/src/pthread.c:109-123 | claiming, yielding and watching for foreign claims |
| `PthreadExecution.BounceTest.SignalNext` | tests/pthread/src/pthread.c:122 | one waiting thread leaves the queue, or the signal is lost |
| `PthreadExecution.BounceTest.ThreadTopExec` | tests/pthread/src/pthread.c:67-124 | one step of the first phase |
| `PthreadExecution.BounceTest.StepOnce` | tests/pthread/src/pthread.c:67-124 | a step of a thread or a spurious wakeup |
| `PthreadExecution.BounceTest.Run` | tests/pthread/src/pthread.c:89-124 | under any schedule the check of the claim never fails, and getting stuck means done or a wasted signal |
| `PthreadExecution.BarrierTest.constructor` | tests/pthread/src/pthread.c:281-283 | flags clear, semaphore at 1 |
| `PthreadExecution.BarrierTest.Report` | tests/pthread/src/pthread.c:131-135 | reporting and waiting for the broadcast, in place |
| `PthreadExecution.BarrierTest.LookAt` | tests/pthread/src/pthread.c:140-146 | looking at one flag for an early exit |
| `PthreadExecution.BarrierTest.CheckEarlyExit` | tests/pthread/src/pthread.c:140-147 | the loop over the flags, up to the barrier |
| `PthreadExecution.BarrierTest.EnterBarrier` | tests/pthread/src/pthread.c:147 | the last worker to come opens the barrier |
| `PthreadExecution.BarrierTest.LeaveBarrier` | tests/pthread/src/pthread.c:147-150 | recording the result, the flag and the report |
| `PthreadExecution.BarrierTest.WorkerStep` | tests/pthread/src/pthread.c:131-150 | one step of a worker after its bounce rounds |
| `PthreadExecution.BarrierTest.MainStep` | tests/pthread/src/pthread.c:321-344 | main's loops over the flags, its semaphore waits and the broadcast |
| `PthreadExecution.BarrierTest.StepOnce` | tests/pthread/src/pthread.c:131-150 | a step of a worker, of main, or a spurious wakeup |
| `PthreadExecution.BarrierTest.Run` | tests/pthread/src/pthread.c:321-353 | under any schedule the barrier check holds, and getting stuck means ended with one serial thread |
| `PthreadExecution.ExecutionTest.constructor` | tests/pthread/src/pthread.c:281-293 | both parts at their start |
| `PthreadExecution.ExecutionTest.BounceOnce` | tests/pthread/src/pthread.c:80-124 | a step of the bounce rounds, which needs the shared mutex if it locks |
| `PthreadExecution.ExecutionTest.RestOnce` | tests/pthread/src/pthread.c:131-150 | a step after them, for a thread that is through its rounds |
| `PthreadExecution.ExecutionTest.StepOnce` | tests/pthread/src/pthread.c:67-356 | either |
| `PthreadExecution.ExecutionTest.Run` | tests/pthread/src/pthread.c:268-356 | under any schedule the checks hold, and getting stuck means ended, with one serial thread, exactly when all are through the rounds |
| `StageScheduler.EveryRunIsSerial` | tests/pthread/src/pthread_specific.c:126-171 | segment k is the k-th to run, on thread k mod K; at most one thread is past its wait, it owns the mutex and its stage is the counter; the data is as if the segments had run one after the other |
| `StageScheduler.StuckRunsAreOver` | tests/pthread/src/pthread_specific.c:141-171 | no deadlock: where nobody can go on all threads are done and the counter is K * R |
| `StageBound.EveryRunIsBounded` | tests/pthread/src/pthread_specific.c:151-163 | a run is finite but for spurious wakeups, although a broadcast may wake threads only to wait again |
| `KeyTable.OperationsKeepValid` | tests/pthread/src/pthread_specific.c:185-206 | setting, creating and deleting keys never leaves a value in a free slot |
| `KeyTable.NewKeyReadsNull` | tests/pthread/src/pthread_specific.c:234-236 | a new key, also in a slot used before, reads NULL in every thread |
| `KeyTable.DeletedKeyReadsNull` | tests/pthread/src/pthread_specific.c:225-229 | deleting clears the key in every thread, leaves the others alone and works once |
| `KeyTable.SetThenGet` | tests/pthread/src/pthread_specific.c:188-192 | a value is read back by the thread that set it, through that key only |
| `KeyTable.CreateDeleteRoundTrip` | tests/pthread/src/pthread_specific.c:485-491 | creating a key and deleting it again restores the table |
| `KeyScripts.Segment0` | tests/pthread/src/pthread_specific.c:387-425 | main's first segment passes its assertions and leaves both keys with main's tags |
| `KeyScripts.Segments1And2` | tests/pthread/src/pthread_specific.c:185-206 | the threads find both keys NULL and leave them with their own tags |
| `KeyScripts.Segment3` | tests/pthread/src/pthread_specific.c:442-469 | deleting `key2` clears it for all and leaves `key` to all |
| `KeyScripts.Segments4To6` | tests/pthread/src/pthread_specific.c:210-220 | the threads find `key2` gone and `key` with their own tags |
| `KeyScripts.Segment7` | tests/pthread/src/pthread_specific.c:224-229 | deleting `key` leaves no key |
| `KeyScripts.Segment8` | tests/pthread/src/pthread_specific.c:322-337 | `key4`, made in a slot used before, reads NULL and then its tag |
| `KeyScripts.Segment9` | tests/pthread/src/pthread_specific.c:473-491 | main's assertions about the deleted `key2` hold exactly when `key4` is not in its slot, and then `key` has been made again, in the slot the allocator gives the fifth key, read as NULL and deleted |
| `KeyScripts.Segments10And11` | tests/pthread/src/pthread_specific.c:233-241 | `key3` reads NULL and then its tag, in a slot other than that of `key4` |
| `KeyScripts.Segment12` | tests/pthread/src/pthread_specific.c:495-505 | deleting `key3` and `key4` leaves no key |
| `KeyScripts.EveryAssertionHolds` | tests/pthread/src/pthread_specific.c:173-519 | in every run every key assertion made so far holds, except that the tenth segment fails exactly when `key4` has the slot `key2` had |
| `KeyScripts.EveryTableIsValid` | tests/pthread/src/pthread_specific.c:185-255 | with any allocator no thread ever holds a value in a free slot; as far as the assertions hold, the table is what the scripts left, 3, then 4, 5 and 6 keys have been made, each variable holds the slot its key was last made in, and the calls made are exactly those of the scripts, in order, with the results they ask for |
| `KeyScripts.StuckRunsEndAtFifteen` | tests/pthread/src/pthread_specific.c:126-138 | where nobody can go on the stage counter is 15, all threads are done, all calls of the scripts are made, and no key is left |
| `KeyScripts.LowestSlotsWork` | tests/pthread/src/pthread_specific.c:328-337 | with the lowest free slot `key4` gets the slot of `key`, not of `key2`, every assertion of every run holds, and in the end `key`, `key2` and `key3` name slot 1, `key4` slot 0 |
| `KeyLimits.AssertionsHoldIffSlotsDiffer` | tests/pthread/src/pthread_specific.c:479-483 | every assertion of every run holds exactly when `key4` does not get the slot `key2` had |
| `KeyLimits.ShiftingFails` | tests/pthread/src/pthread_specific.c:480 | an allocator that always finds a free slot and with which a run fails |
| `PthreadSpecific.Keys.constructor` | tests/pthread/src/pthread_specific.c:111 | no key exists |
| `PthreadSpecific.Keys.Create` | tests/pthread/src/pthread_specific.c:388 | a key variable gets a free slot |
| `PthreadSpecific.Keys.Delete` | tests/pthread/src/pthread_specific.c:225-226 | a slot is freed and cleared in every thread, or EINVAL is expected |
| `PthreadSpecific.Keys.Set` | tests/pthread/src/pthread_specific.c:188 | a thread's value of a key is set |
| `PthreadSpecific.Keys.Expect` | tests/pthread/src/pthread_specific.c:189-192 | a thread's value of a key is as asserted |
| `PthreadSpecific.Keys.Fill` | tests/pthread/src/pthread_specific.c:186-192 | a key reads NULL, is set, and reads its tag |
| `PthreadSpecific.Keys.DeleteOnce` | tests/pthread/src/pthread_specific.c:225-226 | a key is deleted, and cannot be deleted again |
| `PthreadSpecific.Keys.Gone` | tests/pthread/src/pthread_specific.c:211-214 | a deleted key cannot be deleted and reads NULL |
| `PthreadSpecific.Keys.FillBoth` | tests/pthread/src/pthread_specific.c:185-206 | both keys filled, the first still as set |
| `PthreadSpecific.Keys.KeepsKey` | tests/pthread/src/pthread_specific.c:210-220 | the second key gone, the first still as set |
| `PthreadSpecific.Keys.BothGone` | tests/pthread/src/pthread_specific.c:246-255 | both of the later keys gone |
| `PthreadSpecific.Keys.Prologue` | tests/pthread/src/pthread_specific.c:387-425 | main's script before it creates the others, in place |
| `PthreadSpecific.Keys.MainStage` | tests/pthread/src/pthread_specific.c:442-505 | main's script, stage by stage |
| `PthreadSpecific.Keys.Thread1Stage` | tests/pthread/src/pthread_specific.c:173-256 | the script of `thread_1` |
| `PthreadSpecific.Keys.Thread2Stage` | tests/pthread/src/pthread_specific.c:264-353 | the script of `thread_2` |
| `PthreadSpecific.Keys.RunStage` | tests/pthread/src/pthread_specific.c:126-138 | the part of a script that belongs to a stage |
| `PthreadSpecific.SpecificTest.constructor` | tests/pthread/src/pthread_specific.c:123 | the stage counter at 0, main before its first segment |
| `PthreadSpecific.SpecificTest.TestStageWait` | tests/pthread/src/pthread_specific.c:141-148 | waiting for a stage, in place |
| `PthreadSpecific.SpecificTest.CountStage` | tests/pthread/src/pthread_specific.c:154 | counting a stage |
| `PthreadSpecific.SpecificTest.Announce` | tests/pthread/src/pthread_specific.c:155-157 | the broadcast, and going on to the next stage |
| `PthreadSpecific.SpecificTest.TestStageIncr` | tests/pthread/src/pthread_specific.c:151-171 | both in order |
| `PthreadSpecific.SpecificTest.LockAndCreate` | tests/pthread/src/pthread_specific.c:428-437 | locking, creating the others and unlocking |
| `PthreadSpecific.SpecificTest.RunSegment` | tests/pthread/src/pthread_specific.c:185-208 | a thread runs the segment of its stage on the keys |
| `PthreadSpecific.SpecificTest.StepOnce` | tests/pthread/src/pthread_specific.c:365-519 | a step of a thread or a spurious wakeup |
| `PthreadSpecific.SpecificTest.Run` | tests/pthread/src/pthread_specific.c:365-519 | under any schedule the assertions hold on the stated condition, and getting stuck means the counter is at 15, with all calls made and no key left |
| `PthreadOnce.EveryCallerReadsOne` | tests/pthread/src/pthread_once.c:114-157 | at most one thread runs the init function, it increments once, every caller reads 1 after it, and main's check fails only without threads |
| `PthreadOnce.FailedIffMismatch` | tests/pthread/src/pthread_once.c:114-117 | a check has failed exactly when a caller or main read anything but 1, or a caller was refused |
| `PthreadOnce.BadControlNeverRuns` | tests/pthread/src/pthread_once.c:75-82 | with a bad control value the init function never runs |
| `PthreadOnceStart.NoStartSignalIsLost` | tests/pthread/src/pthread_once.c:90-145 | unless main is woken early, thread i reads i, and when main signals none has yet to start its wait: each waits on its own condition variable or was woken spuriously |
| `PthreadOnceStart.OwnIndexIffMainIsNotWokenEarly` | tests/pthread/src/pthread_once.c:136-140 | every thread reads its own index in all runs with at most n spurious wakeups of main exactly when n is 0 |
| `PthreadOnceStart.EarlyRunMisreads` | tests/pthread/src/pthread_once.c:139 | the run in which one early wakeup makes the first thread read 1 |
| `PthreadOnceStart.StuckRunsHaveEnded` | tests/pthread/src/pthread_once.c:142-157 | unless main is woken early: where nobody can go on main has joined all threads, and its check held if there were any |
| `PthreadOnceLimits.LosingRun` | tests/pthread/src/pthread_once.c:139-149 | for any number of threads, a run with one early wakeup of main in which main joins a thread for ever that waits for a signal already given |
| `PthreadOnceLimits.AllRunsEndIffMainIsNotWokenEarly` | tests/pthread/src/pthread_once.c:135-149 | all runs with at most n spurious wakeups of main end where nobody can go on exactly when n is 0 |
| `PthreadOnceStart.EveryRunIsBounded` | tests/pthread/src/pthread_once.c:90-159 | a run of K threads has at most 20 K + 5 steps, with any spurious wakeups |
| `PthreadOnceObject.Single.constructor` | tests/pthread/src/pthread_once.c:63-64 | the counter at 0 and a given control |
| `PthreadOnceObject.Single.CallOnce` | tests/pthread/src/pthread_once.c:67 | runs the init function on a fresh control, nothing on a used one, EINVAL on a bad one |
| `PthreadOnceObject.Single.CallMany` | tests/pthread/src/pthread_once.c:60-82 | however often it is called, the init function runs once |
| `PthreadOnceObject.ParallelTest.constructor` | tests/pthread/src/pthread_once.c:123-131 | no thread created, the counter at 0 |
| `PthreadOnceObject.ParallelTest.StartUp` | tests/pthread/src/pthread_once.c:92-107 | a thread reads its index, signals main and waits, in place |
| `PthreadOnceObject.ParallelTest.InitFunc` | tests/pthread/src/pthread_once.c:47-58 | one step of the init function |
| `PthreadOnceObject.ParallelTest.CallOnce` | tests/pthread/src/pthread_once.c:114-117 | entering, waiting for and leaving `pthread_once`, and the check after it |
| `PthreadOnceObject.ParallelTest.MainStep` | tests/pthread/src/pthread_once.c:134-157 | main creating, waiting, signalling and joining |
| `PthreadOnceObject.ParallelTest.StepOnce` | tests/pthread/src/pthread_once.c:90-159 | a step of a thread, of main, or a spurious wakeup |
| `PthreadOnceObject.ParallelTest.Run` | tests/pthread/src/pthread_once.c:123-159 | under any schedule the checks hold, and unless main is woken early getting stuck means ended |
| `StateHandshake.StatesInOrder` | samples/cpp_exceptions/src/main.cpp:48-98 | the state takes the values 0, 1, ..., 2R in order, none is overwritten before its waiter saw it, and a signal that finds the other waiting wakes it for its state |
| `StateHandshake.StuckRunsAreOver` | samples/cpp_exceptions/src/main.cpp:378-485 | one signal for each change suffices: where nobody can go on both threads are through |
| `StateHandshake.EveryRunIsBounded` | samples/cpp_exceptions/src/main.cpp:56-61 | a run has at most 32 R + 37 steps, and three more for each spurious wakeup |
| `ExceptionStacks.DoCounted` | tests/cpp/concurrency/src/cpp_exceptions.cpp:411-456 | throwing, catching, rethrowing and keeping pointers keep the count of references to each object exact |
| `ExceptionStacks.ReferredIsSteady` | tests/cpp/concurrency/src/cpp_exceptions.cpp:432-448 | whatever any thread does, an object stays as thrown for as long as a thread refers to it |
| `ExceptionStacks.NothingDanglesOrLeaks` | tests/cpp/concurrency/src/cpp_exceptions.cpp:411-492 | for any number of threads: what a thread refers to is in the pool and its own, and when nobody refers to anything the pool is empty |
| `ExceptionScripts.EveryHandlerSeesItsException` | tests/cpp/concurrency/src/cpp_exceptions.cpp:411-615 | in every run, rethrown either way, no check fails and no abort is reached; in every handler of the other thread the exception has id 1, in main's handler of phase p id p, with the message of that number, both cookies 0xAFFEAFFE and the runtime type, before and after the handshake |
| `ExceptionScripts.ChecksNotice` | samples/cpp_exceptions/src/main.cpp:176-196 | each check notices any other object in place of the one handled: it fails exactly when a cookie, the id, the type or the first twelve characters of the message differ |
| `ExceptionScripts.EveryCheckIsMade` | samples/cpp_exceptions/src/main.cpp:264-310 | no check is skipped: two in each handler and a last one by main, 4R + 1 in all when both are through |
| `ExceptionScripts.StuckRunsLeaveNothing` | tests/cpp/concurrency/src/cpp_exceptions.cpp:458-492 | where nobody can go on both threads are through, in the last state, and every exception is destroyed |
| `ExceptionsObject.ExceptionTest.constructor` | samples/cpp_exceptions/src/main.cpp:41 | the state at 0, no exception in the pool |
| `ExceptionsObject.ExceptionTest.SetAndSignal` | samples/cpp_exceptions/src/main.cpp:79-83 | setting the state and signalling, in place |
| `ExceptionsObject.ExceptionTest.AwaitState` | samples/cpp_exceptions/src/main.cpp:85-91 | testing the state and waiting, in place |
| `ExceptionsObject.ExceptionTest.HandshakeStep` | samples/cpp_exceptions/src/main.cpp:48-98 | one step of setting, signalling and waiting, in place |
| `ExceptionsObject.ExceptionTest.CheckException` | samples/cpp_exceptions/src/main.cpp:176-196 | cookies, id, message and type are compared one by one, and a mismatch is a failure |
| `ExceptionsObject.ExceptionTest.CheckStep` | samples/cpp_exceptions/src/main.cpp:284-310 | the checks before, after and at the end of a handshake, and where the handler goes on |
| `ExceptionsObject.ExceptionTest.CreateOrJoin` | samples/cpp_exceptions/src/main.cpp:381-388 | main creating and joining the other thread |
| `ExceptionsObject.ExceptionTest.Retain` | tests/cpp/concurrency/src/cpp_exceptions.cpp:431 | one more reference to a pooled object |
| `ExceptionsObject.ExceptionTest.Release` | tests/cpp/concurrency/src/cpp_exceptions.cpp:448-449 | one reference less, the last one destroying the object |
| `ExceptionsObject.ExceptionTest.MakeException` | tests/cpp/concurrency/src/cpp_exceptions.cpp:423 | an object with its id, message and cookies is made at a free address and is in flight |
| `ExceptionsObject.ExceptionTest.ThrowNew` | tests/cpp/concurrency/src/cpp_exceptions.cpp:423 | throwing it, and where the thread goes on |
| `ExceptionsObject.ExceptionTest.EnterHandler` | tests/cpp/concurrency/src/cpp_exceptions.cpp:426 | the exception in flight becomes the one handled, if its type matches |
| `ExceptionsObject.ExceptionTest.PointToCaught` | tests/cpp/concurrency/src/cpp_exceptions.cpp:431 | a counted pointer to the exception handled |
| `ExceptionsObject.ExceptionTest.CapturePointer` | tests/cpp/concurrency/src/cpp_exceptions.cpp:430-431 | keeping it in the handler |
| `ExceptionsObject.ExceptionTest.RethrowCaught` | samples/cpp_exceptions/src/main.cpp:311 | `throw;` puts the object handled in flight again |
| `ExceptionsObject.ExceptionTest.RethrowPointer` | tests/cpp/concurrency/src/cpp_exceptions.cpp:448 | `std::rethrow_exception` puts the object pointed to in flight again |
| `ExceptionsObject.ExceptionTest.RethrowSame` | tests/cpp/concurrency/src/cpp_exceptions.cpp:448 | rethrowing either way, and where the thread goes on |
| `ExceptionsObject.ExceptionTest.DropPointer` | tests/cpp/concurrency/src/cpp_exceptions.cpp:430-449 | the pointer goes out of scope with its handler |
| `ExceptionsObject.ExceptionTest.LeaveHandler` | tests/cpp/concurrency/src/cpp_exceptions.cpp:448-484 | what a handler handled is handled no more when it is left |
| `ExceptionsObject.ExceptionTest.ExceptionStep` | samples/cpp_exceptions/src/main.cpp:264-318 | one step of throwing, catching, rethrowing or leaving a handler |
| `ExceptionsObject.ExceptionTest.StepOnce` | samples/cpp_exceptions/src/main.cpp:372-543 | a step of either thread or a spurious wakeup |
| `ExceptionsObject.ExceptionTest.Run` | samples/cpp_exceptions/src/main.cpp:372-543 | under any schedule no check fails, and getting stuck means both through with no exception left |

## Left out

- BounceRotation.ClaimsRotate: assumes a first-in, first-out `cvar0`, no spurious wakeup, and that nobody takes the
  turn before all others wait or are through, which the sleep of thread 0 and the yields are there to bring about;
  without it `BounceTurn.StuckIsFinishedIffNotHarmed` says when a run gets everybody through.
- Barrier.StuckRunsHaveEnded: takes a worker's way through the bounce rounds as one step; `Execution` composes both
  parts, and `Execution.StuckRunsEndIffNotHarmed` says when the whole test ends.
- PingPongLimits.NoDataRace: speaks of `ping` and `pong`, not of main's diagnostic read of the record while they run
  (samples/cpp_atomic_pong/src/main.cpp:261), which only feeds a message; what main reads after the joins is the
  subject of `PingPongLimits.FinalRequiresIffPlayed`.
- StateHandshake.StuckRunsAreOver: the local cookie variables beside the exceptions are never written and are not
  modelled.
- The second copies of the bucket (tests/cpp/concurrency/src/stl_threads01.cpp, tests/pthread/src/pthread_threads01.c)
  make the same steps with other assertion macros; the two forms of `Bucket` cover them.
- More than one producer or consumer: the programs have one of each.
- Integer widths: the counters stay below the small constants of the programs.
- Weaker memory orders than sequential consistency, which no program uses.
- The C++20 atomic-wait form of ping-pong, which is disabled.
- Messages of exceptions are compared by their first twelve characters; their storage and the type information are not
  modelled beyond whether the type is `RuntimeException`.
- Stack unwinding through destructors, allocation failure and `std::terminate`.
- The Zephyr implementation of POSIX threads is not part of this model; only the contracts the programs use are.
- Priorities, thread names, timed joins, detaching, cancellation and resource limits in the pthread suites.
- Printing, formatting (`miscutils`), build files and single-threaded tests.
- A failed assertion sets a flag and the model goes on; the programs abort. In the key scripts it ends the scripts.
