# A verified model of the async task engine

The engine is a set of small concurrent components: a bounded lock-free ring, a thread pool with a
FIFO task queue and `.then()` continuations, an asynchronous logger, a priority scheduler, a fused
pipeline, and lazy coroutines that hop between threads. This project models each of them in Dafny
and proves what they promise over every interleaving of any number of threads.

Each concurrent component comes in the same layers.

- **A step system** (`RingProtocol`, `Pool`, `LoggerProtocol`, `CoroProtocol`): a state, the
  actions, one per atomic operation, critical section, future access or callback, and `Legal` /
  `Exec` for runs. History variables (`claimed`, `accepted`, `popped`, `sunk`, `marks`, …) record
  what happened; no step depends on them.
- **An inductive invariant and theorems over all runs** (`RingInvariant`, `RingFifo`,
  `RingProgress`, `PoolInvariant`, `PoolTheorems`, `Chains`, `LoggerTheorems`, `CoroTheorems`,
  `Scheduling`).
- **A class in the source's imperative form** (`LockFreeQueue`, `TaskQueue`, `ThreadPool`,
  `AsyncResult`, `Logger`, `PriorityScheduler`, `Pipeline`, `CoroTask`): fields and arrays updated
  in place, loops with invariants. Every atomic operation is a method that states its whole effect
  and is proved to make exactly one step of the system. The looping operations (`TryPush`, `TryPop`,
  `WorkerLoop`, `Shutdown`, `FlushAll`, `DrainLoop`, `Destroy`, `Get`, …) take a script `env`, a
  sequence of windows of what the other threads do between their own steps. The script is
  universally quantified, so such a method is proved for every interference.
- **Schedules** (`RingSchedule`, `PoolSchedule`, `LoggerSchedule`, `CoroSchedule`): from a window each
  step is taken that is possible when its turn comes; a method plays one window before each of its
  own steps, or lets windows pass while it is blocked, until the script ends. The run that a looping
  method makes, or the state it reaches, is thereby a function of the state and the script, and its
  contract says that it is that one.

Reading order for the ring: `Words` (64-bit arithmetic), `RingProtocol`, `RingInvariant`,
`RingFifo`, `RingProgress`, `RingWords`, `RingWitness`, `RingWrap`, `RingTrace`, `RingSchedule`,
`LockFreeQueue`.
The pool: `Pool`, `PoolInvariant`, `PoolTheorems`, `Chains`, `TaskQueue`, `PoolSchedule`,
`ThreadPool`, `Pipeline`. The logger: `LoggerProtocol`, `LoggerTheorems`, `LoggerWords`,
`LoggerSchedule`, `Logger`.

## Assumptions

- Interleavings are sequentially consistent, one step per atomic operation. `compare_exchange_weak`
  may fail spuriously at any time; the retry bound counts those failures separately.
- A mutex-protected section is one step. A condition-variable wait is its specification: it may end
  whenever its predicate holds, the stop-token form also on a stop request, and the logger's timed
  wait at any moment. A future is a write-once cell; setting it is one step.
- `std::priority_queue` is its contract: `top` is some element that is not less than any other.
- Values, callables and messages are opaque. A task body is observed only through its outcome, a
  value or an exception; it terminates and does not block on the pool.

## Where the code and its comments differ

The model follows the code.

- `lockfree_queue.hpp` says that a failed push means "full" and a failed pop "empty". The exact
  meaning is weaker (`PushFailsExactly`, `PopFailsExactly`); `RingWitness` has a run in which a pop
  is told "empty" after a push has returned true and nothing was popped, and one in which a push is
  told "full" below capacity. The comments are right exactly under a condition on one slot: a push
  at the current position is told "full" exactly when the queue is full if and only if no consumer
  is still inside the slot it needs (`PushAnswersFullExactly`), and a pop is told "empty" exactly
  when the queue is empty if and only if no producer is still inside the head's slot
  (`PopAnswersEmptyExactly`). With no operation in flight that always holds
  (`QuietFailureIsFullOrEmpty`).
- The ring's signed comparison decides as the protocol does exactly when the loaded sequence and the
  position lie on the same side of 2^63; for values less than 2^63 apart that is also exactly when
  the C++ subtraction is defined (`PushBranchAgreesExactly`, `PopBranchAgreesExactly`). A run of
  2^63 - 1 pushes and pops, with every subtraction defined, reaches a load whose subtraction
  overflows (`PopAtTheBoundaryOverflows`). C++ leaves that undefined. A machine that wraps gets the
  right answer there, as it does for any words less than 2^63 apart (`WrappedDiffExactly`); `Diff`
  keeps the difference exact, and under that reading the pop never returns.
- `scheduler.hpp` promises FIFO within a priority. That holds exactly while every push finds the
  counter above the sequences waiting at its priority (`PushDrainsAlikeExactly`,
  `SchedulerIsFourFifosExactly`), in particular for the first 2^64 pushes (`InOrderUntilWrap`), and
  not for ever (`WrapBreaksFifo`).
- `logger.hpp` says that `flush` blocks until all queued messages have been written. The
  comparison of 64-bit generations is right exactly while the counter has not wrapped between them
  (`GenerationsCompareExactly`); the guarantee carries over to every run with fewer than 2^64
  generations (`WordFlushGuarantee`) and is lost at the wrap (`WrapBreaksFlush`). In runs of any
  length, `WordFlushExactly` says when a flush returns early or is held up.
- `coro_task.hpp` says that the final awaiter makes it safe to destroy the frame once completion is
  signalled. That holds for a `get` that waited for the signal; a `get` that finds the coroutine done
  may return while the final awaiter has yet to read the frame (`FrameMayBeDestroyed`,
  `GotBeforeTheFinalAwaiterRead`).
- `logger.hpp` speaks of a lock-free MPSC queue; the code has a mutex and a deque.
- `pipeline.hpp` says that each stage runs as a task and that stages run concurrently; the code
  fuses all stages into one task.
- `thread_pool.hpp` lists `request_stop()` before the queue's shutdown; the code shuts the queue
  down first. Between the two, an idle worker turns its main loop without waiting (`Spins`).
- A refused `then` has already moved the predecessor's future away, so that result is lost to the
  caller (`AsyncResult.Then`).

## Model

| member | source | states |
|---|---|---|
| Words.RoundUpPow2 | include/ate/lockfree_queue.hpp:219-229 | for every 64-bit n up to 2^63 the least power of two that is at least n and at least 2, by smearing; above 2^63 the increment overflows to 0 |
| Words.SmearLine | include/ate/lockfree_queue.hpp:222-227 | one line of the cascade doubles the run of set bits under the top bit, or leaves a complete run alone |
| Words.RunIsComplete | include/ate/lockfree_queue.hpp:228 | a complete run plus one is the least power of two not below the argument, and overflows exactly above 2^63 |
| Words.MaskIsRemainder | include/ate/lockfree_queue.hpp:129 | masking with 2^k - 1 is the remainder modulo 2^k, for every number |
| RingWords.IndexIsSlot | include/ate/lockfree_queue.hpp:98-99 | with a power-of-two capacity, `pos & mask_`, the protocol's slot and `pos % capacity_` are one index |
| RingProtocol.SlotsApart | include/ate/lockfree_queue.hpp:129 | positions less than a lap apart never share a slot |
| RingInvariant.InitialInv | include/ate/lockfree_queue.hpp:102-112 | what the constructor leaves satisfies the ticket invariant, for any number of threads |
| RingInvariant.WinPushHasRoom | include/ate/lockfree_queue.hpp:138-141 | when a producer's CAS succeeds the queue holds fewer than `capacity` tickets |
| RingInvariant.WinPopHasHead | include/ate/lockfree_queue.hpp:183-186 | when a consumer's CAS succeeds there is a head ticket and its slot holds the value its producer claimed it with |
| RingInvariant.FillKeepsInv | include/ate/lockfree_queue.hpp:142 | the non-atomic move into the slot disturbs no other thread and no other ticket |
| RingInvariant.TakeKeepsInv | include/ate/lockfree_queue.hpp:187 | the move out of the slot reads the claimed value and disturbs nothing |
| RingInvariant.BumpKeepsInv | include/ate/lockfree_queue.hpp:144 | publishing or releasing a slot keeps every other thread's knowledge, including stale reads of ready slots |
| RingInvariant.StepKeepsInv | include/ate/lockfree_queue.hpp:125-205 | every step of every thread keeps the ticket invariant: per slot a ticket with sequence t or t+1, bounds on stale positions, one owner per ticket |
| RingInvariant.RunKeepsInv | include/ate/lockfree_queue.hpp:125-205 | so does every run |
| RingFifo.StepSimulatesFifo | include/ate/lockfree_queue.hpp:138-145 | a step is at most one step of the bounded FIFO: a winning push CAS appends its value below capacity, a winning pop CAS removes exactly the head, all else leaves the contents alone |
| RingFifo.RunSimulatesFifo | include/ate/lockfree_queue.hpp:125-205 | every run simulates the bounded FIFO event by event and the contents stay within 0..capacity |
| RingFifo.StepBalances | include/ate/lockfree_queue.hpp:145 | what a call reports is the effect its CAS had, no more, no less, for every thread and step |
| RingFifo.Linearizable | include/ate/lockfree_queue.hpp:125-205 | from a fresh ring, the winning CASes form a legal history of the bounded FIFO ending in the current contents, and each thread's successful returns are its winning CASes in order, but for the one call it may be inside |
| RingFifo.DataHasOneOwner | include/ate/lockfree_queue.hpp:141-144 | two threads between CAS and sequence store always work on different slots |
| RingFifo.StalePushReadIsHarmless | include/ate/lockfree_queue.hpp:130-140 | however stale the read, if the position is still current the slot still has the observed sequence, and the ticket a lap earlier was released |
| RingFifo.StalePopReadIsHarmless | include/ate/lockfree_queue.hpp:176-184 | the same for a consumer: the slot's sequence is still pos+1 and the ticket is published |
| RingFifo.PushFailsExactly | include/ate/lockfree_queue.hpp:150-154 | try_push fails at its load if and only if its position is current and the ticket a lap earlier is not released |
| RingFifo.PopFailsExactly | include/ate/lockfree_queue.hpp:196-199 | try_pop fails at its load if and only if its position is current and that ticket is not published |
| RingFifo.PushAnswersFullExactly | include/ate/lockfree_queue.hpp:150-154 | at the current position, "full" is answered exactly when the queue is full, if and only if no consumer holds the ticket a lap earlier between its CAS and its release, whatever else is in flight |
| RingFifo.PopAnswersEmptyExactly | include/ate/lockfree_queue.hpp:196-199 | at the current position, "empty" is answered exactly when the queue is empty, if and only if no producer holds the head ticket between its CAS and its store |
| RingFifo.StalePositionRetries | include/ate/lockfree_queue.hpp:155-159 | a position that is no longer current never gives an answer |
| RingFifo.QuietFailureIsFullOrEmpty | include/ate/lockfree_queue.hpp:150-154 | with nothing between CAS and sequence store, that condition holds: failure is exactly size = capacity, or size = 0 |
| RingWitness.EmptyAnswerOverACompletedPush | include/ate/lockfree_queue.hpp:196-199 | a run in which a pop is told "empty" although another thread's push has returned true and two values are queued |
| RingWitness.FullAnswerBelowCapacity | include/ate/lockfree_queue.hpp:150-154 | a run in which a push is told "full" while one slot's worth of capacity is unused |
| RingWitness.CapacityOneLosesExclusion | include/ate/lockfree_queue.hpp:102 | why capacity must be at least 2: with one slot a producer and a consumer own it at once |
| RingProgress.StepUsesLag | include/ate/lockfree_queue.hpp:138-158 | each passage through the loop head is paid for by the position's lag; lag is gained only by another thread's claim or a spurious failure |
| RingProgress.RetriesAreBounded | include/ate/lockfree_queue.hpp:126-160 | a call loads a slot's sequence at most 1 + (claims by others on its counter) + (spurious failures) times |
| RingProgress.AloneFinishes | include/ate/lockfree_queue.hpp:172-204 | from any reachable state a thread running alone returns within six atomic steps and two passes of the loop |
| RingProgress.SizeEstimateIsBounded | include/ate/lockfree_queue.hpp:211-215 | the estimate never exceeds the capacity nor the size at its first load, whatever happens between the loads |
| RingWords.PushBranchAgreesExactly | include/ate/lockfree_queue.hpp:132-159 | the signed comparison, its difference kept exact, takes the protocol's branch if and only if sequence and position are on the same side of 2^63; for values less than 2^63 apart, if and only if the C++ subtraction is defined |
| RingWords.PopBranchAgreesExactly | include/ate/lockfree_queue.hpp:178-203 | the same for try_pop, with the wrapped pos + 1 |
| RingWords.WrappedDiffExactly | include/ate/lockfree_queue.hpp:132-133 | a subtraction that wraps finds the true distance of two words if and only if they are less than 2^63 apart, on whichever sides of 2^63 |
| RingWords.WordStepAgreesExactly | include/ate/lockfree_queue.hpp:129-144 | on any words, one step of the 64-bit code takes the protocol's branch and stores its values if and only if the step fits: both operands on one side of 2^63 at a load, no addition that wraps at a claim or a store |
| RingWords.WordStepRefines | include/ate/lockfree_queue.hpp:129-144 | while enqueue_pos_ + capacity_ < 2^63 every step fits, and one step of the 64-bit code is the protocol's step |
| RingWords.WordRunRefines | include/ate/lockfree_queue.hpp:125-205 | so is every whole run that ends below that bound |
| RingWords.AtomicStep | include/ate/lockfree_queue.hpp:125-205 | every atomic operation of the 64-bit code stays on words wherever the positions are, and below 2^63 it is the protocol's step and keeps the invariant |
| RingWrap.PopAtTheBoundaryOverflows | include/ate/lockfree_queue.hpp:171-205 | a run of 2^63 - 1 pushes and pops with every subtraction defined, up to a pop of the empty queue whose subtraction overflows; read as wrapping, the difference is -1 and the pop answers "empty"; read as exact, it is 2^64 - 1 and the pop never returns |
| RingSchedule.PlayedNext | include/ate/lockfree_queue.hpp:125-205 | from a window exactly those moves of other threads are taken that are possible when their turn comes |
| RingSchedule.TurnTaken | include/ate/lockfree_queue.hpp:125-205 | after its window a thread makes its next operation, and a CAS fails if the window says so: that is the next turn of its call |
| LockFree.LockFreeQueue.constructor | include/ate/lockfree_queue.hpp:97-113 | for a minimum capacity up to 2^63: the least power of two not below it and at least 2, slot i's sequence i, both counters 0 |
| LockFree.LockFreeQueue.LoadSequenceForPush | include/ate/lockfree_queue.hpp:129-155 | for every 64-bit state: the masked load and the signed difference decide the branch, and nothing else changes; below 2^63 that is the protocol's step and keeps the invariant |
| LockFree.LockFreeQueue.CasEnqueuePos | include/ate/lockfree_queue.hpp:138-149 | for every 64-bit state: wins exactly if the position is current and it does not fail spuriously; a loser gets the current position; below 2^63 that is the protocol's step and keeps the invariant |
| LockFree.LockFreeQueue.MoveIn | include/ate/lockfree_queue.hpp:142 | for every 64-bit state: writes the value to the masked slot only; below 2^63 that is the protocol's step and keeps the invariant |
| LockFree.LockFreeQueue.Publish | include/ate/lockfree_queue.hpp:144 | for every 64-bit state: stores the wrapped pos + 1 in the masked slot only; below 2^63 that is the protocol's step and keeps the invariant |
| LockFree.LockFreeQueue.LoadSequenceForPop | include/ate/lockfree_queue.hpp:175-200 | for every 64-bit state: the masked load and the signed difference with the wrapped pos + 1 decide the branch; below 2^63 that is the protocol's step and keeps the invariant |
| LockFree.LockFreeQueue.CasDequeuePos | include/ate/lockfree_queue.hpp:183-194 | for every 64-bit state: as CasEnqueuePos, on the consumers' counter; below 2^63 that is the protocol's step and keeps the invariant |
| LockFree.LockFreeQueue.MoveOut | include/ate/lockfree_queue.hpp:187 | for every 64-bit state: reads the value from the masked slot and changes no slot; below 2^63 that is the protocol's step and keeps the invariant |
| LockFree.LockFreeQueue.Release | include/ate/lockfree_queue.hpp:190-191 | for every 64-bit state: stores the wrapped pos + capacity in the masked slot only; below 2^63 that is the protocol's step and keeps the invariant |
| LockFree.LockFreeQueue.TryPush | include/ate/lockfree_queue.hpp:125-161 | one window of `env` is played before each of its operations, and the run is exactly that; true exactly if this call appended the value once; false only with the ticket a lap back unreleased, and then the queue is full if and only if no consumer is inside that slot; the retry bound holds |
| LockFree.LockFreeQueue.TryPop | include/ate/lockfree_queue.hpp:171-205 | one window of `env` is played before each of its operations, and the run is exactly that; a value exactly if this call removed it from the head once; nothing only with the head ticket unpublished, and then the queue is empty if and only if no producer is inside that slot; the retry bound holds |
| LockFree.LockFreeQueue.SizeApprox | include/ate/lockfree_queue.hpp:211-215 | the first load minus the second, with a window played in between; never above the size at the first load nor the capacity |
| TaskQueues.TaskQueue.Push | include/ate/task_queue.hpp:56-64 | appends at the back and leaves every waiter awake, or refuses without effect exactly after shutdown |
| TaskQueues.TaskQueue.TryPop | include/ate/task_queue.hpp:67-73 | removes and returns the oldest task, or nothing exactly when empty |
| TaskQueues.TaskQueue.WaitAndPop | include/ate/task_queue.hpp:81-95 | from the end of its wait: the oldest task if there is one, even when a stop request ended the wait; else nothing |
| TaskQueues.TaskQueue.Shutdown | include/ate/task_queue.hpp:98-104 | sets the flag, keeps the queued tasks and leaves every waiter awake |
| PoolInvariant.StepKeepsInv | src/thread_pool.cpp:92-106 | every step of submitters, workers and shutdown keeps: FIFO tickets, one place per task, shutdown before stop before draining, results equal meanings, histories in order |
| PoolInvariant.RunKeepsInv | src/thread_pool.cpp:92-106 | so does every run |
| PoolTheorems.TasksRunOnceInOrder | include/ate/task_queue.hpp:56-95 | in every run tasks leave the queue in submission order, each once; a future is set at most once, only after that, and to its task's meaning; a body is entered at most once, only after its task was taken and with no exception to let through, and a finished task whose body was to run has run it |
| PoolTheorems.NothingAcceptedAfterShutdown | include/ate/thread_pool.hpp:95-101 | after the queue's shutdown nothing is ever accepted, the queue only shrinks, stop requests stay |
| PoolTheorems.FirstExitEmptiesForGood | src/thread_pool.cpp:103-106 | when one worker has exited the queue is empty and stays so in every continuation |
| PoolTheorems.AllExitedAllFinished | src/thread_pool.cpp:92-106 | when all workers have exited, every accepted task has its future set |
| PoolTheorems.NeverDeadlocked | include/ate/async_result.hpp:144-149 | with at least one worker, while an accepted task is unfinished some worker can make a productive step, although continuations block their workers |
| PoolTheorems.StepMeasure | src/thread_pool.cpp:92-106 | each productive worker step lowers a measure that only acceptance (by 6) and idle turns (by 1) raise |
| PoolTheorems.WorkIsBounded | src/thread_pool.cpp:92-106 | any run has at most 12 productive steps per worker and 6 per accepted task, plus one per idle turn between shutdown and stop |
| PoolTheorems.QuietPoolIsDone | src/thread_pool.cpp:58-71 | a pool with no productive step left has finished everything; if all workers were asked to stop, all have exited |
| PoolSchedule.PlayedNext | src/thread_pool.cpp:92-106 | from a window exactly those steps are taken that are possible when their turn comes and are not the worker's own |
| PoolSchedule.ScheduleIsARun | src/thread_pool.cpp:92-106 | the state a worker's schedule reaches is reached by a run of the pool, so the theorems on runs hold of it |
| PoolSchedule.StoppingIsARun | src/thread_pool.cpp:58-71 | so is the state that a shutdown reaches |
| ThreadPools.ThreadPool.constructor | src/thread_pool.cpp:23-37 | the given number of workers, or if that is 0 the hardware's, but at least 1; all at the head of their loop |
| ThreadPools.ThreadPool.Submit | include/ate/thread_pool.hpp:81-104 | one accepted task with the next ticket at the back of the queue, or the refusal, with no effect, exactly after shutdown |
| ThreadPools.ThreadPool.GetInput | include/ate/async_result.hpp:145-147 | enters the body with the predecessor's value, or stores the predecessor's exception in the task's own future without entering |
| ThreadPools.ThreadPool.EndBody | include/ate/thread_pool.hpp:95-97 | the packaged task sets its own future, to the body's outcome, and no other |
| ThreadPools.ThreadPool.RunTask | src/thread_pool.cpp:98 | runs a popped task to its end, waiting for the predecessor as long as it must |
| ThreadPools.ThreadPool.DrainLoop | src/thread_pool.cpp:103-105 | returns only with the queue empty; otherwise it is blocked on a predecessor |
| ThreadPools.ThreadPool.WorkerLoop | src/thread_pool.cpp:92-106 | on the worker's schedule of `env`: returns only exited with the queue empty; otherwise all windows were played and it is blocked, or idles between shutdown and its stop request |
| ThreadPools.ThreadPool.Shutdown | src/thread_pool.cpp:58-71 | the state it reaches is that of the queue's shutdown and then, each after a window of `env`, the stop request of every worker |
| ThreadPools.AsyncResult.Then | include/ate/async_result.hpp:133-152 | moves the future out in any case; if accepted, the continuation is queued with a ticket larger than its predecessor's; if refused, nothing is queued |
| ThreadPools.AsyncResult.Get | include/ate/async_result.hpp:69 | a step of the pool that takes the ready future away; returns or throws what the ticket means, independent of the schedule |
| Chains.ChainGrows | include/ate/async_result.hpp:144-151 | an accepted `then` on a chain's last result adds exactly that stage; no other step disturbs a chain |
| Chains.ChainMeaning | include/ate/async_result.hpp:145-147 | the meaning of a chain's i-th ticket is the exception-monad fold of the first i stages |
| Chains.ExceptionsPersist | include/ate/async_result.hpp:146 | after the first exception every later result is that exception |
| Chains.EnteredInChainOrder | include/ate/async_result.hpp:145-147 | at every point of every run the entered bodies of a chain are a prefix of the chain |
| Chains.ChainResult | include/ate/async_result.hpp:133-152 | for any worker count and interleaving, a finished chain's future holds the fold, and exactly the bodies before the first exception were entered, once each, in order |
| Pipelines.FusedMeaning | include/ate/pipeline.hpp:59-69 | the composed closure gives the fold of its stages and runs exactly the stages before the first exception, in order |
| Pipelines.Fusion | include/ate/pipeline.hpp:51-85 | one fused task and the chain of n+1 tasks, on one pool in any run, give the same value or exception and run the same stages in the same order, n = 0 included |
| Pipelines.Pipeline.Create | include/ate/pipeline.hpp:44-46 | a pipeline with the given value and no stages |
| Pipelines.Pipeline.Then | include/ate/pipeline.hpp:51-74 | a new pipeline with one more stage; the old one is consumed |
| Pipelines.Pipeline.Run | include/ate/pipeline.hpp:77-85 | submits one task that means the fold of all stages over the initial value, or is refused |
| LoggerTheorems.StepKeepsInv | include/ate/logger.hpp:123-200 | every step of loggers, flushers, the drain thread and the destructor keeps conservation, the generation bounds and the shutdown order |
| LoggerTheorems.NothingLostOrReordered | include/ate/logger.hpp:171-195 | at every reachable state: sunk, then the rest of the batch, then the queue, is the accepted calls in lock order; done <= pending; on exit all is sunk |
| LoggerTheorems.AcceptedAreAdmitted | include/ate/logger.hpp:123-126 | in every run that does not change the threshold, each accepted entry is at or above it, in the order Trace, Debug, Info, Warn, Error, Fatal |
| LoggerTheorems.RunIsMonotone | include/ate/logger.hpp:156-191 | both generation counters, the sunk and the accepted entries only grow |
| LoggerTheorems.FlushGuarantee | include/ate/logger.hpp:156-168 | when a flush may return, everything accepted before its generation increment has been given to the sink, for any number of concurrent loggers and flushers |
| LoggerTheorems.TwoIterationsSuffice | include/ate/logger.hpp:172-194 | any generation taken is reported done once two drain iterations have ended |
| LoggerTheorems.OneIterationMayNotSuffice | include/ate/logger.hpp:179-191 | a run in which one iteration is not enough |
| LoggerTheorems.FlushIsServed | include/ate/logger.hpp:171-195 | while the logger runs, the drain thread can always step, and left to itself it serves every generation within (batch + queue + 4) steps |
| LoggerTheorems.FlushProgress | include/ate/logger.hpp:171-195 | in every interleaved run, every generation taken is reported done after (batch + queue + 5) drain steps plus one per push made before the serving batch is swapped out; later pushes delay nothing |
| LoggerTheorems.ExitsAlone | include/ate/logger.hpp:106-113 | once the destructor has cleared running_ nothing is left, and the drain thread exits within five more steps |
| LoggerSchedule.PlayedNext | include/ate/logger.hpp:123-200 | from a window exactly those steps are taken that are possible when their turn comes and are not the method's own |
| LoggerSchedule.FlushMayReturn | include/ate/logger.hpp:164-167 | in every run, a flush under way may return after (batch + queue + 5) drain steps plus one per push made before the serving batch is swapped out |
| LoggerSchedule.CloserIsServed | include/ate/logger.hpp:106-108 | in every run, the destructor has cleared running_ or can after (batch + queue + 5) drain steps from its flush |
| LoggerSchedule.DrainThreadIsJoined | include/ate/logger.hpp:110-112 | in every run, four drain steps after running_ was cleared the drain thread has exited, with everything accepted sunk |
| LoggerWords.WordRunRefines | include/ate/logger.hpp:220-221 | every run with fewer than 2^64 generations is the same with 64-bit counters |
| LoggerWords.WordFlushGuarantee | include/ate/logger.hpp:156-168 | the flush guarantee for the 64-bit counters in every such run |
| LoggerWords.GenerationsCompareExactly | include/ate/logger.hpp:166 | for generations less than 2^64 apart, the word comparison is right if and only if the counter did not wrap between them |
| LoggerWords.WordRunHasShadow | include/ate/logger.hpp:156-191 | every run of the 64-bit logger, of any length, is the image of a run with unbounded generations that conserves entries and bounds what each generation stands for |
| LoggerWords.WordFlushExactly | include/ate/logger.hpp:156-168 | in such a run, a flush whose generation T is done has everything accepted before it sunk; it may return although T is not done exactly if done / 2^64 < T / 2^64 and the words compare that way, and is held up although T is done exactly in the opposite case |
| LoggerWords.WrapBreaksFlush | include/ate/logger.hpp:157-167 | a run with 2^64 - 1 served flushes after which a flush may return at once with its entry not sunk |
| Loggers.Logger.TestLevel | include/ate/logger.hpp:123-126 | an entry passes exactly if its level is not below the threshold; one that does not leaves no trace |
| Loggers.Logger.SetMinLevel | include/ate/logger.hpp:151-153 | the threshold that the next test uses, and nothing else, is changed |
| Loggers.Logger.PushBack | include/ate/logger.hpp:135-138 | the entry becomes the last of the queue and of the accepted ones |
| Loggers.Logger.BeginFlush | include/ate/logger.hpp:157-161 | takes the next generation, which stands for exactly the entries accepted so far |
| Loggers.Logger.SwapBatch | include/ate/logger.hpp:175-181 | takes the whole queue and notes the pending generation; what that generation stands for is sunk or in the batch |
| Loggers.Logger.Signal | include/ate/logger.hpp:189-193 | reports the noted generation done, and everything it stands for has been sunk |
| Loggers.Logger.FlushAll | include/ate/logger.hpp:156-168 | plays the windows of `env` until served; returns only with everything accepted before the call sunk; otherwise all windows were played and the drain thread has not made the steps the flush needs |
| Loggers.Logger.DrainLoop | include/ate/logger.hpp:171-195 | one drain step after each window of `env`, at least as many as there are windows; exits only stopped, with everything accepted sunk and the queue empty |
| Loggers.Logger.Destroy | include/ate/logger.hpp:106-113 | flush, stop, join, with the windows of `env` played in the two waits; joined means everything accepted is sunk; not joined means all windows were played and the drain thread has not made the steps that the flush needs, or four more for the join |
| Scheduling.LessIsStrictTotalOrder | include/ate/scheduler.hpp:52-58 | operator< is irreflexive and transitive, and total on distinct sequences |
| Scheduling.TopIsServedFirst | include/ate/scheduler.hpp:37-58 | an element is a top of the heap if and only if no waiting task outranks it, Critical before High before Normal before Low, and none of its own priority has an earlier sequence |
| Scheduling.PopServesFirst | include/ate/scheduler.hpp:91-98 | in every run, a pop gives nothing exactly if nothing waits, and otherwise a waiting task that is to be served first |
| Scheduling.PopAnyTop | include/ate/scheduler.hpp:91-98 | any maximal element of the heap is the head of the first non-empty of four FIFO queues, and removing it keeps the correspondence |
| Scheduling.LanesPush | include/ate/scheduler.hpp:75-88 | a push keeps age and order together if and only if it is in order, which the caller can check before it |
| Scheduling.PushRefines | include/ate/scheduler.hpp:75-88 | a push in order, or a refused one, answers and acts as on four FIFO queues |
| Scheduling.SchedulerIsFourFifos | include/ate/scheduler.hpp:75-118 | for every sequence of push, pop and shutdown whose pushes are in order, all answers equal those of four FIFO queues scanned Critical to Low |
| Scheduling.PushDrainsAlikeExactly | include/ate/scheduler.hpp:80-84 | after a push, draining gives what four FIFO queues give, whichever maximal element the heap picks, if and only if the push was in order |
| Scheduling.SchedulerIsFourFifosExactly | include/ate/scheduler.hpp:75-118 | over whole runs: it never departs from the four queues if and only if every push was in order |
| Scheduling.InOrderUntilWrap | include/ate/scheduler.hpp:83 | every run with at most 2^64 accepted pushes is in order |
| Scheduling.EachLevelIsFifo | include/ate/scheduler.hpp:91-109 | within a priority the tasks handed out are a prefix of the tasks accepted, in push order, each at most once |
| Scheduling.WrapBreaksFifo | include/ate/scheduler.hpp:135 | a run with 2^64 + 1 accepted pushes in which the younger of two waiting tasks of one priority comes out first |
| PrioritySchedulers.PriorityScheduler.Push | include/ate/scheduler.hpp:75-88 | one entry with the wrapping counter's value, and every waiter awake, or refused without effect exactly after shutdown; the reference queues follow |
| PrioritySchedulers.PriorityScheduler.TryPop | include/ate/scheduler.hpp:91-98 | removes a task that no waiting task outranks and none of its priority precedes, or nothing exactly when empty; while pushes were in order it is the reference's answer |
| PrioritySchedulers.PriorityScheduler.WaitAndPop | include/ate/scheduler.hpp:101-109 | from the end of its wait, for whatever reason it ended: as TryPop |
| PrioritySchedulers.PriorityScheduler.Shutdown | include/ate/scheduler.hpp:112-118 | stops accepting, keeps what waits and leaves every waiter awake |
| CoroTheorems.StepKeepsInv | include/ate/coro_task.hpp:271-307 | every step of the caller, the workers, other submitters and shutdown keeps: one place for the handle, one signal, a frame with the outcome, and local variables equal to the synchronous run's |
| CoroTheorems.HandleHasOnePlace | include/ate/coro_task.hpp:368-370 | at every reachable state the coroutine is exactly one of not started, held by one thread, queued once, done; no two threads are inside it |
| CoroTheorems.HolderKeepsTrack | include/ate/coro_task.hpp:368-370 | the thread that holds the handle computes on the frame's current local variables, because no other thread is inside; what it leaves there is what the synchronous run has at that co_await |
| CoroTheorems.FinishedAsSynchronous | include/ate/coro_task.hpp:94-103 | a finished coroutine's outcome is that of running its body on one thread with co_awaits that do nothing, after exactly as many co_awaits, unless a submission was refused |
| CoroTheorems.GetReturnsTheOutcome | include/ate/coro_task.hpp:290-307 | get returns the outcome with which every synchronous run of the body ends, whatever bound on co_awaits it is given, after exactly as many co_awaits; or the refusal's exception, which needs a shut-down pool and a co_await; the promise, if attached, was set exactly once |
| CoroTheorems.RefusedAfterShutdown | include/ate/coro_task.hpp:368-370 | in every run, a submission reached after the pool's shutdown is refused: the handle is not queued and the coroutine ends with the refusal's exception |
| CoroSchedule.PlayedNext | include/ate/coro_task.hpp:290-307 | from a window exactly those steps are taken that are possible when their turn comes and are not the owner's |
| CoroSchedule.ScheduleIsARun | include/ate/coro_task.hpp:290-307 | the state the owner's schedule reaches is reached by a run, so the theorems on runs hold of it |
| CoroTheorems.FrameMayBeDestroyed | include/ate/coro_task.hpp:76-103 | when get has returned the handle is queued nowhere; if get waited for the signal no thread will touch the frame; otherwise the only thread that may is the one still in the final awaiter |
| CoroWitness.GotBeforeTheFinalAwaiterRead | include/ate/coro_task.hpp:291-294 | a run in which get finds the coroutine done and returns while a worker has yet to read the frame in the final awaiter |
| CoroTheorems.GetNeverStuck | include/ate/coro_task.hpp:303-306 | while get is under way some thread can step, unless the handle is queued and every worker is inside an unrelated task |
| CoroTheorems.GetCompletes | include/ate/coro_task.hpp:290-307 | if the synchronous run ends within n co_awaits, every interleaved run reaches at most n, with at most 6n steps of the system, one per unrelated task and seven per call on the coroutine |
| CoroTasks.CoroTask.GetResult | include/ate/coro_task.hpp:154-159 | of a finished coroutine: the synchronous run's outcome, or the refusal |
| CoroTasks.CoroTask.AwaitSuspend | include/ate/coro_task.hpp:368-370 | queues the handle once, or ends the coroutine with the refusal and queues nothing, exactly after shutdown |
| CoroTasks.CoroTask.FinalAwaitSuspend | include/ate/coro_task.hpp:94-103 | sets the attached promise to the exception if there is one, else to the value, and never a second time |
| CoroTasks.CoroTask.Resume | include/ate/coro_task.hpp:271-275 | does nothing to a finished coroutine; starts a fresh one and comes back at its first suspension, on the owner's schedule of `env` |
| CoroTasks.CoroTask.Get | include/ate/coro_task.hpp:290-307 | on the owner's schedule of `env`: returns the outcome of every synchronous run that ends, or the refusal, once the coroutine is done; otherwise all windows were played and it is blocked with no signal given |

## Left out

- Weak memory effects: every `memory_order_*` argument; interleavings are sequentially consistent.
- Cache-line alignment, allocation, and move and copy of values; the lvalue overload of `try_push` is a copy followed by the modelled one.
- LockFree.LockFreeQueue.TryPush: stated while enqueue_pos_ + capacity_ stays below 2^63 during the call, the bound up to which the exact step lemma shows every step to fit.
- LockFree.LockFreeQueue.TryPop: the same bound.
- LockFree.LockFreeQueue.SizeApprox: the same bound.
- LockFree.LockFreeQueue.constructor: a minimum capacity above 2^63 is excluded; `round_up_pow2` then gives 0 (proved) and the source's assertion fails.
- Mutex, condition variable, future and packaged task internals, including lost or spurious wake-ups: a wait may end whenever its predicate allows it.
- Joining and destroying worker threads; only their exit from the loop is modelled.
- Task bodies as code: a body is the outcome it ends with, so bodies that submit, block on the pool or never return are outside the chain theorems. Submissions from bodies are covered as submissions that happen at any time.
- The `void` specialisations of AsyncResult and CoroTask: the value type with one element; `completed_` is then "a result is stored".
- LoggerTheorems.FlushGuarantee: stated with unbounded generation counters; LoggerWords carries it to the 64-bit counters until they wrap.
- Loggers.Logger.FlushAll: the class keeps the unbounded counters, which LoggerWords relates to the 64-bit ones.
- The logger's timestamps, thread ids, formatting, sinks and 10 ms timeout value; a wait may time out at any moment.
- Logging or flushing while the logger is being destroyed, a second `get`, `get` on a moved-from object or on a coroutine already handed to the pool: outside the components' contracts.
- The coroutine model has one lazy coroutine, driven from one thread by `resume` and `get`. Its body is any function of the local variables in its frame, between co_awaits; it shares no state with other tasks and does not catch a refused submission; `CoroTask`'s moves and the destruction of its frame are not modelled.
- Unrelated tasks in the coroutine model: each occupies its worker until it ends, if it ever does; whether it ends is the pool's theorem (`PoolTheorems.NeverDeadlocked`), not this model's.
- The pool as the coroutine sees it: its queue, its shutdown flag and where its workers stand are fields of the class CoroTask; `ThreadPool` models the pool itself.
- Worker exit in the coroutine model: by `FirstExitEmptiesForGood` a worker leaves only when nothing is queued for good.
- `include/ate/asio_context.hpp`: timers, sockets and real time; parked workers would need their own progress assumption.
- `include/ate/task.hpp`: its comparator is used by none of the components modelled here.
- Size queries (`size_approx`, `size`, `empty`, `pending_tasks`) of the mutex-protected containers, which only read one field under the lock.
