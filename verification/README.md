# TinyRT in Dafny

TinyRT is a small single-core real-time kernel: tasks with 32 priorities, wait queues with timeouts,
semaphores, mutexes, message queues, software timers, a heap and a table of object handles. This project
models its kernel sources and proves what they keep over every run.

## How it is built

**Kernel.** `KernelState` gives every critical section of `sched.c`, `wait_queue.c` and `task.c`, and the
scheduling part of a trap, as a function from one kernel value to the next. With interrupts off nothing runs in
between, so a run of the kernel is a sequence of such steps in any order (`KernelRuns`); a trap whose timer
callbacks wake tasks is its expiry and its decision with those wakes in between. Two steps are not under a critical
section, a yield and a creation by a running kernel. Runs take them whole; `KernelYieldGap` and `KernelCreateGap` open
them. Four fields are history
the C code does not store: unbounded time, the absolute deadline behind each 32-bit one, which blocking call each
task is inside, and the order in which tasks began to wait. `KernelInvariant` says where each task is;
`KernelSteps`, `KernelBlocking` and `KernelWaking` prove that every step keeps it. `KernelOutcome`, `KernelTimeouts`,
`KernelSchedule` and `KernelFairness` state what follows over runs, `KernelAnswers` what each call answers.
`Scheduler` is the code itself: one object with the fields of the C structure, updated statement by statement, each
method proved to reach the kernel its function names.

**Blocking objects.** `Semaphore`, `Mutex` and `MessageQueue` are transition systems over the kernel: their calls,
split at `task_yield`, interleave with each other and with every other kernel step. The classes in
`SemaphoreObject`, `MutexObject` and `MessageQueueObject` carry out the calls in place on the object, the
scheduler and, for the queue, the byte ring of `MessageRing`. `SemaphoreAnswers`, `MutexAnswers` and
`MessageQueueAnswers` give the exact case of every answer of every call.

**Heap, timers, handles, lists.** `Heap`, `Timers` and `Handles` hold the specification functions and the theorems
over whole runs, with `HeapRecovery` on what is left when all is freed and `HeapAnswers` and `TimerAnswers` on when
calls succeed and what they take; `HeapObject`, `TimerObject` and `HandleTable` the loops and updates in place.
`IntrusiveList` proves the pointer operations of `list.h` on real nodes; elsewhere a list is the sequence such a ring stands for.

## Where the code falls short

Each of these is proved; the lemmas ending in `Iff` give the exact condition.

- A trap between the two statements of `task_yield` loses the task: no later operation but its deletion changes that
  (`YieldGapLosesTask`, `LostStaysLost`, `LostForGood`).
- The enqueue of a yield and of a creation by a running kernel load and store the ready mask with interrupts on. A trap
  between can make the store write back a stale mask: exactly if another bit has changed meanwhile, or the list of the
  enqueued task has become empty, bits and lists then disagree (`CreationKeepsInvIff`, `YieldKeepsInvIff`). A run from
  boot reaches the corrupt-queue loop that way (`CreationSpinsFromBoot`), another a ready task no pick sees
  (`CreationHidesFromBoot`). The other results, where a run includes yields and creations, hold of runs in which no trap
  comes inside them.
- Deleting a reader that was woken but has not run can strand a message, and a writer a free slot
  (`DeletionKeepsWakeUpsIff`, `DeletedReaderStrandsMessage`, `StrandedFromBoot`).
- `realloc` splits without merging. The `free` of the shrunk block merges it with its next neighbour only, so the pieces
  stay apart until one of them is allocated and freed again (`ShrinkFragmentsIff`, `ShrinkThenFreeSplits`,
  `RecoversIff`).
- Requests above 2^32 - 8 round to zero (`AlignSizeCoversIff`), `realloc` then reporting success with an empty
  block (`ReallocLive`), and timeouts above 2^31 ticks are over at once
  (`ReadsExpiredAtOnceIff`).
- A semaphore created with both arguments negative is out of bounds (`InitInBoundsIff`); a mutex locked
  2^32 deep is held with count zero (`CountWrapsIff`); a handle comes back to life after 65535 closes of its slot (`StaleHandleNamesIff`).

## Model

| member | source | states |
|---|---|---|
| `TickTime.ComparesLikeAbsoluteTime` | src/kernel/timer.c:115-118 | Ticks stored on 32 bits compare as the unbounded ticks behind them do, through any number of counter wraps, while they are less than 2^31 apart. |
| `TickTime.ReadsExpiredAtOnceIff` | src/kernel/timer.c:115-118 | A deadline reads as already expired the moment it is set exactly when its delay is zero or above 2^31: the saturated conversion of a huge timeout does not wait. |
| `TickTime.TicksCoverTheTimeoutIff` | src/kernel/timer.c:87-103 | For every microsecond value: the ticks cover it, or saturate, exactly up to 2^64 - 1000, where the rounding addition wraps; they are then less than a tick too long; they saturate exactly from (2^32 - 2) milliseconds up to there. |
| `TickTime.ZeroTicksIff` | src/kernel/timer.c:87-103 | A non-zero microsecond timeout converts to zero ticks exactly when the rounding addition wraps at 64 bits. |
| `Bitmap.HighestSpec` | src/kernel/sched.c:214-246 | 31 minus the leading-zero count of a non-zero mask is its greatest set bit. |
| `Bitmap.AnyAbove` | src/kernel/sched.c:301-309 | A mask meets the higher-priority mask of p exactly when it has some bit above p. |
| `KernelRuns.ClzIsLinearScan` | src/kernel/sched.c:214-246 | In every state of the invariant the mask is zero exactly when no ready list holds a task, and otherwise the pick is the first task of the list a scan from 31 down finds; the corrupt-queue loop is not entered. |
| `KernelRuns.HigherMaskIsScan` | src/kernel/sched.c:421-432 | The higher-priority test says exactly that some ready list above the current priority is not empty. |
| `KernelRuns.StepKeeps` | src/kernel/sched.c:48-358 | Every kernel operation that can happen keeps the kernel invariant. Each is one critical section or trap, except a yield and a creation by a running kernel, which are taken whole. |
| `KernelRuns.RunKeeps` | src/kernel/sched.c:48-358 | The kernel invariant holds at the end of every finite run of operations in any interleaving. |
| `KernelRuns.EveryTaskInOnePlace` | src/kernel/task.c:142-305 | From boot, after any run, each task is in exactly the one place its state says: running and current on no list, ready once in its priority's list (the idle task excepted), blocked on one wait queue or the timeout list, deleted on the deleted list; and the timeout list holds exactly the blocked tasks waiting on the timer. |
| `KernelRuns.NoDanglingNode` | src/kernel/sched.c:83-123 | No list, nor the current-task field, ever names a record that has been freed. |
| `KernelSteps.PopHighestKeeps` | src/kernel/sched.c:214-246 | Popping takes a ready task of the highest set priority, the head of its list, and leaves all other tasks in their places and the mask right. |
| `KernelSteps.PickNextKeeps` | src/kernel/sched.c:248-278 | With the lock free, picking keeps the invariant and leaves a current task that runs. |
| `KernelSteps.TrapKeeps` | boards/esp32c3/hal.c:146-178 | A trap whose tick jump is below 2^31 keeps the invariant, puts no deadline in the past and returns to a running task. |
| `KernelSteps.TrapExpireKeeps` | boards/esp32c3/hal.c:152-153 | The first part of a trap keeps the invariant: every deadline left is to come, by less than 2^31. |
| `KernelSteps.DecideKeepsInv` | boards/esp32c3/hal.c:155-174 | The decision keeps the invariant whatever was woken before it, and ends with a running task. |
| `KernelSteps.WakeExpiredExact` | src/kernel/sched.c:330-358 | The wake loop ends having made ready, with TIMEOUT, exactly the tasks whose unbounded deadline has passed, across counter wraps; every other task and the clock are as before. |
| `KernelSteps.TimeoutListIsBlocked` | src/kernel/sched.c:330-358 | Each task on the timeout list is blocked and waiting on the timer, so the loop never skips one. |
| `KernelBlocking.TimeoutPositionSplits` | src/kernel/sched.c:157-183 | Walking the timeout list by wrap-around comparison stops where all deadlines before are no later and all behind are later. |
| `KernelBlocking.TimeoutInsertKeeps` | src/kernel/sched.c:157-183 | Inserting a waiting task adds just that task to the timeout list, which stays in order of absolute deadline, and disturbs no other task. |
| `KernelBlocking.WaiterPositionSplits` | src/kernel/sched.c:125-155 | The wait list is split at the insertion point into those of at least the priority and those of lower priority. |
| `KernelBlocking.BlockKeepsQueue` | src/kernel/sched.c:125-155 | A task joining a wait queue goes behind everyone of its priority or higher: the queue stays by priority, then by arrival. |
| `KernelBlocking.BlockLockedKeeps` | src/kernel/wait_queue.c:19-30 | Blocking without a timeout keeps every task in its place, or refuses under the scheduler lock. |
| `KernelBlocking.BlockTicksKeeps` | src/kernel/wait_queue.c:58-79 | Blocking with a timeout below 2^31 ticks keeps the kernel invariant. |
| `KernelBlocking.BlockTimeoutKeeps` | src/kernel/wait_queue.c:107-115 | Blocking for a time in microseconds, or for ever, keeps the kernel invariant. |
| `KernelBlocking.DelayKeeps` | src/kernel/task.c:271-305 | One pass of the delay loop, asleep or not, keeps the kernel invariant. |
| `KernelWaking.WakeResultKeeps` | src/kernel/wait_queue.c:127-147 | Waking one moves just the first waiter: off the wait queue and the timeout list, onto the end of its ready list, with the result; the rest of the kernel is as it was. |
| `KernelWaking.WakeKeepsInv` | src/kernel/wait_queue.c:166-182 | A wake from a task or an interrupt keeps the kernel invariant. |
| `KernelWaking.WakeAllKeeps` | src/kernel/wait_queue.c:184-199 | Waking all keeps the kernel invariant and empties the queue. |
| `KernelWaking.YieldKeeps` | src/kernel/task.c:253-268 | Giving up the processor, its state change and enqueue taken as one step, keeps the invariant. |
| `KernelWaking.ReleaseKeeps` | src/kernel/sched.c:386-408 | The critical section of the unlock keeps the invariant; the yield it may owe is a step of its own. |
| `KernelWaking.UnlockKeeps` | src/kernel/sched.c:386-414 | Unlocking with the yield it owes, nothing coming in between, keeps the invariant; with anything in between it is a run of two steps (`StepKeeps`). |
| `KernelWaking.CreateKeeps` | src/kernel/task.c:58-118 | Creating a task at a fresh address, or refusing a priority above 31, keeps the invariant, its enqueue taken as one step. |
| `KernelWaking.MarkDeletedKeeps` | src/kernel/sched.c:83-107 | Deletion moves the task, wherever it was, from its list and the timeout list to the deleted list and touches no other task. |
| `KernelWaking.DeleteKeeps` | src/kernel/task.c:142-200 | Deleting any task in any state keeps the kernel invariant, refusals included. |
| `KernelWaking.ReapKeeps` | src/kernel/task.c:232-250 | Freeing one record in the idle task keeps the invariant and takes exactly that record away. |
| `KernelWaking.BootInv` | src/kernel/kernel.c:22-37 | The kernel starts in its invariant: the idle task alone, ready, nothing current. |
| `KernelWaking.StartKeeps` | src/kernel/kernel.c:39-58 | The first pick leaves a running current task. |
| `KernelRuns.WakeTakesLongestWaiting` | src/kernel/sched.c:195-212 | A wake takes the waiter of highest priority and, among equals, the one that began to wait first; the others keep their order. |
| `KernelRuns.WakeAllWakesEveryone` | src/kernel/wait_queue.c:184-199 | Wake-all ends with the queue empty, every waiter woken once with the given result and off the timeout list, everyone else untouched, and counts them right; those of each priority join the end of their ready list in the order in which they waited. |
| `KernelFrames.ForeignStep` | src/kernel/sched.c:125-358 | Whatever else happens in the kernel, a wait queue gains no waiter and its woken tasks keep their results, unless deleted. |
| `KernelOutcome.WaitingOrSettled` | src/kernel/wait_queue.c:58-79 | A task inside a blocking call is still waiting with no result, on its queue and on the timeout list exactly if timed; or has one of OBJECT, TIMEOUT (timed waits only) and DESTROYED and is on neither list. |
| `KernelOutcome.SettledStays` | src/kernel/wait_queue.c:127-147 | Once a waiter has a result no step but its own resumption or deletion changes it. |
| `KernelOutcome.OutcomeIsFinal` | src/kernel/sched.c:330-358 | Over any run in between, a woken waiter resumes with the result it was woken with, off both lists throughout: exactly one outcome per wait. |
| `KernelTimeouts.BlockAnswers` | src/kernel/wait_queue.c:58-115 | A block with time to wait answers TIMEOUT exactly if its time is no tick, LOCKED exactly under the scheduler lock, and otherwise leaves the caller waiting, if timed till the present tick plus its ticks. |
| `KernelTimeouts.TimesOutOnTime` | src/kernel/wait_queue.c:58-79 | A timed wait nobody ends early has, over any run, no result while the clock is short of the tick it began at plus its ticks, and TIMEOUT from the first expiry at or past that tick on, across counter wraps. |
| `KernelTimeouts.StepOnTime` | src/kernel/sched.c:330-358 | One step of any kind lets a sleeper nobody wakes or deletes sleep on exactly if the clock is still short of its deadline. |
| `KernelTimeouts.DelayAnswers` | src/kernel/task.c:271-305 | A pass of the delay loop does nothing once its tick has come, is refused under the scheduler lock, and otherwise leaves the caller asleep until that tick. |
| `KernelTimeouts.SleepsOnTime` | src/kernel/task.c:271-310 | Over any run that leaves the clock short of the tick slept for the task is asleep; the step that takes the clock there or past it wakes it. |
| `KernelTimeouts.ClockRuns` | boards/esp32c3/hal.c:146-178 | Only a tick moves the clock, and never back. |
| `KernelSchedule.PriorityRestoredEachTick` | boards/esp32c3/hal.c:152-176 | After every tick trap with the scheduler unlocked, whatever its expiries and the wakes, creations and deletions of its timer callbacks made ready, no ready task outranks the current one. |
| `KernelSchedule.RequestedDecisionRestoresPriority` | src/kernel/sched.c:448-472 | With a request pending and the scheduler unlocked, the end of a trap that is no tick leaves nothing ready above the current task and the request done with. |
| `KernelSchedule.InterruptKeepsPriority` | boards/esp32c3/hal.c:152-176 | Whomever an interrupt handler wakes, with the scheduler unlocked the trap that is no tick leaves no ready task above the current one if none was before. |
| `KernelSchedule.WakesAsk` | src/kernel/wait_queue.c:166-182 | A handler that has woken anyone has asked for the processor; one that has not has changed nothing. |
| `KernelSchedule.LockHoldsTheProcessor` | src/kernel/sched.c:377-414 | While the lock count stays above zero the same task stays current and running over any run of ticks, wakes and traps. |
| `KernelSchedule.UnlockActsOnRequest` | src/kernel/sched.c:386-414 | The outermost unlock with a request pending consumes it and yields, and the trap of that yield leaves nothing ready above the task it picks, whatever comes between the critical section of the unlock and its yield. |
| `KernelSchedule.DeferredPreemptionHappens` | src/kernel/sched.c:280-328 | A preemption a tick finds due under the lock is remembered through the whole locked run and acted on by the outermost unlock, whatever comes before its yield. |
| `KernelAnswers.LockCountIsDepth` | src/kernel/sched.c:377-414 | Over any run the lock count is what the locks and unlocks made say: it counts up on 32 bits, down to zero, and nothing else touches it. |
| `KernelAnswers.Nested` | src/kernel/sched.c:377-414 | n locks and then m unlocks leave the lock n - m deeper. |
| `KernelAnswers.UnlockUndoesLock` | src/kernel/sched.c:377-414 | An unlock after a lock gives back the old count, and under a held lock the whole old kernel. |
| `KernelAnswers.WakeUnderLockIsActedOn` | src/kernel/wait_queue.c:127-147 | A wake made under the scheduler lock is remembered over any locked run, and the trap of the outermost unlock leaves nothing ready above the task it picks. |
| `KernelAnswers.YieldAnswers` | src/kernel/task.c:253-268 | A yield under the lock only asks; otherwise the caller goes ready to the end of its own list, and the idle task or one already blocked changes nothing. |
| `KernelAnswers.CreateAnswers` | src/kernel/task.c:58-118 | A created task is ready, of the priority asked for, at the end of its list; a priority above the highest creates nothing. |
| `KernelAnswers.DeleteAnswers` | src/kernel/task.c:142-200 | The exact case of each code of a deletion; refusals change nothing, and the caller's own deletion asks for the processor. |
| `KernelFairness.RoundRobinWait` | src/kernel/sched.c:280-328 | A task at index i of the top ready line becomes current within (i + 1) time slices of ticks, whatever its peers do, while nothing of higher priority arrives and the lock is free. |
| `KernelFairness.WholeSlice` | src/kernel/sched.c:280-328 | While nothing of higher priority arrives, the scheduler is unlocked and the task does not give up the processor itself, it runs on for as many ticks as its slice has left. |
| `KernelFairness.TickSwitches` | src/kernel/sched.c:280-328 | A tick gives the processor to the first task of the highest list that is not empty exactly where that is above the running task, or its own with the slice used up; the running task goes to the end of its list and a new slice begins. |
| `KernelFairness.TickOfStopped` | src/kernel/sched.c:280-295 | A tick that finds the idle task or a stopped one asks to switch and begins a new slice. |
| `KernelFairness.TickContinues` | src/kernel/sched.c:280-328 | In all other cases the running task goes on, and the tick counts in its slice exactly if another of its priority is ready. |
| `KernelFairness.TrapMovesUp` | boards/esp32c3/hal.c:152-169 | Each tick trap gives a waiting task of the top priority the processor or brings it a tick closer; no trap sets it back. |
| `KernelFairness.OtherStepsKeepTurn` | src/kernel/sched.c:48-81 | No step other than a trap, the task's own deletion aside, sends it back in line. |
| `KernelYieldGap.YieldGapLosesTask` | src/kernel/task.c:259-265 | A trap, of either kind and with any tick jump, between the two statements of the yield, which no critical section encloses, ends with the task ready, on no list and not current. |
| `KernelYieldGap.LostStaysLost` | src/kernel/sched.c:48-358 | Such a task stays so through every kernel operation but its own deletion: picks, expiries, wakes, blocks, sleeps, creations, deletions of others, locks. |
| `KernelYieldGap.LostForGood` | src/kernel/sched.c:248-278 | And so through every run that does not delete it. |
| `KernelCreateGap.CreationKeepsInvIff` | src/kernel/task.c:64-117 | A creation by a running kernel, any run of the kernel coming before it loads the mask and any other before it stores it: the kernel is right again exactly if the list of the new task is not empty at the store and no other bit has changed since the load; no pick before the store enters the corrupt-queue loop; the next one does exactly if the highest bit stored is that of an empty list. |
| `KernelCreateGap.YieldKeepsInvIff` | src/kernel/task.c:253-268 | The same of the enqueue of a yield, which is in no critical section either. |
| `KernelCreateGap.StepInGap` | src/kernel/sched.c:48-358 | Until the store every step, picks included, keeps the whole invariant but for the one bit, which may be clear though its list holds a task. |
| `KernelCreateGap.StoreKeepsInvIff` | src/kernel/sched.c:60-61 | Storing a mask loaded earlier, with the bit of the enqueued task, restores the invariant exactly if that list is not empty and all other bits are as they are now. |
| `KernelCreateGap.GapNeverSpins` | src/kernel/sched.c:224-236 | Until the store the highest set bit is that of a list with a task on it. |
| `KernelMended.ApplyMended` | src/kernel/sched.c:48-358 | A step that picks no task does the same whether the bit is set before it or after. |
| `KernelCreateWitness.CreationSpinsFromBoot` | src/kernel/task.c:64-117 | A legal run from boot ends in the corrupt-queue loop: a task creates two of higher priority, a tick comes between load and store in the second creation, both run and wait, the stale bit is stored and the next tick goes by it. |
| `KernelCreateWitness.CreationHidesFromBoot` | src/kernel/task.c:64-117 | A legal run from boot leaves a ready task on its list with the bit of the list clear: an interrupt wakes it between load and store in another task's creation. |
| `Scheduler.Scheduler.constructor` | src/kernel/kernel.c:22-37 | A new kernel object stands for the boot state and satisfies the invariant. |
| `Scheduler.Scheduler.AddBefore` | include/list.h:28-50 | The task's node goes to the given index of the list. |
| `Scheduler.Scheduler.DelInit` | include/list.h:65-69 | The task's node leaves whatever list it is on. |
| `Scheduler.Scheduler.AddTail` | include/list.h:42-45 | The task's node goes to the end of the list. |
| `Scheduler.Scheduler.DelFirst` | include/list.h:65-69 | The first node leaves the list and is returned. |
| `Scheduler.Scheduler.TimeoutRemove` | src/kernel/sched.c:185-193 | In place: the task leaves the timeout list. |
| `Scheduler.Scheduler.ExpireTask` | src/kernel/sched.c:330-358 | In place: an expired task is taken off its list and made ready with TIMEOUT. |
| `Scheduler.Scheduler.ReadyEnqueue` | src/kernel/sched.c:48-62 | In place: the statements of the enqueue take the kernel to the state the specification names, guards included. |
| `Scheduler.Scheduler.ReadyRemove` | src/kernel/sched.c:64-81 | In place: likewise for removal, the mask bit following the list. |
| `Scheduler.Scheduler.PopHighest` | src/kernel/sched.c:214-246 | In place: likewise for the pop, with its result. |
| `Scheduler.Scheduler.PickNext` | src/kernel/sched.c:248-278 | In place: the object after the pick, its result stored, is the specified kernel. |
| `Scheduler.Scheduler.OnTick` | src/kernel/sched.c:280-328 | In place: only the slice counter changes, as specified, and the answer is the specified one. |
| `Scheduler.Scheduler.TryReschedule` | src/kernel/sched.c:448-472 | In place: a pending request is consumed and acted on as specified. |
| `Scheduler.Scheduler.TimeoutInsert` | src/kernel/sched.c:157-183 | In place: the walking loop inserts at the specified place of the timeout list. |
| `Scheduler.Scheduler.WakeExpired` | src/kernel/sched.c:330-358 | In place: the loop over the timeout list ends in the specified kernel. |
| `Scheduler.Scheduler.WaiterIndex` | src/kernel/sched.c:125-155 | The walk along a wait list stops at the specified place. |
| `Scheduler.Scheduler.BlockCurrent` | src/kernel/sched.c:125-155 | In place: the caller joins the wait list as specified. |
| `Scheduler.Scheduler.WakeOne` | src/kernel/sched.c:195-212 | In place: the first waiter is made ready as specified and returned. |
| `Scheduler.Scheduler.MarkDeleted` | src/kernel/sched.c:83-107 | In place: the task moves to the deleted list as specified. |
| `Scheduler.Scheduler.BlockLocked` | src/kernel/wait_queue.c:19-30 | In place: the untimed block and its code are the specified ones. |
| `Scheduler.Scheduler.BlockTicks` | src/kernel/wait_queue.c:58-79 | In place: the timed block, its stored 32-bit wakeup and its code are the specified ones. |
| `Scheduler.Scheduler.BlockTimeout` | src/kernel/wait_queue.c:107-115 | In place: as specified, and a valid kernel stays valid. |
| `Scheduler.Scheduler.WakeOneResult` | src/kernel/wait_queue.c:127-147 | In place: as specified, and a valid kernel stays valid. |
| `Scheduler.Scheduler.WakeOneFromIsr` | src/kernel/wait_queue.c:166-182 | In place: as specified, with the reschedule request, and a valid kernel stays valid. |
| `Scheduler.Scheduler.WakeAllResult` | src/kernel/wait_queue.c:184-199 | In place: the loop and its count are the specified ones. |
| `Scheduler.Scheduler.TaskCreate` | src/kernel/task.c:58-118 | In place: a new record, ready and listed, or nothing for a bad priority. |
| `Scheduler.Scheduler.TaskYield` | src/kernel/task.c:253-268 | In place: as specified, and a valid kernel stays valid. |
| `Scheduler.Scheduler.TaskDelete` | src/kernel/task.c:142-200 | In place: the specified code and kernel, refusals included, and a valid kernel stays valid. |
| `Scheduler.Scheduler.DelayPass` | src/kernel/task.c:271-305 | In place: one pass of the delay loop is the specified one, and a valid kernel stays valid. |
| `Scheduler.Scheduler.CleanupDeleted` | src/kernel/task.c:232-250 | The loop frees exactly the records on the deleted list and empties it, keeping the kernel valid. |
| `Scheduler.Scheduler.Lock` | src/kernel/sched.c:377-384 | In place: the nesting count goes up on 32 bits; a valid kernel stays valid. |
| `Scheduler.Scheduler.Unlock` | src/kernel/sched.c:386-414 | In place: as specified, with the deferred yield; a valid kernel stays valid. |
| `Scheduler.Scheduler.DoTrap` | boards/esp32c3/hal.c:146-178 | In place: tick, expiry and decision take a valid kernel to the specified one, which is valid. |
| `Scheduler.Scheduler.Decision` | boards/esp32c3/hal.c:155-174 | In place: the branches of the trap's decision give the specified kernel. |
| `Semaphore.InitInBoundsIff` | src/kernel/semaphore.c:34-40 | Creation gives a count between zero and the maximum exactly when one of its two arguments is not negative. |
| `Semaphore.PermitsAreConserved` | src/kernel/semaphore.c:119-385 | Over any run on a live semaphore the initial count plus successful posts equals the count plus permits granted, the count is within bounds, and a task waits only while it is zero. |
| `Semaphore.AwakenReturns` | src/kernel/semaphore.c:289-344 | A resumed wait on a live semaphore returns OK exactly if a post handed it a permit, else TIMEOUT, of a timed wait only, and then no permit went to it. |
| `Semaphore.EventKeeps` | src/kernel/semaphore.c:63-385 | Each call, its interrupt form, resumption or other kernel step keeps the permits accounted for. |
| `SemaphoreAnswers.InitAnswers` | src/kernel/semaphore.c:34-40 | A semaphore starts with the permits asked for, where that many can be, and its maximum is never below them. |
| `SemaphoreAnswers.PostAnswers` | src/kernel/semaphore.c:119-207 | A post, from a task or an interrupt, is refused exactly if nobody waits and the count is at its maximum; otherwise the first waiter has the permit, or with nobody waiting the count has one more. |
| `SemaphoreAnswers.WaitAnswers` | src/kernel/semaphore.c:223-344 | A wait returns OK at once exactly if a permit is left; with none it is refused exactly under the scheduler lock, times out at once exactly if its time is no tick, and otherwise waits, till its own deadline. |
| `SemaphoreAnswers.TryWaitAnswers` | src/kernel/semaphore.c:360-385 | A try takes a permit exactly if one is left, and is otherwise busy. |
| `SemaphoreAnswers.DestroyAnswers` | src/kernel/semaphore.c:63-85 | Destruction leaves no permit and tells everyone who waited. |
| `SemaphoreAnswers.DestroyedAnswers` | src/kernel/semaphore.c:119-137 | Every call on a destroyed semaphore says so. |
| `SemaphoreAnswers.AwakenAnswers` | src/kernel/semaphore.c:223-344 | A resumed wait answers by what woke it: OK exactly with a permit, DESTROYED exactly if told, TIMEOUT otherwise. |
| `SemaphoreAnswers.PostsFill` | src/kernel/semaphore.c:167-207 | With nobody waiting a semaphore takes as many posts in a row as are missing to its maximum, and no more. |
| `SemaphoreAnswers.WaitsDrain` | src/kernel/semaphore.c:360-385 | It gives as many waits a permit as its count, and no more. |
| `SemaphoreObject.SemaphoreObject.constructor` | src/kernel/semaphore.c:34-40 | The object starts as the specified semaphore, in bounds exactly when one argument is not negative. |
| `SemaphoreObject.SemaphoreObject.Post` | src/kernel/semaphore.c:119-151 | In place: a post hands its permit to the first waiter or counts it, as specified. |
| `SemaphoreObject.SemaphoreObject.PostFromIsr` | src/kernel/semaphore.c:167-207 | In place: the interrupt form, with the reschedule request. |
| `SemaphoreObject.SemaphoreObject.Wait` | src/kernel/semaphore.c:223-344 | In place: the waits up to their yield are the specified step. |
| `SemaphoreObject.SemaphoreObject.Awaken` | src/kernel/semaphore.c:260-344 | In place: the waits after their yield return the specified code. |
| `SemaphoreObject.SemaphoreObject.TryWait` | src/kernel/semaphore.c:360-385 | In place: takes a permit or reports busy, as specified. |
| `SemaphoreObject.SemaphoreObject.Destroy` | src/kernel/semaphore.c:63-85 | In place: wakes everyone with DESTROYED and counts them. |
| `Mutex.MutexSafety` | src/kernel/mutex.c:121-355 | Over any run of a live mutex: no owner exactly when the count is zero; the count is the owner's successful locks less unlocks and no one else holds any; waiters only while there is an owner, who never waits for itself; and a waiter handed the mutex owns it once until it resumes. |
| `Mutex.NoThirdTask` | src/kernel/mutex.c:311-355 | From an unlock to the chosen waiter's resumption no other task can take or change the mutex, over any run in between. |
| `Mutex.AwakenReturns` | src/kernel/mutex.c:238-295 | A resumed lock of a live mutex returns OK exactly to the owner it was handed to, else TIMEOUT, of a timed lock only, to a task that does not own it. |
| `Mutex.CountWrapsIff` | src/kernel/mutex.c:121-157 | The owner's next lock leaves a held mutex with count zero exactly when the 32-bit count is full. |
| `MutexAnswers.InitAnswers` | src/kernel/mutex.c:34-40 | A new mutex is live and free: the first lock of it succeeds. |
| `MutexAnswers.TryLockAnswers` | src/kernel/mutex.c:121-157 | A lock succeeds at once exactly if the mutex is free or the caller's; the caller then holds it once more than before. |
| `MutexAnswers.LockAnswers` | src/kernel/mutex.c:173-295 | Another's mutex is waited for, till the caller's deadline, unless the scheduler lock is held or the time is no tick; the exact case of each code. |
| `MutexAnswers.UnlockAnswers` | src/kernel/mutex.c:311-355 | An unlock succeeds exactly if the caller has locked the mutex more often than unlocked it; only the last one lets it go, to the first waiter if there is one. |
| `MutexAnswers.UnlocksLetGo` | src/kernel/mutex.c:311-355 | An owner that has locked n times lets the mutex go with its n-th unlock and not before. |
| `MutexAnswers.LocksNest` | src/kernel/mutex.c:121-157 | n locks by one task make it the owner, n deep. |
| `MutexAnswers.LocksUndone` | src/kernel/mutex.c:121-355 | A free mutex locked any number of times and unlocked as often is free again. |
| `MutexAnswers.DestroyAnswers` | src/kernel/mutex.c:64-87 | Destruction frees the mutex and tells everyone who waited. |
| `MutexAnswers.DestroyedAnswers` | src/kernel/mutex.c:121-157 | Every call on a destroyed mutex says so. |
| `MutexAnswers.AwakenAnswers` | src/kernel/mutex.c:173-295 | A resumed lock answers by what woke it: OK only to the owner it was handed to, DESTROYED exactly if told, TIMEOUT otherwise. |
| `Mutex.EventKeeps` | src/kernel/mutex.c:64-355 | Each mutex call, resumption or other kernel step keeps the mutex invariant. |
| `MutexObject.MutexObject.constructor` | src/kernel/mutex.c:34-40 | The object starts free. |
| `MutexObject.MutexObject.TryLock` | src/kernel/mutex.c:121-157 | In place: takes, nests or reports busy as specified. |
| `MutexObject.MutexObject.Lock` | src/kernel/mutex.c:173-295 | In place: the locks up to their yield are the specified step. |
| `MutexObject.MutexObject.Awaken` | src/kernel/mutex.c:173-295 | In place: the locks after their yield return the specified code. |
| `MutexObject.MutexObject.Unlock` | src/kernel/mutex.c:311-355 | In place: the unlock with its direct hand-off is the specified step. |
| `MutexObject.MutexObject.Destroy` | src/kernel/mutex.c:64-87 | In place: frees the mutex and wakes everyone with DESTROYED, counting them. |
| `MessageQueue.NoLostWakeUp` | src/kernel/msg_queue.c:241-694 | Over any run of sends to either end, receives, peeks, their interrupt forms, timeouts and deletions: while a reader waits on a live queue there are no more messages than woken readers on their way (and woken readers deleted), so too free slots and writers; and the messages sent are those received plus those held, in order if none went to the front. |
| `MessageQueue.NobodyPendingMeansSettled` | src/kernel/msg_queue.c:241-538 | So once nobody woken is on its way, a waiting reader means an empty queue, a waiting writer a full one, and never both wait. |
| `MessageQueue.ServeKeeps` | src/kernel/msg_queue.c:257-272 | Serving a call, peek included, spends or passes on exactly the wake-up that brought the caller, so no message or slot is left with waiters and no one coming. |
| `MessageQueue.AttemptKeeps` | src/kernel/msg_queue.c:241-304 | One pass of a retry loop keeps the wake-up invariant, whether it serves, refuses or blocks again. |
| `MessageQueue.ResumedKeeps` | src/kernel/msg_queue.c:399-461 | A woken task's re-check, or its return with TIMEOUT or DESTROYED, keeps queue, wake-ups and message log right. |
| `MessageQueue.AwakenNeverStray` | src/kernel/msg_queue.c:38-54 | A resumed call never returns the stray-state error; TIMEOUT only from a timed call. |
| `MessageQueue.DeletionKeepsWakeUpsIff` | src/kernel/task.c:142-200 | Deleting a woken reader, or writer, before it runs keeps its side of the guarantee exactly when nobody waits there or more wake-ups than messages, or free slots, were under way. |
| `MessageQueue.DeletedReaderStrandsMessage` | src/kernel/msg_queue.c:263-272 | It does fail: two waiting readers, one send, the woken reader deleted; a message is there, a reader waits and nobody is coming. |
| `MessageQueueWitness.StrandedFromBoot` | src/kernel/msg_queue.c:399-461 | And it is reached: a legal run from boot, spelled out, ends there for every queue and message size. |
| `MessageQueue.EventKeeps` | src/kernel/msg_queue.c:181-694 | Each queue call, interrupt form, resumption, destruction or other kernel step keeps the queue invariant. |
| `MessageQueueAnswers.AttemptAnswers` | src/kernel/msg_queue.c:241-304 | A pass of a call succeeds exactly if there is a free slot to send into or a message to take; the exact case of each refusal; a call that waits does so on its own side and till its own deadline. |
| `MessageQueueAnswers.IsrAnswers` | src/kernel/msg_queue.c:554-694 | The interrupt forms succeed in the same cases, never wait, and ask for the processor if they wake anyone. |
| `MessageQueueAnswers.AwakenAnswers` | src/kernel/msg_queue.c:38-54 | A resumed call tries again if handed a wake-up, and otherwise answers DESTROYED exactly if told and TIMEOUT exactly if its time was up. |
| `MessageQueueAnswers.DestroyAnswers` | src/kernel/msg_queue.c:181-206 | Destruction empties both wait queues and tells everyone on them. |
| `MessageQueueAnswers.PaddedIs` | src/kernel/msg_queue.c:61-80 | A slot holds the bytes sent and then zeros. |
| `MessageQueueAnswers.PeekAnswersAsReceive` | src/kernel/msg_queue.c:399-538 | A peek answers what a receive in its place would, message and all, and leaves the message there, from a task or an interrupt. |
| `MessageQueueAnswers.HandsBackNextSent` | src/kernel/msg_queue.c:399-538 | While nothing has been sent to the front, each receive or peek, called, resumed or from an interrupt, hands back the next of the messages sent that has not been received. |
| `MessageQueueAnswers.SentIsReceived` | src/kernel/msg_queue.c:241-383 | A message sent is received after all those there already, one sent to the front before them, and the others keep their order. |
| `MessageQueueAnswers.FrontSendUndone` | src/kernel/msg_queue.c:320-383 | A message sent to the front is the next received, which leaves the queue as it was. |
| `MessageQueueObject.MessageQueueObject.constructor` | src/kernel/msg_queue.c:141-156 | A new queue holds no message. |
| `MessageQueueObject.MessageQueueObject.BlockOn` | src/kernel/msg_queue.c:274-304 | In place: what a call does when it cannot be served. |
| `MessageQueueObject.MessageQueueObject.Send` | src/kernel/msg_queue.c:241-383 | In place: one pass of a send to either end, ring bytes and wake-up included, is the specified pass on the message sequence. |
| `MessageQueueObject.MessageQueueObject.Recv` | src/kernel/msg_queue.c:399-461 | In place: one pass of a receive is the specified pass and hands back the oldest message. |
| `MessageQueueObject.MessageQueueObject.Peek` | src/kernel/msg_queue.c:477-538 | In place: one pass of a peek is the specified pass and wakes the next reader. |
| `MessageQueueObject.MessageQueueObject.SendFromIsr` | src/kernel/msg_queue.c:554-591 | In place: the interrupt send is the specified step. |
| `MessageQueueObject.MessageQueueObject.RecvFromIsr` | src/kernel/msg_queue.c:607-643 | In place: the interrupt receive is the specified step. |
| `MessageQueueObject.MessageQueueObject.PeekFromIsr` | src/kernel/msg_queue.c:659-694 | In place: the interrupt peek is the specified step. |
| `MessageQueueObject.MessageQueueObject.Destroy` | src/kernel/msg_queue.c:181-206 | In place: wakes all readers and writers with DESTROYED and counts them. |
| `MessageQueueObject.Create` | src/kernel/msg_queue.c:126-157 | No queue exactly for a zero dimension or for want of memory; otherwise a new empty one of those dimensions. |
| `MessageRing.Ring.constructor` | src/kernel/msg_queue.c:141-153 | A new ring of any slot size and length stands for the empty sequence. |
| `MessageRing.Ring.PushBack` | src/kernel/msg_queue.c:263-272 | Appends the zero-padded message to the sequence the ring stands for; no other slot and nothing outside the buffer is touched. |
| `MessageRing.Ring.PushFront` | src/kernel/msg_queue.c:342-351 | Puts the zero-padded message in front of the sequence. |
| `MessageRing.Ring.PopFront` | src/kernel/msg_queue.c:421-429 | Takes the first message off the sequence and returns it. |
| `MessageRing.Ring.Fill` | src/kernel/msg_queue.c:265-266 | The slot holds the zero-padded data and no byte outside it has changed. |
| `MessageRing.Ring.Front` | src/kernel/msg_queue.c:499-502 | Returns the first message and changes nothing. |
| `MessageRing.Ring.IsFull` | src/kernel/msg_queue.c:82-90 | True exactly when the sequence has length qlen. |
| `MessageRing.Ring.IsEmpty` | src/kernel/msg_queue.c:92-100 | True exactly when the sequence is empty. |
| `MessageRing.Ring.Count` | src/kernel/msg_queue.c:102-124 | The length of the sequence, in both wrap branches, never above qlen. |
| `MessageRing.Ring.Successor` | src/kernel/msg_queue.c:56-59 | The next slot, back to the first behind the last. |
| `MessageRing.Ring.Zero` | src/kernel/msg_queue.c:61-69 | Zeroes the given bytes and no others. |
| `MessageRing.Ring.CopyIn` | src/kernel/msg_queue.c:71-80 | Copies the data in and changes no other byte. |
| `MessageRing.Ring.CopyOut` | src/kernel/msg_queue.c:71-80 | Returns the bytes of the slot. |
| `Heap.AlignSizeCoversIff` | src/kernel/malloc.c:33-36 | Rounding a request gives at least its size exactly up to 2^32 - 8; above that it wraps to zero. |
| `Heap.MallocKeeps` | src/kernel/malloc.c:71-144 | Allocation keeps the blocks tiling the heap in address order with sizes in multiples of eight, and makes no two free neighbours. |
| `Heap.MallocReturns` | src/kernel/malloc.c:115-144 | A returned pointer is aligned, inside the heap, new, apart from every payload in use, and big enough exactly up to 2^32 - 8; the used blocks are those of before and the new one. |
| `Heap.FreeIsCoalesced` | src/kernel/malloc.c:91-113 | Freeing merges the block with each free neighbour and nothing more. |
| `Heap.FreeKeeps` | src/kernel/malloc.c:146-174 | Freeing keeps the tiling and leaves no two free neighbours. |
| `Heap.FreeTakesBack` | src/kernel/malloc.c:146-174 | Freeing takes back exactly its own pointer; the other used blocks stay as they are, and no block becomes used. |
| `Heap.MallocThenFree` | src/kernel/malloc.c:115-174 | Freeing what was just allocated restores the block list exactly. |
| `Heap.HeapInvariant` | src/kernel/malloc.c:71-174 | Over every run of allocations, frees and reallocations the blocks tile the heap, the used blocks are exactly the pointers held, and every byte is free, used or header; no two neighbours are free while no shrink splits in front of a free block. |
| `Heap.FullRecovery` | src/kernel/malloc.c:249-284 | Once everything has been freed, in any order, one free block is left and the free size is the total size, if no reallocation on the way split in front of a free block. |
| `HeapRecovery.RecoversIff` | src/kernel/malloc.c:201-284 | After any run of allocations, frees and reallocations that holds nothing at its end, there is one free block more than shrinks that fragmented and were not mended, and the free size is one header short for each; so the heap is its initial block again exactly if its allocations mended as many pairs as its shrinks broke. |
| `HeapRecovery.CallPairs` | src/kernel/malloc.c:115-247 | Each call changes the number of free blocks followed by a free one by one more if it shrinks in front of a free block and splits, less those its allocation takes a block of. |
| `HeapRecovery.FreePairsKept` | src/kernel/malloc.c:146-174 | A free never changes that number: it merges on both sides. |
| `HeapAnswers.MallocAnswers` | src/kernel/malloc.c:115-144 | An allocation fails exactly if it asks for nothing or no free block is big enough; it takes the lowest that is, and of it less than a header and eight bytes more than the rounded size. |
| `HeapAnswers.ReallocAnswers` | src/kernel/malloc.c:201-247 | A reallocation keeps its pointer exactly if the block holds the rounded size, giving back the rest, and fails exactly if it needs more than any free block has. |
| `HeapAnswers.FreeGivesBack` | src/kernel/malloc.c:146-174 | The free size grows by the block freed and a header for each neighbour it merges with. |
| `Heap.NeverFragmentsWithoutResize` | src/kernel/malloc.c:71-174 | Runs of allocations and frees alone meet that condition. |
| `Heap.TotalIsFreeIff` | src/kernel/malloc.c:249-284 | The total reported for an untouched heap is its free size except for a region of eight bytes, where the subtraction wraps. |
| `Heap.ReallocReturns` | src/kernel/malloc.c:201-247 | Reallocation keeps the tiling; success puts a block in place of the old one, apart from all others in use, which stay as they are, and big enough up to 2^32 - 8; failure changes nothing; size zero frees. |
| `Heap.ReallocFragmentsIff` | src/kernel/malloc.c:201-247 | A reallocation leaves no two free neighbours exactly unless it shrinks and splits in front of a free block. |
| `Heap.ShrinkKeeps` | src/kernel/malloc.c:222-229 | The in-place path of realloc keeps the tiling, the address, at least the size asked for, and every other used block. |
| `Heap.ShrinkFragmentsIff` | src/kernel/malloc.c:222-229 | It leaves no two free neighbours exactly when it splits nothing off or the block behind is not free. |
| `Heap.ShrinkThenFreeSplits` | src/kernel/malloc.c:146-174 | A heap from which everything was freed can be in two pieces and sixteen bytes short, after one shrink; allocating and freeing the first piece once more makes it whole. |
| `HeapObject.HeapObject.constructor` | src/kernel/malloc.c:38-69 | Initialisation aligns the ends inwards and makes one free block of the region, or none of one too small. |
| `HeapObject.HeapObject.Total` | src/kernel/malloc.c:249-261 | The total size reported, zero for a region of no bytes. |
| `HeapObject.HeapObject.Malloc` | src/kernel/malloc.c:115-144 | In place: the first-fit loop and split give the specified block list and pointer. |
| `HeapObject.HeapObject.Free` | src/kernel/malloc.c:146-174 | In place: the two merges give the specified block list. |
| `HeapObject.HeapObject.TotalFree` | src/kernel/malloc.c:263-284 | The loop adds up the free payloads. |
| `HeapObject.HeapObject.Calloc` | src/kernel/malloc.c:176-199 | The memory returned is all zero, other used payloads keep their bytes, and an overflowing product or a failed allocation changes nothing. |
| `HeapObject.HeapObject.Realloc` | src/kernel/malloc.c:201-247 | The block list and result are the specified ones: no pointer allocates, size zero frees, and otherwise the promise of ReallocLive holds. |
| `HeapObject.HeapObject.ReallocLive` | src/kernel/malloc.c:220-247 | Up to 2^32 - 8: on success a block of at least the size asked for takes the old one's place, apart from all others in use, which stay as they are; its first bytes, as many as both sizes have, are the old ones; on failure nothing changes; other used payloads keep their bytes. Above it the block is shrunk to nothing and success reported. |
| `HeapObject.HeapObject.GrowInto` | src/kernel/malloc.c:231-246 | The moving path: old bytes copied, old block freed, a block of at least the size in its place, other blocks and payloads untouched. |
| `HeapObject.HeapObject.ZeroRange` | src/kernel/malloc.c:176-199 | Zeroes the given bytes and no others. |
| `HeapObject.HeapObject.CopyRange` | src/kernel/malloc.c:237-243 | Copies between ranges that do not meet and changes no other byte. |
| `HeapObject.Product` | src/kernel/malloc.c:176-199 | The overflow test lets through exactly the products that fit 32 bits. |
| `Timers.InsertSorted` | src/kernel/timer.c:24-40 | Inserting by wrap-around comparison keeps the list in order of absolute deadline. |
| `Timers.FireFirstKeeps` | src/kernel/timer.c:347-369 | One firing takes one from what is due to its timer and nothing from any other, and keeps order and window. |
| `Timers.FiresExactlyWhatIsDue` | src/kernel/timer.c:329-373 | The loop ends with every deadline to come, each timer having fired exactly as often as was due, in order of deadline. |
| `Timers.LeavesDeadlineAfter` | src/kernel/timer.c:329-373 | A periodic timer is left with its deadline advanced by one period for each firing. |
| `Timers.RunExpiredIds` | src/kernel/timer.c:329-373 | The loop starts no timer, and ends every one-shot timer that had expired. |
| `Timers.StepKeeps` | src/kernel/timer.c:177-255 | Starts, restarts, stops and ticks keep the list sorted, without duplicates, and free of past deadlines. |
| `Timers.NoDriftNoSkip` | src/kernel/timer.c:329-373 | Over any run of starts and stops of other timers and of tick jumps, a timer of deadline D left alone has fired, once tick T >= D is processed, floor((T - D) / P) + 1 times for period P, once if one-shot, and never before D. |
| `Timers.StoppedNeverFires` | src/kernel/timer.c:223-241 | A timer not on the list fires no more until it is started. |
| `TimerAnswers.DueMeans` | src/kernel/timer.c:329-373 | n firings are due exactly from the deadline plus n - 1 periods until the deadline plus n periods; a one-shot timer is due once. |
| `TimerAnswers.StartedFires` | src/kernel/timer.c:177-199 | A timer started and then left alone fires first at the tick its delay comes to and then with its period, over any run. |
| `TimerAnswers.StopSilences` | src/kernel/timer.c:223-241 | A stopped timer does not fire until it is started again. |
| `TimerAnswers.OthersUntouched` | src/kernel/timer.c:177-241 | Starting or stopping a timer leaves every other as it was. |
| `TimerObject.TimerList.constructor` | src/kernel/timer.c:42-52 | A new timer list is empty. |
| `TimerObject.TimerList.Create` | src/kernel/timer.c:150-175 | A null callback is refused; otherwise there is one timer more, inactive. |
| `TimerObject.TimerList.TakeFirst` | src/kernel/timer.c:347-356 | The first timer leaves the list, the others keep their order and flags. |
| `TimerObject.TimerList.Insert` | src/kernel/timer.c:24-40 | In place: the walk puts the timer where specified. |
| `TimerObject.TimerList.Start` | src/kernel/timer.c:177-199 | In place: a running timer is taken off first, then inserted at now plus delay; a destroyed one is not started. |
| `TimerObject.TimerList.Stop` | src/kernel/timer.c:223-241 | In place: the timer is off the list and inactive. |
| `TimerObject.TimerList.Destroy` | src/kernel/timer.c:255-283 | In place: off the list, inactive, and no longer startable. |
| `TimerObject.TimerList.FireFirst` | src/kernel/timer.c:347-369 | In place: one firing, the active flag still saying whether the timer is listed. |
| `TimerObject.TimerList.RunExpired` | src/kernel/timer.c:329-373 | In place: the loop terminates with the specified list and calls the specified callbacks in order. |
| `TimerObject.TimerList.ActiveDistinct` | src/kernel/timer.c:177-199 | A timer is on the list at most once. |
| `TimerObject.TimerList.SetTick` | boards/esp32c3/hal.c:291-300 | The new tick count changes no timer. |
| `TimerObject.Timer.constructor` | src/kernel/timer.c:135-148 | A new timer is inactive. |
| `Handles.PackedFieldsRoundTrip` | src/kernel/handle.c:19-32 | Packing and unpacking a handle are inverse, and only index 0 with generation 0 packs to the invalid handle. |
| `Handles.GrantsIff` | src/kernel/handle.c:143-147 | The rights mask test passes exactly when every right asked for is held. |
| `Handles.LiveHandlesDistinct` | src/kernel/handle.c:81-114 | Live handles are never the invalid handle, each names its own slot, and no two are equal. |
| `Handles.AllocThenLookup` | src/kernel/handle.c:81-152 | Allocation fails exactly on bad arguments or a full table; its handle, stale until then, finds its object under its kind or any with rights it was given, and the specified error otherwise. |
| `Handles.LookupAnswers` | src/kernel/handle.c:116-152 | A lookup of the handle of a slot in use succeeds exactly under the slot's kind or any, asking for no right the handle lacks; the exact case of each code. |
| `Handles.UnknownHandleAnswers` | src/kernel/handle.c:55-79 | A handle that is not that of a slot in use fails every lookup and close. |
| `Handles.CloseAnswers` | src/kernel/handle.c:154-182 | Closing the handle of a slot in use empties that slot alone and leaves the handle naming nothing. |
| `Handles.LiveUntilClosed` | src/kernel/handle.c:116-152 | A live handle gives the same answer through any run of allocations and closes of other handles. |
| `Handles.StaleHandleNamesIff` | src/kernel/handle.c:55-79 | An old handle is taken for a live one exactly when its slot is in use and has been closed a multiple of 65535 times since. |
| `Handles.ClosedHandleRejected` | src/kernel/handle.c:154-182 | A closed handle fails every lookup, through any run, until its slot has been closed 65535 times in all. |
| `Handles.OldHandleFindsNewObject` | src/kernel/handle.c:171-177 | The bound is exact: after 65535 closes and reallocations of a slot with no free slot below it the old handle finds the new object. |
| `Handles.Apply` | src/kernel/handle.c:154-182 | Each call keeps used slots filled, unused ones empty, and the generation running from 1 to 65535 and round. |
| `HandleTable.HandleTable.constructor` | src/kernel/handle.c:34-53 | All slots start unused with generation 1. |
| `HandleTable.HandleTable.FindSlot` | src/kernel/handle.c:55-79 | The live slot a handle names, if any. |
| `HandleTable.HandleTable.Alloc` | src/kernel/handle.c:81-114 | In place: the scanning loop takes the first unused slot, as specified. |
| `HandleTable.HandleTable.Lookup` | src/kernel/handle.c:116-152 | Returns the specified object or error. |
| `HandleTable.HandleTable.Close` | src/kernel/handle.c:154-182 | In place: clears the slot and moves its generation on, skipping zero. |
| `HandleTable.HandleTable.IsValid` | src/kernel/handle.c:184-189 | True exactly for live handles. |
| `IntrusiveList.SelfPointingIffAlone` | include/list.h:97-100 | In a ring a node points to itself exactly when it is alone: an entry on no list, or an empty list. |
| `IntrusiveList.RingIsUnique` | include/list.h:7-11 | The pointers determine the sequence: two rings from one head are equal. |
| `IntrusiveList.Node.constructor` | include/list.h:22-26 | An initialised node is a ring of one. |
| `IntrusiveList.AddBetween` | include/list.h:28-35 | The four pointer writes link the node between its neighbours. |
| `IntrusiveList.Add` | include/list.h:37-40 | Adding behind the head inserts at index 1 of the ring, next and prev still inverse all round. |
| `IntrusiveList.AddTail` | include/list.h:42-50 | Adding in front of a node inserts there, in front of the head at the end; only the named pointers change. |
| `IntrusiveList.DelInit` | include/list.h:52-69 | The entry becomes a ring of one and the others close up in order. |
| `IntrusiveList.IsEmpty` | include/list.h:97-100 | True exactly when the ring is the head alone. |
| `IntrusiveList.AddTailBeside` | include/list.h:42-45 | Adding to one list leaves a list that shares no node with it alone. |
| `IntrusiveList.MoveToTail` | src/kernel/sched.c:195-212 | Taking a node off one list and onto the end of another keeps both rings and writes no other pointer. |

## Left out

- Hardware: trap entry and exit, register frames, system timer, GPIO, interrupt routing, startup and the linker script. A trap is a step that carries whether it was a tick and the new tick.
- Logging, test applications, task names, stacks and stack frames, the task count limit, and `sched_dump_all_task`.
- Preemption inside `task_yield` and inside `task_create_kernel` once the scheduler runs: each is one step, except in the lemmas of `KernelYieldGap` and `KernelCreateGap` that show what happens otherwise. There the linking of a node is one step still, and one enqueue at a time is open.
- Before the start, tasks can be created, deleted and woken; calls that take the scheduler lock or use an object before it are not in the runs.
- Task records are entries of a map keyed by address, not objects, and their list membership is a sequence with the list named in the record; the pointer work is proved in `IntrusiveList`. A task may be created at the address of a freed record, as at any address not in use; that the address comes from the heap is not modelled.
- Object storage after destruction: a destroyed semaphore, mutex or queue stays readable to a waiter that has not resumed.
- The handle lookup in front of each object call, and the closing of handles in the destroy calls; the lookup itself is in `Handles`. Arguments that are null pointers.
- Allocation failure while a task or timer is created.
- Blocking calls and self-deletion from interrupts, and the refusals that test for them.
- Timer callbacks that start or stop timers: in the timer model they are only logged; what they wake is an interrupt step between the two parts of a trap. Timer creation and the start of the tick.
- Block headers as bytes of the heap: headers are a list beside the payload bytes.
- The reserved priority fields `base_priority` and `effective_priority`, which no code uses, and the list macros no code uses.
- KernelWaking.CreateKeeps: the enqueue is one step, because with a trap inside it the invariant can fail (`CreationKeepsInvIff` says exactly when); the task limit, the stack size check and allocation failure are not modelled, because stacks and the heap are apart from the kernel value here.
- Scheduler.Scheduler.TaskCreate: the same refusals are not modelled, and no trap comes inside it.
- Scheduler.Scheduler.TaskDelete: the close of the task's handle and the task count are not modelled.
- TimerObject.TimerList.Create: allocation failure is not modelled.
- MessageQueueObject.MessageQueueObject.constructor: it is the part behind the check of the dimensions, which `Create` makes.
- MessageRing.Ring.constructor: it is behind the same check.
- KernelRuns.StepKeeps: a yield and a creation are one step (`KernelYieldGap`, `KernelCreateGap`); waits, sleeps and tick jumps are below 2^31 ticks, because beyond that the stored deadline reads as past; `ReadsExpiredAtOnceIff` gives the exact point.
- KernelRuns.RunKeeps: the same bound, for the same reason.
- KernelSteps.TrapKeeps: the same bound, for the same reason.
- KernelSteps.TrapExpireKeeps: the same bound, for the same reason.
- KernelBlocking.BlockTicksKeeps: the same bound, for the same reason.
- KernelBlocking.BlockTimeoutKeeps: the same bound, for the same reason.
- KernelBlocking.DelayKeeps: the same bound, for the same reason.
- Scheduler.Scheduler.DoTrap: the same bound, for the same reason.
- KernelWaking.YieldKeeps: the yield is one step, because with a trap inside it the invariant fails (`YieldGapLosesTask`, `YieldKeepsInvIff`).
- Scheduler.Scheduler.LeaveCall: only history moves when a task comes back from its yield, so it has no row.
- HeapObject.HeapObject.Calloc: products above 2^32 - 8 that still fit 32 bits are covered only when the allocation fails, because the rounded size is then zero and the zeroing loop runs past the block (`MallocReturns` says exactly when the block is big enough).
- HeapObject.HeapObject.constructor: regions whose aligned ends would leave the 32-bit address space are excluded, because the alignment wraps there.
- Heap.HeapInvariant: `calloc` is a `malloc` to the block list.
- Mutex.MutexSafety: an owner nests fewer than 2^32 locks, because the count wraps there (`CountWrapsIff`). A deleted task keeps what it owned.
- Mutex.EventKeeps: the same bound on nesting.
- Timers.StepKeeps: delay or period plus tick jump is below 2^31, beyond which the comparison is wrong.
- Timers.NoDriftNoSkip: the same bound.
