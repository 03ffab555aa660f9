/** What the scheduler promises over runs: priority order after every tick, no switch under the scheduler lock, and a
    preemption the lock defers carried out by the outermost unlock. */
module KernelSchedule {
  import opened Common
  import opened TickTime
  import opened Bitmap
  import opened KernelState
  import opened KernelInvariant
  import opened KernelSteps
  import opened KernelBlocking
  import opened KernelWaking
  import opened KernelRuns
  import opened KernelFrames

  // ----- priority order

  ghost predicate NoReadyAbove(k: Kernel, p: nat) {
    forall r: nat | p < r <= PRIORITY_MAX :: At(k, ReadyList(r)) == []
  }

  /** No ready list above the current task's priority has a task on it. */
  ghost predicate NoneOutranks(k: Kernel) {
    k.current.Some? && NoReadyAbove(k, TaskOf(k, k.current.value).priority)
  }

  lemma ClearMaskMeansEmpty(k: Kernel, p: nat)
    requires MaskOk(k) && k.mask == 0
    ensures NoReadyAbove(k, p) && At(k, ReadyList(0)) == []
  {
    forall r: nat | r <= PRIORITY_MAX ensures At(k, ReadyList(r)) == [] {
      ZeroHas(r);
      assert !Has(k.mask, r);
    }
  }

  lemma HighestIsTop(k: Kernel)
    requires MaskOk(k) && k.mask != 0
    ensures 0 <= Highest(k.mask) && NoReadyAbove(k, Highest(k.mask))
  {
    HighestSpec(k.mask);
    forall r: nat | Highest(k.mask) < r <= PRIORITY_MAX ensures At(k, ReadyList(r)) == [] {
      assert !Has(k.mask, r);
    }
  }

  lemma SwitchIsHighest(k: Kernel)
    requires Core(k) && NoneRunning(k)
    ensures NoneOutranks(SwitchToHighest(k))
  {
    hide ListsOk, TasksOk, TimeoutsOk, QueuesOk, GlobalOk, CoreBut, PopHighest, NoReadyAbove, MaskOk;
    PopHighestKeeps(k);
    var (popped, next) := PopHighest(k);
    if next.Some? {
      HighestIsTop(k);
      ReadyRemoveMoves(k, next.value);
      RemovingKeepsEmpty(k, next.value, Highest(k.mask));
      SameReadyAbove(popped, MakeCurrent(popped, next.value), Highest(k.mask));
      ReadyRemoveKeepsPriority(k, next.value);
    } else {
      ClearMaskMeansEmpty(k, TaskOf(k, k.idle).priority);
      SameReadyAbove(k, MakeCurrent(k, k.idle), TaskOf(k, k.idle).priority);
    }
  }

  lemma SameReadyAbove(k: Kernel, k': Kernel, p: nat)
    requires NoReadyAbove(k, p) && k'.lists == k.lists
    ensures NoReadyAbove(k', p)
  {
  }

  lemma RemovingKeepsEmpty(k: Kernel, t: TaskId, p: nat)
    requires NoReadyAbove(k, p)
    ensures NoReadyAbove(ReadyRemove(k, t), p)
  {
    forall r: nat | p < r <= PRIORITY_MAX ensures At(ReadyRemove(k, t), ReadyList(r)) == [] {
      assert At(k, ReadyList(r)) == [];
    }
  }

  lemma ReadyRemoveKeepsPriority(k: Kernel, t: TaskId)
    ensures TaskOf(ReadyRemove(k, t), t).priority == TaskOf(k, t).priority
  {
  }

  lemma PickNextIsHighest(k: Kernel)
    requires Core(k) && !IsLocked(k)
    ensures NoneOutranks(PickNext(k))
  {
    hide Core, SwitchToHighest, StepDown;
    if CurrentIs(k, Running) {
      StepDownKeeps(k);
      SwitchIsHighest(StepDown(k));
    } else {
      OnlyCurrentRuns(k);
      SwitchIsHighest(k);
    }
  }

  /** Whatever woke up during the trap, a tick decision without the scheduler lock leaves nothing ready
      above the current task. */
  lemma TickDecisionRestoresPriority(k: Kernel)
    requires Core(k) && k.current.Some? && !IsLocked(k)
    ensures NoneOutranks(Decide(k, true))
  {
    hide ListsOk, TasksOk, TimeoutsOk, QueuesOk, GlobalOk, PickNext, HigherPriorityReady, MaskOk, NoReadyAbove;
    if !CurrentIs(k, Running) || CurrentIsIdle(k) {
      PickNextIsHighest(k);
    } else {
      var (ticked, switch) := OnTick(k);
      OnTickKeeps(k);
      if switch {
        PickNextIsHighest(ticked);
      } else {
        var p := TaskOf(k, k.current.value).priority;
        if k.mask == 0 {
          ClearMaskMeansEmpty(k, p);
        } else {
          NotHigherMeansNone(k);
        }
        SameReadyAbove(k, ticked, p);
      }
    }
  }

  lemma NotHigherMeansNone(k: Kernel)
    requires Core(k) && k.current.Some? && !HigherPriorityReady(k)
    ensures NoneOutranks(k)
  {
    hide Core, HigherPriorityReady;
    HigherMaskIsScan(k);
  }

  /** What a trap's timer callbacks do to the kernel: they wake, create and delete tasks. */
  predicate Callbacks(ops: seq<Op>) {
    forall op | op in ops :: op.DoWake? || op.DoWakeAll? || op.DoCreate? || op.DoDelete?
  }

  lemma {:induction false} CallbacksKeep(k: Kernel, ops: seq<Op>)
    requires Inv(k) && k.current.Some? && Callbacks(ops) && Legal(k, ops)
    ensures Inv(Run(k, ops)) && Run(k, ops).current == k.current && Run(k, ops).lockCount == k.lockCount
    decreases |ops|
  {
    hide Inv, Enabled, Apply, CpuFrame;
    if ops != [] {
      assert ops[0] in ops;
      StepKeeps(k, ops[0]);
      CallbackCpu(k, ops[0]);
      assert forall op | op in ops[1..] :: op in ops;
      CallbacksKeep(Apply(k, ops[0]), ops[1..]);
    }
  }

  lemma CallbackCpu(k: Kernel, op: Op)
    requires Inv(k) && Enabled(k, op) && (op.DoWake? || op.DoWakeAll? || op.DoCreate? || op.DoDelete?)
    ensures Apply(k, op).current == k.current && Apply(k, op).lockCount == k.lockCount
  {
    hide Core, AllInFuture, WakeResult, WakeAll, ReadyEnqueue, Delete;
    match op
    case DoWake(q, result, isr) =>
      WakeResultCpu(k, q, result);
      WakeResultCpu(k, q, Object);
    case DoWakeAll(q, result) => WakeAllCpu(k, q, result);
    case DoCreate(t, priority) =>
      ReadyEnqueueMoves(SetTask(k, t, Task(priority, Ready, Unlinked, false, 0, NoResult)), t);
    case DoDelete(t) => DeleteCpu(k, t);
  }

  /** After every tick trap taken with the scheduler unlocked, whatever its expiries and timer callbacks have made
      ready, no ready task outranks the current one. */
  lemma PriorityRestoredEachTick(k: Kernel, now: nat, callbacks: seq<Op>, t: TaskId)
    requires Inv(k) && Enabled(k, DoTrap(true, now)) && !IsLocked(k)
    requires Callbacks(callbacks) && Legal(TrapExpire(k, true, now), callbacks)
    ensures var k' := Decide(Run(TrapExpire(k, true, now), callbacks), true);
            && (callbacks == [] ==> k' == Trap(k, true, now))
            && NoneOutranks(k')
            && (TaskOf(k', t).state == Ready && t != k'.idle ==>
                  TaskOf(k', t).priority <= TaskOf(k', k'.current.value).priority)
  {
    hide Inv, Decide, TrapExpire;
    var woken := TrapExpire(k, true, now);
    TrapExpireKeeps(k, true, now);
    TrapExpireCpu(k, true, now);
    CallbacksKeep(woken, callbacks);
    var ready := Run(woken, callbacks);
    InvTime(ready);
    TickDecisionRestoresPriority(ready);
    DecideKeepsInv(ready, true);
    InvTime(Decide(ready, true));
    ReadyIsListed(Decide(ready, true), t);
  }

  lemma ReadyIsListed(k: Kernel, t: TaskId)
    requires Core(k)
    ensures TaskOf(k, t).state == Ready && t != k.idle ==>
              t in At(k, ReadyList(TaskOf(k, t).priority)) && TaskOf(k, t).priority <= PRIORITY_MAX
  {
    hide MaskOk, TimeoutsOk, QueuesOk, GlobalOk;
    if t in k.tasks {
      assert TaskOk(k, t);
      NotOnList(k, t, ReadyList(TaskOf(k, t).priority));
    }
  }

  // ----- the scheduler lock

  /** Steps other than a trap leave the processor, the slice counter and a pending request alone; only the
      outermost unlock consumes the request. */
  ghost predicate CpuFrame(k: Kernel, k': Kernel) {
    && k'.current == k.current && k'.slice == k.slice && k'.idle == k.idle
    && (k.pending ==> k'.pending)
  }

  lemma OtherStepsKeepCpu(k: Kernel, op: Op)
    requires Inv(k) && Enabled(k, op) && !op.DoTrap? && !op.DoDecide? && !op.DoStart?
    requires op.DoUnlock? ==> k.lockCount != 1
    ensures CpuFrame(k, Apply(k, op))
  {
    hide Core, AllInFuture, TrapExpire, BlockTimeout, Delay, WakeResult, WakeAll, ReadyEnqueue, Delete, StepDown,
         TimeoutInsert;
    match op
    case DoExpire(systick, now) => TrapExpireCpu(k, systick, now);
    case DoYield => if CurrentIs(k, Running) { StepDownCpu(k); }
    case DoLock =>
    case DoUnlock =>
    case DoBlock(q, us) => BlockTimeoutMoves(k, q, us);
    case DoSleep(until) => DelayCpu(k, until);
    case DoWake(q, result, isr) =>
      WakeResultCpu(k, q, result);
      WakeResultCpu(k, q, Object);
    case DoWakeAll(q, result) => WakeAllCpu(k, q, result);
    case DoResume =>
    case DoCreate(t, priority) =>
      ReadyEnqueueMoves(SetTask(k, t, Task(priority, Ready, Unlinked, false, 0, NoResult)), t);
    case DoDelete(t) => DeleteCpu(k, t);
    case DoReap =>
  }

  lemma TrapExpireCpu(k: Kernel, systick: bool, now: nat)
    requires Inv(k) && k.now <= now < k.now + HALF
    ensures CpuFrame(k, TrapExpire(k, systick, now)) && TrapExpire(k, systick, now).lockCount == k.lockCount
    ensures TrapExpire(k, systick, now).slice == k.slice && TrapExpire(k, systick, now).pending == k.pending
  {
    hide Core, WakeExpired, AllInFuture, AllNear;
    TimeKeeps(k, now);
    AfterTickNear(k, now);
    AfterTickNear(k, k.now);
    WakeExpiredExact(if systick then k.(now := now) else k);
  }

  lemma StepDownCpu(k: Kernel)
    requires k.current.Some?
    ensures CpuFrame(k, StepDown(k)) && StepDown(k).lockCount == k.lockCount && StepDown(k).pending == k.pending
  {
  }

  lemma DelayCpu(k: Kernel, until: nat)
    requires Core(k) && MayBlock(k)
    ensures CpuFrame(k, Delay(k, until))
  {
    hide Core, TimeoutInsert;
    RunningTaskOk(k);
    TimeoutInsertOnlyTimeouts();
  }

  lemma WakeResultCpu(k: Kernel, q: QueueId, result: WaitResult)
    ensures CpuFrame(k, WakeResult(k, q, result).0) && WakeResult(k, q, result).0.lockCount == k.lockCount
  {
    hide ReadyEnqueue, Without;
    if At(k, WaitList(q)) != [] {
      var t := At(k, WaitList(q))[0];
      var off := TimeoutRemove(UnlinkFirst(k, WaitList(q)), t);
      var ready := SetTask(off, t, TaskOf(off, t).(waitingOnTimer := false, state := Ready));
      ReadyEnqueueMoves(ready, t);
    }
  }

  lemma {:induction false} WakeAllCpu(k: Kernel, q: QueueId, result: WaitResult)
    ensures CpuFrame(k, WakeAll(k, q, result).0) && WakeAll(k, q, result).0.lockCount == k.lockCount
    decreases |At(k, WaitList(q))|
  {
    hide WakeResult;
    if At(k, WaitList(q)) != [] {
      WakeResultShrinks(k, q, result);
      WakeResultCpu(k, q, result);
      WakeAllCpu(WakeResult(k, q, result).0, q, result);
    }
  }

  lemma DeleteCpu(k: Kernel, t: TaskId)
    requires Core(k)
    ensures CpuFrame(k, Delete(k, t).0) && Delete(k, t).0.lockCount == k.lockCount
  {
    hide Core, MarkDeleted;
    if Delete(k, t).1 == Ok {
      MarkDeletedKeeps(k, t);
    }
  }

  lemma LockedDecide(k: Kernel, systick: bool)
    requires Inv(k) && k.current.Some? && IsLocked(k)
    ensures Decide(k, systick).current == k.current
    ensures k.pending ==> Decide(k, systick).pending
  {
    hide Core, AllInFuture, OnTick, PickNext;
    LockMeansRunning(k);
    OnTickKeeps(k);
  }

  lemma LockedTrap(k: Kernel, systick: bool, now: nat)
    requires Inv(k) && Enabled(k, DoTrap(systick, now)) && IsLocked(k)
    ensures Trap(k, systick, now).current == k.current
    ensures k.pending ==> Trap(k, systick, now).pending
  {
    hide Inv, TrapExpire, Decide;
    TrapExpireKeeps(k, systick, now);
    TrapExpireCpu(k, systick, now);
    LockedDecide(TrapExpire(k, systick, now), systick);
  }

  ghost predicate LockedThroughout(k: Kernel, ops: seq<Op>)
    decreases |ops|
  {
    IsLocked(k) && (ops != [] ==> LockedThroughout(Apply(k, ops[0]), ops[1..]))
  }

  lemma LockedStep(k: Kernel, op: Op)
    requires Inv(k) && Enabled(k, op) && IsLocked(k) && IsLocked(Apply(k, op))
    ensures Apply(k, op).current == k.current
    ensures k.pending ==> Apply(k, op).pending
  {
    hide Core, AllInFuture;
    LockMeansRunning(k);
    match op
    case DoTrap(systick, now) => LockedTrap(k, systick, now);
    case DoDecide(systick) => LockedDecide(k, systick);
    case _ => OtherStepsKeepCpu(k, op);
  }

  /** While the lock count stays above zero the same task runs, through every tick, wake-up and trap. */
  lemma {:induction false} LockHoldsTheProcessor(k: Kernel, ops: seq<Op>)
    requires Inv(k) && Legal(k, ops) && LockedThroughout(k, ops)
    ensures Run(k, ops).current == k.current && CurrentIs(Run(k, ops), Running)
    ensures k.pending ==> Run(k, ops).pending
    ensures Inv(Run(k, ops)) && IsLocked(Run(k, ops))
    decreases |ops|
  {
    hide Inv, Enabled, Apply;
    if ops == [] {
      InvTime(k);
      LockMeansRunning(k);
    } else {
      StepKeeps(k, ops[0]);
      assert LockedThroughout(Apply(k, ops[0]), ops[1..]);
      LockedStep(k, ops[0]);
      LockHoldsTheProcessor(Apply(k, ops[0]), ops[1..]);
    }
  }

  lemma LockedTickAsks(k: Kernel, now: nat)
    requires Inv(k) && Enabled(k, DoTrap(true, now)) && IsLocked(k)
    requires HigherPriorityReady(WakeExpired(k.(now := now)))
    ensures Trap(k, true, now).pending
  {
    hide Core, AllInFuture, AllNear, WakeExpired, PickNext, HigherPriorityReady;
    var ticked := k.(now := now);
    TimeKeeps(k, now);
    AfterTickNear(k, now);
    WakeExpiredExact(ticked);
    var woken := WakeExpired(ticked);
    LockMeansRunning(woken);
    HigherNeedsMask(woken);
  }

  lemma HigherNeedsMask(k: Kernel)
    requires HigherPriorityReady(k)
    ensures k.mask != 0
  {
  }

  /** A task that yields with the lock free hands over: the trap of its yield leaves nothing ready above the task it
      picks. */
  lemma YieldHandsOver(k: Kernel)
    requires Inv(k) && CurrentIs(k, Running) && !IsLocked(k)
    ensures var y := Yield(k);
            && (!CurrentIsIdle(k) ==> CurrentIs(y, Ready))
            && NoneOutranks(Trap(y, false, y.now)) && CurrentIs(Trap(y, false, y.now), Running)
  {
    hide Core, AllInFuture, StepDown, Decide, AllNear, WakeExpired;
    var y := Yield(k);
    StepDownCpu(k);
    StepDownReady(k);
    YieldKeeps(k);
    TrapKeeps(y, false, y.now);
    AfterTickNear(y, y.now);
    WakeExpiredExact(y);
    if !CurrentIsIdle(k) {
      WakeKeepsState(y);
    }
    DecisionWhenStopped(WakeExpired(y));
  }

  /** A pending request acted on: the outermost unlock consumes it and yields, and the trap of that yield leaves nothing
      ready above the task it picks. Between the unlock's critical section and its yield anything may happen, as long as
      the task runs again and has not taken the lock again. */
  lemma UnlockActsOnRequest(k: Kernel, between: seq<Op>)
    requires Inv(k) && CurrentIs(k, Running) && OwesYield(k) && Legal(ReleaseLock(k), between)
    requires var back := Run(ReleaseLock(k), between);
             back.current == k.current && CurrentIs(back, Running) && !IsLocked(back)
    ensures var y := Yield(Run(ReleaseLock(k), between));
            && !ReleaseLock(k).pending && !IsLocked(ReleaseLock(k))
            && NoneOutranks(Trap(y, false, y.now)) && CurrentIs(Trap(y, false, y.now), Running)
            && (between == [] ==> y == UnlockScheduler(k) && CurrentIs(y, Ready))
  {
    hide Inv, Yield, Trap, Legal, NoneOutranks;
    ReleaseKeeps(k);
    RunKeeps(ReleaseLock(k), between);
    InvTime(k);
    LockMeansRunning(k);
    YieldHandsOver(Run(ReleaseLock(k), between));
  }

  lemma StepDownReady(k: Kernel)
    requires k.current.Some?
    ensures TaskOf(StepDown(k), k.current.value).state == Ready
  {
  }

  lemma WakeKeepsState(u: Kernel)
    requires Core(u) && AllNear(u) && CurrentIs(u, Ready)
    ensures CurrentIs(WakeExpired(u), Ready)
  {
    hide Core, AllNear, AllInFuture, WakeExpired;
    WakeExpiredExact(u);
    var c := u.current.value;
    if c in u.timeouts {
      TimeoutListIsBlocked(u, c);
    }
  }

  lemma DecisionWhenStopped(k: Kernel)
    requires Core(k) && k.current.Some? && (!CurrentIs(k, Running) || CurrentIsIdle(k)) && !IsLocked(k)
    ensures NoneOutranks(Decide(k, false))
  {
    hide Core, PickNext, HigherPriorityReady, NoReadyAbove;
    PickNextIsHighest(k);
    PickNextKeeps(k);
    var picked := PickNext(k);
    PickNextFrame(k);
    LockMeansRunning(picked);
    FlagsKeep(picked, picked.slice, picked.lockCount, false);
    if picked.pending {
      PickNextIsHighest(picked.(pending := false));
      var clear := picked.(pending := false);
      if NoneOutranks(picked) {
        SameReadyAbove(picked, clear, TaskOf(picked, picked.current.value).priority);
      }
    }
  }

  // ----- the end of an interrupt's trap

  /** A request for the processor is acted on, and done with, at the end of any trap that is not a tick. */
  lemma RequestedDecisionRestoresPriority(k: Kernel)
    requires Inv(k) && k.current.Some? && !IsLocked(k) && k.pending
    ensures NoneOutranks(Decide(k, false)) && CurrentIs(Decide(k, false), Running)
    ensures !Decide(k, false).pending
  {
    hide Core, AllInFuture, PickNext, HigherPriorityReady, NoneOutranks;
    PickKeepsRequest(k);
    PickKeepsRequest(k.(pending := false));
    PickKeepsRequest(PickNext(k).(pending := false));
    DecideKeepsInv(k, false);
    LockMeansRunning(k);
    if !CurrentIs(k, Running) || CurrentIsIdle(k) {
      DecisionWhenStopped(k);
    } else {
      var clear := k.(pending := false);
      FlagsKeep(k, k.slice, k.lockCount, false);
      if HigherPriorityReady(clear) {
        PickNextIsHighest(clear);
      } else {
        NotHigherMeansNone(clear);
      }
    }
  }

  lemma PickKeepsRequest(k: Kernel)
    ensures PickNext(k).pending == k.pending && PickNext(k).lockCount == k.lockCount
  {
    hide Highest, ClearBit;
    if k.current.Some? {
      StepDownCpu(k);
    }
  }

  /** What an interrupt handler does to the kernel: it wakes. */
  predicate HandlerWakes(wakes: seq<Op>) {
    forall op | op in wakes :: op.DoWake? && op.isr
  }

  /** A handler that has woken anyone has asked for the processor. */
  lemma {:induction false} WakesAsk(k: Kernel, wakes: seq<Op>)
    requires Inv(k) && k.current.Some? && HandlerWakes(wakes) && Legal(k, wakes)
    ensures Run(k, wakes).pending || Run(k, wakes) == k
    ensures k.pending ==> Run(k, wakes).pending
    decreases |wakes|
  {
    hide Inv, WakeResult;
    if wakes != [] {
      var op := wakes[0];
      assert op in wakes;
      WakeAsks(k, op.queue);
      StepKeeps(k, op);
      CallbackCpu(k, op);
      assert forall other | other in wakes[1..] :: other in wakes;
      WakesAsk(Apply(k, op), wakes[1..]);
    }
  }

  lemma WakeAsks(k: Kernel, q: QueueId)
    ensures WakeFromIsr(k, q).0.pending || WakeFromIsr(k, q).0 == k
    ensures k.pending ==> WakeFromIsr(k, q).0.pending
    ensures At(k, WaitList(q)) != [] ==> WakeFromIsr(k, q).0.pending
  {
    hide ReadyEnqueue, Without;
    if At(k, WaitList(q)) != [] {
      WakeResultCpu(k, q, Object);
    }
  }

  /** Nothing expires in a trap that is not a tick. */
  lemma NothingExpires(k: Kernel)
    requires Inv(k)
    ensures TrapExpire(k, false, k.now) == k
  {
    hide Core;
    if k.timeouts != [] {
      var t := k.timeouts[0];
      TimeoutListIsBlocked(k, t);
      ComparesLikeAbsoluteTime(k.now, DueOf(k, t));
    }
  }

  /** An interrupt that is not a tick keeps priority order: whomever its handler wakes, with the scheduler unlocked its
      trap leaves no ready task above the current one, even if the wakes come with a request pending from before. */
  lemma InterruptKeepsPriority(k: Kernel, wakes: seq<Op>, t: TaskId)
    requires Inv(k) && NoneOutranks(k) && CurrentIs(k, Running) && !IsLocked(k)
    requires HandlerWakes(wakes) && Legal(TrapExpire(k, false, k.now), wakes)
    ensures var k' := Decide(Run(TrapExpire(k, false, k.now), wakes), false);
            && NoneOutranks(k') && CurrentIs(k', Running)
            && (TaskOf(k', t).state == Ready && t != k'.idle ==>
                  TaskOf(k', t).priority <= TaskOf(k', k'.current.value).priority)
  {
    hide Inv, Decide, TrapExpire, NoneOutranks;
    NothingExpires(k);
    HandlersAreCallbacks(wakes);
    CallbacksKeep(k, wakes);
    WakesAsk(k, wakes);
    var woken := Run(k, wakes);
    if woken.pending {
      RequestedDecisionRestoresPriority(woken);
    } else {
      UnrequestedDecision(k);
    }
    DecideKeepsInv(woken, false);
    InvTime(Decide(woken, false));
    ReadyIsListed(Decide(woken, false), t);
    Outranked(Decide(woken, false), TaskOf(Decide(woken, false), t).priority);
  }

  lemma HandlersAreCallbacks(wakes: seq<Op>)
    requires HandlerWakes(wakes)
    ensures Callbacks(wakes)
  {
  }

  lemma Outranked(k: Kernel, p: nat)
    requires NoneOutranks(k)
    ensures p <= PRIORITY_MAX && At(k, ReadyList(p)) != [] ==> p <= TaskOf(k, k.current.value).priority
  {
  }

  /** With no request a running task goes on, and the idle task gives way. */
  lemma UnrequestedDecision(k: Kernel)
    requires Inv(k) && NoneOutranks(k) && CurrentIs(k, Running) && !IsLocked(k) && !k.pending
    ensures NoneOutranks(Decide(k, false)) && CurrentIs(Decide(k, false), Running)
  {
    hide Core, AllInFuture, PickNext, HigherPriorityReady, NoneOutranks;
    DecideKeepsInv(k, false);
    if CurrentIsIdle(k) {
      DecisionWhenStopped(k);
    }
  }

  /** A preemption the lock defers is not forgotten: a tick finds a higher-priority task ready, the lock is
      held over any run, and the outermost unlock then hands the processor over, whatever comes before its yield. */
  lemma DeferredPreemptionHappens(k: Kernel, now: nat, ops: seq<Op>, between: seq<Op>)
    requires Inv(k) && Enabled(k, DoTrap(true, now)) && IsLocked(k)
    requires HigherPriorityReady(WakeExpired(k.(now := now)))
    requires Legal(Trap(k, true, now), ops) && LockedThroughout(Trap(k, true, now), ops)
    requires var held := Run(Trap(k, true, now), ops);
             && held.lockCount == 1 && Legal(ReleaseLock(held), between)
             && var back := Run(ReleaseLock(held), between);
                back.current == k.current && CurrentIs(back, Running) && !IsLocked(back)
    ensures var held := Run(Trap(k, true, now), ops);
            var y := Yield(Run(ReleaseLock(held), between));
            && held.current == k.current && CurrentIs(held, Running) && held.pending
            && NoneOutranks(Trap(y, false, y.now)) && CurrentIs(Trap(y, false, y.now), Running)
            && (between == [] ==> y == UnlockScheduler(held))
  {
    hide Inv, Trap, WakeExpired, HigherPriorityReady, Yield, ReleaseLock, NoneOutranks;
    StepKeeps(k, DoTrap(true, now));
    LockedTickAsks(k, now);
    InvTime(k);
    LockedTrap(k, true, now);
    LockHoldsTheProcessor(Trap(k, true, now), ops);
    UnlockActsOnRequest(Run(Trap(k, true, now), ops), between);
  }
}
