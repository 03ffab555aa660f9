/** What each kernel step leaves alone: the frame facts the blocking objects and the run theorems build on. */
module KernelFrames {
  import opened Common
  import opened TickTime
  import opened Bitmap
  import opened KernelState
  import opened KernelInvariant
  import opened KernelSteps
  import opened KernelBlocking
  import opened KernelWaking
  import opened KernelRuns

  predicate Awake(task: Task) {
    task.state == Ready || task.state == Running
  }

  /** Only whether an awake task runs, and the ready list it is on, may differ. */
  ghost predicate SameButRun(a: Task, b: Task) {
    && b == a.(state := b.state, node := b.node)
    && (Awake(a) <==> Awake(b))
    && (!Awake(a) ==> a == b)
  }

  /** A scheduling decision moves the processor between awake tasks and changes nothing else. */
  ghost predicate DecisionFrame(k: Kernel, k': Kernel) {
    && SameTime(k, k')
    && k'.pc == k.pc && k'.arrivals == k.arrivals && k'.idle == k.idle && k'.lockCount == k.lockCount
    && k'.tasks.Keys == k.tasks.Keys
    && (forall u | u in k.tasks :: SameButRun(TaskOf(k, u), TaskOf(k', u)))
    && (forall id: ListId | !id.ReadyList? :: At(k', id) == At(k, id))
  }

  lemma FrameCompose(k1: Kernel, k2: Kernel, k3: Kernel)
    requires DecisionFrame(k1, k2) && DecisionFrame(k2, k3)
    ensures DecisionFrame(k1, k3)
  {
    forall u | u in k1.tasks ensures SameButRun(TaskOf(k1, u), TaskOf(k3, u)) {
      assert SameButRun(TaskOf(k1, u), TaskOf(k2, u)) && SameButRun(TaskOf(k2, u), TaskOf(k3, u));
    }
  }

  lemma StepDownFrame(k: Kernel)
    requires Core(k) && CurrentIs(k, Running)
    ensures DecisionFrame(k, StepDown(k))
  {
    hide Core, SetBit;
    var c := k.current.value;
    RunningTaskOk(k);
    assert StepDown(k).tasks.Keys == k.tasks.Keys;
  }

  lemma RemoveThenRun(k: Kernel, t: TaskId)
    requires t in k.tasks && TaskOf(k, t).state == Ready
    requires TaskOf(k, t).priority <= PRIORITY_MAX && TaskOf(k, t).node == Linked(ReadyList(TaskOf(k, t).priority))
    ensures DecisionFrame(k, MakeCurrent(ReadyRemove(k, t), t))
    ensures MakeCurrent(ReadyRemove(k, t), t).slice == k.slice
  {
    hide ReadyRemove, ClearIfEmpty, Unlink;
    ReadyRemoveShape(k, t);
    var removed := ReadyRemove(k, t);
    var k' := MakeCurrent(removed, t);
    assert k'.tasks == k.tasks[t := TaskOf(k, t).(node := Unlinked, state := Running)];
    assert k'.tasks.Keys == k.tasks.Keys;
  }

  lemma SwitchFrame(k: Kernel)
    requires Core(k) && !IsLocked(k) && NoneRunning(k)
    ensures DecisionFrame(k, SwitchToHighest(k))
    ensures SwitchToHighest(k).slice == k.slice
  {
    hide Core, CoreBut, ClearBit, NoneRunning, PopHighest, ReadyRemove, DecisionFrame;
    PopHighestKeeps(k);
    var (popped, next) := PopHighest(k);
    if next.Some? {
      RemoveThenRun(k, next.value);
    } else {
      IdleUnlinkedWhenMaskClear(k);
      RunIdleFrame(k);
    }
  }

  lemma RunIdleFrame(k: Kernel)
    requires k.idle in k.tasks && TaskOf(k, k.idle).state == Ready
    ensures DecisionFrame(k, MakeCurrent(k, k.idle))
  {
    assert MakeCurrent(k, k.idle).tasks.Keys == k.tasks.Keys;
  }

  lemma PickNextFrame(k: Kernel)
    requires Core(k) && !IsLocked(k)
    ensures DecisionFrame(k, PickNext(k))
  {
    hide Core, SwitchToHighest, StepDown, DecisionFrame;
    if CurrentIs(k, Running) {
      StepDownFrame(k);
      StepDownKeeps(k);
      StepDownLock(k);
      SwitchFrame(StepDown(k));
      FrameCompose(k, StepDown(k), PickNext(k));
    } else {
      OnlyCurrentRuns(k);
      SwitchFrame(k);
    }
  }

  lemma StepDownLock(k: Kernel)
    requires k.current.Some?
    ensures StepDown(k).lockCount == k.lockCount && StepDown(k).slice == k.slice && StepDown(k).current == k.current
  {
  }

  lemma FlagsFrame(k: Kernel, slice: nat, pending: bool)
    ensures DecisionFrame(k, k.(slice := slice, pending := pending))
  {
  }

  lemma TryRescheduleFrame(k: Kernel)
    requires Core(k)
    ensures DecisionFrame(k, TryReschedule(k))
  {
    hide Core, PickNext, DecisionFrame, HigherPriorityReady;
    LockMeansRunning(k);
    FlagsFrame(k, k.slice, k.pending);
    if k.pending && !IsLocked(k) {
      var clear := k.(pending := false);
      FlagsFrame(k, k.slice, false);
      FlagsKeep(k, k.slice, k.lockCount, false);
      PickNextFrame(clear);
      FrameCompose(k, clear, PickNext(clear));
    }
  }

  lemma DecideFrame(k: Kernel, systick: bool)
    requires Core(k) && k.current.Some?
    ensures DecisionFrame(k, Decide(k, systick))
  {
    hide Core, PickNext, OnTick, TryReschedule, DecisionFrame;
    LockMeansRunning(k);
    if !CurrentIs(k, Running) || CurrentIsIdle(k) {
      PickNextFrame(k);
      PickNextKeeps(k);
      TryRescheduleFrame(PickNext(k));
      FrameCompose(k, PickNext(k), TryReschedule(PickNext(k)));
    } else if systick {
      var (ticked, switch) := OnTick(k);
      OnTickKeeps(k);
      FlagsFrame(k, ticked.slice, k.pending);
      FlagsFrame(k, ticked.slice, true);
      if switch && !IsLocked(ticked) {
        PickNextFrame(ticked);
        FrameCompose(k, ticked, PickNext(ticked));
      }
    } else {
      TryRescheduleFrame(k);
    }
  }

  // ----- tasks handed an outcome that have not yet resumed

  /** `t` was woken from `q` with outcome `w`, OBJECT or DESTROYED, and has not resumed. */
  ghost predicate Handed(k: Kernel, t: TaskId, q: QueueId, w: WaitResult) {
    && PcOf(k, t).Waiting? && PcOf(k, t).queue == q
    && TaskOf(k, t).result == w && (w == Object || w == Destroyed)
  }

  /** The tasks handed OBJECT on `q`. */
  function Holders(k: Kernel, q: QueueId): set<TaskId> {
    set t | t in k.tasks && PcOf(k, t).Waiting? && PcOf(k, t).queue == q && TaskOf(k, t).result == Object
  }

  lemma HoldersAre(k: Kernel, q: QueueId)
    ensures forall t :: t in Holders(k, q) <==> Handed(k, t, q, Object)
  {
    assert forall t :: Handed(k, t, q, Object) ==> t in k.tasks;
  }

  /** The waiters and holders of `q` in `k'` are those of `k`, less what `t` was, if anything. */
  ghost predicate QueueFrame(k: Kernel, k': Kernel, q: QueueId) {
    && (forall t :: t in At(k', WaitList(q)) ==> t in At(k, WaitList(q)))
    && (forall t, w :: Handed(k', t, q, w) <==> Handed(k, t, q, w))
  }

  /** A holder is awake, off every wait queue and off the timeout list. */
  lemma HandedIsAwake(k: Kernel, t: TaskId, q: QueueId, w: WaitResult)
    requires Core(k) && Handed(k, t, q, w)
    ensures t in k.tasks && Awake(TaskOf(k, t)) && t !in k.timeouts
    ensures forall r :: t !in At(k, WaitList(r))
  {
    hide MaskOk, TimeoutsOk, QueuesOk, GlobalOk;
    assert TaskOk(k, t);
    forall r ensures t !in At(k, WaitList(r)) {
      NotOnList(k, t, WaitList(r));
    }
  }

  lemma DecisionKeepsQueue(k: Kernel, k': Kernel, q: QueueId)
    requires DecisionFrame(k, k')
    ensures QueueFrame(k, k', q)
    ensures At(k', WaitList(q)) == At(k, WaitList(q))
  {
    forall t, w ensures Handed(k', t, q, w) <==> Handed(k, t, q, w) {
      assert t in k.tasks ==> SameButRun(TaskOf(k, t), TaskOf(k', t));
      assert t !in k.tasks ==> t !in k'.tasks;
    }
  }

  /** An expiry takes tasks off queues; it hands OBJECT to nobody. */
  lemma {:induction false} ExpiryKeepsQueue(k: Kernel, q: QueueId)
    requires Core(k) && AllNear(k)
    ensures QueueFrame(k, WakeExpired(k), q)
  {
    hide Core, AllNear, AllInFuture, WakeExpired;
    WakeExpiredExact(k);
    var k' := WakeExpired(k);
    forall t ensures t in At(k', WaitList(q)) ==> t in At(k, WaitList(q)) {
      WaiterNode(k, t, q);
      WaiterNode(k', t, q);
    }
    forall t, w ensures Handed(k', t, q, w) <==> Handed(k, t, q, w) {
      if Handed(k, t, q, w) {
        HandedIsAwake(k, t, q, w);
      }
      assert PcOf(k', t) == PcOf(k, t);
    }
  }

  lemma WaiterNode(k: Kernel, t: TaskId, q: QueueId)
    requires Core(k)
    ensures t in At(k, WaitList(q)) <==> TaskOf(k, t).node == Linked(WaitList(q))
  {
    hide MaskOk, TimeoutsOk, QueuesOk, GlobalOk, TasksOk;
    NotOnList(k, t, WaitList(q));
  }

  lemma TrapExpireKeepsQueue(k: Kernel, systick: bool, now: nat, q: QueueId)
    requires Inv(k) && k.now <= now < k.now + HALF
    ensures QueueFrame(k, TrapExpire(k, systick, now), q)
    ensures TrapExpire(k, systick, now).pc == k.pc
  {
    hide Core, WakeExpired, AllInFuture, AllNear;
    var ticked := if systick then k.(now := now) else k;
    TimeKeeps(k, now);
    AfterTickNear(k, now);
    AfterTickNear(k, k.now);
    WakeExpiredExact(ticked);
    ExpiryKeepsQueue(ticked, q);
    assert forall t, w :: Handed(ticked, t, q, w) <==> Handed(k, t, q, w);
    assert At(ticked, WaitList(q)) == At(k, WaitList(q));
  }

  lemma DecideKeepsQueue(k: Kernel, systick: bool, q: QueueId)
    requires Inv(k) && k.current.Some?
    ensures QueueFrame(k, Decide(k, systick), q)
    ensures Decide(k, systick).pc == k.pc
  {
    hide Core, Decide, DecisionFrame, QueueFrame;
    DecideFrame(k, systick);
    DecisionKeepsQueue(k, Decide(k, systick), q);
    FramePc(k, Decide(k, systick));
  }

  lemma TrapKeepsQueue(k: Kernel, systick: bool, now: nat, q: QueueId)
    requires Inv(k) && k.current.Some? && k.now <= now < k.now + HALF
    ensures QueueFrame(k, Trap(k, systick, now), q)
    ensures Trap(k, systick, now).pc == k.pc
  {
    hide Inv, Decide, TrapExpire;
    var woken := TrapExpire(k, systick, now);
    TrapExpireKeeps(k, systick, now);
    TrapExpireKeepsQueue(k, systick, now, q);
    DecideKeepsQueue(woken, systick, q);
  }

  /** A step on one task that is not waiting on `q`, hands it no OBJECT for `q`, and puts it on no queue `q`. */
  lemma MoveKeepsQueue(k: Kernel, k': Kernel, t: TaskId, q: QueueId)
    requires Core(k) && Core(k')
    requires forall u | u != t :: TaskOf(k', u) == TaskOf(k, u) && PcOf(k', u) == PcOf(k, u)
    requires TaskOf(k', t).node == Linked(WaitList(q)) ==> TaskOf(k, t).node == Linked(WaitList(q))
    ensures forall u :: u in At(k', WaitList(q)) ==> u in At(k, WaitList(q))
    ensures forall u, w | u != t :: Handed(k', u, q, w) <==> Handed(k, u, q, w)
  {
    hide Core;
    forall u ensures u in At(k', WaitList(q)) ==> u in At(k, WaitList(q)) {
      WaiterNode(k, u, q);
      WaiterNode(k', u, q);
    }
  }

  // ----- steps foreign to a queue

  /** The operation is not one of the calls on `q` itself. */
  ghost predicate Foreign(k: Kernel, op: Op, q: QueueId) {
    match op
    case DoBlock(r, _) => r != q
    case DoWake(r, _, _) => r != q
    case DoWakeAll(r, _) => r != q
    case DoResume => k.current.Some? && (PcOf(k, k.current.value).Waiting? ==> PcOf(k, k.current.value).queue != q)
    case _ => true
  }

  /** The task `op` deletes, if it does. */
  predicate Deletes(k: Kernel, op: Op, t: TaskId) {
    op == DoDelete(t) && Delete(k, t).1 == Ok
  }

  /** Whatever else happens in the kernel, a queue only loses waiters and its holders stay, unless deleted. */
  lemma ForeignStep(k: Kernel, op: Op, q: QueueId)
    requires Inv(k) && Enabled(k, op) && Foreign(k, op, q)
    ensures forall t :: t in At(Apply(k, op), WaitList(q)) ==> t in At(k, WaitList(q))
    ensures forall t, w :: Handed(Apply(k, op), t, q, w) <==> Handed(k, t, q, w) && !Deletes(k, op, t)
  {
    hide Core, AllInFuture, Trap, TrapExpire, Decide, BlockTimeout, Delay, WakeFromIsr, WakeResult, WakeAll, Create,
         Delete, Reap, Yield, PickNext, DecisionFrame;
    match op
    case DoStart =>
      LockMeansRunning(k);
      PickNextFrame(k);
      DecisionKeepsQueue(k, PickNext(k), q);
    case DoTrap(systick, now) => TrapKeepsQueue(k, systick, now, q);
    case DoExpire(systick, now) => TrapExpireKeepsQueue(k, systick, now, q);
    case DoDecide(systick) => DecideKeepsQueue(k, systick, q);
    case DoYield => YieldKeepsQueue(k, q);
    case DoLock => assert forall t, w :: Handed(LockScheduler(k), t, q, w) <==> Handed(k, t, q, w);
    case DoUnlock => assert forall t, w :: Handed(ReleaseLock(k), t, q, w) <==> Handed(k, t, q, w);
    case DoBlock(r, us) => BlockKeepsOtherQueue(k, r, us, q);
    case DoSleep(until) => DelayKeepsQueue(k, until, q);
    case DoWake(r, result, isr) => WakeKeepsOtherQueue(k, r, result, isr, q);
    case DoWakeAll(r, result) => WakeAllKeepsOtherQueue(k, r, result, q);
    case DoResume =>
      var k' := Resume(k);
      assert forall t | t != k.current.value :: PcOf(k', t) == PcOf(k, t);
    case DoCreate(t, priority) => CreateKeepsQueue(k, t, priority, q);
    case DoDelete(t) => DeleteKeepsQueue(k, t, q);
    case DoReap => ReapKeepsQueue(k, q);
  }

  lemma YieldFrame(k: Kernel)
    requires Core(k)
    ensures DecisionFrame(k, Yield(k))
  {
    hide Core, StepDown, DecisionFrame;
    FlagsFrame(k, k.slice, true);
    FlagsFrame(k, k.slice, k.pending);
    if !IsLocked(k) && CurrentIs(k, Running) && !CurrentIsIdle(k) {
      StepDownFrame(k);
    }
  }

  lemma YieldKeepsQueue(k: Kernel, q: QueueId)
    requires Core(k)
    ensures QueueFrame(k, Yield(k), q)
  {
    hide Core, DecisionFrame, Yield;
    YieldFrame(k);
    DecisionKeepsQueue(k, Yield(k), q);
  }

  /** What blocking on `r` does to the caller, whatever the timeout. */
  lemma BlockTimeoutMoves(k: Kernel, r: QueueId, us: uint64)
    requires Inv(k) && MayBlock(k) && (us != FOREVER_US ==> UsToTicks(us) < HALF)
    ensures var k' := BlockTimeout(k, r, us).0;
            var c := k.current.value;
            match BlockTimeout(k, r, us).1
            case Ok =>
              && !IsLocked(k)
              && k' == k.(tasks := k'.tasks, lists := k'.lists, timeouts := k'.timeouts, due := k'.due, pc := k'.pc,
                          arrivals := k.arrivals + 1)
              && (forall u | u != c :: TaskOf(k', u) == TaskOf(k, u) && PcOf(k', u) == PcOf(k, u))
              && TaskOf(k', c).node == Linked(WaitList(r)) && TaskOf(k', c).result == NoResult
              && TaskOf(k', c).state == Blocked
              && PcOf(k', c) == Waiting(r, us != FOREVER_US, k.arrivals)
              && k'.tasks.Keys == k.tasks.Keys
              && k'.lists == k.lists[WaitList(r) := At(k', WaitList(r))]
            case Locked => IsLocked(k) && k' == k.(pending := true)
            case TimedOut => us != FOREVER_US && UsToTicks(us) == 0 && k' == k
            case _ => false
  {
    hide Core, AllInFuture, BlockLocked, TimeoutInsert, WaiterPosition, InsertAt;
    RunningTaskOk(k);
    if IsLocked(k) {
      BlockWhileLocked(k, r);
    } else {
      BlockLockedShape(k, r);
      TimeoutInsertOnlyTimeouts();
    }
  }

  lemma TimeoutInsertOnlyTimeouts()
    ensures forall k, t :: TimeoutInsert(k, t) == k.(timeouts := TimeoutInsert(k, t).timeouts)
  {
  }

  lemma BlockKeepsOtherQueue(k: Kernel, r: QueueId, us: uint64, q: QueueId)
    requires Inv(k) && Enabled(k, DoBlock(r, us)) && r != q
    ensures QueueFrame(k, BlockTimeout(k, r, us).0, q)
  {
    hide Core, AllInFuture, BlockTimeout;
    BlockTimeoutMoves(k, r, us);
    BlockTimeoutKeeps(k, r, us);
    var k' := BlockTimeout(k, r, us).0;
    if BlockTimeout(k, r, us).1 == Ok {
      MoveKeepsQueue(k, k', k.current.value, q);
    }
  }

  lemma DelayMoves(k: Kernel, until: nat)
    requires Core(k) && MayBlock(k)
    ensures var k' := Delay(k, until);
            var c := k.current.value;
            && (forall u | u != c :: TaskOf(k', u) == TaskOf(k, u))
            && TaskOf(k', c).node == TaskOf(k, c).node && k'.pc == k.pc && k'.lists == k.lists
            && (TaskOf(k', c).result == TaskOf(k, c).result || TaskOf(k', c).result == NoResult)
  {
    hide Core, TimeoutInsert;
    RunningTaskOk(k);
    TimeoutInsertOnlyTimeouts();
  }

  lemma DelayKeepsQueue(k: Kernel, until: nat, q: QueueId)
    requires Inv(k) && Enabled(k, DoSleep(until))
    ensures QueueFrame(k, Delay(k, until), q)
  {
    hide Core, AllInFuture, Delay;
    DelayMoves(k, until);
    DelayKeeps(k, until);
    var k' := Delay(k, until);
    assert forall u :: PcOf(k', u) == PcOf(k, u);
    MoveKeepsQueue(k, k', k.current.value, q);
  }

  lemma WakeKeepsOtherQueue(k: Kernel, r: QueueId, result: WaitResult, isr: bool, q: QueueId)
    requires Inv(k) && Enabled(k, DoWake(r, result, isr)) && r != q
    ensures QueueFrame(k, Apply(k, DoWake(r, result, isr)), q)
  {
    hide Core, AllInFuture, WakeResult;
    if At(k, WaitList(r)) == [] {
      WakeNobody(k, r, result);
      WakeNobody(k, r, Object);
    } else {
      var t := At(k, WaitList(r))[0];
      WaiterIsWaiting(k, t, r);
      WakeResultKeeps(k, r, result);
      WakeKeepsInv(k, r, result, isr);
      var k' := Apply(k, DoWake(r, result, isr));
      WokenMoves(k, r, result);
      assert forall u :: TaskOf(k', u) == TaskOf(WakeResult(k, r, result).0, u) && PcOf(k', u) == PcOf(k, u);
      MoveKeepsQueue(k, k', t, q);
    }
  }

  lemma WokenMoves(k: Kernel, r: QueueId, result: WaitResult)
    requires Core(k) && At(k, WaitList(r)) != [] && (result == Object || result == Destroyed)
    ensures var t := At(k, WaitList(r))[0];
            var k' := WakeResult(k, r, result).0;
            && (forall u | u != t :: TaskOf(k', u) == TaskOf(k, u))
            && k'.pc == k.pc && k'.tasks.Keys == k.tasks.Keys && k'.current == k.current && k'.idle == k.idle
            && k'.lockCount == k.lockCount && k'.slice == k.slice
  {
    hide Core, WakeResult;
    WakeResultKeeps(k, r, result);
    var t := At(k, WaitList(r))[0];
    var k' := WakeResult(k, r, result).0;
    var base := k.(timeouts := Without(k.timeouts, t), pending := k'.pending);
    assert forall u | u != t :: TaskOf(k', u) == TaskOf(base, u) == TaskOf(k, u);
  }

  lemma WakeAllKeepsOtherQueue(k: Kernel, r: QueueId, result: WaitResult, q: QueueId)
    requires Inv(k) && Enabled(k, DoWakeAll(r, result)) && r != q
    ensures QueueFrame(k, WakeAll(k, r, result).0, q)
  {
    hide Core, AllInFuture, WakeAll;
    WakeAllMoves(k, r, result);
    WakeAllKeeps(k, r, result);
    var k' := WakeAll(k, r, result).0;
    forall t ensures t in At(k', WaitList(q)) ==> t in At(k, WaitList(q)) {
      WaiterNode(k, t, q);
      WaiterNode(k', t, q);
      WaiterIsWaiting(k, t, r);
    }
    forall t, w ensures Handed(k', t, q, w) <==> Handed(k, t, q, w) {
      WaiterIsWaiting(k, t, r);
      assert PcOf(k', t) == PcOf(k, t);
    }
  }

  lemma CreateKeepsQueue(k: Kernel, t: TaskId, priority: nat, q: QueueId)
    requires Inv(k) && t !in k.tasks
    ensures QueueFrame(k, Create(k, t, priority), q)
  {
    hide Core, AllInFuture, ReadyEnqueue;
    if priority <= PRIORITY_MAX {
      var k1 := SetTask(k, t, Task(priority, Ready, Unlinked, false, 0, NoResult));
      var k' := Create(k, t, priority);
      ReadyEnqueueMoves(k1, t);
      EnqueuedTask(k1, t);
      CreateKeeps(k, t, priority);
      FreshTask(k, t, Task(priority, Ready, Unlinked, false, 0, NoResult));
      assert forall u | u != t :: TaskOf(k', u) == TaskOf(k1, u) == TaskOf(k, u);
      assert forall u :: PcOf(k', u) == PcOf(k, u);
      MoveKeepsQueue(k, k', t, q);
    }
  }

  lemma DeleteMoves(k: Kernel, t: TaskId)
    requires Core(k) && Delete(k, t).1 == Ok
    ensures var k' := Delete(k, t).0;
            && (forall u | u != t :: TaskOf(k', u) == TaskOf(k, u) && PcOf(k', u) == PcOf(k, u))
            && TaskOf(k', t) == DeadTask(TaskOf(k, t)) && PcOf(k', t) == User
            && t in k.tasks
  {
    hide Core, MarkDeleted;
    MarkDeletedKeeps(k, t);
    var dead := MarkDeleted(k, t);
    var base := k.(timeouts := Without(k.timeouts, t), pc := k.pc - {t});
    assert forall u | u != t :: TaskOf(dead, u) == TaskOf(base, u) == TaskOf(k, u);
  }

  lemma DeleteRefused(k: Kernel, t: TaskId)
    ensures Delete(k, t).1 != Ok ==> Delete(k, t).0 == k
  {
  }

  lemma DeleteKeepsQueue(k: Kernel, t: TaskId, q: QueueId)
    requires Inv(k)
    ensures forall u :: u in At(Delete(k, t).0, WaitList(q)) ==> u in At(k, WaitList(q))
    ensures forall u, w :: Handed(Delete(k, t).0, u, q, w) <==> Handed(k, u, q, w) && !Deletes(k, DoDelete(t), u)
  {
    hide Core, AllInFuture, MarkDeleted;
    if Delete(k, t).1 == Ok {
      DeleteMoves(k, t);
      DeleteKeeps(k, t);
      MoveKeepsQueue(k, Delete(k, t).0, t, q);
    }
  }

  lemma ReapMoves(k: Kernel)
    requires Core(k) && At(k, DeletedList) != []
    ensures var k' := Reap(k);
            var t := At(k, DeletedList)[0];
            && (forall u | u != t :: TaskOf(k', u) == TaskOf(k, u) && PcOf(k', u) == PcOf(k, u))
            && TaskOf(k', t) == NO_TASK && PcOf(k', t) == User
            && t in k.tasks && TaskOf(k, t).state == Deleted && PcOf(k, t) == User
  {
    hide ListsOk, MaskOk, TimeoutsOk, QueuesOk, GlobalOk;
    var t := At(k, DeletedList)[0];
    NotOnList(k, t, DeletedList);
    assert TaskOk(k, t);
  }

  lemma ReapKeepsQueue(k: Kernel, q: QueueId)
    requires Inv(k) && Enabled(k, DoReap)
    ensures QueueFrame(k, Reap(k), q)
  {
    hide Core, AllInFuture;
    if At(k, DeletedList) != [] {
      ReapMoves(k);
      ReapKeeps(k);
      MoveKeepsQueue(k, Reap(k), At(k, DeletedList)[0], q);
    }
  }

  // ----- who is inside a call on a queue

  ghost predicate WaitsOn(k: Kernel, t: TaskId, q: QueueId) {
    PcOf(k, t).Waiting? && PcOf(k, t).queue == q
  }

  /** Only a call on `q` puts a task inside a call on `q`. */
  lemma ForeignPc(k: Kernel, op: Op, q: QueueId)
    requires Inv(k) && Enabled(k, op) && Foreign(k, op, q)
    ensures forall t :: WaitsOn(Apply(k, op), t, q) ==> WaitsOn(k, t, q)
  {
    hide Core, AllInFuture, Trap, TrapExpire, Decide, BlockTimeout, Delay, WakeResult, WakeAll, ReadyEnqueue, Delete,
         Yield, PickNext, DecisionFrame, AllNear;
    match op
    case DoStart =>
      LockMeansRunning(k);
      PickNextFrame(k);
      FramePc(k, PickNext(k));
      SamePc(k, PickNext(k), q);
    case DoTrap(systick, now) =>
      TrapKeepsQueue(k, systick, now, q);
      SamePc(k, Trap(k, systick, now), q);
    case DoExpire(systick, now) =>
      TrapExpireKeepsQueue(k, systick, now, q);
      SamePc(k, TrapExpire(k, systick, now), q);
    case DoDecide(systick) =>
      DecideKeepsQueue(k, systick, q);
      SamePc(k, Decide(k, systick), q);
    case DoYield =>
      YieldFrame(k);
      FramePc(k, Yield(k));
      SamePc(k, Yield(k), q);
    case DoLock => SamePc(k, LockScheduler(k), q);
    case DoUnlock => SamePc(k, ReleaseLock(k), q);
    case DoBlock(r, us) => BlockTimeoutMoves(k, r, us);
    case DoSleep(until) =>
      DelayMoves(k, until);
      SamePc(k, Delay(k, until), q);
    case DoWake(r, result, isr) =>
      if At(k, WaitList(r)) == [] {
        WakeNobody(k, r, result);
        WakeNobody(k, r, Object);
      } else {
        WokenMoves(k, r, result);
      }
      SamePc(k, Apply(k, op), q);
    case DoWakeAll(r, result) =>
      WakeAllMoves(k, r, result);
      SamePc(k, Apply(k, op), q);
    case DoResume =>
    case DoCreate(u, priority) =>
      ReadyEnqueueMoves(SetTask(k, u, Task(priority, Ready, Unlinked, false, 0, NoResult)), u);
      SamePc(k, Apply(k, op), q);
    case DoDelete(u) =>
      if Delete(k, u).1 == Ok {
        DeleteMoves(k, u);
      } else {
        DeleteRefused(k, u);
      }
    case DoReap =>
      if At(k, DeletedList) != [] {
        ReapMoves(k);
      }
  }

  lemma FramePc(k: Kernel, k': Kernel)
    requires DecisionFrame(k, k')
    ensures k'.pc == k.pc
  {
  }

  lemma SamePc(k: Kernel, k': Kernel, q: QueueId)
    requires k'.pc == k.pc
    ensures forall t :: WaitsOn(k', t, q) ==> WaitsOn(k, t, q)
  {
  }
}
