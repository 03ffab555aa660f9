/** What a trap between the two statements of `task_yield` costs: the task is ready, on no list and not current, and no
    later operation but its own deletion changes that. */
module KernelYieldGap {
  import opened Common
  import opened TickTime
  import opened Bitmap
  import opened KernelState
  import opened KernelInvariant
  import opened KernelBlocking
  import opened KernelWaking
  import opened KernelRuns

  /** `task_yield` after its first statement: the state is READY, the task not yet back on its ready list. */
  function HalfYield(k: Kernel): Kernel
    requires k.current.Some?
  {
    var c := k.current.value;
    SetTask(k, c, TaskOf(k, c).(state := Ready))
  }

  /** Ready and on no list, and not the idle task. */
  ghost predicate Adrift(k: Kernel, t: TaskId) {
    TaskOf(k, t).state == Ready && OnNoList(k, t) && t !in k.timeouts && t != k.idle
  }

  /** And not current either: nothing can ever pick it. */
  ghost predicate Lost(k: Kernel, t: TaskId) {
    Adrift(k, t) && k.current != Some(t)
  }

  /** The step leaves `t` adrift, and the processor with the task that had it. */
  ghost predicate LeavesAdrift(k: Kernel, k': Kernel, t: TaskId) {
    (Adrift(k, t) ==> Adrift(k', t)) && k'.current == k.current
  }

  // ----- parts of a step that concern another task

  lemma SameListsLeave(k: Kernel, k': Kernel, t: TaskId)
    requires k'.lists == k.lists && TaskOf(k', t) == TaskOf(k, t)
    requires t in k'.timeouts ==> t in k.timeouts
    requires k'.idle == k.idle && k'.current == k.current
    ensures LeavesAdrift(k, k', t)
  {
    assert forall id :: At(k', id) == At(k, id);
  }

  lemma SetTaskLeaves(k: Kernel, u: TaskId, task: Task, t: TaskId)
    requires u != t
    ensures LeavesAdrift(k, SetTask(k, u, task), t)
  {
    SameListsLeave(k, SetTask(k, u, task), t);
  }

  lemma LinkLeaves(k: Kernel, u: TaskId, id: ListId, i: nat, t: TaskId)
    requires u != t && i <= |At(k, id)|
    ensures LeavesAdrift(k, Link(k, u, id, i), t)
  {
    var k' := Link(k, u, id, i);
    if OnNoList(k, t) {
      forall other ensures t !in At(k', other) {
        assert t !in At(k, other);
      }
    }
  }

  lemma {:induction false} WithoutHasNoMore<T>(s: seq<T>, x: T, y: T)
    requires y !in s
    ensures y !in Without(s, x)
  {
    if s != [] && s[0] != x {
      WithoutHasNoMore(s[1..], x, y);
    }
  }

  lemma UnlinkLeaves(k: Kernel, u: TaskId, t: TaskId)
    requires u != t
    ensures LeavesAdrift(k, Unlink(k, u), t)
  {
    hide Without;
    if OnNoList(k, t) {
      forall other ensures t !in At(Unlink(k, u), other) {
        WithoutHasNoMore(At(k, other), u, t);
      }
    }
  }

  /** The first task of a list is not one that is on no list. */
  lemma UnlinkFirstLeaves(k: Kernel, id: ListId, t: TaskId)
    requires At(k, id) != []
    ensures OnNoList(k, t) ==> At(k, id)[0] != t
    ensures LeavesAdrift(k, UnlinkFirst(k, id), t)
  {
    if OnNoList(k, t) {
      assert t !in At(k, id);
      forall other ensures t !in At(UnlinkFirst(k, id), other) {
        assert t !in At(k, other);
      }
    }
  }

  lemma EnqueueLeaves(k: Kernel, u: TaskId, t: TaskId)
    requires u != t
    ensures LeavesAdrift(k, ReadyEnqueue(k, u), t)
  {
    hide SetBit, Link, Adrift;
    var id := ReadyList(TaskOf(k, u).priority);
    LinkLeaves(k, u, id, |At(k, id)|, t);
    var linked := Link(k, u, id, |At(k, id)|);
    MaskLeaves(linked, SetBit(k.mask, TaskOf(k, u).priority), t);
  }

  lemma MaskLeaves(k: Kernel, mask: nat, t: TaskId)
    ensures LeavesAdrift(k, k.(mask := mask), t)
  {
    SameListsLeave(k, k.(mask := mask), t);
  }

  lemma FlagsLeave(k: Kernel, slice: nat, lockCount: uint32, pending: bool, t: TaskId)
    ensures LeavesAdrift(k, k.(slice := slice, lockCount := lockCount, pending := pending), t)
  {
    SameListsLeave(k, k.(slice := slice, lockCount := lockCount, pending := pending), t);
  }

  lemma HistoryLeaves(k: Kernel, now: nat, due: map<TaskId, nat>, pc: map<TaskId, Pc>, arrivals: nat, t: TaskId)
    ensures LeavesAdrift(k, k.(now := now, due := due, pc := pc, arrivals := arrivals), t)
  {
    SameListsLeave(k, k.(now := now, due := due, pc := pc, arrivals := arrivals), t);
  }

  lemma ReadyRemoveLeaves(k: Kernel, u: TaskId, t: TaskId)
    requires u != t
    ensures LeavesAdrift(k, ReadyRemove(k, u), t)
  {
    hide Unlink, ClearBit, Adrift;
    UnlinkLeaves(k, u, t);
    MaskLeaves(Unlink(k, u), ClearBit(Unlink(k, u).mask, TaskOf(k, u).priority), t);
  }

  lemma TimeoutRemoveLeaves(k: Kernel, u: TaskId, t: TaskId)
    ensures LeavesAdrift(k, TimeoutRemove(k, u), t)
  {
    hide Without;
    if t !in k.timeouts {
      WithoutHasNoMore(k.timeouts, u, t);
    }
    SameListsLeave(k, TimeoutRemove(k, u), t);
  }

  lemma TimeoutInsertLeaves(k: Kernel, u: TaskId, t: TaskId)
    requires u != t
    ensures LeavesAdrift(k, TimeoutInsert(k, u), t)
  {
    hide Without, TimeoutPosition;
    if t !in k.timeouts {
      WithoutHasNoMore(k.timeouts, u, t);
    }
    SameListsLeave(k, TimeoutInsert(k, u), t);
  }

  // ----- operations

  lemma StepDownLeaves(k: Kernel, t: TaskId)
    requires k.current.Some? && k.current != Some(t)
    ensures LeavesAdrift(k, StepDown(k), t)
  {
    hide ReadyEnqueue, Adrift;
    var c := k.current.value;
    var idling := SetTask(k, c, TaskOf(k, c).(state := Ready));
    SetTaskLeaves(k, c, TaskOf(k, c).(state := Ready), t);
    EnqueueLeaves(idling, c, t);
  }

  lemma PopHighestLeaves(k: Kernel, t: TaskId)
    ensures LeavesAdrift(k, PopHighest(k).0, t)
    ensures Adrift(k, t) ==> PopHighest(k).1 != Some(t)
    ensures PopHighest(k).0.idle == k.idle
  {
    hide Highest, ClearBit;
    if k.mask != 0 && Highest(k.mask) >= 0 {
      var id := ReadyList(Highest(k.mask));
      if At(k, id) != [] {
        UnlinkFirstLeaves(k, id, t);
        MaskLeaves(UnlinkFirst(k, id), ClearBit(k.mask, id.priority), t);
      }
    }
  }

  /** No pick finds a task adrift that is not the one stepping down. */
  lemma PickNextLoses(k: Kernel, t: TaskId)
    requires Adrift(k, t)
    ensures Lost(PickNext(k), t)
  {
    hide PopHighest, StepDown;
    var back := if CurrentIs(k, Running) then StepDown(k) else k;
    if CurrentIs(k, Running) {
      StepDownLeaves(k, t);
    }
    PopHighestLeaves(back, t);
    var (popped, next) := PopHighest(back);
    var picked := if next.Some? then next.value else back.idle;
    SetTaskLeaves(popped, picked, TaskOf(popped, picked).(state := Running), t);
    assert PickNext(k) == MakeCurrent(popped, picked);
    assert forall id :: At(PickNext(k), id) == At(popped, id);
  }

  lemma TryRescheduleKeepsLost(k: Kernel, t: TaskId)
    requires Lost(k, t)
    ensures Lost(TryReschedule(k), t)
  {
    hide PickNext, HigherPriorityReady, Adrift;
    var clear := k.(pending := false);
    FlagsLeave(k, k.slice, k.lockCount, false, t);
    if k.current.Some? && k.pending && !IsLocked(k) {
      PickNextLoses(clear, t);
    }
  }

  lemma DecideKeepsLost(k: Kernel, systick: bool, t: TaskId)
    requires Adrift(k, t) && (k.current != Some(t) || !CurrentIs(k, Running))
    ensures Lost(Decide(k, systick), t)
  {
    hide PickNext, TryReschedule, HigherPriorityReady, Adrift;
    FlagsLeave(k, OnTick(k).0.slice, k.lockCount, k.pending, t);
    FlagsLeave(k, OnTick(k).0.slice, k.lockCount, true, t);
    OnTickFlags(k);
    PickNextLoses(k, t);
    TryRescheduleKeepsLost(PickNext(k), t);
    if k.current != Some(t) {
      TryRescheduleKeepsLost(k, t);
      PickNextLoses(OnTick(k).0, t);
    }
  }

  lemma OnTickFlags(k: Kernel)
    ensures OnTick(k).0 == k.(slice := OnTick(k).0.slice, lockCount := k.lockCount, pending := k.pending)
  {
    hide HigherPriorityReady;
  }

  lemma ExpireLeaves(k: Kernel, u: TaskId, t: TaskId)
    requires u != t
    ensures LeavesAdrift(k, Expire(k, u), t)
  {
    hide Unlink, ReadyEnqueue, Adrift;
    var k1 := SetTask(k, u, TaskOf(k, u).(waitingOnTimer := false, result := Timeout));
    SetTaskLeaves(k, u, TaskOf(k, u).(waitingOnTimer := false, result := Timeout), t);
    UnlinkLeaves(k1, u, t);
    var k2 := Unlink(k1, u);
    SetTaskLeaves(k2, u, TaskOf(k2, u).(state := Ready), t);
    EnqueueLeaves(SetTask(k2, u, TaskOf(k2, u).(state := Ready)), u, t);
  }

  lemma {:induction false} WakeExpiredLeaves(k: Kernel, t: TaskId)
    requires Adrift(k, t)
    ensures LeavesAdrift(k, WakeExpired(k), t)
    decreases |k.timeouts|
  {
    hide Expire;
    if k.timeouts != [] && Expired(Low(k.now), TaskOf(k, k.timeouts[0]).wakeup) {
      var u := k.timeouts[0];
      var rest := k.(timeouts := k.timeouts[1..]);
      assert u in k.timeouts;
      SameListsLeave(k, rest, t);
      ExpireKeepsTimeouts(rest, u);
      ExpireLeaves(rest, u, t);
      WakeExpiredLeaves(Expire(rest, u), t);
    }
  }

  lemma TrapExpireLeaves(k: Kernel, systick: bool, now: nat, t: TaskId)
    requires Adrift(k, t)
    ensures Adrift(TrapExpire(k, systick, now), t) && TrapExpire(k, systick, now).current == k.current
  {
    hide WakeExpired;
    HistoryLeaves(k, now, k.due, k.pc, k.arrivals, t);
    WakeExpiredLeaves(if systick then k.(now := now) else k, t);
  }

  lemma WakeResultLeaves(k: Kernel, q: QueueId, result: WaitResult, t: TaskId)
    requires Adrift(k, t)
    ensures LeavesAdrift(k, WakeResult(k, q, result).0, t)
  {
    hide ReadyEnqueue, Without, Adrift;
    if At(k, WaitList(q)) != [] {
      var u := At(k, WaitList(q))[0];
      assert u != t by {
        AdriftIsOff(k, t);
        UnlinkFirstLeaves(k, WaitList(q), t);
      }
      var unlinked := UnlinkFirst(k, WaitList(q));
      UnlinkFirstLeaves(k, WaitList(q), t);
      var off := TimeoutRemove(unlinked, u);
      TimeoutRemoveLeaves(unlinked, u, t);
      var ready := SetTask(off, u, TaskOf(off, u).(waitingOnTimer := false, state := Ready));
      SetTaskLeaves(off, u, TaskOf(off, u).(waitingOnTimer := false, state := Ready), t);
      EnqueueLeaves(ready, u, t);
      var woken := ReadyEnqueue(ready, u);
      FlagsLeave(woken, woken.slice, woken.lockCount, true, t);
      SetTaskLeaves(woken, u, TaskOf(woken, u).(result := result), t);
      var asked := woken.(pending := true);
      SetTaskLeaves(asked, u, TaskOf(asked, u).(result := result), t);
    }
  }

  lemma AdriftIsOff(k: Kernel, t: TaskId)
    requires Adrift(k, t)
    ensures OnNoList(k, t) && t in k.tasks && t !in k.timeouts && t != k.idle
  {
  }

  lemma {:induction false} WakeAllLeaves(k: Kernel, q: QueueId, result: WaitResult, t: TaskId)
    requires Adrift(k, t)
    ensures LeavesAdrift(k, WakeAll(k, q, result).0, t)
    decreases |At(k, WaitList(q))|
  {
    hide WakeResult, Adrift;
    if At(k, WaitList(q)) != [] {
      WakeResultShrinks(k, q, result);
      WakeResultLeaves(k, q, result, t);
      WakeAllLeaves(WakeResult(k, q, result).0, q, result, t);
    }
  }

  lemma BlockCurrentLeaves(k: Kernel, q: QueueId, t: TaskId)
    requires k.current != Some(t)
    ensures LeavesAdrift(k, BlockCurrent(k, q), t)
  {
    hide ReadyRemove, Link, WaiterPosition, Adrift;
    if k.current.Some? {
      var c := k.current.value;
      var blocked := SetTask(k, c, TaskOf(k, c).(state := Blocked, waitingOnTimer := false));
      SetTaskLeaves(k, c, TaskOf(k, c).(state := Blocked, waitingOnTimer := false), t);
      ReadyRemoveLeaves(blocked, c, t);
      var off := if TaskOf(blocked, c).node.Linked? then ReadyRemove(blocked, c) else blocked;
      LinkLeaves(off, c, WaitList(q), WaiterPosition(off, At(off, WaitList(q)), TaskOf(off, c).priority), t);
    }
  }

  lemma BlockLockedLeaves(k: Kernel, q: QueueId, t: TaskId)
    requires k.current != Some(t)
    ensures LeavesAdrift(k, BlockLocked(k, q).0, t)
  {
    hide BlockCurrent, Adrift;
    FlagsLeave(k, k.slice, k.lockCount, true, t);
    if k.current.Some? && !IsLocked(k) {
      var c := k.current.value;
      SetTaskLeaves(k, c, TaskOf(k, c).(result := NoResult), t);
      var reset := SetTask(k, c, TaskOf(k, c).(result := NoResult));
      BlockCurrentLeaves(reset, q, t);
      var blocked := BlockCurrent(reset, q);
      HistoryLeaves(blocked, blocked.now, blocked.due, k.pc[c := Waiting(q, false, k.arrivals)], k.arrivals + 1, t);
    }
  }

  lemma BlockTimeoutLeaves(k: Kernel, q: QueueId, us: uint64, t: TaskId)
    requires k.current != Some(t)
    ensures LeavesAdrift(k, BlockTimeout(k, q, us).0, t)
  {
    hide BlockLocked, TimeoutInsert, Adrift, UsToTicks;
    BlockLockedLeaves(k, q, t);
    var ticks := UsToTicks(us);
    var (blocked, e) := BlockLocked(k, q);
    if us != FOREVER_US && ticks != 0 && e == Ok && blocked.current.Some? {
      var c := blocked.current.value;
      var deadline := blocked.now + ticks;
      var timed := SetTask(blocked, c, TaskOf(blocked, c).(
        wakeup := Low(deadline), waitingOnTimer := true, result := NoResult)).(
        due := blocked.due[c := deadline],
        pc := blocked.pc[c := Waiting(q, true, k.arrivals)]);
      SameListsLeave(blocked, timed, t);
      TimeoutInsertLeaves(timed, c, t);
    }
  }

  lemma DelayLeaves(k: Kernel, until: nat, t: TaskId)
    requires k.current != Some(t)
    ensures LeavesAdrift(k, Delay(k, until), t)
  {
    hide ReadyRemove, TimeoutInsert, Adrift;
    FlagsLeave(k, k.slice, k.lockCount, true, t);
    if k.current.Some? && !IsLocked(k) && !Expired(Low(k.now), Low(until)) {
      var c := k.current.value;
      var asleep := SetTask(k, c, TaskOf(k, c).(
        wakeup := Low(until), waitingOnTimer := true, result := NoResult, state := Blocked)).(
        due := k.due[c := until]);
      SameListsLeave(k, asleep, t);
      ReadyRemoveLeaves(asleep, c, t);
      TimeoutInsertLeaves(ReadyRemove(asleep, c), c, t);
    }
  }

  lemma DeleteLeaves(k: Kernel, u: TaskId, t: TaskId)
    requires u != t
    ensures LeavesAdrift(k, Delete(k, u).0, t)
  {
    hide MarkDeleted, Adrift;
    MarkDeletedLeaves(k, u, t);
    var dead := MarkDeleted(k, u);
    FlagsLeave(dead, dead.slice, dead.lockCount, true, t);
  }

  lemma MarkDeletedLeaves(k: Kernel, u: TaskId, t: TaskId)
    requires u != t
    ensures LeavesAdrift(k, MarkDeleted(k, u), t)
  {
    hide Unlink, ReadyRemove, Link, TimeoutRemove, Adrift;
    UnlinkLeaves(k, u, t);
    ReadyRemoveLeaves(k, u, t);
    var off := if TaskOf(k, u).node.Unlinked? then k
               else if TaskOf(k, u).state == Ready then ReadyRemove(k, u)
               else Unlink(k, u);
    TimeoutRemoveLeaves(off, u, t);
    var task := TaskOf(off, u).(waitingOnTimer := false, result := NoResult, state := Deleted);
    var dead := SetTask(TimeoutRemove(off, u), u, task);
    SetTaskLeaves(TimeoutRemove(off, u), u, task, t);
    LinkLeaves(dead, u, DeletedList, |At(dead, DeletedList)|, t);
    var buried := Link(dead, u, DeletedList, |At(dead, DeletedList)|);
    HistoryLeaves(buried, buried.now, buried.due, k.pc - {u}, buried.arrivals, t);
  }

  lemma ReapLeaves(k: Kernel, t: TaskId)
    requires Adrift(k, t)
    ensures LeavesAdrift(k, Reap(k), t)
  {
    if At(k, DeletedList) != [] {
      AdriftIsOff(k, t);
      UnlinkFirstLeaves(k, DeletedList, t);
      SameListsLeave(UnlinkFirst(k, DeletedList), Reap(k), t);
    }
  }

  lemma CreateLeaves(k: Kernel, u: TaskId, priority: nat, t: TaskId)
    requires u != t
    ensures LeavesAdrift(k, Create(k, u, priority), t)
  {
    hide ReadyEnqueue, Adrift;
    var task := Task(priority, Ready, Unlinked, false, 0, NoResult);
    SetTaskLeaves(k, u, task, t);
    EnqueueLeaves(SetTask(k, u, task), u, t);
  }

  lemma YieldLeaves(k: Kernel, t: TaskId)
    requires k.current != Some(t)
    ensures LeavesAdrift(k, Yield(k), t)
  {
    hide StepDown, Adrift;
    FlagsLeave(k, k.slice, k.lockCount, true, t);
    if k.current.Some? {
      StepDownLeaves(k, t);
    }
  }

  /** A lost task stays lost through every operation of the kernel but its own deletion. */
  lemma LostStaysLost(k: Kernel, op: Op, t: TaskId)
    requires Lost(k, t) && Enabled(k, op) && op != DoDelete(t)
    ensures Lost(Apply(k, op), t)
  {
    hide Adrift, PickNext, TrapExpire, Decide, Yield, BlockTimeout, Delay, WakeResult, WakeAll, Create,
         Delete, Reap;
    AdriftIsOff(k, t);
    match op
    case DoStart => PickNextLoses(k, t);
    case DoTrap(systick, now) =>
      TrapExpireLeaves(k, systick, now, t);
      DecideKeepsLost(TrapExpire(k, systick, now), systick, t);
    case DoExpire(systick, now) => TrapExpireLeaves(k, systick, now, t);
    case DoDecide(systick) => DecideKeepsLost(k, systick, t);
    case DoYield => YieldLeaves(k, t);
    case DoLock => FlagsLeave(k, k.slice, Low(k.lockCount + 1), k.pending, t);
    case DoUnlock => FlagsLeave(k, k.slice, ReleaseLock(k).lockCount, ReleaseLock(k).pending, t);
    case DoBlock(q, us) => BlockTimeoutLeaves(k, q, us, t);
    case DoSleep(until) => DelayLeaves(k, until, t);
    case DoWake(q, result, isr) =>
      WakeResultLeaves(k, q, result, t);
      WakeResultLeaves(k, q, Object, t);
      var woken := WakeResult(k, q, Object).0;
      FlagsLeave(woken, woken.slice, woken.lockCount, true, t);
    case DoWakeAll(q, result) => WakeAllLeaves(k, q, result, t);
    case DoResume => HistoryLeaves(k, k.now, k.due, Resume(k).pc, k.arrivals, t);
    case DoCreate(u, priority) => CreateLeaves(k, u, priority, t);
    case DoDelete(u) => DeleteLeaves(k, u, t);
    case DoReap => ReapLeaves(k, t);
  }

  /** So no run whatever, short of deleting it, runs it again. */
  lemma {:induction false} LostForGood(k: Kernel, ops: seq<Op>, t: TaskId)
    requires Lost(k, t) && Legal(k, ops) && DoDelete(t) !in ops
    ensures Lost(Run(k, ops), t)
    decreases |ops|
  {
    hide Lost, Enabled, Apply;
    if ops != [] {
      LostStaysLost(k, ops[0], t);
      LostForGood(Apply(k, ops[0]), ops[1..], t);
    }
  }

  lemma LostBreaksInv(k: Kernel, t: TaskId)
    requires Adrift(k, t)
    ensures !Inv(k)
  {
    assert t !in At(k, ReadyList(TaskOf(k, t).priority));
    if Inv(k) {
      hide MaskOk, TimeoutsOk, QueuesOk, GlobalOk, AllInFuture;
      OnePlace(k, t);
    }
  }

  /** A trap that comes between the two statements, of whatever kind and however far the tick jumps, loses the task. */
  lemma YieldGapLosesTask(k: Kernel, systick: bool, now: nat)
    requires Inv(k) && MayBlock(k) && !IsLocked(k)
    ensures Inv(Yield(k))
    ensures Lost(Trap(HalfYield(k), systick, now), k.current.value)
    ensures !Inv(Trap(HalfYield(k), systick, now))
  {
    hide Core, AllInFuture, TrapExpire, Decide, Adrift;
    var c := k.current.value;
    YieldKeeps(k);
    RunningTaskOk(k);
    HalfYieldAdrift(k);
    TrapExpireLeaves(HalfYield(k), systick, now, c);
    var expired := TrapExpire(HalfYield(k), systick, now);
    AdriftIsReady(expired, c);
    DecideKeepsLost(expired, systick, c);
    LostBreaksInv(Trap(HalfYield(k), systick, now), c);
  }

  lemma AdriftIsReady(k: Kernel, t: TaskId)
    requires Adrift(k, t)
    ensures TaskOf(k, t).state == Ready
  {
  }

  lemma HalfYieldAdrift(k: Kernel)
    requires Core(k) && MayBlock(k)
    ensures Adrift(HalfYield(k), k.current.value)
  {
    hide Core;
    var c := k.current.value;
    RunningTaskOk(k);
    forall id ensures c !in At(HalfYield(k), id) {
      OffEveryList(k, c, id);
    }
  }

  lemma OffEveryList(k: Kernel, t: TaskId, id: ListId)
    requires Core(k) && TaskOf(k, t).node == Unlinked
    ensures t !in At(k, id)
  {
    hide MaskOk, TasksOk, TimeoutsOk, QueuesOk, GlobalOk;
    NotOnList(k, t, id);
  }
}
