/** Waking, yielding, locking, creating, deleting and reaping keep the kernel invariant. */
module KernelWaking {
  import opened Common
  import opened TickTime
  import opened Bitmap
  import opened KernelState
  import opened KernelInvariant
  import opened KernelSteps
  import opened KernelBlocking

  /** What being woken leaves of the task. */
  function WokenTask(task: Task, result: WaitResult): Task {
    task.(waitingOnTimer := false, state := Ready, node := Linked(ReadyList(task.priority)), result := result)
  }

  /** `sched_wake_one` takes the first waiter and moves it, alone, to its ready list and off the timeout list. */
  lemma WakeOneKeeps(k: Kernel, q: QueueId)
    requires Core(k) && At(k, WaitList(q)) != []
    ensures var t := At(k, WaitList(q))[0];
            var k' := WakeOne(k, q).0;
            && t in k.tasks && WakeOne(k, q).1 == Some(t)
            && CoreBut(k', t)
            && TaskOf(k', t) == WokenTask(TaskOf(k, t), NoResult)
            && (forall u :: u in k'.timeouts <==> u in k.timeouts && u != t)
            && OnlyMoves(k.(timeouts := Without(k.timeouts, t)), k', t)
  {
    hide ListsOk, MaskOk, TasksBut, TasksOk, TimeoutsOk, QueuesOk, GlobalOk, ReadyEnqueue, Unlink, UnlinkFirst;
    var t := At(k, WaitList(q))[0];
    WaiterIsWaiting(k, t, q);
    LockMeansRunning(k);
    CoreToBut(k, t);
    UnlinkFirstIsUnlink(k, WaitList(q));
    var k1 := Unlink(k, t);
    UnlinkWaiterKeeps(k, t);
    UnlinkMoves(k, t);
    UnlinkedTask(k, t);
    var k2 := TimeoutRemove(k1, t);
    TimeoutRemoveKeeps(k1, t);
    var k3 := SetTask(k2, t, TaskOf(k2, t).(waitingOnTimer := false, state := Ready));
    SetTaskKeeps(k2, t, TaskOf(k2, t).(waitingOnTimer := false, state := Ready));
    ReadyEnqueueKeeps(k3, t);
    ReadyEnqueueMoves(k3, t);
    EnqueuedTask(k3, t);
    var base := k.(timeouts := Without(k.timeouts, t));
    assert k3.tasks.Keys == k.tasks.Keys;
    assert forall u | u != t :: TaskOf(k3, u) == TaskOf(k1, u) == TaskOf(k, u) == TaskOf(base, u);
    assert OnlyMoves(base, k3, t);
    MovesCompose(base, k3, ReadyEnqueue(k3, t), t);
  }

  lemma UnlinkedTask(k: Kernel, t: TaskId)
    requires t in k.tasks
    ensures TaskOf(Unlink(k, t), t) == TaskOf(k, t).(node := Unlinked)
  {
  }

  lemma EnqueuedTask(k: Kernel, t: TaskId)
    requires t in k.tasks
    requires TaskOf(k, t).priority <= PRIORITY_MAX && TaskOf(k, t).state != Deleted && TaskOf(k, t).node == Unlinked
    ensures TaskOf(ReadyEnqueue(k, t), t) == TaskOf(k, t).(node := Linked(ReadyList(TaskOf(k, t).priority)))
  {
  }

  lemma WokenTaskOk(k: Kernel, t: TaskId, q: QueueId, task: Task, result: WaitResult)
    requires result == Object || result == Destroyed
    requires TaskOf(k, t) == WokenTask(task, result) && task.priority <= PRIORITY_MAX && t !in k.timeouts
    ensures TaskOk(k, t)
  {
  }

  /** A post, unlock, send or destroy hands its outcome to the first waiter and to nobody else. */
  lemma WakeResultKeeps(k: Kernel, q: QueueId, result: WaitResult)
    requires Core(k) && At(k, WaitList(q)) != []
    requires result == Object || result == Destroyed
    ensures var t := At(k, WaitList(q))[0];
            var k' := WakeResult(k, q, result).0;
            && t in k.tasks && WakeResult(k, q, result).1 == Some(t)
            && Core(k')
            && TaskOf(k', t) == WokenTask(TaskOf(k, t), result)
            && (forall u :: u in k'.timeouts <==> u in k.timeouts && u != t)
            && OnlyMoves(k.(timeouts := Without(k.timeouts, t), pending := k'.pending), k', t)
  {
    hide ListsOk, MaskOk, TasksBut, TasksOk, TimeoutsOk, QueuesOk, GlobalOk, WakeOne, TaskOk;
    var t := At(k, WaitList(q))[0];
    WaiterIsWaiting(k, t, q);
    LockMeansRunning(k);
    WakeOneKeeps(k, q);
    var woken := WakeOne(k, q).0;
    SetTaskKeeps(woken, t, TaskOf(woken, t).(result := result));
    var done := SetTask(woken, t, TaskOf(woken, t).(result := result));
    WokenTaskOk(done, t, q, TaskOf(k, t), result);
    CoreFromBut(done, t);
    LockMeansRunning(done);
    FlagsKeep(done, done.slice, done.lockCount, true);
    var k' := WakeResult(k, q, result).0;
    assert done.tasks.Keys == k.tasks.Keys;
    var base := k.(timeouts := Without(k.timeouts, t));
    assert forall u | u != t :: TaskOf(k', u) == TaskOf(done, u) == TaskOf(woken, u) == TaskOf(base, u) == TaskOf(k, u);
    assert WakeResult(k, q, result).0 == if IsLocked(k) then done.(pending := true) else done;
  }

  lemma WakeNobody(k: Kernel, q: QueueId, result: WaitResult)
    requires At(k, WaitList(q)) == []
    ensures WakeResult(k, q, result) == (k, None) && WakeFromIsr(k, q) == (k, None)
  {
  }

  /** Waking adds nothing to the timeout list and moves no clock. */
  lemma FewerKeepFuture(k: Kernel, k': Kernel)
    requires AllInFuture(k) && k'.due == k.due && k'.now == k.now
    requires forall t | t in k'.timeouts :: t in k.timeouts
    ensures AllInFuture(k')
  {
    assert forall t :: DueOf(k', t) == DueOf(k, t);
  }

  lemma WakeKeepsInv(k: Kernel, q: QueueId, result: WaitResult, isr: bool)
    requires Inv(k) && (result == Object || result == Destroyed) && (isr ==> result == Object)
    ensures Inv(if isr then WakeFromIsr(k, q).0 else WakeResult(k, q, result).0)
  {
    hide Core, AllInFuture, WakeResult;
    if At(k, WaitList(q)) == [] {
      WakeNobody(k, q, result);
    } else {
      WakeResultKeeps(k, q, result);
      var k' := WakeResult(k, q, result).0;
      FewerKeepFuture(k, k');
      if isr {
        LockMeansRunning(k');
        FlagsKeep(k', k'.slice, k'.lockCount, true);
        FewerKeepFuture(k', k'.(pending := true));
      }
    }
  }

  lemma {:induction false} WakeAllKeeps(k: Kernel, q: QueueId, result: WaitResult)
    requires Inv(k) && (result == Object || result == Destroyed)
    ensures Inv(WakeAll(k, q, result).0)
    ensures At(WakeAll(k, q, result).0, WaitList(q)) == []
    decreases |At(k, WaitList(q))|
  {
    hide Inv, WakeResult;
    if At(k, WaitList(q)) != [] {
      WakeResultShrinks(k, q, result);
      WakeKeepsInv(k, q, result, false);
      WakeAllKeeps(WakeResult(k, q, result).0, q, result);
    }
  }

  // ----- yield and the scheduler lock

  lemma YieldKeeps(k: Kernel)
    requires Inv(k)
    ensures Inv(Yield(k))
  {
    hide Core, StepDown, AllInFuture;
    LockMeansRunning(k);
    if IsLocked(k) {
      FlagsKeep(k, k.slice, k.lockCount, true);
      FewerKeepFuture(k, Yield(k));
    } else if CurrentIs(k, Running) && !CurrentIsIdle(k) {
      StepDownKeeps(k);
      StepDownKeepsTime(k);
      FewerKeepFuture(k, StepDown(k));
    }
  }

  lemma LockKeeps(k: Kernel)
    requires Inv(k) && MayBlock(k)
    ensures Inv(LockScheduler(k))
  {
    hide Core, AllInFuture;
    LockMeansRunning(k);
    FlagsKeep(k, k.slice, Low(k.lockCount + 1), k.pending);
    FewerKeepFuture(k, LockScheduler(k));
  }

  lemma ReleaseKeeps(k: Kernel)
    requires Inv(k)
    ensures Inv(ReleaseLock(k))
  {
    hide Core, AllInFuture;
    if k.lockCount != 0 {
      LockMeansRunning(k);
      FlagsKeep(k, k.slice, k.lockCount - 1, k.pending && !OwesYield(k));
      FewerKeepFuture(k, ReleaseLock(k));
    }
  }

  lemma UnlockKeeps(k: Kernel)
    requires Inv(k)
    ensures Inv(UnlockScheduler(k))
  {
    hide Inv, Yield, ReleaseLock;
    ReleaseKeeps(k);
    YieldKeeps(ReleaseLock(k));
  }

  // ----- resume

  /** Returning from the blocking call: only the call the task is inside is forgotten. */
  lemma ResumeKeeps(k: Kernel)
    requires Inv(k) && CurrentIs(k, Running)
    ensures Inv(Resume(k))
  {
    hide ListsOk, MaskOk, TimeoutsOk, QueuesOk;
    var c := k.current.value;
    RunningTaskOk(k);
    var k' := Resume(k);
    SameListsOk(k, k');
    SameReadyListsKeepMask(k, k');
    assert forall u | u != c :: PcOf(k', u) == PcOf(k, u) && ArrivalOf(k', u) == ArrivalOf(k, u);
    SameQueuesOk(k, k');
    TimeoutsInTasks(k);
    SameTimeoutsOk(k, k');
    CoreToBut(k, c);
    OthersKeep(k, k', c);
    assert TaskOk(k, c);
    CoreFromBut(k', c);
    FewerKeepFuture(k, k');
  }

  // ----- creation

  lemma {:induction false} FreshTask(k: Kernel, t: TaskId, task: Task)
    requires Inv(k) && t !in k.tasks && task.node == Unlinked
    ensures CoreBut(SetTask(k, t, task), t)
    ensures t !in k.timeouts && PcOf(k, t) == User
  {
    hide ListsOk, MaskOk, TasksBut, QueuesOk;
    var k' := SetTask(k, t, task);
    TimeoutsInTasks(k);
    ArrivalsBelow(k);
    SetTaskKeepsLists(k, t, task);
    SameReadyListsKeepMask(k, k');
    SameQueuesOk(k, k');
    CoreToBut(k, t);
    OthersKeep(k, k', t);
    SameTimeoutsOk(k, k');
    SameGlobalOk(k, k');
  }

  lemma CreateKeeps(k: Kernel, t: TaskId, priority: nat)
    requires Inv(k) && t !in k.tasks
    ensures Inv(Create(k, t, priority))
  {
    hide Core, AllInFuture, ReadyEnqueue, CoreBut, Inv;
    if priority <= PRIORITY_MAX {
      var task := Task(priority, Ready, Unlinked, false, 0, NoResult);
      var k1 := SetTask(k, t, task);
      FreshTask(k, t, task);
      ReadyEnqueueKeeps(k1, t);
      ReadyEnqueueMoves(k1, t);
      EnqueuedTask(k1, t);
      var k' := ReadyEnqueue(k1, t);
      CoreFromBut(k', t);
      InvTime(k);
      FewerKeepFuture(k, k');
      InvJoin(k');
    }
  }

  lemma InvTime(k: Kernel)
    requires Inv(k)
    ensures Core(k) && AllInFuture(k)
  {
  }

  lemma InvJoin(k: Kernel)
    requires Core(k) && AllInFuture(k)
    ensures Inv(k)
  {
  }

  // ----- deletion

  /** The record `sched_mark_deleted` leaves. */
  function DeadTask(task: Task): Task {
    task.(waitingOnTimer := false, result := NoResult, state := Deleted, node := Linked(DeletedList))
  }

  lemma MarkDeletedKeeps(k: Kernel, t: TaskId)
    requires Core(k) && t in k.tasks && t != k.idle && TaskOf(k, t).state != Deleted
    requires k.current == Some(t) ==> !IsLocked(k)
    ensures Core(MarkDeleted(k, t))
    ensures TaskOf(MarkDeleted(k, t), t) == DeadTask(TaskOf(k, t))
    ensures forall u :: u in MarkDeleted(k, t).timeouts <==> u in k.timeouts && u != t
    ensures OnlyMoves(k.(timeouts := Without(k.timeouts, t), pc := k.pc - {t}), MarkDeleted(k, t), t)
  {
    hide Core, CoreBut, Unlink, ReadyRemove, Link;
    var off := if TaskOf(k, t).node.Unlinked? then k
               else if TaskOf(k, t).state == Ready then ReadyRemove(k, t)
               else Unlink(k, t);
    TakeOffKeeps(k, t, off);
    TaskFacts(k, t);
    var task := TaskOf(off, t).(waitingOnTimer := false, result := NoResult, state := Deleted);
    var dead := SetTask(TimeoutRemove(off, t), t, task);
    MarkKeeps(off, t);
    BuryKeeps(dead, t);
    BuryMoves(dead, t);
    assert MarkDeleted(k, t) == Bury(dead, t).(pc := k.pc - {t});
    var base := k.(timeouts := Without(k.timeouts, t), pc := k.pc - {t});
    MarkMoves(k, off, t);
    MovesCompose(base, dead.(pc := dead.pc - {t}), MarkDeleted(k, t), t);
  }

  lemma MarkKeeps(off: Kernel, t: TaskId)
    requires CoreBut(off, t) && t in off.tasks && (off.current == Some(t) ==> !IsLocked(off))
    ensures var task := TaskOf(off, t).(waitingOnTimer := false, result := NoResult, state := Deleted);
            CoreBut(SetTask(TimeoutRemove(off, t), t, task), t)
    ensures forall u :: u in TimeoutRemove(off, t).timeouts <==> u in off.timeouts && u != t
  {
    hide CoreBut;
    TimeoutRemoveKeeps(off, t);
    var task := TaskOf(off, t).(waitingOnTimer := false, result := NoResult, state := Deleted);
    SetTaskKeeps(TimeoutRemove(off, t), t, task);
  }

  lemma MarkMoves(k: Kernel, off: Kernel, t: TaskId)
    requires OnlyMoves(k, off, t) && t in k.tasks
    ensures var task := TaskOf(off, t).(waitingOnTimer := false, result := NoResult, state := Deleted);
            var dead := SetTask(TimeoutRemove(off, t), t, task);
            OnlyMoves(k.(timeouts := Without(k.timeouts, t), pc := k.pc - {t}), dead.(pc := dead.pc - {t}), t)
  {
    hide Without;
    var task := TaskOf(off, t).(waitingOnTimer := false, result := NoResult, state := Deleted);
    var dead := SetTask(TimeoutRemove(off, t), t, task);
    var base := k.(timeouts := Without(k.timeouts, t), pc := k.pc - {t});
    var off' := off.(timeouts := base.timeouts, pc := base.pc);
    assert OnlyMoves(base, off', t) by {
      assert forall u | u != t :: TaskOf(off', u) == TaskOf(off, u) == TaskOf(k, u) == TaskOf(base, u);
    }
    hide OnlyMoves;
    assert dead.(pc := dead.pc - {t}) == SetTask(off', t, task);
    UpdateMoves(off', SetTask(off', t, task), t, task);
    MovesCompose(base, off', SetTask(off', t, task), t);
  }

  lemma TaskFacts(k: Kernel, t: TaskId)
    requires Core(k) && t in k.tasks
    ensures TaskOf(k, t).priority <= PRIORITY_MAX
  {
    hide ListsOk, MaskOk, TimeoutsOk, QueuesOk, GlobalOk;
    assert TaskOk(k, t);
  }

  lemma TakeOffKeeps(k: Kernel, t: TaskId, off: Kernel)
    requires Core(k) && t in k.tasks && t != k.idle && TaskOf(k, t).state != Deleted
    requires off == if TaskOf(k, t).node.Unlinked? then k
                    else if TaskOf(k, t).state == Ready then ReadyRemove(k, t)
                    else Unlink(k, t)
    ensures CoreBut(off, t) && TaskOf(off, t) == TaskOf(k, t).(node := Unlinked) && OnlyMoves(k, off, t)
  {
    hide ListsOk, MaskOk, TasksBut, TimeoutsOk, QueuesOk, GlobalOk, TasksOk, Unlink, ReadyRemove;
    CoreToBut(k, t);
    if TaskOf(k, t).node.Linked? {
      if TaskOf(k, t).state == Ready {
        ReadyRemoveKeeps(k, t);
        ReadyRemoveMoves(k, t);
      } else {
        UnlinkWaiterKeeps(k, t);
        UnlinkMoves(k, t);
        UnlinkedTask(k, t);
      }
    }
  }

  lemma ReadyRemoveMoves(k: Kernel, t: TaskId)
    ensures OnlyMoves(k, ReadyRemove(k, t), t)
  {
    hide Unlink, ClearBit;
    UnlinkMoves(k, t);
  }

  /** The dead task's node goes to the end of the deleted list and its call is forgotten. */
  function Bury(k: Kernel, t: TaskId): Kernel {
    Link(k, t, DeletedList, |At(k, DeletedList)|).(pc := k.pc - {t})
  }

  lemma BuryMoves(k: Kernel, t: TaskId)
    ensures OnlyMoves(k.(pc := k.pc - {t}), Bury(k, t), t)
    ensures TaskOf(Bury(k, t), t) == TaskOf(k, t).(node := Linked(DeletedList))
    ensures forall id | id != DeletedList :: At(Bury(k, t), id) == At(k, id)
    ensures Bury(k, t).mask == k.mask
  {
    hide InsertAt, OnlyMoves;
    UpdateMoves(k.(pc := k.pc - {t}), Bury(k, t), t, TaskOf(k, t).(node := Linked(DeletedList)));
  }

  /** Linking a task marked deleted onto the deleted list. */
  lemma BuryKeeps(k: Kernel, t: TaskId)
    requires CoreBut(k, t) && t in k.tasks && t != k.idle && t !in k.timeouts
    requires TaskOf(k, t).state == Deleted && TaskOf(k, t).node == Unlinked && TaskOf(k, t).priority <= PRIORITY_MAX
    requires !TaskOf(k, t).waitingOnTimer && TaskOf(k, t).result == NoResult
    ensures Core(Bury(k, t))
  {
    hide ListsOk, MaskOk, TasksBut, TimeoutsOk, QueuesOk, GlobalOk, InsertAt, Link, TaskOk;
    var linked := Link(k, t, DeletedList, |At(k, DeletedList)|);
    var k' := Bury(k, t);
    LinkKeepsLists(k, t, DeletedList, |At(k, DeletedList)|);
    SameListsOk(linked, k');
    BuryMoves(k, t);
    var base := k.(pc := k.pc - {t});
    assert forall u | u != t :: TaskOf(k', u) == TaskOf(base, u) == TaskOf(k, u);
    assert forall u | u != t :: PcOf(k', u) == PcOf(k, u) && ArrivalOf(k', u) == ArrivalOf(k, u);
    SameReadyListsKeepMask(k, k');
    SameQueuesOk(k, k');
    OthersKeep(k, k', t);
    TimeoutsInTasks(k);
    SameTimeoutsOk(k, k');
    GlobalWithout(k, k', t);
    DeadTaskOk(k', t);
    CoreFromBut(k', t);
  }

  lemma GlobalWithout(k: Kernel, k': Kernel, t: TaskId)
    requires GlobalOk(k) && k'.pc == k.pc - {t} && k'.arrivals == k.arrivals
    requires k'.current == k.current && k'.idle == k.idle && k'.lockCount == k.lockCount && k'.slice == k.slice
    requires k'.tasks.Keys == k.tasks.Keys
    requires CurrentIs(k, Running) ==> CurrentIs(k', Running)
    ensures GlobalOk(k')
  {
    assert forall u :: PcOf(k', u).Waiting? ==> PcOf(k, u).Waiting? && ArrivalOf(k', u) == ArrivalOf(k, u);
  }

  lemma DeadTaskOk(k: Kernel, t: TaskId)
    requires TaskOf(k, t).state == Deleted && TaskOf(k, t).node == Linked(DeletedList) && t != k.idle
    requires TaskOf(k, t).priority <= PRIORITY_MAX && !TaskOf(k, t).waitingOnTimer && t !in k.timeouts
    requires TaskOf(k, t).result == NoResult && PcOf(k, t) == User
    ensures TaskOk(k, t)
  {
  }

  lemma DeleteKeeps(k: Kernel, t: TaskId)
    requires Inv(k)
    ensures Inv(Delete(k, t).0)
  {
    hide Core, AllInFuture, MarkDeleted;
    if t in k.tasks && t != k.idle && TaskOf(k, t).state != Deleted && !(k.current == Some(t) && IsLocked(k)) {
      MarkDeletedKeeps(k, t);
      var dead := MarkDeleted(k, t);
      FewerKeepFuture(k, dead);
      if k.current == Some(t) {
        LockMeansRunning(dead);
        FlagsKeep(dead, dead.slice, dead.lockCount, true);
        FewerKeepFuture(k, dead.(pending := true));
      }
    }
  }

  lemma DeadIsDeleted(k: Kernel, t: TaskId)
    requires Core(k)
    ensures t in At(k, DeletedList) ==> t in k.tasks && TaskOf(k, t).state == Deleted && t != k.idle && t !in k.timeouts
    ensures NoDup(At(k, DeletedList))
  {
    hide MaskOk, TimeoutsOk, QueuesOk, GlobalOk;
    NotOnList(k, t, DeletedList);
    if t in At(k, DeletedList) {
      assert TaskOk(k, t);
    }
  }

  /** The idle task frees one deleted record. */
  lemma ReapKeeps(k: Kernel)
    requires Inv(k) && CurrentIsIdle(k) && CurrentIs(k, Running)
    ensures Inv(Reap(k))
    ensures At(k, DeletedList) != [] ==> Reap(k).tasks.Keys == k.tasks.Keys - {At(k, DeletedList)[0]}
  {
    hide ListsOk, MaskOk, TasksBut, TimeoutsOk, QueuesOk, TasksOk, Without;
    if At(k, DeletedList) != [] {
      var t := At(k, DeletedList)[0];
      DeadIsDeleted(k, t);
      LockMeansRunning(k);
      UnlinkFirstIsUnlink(k, DeletedList);
      UnlinkKeepsLists(k, t);
      var off := Unlink(k, t);
      var k' := Reap(k);
      NotOnList(k, t, DeletedList);
      assert TaskOf(off, t).node == Unlinked;
      assert forall u | u != t ::
          PcOf(k', u) == PcOf(k, u) && DueOf(k', u) == DueOf(k, u) && TaskOf(k', u) == TaskOf(k, u);
      SameListsOk(off, k');
      SameReadyListsKeepMask(k, k');
      assert forall u | u != t :: ArrivalOf(k', u) == ArrivalOf(k, u);
      SameQueuesOk(k, k');
      CoreToBut(k, t);
      OthersKeep(k, k', t);
      TimeoutsInTasks(k);
      SameTimeoutsOk(k, k');
      CoreFromBut(k', t);
      assert k'.timeouts == k.timeouts;
    }
  }

  // ----- boot

  lemma BootInv(idle: TaskId)
    ensures Inv(Boot(idle)) && Boot(idle).current.None?
  {
    var k := Boot(idle);
    var only := Task(0, Ready, Linked(ReadyList(0)), false, 0, NoResult);
    assert k.tasks == map[idle := only];
    assert InsertAt([], 0, idle) == [idle];
    assert k.lists == map[ReadyList(0) := [idle]];
    assert k.mask == 1;
    forall id ensures ListOk(k, id) { }
    assert Pow2(32) > 1 by {
      Pow2Monotone(1, 32);
    }
    forall p: nat | p <= PRIORITY_MAX ensures Has(1, p) <==> p == 0 {
      if p != 0 {
        ZeroHas(p - 1);
      }
    }
  }

  /** `rtos_start`: the first pick. */
  lemma StartKeeps(k: Kernel)
    requires Inv(k) && k.current.None?
    ensures Inv(PickNext(k)) && CurrentIs(PickNext(k), Running)
  {
    hide Core, AllInFuture, PickNext;
    LockMeansRunning(k);
    PickNextKeeps(k);
    PickNextKeepsTime(k);
    FewerKeepFuture(k, PickNext(k));
  }
}
