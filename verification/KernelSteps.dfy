/** Every kernel operation keeps the kernel invariant. An operation moves one task; the lemmas below carry
    `CoreBut`, the invariant of all tasks but that one, through its parts. */
module KernelSteps {
  import opened Common
  import opened TickTime
  import opened Bitmap
  import opened KernelState
  import opened KernelInvariant

  ghost predicate CoreBut(k: Kernel, t: TaskId) {
    && ListsOk(k)
    && MaskOk(k)
    && TasksBut(k, t)
    && TimeoutsOk(k)
    && QueuesOk(k)
    && GlobalOk(k)
  }

  // ----- parts

  lemma CoreToBut(k: Kernel, t: TaskId)
    requires Core(k)
    ensures CoreBut(k, t)
    ensures t in k.tasks ==> TaskOk(k, t)
  {
    hide ListsOk, MaskOk, TimeoutsOk, QueuesOk, GlobalOk, TaskOk;
  }

  lemma CoreFromBut(k: Kernel, t: TaskId)
    requires CoreBut(k, t) && (t in k.tasks ==> TaskOk(k, t))
    ensures Core(k)
  {
    hide ListsOk, MaskOk, TimeoutsOk, QueuesOk, GlobalOk, TaskOk;
  }

  lemma SetTaskKeeps(k: Kernel, t: TaskId, task: Task)
    requires CoreBut(k, t) && t in k.tasks
    requires task.node == TaskOf(k, t).node && task.priority == TaskOf(k, t).priority
    requires t in k.timeouts ==> task.wakeup == TaskOf(k, t).wakeup
    requires k.lockCount > 0 && k.current == Some(t) ==> task.state == Running
    ensures CoreBut(SetTask(k, t, task), t)
  {
    hide ListsOk, MaskOk, TasksBut, TimeoutsOk, QueuesOk, GlobalOk;
    var k' := SetTask(k, t, task);
    SetTaskKeepsLists(k, t, task);
    SameReadyListsKeepMask(k, k');
    SameQueuesOk(k, k');
    OthersKeep(k, k', t);
    TimeoutsInTasks(k);
    SameTimeoutsOk(k, k');
    SameGlobalOk(k, k');
  }

  lemma TimeoutsInTasks(k: Kernel)
    requires TimeoutsOk(k)
    ensures forall u | u in k.timeouts :: u in k.tasks
    ensures NoDup(k.timeouts)
  {
  }

  lemma TimeoutRemoveKeeps(k: Kernel, t: TaskId)
    requires CoreBut(k, t)
    ensures CoreBut(TimeoutRemove(k, t), t)
    ensures forall u :: u in TimeoutRemove(k, t).timeouts <==> u in k.timeouts && u != t
  {
    hide ListsOk, MaskOk, TasksBut, TimeoutsOk, QueuesOk, GlobalOk;
    var k' := TimeoutRemove(k, t);
    TimeoutsInTasks(k);
    FewerTimeouts(k, k', t);
    SameListsOk(k, k');
    SameReadyListsKeepMask(k, k');
    SameQueuesOk(k, k');
    OthersKeep(k, k', t);
    SameGlobalOk(k, k');
  }

  lemma ReadyEnqueueKeeps(k: Kernel, t: TaskId)
    requires CoreBut(k, t) && t in k.tasks
    requires TaskOf(k, t).priority <= PRIORITY_MAX && TaskOf(k, t).state != Deleted && TaskOf(k, t).node == Unlinked
    ensures CoreBut(ReadyEnqueue(k, t), t)
  {
    hide ListsOk, MaskOk, TasksBut, TimeoutsOk, QueuesOk, GlobalOk;
    var k' := ReadyEnqueue(k, t);
    var id := ReadyList(TaskOf(k, t).priority);
    var linked := Link(k, t, id, |At(k, id)|);
    LinkKeepsLists(k, t, id, |At(k, id)|);
    SameListsOk(linked, k');
    SetBitKeepsMask(k, k', id.priority);
    SameQueuesOk(k, k');
    OthersKeep(k, k', t);
    TimeoutsInTasks(k);
    SameTimeoutsOk(k, k');
    SameGlobalOk(k, k');
  }

  /** A waiter, or a task on no list, leaves whatever queue it is on. */
  lemma UnlinkWaiterKeeps(k: Kernel, t: TaskId)
    requires CoreBut(k, t) && t in k.tasks
    requires TaskOf(k, t).node.Linked? ==> TaskOf(k, t).node.list.WaitList?
    ensures CoreBut(Unlink(k, t), t)
  {
    hide ListsOk, MaskOk, TasksBut, TimeoutsOk, QueuesOk, GlobalOk, Without;
    var k' := Unlink(k, t);
    UnlinkKeepsLists(k, t);
    SameReadyListsKeepMask(k, k');
    forall q ensures At(k', WaitList(q)) == Without(At(k, WaitList(q)), t) {
      LeftQueue(k, t, q);
    }
    LeavingKeepsQueues(k, k', t);
    OthersKeep(k, k', t);
    TimeoutsInTasks(k);
    SameTimeoutsOk(k, k');
    SameGlobalOk(k, k');
  }

  lemma LeftQueue(k: Kernel, t: TaskId, q: QueueId)
    requires ListsOk(k)
    ensures At(Unlink(k, t), WaitList(q)) == Without(At(k, WaitList(q)), t)
  {
    hide ListsOk;
    NotOnList(k, t, WaitList(q));
    if TaskOf(k, t).node != Linked(WaitList(q)) {
      WithoutAbsent(At(k, WaitList(q)), t);
    }
  }

  /** A ready task leaves its ready list and the mask follows. */
  lemma ReadyRemoveKeeps(k: Kernel, t: TaskId)
    requires CoreBut(k, t) && t in k.tasks
    requires TaskOf(k, t).priority <= PRIORITY_MAX && TaskOf(k, t).node == Linked(ReadyList(TaskOf(k, t).priority))
    ensures CoreBut(ReadyRemove(k, t), t)
    ensures TaskOf(ReadyRemove(k, t), t) == TaskOf(k, t).(node := Unlinked)
  {
    hide ListsOk, MaskOk, TasksBut, TimeoutsOk, QueuesOk, GlobalOk, Unlink, ClearIfEmpty, ReadyRemove;
    var k' := ReadyRemove(k, t);
    var less := Unlink(k, t);
    var p := TaskOf(k, t).priority;
    ReadyRemoveShape(k, t);
    UnlinkKeepsLists(k, t);
    SameListsOk(less, k');
    NotOnList(k, t, ReadyList(p));
    ClearIfEmptyKeepsMask(k, less, p);
    SameQueuesOk(k, k');
    OthersKeep(k, k', t);
    TimeoutsInTasks(k);
    SameTimeoutsOk(k, k');
    SameGlobalOk(k, k');
  }

  lemma ReadyRemoveShape(k: Kernel, t: TaskId)
    requires t in k.tasks
    requires TaskOf(k, t).priority <= PRIORITY_MAX && TaskOf(k, t).node == Linked(ReadyList(TaskOf(k, t).priority))
    ensures var k' := ReadyRemove(k, t);
            var less := Unlink(k, t);
            var p := TaskOf(k, t).priority;
            && k' == ClearIfEmpty(less, p)
            && k'.tasks == less.tasks == k.tasks[t := TaskOf(k, t).(node := Unlinked)]
            && k'.lists == less.lists == k.lists[ReadyList(p) := Without(At(k, ReadyList(p)), t)]
            && less.mask == k.mask
            && k' == k.(tasks := k'.tasks, lists := k'.lists, mask := k'.mask)
  {
  }

  lemma PopHighestKeeps(k: Kernel)
    requires Core(k)
    ensures PopHighest(k).1.None? <==> k.mask == 0
    ensures PopHighest(k).1.None? ==> PopHighest(k).0 == k
    ensures PopHighest(k).1.Some? ==>
              var t := PopHighest(k).1.value;
              && t in k.tasks
              && TaskOf(k, t).state == Ready
              && TaskOf(k, t).node == Linked(ReadyList(TaskOf(k, t).priority))
              && TaskOf(k, t).priority == Highest(k.mask) <= PRIORITY_MAX
              && At(k, ReadyList(Highest(k.mask)))[0] == t
              && PopHighest(k).0 == ReadyRemove(k, t)
              && CoreBut(PopHighest(k).0, t)
  {
    if k.mask != 0 {
      HighestReady(k);
      var id := ReadyList(Highest(k.mask));
      var t := At(k, id)[0];
      UnlinkFirstIsUnlink(k, id);
      CoreToBut(k, t);
      ReadyRemoveKeeps(k, t);
    }
  }

  /** The list the mask points at is not empty: the queue-corrupt loop is never entered. */
  lemma HighestReady(k: Kernel)
    requires Core(k) && k.mask != 0
    ensures 0 <= Highest(k.mask) <= PRIORITY_MAX
    ensures var s := At(k, ReadyList(Highest(k.mask)));
            && s != []
            && s[0] in k.tasks
            && TaskOf(k, s[0]).state == Ready
            && TaskOf(k, s[0]).priority == Highest(k.mask)
            && TaskOf(k, s[0]).node == Linked(ReadyList(Highest(k.mask)))
  {
    hide TimeoutsOk, QueuesOk, GlobalOk;
    HighestSpec(k.mask);
    var id := ReadyList(Highest(k.mask));
    assert Has(k.mask, Highest(k.mask));
    var t := At(k, id)[0];
    NotOnList(k, t, id);
    assert TaskOk(k, t);
  }

  // ----- choosing the current task

  /** The running task goes back to its ready list: the first half of `sched_pick_next` and of `task_yield`. */
  lemma StepDownKeeps(k: Kernel)
    requires Core(k) && CurrentIs(k, Running) && !IsLocked(k)
    ensures Core(StepDown(k)) && NoneRunning(StepDown(k))
  {
    hide ListsOk, MaskOk, TasksBut, TimeoutsOk, QueuesOk, GlobalOk;
    var c := k.current.value;
    CoreToBut(k, c);
    var idling := SetTask(k, c, TaskOf(k, c).(state := Ready));
    SetTaskKeeps(k, c, TaskOf(k, c).(state := Ready));
    if c != k.idle {
      ReadyEnqueueKeeps(idling, c);
    }
    CoreFromBut(StepDown(k), c);
    OnlyCurrentRuns(StepDown(k));
  }

  ghost predicate NoneRunning(k: Kernel) {
    forall u | u in k.tasks :: TaskOf(k, u).state != Running
  }

  lemma OnlyCurrentRuns(k: Kernel)
    requires Core(k) && !CurrentIs(k, Running)
    ensures NoneRunning(k)
  {
    hide ListsOk, MaskOk, TimeoutsOk, QueuesOk;
    forall u | u in k.tasks ensures TaskOf(k, u).state != Running {
      assert TaskOk(k, u);
    }
  }

  lemma PickNextKeeps(k: Kernel)
    requires Core(k) && !IsLocked(k)
    ensures Core(PickNext(k)) && CurrentIs(PickNext(k), Running)
  {
    hide Core, SwitchToHighest;
    var back := if CurrentIs(k, Running) then StepDown(k) else k;
    if CurrentIs(k, Running) {
      StepDownKeeps(k);
    } else {
      OnlyCurrentRuns(k);
    }
    SwitchToHighestKeeps(back);
  }

  lemma SwitchToHighestKeeps(k: Kernel)
    requires Core(k) && !IsLocked(k) && NoneRunning(k)
    ensures Core(SwitchToHighest(k)) && CurrentIs(SwitchToHighest(k), Running)
  {
    hide Core, CoreBut, GlobalOk;
    PopHighestKeeps(k);
    var (popped, next) := PopHighest(k);
    if next.Some? {
      var t := next.value;
      CoreToBut(k, t);
      assert NoneRunning(popped);
      MakeCurrentKeeps(popped, t);
    } else {
      IdleUnlinkedWhenMaskClear(k);
      CoreToBut(k, k.idle);
      MakeCurrentKeeps(k, k.idle);
    }
  }

  lemma IdleUnlinkedWhenMaskClear(k: Kernel)
    requires Core(k) && k.mask == 0 && NoneRunning(k)
    ensures k.idle in k.tasks && TaskOf(k, k.idle).node == Unlinked && TaskOf(k, k.idle).state == Ready
  {
    hide TimeoutsOk, QueuesOk;
    var p := TaskOf(k, k.idle).priority;
    assert TaskOk(k, k.idle);
    NotOnList(k, k.idle, ReadyList(p));
    ZeroHas(p);
    assert !Has(k.mask, p);
  }

  lemma NewCurrentOthers(k: Kernel, t: TaskId)
    requires TasksBut(k, t) && NoneRunning(k)
    ensures TasksBut(MakeCurrent(k, t), t)
  {
    var k' := MakeCurrent(k, t);
    forall u | u in k'.tasks && u != t ensures TaskOk(k', u) {
      assert TaskOk(k, u);
    }
  }

  lemma MakeCurrentKeeps(k: Kernel, t: TaskId)
    requires CoreBut(k, t) && t in k.tasks && !IsLocked(k)
    requires TaskOf(k, t).state == Ready && TaskOf(k, t).node == Unlinked
    requires TaskOf(k, t).priority <= PRIORITY_MAX && !TaskOf(k, t).waitingOnTimer && t !in k.timeouts
    requires OutcomeOk(PcOf(k, t), TaskOf(k, t).result)
    requires NoneRunning(k)
    ensures Core(MakeCurrent(k, t))
  {
    hide ListsOk, MaskOk, TasksBut, TimeoutsOk, QueuesOk, NoneRunning;
    NewCurrentOthers(k, t);
    var k' := MakeCurrent(k, t);
    SameListsOk(k, k');
    SameReadyListsKeepMask(k, k');
    SameQueuesOk(k, k');
    TimeoutsInTasks(k);
    SameTimeoutsOk(k, k');
    assert forall u :: PcOf(k', u) == PcOf(k, u) && ArrivalOf(k', u) == ArrivalOf(k, u);
    CoreFromBut(k', t);
  }

  /** The scheduler's own flags are free to change as long as a held lock means the current task runs. */
  lemma FlagsKeep(k: Kernel, slice: nat, lockCount: uint32, pending: bool)
    requires Core(k) && slice < TIME_SLICE_TICKS
    requires lockCount > 0 ==> CurrentIs(k, Running) && !CurrentIsIdle(k)
    ensures Core(k.(slice := slice, lockCount := lockCount, pending := pending))
  {
    hide ListsOk, MaskOk, TimeoutsOk, QueuesOk;
    var k' := k.(slice := slice, lockCount := lockCount, pending := pending);
    SameListsOk(k, k');
    SameReadyListsKeepMask(k, k');
    SameQueuesOk(k, k');
    TimeoutsInTasks(k);
    SameTimeoutsOk(k, k');
    assert forall t :: PcOf(k', t) == PcOf(k, t) && ArrivalOf(k', t) == ArrivalOf(k, t);
    forall t | t in k'.tasks ensures TaskOk(k', t) {
      assert TaskOk(k, t);
    }
  }

  lemma LockMeansRunning(k: Kernel)
    requires Core(k)
    ensures k.slice < TIME_SLICE_TICKS
    ensures IsLocked(k) ==> CurrentIs(k, Running) && !CurrentIsIdle(k)
  {
    hide ListsOk, MaskOk, TasksOk, TimeoutsOk, QueuesOk;
  }

  /** Scheduling decisions leave time alone. */
  ghost predicate SameTime(k: Kernel, k': Kernel) {
    k'.timeouts == k.timeouts && k'.due == k.due && k'.now == k.now
  }

  lemma DecideKeepsTime(k: Kernel, systick: bool)
    ensures SameTime(k, Decide(k, systick))
  {
    hide PickNext, TryReschedule, HigherPriorityReady;
    PickNextKeepsTime(k);
    PickNextKeepsTime(OnTick(k).0);
    TryRescheduleKeepsTime(k);
    TryRescheduleKeepsTime(PickNext(k));
  }

  lemma PickNextKeepsTime(k: Kernel)
    ensures SameTime(k, PickNext(k))
  {
    hide PopHighest, StepDown;
    var back := if CurrentIs(k, Running) then StepDown(k) else k;
    if CurrentIs(k, Running) {
      StepDownKeepsTime(k);
    }
    PopHighestKeepsTime(back);
  }

  lemma StepDownKeepsTime(k: Kernel)
    requires k.current.Some?
    ensures SameTime(k, StepDown(k))
  {
  }

  lemma PopHighestKeepsTime(k: Kernel)
    ensures SameTime(k, PopHighest(k).0)
  {
    hide Highest, ClearBit;
  }

  lemma TryRescheduleKeepsTime(k: Kernel)
    ensures SameTime(k, TryReschedule(k))
  {
    PickNextKeepsTime(k.(pending := false));
  }

  lemma TryRescheduleKeeps(k: Kernel)
    requires Core(k)
    ensures Core(TryReschedule(k))
    ensures CurrentIs(k, Running) ==> CurrentIs(TryReschedule(k), Running)
  {
    hide Core, PickNext;
    LockMeansRunning(k);
    if k.current.Some? && k.pending && !IsLocked(k) {
      var clear := k.(pending := false);
      FlagsKeep(k, k.slice, k.lockCount, false);
      PickNextKeeps(clear);
    }
  }

  lemma DecideKeeps(k: Kernel, systick: bool)
    requires Core(k) && k.current.Some?
    ensures Core(Decide(k, systick)) && CurrentIs(Decide(k, systick), Running)
  {
    hide Core, PickNext, OnTick, TryReschedule;
    LockMeansRunning(k);
    if !CurrentIs(k, Running) || CurrentIsIdle(k) {
      PickNextKeeps(k);
      TryRescheduleKeeps(PickNext(k));
    } else if systick {
      var (ticked, switch) := OnTick(k);
      OnTickKeeps(k);
      if switch {
        LockMeansRunning(ticked);
        if IsLocked(ticked) {
          FlagsKeep(ticked, ticked.slice, ticked.lockCount, true);
        } else {
          PickNextKeeps(ticked);
        }
      }
    } else {
      TryRescheduleKeeps(k);
    }
  }

  lemma OnTickKeeps(k: Kernel)
    requires Core(k)
    ensures Core(OnTick(k).0) && OnTick(k).0 == k.(slice := OnTick(k).0.slice)
  {
    hide Core;
    LockMeansRunning(k);
    FlagsKeep(k, OnTick(k).0.slice, k.lockCount, k.pending);
  }

  // ----- time

  lemma TimeKeeps(k: Kernel, now: nat)
    requires Core(k)
    ensures Core(k.(now := now))
  {
    hide ListsOk, MaskOk, TimeoutsOk, QueuesOk, GlobalOk;
    var k' := k.(now := now);
    SameListsOk(k, k');
    SameReadyListsKeepMask(k, k');
    SameQueuesOk(k, k');
    SameGlobalOk(k, k');
    TimeoutsInTasks(k);
    SameTimeoutsOk(k, k');
    forall t | t in k'.tasks ensures TaskOk(k', t) {
      assert TaskOk(k, t);
    }
  }

  /** What an expiry leaves of the task. */
  function TimedOutTask(task: Task): Task {
    task.(waitingOnTimer := false, result := Timeout, state := Ready, node := Linked(ReadyList(task.priority)))
  }

  lemma ExpireKeeps(k: Kernel, t: TaskId)
    requires CoreBut(k, t) && t in k.tasks && t !in k.timeouts
    requires TaskOf(k, t).state == Blocked && TaskOf(k, t).waitingOnTimer && t != k.idle
    requires TaskOf(k, t).priority <= PRIORITY_MAX && (k.current == Some(t) ==> !IsLocked(k))
    requires PcOf(k, t).Waiting? ==> PcOf(k, t).timed
    requires TaskOf(k, t).node.Linked? ==> TaskOf(k, t).node.list.WaitList?
    ensures Core(Expire(k, t))
    ensures TaskOf(Expire(k, t), t) == TimedOutTask(TaskOf(k, t))
  {
    hide ListsOk, MaskOk, TasksBut, TimeoutsOk, QueuesOk, GlobalOk, ReadyEnqueue, Unlink, CoreBut;
    var task := TaskOf(k, t).(waitingOnTimer := false, result := Timeout);
    SetTaskKeeps(k, t, task);
    var k1 := SetTask(k, t, task);
    UnlinkWaiterKeeps(k1, t);
    UnlinkShape(k1, t);
    var k2 := Unlink(k1, t);
    SetTaskKeeps(k2, t, TaskOf(k2, t).(state := Ready));
    var k3 := SetTask(k2, t, TaskOf(k2, t).(state := Ready));
    ReadyEnqueueKeeps(k3, t);
    ReadyEnqueueShape(k3, t);
    CoreFromBut(ReadyEnqueue(k3, t), t);
  }

  lemma UnlinkShape(k: Kernel, t: TaskId)
    ensures TaskOf(Unlink(k, t), t) == TaskOf(k, t).(node := Unlinked)
    ensures Unlink(k, t) == k.(tasks := Unlink(k, t).tasks, lists := Unlink(k, t).lists)
    ensures t in k.tasks ==> t in Unlink(k, t).tasks
  {
  }

  lemma ReadyEnqueueShape(k: Kernel, t: TaskId)
    requires t in k.tasks
    requires TaskOf(k, t).priority <= PRIORITY_MAX && TaskOf(k, t).state != Deleted && TaskOf(k, t).node == Unlinked
    ensures var k' := ReadyEnqueue(k, t);
            && k' == k.(tasks := k'.tasks, lists := k'.lists, mask := k'.mask)
            && TaskOf(k', t) == TaskOf(k, t).(node := Linked(ReadyList(TaskOf(k, t).priority)))
            && t in k'.tasks
  {
    hide SetBit, InsertAt;
  }

  /** Only `t` itself, the list nodes and the mask have changed. */
  ghost predicate OnlyMoves(k: Kernel, k': Kernel, t: TaskId) {
    && SameTime(k, k')
    && k'.pc == k.pc && k'.arrivals == k.arrivals
    && k'.current == k.current && k'.idle == k.idle
    && k'.lockCount == k.lockCount && k'.slice == k.slice && k'.pending == k.pending
    && (forall u | u != t :: TaskOf(k', u) == TaskOf(k, u))
    && (t in k.tasks ==> k'.tasks.Keys == k.tasks.Keys)
  }

  lemma UpdateMoves(k: Kernel, k': Kernel, t: TaskId, task: Task)
    requires k' == k.(tasks := k.tasks[t := task], lists := k'.lists, mask := k'.mask)
    ensures OnlyMoves(k, k', t) && TaskOf(k', t) == task
  {
  }

  lemma UnlinkMoves(k: Kernel, t: TaskId)
    ensures OnlyMoves(k, Unlink(k, t), t)
  {
  }

  lemma ReadyEnqueueMoves(k: Kernel, t: TaskId)
    ensures OnlyMoves(k, ReadyEnqueue(k, t), t)
  {
    hide SetBit;
  }

  lemma ExpireMoves(k: Kernel, t: TaskId)
    requires t in k.tasks
    ensures OnlyMoves(k, Expire(k, t), t)
  {
    hide Unlink, ReadyEnqueue;
    var k1 := SetTask(k, t, TaskOf(k, t).(waitingOnTimer := false, result := Timeout));
    UnlinkMoves(k1, t);
    var k2 := Unlink(k1, t);
    var k3 := SetTask(k2, t, TaskOf(k2, t).(state := Ready));
    ReadyEnqueueMoves(k3, t);
    assert OnlyMoves(k, k1, t) && OnlyMoves(k1, k2, t) && OnlyMoves(k2, k3, t);
    MovesCompose(k, k1, k2, t);
    MovesCompose(k, k2, k3, t);
    MovesCompose(k, k3, ReadyEnqueue(k3, t), t);
  }

  lemma MovesCompose(k1: Kernel, k2: Kernel, k3: Kernel, t: TaskId)
    requires OnlyMoves(k1, k2, t) && OnlyMoves(k2, k3, t)
    ensures OnlyMoves(k1, k3, t)
  {
  }

  /** A task of the timeout list is blocked and waiting on the timer: the `continue` of the wake loop is dead. */
  lemma TimeoutListIsBlocked(k: Kernel, t: TaskId)
    requires Core(k) && t in k.timeouts
    ensures t in k.tasks && TaskOf(k, t).state == Blocked && TaskOf(k, t).waitingOnTimer && t != k.idle
    ensures TaskOf(k, t).priority <= PRIORITY_MAX
    ensures PcOf(k, t).Waiting? ==> PcOf(k, t).timed
    ensures TaskOf(k, t).node.Linked? ==> TaskOf(k, t).node.list.WaitList?
    ensures TaskOf(k, t).wakeup == Low(DueOf(k, t))
  {
    hide ListsOk, MaskOk, QueuesOk, GlobalOk;
    assert TaskOk(k, t);
  }

  /** One pass of the wake loop on an expired first entry. */
  lemma WakeFirstKeeps(k: Kernel)
    requires Core(k) && AllNear(k) && k.timeouts != []
    ensures var t := k.timeouts[0];
            var k' := Expire(k.(timeouts := k.timeouts[1..]), t);
            && Core(k') && AllNear(k')
            && k'.timeouts == k.timeouts[1..]
            && (forall u :: u in k'.timeouts <==> u in k.timeouts && u != t)
            && TaskOf(k', t) == TimedOutTask(TaskOf(k, t))
            && OnlyMoves(k.(timeouts := k.timeouts[1..]), k', t)
  {
    hide ListsOk, MaskOk, TasksBut, TasksOk, TimeoutsOk, QueuesOk, GlobalOk, Expire;
    var t := k.timeouts[0];
    var rest := TimeoutRemove(k, t);
    assert rest == k.(timeouts := k.timeouts[1..]);
    TimeoutListIsBlocked(k, t);
    LockMeansRunning(k);
    CoreToBut(k, t);
    TimeoutRemoveKeeps(k, t);
    ExpireKeeps(rest, t);
    ExpireMoves(rest, t);
  }

  /** The timeout list is in deadline order, so nothing behind a first entry still to come has expired. */
  lemma NoneExpired(k: Kernel)
    requires TimeoutsOk(k) && AllNear(k)
    requires k.timeouts == [] || !Expired(Low(k.now), TaskOf(k, k.timeouts[0]).wakeup)
    ensures AllInFuture(k)
  {
    if k.timeouts != [] {
      var t := k.timeouts[0];
      assert t in k.timeouts;
      ComparesLikeAbsoluteTime(k.now, DueOf(k, t));
      forall u | u in k.timeouts ensures k.now < DueOf(k, u) {
        var i :| 0 <= i < |k.timeouts| && k.timeouts[i] == u;
      }
    }
  }

  /** After the tick has advanced by less than half the 32-bit range, `sched_wake_expired` wakes, with result
      TIMEOUT, exactly the tasks whose absolute deadline has passed, however often the counter has wrapped. */
  lemma {:induction false} WakeExpiredExact(k: Kernel)
    requires Core(k) && AllNear(k)
    ensures Core(WakeExpired(k)) && AllInFuture(WakeExpired(k))
    ensures forall t :: t in WakeExpired(k).timeouts <==> t in k.timeouts && DueOf(k, t) > k.now
    ensures forall t :: TaskOf(WakeExpired(k), t) ==
                        if t in k.timeouts && DueOf(k, t) <= k.now then TimedOutTask(TaskOf(k, t)) else TaskOf(k, t)
    ensures WakeExpired(k) == k.(tasks := WakeExpired(k).tasks, lists := WakeExpired(k).lists,
                                 mask := WakeExpired(k).mask, timeouts := WakeExpired(k).timeouts)
    decreases |k.timeouts|
  {
    hide ListsOk, MaskOk, TasksOk, QueuesOk, GlobalOk, Expire;
    if k.timeouts == [] || !Expired(Low(k.now), TaskOf(k, k.timeouts[0]).wakeup) {
      NoneExpired(k);
    } else {
      var t := k.timeouts[0];
      TimeoutListIsBlocked(k, t);
      ComparesLikeAbsoluteTime(k.now, DueOf(k, t));
      WakeFirstKeeps(k);
      var k' := Expire(k.(timeouts := k.timeouts[1..]), t);
      WakeExpiredExact(k');
      assert forall u :: DueOf(k', u) == DueOf(k, u);
    }
  }

  lemma AfterTickNear(k: Kernel, now: nat)
    requires AllInFuture(k) && k.now <= now < k.now + HALF
    ensures AllNear(k.(now := now))
  {
  }

  /** After the first part of a trap every deadline is to come again. */
  lemma TrapExpireKeeps(k: Kernel, systick: bool, now: nat)
    requires Inv(k) && k.now <= now < k.now + HALF
    ensures Inv(TrapExpire(k, systick, now))
    ensures TrapExpire(k, systick, now).current == k.current
  {
    hide Core, WakeExpired;
    var ticked := if systick then k.(now := now) else k;
    TimeKeeps(k, now);
    AfterTickNear(k, now);
    AfterTickNear(k, k.now);
    WakeExpiredExact(ticked);
  }

  /** The decision keeps the invariant, whatever the callbacks before it have woken. */
  lemma DecideKeepsInv(k: Kernel, systick: bool)
    requires Inv(k) && k.current.Some?
    ensures Inv(Decide(k, systick)) && CurrentIs(Decide(k, systick), Running)
  {
    hide Core, Decide;
    DecideKeeps(k, systick);
    DecideKeepsTime(k, systick);
    assert forall t :: DueOf(Decide(k, systick), t) == DueOf(k, t);
  }

  /** A trap keeps the invariant and leaves a running task current, if the tick jump is below half the range. */
  lemma TrapKeeps(k: Kernel, systick: bool, now: nat)
    requires Inv(k) && k.current.Some? && k.now <= now < k.now + HALF
    ensures Inv(Trap(k, systick, now)) && CurrentIs(Trap(k, systick, now), Running)
  {
    hide Inv, Decide, TrapExpire;
    TrapExpireKeeps(k, systick, now);
    DecideKeepsInv(TrapExpire(k, systick, now), systick);
  }
}
