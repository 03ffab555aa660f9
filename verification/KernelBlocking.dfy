/** Blocking, waking, sleeping, creating and deleting keep the kernel invariant; a waiter goes behind every
    waiter of its priority or higher, and a wake takes the first in that order. */
module KernelBlocking {
  import opened Common
  import opened TickTime
  import opened Bitmap
  import opened KernelState
  import opened KernelInvariant
  import opened KernelSteps

  // ----- blocking

  /** The insertion point splits the queue: everyone of at least this priority before, everyone lower after. */
  lemma {:induction false} WaiterPositionSplits(k: Kernel, s: seq<TaskId>, priority: nat)
    requires forall i, j | 0 <= i < j < |s| :: TaskOf(k, s[i]).priority >= TaskOf(k, s[j]).priority
    ensures var at := WaiterPosition(k, s, priority);
            && (forall i | 0 <= i < at :: TaskOf(k, s[i]).priority >= priority)
            && (forall i | at <= i < |s| :: TaskOf(k, s[i]).priority < priority)
  {
    if s != [] && TaskOf(k, s[0]).priority >= priority {
      WaiterPositionSplits(k, s[1..], priority);
      var at := WaiterPosition(k, s[1..], priority);
      assert forall i | 1 <= i < |s| :: s[i] == s[1..][i - 1];
    }
  }

  lemma BlockKeepsQueue(k: Kernel, k': Kernel, q: QueueId, t: TaskId)
    requires QueueOk(k, q) && NoDup(At(k, WaitList(q))) && t !in At(k, WaitList(q))
    requires var s := At(k, WaitList(q));
             At(k', WaitList(q)) == InsertAt(s, WaiterPosition(k, s, TaskOf(k, t).priority), t)
    requires TaskOf(k', t).priority == TaskOf(k, t).priority
    requires forall u | u in At(k, WaitList(q)) ::
               && TaskOf(k', u).priority == TaskOf(k, u).priority
               && ArrivalOf(k', u) == ArrivalOf(k, u) < ArrivalOf(k', t)
    ensures QueueOk(k', q)
  {
    hide InsertAt;
    var s := At(k, WaitList(q));
    var at := WaiterPosition(k, s, TaskOf(k, t).priority);
    QueueByPriority(k, q);
    WaiterPositionSplits(k, s, TaskOf(k, t).priority);
    var s' := InsertAt(s, at, t);
    InsertMembers(s, at, t);
    forall i, j | 0 <= i < j < |s'| ensures Before(k', s'[i], s'[j]) {
      InsertAtIndex(s, at, t, i);
      InsertAtIndex(s, at, t, j);
      if i != at && j != at {
        assert Before(k, s[if i < at then i else i - 1], s[if j < at then j else j - 1]);
      }
    }
  }

  lemma QueueByPriority(k: Kernel, q: QueueId)
    requires QueueOk(k, q)
    ensures var s := At(k, WaitList(q));
            forall i, j | 0 <= i < j < |s| :: TaskOf(k, s[i]).priority >= TaskOf(k, s[j]).priority
  {
    var s := At(k, WaitList(q));
    forall i, j | 0 <= i < j < |s| ensures TaskOf(k, s[i]).priority >= TaskOf(k, s[j]).priority {
      assert Before(k, s[i], s[j]);
    }
  }

  /** Who may block: a running task other than the idle task. */
  ghost predicate MayBlock(k: Kernel) {
    CurrentIs(k, Running) && !CurrentIsIdle(k)
  }

  /** A task in its own code, calling: inside no blocking call yet. */
  ghost predicate Calling(k: Kernel) {
    MayBlock(k) && PcOf(k, k.current.value) == User
  }

  lemma RunningTaskOk(k: Kernel)
    requires Core(k) && CurrentIs(k, Running)
    ensures var c := k.current.value;
            && c in k.tasks && c !in k.timeouts && !TaskOf(k, c).waitingOnTimer
            && TaskOf(k, c).node == Unlinked && TaskOf(k, c).priority <= PRIORITY_MAX
            && OutcomeOk(PcOf(k, c), TaskOf(k, c).result)
  {
    hide ListsOk, MaskOk, TimeoutsOk, QueuesOk;
    assert TaskOk(k, k.current.value);
  }

  lemma GlobalNoLock(k: Kernel, k': Kernel)
    requires GlobalOk(k) && !IsLocked(k) && k'.lockCount == k.lockCount
    requires k'.current == k.current && k'.idle == k.idle && k'.slice == k.slice
    requires forall t | t in k.tasks :: t in k'.tasks
    requires forall t | t in k'.pc :: t in k'.tasks
    requires forall t :: PcOf(k', t).Waiting? ==> ArrivalOf(k', t) < k'.arrivals
    ensures GlobalOk(k')
  {
  }

  /** The state `trt_wait_q_block_locked` leaves the caller in. */
  function BlockedTask(task: Task, q: QueueId): Task {
    task.(result := NoResult, state := Blocked, waitingOnTimer := false, node := Linked(WaitList(q)))
  }

  lemma BlockCurrentShape(k: Kernel, q: QueueId)
    requires k.current.Some? && TaskOf(k, k.current.value).node == Unlinked
    requires k.current.value !in At(k, WaitList(q))
    ensures var c := k.current.value;
            var s := At(k, WaitList(q));
            var at := WaiterPosition(k, s, TaskOf(k, c).priority);
            var task := TaskOf(k, c).(state := Blocked, waitingOnTimer := false, node := Linked(WaitList(q)));
            BlockCurrent(k, q) == k.(
              tasks := k.tasks[c := task],
              lists := k.lists[WaitList(q) := InsertAt(s, at, c)])
  {
    hide InsertAt, ReadyRemove, WaiterPosition;
    var c := k.current.value;
    var s := At(k, WaitList(q));
    var blocked := SetTask(k, c, TaskOf(k, c).(state := Blocked, waitingOnTimer := false));
    SamePriorityPosition(k, blocked, s, c, TaskOf(k, c).priority);
    var at := WaiterPosition(k, s, TaskOf(k, c).priority);
    assert BlockCurrent(k, q) == Link(blocked, c, WaitList(q), at);
    assert Link(blocked, c, WaitList(q), at).tasks ==
           k.tasks[c := TaskOf(k, c).(state := Blocked, waitingOnTimer := false, node := Linked(WaitList(q)))];
  }

  lemma BlockLockedShape(k: Kernel, q: QueueId)
    requires Core(k) && MayBlock(k) && !IsLocked(k)
    ensures var c := k.current.value;
            var s := At(k, WaitList(q));
            var at := WaiterPosition(k, s, TaskOf(k, c).priority);
            && BlockLocked(k, q).1 == Ok
            && BlockLocked(k, q).0 == k.(
                 tasks := k.tasks[c := BlockedTask(TaskOf(k, c), q)],
                 lists := k.lists[WaitList(q) := InsertAt(s, at, c)],
                 pc := k.pc[c := Waiting(q, false, k.arrivals)],
                 arrivals := k.arrivals + 1)
  {
    hide Core, InsertAt, BlockCurrent;
    RunningTaskOk(k);
    var c := k.current.value;
    var s := At(k, WaitList(q));
    NotOnQueueHere(k, c, q);
    var reset := SetTask(k, c, TaskOf(k, c).(result := NoResult));
    BlockCurrentShape(reset, q);
    SamePriorityPosition(k, reset, s, c, TaskOf(k, c).priority);
    assert BlockCurrent(reset, q).tasks == k.tasks[c := BlockedTask(TaskOf(k, c), q)];
  }

  lemma NotOnQueueHere(k: Kernel, t: TaskId, q: QueueId)
    requires Core(k) && TaskOf(k, t).node == Unlinked
    ensures t !in At(k, WaitList(q)) && NoDup(At(k, WaitList(q)))
  {
    hide MaskOk, TasksOk, TimeoutsOk, QueuesOk, GlobalOk;
    NotOnList(k, t, WaitList(q));
  }

  lemma {:induction false} SamePriorityPosition(k: Kernel, k': Kernel, s: seq<TaskId>, t: TaskId, priority: nat)
    requires t !in s
    requires forall u | u != t :: TaskOf(k', u).priority == TaskOf(k, u).priority
    ensures WaiterPosition(k', s, priority) == WaiterPosition(k, s, priority)
  {
    if s != [] {
      assert s[0] in s;
      SamePriorityPosition(k, k', s[1..], t, priority);
    }
  }

  lemma BlockLockedKeeps(k: Kernel, q: QueueId)
    requires Core(k) && MayBlock(k)
    ensures Core(BlockLocked(k, q).0) && SameTime(k, BlockLocked(k, q).0)
  {
    hide ListsOk, MaskOk, TasksBut, TimeoutsOk, QueuesOk, GlobalOk, TaskOk, BlockLocked, InsertAt, WaiterPosition;
    LockMeansRunning(k);
    if IsLocked(k) {
      FlagsKeep(k, k.slice, k.lockCount, true);
      BlockWhileLocked(k, q);
    } else {
      var c := k.current.value;
      var k' := BlockLocked(k, q).0;
      RunningTaskOk(k);
      BlockLockedShape(k, q);
      NotOnQueueHere(k, c, q);
      var at := WaiterPosition(k, At(k, WaitList(q)), TaskOf(k, c).priority);
      var linked := Link(k, c, WaitList(q), at);
      LinkKeepsLists(k, c, WaitList(q), at);
      SameListsOk(linked, k');
      SameReadyListsKeepMask(k, k');
      ArrivalsBelow(k);
      assert forall t | t != c :: PcOf(k', t) == PcOf(k, t) && ArrivalOf(k', t) == ArrivalOf(k, t);
      BlockKeepsQueues(k, k', q, c);
      TimeoutsInTasks(k);
      SameTimeoutsOk(k, k');
      GlobalNoLock(k, k');
      CoreToBut(k, c);
      OthersKeep(k, k', c);
      UntimedWaiterOk(k', c, q);
      CoreFromBut(k', c);
    }
  }

  lemma UntimedWaiterOk(k: Kernel, t: TaskId, q: QueueId)
    requires TaskOf(k, t).state == Blocked && TaskOf(k, t).node == Linked(WaitList(q)) && t != k.idle
    requires TaskOf(k, t).priority <= PRIORITY_MAX && !TaskOf(k, t).waitingOnTimer && t !in k.timeouts
    requires TaskOf(k, t).result == NoResult && PcOf(k, t).Waiting? && PcOf(k, t).queue == q && !PcOf(k, t).timed
    ensures TaskOk(k, t)
  {
  }

  lemma BlockWhileLocked(k: Kernel, q: QueueId)
    requires IsLocked(k) && k.current.Some?
    ensures BlockLocked(k, q) == (k.(pending := true), Locked)
  {
  }

  lemma ArrivalsBelow(k: Kernel)
    requires GlobalOk(k)
    ensures forall t :: PcOf(k, t).Waiting? ==> ArrivalOf(k, t) < k.arrivals
    ensures forall t | t in k.pc :: t in k.tasks
  {
  }

  lemma WaiterIsWaiting(k: Kernel, t: TaskId, q: QueueId)
    requires Core(k)
    ensures t in At(k, WaitList(q)) ==>
              && t in k.tasks && TaskOf(k, t).state == Blocked && t != k.idle
              && TaskOf(k, t).node == Linked(WaitList(q)) && TaskOf(k, t).priority <= PRIORITY_MAX
              && PcOf(k, t).Waiting? && PcOf(k, t).queue == q && PcOf(k, t).timed == TaskOf(k, t).waitingOnTimer
              && TaskOf(k, t).result == NoResult
  {
    hide MaskOk, TimeoutsOk, QueuesOk, GlobalOk;
    NotOnList(k, t, WaitList(q));
    if t in At(k, WaitList(q)) {
      assert TaskOk(k, t);
    }
  }

  lemma BlockKeepsQueues(k: Kernel, k': Kernel, q: QueueId, c: TaskId)
    requires Core(k) && c !in At(k, WaitList(q))
    requires var s := At(k, WaitList(q));
             At(k', WaitList(q)) == InsertAt(s, WaiterPosition(k, s, TaskOf(k, c).priority), c)
    requires forall r | r != q :: At(k', WaitList(r)) == At(k, WaitList(r))
    requires TaskOf(k', c).priority == TaskOf(k, c).priority && TaskOf(k, c).node == Unlinked
    requires forall u | u != c :: TaskOf(k', u).priority == TaskOf(k, u).priority && ArrivalOf(k', u) == ArrivalOf(k, u)
    requires ArrivalOf(k', c) == k.arrivals
    ensures QueuesOk(k')
  {
    hide MaskOk, TimeoutsOk, TasksOk;
    forall u | u in At(k, WaitList(q)) ensures ArrivalOf(k, u) < k.arrivals {
      WaiterIsWaiting(k, u, q);
    }
    NotOnList(k, c, WaitList(q));
    assert QueueOk(k, q);
    BlockKeepsQueue(k, k', q, c);
    forall r ensures QueueOk(k', r) {
      if r != q {
        NotOnList(k, c, WaitList(r));
        WithoutAbsent(At(k, WaitList(r)), c);
        assert QueueOk(k, r);
        ShorterQueueOk(k, k', r, c);
      }
    }
  }

  // ----- timed blocking

  /** Among deadlines all to come within half the range, the insertion point is the sorted one. */
  lemma {:induction false} TimeoutPositionSplits(k: Kernel, s: seq<TaskId>, deadline: nat)
    requires forall i, j | 0 <= i < j < |s| :: DueOf(k, s[i]) <= DueOf(k, s[j])
    requires forall t | t in s :: TaskOf(k, t).wakeup == Low(DueOf(k, t)) && k.now < DueOf(k, t) < k.now + HALF
    requires k.now < deadline < k.now + HALF
    ensures var at := TimeoutPosition(k, s, Low(deadline));
            && (forall i | 0 <= i < at :: DueOf(k, s[i]) <= deadline)
            && (forall i | at <= i < |s| :: deadline < DueOf(k, s[i]))
  {
    if s != [] {
      assert s[0] in s;
      ComparesLikeAbsoluteTime(deadline, DueOf(k, s[0]));
      if deadline >= DueOf(k, s[0]) {
        assert forall t | t in s[1..] :: t in s;
        TimeoutPositionSplits(k, s[1..], deadline);
        assert forall i | 1 <= i < |s| :: s[i] == s[1..][i - 1];
      }
    }
  }

  lemma TimeoutInsertShape(k: Kernel, t: TaskId)
    requires TimeoutsOk(k) && AllInFuture(k)
    requires t in k.tasks && t !in k.timeouts && TaskOf(k, t).waitingOnTimer
    requires TaskOf(k, t).wakeup == Low(DueOf(k, t)) && k.now < DueOf(k, t) < k.now + HALF
    ensures TimeoutInsert(k, t) == k.(timeouts := TimeoutInsert(k, t).timeouts)
    ensures forall u :: u in TimeoutInsert(k, t).timeouts <==> u in k.timeouts || u == t
    ensures TimeoutsOk(TimeoutInsert(k, t))
  {
    hide InsertAt;
    WithoutAbsent(k.timeouts, t);
    var at := TimeoutPosition(k, k.timeouts, TaskOf(k, t).wakeup);
    InsertMembers(k.timeouts, at, t);
    TimeoutPositionSplits(k, k.timeouts, DueOf(k, t));
    TimeoutsInsertSorted(k, TimeoutInsert(k, t), t, at);
  }

  lemma TimeoutInsertKeeps(k: Kernel, t: TaskId)
    requires CoreBut(k, t) && AllInFuture(k)
    requires t in k.tasks && t !in k.timeouts && TaskOf(k, t).waitingOnTimer
    requires TaskOf(k, t).wakeup == Low(DueOf(k, t)) && k.now < DueOf(k, t) < k.now + HALF
    ensures CoreBut(TimeoutInsert(k, t), t) && AllInFuture(TimeoutInsert(k, t))
    ensures TimeoutInsert(k, t) == k.(timeouts := TimeoutInsert(k, t).timeouts)
    ensures forall u :: u in TimeoutInsert(k, t).timeouts <==> u in k.timeouts || u == t
  {
    hide ListsOk, MaskOk, TasksBut, QueuesOk, GlobalOk, TimeoutsOk, TimeoutInsert;
    var k' := TimeoutInsert(k, t);
    TimeoutInsertShape(k, t);
    SameListsOk(k, k');
    SameReadyListsKeepMask(k, k');
    SameQueuesOk(k, k');
    OthersKeep(k, k', t);
    SameGlobalOk(k, k');
  }

  lemma TimeoutsInsertSorted(k: Kernel, k': Kernel, t: TaskId, at: nat)
    requires TimeoutsOk(k) && t !in k.timeouts && at <= |k.timeouts|
    requires k' == k.(timeouts := InsertAt(k.timeouts, at, t))
    requires t in k.tasks && TaskOf(k, t).wakeup == Low(DueOf(k, t))
    requires forall i | 0 <= i < at :: DueOf(k, k.timeouts[i]) <= DueOf(k, t)
    requires forall i | at <= i < |k.timeouts| :: DueOf(k, t) < DueOf(k, k.timeouts[i])
    ensures TimeoutsOk(k')
  {
    InsertMembers(k.timeouts, at, t);
    InsertedSorted(k, k.timeouts, at, t);
    hide InsertAt;
    assert forall u :: DueOf(k', u) == DueOf(k, u);
  }

  lemma InsertedSorted(k: Kernel, s: seq<TaskId>, at: nat, t: TaskId)
    requires at <= |s| && forall i, j | 0 <= i < j < |s| :: DueOf(k, s[i]) <= DueOf(k, s[j])
    requires forall i | 0 <= i < at :: DueOf(k, s[i]) <= DueOf(k, t)
    requires forall i | at <= i < |s| :: DueOf(k, t) < DueOf(k, s[i])
    ensures var s' := InsertAt(s, at, t);
            forall i, j | 0 <= i < j < |s'| :: DueOf(k, s'[i]) <= DueOf(k, s'[j])
  {
    var s' := InsertAt(s, at, t);
    assert |s'| == |s| + 1;
    hide InsertAt, DueOf;
    forall i, j | 0 <= i < j < |s'| ensures DueOf(k, s'[i]) <= DueOf(k, s'[j]) {
      InsertAtIndex(s, at, t, i);
      InsertAtIndex(s, at, t, j);
    }
  }

  lemma BlockTicksKeeps(k: Kernel, q: QueueId, ticks: uint32)
    requires Inv(k) && MayBlock(k) && ticks < HALF
    ensures Inv(BlockTicks(k, q, ticks).0)
  {
    hide Core, CoreBut, BlockLocked, TimeoutInsert;
    if ticks != 0 {
      var (blocked, e) := BlockLocked(k, q);
      BlockLockedKeeps(k, q);
      if IsLocked(k) {
        BlockWhileLocked(k, q);
      } else {
        BlockLockedShape(k, q);
        RunningTaskOk(k);
        var c := k.current.value;
        var deadline := k.now + ticks;
        var timed := SetTask(blocked, c, TaskOf(blocked, c).(
          wakeup := Low(deadline), waitingOnTimer := true, result := NoResult)).(
          due := blocked.due[c := deadline],
          pc := blocked.pc[c := Waiting(q, true, k.arrivals)]);
        TimedFieldsKeep(blocked, timed, c);
        TimeoutInsertKeeps(timed, c);
        TimedWaiterOk(TimeoutInsert(timed, c), c, q);
        CoreFromBut(TimeoutInsert(timed, c), c);
      }
    }
  }

  /** Setting the timer fields of a blocked task that is not yet on the timeout list. */
  lemma TimedFieldsKeep(k: Kernel, k': Kernel, c: TaskId)
    requires Core(k) && AllInFuture(k) && c in k.tasks && c !in k.timeouts && !IsLocked(k)
    requires k' == k.(tasks := k'.tasks, due := k'.due, pc := k'.pc)
    requires k'.tasks == k.tasks[c := TaskOf(k', c)] && k'.due == k.due[c := DueOf(k', c)]
    requires TaskOf(k', c).node == TaskOf(k, c).node && TaskOf(k', c).priority == TaskOf(k, c).priority
    requires k'.pc == k.pc || (PcOf(k, c).Waiting? && PcOf(k', c).Waiting? && k'.pc == k.pc[c := PcOf(k', c)])
    requires ArrivalOf(k', c) == ArrivalOf(k, c)
    ensures CoreBut(k', c) && AllInFuture(k')
  {
    hide ListsOk, MaskOk, TasksBut, TasksOk, QueuesOk, GlobalOk, TimeoutsOk;
    assert forall t :: ArrivalOf(k', t) == ArrivalOf(k, t);
    SameListsOk(k, k');
    SameReadyListsKeepMask(k, k');
    SameQueuesOk(k, k');
    CoreToBut(k, c);
    OthersKeep(k, k', c);
    TimeoutsInTasks(k);
    assert forall t | t in k.timeouts :: DueOf(k', t) == DueOf(k, t);
    SameTimeoutsOk(k, k');
    ArrivalsBelow(k);
    GlobalNoLock(k, k');
  }

  lemma TimedWaiterOk(k: Kernel, c: TaskId, q: QueueId)
    requires TaskOf(k, c).priority <= PRIORITY_MAX && TaskOf(k, c).state == Blocked && TaskOf(k, c).waitingOnTimer
    requires TaskOf(k, c).result == NoResult && TaskOf(k, c).node == Linked(WaitList(q))
    requires c in k.timeouts && c != k.idle
    requires PcOf(k, c).Waiting? && PcOf(k, c).queue == q && PcOf(k, c).timed
    ensures TaskOk(k, c)
  {
  }

  lemma BlockTimeoutKeeps(k: Kernel, q: QueueId, us: uint64)
    requires Inv(k) && MayBlock(k) && (us != FOREVER_US ==> UsToTicks(us) < HALF)
    ensures Inv(BlockTimeout(k, q, us).0)
  {
    hide Core, BlockTicks, BlockLocked;
    if us == FOREVER_US {
      BlockLockedKeeps(k, q);
    } else {
      BlockTicksKeeps(k, q, UsToTicks(us));
    }
  }

  lemma DelayKeeps(k: Kernel, until: nat)
    requires Inv(k) && MayBlock(k) && PcOf(k, k.current.value) == User && until < k.now + HALF
    requires k.now - HALF < until
    ensures Inv(Delay(k, until))
  {
    hide Core, CoreBut, TimeoutInsert;
    LockMeansRunning(k);
    ComparesLikeAbsoluteTime(k.now, until);
    if IsLocked(k) {
      FlagsKeep(k, k.slice, k.lockCount, true);
    } else if k.now < until {
      var c := k.current.value;
      RunningTaskOk(k);
      var asleep := SetTask(k, c, TaskOf(k, c).(
        wakeup := Low(until), waitingOnTimer := true, result := NoResult, state := Blocked)).(
        due := k.due[c := until]);
      TimedFieldsKeep(k, asleep, c);
      assert ReadyRemove(asleep, c) == asleep;
      TimeoutInsertKeeps(asleep, c);
      CoreFromBut(TimeoutInsert(asleep, c), c);
    }
  }
}
