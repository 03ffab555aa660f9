/** A kernel with one bit of its ready mask yet to be set. A step that picks no task never reads the mask, so it does to
    that kernel what it does to the mended one, and the bit can be mended afterwards just as well. */
module KernelMended {
  import opened Common
  import opened TickTime
  import opened Bitmap
  import opened KernelState
  import opened KernelInvariant
  import opened KernelSteps
  import opened KernelBlocking
  import opened KernelWaking
  import opened KernelRuns
  import opened KernelFrames

  // ----- the mask, bit by bit

  /** A bit operation acts on the lowest bit or on the half above it. */
  lemma Halves(m: nat, p: nat)
    ensures SetBit(m, p) == if p == 0 then 2 * (m / 2) + 1 else 2 * SetBit(m / 2, p - 1) + m % 2
    ensures ClearBit(m, p) == if p == 0 then 2 * (m / 2) else 2 * ClearBit(m / 2, p - 1) + m % 2
    ensures SetBit(m, p) / 2 == if p == 0 then m / 2 else SetBit(m / 2, p - 1)
    ensures ClearBit(m, p) / 2 == if p == 0 then m / 2 else ClearBit(m / 2, p - 1)
    ensures SetBit(m, p) % 2 == (if p == 0 then 1 else m % 2)
    ensures ClearBit(m, p) % 2 == (if p == 0 then 0 else m % 2)
  {
  }

  lemma {:induction false} SetBitSame(m: nat, p: nat)
    requires Has(m, p)
    ensures SetBit(m, p) == m
  {
    if p > 0 {
      SetBitSame(m / 2, p - 1);
    }
  }

  lemma {:induction false} SetBitCommutes(m: nat, p: nat, q: nat)
    ensures SetBit(SetBit(m, p), q) == SetBit(SetBit(m, q), p)
  {
    Halves(m, p);
    Halves(m, q);
    Halves(SetBit(m, p), q);
    Halves(SetBit(m, q), p);
    hide SetBit;
    if p > 0 && q > 0 {
      SetBitCommutes(m / 2, p - 1, q - 1);
    }
  }

  lemma {:induction false} ClearUndoesSet(m: nat, p: nat)
    ensures ClearBit(SetBit(m, p), p) == ClearBit(m, p)
  {
    Halves(m, p);
    Halves(SetBit(m, p), p);
    hide SetBit, ClearBit;
    if p > 0 {
      ClearUndoesSet(m / 2, p - 1);
    }
  }

  lemma {:induction false} ClearAfterSet(m: nat, p: nat, q: nat)
    requires p != q
    ensures ClearBit(SetBit(m, p), q) == SetBit(ClearBit(m, q), p)
  {
    Halves(m, p);
    Halves(m, q);
    Halves(SetBit(m, p), q);
    Halves(ClearBit(m, q), p);
    hide SetBit, ClearBit;
    if p > 0 && q > 0 {
      ClearAfterSet(m / 2, p - 1, q - 1);
    }
  }

  lemma {:induction false} SetBitGrows(m: nat, p: nat)
    ensures m <= SetBit(m, p)
  {
    if p > 0 {
      SetBitGrows(m / 2, p - 1);
    }
  }

  /** The kernel with bit `p` set if its list is not empty. */
  function Mended(g: Kernel, p: nat): Kernel {
    g.(mask := if At(g, ReadyList(p)) == [] then g.mask else SetBit(g.mask, p))
  }

  // ----- what the parts of a step do to a kernel whose mask has yet to be mended

  lemma EnqueueMended(g: Kernel, t: TaskId, p: nat)
    ensures Mended(ReadyEnqueue(g, t), p) == ReadyEnqueue(Mended(g, p), t)
  {
    hide SetBit;
    var r := TaskOf(g, t).priority;
    SetBitCommutes(g.mask, p, r);
    SetBitHas(g.mask, p, p);
    SetBitSame(SetBit(g.mask, p), p);
  }

  lemma RemoveMended(g: Kernel, t: TaskId, p: nat)
    requires TaskOf(g, t).node.Linked? && TaskOf(g, t).node.list.ReadyList? ==>
               TaskOf(g, t).node.list.priority == TaskOf(g, t).priority
    ensures Mended(ReadyRemove(g, t), p) == ReadyRemove(Mended(g, p), t)
  {
    hide SetBit, ClearBit;
    var r := TaskOf(g, t).priority;
    if p == r {
      ClearUndoesSet(g.mask, p);
    } else {
      ClearAfterSet(g.mask, p, r);
    }
  }

  lemma UnlinkMended(g: Kernel, t: TaskId, p: nat)
    requires TaskOf(g, t).node.Linked? ==> !TaskOf(g, t).node.list.ReadyList?
    ensures Mended(Unlink(g, t), p) == Unlink(Mended(g, p), t)
  {
    hide SetBit;
  }

  lemma StepDownMended(g: Kernel, p: nat)
    requires g.current.Some?
    ensures Mended(StepDown(g), p) == StepDown(Mended(g, p))
  {
    hide SetBit, ReadyEnqueue;
    var c := g.current.value;
    EnqueueMended(SetTask(g, c, TaskOf(g, c).(state := Ready)), c, p);
  }

  lemma YieldMended(g: Kernel, p: nat)
    ensures Mended(Yield(g), p) == Yield(Mended(g, p))
  {
    hide SetBit, StepDown;
    if g.current.Some? {
      StepDownMended(g, p);
    }
  }

  lemma ExpireMended(g: Kernel, t: TaskId, p: nat)
    requires TaskOf(g, t).node.Linked? ==> TaskOf(g, t).node.list.WaitList?
    ensures Mended(Expire(g, t), p) == Expire(Mended(g, p), t)
  {
    hide SetBit, ReadyEnqueue, Unlink;
    var g1 := SetTask(g, t, TaskOf(g, t).(waitingOnTimer := false, result := Timeout));
    UnlinkMended(g1, t, p);
    var g2 := Unlink(g1, t);
    EnqueueMended(SetTask(g2, t, TaskOf(g2, t).(state := Ready)), t, p);
  }

  lemma {:induction false} WakeExpiredMended(g: Kernel, p: nat)
    requires Core(Mended(g, p)) && AllNear(Mended(g, p))
    ensures Mended(WakeExpired(g), p) == WakeExpired(Mended(g, p))
    decreases |g.timeouts|
  {
    hide SetBit, Expire, Core, AllNear;
    if g.timeouts != [] && Expired(Low(g.now), TaskOf(g, g.timeouts[0]).wakeup) {
      var t := g.timeouts[0];
      var rest := g.(timeouts := g.timeouts[1..]);
      TimeoutListIsBlocked(Mended(g, p), t);
      WakeFirstKeeps(Mended(g, p));
      ExpireMended(rest, t, p);
      ExpireKeepsTimeouts(rest, t);
      WakeExpiredMended(Expire(rest, t), p);
    }
  }

  lemma AskedMended(g: Kernel, t: TaskId, result: WaitResult, p: nat)
    ensures var asked := if IsLocked(g) then g.(pending := true) else g;
            var k := Mended(g, p);
            var asked' := if IsLocked(k) then k.(pending := true) else k;
            Mended(SetTask(asked, t, TaskOf(asked, t).(result := result)), p) ==
            SetTask(asked', t, TaskOf(asked', t).(result := result))
  {
    hide SetBit;
  }

  lemma WakeResultMended(g: Kernel, q: QueueId, result: WaitResult, p: nat)
    ensures Mended(WakeResult(g, q, result).0, p) == WakeResult(Mended(g, p), q, result).0
    ensures WakeResult(g, q, result).1 == WakeResult(Mended(g, p), q, result).1
  {
    hide SetBit, ReadyEnqueue, Without;
    if At(g, WaitList(q)) != [] {
      var t := At(g, WaitList(q))[0];
      var off := TimeoutRemove(UnlinkFirst(g, WaitList(q)), t);
      var ready := SetTask(off, t, TaskOf(off, t).(waitingOnTimer := false, state := Ready));
      assert WakeOne(g, q) == (ReadyEnqueue(ready, t), Some(t));
      assert WakeOne(Mended(g, p), q) == (ReadyEnqueue(Mended(ready, p), t), Some(t));
      EnqueueMended(ready, t, p);
      hide WakeOne, UnlinkFirst, At;
      AskedMended(ReadyEnqueue(ready, t), t, result, p);
    }
  }

  lemma {:induction false} WakeAllMended(g: Kernel, q: QueueId, result: WaitResult, p: nat)
    ensures Mended(WakeAll(g, q, result).0, p) == WakeAll(Mended(g, p), q, result).0
    decreases |At(g, WaitList(q))|
  {
    hide SetBit, WakeResult;
    if At(g, WaitList(q)) != [] {
      WakeResultShrinks(g, q, result);
      WakeResultMended(g, q, result, p);
      WakeAllMended(WakeResult(g, q, result).0, q, result, p);
    }
  }

  /** The walks of the insertions do not look at the mask. */
  lemma {:induction false} SamePlaces(g: Kernel, h: Kernel, s: seq<TaskId>, priority: nat, wakeup: uint32)
    requires h.tasks == g.tasks
    ensures WaiterPosition(h, s, priority) == WaiterPosition(g, s, priority)
    ensures TimeoutPosition(h, s, wakeup) == TimeoutPosition(g, s, wakeup)
  {
    if s != [] {
      SamePlaces(g, h, s[1..], priority, wakeup);
    }
  }

  lemma TimeoutInsertMended(g: Kernel, t: TaskId, p: nat)
    ensures Mended(TimeoutInsert(g, t), p) == TimeoutInsert(Mended(g, p), t)
  {
    hide SetBit, Without, InsertAt, TimeoutPosition;
    SamePlaces(g, Mended(g, p), Without(g.timeouts, t), 0, TaskOf(g, t).wakeup);
  }

  lemma BlockCurrentMended(g: Kernel, q: QueueId, p: nat)
    requires g.current.Some? ==> TaskOf(g, g.current.value).node == Unlinked
    ensures Mended(BlockCurrent(g, q), p) == BlockCurrent(Mended(g, p), q)
  {
    hide SetBit, InsertAt, WaiterPosition, ReadyRemove;
    if g.current.Some? {
      var c := g.current.value;
      var blocked := SetTask(g, c, TaskOf(g, c).(state := Blocked, waitingOnTimer := false));
      SamePlaces(blocked, Mended(blocked, p), At(g, WaitList(q)), TaskOf(g, c).priority, 0);
    }
  }

  lemma HistoryMended(g: Kernel, pc: map<TaskId, Pc>, arrivals: nat, p: nat)
    ensures Mended(g.(pc := pc, arrivals := arrivals), p) == Mended(g, p).(pc := pc, arrivals := arrivals)
  {
    hide SetBit;
  }

  lemma BlockLockedMended(g: Kernel, q: QueueId, p: nat)
    requires g.current.Some? ==> TaskOf(g, g.current.value).node == Unlinked
    ensures Mended(BlockLocked(g, q).0, p) == BlockLocked(Mended(g, p), q).0
  {
    hide SetBit, BlockCurrent;
    if g.current.Some? && !IsLocked(g) {
      var c := g.current.value;
      var reset := SetTask(g, c, TaskOf(g, c).(result := NoResult));
      assert Mended(reset, p) == SetTask(Mended(g, p), c, TaskOf(g, c).(result := NoResult));
      BlockCurrentMended(reset, q, p);
      HistoryMended(BlockCurrent(reset, q), g.pc[c := Waiting(q, false, g.arrivals)], g.arrivals + 1, p);
    }
  }

  lemma BlockTimeoutMended(g: Kernel, q: QueueId, us: uint64, p: nat)
    requires g.current.Some? ==> TaskOf(g, g.current.value).node == Unlinked
    ensures Mended(BlockTimeout(g, q, us).0, p) == BlockTimeout(Mended(g, p), q, us).0
  {
    hide SetBit, BlockCurrent, TimeoutInsert, UsToTicks;
    BlockLockedMended(g, q, p);
    var blocked := BlockLocked(g, q).0;
    if blocked.current.Some? {
      var c := blocked.current.value;
      var deadline := blocked.now + UsToTicks(us);
      TimeoutInsertMended(SetTask(blocked, c, TaskOf(blocked, c).(
        wakeup := Low(deadline), waitingOnTimer := true, result := NoResult)).(
        due := blocked.due[c := deadline],
        pc := blocked.pc[c := Waiting(q, true, g.arrivals)]), c, p);
    }
  }

  lemma DelayMended(g: Kernel, until: nat, p: nat)
    requires g.current.Some? ==> TaskOf(g, g.current.value).node == Unlinked
    ensures Mended(Delay(g, until), p) == Delay(Mended(g, p), until)
  {
    hide SetBit, TimeoutInsert, ReadyRemove;
    if g.current.Some? {
      var c := g.current.value;
      var asleep := SetTask(g, c, TaskOf(g, c).(
        wakeup := Low(until), waitingOnTimer := true, result := NoResult, state := Blocked)).(
        due := g.due[c := until]);
      RemoveMended(asleep, c, p);
      TimeoutInsertMended(ReadyRemove(asleep, c), c, p);
    }
  }

  lemma CreateMended(g: Kernel, t: TaskId, priority: nat, p: nat)
    ensures Mended(Create(g, t, priority), p) == Create(Mended(g, p), t, priority)
  {
    hide SetBit, ReadyEnqueue;
    EnqueueMended(SetTask(g, t, Task(priority, Ready, Unlinked, false, 0, NoResult)), t, p);
  }

  lemma DeleteMended(g: Kernel, t: TaskId, p: nat)
    requires Core(Mended(g, p))
    ensures Mended(Delete(g, t).0, p) == Delete(Mended(g, p), t).0
  {
    hide SetBit, MarkDeleted, Core;
    if t in g.tasks && t != g.idle && TaskOf(g, t).state != Deleted {
      MarkDeletedMended(g, t, p);
    }
  }

  lemma MarkDeletedMended(g: Kernel, t: TaskId, p: nat)
    requires Core(Mended(g, p)) && t in g.tasks && t != g.idle && TaskOf(g, t).state != Deleted
    ensures Mended(MarkDeleted(g, t), p) == MarkDeleted(Mended(g, p), t)
  {
    hide SetBit, ReadyRemove, Unlink, InsertAt, Without, ListsOk, MaskOk, TimeoutsOk, QueuesOk, GlobalOk;
    assert TaskOk(Mended(g, p), t);
    if TaskOf(g, t).state == Ready {
      RemoveMended(g, t, p);
    } else {
      UnlinkMended(g, t, p);
    }
  }

  lemma ReapMended(g: Kernel, p: nat)
    ensures Mended(Reap(g), p) == Reap(Mended(g, p))
  {
    hide SetBit;
  }

  // ----- the idle task

  /** No step but a pick moves the node of the idle task. */
  lemma IdleStays(k: Kernel, op: Op)
    requires Inv(k) && Enabled(k, op) && !op.DoTrap? && !op.DoDecide? && !op.DoStart?
    ensures Apply(k, op).idle == k.idle && TaskOf(Apply(k, op), k.idle).node == TaskOf(k, k.idle).node
  {
    hide ListsOk, MaskOk, TasksOk, TimeoutsOk, QueuesOk, AllInFuture, TrapExpire, BlockTimeout, Delay, WakeResult,
         WakeAll, ReadyEnqueue, MarkDeleted, Yield;
    match op
    case DoExpire(systick, now) => ExpireKeepsIdle(k, systick, now);
    case DoYield => YieldKeepsIdle(k);
    case DoLock =>
    case DoUnlock =>
    case DoBlock(q, us) => BlockTimeoutMoves(k, q, us);
    case DoSleep(until) => DelayKeepsIdle(k, until);
    case DoWake(q, result, isr) =>
      WakeKeepsIdle(k, q, result);
      WakeKeepsIdle(k, q, Object);
    case DoWakeAll(q, result) => WakeAllKeepsIdle(k, q, result);
    case DoResume =>
    case DoCreate(t, priority) =>
      ReadyEnqueueMoves(SetTask(k, t, Task(priority, Ready, Unlinked, false, 0, NoResult)), t);
    case DoDelete(t) =>
      if Delete(k, t).1 == Ok {
        MarkDeletedKeeps(k, t);
        var base := k.(timeouts := Without(k.timeouts, t), pc := k.pc - {t});
        assert TaskOf(MarkDeleted(k, t), k.idle) == TaskOf(base, k.idle);
      }
    case DoReap =>
      if At(k, DeletedList) != [] {
        DeadIsDeleted(k, At(k, DeletedList)[0]);
      }
  }

  lemma ExpireKeepsIdle(k: Kernel, systick: bool, now: nat)
    requires Inv(k) && k.now <= now < k.now + HALF
    ensures TrapExpire(k, systick, now).idle == k.idle
    ensures TaskOf(TrapExpire(k, systick, now), k.idle) == TaskOf(k, k.idle)
  {
    hide Core, WakeExpired, AllInFuture, AllNear;
    TimeKeeps(k, now);
    AfterTickNear(k, now);
    AfterTickNear(k, k.now);
    WakeExpiredExact(if systick then k.(now := now) else k);
    if k.idle in k.timeouts {
      TimeoutListIsBlocked(k, k.idle);
    }
  }

  lemma YieldKeepsIdle(k: Kernel)
    ensures Yield(k).idle == k.idle && TaskOf(Yield(k), k.idle) == TaskOf(k, k.idle)
  {
    hide ReadyEnqueue;
    if k.current.Some? {
      var c := k.current.value;
      ReadyEnqueueMoves(SetTask(k, c, TaskOf(k, c).(state := Ready)), c);
    }
  }

  lemma DelayKeepsIdle(k: Kernel, until: nat)
    requires Core(k) && MayBlock(k)
    ensures Delay(k, until).idle == k.idle && TaskOf(Delay(k, until), k.idle) == TaskOf(k, k.idle)
  {
    hide Core, TimeoutInsert;
    DelayMoves(k, until);
    TimeoutInsertOnlyTimeouts();
  }

  lemma WakeKeepsIdle(k: Kernel, q: QueueId, result: WaitResult)
    requires Core(k) && (result == Object || result == Destroyed)
    ensures WakeResult(k, q, result).0.idle == k.idle
    ensures TaskOf(WakeResult(k, q, result).0, k.idle) == TaskOf(k, k.idle)
  {
    hide Core, WakeResult;
    if At(k, WaitList(q)) == [] {
      WakeNobody(k, q, result);
    } else {
      WaiterIsWaiting(k, At(k, WaitList(q))[0], q);
      WokenMoves(k, q, result);
    }
  }

  lemma {:induction false} WakeAllKeepsIdle(k: Kernel, q: QueueId, result: WaitResult)
    requires Inv(k) && (result == Object || result == Destroyed)
    ensures WakeAll(k, q, result).0.idle == k.idle
    ensures TaskOf(WakeAll(k, q, result).0, k.idle) == TaskOf(k, k.idle)
    decreases |At(k, WaitList(q))|
  {
    hide Inv, WakeResult;
    if At(k, WaitList(q)) != [] {
      InvTime(k);
      WakeResultShrinks(k, q, result);
      WakeKeepsIdle(k, q, result);
      WakeKeepsInv(k, q, result, false);
      WakeAllKeepsIdle(WakeResult(k, q, result).0, q, result);
    }
  }

  // ----- steps in the gap

  /** A step that picks no task does to a kernel in the gap what it does to the mended one. */
  lemma ApplyMended(g: Kernel, op: Op, p: nat)
    requires Inv(Mended(g, p)) && Enabled(g, op) && !op.DoTrap? && !op.DoDecide? && !op.DoStart?
    ensures Mended(Apply(g, op), p) == Apply(Mended(g, p), op)
  {
    hide Core, AllInFuture, SetBit, TrapExpire, Yield, BlockTimeout, Delay, WakeResult, WakeAll, Create, Delete, Reap;
    match op
    case DoExpire(systick, now) => TrapExpireMended(g, systick, now, p);
    case DoYield => YieldMended(g, p);
    case DoLock =>
    case DoUnlock =>
    case DoBlock(q, us) =>
      RunningTaskOk(Mended(g, p));
      BlockTimeoutMended(g, q, us, p);
    case DoSleep(until) =>
      RunningTaskOk(Mended(g, p));
      DelayMended(g, until, p);
    case DoWake(q, result, isr) =>
      WakeResultMended(g, q, result, p);
      WakeResultMended(g, q, Object, p);
    case DoWakeAll(q, result) => WakeAllMended(g, q, result, p);
    case DoResume =>
    case DoCreate(t, priority) => CreateMended(g, t, priority, p);
    case DoDelete(t) => DeleteMended(g, t, p);
    case DoReap => ReapMended(g, p);
  }

  lemma TrapExpireMended(g: Kernel, systick: bool, now: nat, p: nat)
    requires Inv(Mended(g, p)) && g.now <= now < g.now + HALF
    ensures Mended(TrapExpire(g, systick, now), p) == TrapExpire(Mended(g, p), systick, now)
  {
    hide Core, WakeExpired, AllInFuture, AllNear, SetBit;
    var k := Mended(g, p);
    TimeKeeps(k, now);
    AfterTickNear(k, now);
    AfterTickNear(k, k.now);
    WakeExpiredMended(if systick then g.(now := now) else g, p);
  }
}
