/** What the calls on the scheduler itself answer and leave: the depth of the scheduler lock over any run, a request
    made under it, and creation and deletion with their refusals. */
module KernelAnswers {
  import opened Common
  import opened TickTime
  import opened Bitmap
  import opened KernelState
  import opened KernelInvariant
  import opened KernelSteps
  import opened KernelBlocking
  import opened KernelWaking
  import opened KernelRuns
  import opened KernelFrames
  import opened KernelSchedule

  // ----- the scheduler lock

  /** The lock count after one call: a lock adds one, on 32 bits, and an unlock of a held lock takes one off. */
  function DepthAfter(count: uint32, op: Op): uint32 {
    if op.DoLock? then Low(count + 1)
    else if op.DoUnlock? && count > 0 then count - 1
    else count
  }

  function Depth(count: uint32, ops: seq<Op>): uint32
    decreases |ops|
  {
    if ops == [] then count else Depth(DepthAfter(count, ops[0]), ops[1..])
  }

  /** Nothing but locks and unlocks touches the count. */
  lemma LockStays(k: Kernel, op: Op)
    requires Inv(k) && Enabled(k, op) && !op.DoLock? && !op.DoUnlock?
    ensures Apply(k, op).lockCount == k.lockCount
  {
    hide Core, AllInFuture, TrapExpire, Decide, PickNext, BlockTimeout, WakeResult, WakeAll, ReadyEnqueue, Delete,
         TimeoutInsert, Yield, DecisionFrame;
    match op
    case DoStart =>
      LockMeansRunning(k);
      PickNextFrame(k);
      FrameLock(k, PickNext(k));
    case DoTrap(systick, now) =>
      TrapExpireCpu(k, systick, now);
      TrapExpireKeeps(k, systick, now);
      var woken := TrapExpire(k, systick, now);
      DecideFrame(woken, systick);
      FrameLock(woken, Decide(woken, systick));
    case DoExpire(systick, now) => TrapExpireCpu(k, systick, now);
    case DoDecide(systick) =>
      DecideFrame(k, systick);
      FrameLock(k, Decide(k, systick));
    case DoYield =>
      YieldFrame(k);
      FrameLock(k, Yield(k));
    case DoBlock(q, us) => BlockTimeoutMoves(k, q, us);
    case DoSleep(until) => TimeoutInsertOnlyTimeouts();
    case DoWake(_, _, _) => CallbackCpu(k, op);
    case DoWakeAll(_, _) => CallbackCpu(k, op);
    case DoResume =>
    case DoCreate(_, _) =>
      ReadyEnqueueMoves(SetTask(k, op.task, Task(op.priority, Ready, Unlinked, false, 0, NoResult)), op.task);
    case DoDelete(t) => DeleteCpu(k, t);
    case DoReap =>
  }

  lemma FrameLock(k: Kernel, k': Kernel)
    requires DecisionFrame(k, k')
    ensures k'.lockCount == k.lockCount
  {
  }

  /** The lock is as deep as the calls made on it say, over every run: locks nest, and as many unlocks undo them. */
  lemma {:induction false} LockCountIsDepth(k: Kernel, ops: seq<Op>)
    requires Inv(k) && Legal(k, ops)
    ensures Run(k, ops).lockCount == Depth(k.lockCount, ops)
    decreases |ops|
  {
    hide Inv, Enabled, Apply;
    if ops != [] {
      StepKeeps(k, ops[0]);
      if ops[0].DoLock? || ops[0].DoUnlock? {
        LockStep(k, ops[0]);
      } else {
        LockStays(k, ops[0]);
      }
      LockCountIsDepth(Apply(k, ops[0]), ops[1..]);
    }
  }

  lemma LockStep(k: Kernel, op: Op)
    requires op.DoLock? || op.DoUnlock?
    ensures Apply(k, op).lockCount == DepthAfter(k.lockCount, op)
  {
  }

  function Times(n: nat, op: Op): seq<Op> {
    if n == 0 then [] else [op] + Times(n - 1, op)
  }

  lemma {:induction false} Unlocked(m: nat, count: nat)
    requires m <= count <= UINT32_MAX
    ensures Depth(count, Times(m, DoUnlock)) == count - m
  {
    if m > 0 {
      DepthOf(count, DoUnlock, Times(m - 1, DoUnlock));
      Unlocked(m - 1, count - 1);
    }
  }

  lemma {:induction false} LockedDeep(n: nat, count: nat)
    requires count + n <= UINT32_MAX
    ensures Depth(count, Times(n, DoLock)) == count + n
  {
    if n > 0 {
      DepthOf(count, DoLock, Times(n - 1, DoLock));
      LockedDeep(n - 1, count + 1);
    }
  }

  lemma {:induction false} DepthConcat(count: uint32, a: seq<Op>, b: seq<Op>)
    ensures Depth(count, a + b) == Depth(Depth(count, a), b)
    decreases |a|
  {
    if a == [] {
      assert a + b == b;
    } else {
      assert (a + b)[1..] == a[1..] + b;
      assert (a + b)[0] == a[0];
      DepthConcat(DepthAfter(count, a[0]), a[1..], b);
    }
  }

  lemma Nested(n: nat, m: nat, count: nat)
    requires count + n <= UINT32_MAX && m <= count + n
    ensures Depth(count, Times(n, DoLock) + Times(m, DoUnlock)) == count + n - m
  {
    hide Depth, Times;
    DepthConcat(count, Times(n, DoLock), Times(m, DoUnlock));
    LockedDeep(n, count);
    Unlocked(m, count + n);
  }

  lemma DepthOf(count: uint32, op: Op, ops: seq<Op>)
    ensures Depth(count, [op] + ops) == Depth(DepthAfter(count, op), ops)
  {
    assert ([op] + ops)[1..] == ops;
  }

  /** An unlock undoes a lock: under a lock held already it leaves the kernel as it was. */
  lemma UnlockUndoesLock(k: Kernel)
    requires k.lockCount < UINT32_MAX
    ensures var k' := ReleaseLock(LockScheduler(k));
            && k'.lockCount == k.lockCount
            && (IsLocked(k) ==> k' == k)
  {
  }

  // ----- a request made under the lock

  /** A wake made while the scheduler is locked asks for the processor; otherwise it leaves the request as it is. */
  lemma WakeAsksUnderLock(k: Kernel, q: QueueId, result: WaitResult)
    requires At(k, WaitList(q)) != []
    ensures WakeResult(k, q, result).0.pending == (k.pending || IsLocked(k))
    ensures WakeResult(k, q, result).1 == Some(At(k, WaitList(q))[0])
  {
    hide ReadyEnqueue, Without;
    var t := At(k, WaitList(q))[0];
    var off := TimeoutRemove(UnlinkFirst(k, WaitList(q)), t);
    ReadyEnqueueMoves(SetTask(off, t, TaskOf(off, t).(waitingOnTimer := false, state := Ready)), t);
  }

  /** A task woken by a call made under the lock gets its due when the lock is let go: whatever runs under the lock
      after the wake, the trap of the outermost unlock's yield leaves nothing ready above the task it picks. */
  lemma WakeUnderLockIsActedOn(k: Kernel, q: QueueId, result: WaitResult, ops: seq<Op>, between: seq<Op>)
    requires Inv(k) && IsLocked(k) && At(k, WaitList(q)) != [] && (result == Object || result == Destroyed)
    requires var woken := WakeResult(k, q, result).0;
             && Legal(woken, ops) && LockedThroughout(woken, ops)
             && var held := Run(woken, ops);
                && held.lockCount == 1 && Legal(ReleaseLock(held), between)
                && var back := Run(ReleaseLock(held), between);
                   back.current == k.current && CurrentIs(back, Running) && !IsLocked(back)
    ensures var held := Run(WakeResult(k, q, result).0, ops);
            var y := Yield(Run(ReleaseLock(held), between));
            && held.current == k.current && held.pending
            && NoneOutranks(Trap(y, false, y.now)) && CurrentIs(Trap(y, false, y.now), Running)
  {
    hide Inv, Trap, WakeResult, Yield, ReleaseLock, NoneOutranks;
    var woken := WakeResult(k, q, result).0;
    InvTime(k);
    WakeAsksUnderLock(k, q, result);
    WakeKeepsInv(k, q, result, false);
    WokenMoves(k, q, result);
    LockHoldsTheProcessor(woken, ops);
    UnlockActsOnRequest(Run(woken, ops), between);
  }

  /** A yield under the lock only asks for the processor; without it the caller goes, ready, to the end of its own list,
      and the idle task, or a task that has blocked already, changes nothing before the trap. */
  lemma YieldAnswers(k: Kernel)
    requires Core(k)
    ensures IsLocked(k) ==> Yield(k) == k.(pending := true)
    ensures !IsLocked(k) && !MayBlock(k) ==> Yield(k) == k
    ensures !IsLocked(k) && MayBlock(k) ==>
              var k', c := Yield(k), k.current.value;
              && CurrentIs(k', Ready) && k'.current == k.current && k'.pending == k.pending
              && (forall id ::
                    At(k', id) == if id == ReadyList(TaskOf(k, c).priority) then At(k, id) + [c] else At(k, id))
              && (forall u | u != c :: TaskOf(k', u) == TaskOf(k, u))
  {
    hide Core, SetBit;
    if MayBlock(k) {
      RunningTaskOk(k);
      AppendIsInsert(At(k, ReadyList(TaskOf(k, k.current.value).priority)), k.current.value);
    }
  }

  // ----- creation and deletion

  /** A created task is ready, of the priority asked for, at the end of that priority's list; a priority above the
      highest creates nothing. */
  lemma CreateAnswers(k: Kernel, t: TaskId, priority: nat)
    requires t !in k.tasks
    ensures var k' := Create(k, t, priority);
            if priority > PRIORITY_MAX then k' == k
            else
              && k'.tasks.Keys == k.tasks.Keys + {t}
              && TaskOf(k', t).priority == priority && TaskOf(k', t).state == Ready
              && (forall id :: At(k', id) == if id == ReadyList(priority) then At(k, id) + [t] else At(k, id))
              && (forall u | u != t :: TaskOf(k', u) == TaskOf(k, u))
              && k'.current == k.current && k'.timeouts == k.timeouts
  {
    hide SetBit;
    var s := At(k, ReadyList(priority));
    AppendIsInsert(s, t);
  }

  /** The codes of a deletion: no such task or the idle task; a task deleted already; the caller itself under the
      scheduler lock. All other deletions succeed, and the caller's own asks for the processor. */
  lemma DeleteAnswers(k: Kernel, t: TaskId)
    requires Inv(k)
    ensures var (k', code) := Delete(k, t);
            && (code == Invalid <==> t !in k.tasks || t == k.idle)
            && (code == BadState <==> t in k.tasks && t in At(k, DeletedList))
            && (code == Locked <==> code != Invalid && code != BadState && k.current == Some(t) && IsLocked(k))
            && (code == Ok <==> code != Invalid && code != BadState && code != Locked)
            && (code != Ok ==> k' == k)
            && (code == Ok ==>
                  && TaskOf(k', t) == DeadTask(TaskOf(k, t)) && t in At(k', DeletedList)
                  && (k.current == Some(t) ==> k'.pending)
                  && (k.current != Some(t) ==> k'.pending == k.pending)
                  && forall u | u != t :: TaskOf(k', u) == TaskOf(k, u))
  {
    hide Core, AllInFuture, MarkDeleted;
    DeadIsDeleted(k, t);
    DeletedIsListed(k, t);
    if Delete(k, t).1 == Ok {
      DeleteMoves(k, t);
      DeleteKeeps(k, t);
      MarkDeletedKeeps(k, t);
      var k' := Delete(k, t).0;
      DeletedIsListed(k', t);
      assert t in k'.tasks;
    }
  }

  lemma DeletedIsListed(k: Kernel, t: TaskId)
    requires Core(k)
    ensures t in k.tasks && TaskOf(k, t).state == Deleted ==> t in At(k, DeletedList)
  {
    hide MaskOk, TimeoutsOk, QueuesOk, GlobalOk;
    NotOnList(k, t, DeletedList);
    if t in k.tasks {
      assert TaskOk(k, t);
    }
  }
}
