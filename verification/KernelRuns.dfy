/** The kernel as a transition system: every operation a task, a trap or an interrupt can make, and the
    invariant over every finite run of them from boot. */
module KernelRuns {
  import opened Common
  import opened TickTime
  import opened Bitmap
  import opened KernelState
  import opened KernelInvariant
  import opened KernelSteps
  import opened KernelBlocking
  import opened KernelWaking

  datatype Op =
    | DoStart
    | DoTrap(systick: bool, now: nat)
    | DoExpire(systick: bool, now: nat)
    | DoDecide(systick: bool)
    | DoYield
    | DoLock
    | DoUnlock
    | DoBlock(queue: QueueId, us: uint64)
    | DoSleep(until: nat)
    | DoWake(queue: QueueId, result: WaitResult, isr: bool)
    | DoWakeAll(queue: QueueId, result: WaitResult)
    | DoResume
    | DoCreate(task: TaskId, priority: nat)
    | DoDelete(task: TaskId)
    | DoReap

  /** When an operation can happen. `DoUnlock` is the critical section of `sched_unlock`: the yield it may owe is a
      `DoYield` of its own, with anything in between. Task code runs only as the running current task; wakes and
      deletions also come from interrupts, and with creations they can precede the start. A trap with timer callbacks is
      its two parts with their wakes in between. Waits, sleeps and tick jumps stay below half the 32-bit range. */
  ghost predicate Enabled(k: Kernel, op: Op) {
    if op.DoStart? then k.current.None?
    else if op.DoCreate? then op.task !in k.tasks
    else
      && (k.current.Some? || op.DoDelete? || op.DoWake? || op.DoWakeAll?)
      && match op
         case DoTrap(systick, now) => k.now <= now < k.now + HALF && (!systick ==> now == k.now)
         case DoExpire(systick, now) => k.now <= now < k.now + HALF && (!systick ==> now == k.now)
         case DoYield => CurrentIs(k, Running)
         case DoLock => MayBlock(k)
         case DoUnlock => CurrentIs(k, Running)
         case DoBlock(_, us) =>
           Calling(k) && (us != FOREVER_US ==> UsToTicks(us) < HALF)
         case DoSleep(until) =>
           Calling(k) && k.now - HALF < until < k.now + HALF
         case DoWake(_, result, isr) => (result == Object || result == Destroyed) && (isr ==> result == Object)
         case DoWakeAll(_, result) => result == Object || result == Destroyed
         case DoResume => CurrentIs(k, Running) && PcOf(k, k.current.value).Waiting?
         case DoDelete(t) => k.current == Some(t) ==> CurrentIs(k, Running) && PcOf(k, t) == User
         case DoReap => CurrentIsIdle(k) && CurrentIs(k, Running)
         case _ => true
  }

  function Apply(k: Kernel, op: Op): Kernel {
    match op
    case DoStart => PickNext(k)
    case DoTrap(systick, now) => Trap(k, systick, now)
    case DoExpire(systick, now) => TrapExpire(k, systick, now)
    case DoDecide(systick) => Decide(k, systick)
    case DoYield => Yield(k)
    case DoLock => LockScheduler(k)
    case DoUnlock => ReleaseLock(k)
    case DoBlock(q, us) => BlockTimeout(k, q, us).0
    case DoSleep(until) => Delay(k, until)
    case DoWake(q, result, isr) => if isr then WakeFromIsr(k, q).0 else WakeResult(k, q, result).0
    case DoWakeAll(q, result) => WakeAll(k, q, result).0
    case DoResume => Resume(k)
    case DoCreate(t, priority) => Create(k, t, priority)
    case DoDelete(t) => Delete(k, t).0
    case DoReap => Reap(k)
  }

  lemma StepKeeps(k: Kernel, op: Op)
    requires Inv(k) && Enabled(k, op)
    ensures Inv(Apply(k, op))
  {
    hide Inv;
    match op
    case DoStart => StartKeeps(k);
    case DoTrap(systick, now) => TrapKeeps(k, systick, now);
    case DoExpire(systick, now) => TrapExpireKeeps(k, systick, now);
    case DoDecide(systick) => DecideKeepsInv(k, systick);
    case DoYield => YieldKeeps(k);
    case DoLock => LockKeeps(k);
    case DoUnlock => ReleaseKeeps(k);
    case DoBlock(q, us) => BlockTimeoutKeeps(k, q, us);
    case DoSleep(until) => DelayKeeps(k, until);
    case DoWake(q, result, isr) => WakeKeepsInv(k, q, result, isr);
    case DoWakeAll(q, result) => WakeAllKeeps(k, q, result);
    case DoResume => ResumeKeeps(k);
    case DoCreate(t, priority) => CreateKeeps(k, t, priority);
    case DoDelete(t) => DeleteKeeps(k, t);
    case DoReap => ReapKeeps(k);
  }

  // ----- runs

  ghost predicate Legal(k: Kernel, ops: seq<Op>)
    decreases |ops|
  {
    ops != [] ==> Enabled(k, ops[0]) && Legal(Apply(k, ops[0]), ops[1..])
  }

  function Run(k: Kernel, ops: seq<Op>): Kernel
    decreases |ops|
  {
    if ops == [] then k else Run(Apply(k, ops[0]), ops[1..])
  }

  lemma {:induction false} RunKeeps(k: Kernel, ops: seq<Op>)
    requires Inv(k) && Legal(k, ops)
    ensures Inv(Run(k, ops))
    decreases |ops|
  {
    if ops != [] {
      StepKeeps(k, ops[0]);
      RunKeeps(Apply(k, ops[0]), ops[1..]);
    }
  }

  /** On the state lists a task can be on, it is on exactly the one its state names. */
  ghost predicate OnlyOn(k: Kernel, t: TaskId, id: ListId) {
    && t in At(k, id)
    && NoDup(At(k, id))
    && forall other | other != id :: t !in At(k, other)
  }

  ghost predicate OnNoList(k: Kernel, t: TaskId) {
    forall id :: t !in At(k, id)
  }

  /** A task is in the one place that matches its state. */
  ghost predicate InOnePlace(k: Kernel, t: TaskId) {
    var task := TaskOf(k, t);
    && (task.state == Running ==> k.current == Some(t) && OnNoList(k, t) && t !in k.timeouts)
    && (task.state == Ready ==>
          (OnlyOn(k, t, ReadyList(task.priority)) || (t == k.idle && OnNoList(k, t))) && t !in k.timeouts)
    && (task.state == Blocked ==>
          || (PcOf(k, t).Waiting? && OnlyOn(k, t, WaitList(PcOf(k, t).queue)))
          || (OnNoList(k, t) && t in k.timeouts))
    && (task.state == Deleted ==> OnlyOn(k, t, DeletedList) && t !in k.timeouts)
    && (t in k.timeouts <==> task.state == Blocked && task.waitingOnTimer)
    && NoDup(k.timeouts)
  }

  /** No task is lost or duplicated, in any state any run from boot can reach. */
  lemma EveryTaskInOnePlace(idle: TaskId, ops: seq<Op>, t: TaskId)
    requires Legal(Boot(idle), ops) && t in Run(Boot(idle), ops).tasks
    ensures InOnePlace(Run(Boot(idle), ops), t)
  {
    BootInv(idle);
    RunKeeps(Boot(idle), ops);
    OnePlace(Run(Boot(idle), ops), t);
  }

  lemma OnePlace(k: Kernel, t: TaskId)
    requires Inv(k) && t in k.tasks
    ensures InOnePlace(k, t)
  {
    hide ListsOk, MaskOk, QueuesOk, GlobalOk, AllInFuture;
    assert TaskOk(k, t);
    forall id ensures (t in At(k, id) <==> TaskOf(k, t).node == Linked(id)) && NoDup(At(k, id)) {
      NotOnList(k, t, id);
    }
    TimeoutsInTasks(k);
  }

  /** Nothing is on a list that is not a live record, so no list holds a dangling task. */
  lemma NoDanglingNode(k: Kernel, t: TaskId, id: ListId)
    requires Inv(k) && (t in At(k, id) || t in k.timeouts || k.current == Some(t))
    ensures t in k.tasks
  {
    hide MaskOk, QueuesOk, TasksOk;
    assert ListOk(k, id);
  }

  // ----- the ready mask against a linear scan

  /** The highest priority not above `p` with a ready task, found by scanning the lists downwards. */
  function Scan(k: Kernel, p: nat): Option<nat> {
    if At(k, ReadyList(p)) != [] then Some(p) else if p == 0 then None else Scan(k, p - 1)
  }

  lemma {:induction false} ScanFindsHighest(k: Kernel, p: nat)
    ensures Scan(k, p).Some? ==> Scan(k, p).value <= p && At(k, ReadyList(Scan(k, p).value)) != []
    ensures forall r: nat | r <= p && (Scan(k, p).None? || r > Scan(k, p).value) :: At(k, ReadyList(r)) == []
  {
    if At(k, ReadyList(p)) == [] && p > 0 {
      ScanFindsHighest(k, p - 1);
    }
  }

  /** In every reachable state the count-leading-zeros pick is the linear scan's pick: an empty mask when the
      scan finds nothing, and otherwise the first task of the scanned list, never the corrupt-queue loop. */
  lemma ClzIsLinearScan(k: Kernel)
    requires Inv(k)
    ensures k.mask == 0 <==> Scan(k, PRIORITY_MAX).None?
    ensures match Scan(k, PRIORITY_MAX)
            case None => PopHighest(k).1 == None
            case Some(p) =>
              && p == Highest(k.mask)
              && At(k, ReadyList(p)) != []
              && PopHighest(k).1 == Some(At(k, ReadyList(p))[0])
  {
    hide ListsOk, TasksOk, TimeoutsOk, QueuesOk, GlobalOk, AllInFuture, Scan, PopHighest, CoreBut;
    ScanFindsHighest(k, PRIORITY_MAX);
    PopHighestKeeps(k);
    if k.mask != 0 {
      HighestSpec(k.mask);
      assert Has(k.mask, Highest(k.mask));
      assert At(k, ReadyList(Highest(k.mask))) != [];
      var p := Scan(k, PRIORITY_MAX).value;
      assert Has(k.mask, p);
    } else {
      forall p: nat | p <= PRIORITY_MAX ensures At(k, ReadyList(p)) == [] {
        ZeroHas(p);
        assert !Has(k.mask, p);
      }
    }
  }

  /** The higher-priority mask test is "some list above the current priority is not empty". */
  lemma HigherMaskIsScan(k: Kernel)
    requires Core(k) && k.current.Some?
    ensures HigherPriorityReady(k) <==>
            exists p: nat | TaskOf(k, k.current.value).priority < p <= PRIORITY_MAX :: At(k, ReadyList(p)) != []
  {
    hide ListsOk, TasksOk, TimeoutsOk, QueuesOk, GlobalOk;
    var c := TaskOf(k, k.current.value).priority;
    if c < PRIORITY_MAX {
      AnyAbove(k.mask, c);
      if HigherPriorityReady(k) {
        var p: nat :| c < p <= PRIORITY_MAX && Has(k.mask, p);
        assert At(k, ReadyList(p)) != [];
        assert exists r: nat | c < r <= PRIORITY_MAX :: At(k, ReadyList(r)) != [];
      }
      if exists p: nat | c < p <= PRIORITY_MAX :: At(k, ReadyList(p)) != [] {
        var p: nat :| c < p <= PRIORITY_MAX && At(k, ReadyList(p)) != [];
        assert Has(k.mask, p);
        assert exists r: nat | c < r <= PRIORITY_MAX :: Has(k.mask, r);
        assert HigherPriorityReady(k);
      }
    }
  }

  // ----- wait queues

  /** Wake-one takes the waiter of highest priority and, among those, the one waiting longest. */
  lemma WakeTakesLongestWaiting(k: Kernel, q: QueueId, u: TaskId)
    requires Inv(k) && u in At(k, WaitList(q))
    ensures var t := WakeOne(k, q).1;
            && t.Some?
            && t.value in At(k, WaitList(q))
            && (u == t.value || Before(k, t.value, u))
    ensures At(WakeOne(k, q).0, WaitList(q)) == At(k, WaitList(q))[1..]
  {
    hide ListsOk, TasksOk, TimeoutsOk, MaskOk, GlobalOk, AllInFuture;
    assert QueueOk(k, q);
    var i :| 0 <= i < |At(k, WaitList(q))| && At(k, WaitList(q))[i] == u;
    WakeOneKeeps(k, q);
    WakeResultShrinks(k, q, Object);
  }

  lemma WakeFirstMoves(k: Kernel, q: QueueId, result: WaitResult)
    requires Inv(k) && At(k, WaitList(q)) != [] && (result == Object || result == Destroyed)
    ensures var s := At(k, WaitList(q));
            var k' := WakeResult(k, q, result).0;
            && Inv(k') && At(k', WaitList(q)) == s[1..]
            && (forall t :: t in s[1..] <==> t in s && t != s[0])
            && TaskOf(k', s[0]) == WokenTask(TaskOf(k, s[0]), result)
            && (forall t | t != s[0] :: TaskOf(k', t) == TaskOf(k, t))
            && (forall t :: t in k'.timeouts <==> t in k.timeouts && t != s[0])
            && k'.pc == k.pc && k'.current == k.current
  {
    hide Inv, WakeResult, Without, NoDup;
    var s := At(k, WaitList(q));
    WakeResultShrinks(k, q, result);
    InvTime(k);
    WakeResultKeeps(k, q, result);
    WakeKeepsInv(k, q, result, false);
    var k' := WakeResult(k, q, result).0;
    QueueNoDup(k, q);
    TailMembers(s);
    var base := k.(timeouts := Without(k.timeouts, s[0]), pending := k'.pending);
    assert forall t | t != s[0] :: TaskOf(k', t) == TaskOf(base, t) == TaskOf(k, t);
  }

  lemma {:induction false} WakeAllMoves(k: Kernel, q: QueueId, result: WaitResult)
    requires Inv(k) && (result == Object || result == Destroyed)
    ensures At(WakeAll(k, q, result).0, WaitList(q)) == []
    ensures WakeAll(k, q, result).1 == |At(k, WaitList(q))|
    ensures forall t | t in At(k, WaitList(q)) :: TaskOf(WakeAll(k, q, result).0, t) == WokenTask(TaskOf(k, t), result)
    ensures forall t | t !in At(k, WaitList(q)) :: TaskOf(WakeAll(k, q, result).0, t) == TaskOf(k, t)
    ensures forall t :: t in WakeAll(k, q, result).0.timeouts <==> t in k.timeouts && t !in At(k, WaitList(q))
    ensures WakeAll(k, q, result).0.pc == k.pc && WakeAll(k, q, result).0.current == k.current
    decreases |At(k, WaitList(q))|
  {
    hide Inv, WakeResult, TaskOf, WokenTask;
    if At(k, WaitList(q)) != [] {
      WakeFirstMoves(k, q, result);
      WakeAllMoves(WakeResult(k, q, result).0, q, result);
    }
  }

  /** Those of `s` with priority `p`, in the order of `s`. */
  function OfPriority(k: Kernel, s: seq<TaskId>, p: nat): seq<TaskId> {
    if s == [] then []
    else (if TaskOf(k, s[0]).priority == p then [s[0]] else []) + OfPriority(k, s[1..], p)
  }

  lemma {:induction false} SamePriorities(k: Kernel, k': Kernel, s: seq<TaskId>, p: nat)
    requires forall t | t in s :: TaskOf(k', t).priority == TaskOf(k, t).priority
    ensures OfPriority(k', s, p) == OfPriority(k, s, p)
  {
    if s != [] {
      assert s[0] in s && forall t | t in s[1..] :: t in s;
      SamePriorities(k, k', s[1..], p);
    }
  }

  /** A woken task joins the end of its own ready list and no other. */
  lemma WakeJoins(k: Kernel, q: QueueId, result: WaitResult, p: nat)
    requires Core(k) && At(k, WaitList(q)) != []
    ensures var t := At(k, WaitList(q))[0];
            At(WakeResult(k, q, result).0, ReadyList(p)) ==
            At(k, ReadyList(p)) + if TaskOf(k, t).priority == p then [t] else []
  {
    hide Core, Without, SetBit, InsertAt;
    var t := At(k, WaitList(q))[0];
    WaiterIsWaiting(k, t, q);
    AppendIsInsert(At(k, ReadyList(TaskOf(k, t).priority)), t);
  }

  lemma AppendIsInsert(s: seq<TaskId>, t: TaskId)
    ensures InsertAt(s, |s|, t) == s + [t]
  {
  }

  lemma {:induction false} WakeAllJoins(k: Kernel, q: QueueId, result: WaitResult, p: nat)
    requires Inv(k) && (result == Object || result == Destroyed)
    ensures At(WakeAll(k, q, result).0, ReadyList(p)) ==
            At(k, ReadyList(p)) + OfPriority(k, At(k, WaitList(q)), p)
    decreases |At(k, WaitList(q))|
  {
    hide Inv, WakeResult, TaskOf, At;
    var s := At(k, WaitList(q));
    if s != [] {
      var k' := WakeResult(k, q, result).0;
      WakeResultShrinks(k, q, result);
      InvTime(k);
      WakeJoins(k, q, result, p);
      WakeKeepsInv(k, q, result, false);
      WakeResultPriorities(k, q, result);
      SamePriorities(k, k', s[1..], p);
      WakeAllJoins(k', q, result, p);
    }
  }

  lemma WakeResultPriorities(k: Kernel, q: QueueId, result: WaitResult)
    ensures forall t :: TaskOf(WakeResult(k, q, result).0, t).priority == TaskOf(k, t).priority
  {
    hide Without, SetBit, InsertAt;
  }

  /** Wake-all empties the queue, wakes each waiter once, with the given result, and stops. The woken tasks of each
      priority join the end of their ready list in the order in which they waited. */
  lemma WakeAllWakesEveryone(k: Kernel, q: QueueId, result: WaitResult)
    requires Inv(k) && (result == Object || result == Destroyed)
    ensures var (k', count) := WakeAll(k, q, result);
            var s := At(k, WaitList(q));
            && At(k', WaitList(q)) == [] && count == |s|
            && (forall t | t in s :: TaskOf(k', t) == WokenTask(TaskOf(k, t), result))
            && (forall t | t !in s :: TaskOf(k', t) == TaskOf(k, t))
            && (forall t :: t in k'.timeouts <==> t in k.timeouts && t !in s)
            && (forall p :: At(k', ReadyList(p)) == At(k, ReadyList(p)) + OfPriority(k, s, p))
  {
    hide Inv, WakeAll, OfPriority;
    WakeAllMoves(k, q, result);
    forall p
      ensures At(WakeAll(k, q, result).0, ReadyList(p)) == At(k, ReadyList(p)) + OfPriority(k, At(k, WaitList(q)), p)
    {
      WakeAllJoins(k, q, result, p);
    }
  }

  lemma QueueNoDup(k: Kernel, q: QueueId)
    requires Core(k)
    ensures NoDup(At(k, WaitList(q)))
  {
    hide TasksOk, TimeoutsOk, MaskOk, GlobalOk, QueuesOk;
    assert ListOk(k, WaitList(q));
  }
}
