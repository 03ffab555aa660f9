/** Round robin: a task of the top ready priority gets the processor within its place in line times the time
    slice. */
module KernelFairness {
  import opened Common
  import opened TickTime
  import opened Bitmap
  import opened KernelState
  import opened KernelInvariant
  import opened KernelSteps
  import opened KernelBlocking
  import opened KernelWaking
  import opened KernelRuns
  import opened KernelFrames
  import opened KernelSchedule

  /** The scheduler is unlocked and nothing of priority above `p` is ready or running. */
  ghost predicate Fair(k: Kernel, p: nat) {
    && !IsLocked(k)
    && k.current.Some? && TaskOf(k, k.current.value).priority <= p <= PRIORITY_MAX
    && NoReadyAbove(k, p)
  }

  /** No higher-priority arrival at this step, and `t` is not deleted. */
  ghost predicate FairStep(k: Kernel, op: Op, p: nat, t: TaskId) {
    && Fair(k, p)
    && (op.DoTrap? ==> Fair(TrapExpire(k, op.systick, op.now), p))
    && op != DoDelete(t)
  }

  ghost predicate FairRun(k: Kernel, ops: seq<Op>, p: nat, t: TaskId)
    decreases |ops|
  {
    ops != [] ==> FairStep(k, ops[0], p, t) && FairRun(Apply(k, ops[0]), ops[1..], p, t)
  }

  function Ticks(ops: seq<Op>): nat {
    if ops == [] then 0 else (if (ops[0].DoTrap? || ops[0].DoDecide?) && ops[0].systick then 1 else 0) + Ticks(ops[1..])
  }

  /** `t` is in line at priority `p`. */
  ghost predicate InLine(k: Kernel, p: nat, t: TaskId) {
    t in At(k, ReadyList(p))
  }

  /** Ticks that can still pass before `t` runs: a slice for everyone ahead and for the task running now, less
      what has been used of the present slice. */
  ghost function TicksToGo(k: Kernel, p: nat, t: TaskId): int
    requires InLine(k, p, t)
  {
    (IndexOf(At(k, ReadyList(p)), t) + 1) * TIME_SLICE_TICKS - k.slice
  }

  // ----- one place in line

  /** `t` keeps its turn at priority `p`. */
  ghost predicate Turn(k: Kernel, k': Kernel, p: nat, t: TaskId) {
    KeepsTurn(At(k, ReadyList(p)), At(k', ReadyList(p)), t)
  }

  lemma EnqueueTurn(k: Kernel, u: TaskId, p: nat, t: TaskId)
    ensures Turn(k, ReadyEnqueue(k, u), p, t)
  {
    var s := At(k, ReadyList(p));
    AppendKeepsTurn(s, u, t);
    assert InsertAt(s, |s|, u) == s + [u];
  }

  lemma UnlinkTurn(k: Kernel, u: TaskId, p: nat, t: TaskId)
    requires u != t
    ensures Turn(k, Unlink(k, u), p, t)
  {
    WithoutKeepsTurn(At(k, ReadyList(p)), u, t);
  }

  lemma TurnCompose(k1: Kernel, k2: Kernel, k3: Kernel, p: nat, t: TaskId)
    requires Turn(k1, k2, p, t) && Turn(k2, k3, p, t)
    ensures Turn(k1, k3, p, t)
  {
  }

  lemma SameListsTurn(k: Kernel, k': Kernel, p: nat, t: TaskId)
    requires At(k', ReadyList(p)) == At(k, ReadyList(p))
    ensures Turn(k, k', p, t)
  {
  }

  lemma WakeResultTurn(k: Kernel, q: QueueId, result: WaitResult, p: nat, t: TaskId)
    ensures Turn(k, WakeResult(k, q, result).0, p, t)
  {
    hide ReadyEnqueue, Without, Turn;
    SameListsTurn(k, k, p, t);
    if At(k, WaitList(q)) != [] {
      var u := At(k, WaitList(q))[0];
      var off := TimeoutRemove(UnlinkFirst(k, WaitList(q)), u);
      var ready := SetTask(off, u, TaskOf(off, u).(waitingOnTimer := false, state := Ready));
      SameListsTurn(k, ready, p, t);
      EnqueueTurn(ready, u, p, t);
      SameListsTurn(ReadyEnqueue(ready, u), WakeResult(k, q, result).0, p, t);
      TurnCompose(k, ready, ReadyEnqueue(ready, u), p, t);
      TurnCompose(k, ReadyEnqueue(ready, u), WakeResult(k, q, result).0, p, t);
    }
  }

  lemma {:induction false} WakeAllTurn(k: Kernel, q: QueueId, result: WaitResult, p: nat, t: TaskId)
    ensures Turn(k, WakeAll(k, q, result).0, p, t)
    decreases |At(k, WaitList(q))|
  {
    hide WakeResult, Turn;
    SameListsTurn(k, k, p, t);
    if At(k, WaitList(q)) != [] {
      WakeResultShrinks(k, q, result);
      WakeResultTurn(k, q, result, p, t);
      WakeAllTurn(WakeResult(k, q, result).0, q, result, p, t);
      TurnCompose(k, WakeResult(k, q, result).0, WakeAll(k, q, result).0, p, t);
    }
  }

  lemma StepDownTurn(k: Kernel, p: nat, t: TaskId)
    requires k.current.Some?
    ensures Turn(k, StepDown(k), p, t)
  {
    hide ReadyEnqueue, Turn;
    var c := k.current.value;
    var idling := SetTask(k, c, TaskOf(k, c).(state := Ready));
    SameListsTurn(k, idling, p, t);
    EnqueueTurn(idling, c, p, t);
    TurnCompose(k, idling, ReadyEnqueue(idling, c), p, t);
  }

  lemma ExpireTurn(k: Kernel, u: TaskId, p: nat, t: TaskId)
    requires u != t
    ensures Turn(k, Expire(k, u), p, t)
  {
    hide ReadyEnqueue, Unlink, Turn;
    SameListsTurn(k, k, p, t);
    var k1 := SetTask(k, u, TaskOf(k, u).(waitingOnTimer := false, result := Timeout));
    SameListsTurn(k, k1, p, t);
    UnlinkTurn(k1, u, p, t);
    var k2 := Unlink(k1, u);
    var k3 := SetTask(k2, u, TaskOf(k2, u).(state := Ready));
    SameListsTurn(k2, k3, p, t);
    EnqueueTurn(k3, u, p, t);
    TurnCompose(k, k1, k2, p, t);
    TurnCompose(k, k2, k3, p, t);
    TurnCompose(k, k3, ReadyEnqueue(k3, u), p, t);
  }

  lemma {:induction false} WakeExpiredTurn(k: Kernel, p: nat, t: TaskId)
    requires t !in k.timeouts
    ensures Turn(k, WakeExpired(k), p, t)
    decreases |k.timeouts|
  {
    hide Expire, Turn;
    SameListsTurn(k, k, p, t);
    if k.timeouts != [] && Expired(Low(k.now), TaskOf(k, k.timeouts[0]).wakeup) {
      var u := k.timeouts[0];
      var rest := k.(timeouts := k.timeouts[1..]);
      SameListsTurn(k, rest, p, t);
      ExpireTurn(rest, u, p, t);
      ExpireKeepsTimeouts(rest, u);
      TurnCompose(k, rest, Expire(rest, u), p, t);
      WakeExpiredTurn(Expire(rest, u), p, t);
      TurnCompose(k, Expire(rest, u), WakeExpired(Expire(rest, u)), p, t);
    }
  }

  lemma ReadyRemoveTurn(k: Kernel, u: TaskId, p: nat, t: TaskId)
    requires u != t
    ensures Turn(k, ReadyRemove(k, u), p, t)
  {
    hide Turn, Unlink;
    SameListsTurn(k, k, p, t);
    UnlinkTurn(k, u, p, t);
    if !(TaskOf(k, u).priority > PRIORITY_MAX || TaskOf(k, u).node.Unlinked?) {
      SameListsTurn(Unlink(k, u), ReadyRemove(k, u), p, t);
      TurnCompose(k, Unlink(k, u), ReadyRemove(k, u), p, t);
    }
  }

  lemma DeleteTurn(k: Kernel, u: TaskId, p: nat, t: TaskId)
    requires u != t
    ensures Turn(k, Delete(k, u).0, p, t)
  {
    hide Turn, Unlink, ReadyRemove, Without, InsertAt;
    SameListsTurn(k, k, p, t);
    UnlinkTurn(k, u, p, t);
    ReadyRemoveTurn(k, u, p, t);
    var off := if TaskOf(k, u).node.Unlinked? then k
               else if TaskOf(k, u).state == Ready then ReadyRemove(k, u)
               else Unlink(k, u);
    if Delete(k, u).1 == Ok {
      assert At(Delete(k, u).0, ReadyList(p)) == At(off, ReadyList(p));
      SameListsTurn(off, Delete(k, u).0, p, t);
      TurnCompose(k, off, Delete(k, u).0, p, t);
    }
  }

  lemma DelayTurn(k: Kernel, until: nat, p: nat, t: TaskId)
    requires Core(k) && MayBlock(k)
    ensures Turn(k, Delay(k, until), p, t)
  {
    hide Core, Turn, Delay;
    DelayMoves(k, until);
    SameListsTurn(k, Delay(k, until), p, t);
  }

  /** Steps other than a trap never send a task back in line. */
  lemma OtherStepsKeepTurn(k: Kernel, op: Op, p: nat, t: TaskId)
    requires Inv(k) && Enabled(k, op) && !op.DoTrap? && !op.DoDecide? && !op.DoStart? && op != DoDelete(t)
    ensures Turn(k, Apply(k, op), p, t)
  {
    hide Core, AllInFuture, TrapExpire, BlockTimeout, Delay, WakeResult, WakeAll, ReadyEnqueue, Delete, StepDown, Turn;
    SameListsTurn(k, k, p, t);
    match op
    case DoExpire(systick, now) => TrapExpireTurn(k, systick, now, p, t);
    case DoYield => YieldTurn(k, p, t);
    case DoLock => SameListsTurn(k, Apply(k, op), p, t);
    case DoUnlock => SameListsTurn(k, Apply(k, op), p, t);
    case DoBlock(q, us) =>
      BlockTimeoutMoves(k, q, us);
      SameListsTurn(k, Apply(k, op), p, t);
    case DoSleep(until) => DelayTurn(k, until, p, t);
    case DoWake(q, result, isr) =>
      WakeResultTurn(k, q, result, p, t);
      SameListsTurn(WakeResult(k, q, result).0, Apply(k, op), p, t);
      TurnCompose(k, WakeResult(k, q, result).0, Apply(k, op), p, t);
    case DoWakeAll(q, result) => WakeAllTurn(k, q, result, p, t);
    case DoResume => SameListsTurn(k, Apply(k, op), p, t);
    case DoCreate(u, priority) =>
      var made := SetTask(k, u, Task(priority, Ready, Unlinked, false, 0, NoResult));
      SameListsTurn(k, made, p, t);
      EnqueueTurn(made, u, p, t);
      TurnCompose(k, made, ReadyEnqueue(made, u), p, t);
    case DoDelete(u) => DeleteTurn(k, u, p, t);
    case DoReap => SameListsTurn(k, Apply(k, op), p, t);
  }

  lemma TrapExpireTurn(k: Kernel, systick: bool, now: nat, p: nat, t: TaskId)
    requires Core(k)
    ensures Turn(k, TrapExpire(k, systick, now), p, t)
  {
    hide Core, WakeExpired;
    if InLine(k, p, t) {
      InLineIsReady(k, p, t);
      WakeExpiredTurn(if systick then k.(now := now) else k, p, t);
    }
  }

  lemma YieldTurn(k: Kernel, p: nat, t: TaskId)
    ensures Turn(k, Yield(k), p, t)
  {
    hide StepDown, Turn;
    SameListsTurn(k, k, p, t);
    SameListsTurn(k, k.(pending := true), p, t);
    if k.current.Some? {
      StepDownTurn(k, p, t);
    }
  }

  // ----- a trap

  lemma TopIsHighest(k: Kernel, p: nat, t: TaskId)
    requires Core(k) && NoReadyAbove(k, p) && p <= PRIORITY_MAX && InLine(k, p, t)
    ensures k.mask != 0 && Highest(k.mask) == p
  {
    hide ListsOk, TasksOk, TimeoutsOk, QueuesOk, GlobalOk;
    assert Has(k.mask, p);
    if k.mask == 0 {
      ZeroHas(p);
    } else {
      HighestSpec(k.mask);
      assert At(k, ReadyList(Highest(k.mask))) != [];
    }
  }

  /** Every switch takes the head of the top line, so everyone else moves up. */
  lemma SwitchMovesUp(k: Kernel, p: nat, t: TaskId)
    requires Core(k) && NoneRunning(k) && NoReadyAbove(k, p) && p <= PRIORITY_MAX && InLine(k, p, t)
    ensures var k' := SwitchToHighest(k);
            || k'.current == Some(t)
            || (InLine(k', p, t) && IndexOf(At(k', ReadyList(p)), t) == IndexOf(At(k, ReadyList(p)), t) - 1)
    ensures SwitchToHighest(k).slice == k.slice
  {
    hide Core, CoreBut, NoReadyAbove, NoneRunning, ClearBit;
    TopIsHighest(k, p, t);
    PopHighestKeeps(k);
    var s := At(k, ReadyList(p));
    if s[0] != t {
      assert At(SwitchToHighest(k), ReadyList(p)) == s[1..];
      assert t in s[1..];
    }
  }

  lemma PickNextMovesUp(k: Kernel, p: nat, t: TaskId)
    requires Core(k) && Fair(k, p) && InLine(k, p, t)
    ensures var k' := PickNext(k);
            || k'.current == Some(t)
            || (InLine(k', p, t) && IndexOf(At(k', ReadyList(p)), t) < IndexOf(At(k, ReadyList(p)), t))
    ensures PickNext(k).slice == k.slice
  {
    hide Core, SwitchToHighest, StepDown, NoneRunning, NoReadyAbove;
    if CurrentIs(k, Running) {
      StepDownKeeps(k);
      StepDownTurn(k, p, t);
      StepDownCpu(k);
      StepDownKeepsEmpty(k, p);
      SwitchMovesUp(StepDown(k), p, t);
    } else {
      OnlyCurrentRuns(k);
      SwitchMovesUp(k, p, t);
    }
  }

  lemma StepDownKeepsEmpty(k: Kernel, p: nat)
    requires NoReadyAbove(k, p) && k.current.Some? && TaskOf(k, k.current.value).priority <= p
    ensures NoReadyAbove(StepDown(k), p)
  {
    forall r: nat | p < r <= PRIORITY_MAX ensures At(StepDown(k), ReadyList(r)) == [] {
      assert At(k, ReadyList(r)) == [];
    }
  }

  lemma FlagsFair(k: Kernel, slice: nat, pending: bool, p: nat)
    requires Fair(k, p)
    ensures Fair(k.(slice := slice, pending := pending), p)
  {
    SameReadyAbove(k, k.(slice := slice, pending := pending), p);
  }

  lemma TryRescheduleMovesUp(k: Kernel, p: nat, t: TaskId)
    requires Core(k) && Fair(k, p) && InLine(k, p, t)
    ensures var k' := TryReschedule(k);
            || k'.current == Some(t)
            || (InLine(k', p, t) && IndexOf(At(k', ReadyList(p)), t) <= IndexOf(At(k, ReadyList(p)), t))
    ensures TryReschedule(k).slice == k.slice
  {
    hide Core, PickNext, HigherPriorityReady, Fair;
    LockMeansRunning(k);
    FlagsKeep(k, k.slice, k.lockCount, false);
    FlagsFair(k, k.slice, false, p);
    PickNextMovesUp(k.(pending := false), p, t);
  }

  /** The running task picked from a fair state is of priority `p` while someone waits there. */
  lemma PickNextStaysFair(k: Kernel, p: nat, t: TaskId)
    requires Core(k) && Fair(k, p) && InLine(k, p, t)
    ensures Fair(PickNext(k), p)
    ensures TaskOf(PickNext(k), PickNext(k).current.value).priority == p
  {
    hide Core, SwitchToHighest, StepDown, NoneRunning, NoReadyAbove, CoreBut;
    PickNextFrame(k);
    var back := if CurrentIs(k, Running) then StepDown(k) else k;
    if CurrentIs(k, Running) {
      StepDownKeeps(k);
      StepDownTurn(k, p, t);
      StepDownKeepsEmpty(k, p);
    } else {
      OnlyCurrentRuns(k);
    }
    SwitchStaysFair(back, p, t);
  }

  lemma SwitchStaysFair(k: Kernel, p: nat, t: TaskId)
    requires Core(k) && NoneRunning(k) && NoReadyAbove(k, p) && p <= PRIORITY_MAX && InLine(k, p, t)
    ensures SwitchToHighest(k).current.Some?
    ensures TaskOf(SwitchToHighest(k), SwitchToHighest(k).current.value).priority == p
    ensures NoReadyAbove(SwitchToHighest(k), p)
  {
    hide Core, CoreBut, NoReadyAbove, NoneRunning, PopHighest, ReadyRemove;
    TopIsHighest(k, p, t);
    PopHighestKeeps(k);
    var (popped, next) := PopHighest(k);
    ReadyRemoveKeepsPriority(k, next.value);
    RemovingKeepsEmpty(k, next.value, p);
    SameReadyAbove(popped, MakeCurrent(popped, next.value), p);
  }

  lemma DecideMovesUp(k: Kernel, systick: bool, p: nat, t: TaskId)
    requires Core(k) && Fair(k, p) && InLine(k, p, t) && t != k.idle
    ensures var k' := Decide(k, systick);
            || k'.current == Some(t)
            || (InLine(k', p, t) && TicksToGo(k', p, t) <= TicksToGo(k, p, t) - if systick then 1 else 0)
  {
    hide Core, PickNext, TryReschedule, HigherPriorityReady, NoReadyAbove;
    LockMeansRunning(k);
    if !CurrentIs(k, Running) || CurrentIsIdle(k) {
      PickNextMovesUp(k, p, t);
      PickNextKeeps(k);
      PickNextStaysFair(k, p, t);
      if InLine(PickNext(k), p, t) {
        TryRescheduleMovesUp(PickNext(k), p, t);
      }
      if PickNext(k).current == Some(t) {
        PickNextFrame(k);
        ChosenStays(PickNext(k), p, t);
      }
    } else if systick {
      TopIsHighest(k, p, t);
      if TaskOf(k, k.current.value).priority < p {
        LowerIsOutranked(k, p, t);
      }
      OnTickKeeps(k);
      var (ticked, switch) := OnTick(k);
      FlagsFair(k, ticked.slice, k.pending, p);
      PickNextMovesUp(ticked, p, t);
    } else {
      TryRescheduleMovesUp(k, p, t);
    }
  }

  /** A current task below `p` is outranked, so its tick always switches; one at `p` counts its slice. */
  lemma LowerIsOutranked(k: Kernel, p: nat, t: TaskId)
    requires Core(k) && Fair(k, p) && InLine(k, p, t) && TaskOf(k, k.current.value).priority < p
    ensures HigherPriorityReady(k)
  {
    hide Core, HigherPriorityReady;
    HigherMaskIsScan(k);
    assert At(k, ReadyList(p)) != [];
  }

  /** A task just chosen from the top line is not switched away from in the same trap. */
  lemma ChosenStays(k: Kernel, p: nat, t: TaskId)
    requires Core(k) && Fair(k, p) && k.current == Some(t) && CurrentIs(k, Running) && t != k.idle
    requires TaskOf(k, t).priority == p
    ensures TryReschedule(k).current == Some(t)
  {
    hide Core, HigherPriorityReady, PickNext;
    var clear := k.(pending := false);
    FlagsKeep(k, 0, k.lockCount, false);
    LockMeansRunning(k);
    FlagsKeep(k, k.slice, k.lockCount, false);
    HigherMaskIsScan(clear);
    assert forall r: nat :: At(clear, ReadyList(r)) == At(k, ReadyList(r));
  }

  /** A trap gives `t` the processor or brings it a tick closer. */
  lemma TrapMovesUp(k: Kernel, systick: bool, now: nat, p: nat, t: TaskId)
    requires Inv(k) && Enabled(k, DoTrap(systick, now)) && FairStep(k, DoTrap(systick, now), p, t)
    requires InLine(k, p, t) && t != k.idle
    ensures var k' := Trap(k, systick, now);
            || k'.current == Some(t)
            || (InLine(k', p, t) && TicksToGo(k', p, t) <= TicksToGo(k, p, t) - if systick then 1 else 0)
  {
    hide Inv, Decide, TrapExpire, Fair;
    TrapExpireKeeps(k, systick, now);
    TrapExpireCpu(k, systick, now);
    InvTime(k);
    InvTime(TrapExpire(k, systick, now));
    TrapExpireTurn(k, systick, now, p, t);
    FairIsUnlocked(k, p);
    DecideMovesUp(TrapExpire(k, systick, now), systick, p, t);
  }

  lemma InLineIsReady(k: Kernel, p: nat, t: TaskId)
    requires Core(k) && InLine(k, p, t)
    ensures t in k.tasks && TaskOf(k, t).state == Ready && t !in k.timeouts
  {
    hide MaskOk, TimeoutsOk, QueuesOk, GlobalOk;
    NotOnList(k, t, ReadyList(p));
    assert TaskOk(k, t);
  }

  lemma StepMovesUp(k: Kernel, op: Op, p: nat, t: TaskId)
    requires Inv(k) && Enabled(k, op) && FairStep(k, op, p, t) && InLine(k, p, t) && t != k.idle
    ensures var k' := Apply(k, op);
            || k'.current == Some(t)
            || (InLine(k', p, t) && TicksToGo(k', p, t) <= TicksToGo(k, p, t) - Ticks([op]))
    ensures Apply(k, op).idle == k.idle
  {
    hide Core, AllInFuture, Apply, Fair, Trap, Decide;
    if op.DoTrap? {
      TrapMovesUp(k, op.systick, op.now, p, t);
      ApplyTrap(k, op);
    } else if op.DoDecide? {
      DecideMovesUp(k, op.systick, p, t);
      ApplyDecide(k, op);
    } else {
      FairIsUnlocked(k, p);
      OtherStepsKeepTurn(k, op, p, t);
      OtherStepsKeepCpu(k, op);
    }
  }

  lemma ApplyDecide(k: Kernel, op: Op)
    requires Core(k) && k.current.Some? && op.DoDecide?
    ensures Apply(k, op) == Decide(k, op.systick) && Decide(k, op.systick).idle == k.idle
  {
    hide Core, Decide;
    DecideFrame(k, op.systick);
  }

  lemma ApplyTrap(k: Kernel, op: Op)
    requires Inv(k) && Enabled(k, op) && op.DoTrap?
    ensures Apply(k, op) == Trap(k, op.systick, op.now) && Trap(k, op.systick, op.now).idle == k.idle
  {
    hide Inv, Decide, TrapExpire;
    TrapExpireKeeps(k, op.systick, op.now);
    TrapExpireCpu(k, op.systick, op.now);
    InvTime(TrapExpire(k, op.systick, op.now));
    DecideFrame(TrapExpire(k, op.systick, op.now), op.systick);
  }

  lemma FairIsUnlocked(k: Kernel, p: nat)
    requires Fair(k, p)
    ensures k.lockCount == 0 && k.current.Some?
  {
  }

  /** A task at index `i` of the line of the top ready priority gets the processor within `i + 1` time slices,
      whatever its peers do: it is current after a prefix of the run with no more ticks than that. */
  lemma {:induction false} RoundRobinWait(k: Kernel, ops: seq<Op>, p: nat, t: TaskId) returns (n: nat)
    requires Inv(k) && Legal(k, ops) && FairRun(k, ops, p, t) && InLine(k, p, t) && t != k.idle
    requires Ticks(ops) >= TicksToGo(k, p, t)
    ensures n <= |ops| && Run(k, ops[..n]).current == Some(t)
    ensures Ticks(ops[..n]) <= TicksToGo(k, p, t) <= (IndexOf(At(k, ReadyList(p)), t) + 1) * TIME_SLICE_TICKS
    decreases |ops|
  {
    hide Core, AllInFuture, Apply, Enabled, FairStep, InLine;
    LockMeansRunning(k);
    assert TicksToGo(k, p, t) >= 1;
    var op := ops[0];
    StepKeeps(k, op);
    StepMovesUp(k, op, p, t);
    var k' := Apply(k, op);
    if k'.current == Some(t) {
      n := 1;
      assert ops[..1] == [op];
      assert Run(k, [op]) == k';
    } else {
      var m := RoundRobinWait(k', ops[1..], p, t);
      n := m + 1;
      assert ops[..n] == [op] + ops[1..][..m];
      assert ops[..n][1..] == ops[1..][..m];
    }
  }

  // ----- what a tick decides, and a whole slice

  /** With the list of `r` the highest that is not empty, above the running task's priority or its own with the slice
      used up, a tick gives the processor to the first task of that list and the running task goes to the end of its
      own; a new slice begins. */
  lemma TickSwitches(k: Kernel, r: nat)
    requires Core(k) && MayBlock(k) && !IsLocked(k)
    requires TaskOf(k, k.current.value).priority <= r <= PRIORITY_MAX && At(k, ReadyList(r)) != [] && NoReadyAbove(k, r)
    requires r == TaskOf(k, k.current.value).priority ==> k.slice + 1 == TIME_SLICE_TICKS
    ensures var k', c := Decide(k, true), k.current.value;
            var p := TaskOf(k, c).priority;
            && k'.current == Some(At(k, ReadyList(r))[0]) && CurrentIs(k', Running)
            && k'.slice == 0 && k'.pending == k.pending
            && At(k', ReadyList(p)) == (if r == p then At(k, ReadyList(p))[1..] else At(k, ReadyList(p))) + [c]
  {
    hide Core, PickNext, HigherPriorityReady, NoReadyAbove;
    var ticked := k.(slice := 0);
    LockMeansRunning(k);
    FlagsKeep(k, 0, k.lockCount, k.pending);
    TickIsDue(k, r);
    assert Decide(k, true) == PickNext(ticked);
    SameReadyAbove(k, ticked, r);
    PickTakesHead(ticked, r);
    PickKeepsRequest(ticked);
    PickNextKeeps(ticked);
  }

  lemma TickIsDue(k: Kernel, r: nat)
    requires Core(k) && MayBlock(k)
    requires TaskOf(k, k.current.value).priority <= r <= PRIORITY_MAX && At(k, ReadyList(r)) != [] && NoReadyAbove(k, r)
    requires r == TaskOf(k, k.current.value).priority ==> k.slice + 1 == TIME_SLICE_TICKS
    ensures OnTick(k) == (k.(slice := 0), true)
  {
    hide Core, HigherPriorityReady;
    HigherMaskIsScan(k);
    TopIsHighest(k, r, At(k, ReadyList(r))[0]);
  }

  /** The pick from a running task takes the first of the top list and puts the task at the end of its own. */
  lemma PickTakesHead(k: Kernel, r: nat)
    requires Core(k) && MayBlock(k) && !IsLocked(k)
    requires TaskOf(k, k.current.value).priority <= r <= PRIORITY_MAX && At(k, ReadyList(r)) != [] && NoReadyAbove(k, r)
    ensures var k', c := PickNext(k), k.current.value;
            var p := TaskOf(k, c).priority;
            && k'.current == Some(At(k, ReadyList(r))[0]) && k'.slice == k.slice
            && At(k', ReadyList(p)) == (if r == p then At(k, ReadyList(p))[1..] else At(k, ReadyList(p))) + [c]
  {
    hide Core, NoReadyAbove, PopHighest;
    var c := k.current.value;
    RunningTaskOk(k);
    StepDownKeeps(k);
    StepDownKeepsEmpty(k, r);
    StepDownJoins(k);
    var back := StepDown(k);
    var s := At(back, ReadyList(r));
    TopIsHighest(back, r, s[0]);
    PopHighestKeeps(back);
    HeadTaken(back, r);
  }

  lemma StepDownJoins(k: Kernel)
    requires Core(k) && MayBlock(k)
    ensures var c := k.current.value;
            var p := TaskOf(k, c).priority;
            forall id :: At(StepDown(k), id) == if id == ReadyList(p) then At(k, id) + [c] else At(k, id)
    ensures StepDown(k).slice == k.slice
  {
    hide Core, SetBit;
    RunningTaskOk(k);
    var p := TaskOf(k, k.current.value).priority;
    AppendIsInsert(At(k, ReadyList(p)), k.current.value);
  }

  lemma HeadTaken(k: Kernel, r: nat)
    requires k.mask != 0 && Highest(k.mask) == r && At(k, ReadyList(r)) != []
    ensures var id := ReadyList(r);
            forall other :: At(PopHighest(k).0, other) == if other == id then At(k, id)[1..] else At(k, other)
    ensures PopHighest(k).0.slice == k.slice
  {
    hide ClearBit, Highest;
  }

  /** A tick that finds the idle task, or a task that has stopped, always asks to switch and begins a new slice. */
  lemma TickOfStopped(k: Kernel)
    requires k.current.Some? && !MayBlock(k)
    ensures OnTick(k) == (k.(slice := 0), true)
  {
    hide HigherPriorityReady;
  }

  /** With nothing above the running task ready, a tick leaves it the processor while its slice lasts, or nobody else of
      its priority is ready; only in the first case does it count. */
  lemma TickContinues(k: Kernel)
    requires Core(k) && MayBlock(k) && NoReadyAbove(k, TaskOf(k, k.current.value).priority)
    requires k.slice + 1 < TIME_SLICE_TICKS || At(k, ReadyList(TaskOf(k, k.current.value).priority)) == []
    ensures var alone := At(k, ReadyList(TaskOf(k, k.current.value).priority)) == [];
            Decide(k, true) == k.(slice := if alone then k.slice else k.slice + 1)
  {
    hide ListsOk, TasksOk, TimeoutsOk, QueuesOk, GlobalOk, PickNext, HigherPriorityReady;
    NothingHigher(k);
    TaskInRange(k);
    var p := TaskOf(k, k.current.value).priority;
    if At(k, ReadyList(p)) != [] {
      assert Has(k.mask, p);
      ZeroHas(p);
    }
  }

  lemma TaskInRange(k: Kernel)
    requires Core(k) && MayBlock(k)
    ensures TaskOf(k, k.current.value).priority <= PRIORITY_MAX
  {
    hide Core;
    RunningTaskOk(k);
  }

  lemma NothingHigher(k: Kernel)
    requires Core(k) && k.current.Some? && NoReadyAbove(k, TaskOf(k, k.current.value).priority)
    ensures !HigherPriorityReady(k)
  {
    hide Core, HigherPriorityReady;
    HigherMaskIsScan(k);
  }

  /** `c` runs at priority `p`, which is not that of the idle task alone. */
  ghost predicate RunsAt(k: Kernel, c: TaskId, p: nat) {
    k.current == Some(c) && CurrentIs(k, Running) && TaskOf(k, c).priority == p && c != k.idle
  }

  /** The running task `c` keeps the processor as far as it is concerned, and nothing of higher priority arrives. */
  ghost predicate KeepsGoing(k: Kernel, op: Op, p: nat, c: TaskId) {
    FairStep(k, op, p, c) && (op.DoDecide? ==> Fair(k, p)) && !op.DoYield? && !op.DoBlock? && !op.DoSleep?
  }

  ghost predicate GoesOn(k: Kernel, ops: seq<Op>, p: nat, c: TaskId)
    decreases |ops|
  {
    ops != [] ==> KeepsGoing(k, ops[0], p, c) && GoesOn(Apply(k, ops[0]), ops[1..], p, c)
  }

  lemma DecideKeepsRunner(k: Kernel, systick: bool, p: nat, c: TaskId)
    requires Core(k) && Fair(k, p) && RunsAt(k, c, p) && k.slice + (if systick then 1 else 0) < TIME_SLICE_TICKS
    ensures var k' := Decide(k, systick);
            && RunsAt(k', c, p)
            && k.slice <= k'.slice <= k.slice + if systick then 1 else 0
  {
    hide Core, PickNext, HigherPriorityReady, NoReadyAbove;
    if systick {
      TickContinues(k);
    } else {
      var clear := k.(pending := false);
      LockMeansRunning(k);
      FlagsKeep(k, k.slice, k.lockCount, false);
      SameReadyAbove(k, clear, p);
      NothingHigher(clear);
    }
  }

  lemma ExpireKeepsRunner(k: Kernel, systick: bool, now: nat, p: nat, c: TaskId)
    requires Inv(k) && k.now <= now < k.now + HALF && RunsAt(k, c, p)
    ensures RunsAt(TrapExpire(k, systick, now), c, p)
  {
    hide Core, AllInFuture, AllNear, WakeExpired;
    RunningTaskOk(k);
    TimeKeeps(k, now);
    AfterTickNear(k, now);
    AfterTickNear(k, k.now);
    WakeExpiredExact(if systick then k.(now := now) else k);
  }

  lemma OtherStepsKeepRunner(k: Kernel, op: Op, p: nat, c: TaskId)
    requires Inv(k) && Enabled(k, op) && KeepsGoing(k, op, p, c) && RunsAt(k, c, p)
    requires !op.DoTrap? && !op.DoDecide?
    ensures RunsAt(Apply(k, op), c, p) && Apply(k, op).slice == k.slice
  {
    hide Core, AllInFuture, TrapExpire, WakeResult, WakeAll, ReadyEnqueue, Delete, Fair;
    FairIsUnlocked(k, p);
    OtherStepsKeepCpu(k, op);
    RunningTaskOk(k);
    match op
    case DoExpire(systick, now) => ExpireKeepsRunner(k, systick, now, p, c);
    case DoWake(q, result, isr) =>
      if At(k, WaitList(q)) == [] {
        WakeNobody(k, q, result);
        WakeNobody(k, q, Object);
      } else {
        WaiterIsWaiting(k, At(k, WaitList(q))[0], q);
        WokenMoves(k, q, result);
        WokenMoves(k, q, Object);
      }
    case DoWakeAll(q, result) =>
      WaiterIsWaiting(k, c, q);
      WakeAllMoves(k, q, result);
    case DoCreate(t, priority) =>
      ReadyEnqueueMoves(SetTask(k, t, Task(priority, Ready, Unlinked, false, 0, NoResult)), t);
    case DoDelete(t) =>
      if Delete(k, t).1 == Ok {
        DeleteMoves(k, t);
      } else {
        DeleteRefused(k, t);
      }
    case _ =>
  }

  /** A task is not switched away from before its slice is over: while nothing of higher priority arrives, the
      scheduler is unlocked and the task itself does not give up the processor, it runs for as many ticks as the slice
      has left. */
  lemma {:induction false} WholeSlice(k: Kernel, ops: seq<Op>, p: nat, c: TaskId)
    requires Inv(k) && Legal(k, ops) && GoesOn(k, ops, p, c) && RunsAt(k, c, p)
    requires k.slice + Ticks(ops) < TIME_SLICE_TICKS
    ensures RunsAt(Run(k, ops), c, p) && k.slice <= Run(k, ops).slice <= k.slice + Ticks(ops)
    decreases |ops|
  {
    hide Core, AllInFuture, Apply, Enabled, KeepsGoing, RunsAt;
    if ops != [] {
      StepKeeps(k, ops[0]);
      StepKeepsRunner(k, ops[0], p, c);
      WholeSlice(Apply(k, ops[0]), ops[1..], p, c);
    }
  }

  lemma StepKeepsRunner(k: Kernel, op: Op, p: nat, c: TaskId)
    requires Inv(k) && Enabled(k, op) && KeepsGoing(k, op, p, c) && RunsAt(k, c, p)
    requires k.slice + Ticks([op]) < TIME_SLICE_TICKS
    ensures RunsAt(Apply(k, op), c, p) && k.slice <= Apply(k, op).slice <= k.slice + Ticks([op])
  {
    hide Core, AllInFuture, Apply, Fair, Decide, TrapExpire;
    if op.DoTrap? {
      TrapExpireKeeps(k, op.systick, op.now);
      TrapExpireCpu(k, op.systick, op.now);
      ExpireKeepsRunner(k, op.systick, op.now, p, c);
      DecideKeepsRunner(TrapExpire(k, op.systick, op.now), op.systick, p, c);
      ApplyTrap(k, op);
    } else if op.DoDecide? {
      DecideKeepsRunner(k, op.systick, p, c);
      ApplyDecide(k, op);
    } else {
      OtherStepsKeepRunner(k, op, p, c);
    }
  }
}
