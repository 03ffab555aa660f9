/** One outcome per wait: once a blocked task has been woken, timed out or told of destruction, it is off the
    wait and timeout lists and nothing but its own resumption, or its deletion, touches the result. */
module KernelOutcome {
  import opened Common
  import opened KernelState
  import opened KernelInvariant
  import opened KernelSteps
  import opened KernelBlocking
  import opened KernelWaking
  import opened KernelRuns
  import opened KernelFrames

  /** `t` is inside a blocking call, out of its wait, with outcome `r`. */
  ghost predicate Settled(k: Kernel, t: TaskId, pc: Pc, r: WaitResult) {
    && PcOf(k, t) == pc && pc.Waiting?
    && Awake(TaskOf(k, t))
    && TaskOf(k, t).result == r
  }

  /** A task inside a blocking call is either still waiting, with no outcome, on its queue and on the timeout
      list exactly if the wait is timed; or settled with one of the three outcomes, TIMEOUT only for a timed
      wait, and on neither list. */
  lemma WaitingOrSettled(k: Kernel, t: TaskId)
    requires Inv(k) && PcOf(k, t).Waiting?
    ensures var pc := PcOf(k, t);
            || (&& TaskOf(k, t).state == Blocked && TaskOf(k, t).result == NoResult
                && OnlyOn(k, t, WaitList(pc.queue)) && (t in k.timeouts <==> pc.timed))
            || (&& Settled(k, t, pc, TaskOf(k, t).result) && TaskOf(k, t).result != NoResult
                && (TaskOf(k, t).result == Timeout ==> pc.timed)
                && t !in k.timeouts && forall q :: t !in At(k, WaitList(q)))
  {
    hide ListsOk, MaskOk, QueuesOk, AllInFuture;
    ArrivalsBelow(k);
    assert t in k.pc;
    OnePlace(k, t);
    assert TaskOk(k, t);
    NotOnList(k, t, WaitList(PcOf(k, t).queue));
  }

  /** `op` is the resumption or the deletion of `t`. */
  predicate Ends(k: Kernel, op: Op, t: TaskId) {
    op == DoDelete(t) || (op == DoResume && k.current == Some(t))
  }

  lemma DecisionKeepsSettled(k: Kernel, k': Kernel, t: TaskId, pc: Pc, r: WaitResult)
    requires DecisionFrame(k, k') && Settled(k, t, pc, r)
    ensures Settled(k', t, pc, r)
  {
    assert t in k.tasks;
    assert SameButRun(TaskOf(k, t), TaskOf(k', t));
  }

  lemma SettledOffLists(k: Kernel, t: TaskId, pc: Pc, r: WaitResult)
    requires Inv(k) && Settled(k, t, pc, r)
    ensures t !in k.timeouts
    ensures forall q :: t !in At(k, WaitList(q))
    ensures t !in At(k, DeletedList)
  {
    hide ListsOk, MaskOk, QueuesOk, AllInFuture;
    OnePlace(k, t);
    assert TaskOk(k, t);
    NotOnList(k, t, DeletedList);
    forall q ensures t !in At(k, WaitList(q)) {
      NotOnList(k, t, WaitList(q));
    }
  }

  /** The outcome is final: no step but the task's own end of call changes it. */
  lemma SettledStays(k: Kernel, op: Op, t: TaskId, pc: Pc, r: WaitResult)
    requires Inv(k) && Enabled(k, op) && Settled(k, t, pc, r) && !Ends(k, op, t)
    ensures Settled(Apply(k, op), t, pc, r)
  {
    hide Core, AllInFuture, Trap, TrapExpire, Decide, BlockTimeout, Delay, WakeResult, WakeAll, ReadyEnqueue, Delete,
         Yield, PickNext, DecisionFrame, AllNear;
    SettledOffLists(k, t, pc, r);
    match op
    case DoStart =>
      LockMeansRunning(k);
      PickNextFrame(k);
      DecisionKeepsSettled(k, PickNext(k), t, pc, r);
    case DoTrap(systick, now) => TrapKeepsSettled(k, systick, now, t, pc, r);
    case DoExpire(systick, now) => ExpireKeepsSettled(k, systick, now, t, pc, r);
    case DoDecide(systick) =>
      DecideFrame(k, systick);
      DecisionKeepsSettled(k, Decide(k, systick), t, pc, r);
    case DoYield =>
      YieldFrame(k);
      DecisionKeepsSettled(k, Yield(k), t, pc, r);
    case DoLock =>
    case DoUnlock =>
    case DoBlock(q, us) => BlockTimeoutMoves(k, q, us);
    case DoSleep(until) =>
      DelayMoves(k, until);
    case DoWake(q, result, isr) =>
      if At(k, WaitList(q)) == [] {
        WakeNobody(k, q, result);
        WakeNobody(k, q, Object);
      } else {
        WokenMoves(k, q, result);
        assert TaskOf(Apply(k, op), t) == TaskOf(WakeResult(k, q, result).0, t);
      }
    case DoWakeAll(q, result) =>
      WakeAllMoves(k, q, result);
    case DoResume =>
    case DoCreate(u, priority) =>
      ReadyEnqueueMoves(SetTask(k, u, Task(priority, Ready, Unlinked, false, 0, NoResult)), u);
    case DoDelete(u) =>
      if Delete(k, u).1 == Ok {
        DeleteMoves(k, u);
      } else {
        DeleteRefused(k, u);
      }
    case DoReap =>
      if At(k, DeletedList) != [] {
        ReapMoves(k);
        assert TaskOf(Reap(k), t) != NO_TASK;
      }
  }

  lemma ExpireKeepsSettled(k: Kernel, systick: bool, now: nat, t: TaskId, pc: Pc, r: WaitResult)
    requires Inv(k) && Enabled(k, DoExpire(systick, now)) && Settled(k, t, pc, r)
    ensures Settled(TrapExpire(k, systick, now), t, pc, r)
  {
    hide Core, WakeExpired, AllInFuture, AllNear;
    SettledOffLists(k, t, pc, r);
    var ticked := if systick then k.(now := now) else k;
    TimeKeeps(k, now);
    AfterTickNear(k, now);
    AfterTickNear(k, k.now);
    WakeExpiredExact(ticked);
    assert TaskOf(WakeExpired(ticked), t) == TaskOf(ticked, t) == TaskOf(k, t);
  }

  lemma TrapKeepsSettled(k: Kernel, systick: bool, now: nat, t: TaskId, pc: Pc, r: WaitResult)
    requires Inv(k) && Enabled(k, DoTrap(systick, now)) && Settled(k, t, pc, r)
    ensures Settled(Trap(k, systick, now), t, pc, r)
  {
    hide Inv, Decide, TrapExpire, DecisionFrame, Settled;
    var woken := TrapExpire(k, systick, now);
    TrapExpireKeeps(k, systick, now);
    ExpireKeepsSettled(k, systick, now, t, pc, r);
    InvTime(woken);
    DecideFrame(woken, systick);
    DecisionKeepsSettled(woken, Decide(woken, systick), t, pc, r);
  }

  /** Along a run, `t` neither resumes nor is deleted. */
  ghost predicate NeverEnds(k: Kernel, ops: seq<Op>, t: TaskId)
    decreases |ops|
  {
    ops != [] ==> !Ends(k, ops[0], t) && NeverEnds(Apply(k, ops[0]), ops[1..], t)
  }

  /** The result a woken waiter finds when it resumes is the one it was woken with, whatever ran in between. */
  lemma {:induction false} OutcomeIsFinal(k: Kernel, ops: seq<Op>, t: TaskId, pc: Pc, r: WaitResult)
    requires Inv(k) && Legal(k, ops) && NeverEnds(k, ops, t) && Settled(k, t, pc, r)
    ensures Settled(Run(k, ops), t, pc, r)
    ensures t !in Run(k, ops).timeouts && forall q :: t !in At(Run(k, ops), WaitList(q))
    decreases |ops|
  {
    hide Inv, Enabled, Settled, Apply;
    if ops == [] {
      SettledOffLists(k, t, pc, r);
    } else {
      StepKeeps(k, ops[0]);
      SettledStays(k, ops[0], t, pc, r);
      OutcomeIsFinal(Apply(k, ops[0]), ops[1..], t, pc, r);
    }
  }
}
