/** Timed waits and sleeps against the clock: a task left alone is asleep exactly until the clock has reached the tick
    at which its call began plus the ticks it asked for, over any run and any number of counter wraps. */
module KernelTimeouts {
  import opened Common
  import opened TickTime
  import opened KernelState
  import opened KernelInvariant
  import opened KernelSteps
  import opened KernelBlocking
  import opened KernelWaking
  import opened KernelRuns
  import opened KernelFrames
  import opened KernelOutcome

  // ----- the deadline a call sets

  /** `t` is asleep until tick `deadline`. */
  ghost predicate AsleepUntil(k: Kernel, t: TaskId, deadline: nat) {
    t in k.timeouts && DueOf(k, t) == deadline
  }

  lemma TimeoutInsertAdds(k: Kernel, t: TaskId)
    requires t in k.tasks && TaskOf(k, t).waitingOnTimer
    ensures t in TimeoutInsert(k, t).timeouts
    ensures TimeoutInsert(k, t).due == k.due
  {
    var rest := Without(k.timeouts, t);
    assert InsertAt(rest, TimeoutPosition(k, rest, TaskOf(k, t).wakeup), t)[
        TimeoutPosition(k, rest, TaskOf(k, t).wakeup)] == t;
  }

  /** The codes of every block: no time to wait, the scheduler lock held, or asleep; and till when. */
  lemma BlockAnswers(k: Kernel, q: QueueId, us: uint64)
    requires Inv(k) && Calling(k) && (us != FOREVER_US ==> UsToTicks(us) < HALF)
    ensures var (k', code) := BlockTimeout(k, q, us);
            var c := k.current.value;
            && (code == TimedOut <==> us != FOREVER_US && UsToTicks(us) == 0)
            && (code == Locked <==> code != TimedOut && IsLocked(k))
            && (code == Ok <==> code != TimedOut && code != Locked)
            && (code == TimedOut ==> k' == k)
            && (code == Locked ==> k' == k.(pending := true))
            && (code == Ok ==>
                  && TaskOf(k', c).state == Blocked && c in At(k', WaitList(q))
                  && (if us == FOREVER_US then c !in k'.timeouts
                      else AsleepUntil(k', c, k.now + UsToTicks(us)))
                  && k'.now == k.now)
  {
    hide Core, AllInFuture, BlockTimeout, UsToTicks;
    BlockTimeoutMoves(k, q, us);
    BlockTimeoutKeeps(k, q, us);
    var (k', code) := BlockTimeout(k, q, us);
    if code == Ok {
      var c := k.current.value;
      WaiterNode(k', c, q);
      WaitingOrSettled(k', c);
      if us != FOREVER_US {
        BlockSetsDeadline(k, q, us);
      }
    }
    BlockRefusals(k, q, us);
  }

  lemma BlockRefusals(k: Kernel, q: QueueId, us: uint64)
    requires k.current.Some?
    ensures us != FOREVER_US && UsToTicks(us) == 0 ==> BlockTimeout(k, q, us).1 == TimedOut
    ensures IsLocked(k) && !(us != FOREVER_US && UsToTicks(us) == 0) ==> BlockTimeout(k, q, us).1 == Locked
  {
    hide BlockCurrent, UsToTicks;
  }

  lemma BlockSetsDeadline(k: Kernel, q: QueueId, us: uint64)
    requires Core(k) && MayBlock(k) && us != FOREVER_US && BlockTimeout(k, q, us).1 == Ok
    ensures AsleepUntil(BlockTimeout(k, q, us).0, k.current.value, k.now + UsToTicks(us))
  {
    hide Core, BlockLocked, TimeoutInsert, UsToTicks, InsertAt, WaiterPosition;
    var c := k.current.value;
    if IsLocked(k) {
      BlockWhileLocked(k, q);
    } else {
      BlockLockedShape(k, q);
      var blocked := BlockLocked(k, q).0;
      var deadline := k.now + UsToTicks(us);
      var timed := SetTask(blocked, c, TaskOf(blocked, c).(
        wakeup := Low(deadline), waitingOnTimer := true, result := NoResult)).(
        due := blocked.due[c := deadline],
        pc := blocked.pc[c := Waiting(q, true, k.arrivals)]);
      TimeoutInsertAdds(timed, c);
      assert BlockTimeout(k, q, us).0 == TimeoutInsert(timed, c);
    }
  }

  /** A pass of the delay loop: nothing once the tick has come, refused under the lock, or asleep until then. */
  lemma DelayAnswers(k: Kernel, until: nat)
    requires Inv(k) && Calling(k) && k.now - HALF < until < k.now + HALF
    ensures var k', c := Delay(k, until), k.current.value;
            if IsLocked(k) then k' == k.(pending := true)
            else if until <= k.now then k' == k
            else AsleepUntil(k', c, until) && TaskOf(k', c).state == Blocked && k'.now == k.now
  {
    hide Core, AllInFuture, ReadyRemove, TimeoutInsert;
    ComparesLikeAbsoluteTime(k.now, until);
    RunningTaskOk(k);
    if !IsLocked(k) && k.now < until {
      var c := k.current.value;
      var asleep := SetTask(k, c, TaskOf(k, c).(
        wakeup := Low(until), waitingOnTimer := true, result := NoResult, state := Blocked)).(
        due := k.due[c := until]);
      Unremoved(asleep, c);
      TimeoutInsertAdds(asleep, c);
      TimeoutInsertOnlyTimeouts();
    }
  }

  lemma Unremoved(k: Kernel, t: TaskId)
    requires TaskOf(k, t).node == Unlinked
    ensures ReadyRemove(k, t) == k
  {
  }

  // ----- what other tasks' steps do to a sleeper

  /** The step leaves the sleep of `t` and the clock alone. */
  ghost predicate LetsSleep(k: Kernel, k': Kernel, t: TaskId) {
    (t in k'.timeouts <==> t in k.timeouts) && DueOf(k', t) == DueOf(k, t) && k'.now == k.now
  }

  lemma WithoutHas<T>(s: seq<T>, x: T, y: T)
    requires x != y
    ensures y in Without(s, x) <==> y in s
  {
    if s != [] && s[0] != x {
      WithoutHas(s[1..], x, y);
      assert y in Without(s, x) <==> y == s[0] || y in Without(s[1..], x);
      assert s == [s[0]] + s[1..];
    } else if s != [] {
      assert s == [s[0]] + s[1..];
    }
  }

  lemma InsertHasToo<T>(s: seq<T>, i: nat, x: T, y: T)
    requires i <= |s| && x != y
    ensures y in InsertAt(s, i, x) <==> y in s
  {
    assert s == s[..i] + s[i..];
  }

  lemma TimeoutInsertLets(k: Kernel, u: TaskId, t: TaskId)
    requires u != t
    ensures LetsSleep(k, TimeoutInsert(k, u), t)
  {
    hide Without, InsertAt, TimeoutPosition;
    var rest := Without(k.timeouts, u);
    WithoutHas(k.timeouts, u, t);
    InsertHasToo(rest, TimeoutPosition(k, rest, TaskOf(k, u).wakeup), u, t);
  }

  lemma BlockLets(k: Kernel, q: QueueId, us: uint64, t: TaskId)
    requires Core(k) && MayBlock(k) && k.current != Some(t)
    ensures LetsSleep(k, BlockTimeout(k, q, us).0, t)
  {
    hide Core, BlockLocked, TimeoutInsert, UsToTicks, InsertAt, WaiterPosition;
    var c := k.current.value;
    if IsLocked(k) {
      BlockWhileLocked(k, q);
    } else {
      BlockLockedShape(k, q);
      var blocked := BlockLocked(k, q).0;
      var deadline := k.now + UsToTicks(us);
      var timed := SetTask(blocked, c, TaskOf(blocked, c).(
        wakeup := Low(deadline), waitingOnTimer := true, result := NoResult)).(
        due := blocked.due[c := deadline],
        pc := blocked.pc[c := Waiting(q, true, k.arrivals)]);
      TimeoutInsertLets(timed, c, t);
    }
  }

  lemma DelayLets(k: Kernel, until: nat, t: TaskId)
    requires Core(k) && MayBlock(k) && k.current != Some(t)
    ensures LetsSleep(k, Delay(k, until), t)
  {
    hide Core, ReadyRemove, TimeoutInsert;
    RunningTaskOk(k);
    var c := k.current.value;
    var asleep := SetTask(k, c, TaskOf(k, c).(
      wakeup := Low(until), waitingOnTimer := true, result := NoResult, state := Blocked)).(
      due := k.due[c := until]);
    Unremoved(asleep, c);
    TimeoutInsertLets(asleep, c, t);
  }

  lemma WakeLets(k: Kernel, q: QueueId, result: WaitResult, t: TaskId)
    requires Core(k) && (result == Object || result == Destroyed)
    requires At(k, WaitList(q)) == [] || At(k, WaitList(q))[0] != t
    ensures LetsSleep(k, WakeResult(k, q, result).0, t)
  {
    hide Core, WakeResult;
    if At(k, WaitList(q)) == [] {
      WakeNobody(k, q, result);
    } else {
      WakeResultKeeps(k, q, result);
    }
  }

  lemma {:induction false} WakeAllLets(k: Kernel, q: QueueId, result: WaitResult, t: TaskId)
    requires Inv(k) && (result == Object || result == Destroyed) && t !in At(k, WaitList(q))
    ensures LetsSleep(k, WakeAll(k, q, result).0, t)
    decreases |At(k, WaitList(q))|
  {
    hide Inv, WakeResult;
    if At(k, WaitList(q)) != [] {
      InvTime(k);
      WakeResultShrinks(k, q, result);
      WakeLets(k, q, result, t);
      WakeKeepsInv(k, q, result, false);
      WakeAllLets(WakeResult(k, q, result).0, q, result, t);
    }
  }

  lemma DeleteLets(k: Kernel, u: TaskId, t: TaskId)
    requires Core(k) && u != t
    ensures LetsSleep(k, Delete(k, u).0, t)
  {
    hide Core, MarkDeleted;
    if Delete(k, u).1 == Ok {
      MarkDeletedKeeps(k, u);
    }
  }

  lemma ReapLets(k: Kernel, t: TaskId)
    requires Core(k) && t in k.timeouts
    ensures LetsSleep(k, Reap(k), t)
  {
    hide Core, Without;
    if At(k, DeletedList) != [] {
      DeadIsDeleted(k, At(k, DeletedList)[0]);
    }
  }

  /** `op` wakes `t` from a wait queue or deletes it. */
  ghost predicate Disturbs(k: Kernel, op: Op, t: TaskId) {
    match op
    case DoWake(q, _, _) => At(k, WaitList(q)) != [] && At(k, WaitList(q))[0] == t
    case DoWakeAll(q, _) => t in At(k, WaitList(q))
    case DoDelete(u) => u == t
    case _ => false
  }

  /** The clock after a step. */
  function Clock(k: Kernel, op: Op): nat {
    if (op.DoTrap? || op.DoExpire?) && op.systick then op.now else k.now
  }

  lemma SleeperIsNotCurrent(k: Kernel, t: TaskId)
    requires Core(k) && t in k.timeouts
    ensures t in k.tasks && TaskOf(k, t).state == Blocked && !(CurrentIs(k, Running) && k.current == Some(t))
  {
    hide Core;
    TimeoutListIsBlocked(k, t);
  }

  /** Any step that neither traps nor disturbs `t` lets it sleep. */
  lemma QuietStepLets(k: Kernel, op: Op, t: TaskId)
    requires Inv(k) && Enabled(k, op) && t in k.timeouts && !Disturbs(k, op, t) && !op.DoTrap? && !op.DoExpire?
    ensures LetsSleep(k, Apply(k, op), t)
  {
    hide Core, AllInFuture, Decide, PickNext, BlockTimeout, Delay, WakeResult, WakeAll, ReadyEnqueue, Delete, StepDown,
         Reap;
    SleeperIsNotCurrent(k, t);
    match op
    case DoStart => PickNextKeepsTime(k);
    case DoDecide(systick) => DecideKeepsTime(k, systick);
    case DoYield =>
      if CurrentIs(k, Running) {
        StepDownKeepsTime(k);
      }
    case DoLock =>
    case DoUnlock =>
    case DoBlock(q, us) => BlockLets(k, q, us, t);
    case DoSleep(until) => DelayLets(k, until, t);
    case DoWake(q, result, isr) =>
      WakeLets(k, q, result, t);
      WakeLets(k, q, Object, t);
    case DoWakeAll(q, result) => WakeAllLets(k, q, result, t);
    case DoResume =>
    case DoCreate(u, priority) =>
      ReadyEnqueueMoves(SetTask(k, u, Task(priority, Ready, Unlinked, false, 0, NoResult)), u);
    case DoDelete(u) => DeleteLets(k, u, t);
    case DoReap => ReapLets(k, t);
  }

  /** An expiry wakes the sleeper, with TIMEOUT, exactly if the clock has come to its deadline. */
  lemma ExpiryOnTime(k: Kernel, systick: bool, now: nat, t: TaskId, deadline: nat)
    requires Inv(k) && k.now <= now < k.now + HALF && AsleepUntil(k, t, deadline)
    ensures var k' := TrapExpire(k, systick, now);
            && k'.now == (if systick then now else k.now) && k'.pc == k.pc
            && if deadline <= k'.now then t !in k'.timeouts && TaskOf(k', t) == TimedOutTask(TaskOf(k, t))
               else AsleepUntil(k', t, deadline)
  {
    hide Core, WakeExpired, AllInFuture, AllNear;
    TimeKeeps(k, now);
    AfterTickNear(k, now);
    AfterTickNear(k, k.now);
    WakeExpiredExact(if systick then k.(now := now) else k);
  }

  /** Over one step of any kind the sleeper, not disturbed, sleeps on exactly if the clock is still short of its
      deadline; otherwise it is awake with TIMEOUT. */
  lemma StepOnTime(k: Kernel, op: Op, t: TaskId, deadline: nat)
    requires Inv(k) && Enabled(k, op) && AsleepUntil(k, t, deadline) && !Disturbs(k, op, t)
    ensures var k' := Apply(k, op);
            && k'.now == Clock(k, op)
            && if deadline <= k'.now then t !in k'.timeouts && Awake(TaskOf(k', t)) && TaskOf(k', t).result == Timeout
               else AsleepUntil(k', t, deadline)
  {
    hide Core, AllInFuture, Apply, TrapExpire, Enabled, Decide;
    if op.DoTrap? || op.DoExpire? {
      TickBounds(k, op);
      ExpiryOnTime(k, op.systick, op.now, t, deadline);
      TrapExpireKeeps(k, op.systick, op.now);
      var woken := TrapExpire(k, op.systick, op.now);
      SleeperIsNotCurrent(k, t);
      if op.DoTrap? {
        DecideKeepsTime(woken, op.systick);
        DecideFrame(woken, op.systick);
        ApplyIs(k, op);
        assert DueOf(Apply(k, op), t) == DueOf(woken, t);
        if deadline <= woken.now {
          assert t in woken.tasks;
          assert SameButRun(TaskOf(woken, t), TaskOf(Apply(k, op), t));
        }
      } else {
        ApplyIs(k, op);
      }
    } else {
      QuietStepLets(k, op, t);
      StillAhead(k, t);
    }
  }

  lemma TickBounds(k: Kernel, op: Op)
    requires Enabled(k, op) && (op.DoTrap? || op.DoExpire?)
    ensures k.current.Some? && k.now <= op.now < k.now + HALF
  {
  }

  lemma ApplyIs(k: Kernel, op: Op)
    requires k.current.Some? && (op.DoTrap? || op.DoExpire?)
    ensures var woken := TrapExpire(k, op.systick, op.now);
            Apply(k, op) == if op.DoTrap? then Decide(woken, op.systick) else woken
  {
    hide TrapExpire, Decide;
  }

  lemma StillAhead(k: Kernel, t: TaskId)
    requires AllInFuture(k) && t in k.timeouts
    ensures k.now < DueOf(k, t)
  {
  }

  // ----- runs

  /** Along the run nobody wakes `t` from a wait queue or deletes it, and it does not end its call. */
  ghost predicate LeftAlone(k: Kernel, ops: seq<Op>, t: TaskId)
    decreases |ops|
  {
    ops != [] ==> !Disturbs(k, ops[0], t) && !Ends(k, ops[0], t) && LeftAlone(Apply(k, ops[0]), ops[1..], t)
  }

  /** `t` waits, timed, until `deadline`; or the clock has reached it and `t` is settled with TIMEOUT. */
  ghost predicate OnTime(k: Kernel, t: TaskId, pc: Pc, deadline: nat) {
    if k.now < deadline then AsleepUntil(k, t, deadline) && PcOf(k, t) == pc && TaskOf(k, t).result == NoResult
    else Settled(k, t, pc, Timeout) && t !in k.timeouts
  }

  /** A sleeper's own call is not ended by the steps of others. */
  lemma PcStays(k: Kernel, op: Op, t: TaskId)
    requires Inv(k) && Enabled(k, op) && t in k.timeouts && op != DoDelete(t)
    ensures PcOf(Apply(k, op), t) == PcOf(k, t)
  {
    hide Core, AllInFuture, Trap, TrapExpire, Decide, PickNext, BlockTimeout, Delay, WakeResult, WakeAll, ReadyEnqueue,
         Delete, Yield, DecisionFrame, QueueFrame, WokenTask;
    SleeperIsNotCurrent(k, t);
    match op
    case DoStart =>
      LockMeansRunning(k);
      PickNextFrame(k);
      FramePc(k, PickNext(k));
    case DoTrap(systick, now) => TrapKeepsQueue(k, systick, now, 0);
    case DoExpire(systick, now) => TrapExpireKeepsQueue(k, systick, now, 0);
    case DoDecide(systick) => DecideKeepsQueue(k, systick, 0);
    case DoYield =>
      YieldFrame(k);
      FramePc(k, Yield(k));
    case DoLock =>
    case DoUnlock =>
    case DoBlock(q, us) => BlockTimeoutMoves(k, q, us);
    case DoSleep(until) => DelayMoves(k, until);
    case DoWake(q, result, isr) =>
      if At(k, WaitList(q)) == [] {
        WakeNobody(k, q, result);
        WakeNobody(k, q, Object);
      } else {
        WokenMoves(k, q, result);
      }
    case DoWakeAll(q, result) => WakeAllMoves(k, q, result);
    case DoResume =>
    case DoCreate(u, priority) =>
      ReadyEnqueueMoves(SetTask(k, u, Task(priority, Ready, Unlinked, false, 0, NoResult)), u);
    case DoDelete(u) =>
      if Delete(k, u).1 == Ok {
        DeleteMoves(k, u);
      } else {
        DeleteRefused(k, u);
      }
    case DoReap =>
      if At(k, DeletedList) != [] {
        DeadIsDeleted(k, At(k, DeletedList)[0]);
      }
  }

  /** Only a tick moves the clock, and never back. */
  lemma ClockRuns(k: Kernel, op: Op)
    requires Inv(k) && Enabled(k, op)
    ensures Apply(k, op).now == Clock(k, op) >= k.now
  {
    hide Core, AllInFuture, TrapExpire, Decide, PickNext, BlockTimeout, WakeResult, WakeAll, ReadyEnqueue, Delete,
         StepDown, TimeoutInsert, Without;
    match op
    case DoStart => PickNextKeepsTime(k);
    case DoTrap(systick, now) =>
      ExpiryClock(k, systick, now);
      DecideKeepsTime(TrapExpire(k, systick, now), systick);
    case DoExpire(systick, now) => ExpiryClock(k, systick, now);
    case DoDecide(systick) => DecideKeepsTime(k, systick);
    case DoYield =>
      if CurrentIs(k, Running) {
        StepDownKeepsTime(k);
      }
    case DoBlock(q, us) => BlockTimeoutMoves(k, q, us);
    case DoSleep(until) => TimeoutInsertOnlyTimeouts();
    case DoWake(q, result, isr) =>
      if At(k, WaitList(q)) == [] {
        WakeNobody(k, q, result);
        WakeNobody(k, q, Object);
      } else {
        WakeResultKeeps(k, q, result);
        WakeResultKeeps(k, q, Object);
      }
    case DoWakeAll(q, result) => WakeAllClock(k, q, result);
    case DoCreate(u, priority) =>
      ReadyEnqueueMoves(SetTask(k, u, Task(priority, Ready, Unlinked, false, 0, NoResult)), u);
    case DoDelete(u) =>
      if Delete(k, u).1 == Ok {
        DeleteClock(k, u);
      } else {
        DeleteRefused(k, u);
      }
    case _ =>
  }

  lemma ExpiryClock(k: Kernel, systick: bool, now: nat)
    requires Inv(k) && k.now <= now < k.now + HALF
    ensures TrapExpire(k, systick, now).now == if systick then now else k.now
  {
    hide Core, WakeExpired, AllInFuture, AllNear;
    TimeKeeps(k, now);
    AfterTickNear(k, now);
    AfterTickNear(k, k.now);
    WakeExpiredExact(if systick then k.(now := now) else k);
  }

  lemma {:induction false} WakeAllClock(k: Kernel, q: QueueId, result: WaitResult)
    requires Inv(k) && (result == Object || result == Destroyed)
    ensures WakeAll(k, q, result).0.now == k.now
    decreases |At(k, WaitList(q))|
  {
    hide Inv, WakeResult;
    if At(k, WaitList(q)) != [] {
      InvTime(k);
      WakeResultShrinks(k, q, result);
      WakeResultKeeps(k, q, result);
      WakeKeepsInv(k, q, result, false);
      WakeAllClock(WakeResult(k, q, result).0, q, result);
    }
  }

  lemma DeleteClock(k: Kernel, u: TaskId)
    requires Core(k) && Delete(k, u).1 == Ok
    ensures Delete(k, u).0.now == k.now
  {
    hide Core, MarkDeleted;
    MarkDeletedKeeps(k, u);
  }

  lemma {:induction false} RunOnTime(k: Kernel, ops: seq<Op>, t: TaskId, pc: Pc, deadline: nat)
    requires Inv(k) && Legal(k, ops) && LeftAlone(k, ops, t) && pc.Waiting? && OnTime(k, t, pc, deadline)
    ensures OnTime(Run(k, ops), t, pc, deadline)
    decreases |ops|
  {
    hide Inv, Enabled, Apply, Disturbs, OnTime;
    if ops != [] {
      StepKeeps(k, ops[0]);
      StepKeepsOnTime(k, ops[0], t, pc, deadline);
      RunOnTime(Apply(k, ops[0]), ops[1..], t, pc, deadline);
    }
  }

  lemma StepKeepsOnTime(k: Kernel, op: Op, t: TaskId, pc: Pc, deadline: nat)
    requires Inv(k) && Enabled(k, op) && !Disturbs(k, op, t) && !Ends(k, op, t) && pc.Waiting?
    requires OnTime(k, t, pc, deadline)
    ensures OnTime(Apply(k, op), t, pc, deadline)
  {
    hide Inv, Apply, Enabled, Disturbs, AsleepUntil, Settled, Ends;
    if k.now < deadline {
      StepOnTime(k, op, t, deadline);
      AsleepIsListed(k, t, deadline);
      DisturbsIfDeletes(k, op, t);
      PcStays(k, op, t);
      StepKeeps(k, op);
      var k' := Apply(k, op);
      AwakeIsSettled(k', t, pc);
      if k'.now < deadline {
        AsleepIsListed(k', t, deadline);
        WaitingOrSettled(k', t);
      }
    } else {
      SettledStays(k, op, t, pc, Timeout);
      StepKeeps(k, op);
      SettledOffLists(Apply(k, op), t, pc, Timeout);
      ClockRuns(k, op);
    }
  }

  lemma AsleepIsListed(k: Kernel, t: TaskId, deadline: nat)
    requires AsleepUntil(k, t, deadline)
    ensures t in k.timeouts
  {
  }

  lemma DisturbsIfDeletes(k: Kernel, op: Op, t: TaskId)
    requires !Disturbs(k, op, t)
    ensures op != DoDelete(t)
  {
  }

  lemma AwakeIsSettled(k: Kernel, t: TaskId, pc: Pc)
    requires PcOf(k, t) == pc && pc.Waiting?
    ensures Awake(TaskOf(k, t)) && TaskOf(k, t).result == Timeout ==> Settled(k, t, pc, Timeout)
  {
  }

  /** A timed wait that nobody ends early: over any run it has no result while the clock is short of the tick it began
      at plus its ticks, and TIMEOUT from the first expiry at or past that tick on. */
  lemma TimesOutOnTime(k: Kernel, q: QueueId, us: uint64, ops: seq<Op>)
    requires Inv(k) && Calling(k) && !IsLocked(k) && us != FOREVER_US && 0 < UsToTicks(us) < HALF
    requires var k' := BlockTimeout(k, q, us).0;
             Legal(k', ops) && LeftAlone(k', ops, k.current.value)
    ensures var k', c := BlockTimeout(k, q, us).0, k.current.value;
            var end := Run(k', ops);
            && BlockTimeout(k, q, us).1 == Ok
            && PcOf(end, c) == Waiting(q, true, k.arrivals)
            && (if end.now < k.now + UsToTicks(us) then
                  TaskOf(end, c).state == Blocked && TaskOf(end, c).result == NoResult
                else Awake(TaskOf(end, c)) && TaskOf(end, c).result == Timeout)
  {
    hide Core, AllInFuture, BlockTimeout, UsToTicks;
    BlockAnswers(k, q, us);
    BlockTimeoutKeeps(k, q, us);
    BlockTimeoutMoves(k, q, us);
    var k', c := BlockTimeout(k, q, us).0, k.current.value;
    RunOnTime(k', ops, c, Waiting(q, true, k.arrivals), k.now + UsToTicks(us));
    RunKeeps(k', ops);
    WaitingOrSettled(Run(k', ops), c);
  }

  /** Along the run nobody deletes `t` (a sleeper is on no wait queue), and the clock is short of `deadline`. */
  ghost predicate SleepsThrough(k: Kernel, ops: seq<Op>, t: TaskId, deadline: nat)
    decreases |ops|
  {
    k.now < deadline && (ops != [] ==> ops[0] != DoDelete(t) && SleepsThrough(Apply(k, ops[0]), ops[1..], t, deadline))
  }

  /** A sleeper outside any wait is on no wait queue, so only its deletion disturbs it. */
  lemma OnlyDeletionDisturbs(k: Kernel, op: Op, t: TaskId)
    requires Inv(k) && PcOf(k, t) == User && op != DoDelete(t)
    ensures !Disturbs(k, op, t)
  {
    hide Core, AllInFuture;
    if op.DoWake? || op.DoWakeAll? {
      WaiterIsWaiting(k, t, op.queue);
    }
  }

  lemma {:induction false} RunSleeps(k: Kernel, ops: seq<Op>, t: TaskId, deadline: nat)
    requires Inv(k) && Legal(k, ops) && AsleepUntil(k, t, deadline) && PcOf(k, t) == User
    requires SleepsThrough(k, ops, t, deadline)
    ensures Inv(Run(k, ops)) && AsleepUntil(Run(k, ops), t, deadline) && PcOf(Run(k, ops), t) == User
    decreases |ops|
  {
    hide Inv, Enabled, Apply, AsleepUntil, Disturbs;
    if ops != [] {
      AsleepIsListed(k, t, deadline);
      OnlyDeletionDisturbs(k, ops[0], t);
      StepOnTime(k, ops[0], t, deadline);
      PcStays(k, ops[0], t);
      StepKeeps(k, ops[0]);
      assert SleepsThrough(Apply(k, ops[0]), ops[1..], t, deadline);
      RunSleeps(Apply(k, ops[0]), ops[1..], t, deadline);
    }
  }

  /** A sleep: over any run that leaves the clock short of the tick slept for, the task is asleep, and the step that
      takes the clock to it, or past it, wakes it. */
  lemma SleepsOnTime(k: Kernel, until: nat, ops: seq<Op>, op: Op)
    requires Inv(k) && Calling(k) && !IsLocked(k) && k.now < until < k.now + HALF
    requires var k', c := Delay(k, until), k.current.value;
             && Legal(k', ops) && SleepsThrough(k', ops, c, until)
             && Enabled(Run(k', ops), op) && op != DoDelete(c)
    ensures var end, c := Run(Delay(k, until), ops), k.current.value;
            && c in end.timeouts && TaskOf(end, c).state == Blocked
            && var after := Apply(end, op);
               if after.now < until then c in after.timeouts && TaskOf(after, c).state == Blocked
               else c !in after.timeouts && Awake(TaskOf(after, c))
  {
    hide Core, AllInFuture, Delay, Disturbs, Apply, Enabled;
    var k', c := Delay(k, until), k.current.value;
    DelayAnswers(k, until);
    DelayKeeps(k, until);
    DelayMoves(k, until);
    assert PcOf(k', c) == User;
    RunSleeps(k', ops, c, until);
    var end := Run(k', ops);
    SleeperIsNotCurrent(end, c);
    OnlyDeletionDisturbs(end, op, c);
    StepOnTime(end, op, c, until);
    StepKeeps(end, op);
    var after := Apply(end, op);
    if after.now < until {
      SleeperIsNotCurrent(after, c);
    }
  }
}
