/** When each call on a mutex succeeds, what it answers when it does not, and that as many unlocks as locks let it
    go. */
module MutexAnswers {
  import opened Common
  import opened CallOutcome
  import opened TickTime
  import opened KernelState
  import opened KernelInvariant
  import opened KernelBlocking
  import opened KernelFrames
  import opened KernelTimeouts
  import opened OwnQueue
  import opened Mutex

  /** The mutex is free or the caller's own. */
  predicate Available(m: System) {
    m.mutex.owner == None || m.mutex.owner == m.kernel.current
  }

  /** A new mutex is live and free: anyone's first lock of it succeeds. */
  lemma InitAnswers(m: System)
    requires Fresh(m) && Calling(m.kernel)
    ensures !m.mutex.destroyed && Available(m) && StepOf(m, TryLockCalled).outcome == Returns(Ok)
  {
    hide Inv;
  }

  /** A lock succeeds without waiting exactly if the mutex is free or the caller's; the caller then holds it once
      more. */
  lemma TryLockAnswers(m: System)
    requires MutexInv(m) && CanHappen(m, TryLockCalled) && !m.mutex.destroyed
    ensures var step := StepOf(m, TryLockCalled);
            && (step.outcome == Returns(Ok) <==> Available(m))
            && (step.outcome == Returns(Busy) <==> !Available(m))
            && step.kernel == m.kernel
            && step.mutex == (if !Available(m) then m.mutex
                              else m.mutex.(owner := m.kernel.current,
                                            lockCount := HeldBy(m, m.kernel.current.value) + 1))
  {
    hide Inv, Holders, NoneTold, At;
  }

  /** Another's mutex is waited for, unless the scheduler lock is held or the time is no tick. */
  lemma LockAnswers(m: System, us: uint64)
    requires MutexInv(m) && CanHappen(m, LockCalled(us)) && !m.mutex.destroyed
    ensures var k, q, c := m.kernel, m.mutex.queue, m.kernel.current.value;
            var step := StepOf(m, LockCalled(us));
            var noTime := us != FOREVER_US && UsToTicks(us) == 0;
            && (step.outcome == Returns(Ok) <==> Available(m))
            && (step.outcome == Returns(TimedOut) <==> !Available(m) && noTime)
            && (step.outcome == Returns(Locked) <==> !Available(m) && !noTime && IsLocked(k))
            && (step.outcome == Suspends <==> !Available(m) && !noTime && !IsLocked(k))
            && (Available(m) ==> step == StepOf(m, TryLockCalled))
            && (!Available(m) ==> step.mutex == m.mutex)
            && (step.outcome == Suspends ==>
                  && c in At(step.kernel, WaitList(q))
                  && (us != FOREVER_US ==> AsleepUntil(step.kernel, c, k.now + UsToTicks(us))))
  {
    hide Inv, Holders, NoneTold, At, BlockTimeout, UsToTicks, AsleepUntil;
    BlockAnswers(m.kernel, m.mutex.queue, us);
  }

  /** An unlock succeeds exactly if the caller has locked the mutex more often than it has unlocked it. The last one
      hands the mutex to the first waiter, locked once, or frees it; the others only take one off the count. */
  lemma UnlockAnswers(m: System)
    requires MutexInv(m) && CanHappen(m, UnlockCalled) && !m.mutex.destroyed
    ensures var k, x, c := m.kernel, m.mutex, m.kernel.current.value;
            var step := StepOf(m, UnlockCalled);
            var waiters := At(k, WaitList(x.queue));
            && (step.outcome == Returns(Ok) <==> HeldBy(m, c) > 0)
            && (step.outcome == Returns(NotPermitted) <==> HeldBy(m, c) == 0)
            && (HeldBy(m, c) == 0 ==> step.kernel == k && step.mutex == x)
            && (HeldBy(m, c) > 1 ==> step.kernel == k && step.mutex == x.(lockCount := x.lockCount - 1))
            && (HeldBy(m, c) == 1 && waiters == [] ==>
                  step.kernel == k && step.mutex == x.(owner := None, lockCount := 0))
            && (HeldBy(m, c) == 1 && waiters != [] ==>
                  && step.mutex == x.(owner := Some(waiters[0]), lockCount := 1)
                  && At(step.kernel, WaitList(x.queue)) == waiters[1..]
                  && Holders(step.kernel, x.queue) == Holders(k, x.queue) + {waiters[0]})
  {
    hide Inv, Holders, NoneTold, WakeResult, At;
    WakeOwn(m.kernel, m.mutex.queue, false);
  }

  lemma DestroyedAnswers(m: System, us: uint64)
    requires m.mutex.destroyed && m.kernel.current.Some?
    ensures StepOf(m, TryLockCalled) == Step(m.kernel, m.mutex, Returns(WasDestroyed))
    ensures StepOf(m, LockCalled(us)) == Step(m.kernel, m.mutex, Returns(WasDestroyed))
    ensures StepOf(m, UnlockCalled) == Step(m.kernel, m.mutex, Returns(WasDestroyed))
    ensures StepOf(m, DestroyCalled) == Step(m.kernel, m.mutex, Returns(BadState))
  {
  }

  /** Destruction frees the mutex, and everyone who waited is to be told of it. */
  lemma DestroyAnswers(m: System)
    requires MutexInv(m) && !m.mutex.destroyed
    ensures var q := m.mutex.queue;
            var step := StepOf(m, DestroyCalled);
            && step.outcome == Returns(Ok)
            && step.mutex == m.mutex.(destroyed := true, owner := None, lockCount := 0)
            && At(step.kernel, WaitList(q)) == []
            && forall t | t in At(m.kernel, WaitList(q)) :: Handed(step.kernel, t, q, Destroyed)
  {
    hide Inv, WakeAll, Handed;
    DestroyOwn(m.kernel, m.mutex.queue);
  }

  /** A resumed lock answers by what woke it: OK with the mutex, DESTROYED if told, TIMEOUT otherwise. A hand-off that
      destruction overtook is no lock. */
  lemma AwakenAnswers(m: System)
    requires MutexInv(m) && CanHappen(m, LockResumed)
    ensures var k, q, c := m.kernel, m.mutex.queue, m.kernel.current.value;
            var step := StepOf(m, LockResumed);
            && step.mutex == m.mutex
            && (step.outcome == Returns(WasDestroyed) <==> Handed(k, c, q, Destroyed))
            && (step.outcome == Returns(Ok) ==> c in Holders(k, q) && m.mutex.owner == Some(c))
            && (!m.mutex.destroyed && c in Holders(k, q) ==> step.outcome == Returns(Ok))
            && (TaskOf(k, c).result == Timeout && m.mutex.owner != Some(c) ==> step.outcome == Returns(TimedOut))
  {
    hide Inv, Holders, Handed, At;
    ResumeFinds(m.kernel, m.mutex.queue);
    ResumeOwn(m.kernel, m.mutex.queue);
    if !m.mutex.destroyed {
      AwakenReturns(m);
    }
  }

  // ----- nesting

  function Locks(n: nat): seq<Event> {
    seq(n, i => TryLockCalled)
  }

  function Unlocks(n: nat): seq<Event> {
    seq(n, i => UnlockCalled)
  }

  lemma {:induction false} LocksNest(m: System, n: nat)
    requires MutexInv(m) && !m.mutex.destroyed && Calling(m.kernel) && Available(m)
    requires m.mutex.lockCount + n <= UINT32_MAX
    ensures Legal(m, Locks(n))
    ensures var end := Run(m, Locks(n));
            && MutexInv(end) && end.kernel == m.kernel
            && end.mutex == if n == 0 then m.mutex
                            else m.mutex.(owner := m.kernel.current, lockCount := m.mutex.lockCount + n)
    decreases n
  {
    hide Inv, Holders, NoneTold, At, MutexInv, Calling;
    if n > 0 {
      CallingRuns(m.kernel);
      TryLockCounts(m);
      EventKeeps(m, TryLockCalled);
      LocksNest(Next(m, TryLockCalled), n - 1);
      assert Locks(n)[0] == TryLockCalled && Locks(n)[1..] == Locks(n - 1);
    }
  }

  lemma CallingRuns(k: Kernel)
    requires Calling(k)
    ensures k.current.Some?
  {
  }

  lemma TryLockCounts(m: System)
    requires MutexInv(m) && !m.mutex.destroyed && Calling(m.kernel) && Available(m)
    requires m.mutex.lockCount < UINT32_MAX
    ensures CanHappen(m, TryLockCalled)
    ensures var next := Next(m, TryLockCalled);
            && next.kernel == m.kernel
            && next.mutex == m.mutex.(owner := m.kernel.current, lockCount := m.mutex.lockCount + 1)
  {
    hide Inv, Holders, NoneTold, At;
  }

  /** An owner that has locked the mutex `n` times lets it go with its `n`-th unlock and not before. */
  lemma {:induction false} UnlocksLetGo(m: System, n: nat)
    requires MutexInv(m) && !m.mutex.destroyed && Calling(m.kernel) && m.mutex.owner == m.kernel.current
    requires 0 < n <= m.mutex.lockCount
    ensures Legal(m, Unlocks(n))
    ensures var end, x := Run(m, Unlocks(n)), m.mutex;
            var waiters := At(m.kernel, WaitList(x.queue));
            if n < x.lockCount then end.mutex == x.(lockCount := x.lockCount - n) && end.kernel == m.kernel
            else if waiters == [] then end.mutex == x.(owner := None, lockCount := 0)
            else end.mutex == x.(owner := Some(waiters[0]), lockCount := 1)
    decreases n
  {
    hide Inv, Holders, NoneTold, At, MutexInv, WakeResult, Calling, StepOf;
    CallingRuns(m.kernel);
    OwnerHolds(m);
    UnlockAnswers(m);
    assert Unlocks(n)[0] == UnlockCalled && Unlocks(n)[1..] == Unlocks(n - 1);
    var next := Next(m, UnlockCalled);
    assert CanHappen(m, UnlockCalled);
    if n == 1 {
      assert Unlocks(0) == [];
      assert Legal(next, Unlocks(0)) && Run(next, Unlocks(0)) == next;
    } else {
      EventKeeps(m, UnlockCalled);
      UnlocksLetGo(next, n - 1);
    }
  }

  lemma OwnerHolds(m: System)
    requires MutexInv(m) && !m.mutex.destroyed && m.mutex.owner.Some?
    ensures HeldBy(m, m.mutex.owner.value) == m.mutex.lockCount
  {
    hide Inv, Holders, NoneTold, At;
  }

  lemma {:induction false} RunConcat(m: System, a: seq<Event>, b: seq<Event>)
    requires Legal(m, a) && Legal(Run(m, a), b)
    ensures Legal(m, a + b) && Run(m, a + b) == Run(Run(m, a), b)
    decreases |a|
  {
    hide CanHappen, Next;
    if a == [] {
      assert a + b == b;
    } else {
      assert (a + b)[1..] == a[1..] + b;
      RunConcat(Next(m, a[0]), a[1..], b);
    }
  }

  /** A free mutex locked any number of times and unlocked as often is free again. */
  lemma LocksUndone(m: System, n: nat)
    requires MutexInv(m) && !m.mutex.destroyed && Calling(m.kernel) && m.mutex.owner == None && n <= UINT32_MAX
    ensures Legal(m, Locks(n) + Unlocks(n))
    ensures Run(m, Locks(n) + Unlocks(n)).mutex == m.mutex
  {
    hide Inv, Holders, NoneTold, MutexInv, Calling;
    FreeIsUnwanted(m);
    CallingRuns(m.kernel);
    LocksNest(m, n);
    if n > 0 {
      UnlocksLetGo(Run(m, Locks(n)), n);
    }
    RunConcat(m, Locks(n), Unlocks(n));
  }

  lemma FreeIsUnwanted(m: System)
    requires MutexInv(m) && !m.mutex.destroyed && m.mutex.owner == None
    ensures m.mutex.lockCount == 0 && At(m.kernel, WaitList(m.mutex.queue)) == []
  {
    hide Inv, Holders, NoneTold;
  }
}
