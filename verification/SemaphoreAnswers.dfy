/** When each call on a semaphore succeeds, and what it answers when it does not. */
module SemaphoreAnswers {
  import opened Common
  import opened CallOutcome
  import opened TickTime
  import opened KernelState
  import opened KernelInvariant
  import opened KernelFrames
  import opened KernelSchedule
  import opened KernelTimeouts
  import opened OwnQueue
  import opened Semaphore

  /** A semaphore starts with the permits it was asked to have, if that many can be; its maximum is never below them. */
  lemma InitAnswers(queue: QueueId, max: int, cnt: int)
    ensures var s := InitSem(queue, max, cnt);
            && s.queue == queue && !s.destroyed
            && (0 <= cnt <= max ==> s.cnt == cnt && s.max == max)
            && (cnt < 0 ==> s.cnt == 0)
            && (max < cnt ==> s.max == cnt)
            && (cnt <= max ==> s.max == max)
  {
  }

  /** A post on a live semaphore is refused exactly if nobody waits and the count is at its maximum. Otherwise the first
      waiter has the permit, or, if nobody waits, the count has one more. */
  lemma PostAnswers(m: System, isr: bool)
    requires SemInv(m)
    ensures var k, s := m.kernel, m.sem;
            var step := StepOf(m, Posted(isr));
            var waiters := At(k, WaitList(s.queue));
            && (step.outcome == Returns(WasDestroyed) <==> s.destroyed)
            && (step.outcome == Returns(Busy) <==> !s.destroyed && waiters == [] && s.cnt == s.max)
            && (step.outcome == Returns(Ok) <==> !s.destroyed && (waiters != [] || s.cnt < s.max))
            && (step.outcome != Returns(Ok) ==> step.kernel == k && step.sem == s)
            && (step.outcome == Returns(Ok) && waiters != [] ==>
                  && step.sem == s
                  && At(step.kernel, WaitList(s.queue)) == waiters[1..]
                  && Holders(step.kernel, s.queue) == Holders(k, s.queue) + {waiters[0]})
            && (step.outcome == Returns(Ok) && waiters == [] ==>
                  step.sem == s.(cnt := s.cnt + 1) && step.kernel == k.(pending := k.pending || isr))
            && (step.outcome == Returns(Ok) && isr ==> step.kernel.pending)
  {
    hide Inv, WakeResult, Holders, NoneTold, At;
    WakeOwn(m.kernel, m.sem.queue, isr);
    WakeAsks(m.kernel, m.sem.queue);
  }

  /** A wait on a live semaphore returns OK at once exactly if a permit is left; with none it is refused exactly under
      the scheduler lock, is over at once exactly if its time is no tick, and otherwise the caller waits. */
  lemma WaitAnswers(m: System, us: uint64)
    requires SemInv(m) && CanHappen(m, WaitCalled(us)) && !m.sem.destroyed
    ensures var k, s := m.kernel, m.sem;
            var step := StepOf(m, WaitCalled(us));
            && (step.outcome == Returns(Ok) <==> s.cnt > 0)
            && (step.outcome == Returns(Locked) <==> s.cnt == 0 && IsLocked(k))
            && (step.outcome == Returns(TimedOut) <==>
                  s.cnt == 0 && !IsLocked(k) && us != FOREVER_US && UsToTicks(us) == 0)
            && (step.outcome == Suspends <==>
                  s.cnt == 0 && !IsLocked(k) && (us == FOREVER_US || UsToTicks(us) > 0))
            && (step.sem == if s.cnt > 0 then s.(cnt := s.cnt - 1) else s)
            && (step.outcome == Suspends ==>
                  && k.current.value in At(step.kernel, WaitList(s.queue))
                  && (us != FOREVER_US ==> AsleepUntil(step.kernel, k.current.value, k.now + UsToTicks(us))))
            && (step.outcome == Returns(Locked) ==> step.kernel == k.(pending := true))
            && (step.outcome == Returns(Ok) || step.outcome == Returns(TimedOut) ==> step.kernel == k)
  {
    hide Inv, BlockTimeout, Holders, NoneTold, At, UsToTicks, AsleepUntil;
    BlockAnswers(m.kernel, m.sem.queue, us);
  }

  lemma TryWaitAnswers(m: System)
    requires SemInv(m) && !m.sem.destroyed
    ensures var s := m.sem;
            var step := StepOf(m, TryWaitCalled);
            && (step.outcome == Returns(Ok) <==> s.cnt > 0)
            && (step.outcome == Returns(Busy) <==> s.cnt == 0)
            && step.sem == (if s.cnt > 0 then s.(cnt := s.cnt - 1) else s)
            && step.kernel == m.kernel
  {
    hide Inv;
  }

  /** On a semaphore destroyed every call says so, and destroying it again is an error. */
  lemma DestroyedAnswers(m: System, us: uint64, isr: bool)
    requires m.sem.destroyed
    ensures StepOf(m, Posted(isr)) == Step(m.kernel, m.sem, Returns(WasDestroyed))
    ensures StepOf(m, WaitCalled(us)) == Step(m.kernel, m.sem, Returns(WasDestroyed))
    ensures StepOf(m, TryWaitCalled) == Step(m.kernel, m.sem, Returns(WasDestroyed))
    ensures StepOf(m, DestroyCalled) == Step(m.kernel, m.sem, Returns(BadState))
  {
  }

  /** Destruction leaves no permit, and everyone who waited is to be told of it. */
  lemma DestroyAnswers(m: System)
    requires SemInv(m) && !m.sem.destroyed
    ensures var q := m.sem.queue;
            var step := StepOf(m, DestroyCalled);
            && step.outcome == Returns(Ok) && step.sem == m.sem.(destroyed := true, cnt := 0)
            && At(step.kernel, WaitList(q)) == []
            && forall t | t in At(m.kernel, WaitList(q)) :: Handed(step.kernel, t, q, Destroyed)
  {
    hide Inv, WakeAll, Handed;
    DestroyOwn(m.kernel, m.sem.queue);
  }

  /** A resumed wait answers by what woke it: OK with a permit, DESTROYED if told, TIMEOUT otherwise. */
  lemma AwakenAnswers(m: System)
    requires SemInv(m) && CanHappen(m, WaitResumed)
    ensures var k, q, c := m.kernel, m.sem.queue, m.kernel.current.value;
            var step := StepOf(m, WaitResumed);
            && (step.outcome == Returns(Ok) <==> c in Holders(k, q))
            && (step.outcome == Returns(WasDestroyed) <==> Handed(k, c, q, Destroyed))
            && (step.outcome == Returns(TimedOut) <==> TaskOf(k, c).result == Timeout)
            && step.outcome in {Returns(Ok), Returns(WasDestroyed), Returns(TimedOut)}
            && step.sem == m.sem
  {
    hide Inv, Holders, Handed;
    ResumeFinds(m.kernel, m.sem.queue);
  }

  // ----- many posts, many waits

  /** With nobody waiting a semaphore takes as many posts in a row as are missing to its maximum, and no more. */
  lemma {:induction false} PostsFill(m: System, n: nat)
    requires SemInv(m) && !m.sem.destroyed && At(m.kernel, WaitList(m.sem.queue)) == [] && m.sem.cnt + n <= m.sem.max
    ensures var es := seq(n, i => Posted(true));
            && Legal(m, es)
            && var end := Run(m, es);
               && end.sem == m.sem.(cnt := m.sem.cnt + n) && end.posts == m.posts + n
               && (m.sem.cnt + n == m.sem.max ==> StepOf(end, Posted(true)).outcome == Returns(Busy))
    decreases n
  {
    hide Inv, Holders, NoneTold;
    var es := seq(n, i => Posted(true));
    if n > 0 {
      PostAnswers(m, true);
      PostKeeps(m, true);
      var next := Next(m, Posted(true));
      assert At(next.kernel, WaitList(m.sem.queue)) == [];
      PostsFill(next, n - 1);
      assert es[0] == Posted(true) && es[1..] == seq(n - 1, i => Posted(true));
    }
  }

  /** And gives them back, one to each of as many waits. */
  lemma {:induction false} WaitsDrain(m: System, n: nat)
    requires SemInv(m) && !m.sem.destroyed && n <= m.sem.cnt && CurrentIs(m.kernel, Running)
    ensures var es := seq(n, i => TryWaitCalled);
            && Legal(m, es)
            && var end := Run(m, es);
               && end.sem == m.sem.(cnt := m.sem.cnt - n) && end.returned == m.returned + n && end.kernel == m.kernel
               && (n == m.sem.cnt ==> StepOf(end, TryWaitCalled).outcome == Returns(Busy))
    decreases n
  {
    hide Inv, Holders, NoneTold;
    var es := seq(n, i => TryWaitCalled);
    if n > 0 {
      EventKeeps(m, TryWaitCalled);
      WaitsDrain(Next(m, TryWaitCalled), n - 1);
      assert es[0] == TryWaitCalled && es[1..] == seq(n - 1, i => TryWaitCalled);
    }
  }
}
