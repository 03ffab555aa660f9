/** From a timer's start: when it fires, how often, and that a stop is the end of it. */
module TimerAnswers {
  import opened TickTime
  import opened Timers

  /** What "due" means: `n` firings are due once the deadline and `n - 1` periods have passed, and no more until the
      next period has; a one-shot timer is due once. */
  lemma DueMeans(t: Active, now: nat, n: nat)
    ensures Due(t, now) == 0 <==> now < t.deadline
    ensures t.period == 0 ==> Due(t, now) <= 1
    ensures t.period > 0 && n > 0 ==>
              (Due(t, now) == n <==> t.deadline + (n - 1) * t.period <= now < t.deadline + n * t.period)
  {
    if t.period > 0 && n > 0 && t.deadline <= now {
      var x, p := now - t.deadline, t.period;
      assert x == p * (x / p) + x % p;
      if (n - 1) * p <= x < n * p {
        QuotientIs(x, p, n - 1);
      }
      if x / p == n - 1 {
        assert (n - 1) * p == p * (x / p);
        assert n * p == p * (x / p) + p;
      }
    } else if t.period > 0 && n > 0 {
      NotNegative(n - 1, t.period);
    }
  }

  lemma NotNegative(n: nat, p: nat)
    ensures n * p >= 0
  {
  }

  lemma QuotientIs(x: nat, p: nat, q: nat)
    requires p > 0 && q * p <= x < (q + 1) * p
    ensures x / p == q
  {
    assert (q + 1) * p == q * p + p;
    DivUnique(x, p, q, x - q * p);
  }

  /** A timer started now, whether or not it was running, and then left alone, fires first at the tick its delay comes
      to and then with its period: whatever else is started and stopped, however the ticks jump. */
  lemma StartedFires(s: State, id: TimerId, delay: uint32, period: uint32, ops: seq<Op>, ahead: nat)
    requires Settled(s, ahead) && ahead < HALF && Fits(StartTimer(id, delay, period), ahead)
    requires forall op | op in ops :: Timers.Fits(op, ahead) && !Mentions(op, id)
    ensures var next := Apply(s, StartTimer(id, delay, period), ahead).0;
            && Settled(next, ahead)
            && var (end, log) := Run(next, ops, ahead);
               CountOf(log, id) == if SomeTick(ops) then Due(Active(id, s.now + delay, period), end.now) else 0
  {
    hide Settled, RunExpired, CountOf, Due, SomeTick, Insert, Removed;
    var t := Active(id, s.now + delay, period);
    StepKeeps(s, StartTimer(id, delay, period), ahead);
    InsertHas(Removed(s.active, id), t);
    var next := Apply(s, StartTimer(id, delay, period), ahead).0;
    assert t in next.active;
    NoDriftNoSkip(next, ops, ahead, t);
  }

  /** A stopped timer never fires until it is started again. */
  lemma StopSilences(s: State, id: TimerId, ops: seq<Op>, ahead: nat)
    requires Settled(s, ahead) && ahead < HALF
    requires forall op | op in ops :: Fits(op, ahead) && !Mentions(op, id)
    ensures var next := Apply(s, StopTimer(id), ahead).0;
            Settled(next, ahead) && CountOf(Run(next, ops, ahead).1, id) == 0
  {
    hide RunExpired, CountOf, Sorted, Distinct, InWindow;
    StepKeeps(s, StopTimer(id), ahead);
    assert Sorted(s.active) && Distinct(s.active);
    RemovedIs(s.active, id);
    StoppedNeverFires(Apply(s, StopTimer(id), ahead).0, ops, ahead, Active(id, 0, 0));
  }

  /** Starting or stopping a timer leaves every other as it was. */
  lemma OthersUntouched(s: State, op: Op, t: Active, ahead: nat)
    requires Settled(s, ahead) && Fits(op, ahead) && !op.Tick? && t.id != op.id
    ensures t in Apply(s, op, ahead).0.active <==> t in s.active
    ensures Apply(s, op, ahead).1 == [] && Apply(s, op, ahead).0.now == s.now
  {
    hide Insert, Sorted, InWindow;
    RemovedIs(s.active, op.id);
    if op.StartTimer? {
      InsertHas(Removed(s.active, op.id), Active(op.id, s.now + op.delay, op.period));
    }
  }
}
