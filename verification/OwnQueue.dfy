/** What the calls of a blocking object do to its own wait queue and to the set of tasks handed OBJECT on it. */
module OwnQueue {
  import opened Common
  import opened TickTime
  import opened KernelState
  import opened KernelInvariant
  import opened KernelSteps
  import opened KernelBlocking
  import opened KernelWaking
  import opened KernelRuns
  import opened KernelFrames

  /** Waiters and handed outcomes of `q` are the same in both kernels. */
  ghost predicate SameQueue(k: Kernel, k': Kernel, q: QueueId) {
    && At(k', WaitList(q)) == At(k, WaitList(q))
    && (forall t, w :: Handed(k', t, q, w) <==> Handed(k, t, q, w))
    && Holders(k', q) == Holders(k, q)
    && (NoneTold(k, q) ==> NoneTold(k', q))
  }

  /** Nobody is on its way out of `q` with DESTROYED. */
  ghost predicate NoneTold(k: Kernel, q: QueueId) {
    forall t :: !Handed(k, t, q, Destroyed)
  }

  lemma HoldersFrom(k: Kernel, k': Kernel, q: QueueId)
    requires forall t, w :: Handed(k', t, q, w) <==> Handed(k, t, q, w)
    ensures Holders(k', q) == Holders(k, q)
  {
    HoldersAre(k, q);
    HoldersAre(k', q);
  }

  lemma PendingOwn(k: Kernel, q: QueueId, pending: bool)
    requires Inv(k)
    ensures Inv(k.(pending := pending)) && SameQueue(k, k.(pending := pending), q)
  {
    hide Core, AllInFuture;
    var k' := k.(pending := pending);
    LockMeansRunning(k);
    FlagsKeep(k, k.slice, k.lockCount, pending);
    FewerKeepFuture(k, k');
    forall t, w ensures Handed(k', t, q, w) <==> Handed(k, t, q, w) {
      assert PcOf(k', t) == PcOf(k, t);
    }
    HoldersFrom(k, k', q);
  }

  /** Waking one: the first waiter becomes a holder. */
  lemma WakeOwn(k: Kernel, q: QueueId, isr: bool)
    requires Inv(k)
    ensures var k' := if isr then WakeFromIsr(k, q).0 else WakeResult(k, q, Object).0;
            var woken := if isr then WakeFromIsr(k, q).1 else WakeResult(k, q, Object).1;
            var s := At(k, WaitList(q));
            && Inv(k')
            && (s == [] ==> k' == k && woken == None)
            && (s != [] ==>
                  && woken == Some(s[0])
                  && At(k', WaitList(q)) == s[1..]
                  && s[0] !in Holders(k, q)
                  && Holders(k', q) == Holders(k, q) + {s[0]}
                  && (NoneTold(k, q) ==> NoneTold(k', q))
                  && k'.pc == k.pc
                  && k'.current == k.current && k'.lockCount == k.lockCount && k'.idle == k.idle)
  {
    hide Core, AllInFuture, WakeResult;
    var s := At(k, WaitList(q));
    WakeKeepsInv(k, q, Object, isr);
    if s == [] {
      WakeNobody(k, q, Object);
    } else {
      WakeResultKeeps(k, q, Object);
      WokenMoves(k, q, Object);
      WakeResultShrinks(k, q, Object);
      WaiterIsWaiting(k, s[0], q);
      var k' := if isr then WakeFromIsr(k, q).0 else WakeResult(k, q, Object).0;
      forall t ensures Handed(k', t, q, Object) <==> Handed(k, t, q, Object) || t == s[0] {
        assert PcOf(k', t) == PcOf(k, t);
        assert TaskOf(k', t) == TaskOf(WakeResult(k, q, Object).0, t);
      }
      forall t ensures Handed(k', t, q, Destroyed) <==> Handed(k, t, q, Destroyed) {
        assert PcOf(k', t) == PcOf(k, t);
        assert TaskOf(k', t) == TaskOf(WakeResult(k, q, Object).0, t);
      }
      HoldersAre(k, q);
      HoldersAre(k', q);
    }
  }

  /** Waking all on destruction: nobody waits any more, nobody new holds. */
  lemma DestroyOwn(k: Kernel, q: QueueId)
    requires Inv(k)
    ensures var k' := WakeAll(k, q, Destroyed).0;
            && Inv(k')
            && At(k', WaitList(q)) == []
            && Holders(k', q) == Holders(k, q)
            && (forall t | t in At(k, WaitList(q)) :: Handed(k', t, q, Destroyed))
  {
    hide Core, AllInFuture, WakeAll;
    WakeAllKeeps(k, q, Destroyed);
    WakeAllMoves(k, q, Destroyed);
    var k' := WakeAll(k, q, Destroyed).0;
    forall t
      ensures Handed(k', t, q, Object) <==> Handed(k, t, q, Object)
      ensures t in At(k, WaitList(q)) ==> Handed(k', t, q, Destroyed)
    {
      WaiterIsWaiting(k, t, q);
      assert PcOf(k', t) == PcOf(k, t);
    }
    HoldersAre(k, q);
    HoldersAre(k', q);
  }

  /** Blocking: the caller joins the waiters, or an error leaves the queue alone. */
  lemma BlockOwn(k: Kernel, q: QueueId, us: uint64)
    requires Inv(k) && MayBlock(k) && PcOf(k, k.current.value) == User
    requires us != FOREVER_US ==> UsToTicks(us) < HALF
    ensures var (k', code) := BlockTimeout(k, q, us);
            var c := k.current.value;
            && Inv(k')
            && Holders(k', q) == Holders(k, q)
            && (NoneTold(k, q) ==> NoneTold(k', q))
            && (code == Ok ==>
                  && !IsLocked(k)
                  && (forall t :: t in At(k', WaitList(q)) <==> t in At(k, WaitList(q)) || t == c)
                  && PcOf(k', c) == Waiting(q, us != FOREVER_US, k.arrivals))
            && (forall t | t != c :: PcOf(k', t) == PcOf(k, t))
            && (code != Ok ==>
                  && At(k', WaitList(q)) == At(k, WaitList(q)) && k'.pc == k.pc
                  && (code == Locked || code == TimedOut))
  {
    hide Core, AllInFuture, BlockTimeout;
    BlockTimeoutMoves(k, q, us);
    BlockTimeoutKeeps(k, q, us);
    var (k', code) := BlockTimeout(k, q, us);
    var c := k.current.value;
    forall t, w ensures Handed(k', t, q, w) <==> Handed(k, t, q, w) {
      if t != c {
        assert PcOf(k', t) == PcOf(k, t) && TaskOf(k', t) == TaskOf(k, t);
      }
    }
    HoldersFrom(k, k', q);
    if code == Ok {
      forall t ensures t in At(k', WaitList(q)) <==> t in At(k, WaitList(q)) || t == c {
        WaiterNode(k, t, q);
        WaiterNode(k', t, q);
      }
    }
  }

  /** Resuming: the caller's token, if it has one, is spent. */
  lemma ResumeOwn(k: Kernel, q: QueueId)
    requires Inv(k) && CurrentIs(k, Running)
    ensures var k' := Resume(k);
            var c := k.current.value;
            && Inv(k')
            && At(k', WaitList(q)) == At(k, WaitList(q))
            && Holders(k', q) == Holders(k, q) - {c}
            && (NoneTold(k, q) ==> NoneTold(k', q))
            && (forall t :: WaitsOn(k', t, q) ==> WaitsOn(k, t, q))
            && PcOf(k', c) == User
            && k'.current == k.current && k'.lockCount == k.lockCount && k'.idle == k.idle
            && CurrentIs(k', Running)
  {
    hide Core, AllInFuture;
    var k' := Resume(k);
    var c := k.current.value;
    ResumeKeeps(k);
    forall t, w ensures Handed(k', t, q, w) <==> Handed(k, t, q, w) && t != c {
      assert t != c ==> PcOf(k', t) == PcOf(k, t);
    }
    HoldersAre(k, q);
    HoldersAre(k', q);
  }

  /** Anything else in the kernel: the queue may lose waiters, and a deleted holder takes its token with it. */
  lemma ForeignOwn(k: Kernel, op: Op, q: QueueId)
    requires Inv(k) && Enabled(k, op) && Foreign(k, op, q)
    ensures var k' := Apply(k, op);
            && Inv(k')
            && (forall t :: t in At(k', WaitList(q)) ==> t in At(k, WaitList(q)))
            && (NoneTold(k, q) ==> NoneTold(k', q))
            && (forall t :: WaitsOn(k', t, q) ==> WaitsOn(k, t, q))
            && Holders(k', q) == Holders(k, q) - (if op.DoDelete? && Deletes(k, op, op.task) then {op.task} else {})
  {
    hide Inv, Apply, Enabled, Foreign;
    ForeignStep(k, op, q);
    ForeignPc(k, op, q);
    StepKeeps(k, op);
    HoldersAre(k, q);
    HoldersAre(Apply(k, op), q);
  }

  /** The result the current task finds on resuming a wait on `q`. */
  lemma ResumeFinds(k: Kernel, q: QueueId)
    requires Inv(k) && CurrentIs(k, Running)
    requires PcOf(k, k.current.value).Waiting? && PcOf(k, k.current.value).queue == q
    ensures var c := k.current.value;
            var result := TaskOf(k, c).result;
            && result != NoResult
            && (result == Timeout ==> PcOf(k, c).timed)
            && (result == Object <==> c in Holders(k, q))
            && (result == Destroyed <==> Handed(k, c, q, Destroyed))
  {
    hide Core, AllInFuture;
    RunningTaskOk(k);
    HoldersAre(k, q);
  }
}
