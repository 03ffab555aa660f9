/** The recursive mutex of `mutex.c` over the kernel, with its direct hand-off from unlock to the first waiter. */
module Mutex {
  import opened Common
  import opened CallOutcome
  import opened TickTime
  import opened KernelState
  import opened KernelInvariant
  import opened KernelBlocking
  import opened KernelRuns
  import opened KernelFrames
  import opened OwnQueue

  datatype Mutex = Mutex(queue: QueueId, owner: Option<TaskId>, lockCount: uint32, destroyed: bool)

  datatype Step = Step(kernel: Kernel, mutex: Mutex, outcome: Outcome)

  /** `mutex_init_obj` */
  function InitMutex(queue: QueueId): Mutex {
    Mutex(queue, None, 0, false)
  }

  /** `mutex_trylock_obj` */
  function TryLock(k: Kernel, m: Mutex): Step {
    if k.current.None? then Step(k, m, Returns(Invalid))
    else if m.destroyed then Step(k, m, Returns(WasDestroyed))
    else if m.owner == None then Step(k, m.(owner := k.current, lockCount := 1), Returns(Ok))
    else if m.owner == k.current then Step(k, m.(lockCount := Low(m.lockCount + 1)), Returns(Ok))
    else Step(k, m, Returns(Busy))
  }

  /** `mutex_lock_obj` and `mutex_lock_timeout_obj` up to their `task_yield` */
  function Lock(k: Kernel, m: Mutex, us: uint64): Step {
    var step := TryLock(k, m);
    if step.outcome != Returns(Busy) then step
    else
      var (blocked, code) := BlockTimeout(k, m.queue, us);
      Step(blocked, m, if code == Ok then Suspends else Returns(code))
  }

  /** The locks after their `task_yield` */
  function Awaken(k: Kernel, m: Mutex): Step {
    var c := if k.current.Some? then k.current.value else k.idle;
    var timed := PcOf(k, c).Waiting? && PcOf(k, c).timed;
    var result := TaskOf(k, c).result;
    Step(Resume(k), m, Returns(
      if result == Destroyed then WasDestroyed
      else if !timed then (if m.owner == Some(c) then Ok else BadState)
      else if result == Object && m.owner == Some(c) then Ok
      else TimedOut))
  }

  /** `mutex_unlock_obj` */
  function Unlock(k: Kernel, m: Mutex): Step {
    if k.current.None? then Step(k, m, Returns(Invalid))
    else if m.destroyed then Step(k, m, Returns(WasDestroyed))
    else if m.owner != k.current || m.lockCount == 0 then Step(k, m, Returns(NotPermitted))
    else if m.lockCount != 1 then Step(k, m.(lockCount := m.lockCount - 1), Returns(Ok))
    else
      var (woken, next) := WakeResult(k, m.queue, Object);
      Step(woken, m.(owner := next, lockCount := if next.Some? then 1 else 0), Returns(Ok))
  }

  /** `mutex_destroy_obj` */
  function Destroy(k: Kernel, m: Mutex): Step {
    if m.destroyed then Step(k, m, Returns(BadState))
    else Step(WakeAll(k, m.queue, Destroyed).0, m.(destroyed := true, owner := None, lockCount := 0), Returns(Ok))
  }

  // ----- runs

  datatype Event =
    | Elsewhere(op: Op)
    | TryLockCalled
    | LockCalled(us: uint64)
    | LockResumed
    | UnlockCalled
    | DestroyCalled

  /** The kernel, one mutex, and for each task its successful locks (hand-offs included) less its unlocks. */
  datatype System = System(kernel: Kernel, mutex: Mutex, held: map<TaskId, int>)

  function HeldBy(m: System, t: TaskId): int {
    if t in m.held then m.held[t] else 0
  }

  /** An owner nests its locks less deep than a 32-bit count can hold. */
  ghost predicate MayNest(m: System) {
    m.mutex.owner == m.kernel.current && m.mutex.owner.Some? ==> m.mutex.lockCount < UINT32_MAX
  }

  ghost predicate CanHappen(m: System, e: Event) {
    var k := m.kernel;
    match e
    case Elsewhere(op) => Enabled(k, op) && Foreign(k, op, m.mutex.queue)
    case TryLockCalled => Calling(k) && MayNest(m)
    case LockCalled(us) => Calling(k) && MayNest(m) && (us != FOREVER_US ==> UsToTicks(us) < HALF)
    case LockResumed => CurrentIs(k, Running) && WaitsOn(k, k.current.value, m.mutex.queue)
    case UnlockCalled => Calling(k)
    case DestroyCalled => Calling(k)
  }

  function StepOf(m: System, e: Event): Step {
    match e
    case Elsewhere(op) => Step(Apply(m.kernel, op), m.mutex, Suspends)
    case TryLockCalled => TryLock(m.kernel, m.mutex)
    case LockCalled(us) => Lock(m.kernel, m.mutex, us)
    case LockResumed => Awaken(m.kernel, m.mutex)
    case UnlockCalled => Unlock(m.kernel, m.mutex)
    case DestroyCalled => Destroy(m.kernel, m.mutex)
  }

  /** Counts one more, or one fewer, lock held by `t`. */
  function Count(m: System, t: Option<TaskId>, change: int): System {
    if t.None? then m else m.(held := m.held[t.value := HeldBy(m, t.value) + change])
  }

  function Next(m: System, e: Event): System {
    var step := StepOf(m, e);
    var m' := m.(kernel := step.kernel, mutex := step.mutex);
    if step.outcome != Returns(Ok) then m'
    else match e
      case TryLockCalled => Count(m', m.kernel.current, 1)
      case LockCalled(_) => Count(m', m.kernel.current, 1)
      case UnlockCalled =>
        Count(Count(m', m.kernel.current, -1), if m.mutex.lockCount == 1 then step.mutex.owner else None, 1)
      case _ => m'
  }

  ghost predicate MutexInv(m: System) {
    var k, x := m.kernel, m.mutex;
    && Inv(k)
    && (!x.destroyed ==>
          // free exactly when the count is zero
          && (x.owner == None <==> x.lockCount == 0)
          // the count is the owner's locks less unlocks, and nobody else holds any
          && (forall t: TaskId :: HeldBy(m, t) == if x.owner == Some(t) then x.lockCount else 0)
          // nobody waits for a free mutex, and no owner for its own
          && (At(k, WaitList(x.queue)) != [] ==> x.owner.Some?)
          && (x.owner.Some? ==> x.owner.value !in At(k, WaitList(x.queue)))
          // a waiter handed the mutex owns it, once, until it resumes
          && (forall t | t in Holders(k, x.queue) :: x.owner == Some(t) && x.lockCount == 1)
          && (x.owner.Some? && WaitsOn(k, x.owner.value, x.queue) ==> x.owner.value in Holders(k, x.queue))
          && NoneTold(k, x.queue))
  }

  ghost predicate Fresh(m: System) {
    && Inv(m.kernel)
    && m.mutex == InitMutex(m.mutex.queue) && m.held == map[]
    && At(m.kernel, WaitList(m.mutex.queue)) == []
    && (forall t :: !WaitsOn(m.kernel, t, m.mutex.queue))
  }

  lemma FreshInv(m: System)
    requires Fresh(m)
    ensures MutexInv(m)
  {
    hide Inv;
    HoldersAre(m.kernel, m.mutex.queue);
    forall t ensures !Handed(m.kernel, t, m.mutex.queue, Object) && !Handed(m.kernel, t, m.mutex.queue, Destroyed) {
      assert !WaitsOn(m.kernel, t, m.mutex.queue);
    }
  }

  lemma RunningIsNotWaiting(k: Kernel, q: QueueId)
    requires Inv(k) && CurrentIs(k, Running)
    ensures k.current.value !in At(k, WaitList(q))
  {
    hide Core, AllInFuture;
    RunningTaskOk(k);
    WaiterNode(k, k.current.value, q);
  }

  lemma TryLockKeeps(m: System)
    requires MutexInv(m) && CanHappen(m, TryLockCalled)
    ensures MutexInv(Next(m, TryLockCalled))
  {
    hide Inv, Holders, NoneTold, At;
    RunningIsNotWaiting(m.kernel, m.mutex.queue);
    CallerHoldsNothing(m.kernel, m.mutex.queue);
  }

  lemma LockKeeps(m: System, us: uint64)
    requires MutexInv(m) && CanHappen(m, LockCalled(us))
    ensures MutexInv(Next(m, LockCalled(us)))
  {
    hide Inv, Holders, NoneTold, At, BlockTimeout;
    RunningIsNotWaiting(m.kernel, m.mutex.queue);
    CallerHoldsNothing(m.kernel, m.mutex.queue);
    BlockOwn(m.kernel, m.mutex.queue, us);
  }

  lemma UnlockKeeps(m: System)
    requires MutexInv(m) && CanHappen(m, UnlockCalled)
    ensures MutexInv(Next(m, UnlockCalled))
  {
    hide Inv, Holders, NoneTold, WakeResult, Handed;
    var k, x := m.kernel, m.mutex;
    var s := At(k, WaitList(x.queue));
    WakeOwn(k, x.queue, false);
    QueueIsNoDup(k, x.queue);
    CallerHoldsNothing(k, x.queue);
    if !x.destroyed && x.owner == k.current && x.lockCount == 1 && s != [] {
      WaitsOnHead(k, x.queue);
      var m' := Next(m, UnlockCalled);
      assert s[0] !in s[1..];
      assert Holders(k, x.queue) == {};
      assert forall t: TaskId :: HeldBy(m', t) == if Some(s[0]) == Some(t) then 1 else 0;
    }
  }

  lemma QueueIsNoDup(k: Kernel, q: QueueId)
    requires Inv(k)
    ensures NoDup(At(k, WaitList(q)))
  {
    QueueNoDup(k, q);
  }

  lemma WaitsOnHead(k: Kernel, q: QueueId)
    requires Inv(k) && At(k, WaitList(q)) != []
    ensures WaitsOn(k, At(k, WaitList(q))[0], q)
  {
    hide Core, AllInFuture;
    WaiterIsWaiting(k, At(k, WaitList(q))[0], q);
  }

  lemma CallerHoldsNothing(k: Kernel, q: QueueId)
    requires Calling(k)
    ensures k.current.value !in Holders(k, q)
  {
  }

  /** On a live mutex a resumed lock returns OK exactly if the mutex was handed to it, and then it is the owner;
      otherwise TIMEOUT, which only a timed lock can, and then it is not. Never the stray-state error. */
  lemma AwakenReturns(m: System)
    requires MutexInv(m) && CanHappen(m, LockResumed) && !m.mutex.destroyed
    ensures var c := m.kernel.current.value;
            var code := StepOf(m, LockResumed).outcome.code;
            && (code == Ok <==> m.mutex.owner == Some(c))
            && (code == Ok <==> c in Holders(m.kernel, m.mutex.queue))
            && (code != Ok ==> code == TimedOut && PcOf(m.kernel, c).timed)
    ensures MutexInv(Next(m, LockResumed))
  {
    hide Inv, Holders, Handed, At;
    ResumeFinds(m.kernel, m.mutex.queue);
    ResumeOwn(m.kernel, m.mutex.queue);
  }

  lemma ElsewhereKeeps(m: System, op: Op)
    requires MutexInv(m) && CanHappen(m, Elsewhere(op))
    ensures MutexInv(Next(m, Elsewhere(op)))
  {
    hide Inv, Holders, Apply, Enabled, Foreign, Deletes, NoneTold;
    var k, x := m.kernel, m.mutex;
    var k' := Apply(k, op);
    ForeignOwn(k, op, x.queue);
    if At(k', WaitList(x.queue)) != [] {
      assert At(k', WaitList(x.queue))[0] in At(k, WaitList(x.queue));
    }
    if !x.destroyed && x.owner.Some? && WaitsOn(k', x.owner.value, x.queue) {
      OwnerStillHolds(k, op, x.owner.value, x.queue);
    }
  }

  lemma OwnerStillHolds(k: Kernel, op: Op, t: TaskId, q: QueueId)
    requires Inv(k) && Enabled(k, op) && Foreign(k, op, q) && t in Holders(k, q) && WaitsOn(Apply(k, op), t, q)
    ensures t in Holders(Apply(k, op), q)
  {
    hide Core, AllInFuture, Apply, Enabled, Foreign, Delete;
    ForeignOwn(k, op, q);
    if Deletes(k, op, t) {
      DeleteMoves(k, t);
      ApplyDelete(k, t);
    }
  }

  lemma ApplyDelete(k: Kernel, t: TaskId)
    ensures Apply(k, DoDelete(t)) == Delete(k, t).0
  {
  }

  lemma EventKeeps(m: System, e: Event)
    requires MutexInv(m) && CanHappen(m, e)
    ensures MutexInv(Next(m, e))
    ensures Next(m, e).mutex.queue == m.mutex.queue
  {
    hide Inv, Holders, NoneTold, WakeAll, WakeResult, BlockTimeout, Apply, Calling;
    match e
    case Elsewhere(op) => ElsewhereKeeps(m, op);
    case TryLockCalled => TryLockKeeps(m);
    case LockCalled(us) => LockKeeps(m, us);
    case LockResumed =>
      if m.mutex.destroyed {
        ResumeOwn(m.kernel, m.mutex.queue);
      } else {
        AwakenReturns(m);
      }
    case UnlockCalled => UnlockKeeps(m);
    case DestroyCalled => DestroyOwn(m.kernel, m.mutex.queue);
  }

  ghost predicate Legal(m: System, es: seq<Event>)
    decreases |es|
  {
    es != [] ==> CanHappen(m, es[0]) && Legal(Next(m, es[0]), es[1..])
  }

  function Run(m: System, es: seq<Event>): System
    decreases |es|
  {
    if es == [] then m else Run(Next(m, es[0]), es[1..])
  }

  lemma {:induction false} MutexSafety(m: System, es: seq<Event>)
    requires MutexInv(m) && Legal(m, es)
    ensures MutexInv(Run(m, es))
    decreases |es|
  {
    hide MutexInv, CanHappen;
    if es != [] {
      EventKeeps(m, es[0]);
      MutexSafety(Next(m, es[0]), es[1..]);
    }
  }

  /** The event ends the hand-off to `t`: its resumption, its deletion, or the mutex's destruction. */
  ghost predicate EndsHandOff(m: System, e: Event, t: TaskId) {
    || e.DestroyCalled?
    || (e.LockResumed? && m.kernel.current == Some(t))
    || (e.Elsewhere? && Deletes(m.kernel, e.op, t))
  }

  lemma HandOffStays(m: System, e: Event, t: TaskId)
    requires MutexInv(m) && CanHappen(m, e) && !m.mutex.destroyed
    requires t in Holders(m.kernel, m.mutex.queue) && !EndsHandOff(m, e, t)
    ensures t in Holders(Next(m, e).kernel, m.mutex.queue) && Next(m, e).mutex == m.mutex
  {
    hide Inv, NoneTold, WakeResult, BlockTimeout, Apply, Enabled, Holders, At;
    var k, q := m.kernel, m.mutex.queue;
    if k.current.Some? && Calling(k) {
      CallerHoldsNothing(k, q);
    }
    match e
    case Elsewhere(op) => ForeignOwn(k, op, q);
    case TryLockCalled =>
    case LockCalled(us) => BlockOwn(k, q, us);
    case LockResumed => ResumeOwn(k, q);
    case UnlockCalled =>
  }

  ghost predicate NoEnd(m: System, es: seq<Event>, t: TaskId)
    decreases |es|
  {
    es != [] ==> !EndsHandOff(m, es[0], t) && NoEnd(Next(m, es[0]), es[1..], t)
  }

  /** Between an unlock and the chosen waiter's resumption no third task can take the mutex: over any run in
      between it stays the waiter's, held once. */
  lemma {:induction false} NoThirdTask(m: System, es: seq<Event>, t: TaskId)
    requires MutexInv(m) && Legal(m, es) && !m.mutex.destroyed
    requires t in Holders(m.kernel, m.mutex.queue) && NoEnd(m, es, t)
    ensures Run(m, es).mutex == m.mutex
    ensures m.mutex.owner == Some(t) && m.mutex.lockCount == 1
    decreases |es|
  {
    hide Inv, CanHappen, EndsHandOff, Holders, Next;
    if es != [] {
      EventKeeps(m, es[0]);
      HandOffStays(m, es[0], t);
      NoThirdTask(Next(m, es[0]), es[1..], t);
    }
  }

  /** The one way the bookkeeping can fail: the owner's next lock leaves a held mutex with count zero exactly
      when the 32-bit count is full. */
  lemma CountWrapsIff(m: System)
    requires MutexInv(m) && !m.mutex.destroyed && m.mutex.owner.Some? && m.mutex.owner == m.kernel.current
    ensures var x := TryLock(m.kernel, m.mutex).mutex;
            (x.owner == None <==> x.lockCount == 0) <==> m.mutex.lockCount != UINT32_MAX
  {
    hide Inv;
  }
}
