/** The counting semaphore of `semaphore.c` over the kernel: each call is the critical section before its
    `task_yield`, and for the waits the part after it. */
module Semaphore {
  import opened Common
  import opened CallOutcome
  import opened TickTime
  import opened KernelState
  import opened KernelInvariant
  import opened KernelBlocking
  import opened KernelRuns
  import opened KernelFrames
  import opened OwnQueue

  datatype Sem = Sem(queue: QueueId, cnt: int, max: int, destroyed: bool)

  datatype Step = Step(kernel: Kernel, sem: Sem, outcome: Outcome)

  /** `sem_init_obj` */
  function InitSem(queue: QueueId, max: int, cnt: int): Sem {
    Sem(queue, if cnt < 0 then 0 else cnt, if max < cnt then cnt else max, false)
  }

  predicate InBounds(s: Sem) {
    0 <= s.cnt <= s.max
  }

  /** Creation gives a count between zero and the maximum exactly when one of its two arguments is not negative. */
  lemma InitInBoundsIff(queue: QueueId, max: int, cnt: int)
    ensures InBounds(InitSem(queue, max, cnt)) <==> max >= 0 || cnt >= 0
  {
  }

  /** `sem_post_obj`, and `sem_post_from_isr_obj` when `isr` */
  function Post(k: Kernel, s: Sem, isr: bool): Step {
    if s.destroyed then Step(k, s, Returns(WasDestroyed))
    else if At(k, WaitList(s.queue)) != [] then
      Step(if isr then WakeFromIsr(k, s.queue).0 else WakeResult(k, s.queue, Object).0, s, Returns(Ok))
    else if s.cnt == s.max then Step(k, s, Returns(Busy))
    else Step(if isr then k.(pending := true) else k, s.(cnt := s.cnt + 1), Returns(Ok))
  }

  /** `sem_wait_obj` and `sem_wait_timeout_obj` up to their `task_yield` */
  function Wait(k: Kernel, s: Sem, us: uint64): Step {
    if s.destroyed then Step(k, s, Returns(WasDestroyed))
    else if s.cnt > 0 then Step(k, s.(cnt := s.cnt - 1), Returns(Ok))
    else if IsLocked(k) then Step(k.(pending := true), s, Returns(Locked))
    else
      var (blocked, code) := BlockTimeout(k, s.queue, us);
      Step(blocked, s, if code == Ok then Suspends else Returns(code))
  }

  /** The waits after their `task_yield` */
  function Awaken(k: Kernel, s: Sem): Step {
    var c := if k.current.Some? then k.current.value else k.idle;
    Step(Resume(k), s, Returns(
      if TaskOf(k, c).result == Object then Ok
      else if TaskOf(k, c).result == Destroyed then WasDestroyed
      else if PcOf(k, c).Waiting? && PcOf(k, c).timed then TimedOut
      else BadState))
  }

  /** `sem_trywait_obj` */
  function TryWait(k: Kernel, s: Sem): Step {
    if s.destroyed then Step(k, s, Returns(WasDestroyed))
    else if s.cnt == 0 then Step(k, s, Returns(Busy))
    else Step(k, s.(cnt := s.cnt - 1), Returns(Ok))
  }

  /** `sem_destroy_obj` */
  function Destroy(k: Kernel, s: Sem): Step {
    if s.destroyed then Step(k, s, Returns(BadState))
    else Step(WakeAll(k, s.queue, Destroyed).0, s.(destroyed := true, cnt := 0), Returns(Ok))
  }

  // ----- runs

  datatype Event =
    | Elsewhere(op: Op)
    | Posted(isr: bool)
    | WaitCalled(us: uint64)
    | WaitResumed
    | TryWaitCalled
    | DestroyCalled

  /** The kernel, one semaphore, and what has happened to its permits: successful posts, waits that have
      returned a permit, and permits that went with a deleted task. */
  datatype System = System(kernel: Kernel, sem: Sem, initial: int, posts: nat, returned: nat, lost: nat)

  ghost predicate CanHappen(m: System, e: Event) {
    var k := m.kernel;
    match e
    case Elsewhere(op) => Enabled(k, op) && Foreign(k, op, m.sem.queue)
    case Posted(isr) => !isr ==> CurrentIs(k, Running)
    case WaitCalled(us) =>
      Calling(k) && (us != FOREVER_US ==> UsToTicks(us) < HALF)
    case WaitResumed =>
      && CurrentIs(k, Running) && PcOf(k, k.current.value).Waiting?
      && PcOf(k, k.current.value).queue == m.sem.queue
    case TryWaitCalled => CurrentIs(k, Running)
    case DestroyCalled => CurrentIs(k, Running)
  }

  function StepOf(m: System, e: Event): Step {
    match e
    case Elsewhere(op) => Step(Apply(m.kernel, op), m.sem, Suspends)
    case Posted(isr) => Post(m.kernel, m.sem, isr)
    case WaitCalled(us) => Wait(m.kernel, m.sem, us)
    case WaitResumed => Awaken(m.kernel, m.sem)
    case TryWaitCalled => TryWait(m.kernel, m.sem)
    case DestroyCalled => Destroy(m.kernel, m.sem)
  }

  function Next(m: System, e: Event): System {
    var step := StepOf(m, e);
    var ok := step.outcome == Returns(Ok);
    System(step.kernel, step.sem, m.initial,
           m.posts + (if ok && e.Posted? then 1 else 0),
           m.returned + (if ok && (e.WaitCalled? || e.WaitResumed? || e.TryWaitCalled?) then 1 else 0),
           m.lost + (if e.Elsewhere? && e.op.DoDelete? && e.op.task in Holders(m.kernel, m.sem.queue)
                        && Deletes(m.kernel, e.op, e.op.task) then 1 else 0))
  }

  /** Permits handed out so far: returned by a wait, on their way to a woken waiter, or gone with one. */
  function Granted(m: System): nat {
    m.returned + |Holders(m.kernel, m.sem.queue)| + m.lost
  }

  ghost predicate SemInv(m: System) {
    && Inv(m.kernel)
    && (!m.sem.destroyed ==>
          && InBounds(m.sem)
          && (At(m.kernel, WaitList(m.sem.queue)) != [] ==> m.sem.cnt == 0)
          && m.initial + m.posts == m.sem.cnt + Granted(m)
          && NoneTold(m.kernel, m.sem.queue))
  }

  /** A new semaphore: a queue nobody waits or holds on. */
  ghost predicate Fresh(m: System) {
    && Inv(m.kernel)
    && !m.sem.destroyed && InBounds(m.sem) && m.initial == m.sem.cnt
    && m.posts == m.returned == m.lost == 0
    && At(m.kernel, WaitList(m.sem.queue)) == []
    && (forall t, w :: !Handed(m.kernel, t, m.sem.queue, w))
  }

  lemma FreshInv(m: System)
    requires Fresh(m)
    ensures SemInv(m)
  {
    hide Inv;
    HoldersAre(m.kernel, m.sem.queue);
    assert Holders(m.kernel, m.sem.queue) == {};
  }

  lemma PostKeeps(m: System, isr: bool)
    requires SemInv(m)
    ensures SemInv(Next(m, Posted(isr)))
  {
    hide Inv, WakeResult, WakeFromIsr, Holders, NoneTold, At;
    var q := m.sem.queue;
    WakeOwn(m.kernel, q, isr);
    PendingOwn(m.kernel, q, true);
    if !m.sem.destroyed && At(m.kernel, WaitList(q)) != [] {
      assert Granted(Next(m, Posted(isr))) == Granted(m) + 1;
    }
  }

  lemma WaitKeeps(m: System, us: uint64)
    requires SemInv(m) && CanHappen(m, WaitCalled(us))
    ensures SemInv(Next(m, WaitCalled(us)))
    ensures !m.sem.destroyed && StepOf(m, WaitCalled(us)).outcome == Suspends ==> m.sem.cnt == 0
  {
    hide Inv, BlockTimeout, Holders, NoneTold, At;
    BlockOwn(m.kernel, m.sem.queue, us);
    PendingOwn(m.kernel, m.sem.queue, true);
  }

  /** On a live semaphore a resumed wait returns OK exactly if a post handed it a permit, and otherwise TIMEOUT,
      which only a timed wait can; never the stray-state error. A TIMEOUT holds no permit. */
  lemma AwakenReturns(m: System)
    requires SemInv(m) && CanHappen(m, WaitResumed) && !m.sem.destroyed
    ensures var c := m.kernel.current.value;
            var code := StepOf(m, WaitResumed).outcome.code;
            && (code == Ok <==> c in Holders(m.kernel, m.sem.queue))
            && (code != Ok ==> code == TimedOut && PcOf(m.kernel, c).timed)
    ensures SemInv(Next(m, WaitResumed))
  {
    hide Inv, Holders, Handed;
    ResumeFinds(m.kernel, m.sem.queue);
    ResumeOwn(m.kernel, m.sem.queue);
  }

  /** Every event keeps the permits accounted for. */
  lemma EventKeeps(m: System, e: Event)
    requires SemInv(m) && CanHappen(m, e)
    ensures SemInv(Next(m, e))
    ensures Next(m, e).initial == m.initial && Next(m, e).sem.queue == m.sem.queue
  {
    hide Inv, Holders, NoneTold, WakeAll, WakeResult, WakeFromIsr, BlockTimeout, Apply;
    match e
    case Elsewhere(op) => ElsewhereKeeps(m, op);
    case Posted(isr) => PostKeeps(m, isr);
    case WaitCalled(us) => WaitKeeps(m, us);
    case WaitResumed =>
      if m.sem.destroyed {
        ResumeOwn(m.kernel, m.sem.queue);
      } else {
        AwakenReturns(m);
      }
    case TryWaitCalled =>
    case DestroyCalled => DestroyOwn(m.kernel, m.sem.queue);
  }

  lemma ElsewhereKeeps(m: System, op: Op)
    requires SemInv(m) && CanHappen(m, Elsewhere(op))
    ensures SemInv(Next(m, Elsewhere(op)))
  {
    hide Inv, Holders, NoneTold, Apply, Enabled, Foreign, Deletes;
    var q := m.sem.queue;
    var k' := Apply(m.kernel, op);
    ForeignOwn(m.kernel, op, q);
    if At(k', WaitList(q)) != [] {
      assert At(k', WaitList(q))[0] in At(m.kernel, WaitList(q));
    }
  }

  ghost predicate Legal(m: System, es: seq<Event>)
    decreases |es|
  {
    es != [] ==> CanHappen(m, es[0]) && Legal(Next(m, es[0]), es[1..])
  }

  function Run(m: System, es: seq<Event>): System
    decreases |es|
  {
    if es == [] then m else Run(Next(m, es[0]), es[1..])
  }

  /** Over any run, with any interleaving of posts, waits, timeouts, deletions and other kernel activity, a
      live semaphore's initial count plus its successful posts is its count plus the permits granted, the
      count is within bounds, and a task waits only while the count is zero. */
  lemma {:induction false} PermitsAreConserved(m: System, es: seq<Event>)
    requires SemInv(m) && Legal(m, es)
    ensures var end := Run(m, es);
            && SemInv(end)
            && end.initial == m.initial
            && (!end.sem.destroyed ==>
                  && m.initial + end.posts == end.sem.cnt + Granted(end)
                  && 0 <= end.sem.cnt <= end.sem.max
                  && (At(end.kernel, WaitList(m.sem.queue)) != [] ==> end.sem.cnt == 0))
    ensures Run(m, es).sem.queue == m.sem.queue
    decreases |es|
  {
    hide Inv, Holders, CanHappen;
    if es != [] {
      EventKeeps(m, es[0]);
      PermitsAreConserved(Next(m, es[0]), es[1..]);
    }
  }
}
