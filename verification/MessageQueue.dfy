/** The message queue of `msg_queue.c` over the kernel: one pass of a call's retry loop is one step, and a
    woken reader or writer re-checks the queue before it uses or passes on the wake-up it was handed. */
module MessageQueue {
  import opened Common
  import opened TickTime
  import opened KernelState
  import opened KernelInvariant
  import opened KernelBlocking
  import opened KernelWaking
  import opened KernelRuns
  import opened KernelFrames
  import opened OwnQueue

  type Message = seq<byte>

  /** The queue with its ring read as the sequence of messages it holds, oldest first. */
  datatype Mq = Mq(readers: QueueId, writers: QueueId, cap: nat, qlen: nat, messages: seq<Message>, destroyed: bool)

  datatype Call = Send(front: bool, data: seq<byte>) | Recv | Peek

  datatype Outcome = Returns(code: Error, message: Option<Message>) | Suspends

  datatype Step = Step(kernel: Kernel, mq: Mq, outcome: Outcome)

  /** A message in its slot: the data, then zeros. */
  function Padded(data: seq<byte>, cap: nat): Message
    requires |data| <= cap
  {
    data + seq(cap - |data|, i => 0)
  }

  predicate BadArguments(x: Mq, call: Call) {
    call.Send? && (|call.data| == 0 || |call.data| > x.cap)
  }

  /** The queue has what the call needs: a free slot to send, a message to receive or peek. */
  predicate CanServe(x: Mq, call: Call) {
    if call.Send? then |x.messages| < x.qlen else x.messages != []
  }

  /** What a served call does to the messages, and what it hands back. */
  function Served(x: Mq, call: Call): (Mq, Option<Message>)
    requires CanServe(x, call) && !BadArguments(x, call)
  {
    match call
    case Send(front, data) =>
      var message := Padded(data, x.cap);
      (x.(messages := if front then [message] + x.messages else x.messages + [message]), None)
    case Recv => (x.(messages := x.messages[1..]), Some(x.messages[0]))
    case Peek => (x, Some(x.messages[0]))
  }

  /** Whom a served call wakes: a send or a peek the next reader, a receive the next writer. */
  function WakesOn(x: Mq, call: Call): QueueId {
    if call.Recv? then x.writers else x.readers
  }

  function BlocksOn(x: Mq, call: Call): QueueId {
    if call.Send? then x.writers else x.readers
  }

  /** One pass through the critical section of `msg_q_send_obj`, `msg_q_send_front_obj`, `msg_q_recv_obj` or
      `msg_q_peek_obj`. */
  function Attempt(k: Kernel, x: Mq, call: Call, us: uint64): Step {
    if BadArguments(x, call) then Step(k, x, Returns(Invalid, None))
    else if x.destroyed then Step(k, x, Returns(WasDestroyed, None))
    else if CanServe(x, call) then
      var (x', message) := Served(x, call);
      Step(WakeResult(k, WakesOn(x, call), Object).0, x', Returns(Ok, message))
    else if us == 0 then Step(k, x, Returns(Busy, None))
    else if IsLocked(k) then Step(k.(pending := true), x, Returns(Locked, None))
    else
      var (blocked, code) := BlockTimeout(k, BlocksOn(x, call), us);
      Step(blocked, x, if code == Ok then Suspends else Returns(code, None))
  }

  /** After `task_yield`: an error result returns, a wake-up goes round the loop again. */
  function Awaken(k: Kernel, x: Mq, call: Call, us: uint64): Step {
    var c := if k.current.Some? then k.current.value else k.idle;
    var result := TaskOf(k, c).result;
    if result == Object then Attempt(Resume(k), x, call, us)
    else
      Step(Resume(k), x, Returns(
        if result == Timeout then TimedOut else if result == Destroyed then WasDestroyed else BadState, None))
  }

  /** The interrupt forms, which never block. */
  function FromIsr(k: Kernel, x: Mq, call: Call): Step {
    if BadArguments(x, call) then Step(k, x, Returns(Invalid, None))
    else if x.destroyed then Step(k, x, Returns(WasDestroyed, None))
    else if !CanServe(x, call) then Step(k, x, Returns(Busy, None))
    else
      var (x', message) := Served(x, call);
      Step(WakeFromIsr(k, WakesOn(x, call)).0, x', Returns(Ok, message))
  }

  /** `msg_q_destroy_obj` */
  function Destroy(k: Kernel, x: Mq): Step {
    if x.destroyed then Step(k, x, Returns(BadState, None))
    else
      Step(WakeAll(WakeAll(k, x.readers, Destroyed).0, x.writers, Destroyed).0, x.(destroyed := true),
           Returns(Ok, None))
  }

  // ----- runs

  datatype Event =
    | Elsewhere(op: Op)
    | Called(call: Call, us: uint64)
    | Resumed
    | CalledFromIsr(call: Call)
    | DestroyCalled

  datatype Pending = Pending(call: Call, us: uint64)

  /** The kernel, one queue, the call each waiting task is inside, the messages accepted and delivered so far,
      whether any was sent to the front, and how many woken tasks were deleted before they resumed. */
  datatype System = System(
    kernel: Kernel, mq: Mq, calls: map<TaskId, Pending>,
    sent: seq<Message>, received: seq<Message>, fronted: bool,
    lostReaders: nat, lostWriters: nat)

  ghost predicate FitsClock(us: uint64) {
    us != FOREVER_US ==> UsToTicks(us) < HALF
  }

  ghost predicate CanHappen(m: System, e: Event) {
    var k := m.kernel;
    match e
    case Elsewhere(op) => Enabled(k, op) && Foreign(k, op, m.mq.readers) && Foreign(k, op, m.mq.writers)
    case Called(_, us) => Calling(k) && FitsClock(us)
    case Resumed =>
      && MayBlock(k)
      && (WaitsOn(k, k.current.value, m.mq.readers) || WaitsOn(k, k.current.value, m.mq.writers))
    case CalledFromIsr(_) => k.current.Some?
    case DestroyCalled => Calling(k)
  }

  function CallOf(m: System): Pending {
    if m.kernel.current.Some? && m.kernel.current.value in m.calls then m.calls[m.kernel.current.value]
    else Pending(Recv, 0)
  }

  function StepOf(m: System, e: Event): Step {
    match e
    case Elsewhere(op) => Step(Apply(m.kernel, op), m.mq, Suspends)
    case Called(call, us) => Attempt(m.kernel, m.mq, call, us)
    case Resumed => Awaken(m.kernel, m.mq, CallOf(m).call, CallOf(m).us)
    case CalledFromIsr(call) => FromIsr(m.kernel, m.mq, call)
    case DestroyCalled => Destroy(m.kernel, m.mq)
  }

  /** The call served by the event, if it returns OK. */
  function ServedCall(m: System, e: Event): Option<Call> {
    var outcome := StepOf(m, e).outcome;
    if !outcome.Returns? || outcome.code != Ok then None
    else match e
      case Called(call, _) => Some(call)
      case Resumed => Some(CallOf(m).call)
      case CalledFromIsr(call) => Some(call)
      case _ => None
  }

  /** Is `op` the deletion of a task that was handed a wake-up on `q`? */
  function LostBy(k: Kernel, op: Op, q: QueueId): nat {
    if op.DoDelete? && op.task in Holders(k, q) && Deletes(k, op, op.task) then 1 else 0
  }

  function Next(m: System, e: Event): System {
    var step := StepOf(m, e);
    var served := ServedCall(m, e);
    var sends := served.Some? && served.value.Send? && |served.value.data| <= m.mq.cap;
    System(
      step.kernel, step.mq,
      if e.Called? && step.outcome.Suspends? && m.kernel.current.Some?
        then m.calls[m.kernel.current.value := Pending(e.call, e.us)] else m.calls,
      if sends then m.sent + [Padded(served.value.data, m.mq.cap)] else m.sent,
      if served.Some? && served.value.Recv? && step.outcome.message.Some?
        then m.received + [step.outcome.message.value] else m.received,
      m.fronted || (sends && served.value.front),
      m.lostReaders + (if e.Elsewhere? then LostBy(m.kernel, e.op, m.mq.readers) else 0),
      m.lostWriters + (if e.Elsewhere? then LostBy(m.kernel, e.op, m.mq.writers) else 0))
  }

  // ----- the wake-up invariant

  /** Every message a waiting reader could take has a woken reader on its way to it, but for those whose woken
      reader was deleted; and so for free slots and writers. `r` and `w` allow for a token just spent. */
  ghost predicate WakeUps(k: Kernel, x: Mq, lostReaders: nat, lostWriters: nat, r: nat, w: nat) {
    && (At(k, WaitList(x.readers)) != [] ==> |x.messages| <= |Holders(k, x.readers)| + lostReaders + r)
    && (At(k, WaitList(x.writers)) != [] ==> x.qlen - |x.messages| <= |Holders(k, x.writers)| + lostWriters + w)
  }

  predicate Shape(x: Mq) {
    x.readers != x.writers && x.qlen >= 1 && x.cap >= 1 && |x.messages| <= x.qlen
  }

  ghost predicate CallsOk(m: System) {
    forall t ::
      && (WaitsOn(m.kernel, t, m.mq.readers) ==>
            t in m.calls && !m.calls[t].call.Send? && FitsClock(m.calls[t].us))
      && (WaitsOn(m.kernel, t, m.mq.writers) ==>
            t in m.calls && m.calls[t].call.Send? && !BadArguments(m.mq, m.calls[t].call) && FitsClock(m.calls[t].us))
  }

  ghost predicate LogOk(m: System) {
    && multiset(m.sent) == multiset(m.received) + multiset(m.mq.messages)
    && (!m.fronted ==> m.sent == m.received + m.mq.messages)
    && forall i | 0 <= i < |m.mq.messages| :: |m.mq.messages[i]| == m.mq.cap
  }

  ghost predicate MqInv(m: System) {
    && Inv(m.kernel) && Shape(m.mq) && CallsOk(m) && LogOk(m)
    && (!m.mq.destroyed ==> WakeUps(m.kernel, m.mq, m.lostReaders, m.lostWriters, 0, 0))
  }

  // ----- one pass of a call

  /** A wake-up on one of the two queues leaves the other alone. */
  lemma WakeOther(k: Kernel, q: QueueId, other: QueueId, isr: bool)
    requires Inv(k) && q != other && k.current.Some?
    ensures var k' := if isr then WakeFromIsr(k, q).0 else WakeResult(k, q, Object).0;
            && (At(k', WaitList(other)) != [] ==> At(k, WaitList(other)) != [])
            && Holders(k', other) == Holders(k, other)
  {
    hide Inv, WakeResult, WakeFromIsr, Foreign, Holders;
    var op := DoWake(q, Object, isr);
    WakeIsForeign(k, q, other, isr);
    ForeignOwn(k, op, other);
    var k' := if isr then WakeFromIsr(k, q).0 else WakeResult(k, q, Object).0;
    if At(k', WaitList(other)) != [] {
      assert At(k', WaitList(other))[0] in At(k, WaitList(other));
    }
  }

  lemma WakeIsForeign(k: Kernel, q: QueueId, other: QueueId, isr: bool)
    requires q != other
    ensures Foreign(k, DoWake(q, Object, isr), other)
  {
  }

  /** Serving a call restores the wake-up invariant, whether or not the caller has just spent a token: the
      served message or slot is gone, or its wake-up has been passed on. */
  lemma ServeKeeps(k: Kernel, x: Mq, call: Call, isr: bool, lr: nat, lw: nat, token: nat)
    requires Inv(k) && Shape(x) && !BadArguments(x, call) && CanServe(x, call) && k.current.Some?
    requires token <= 1 && WakeUps(k, x, lr, lw, if call.Send? then 0 else token, if call.Send? then token else 0)
    ensures var k' := if isr then WakeFromIsr(k, WakesOn(x, call)).0 else WakeResult(k, WakesOn(x, call), Object).0;
            && Inv(k') && Shape(Served(x, call).0)
            && WakeUps(k', Served(x, call).0, lr, lw, 0, 0)
  {
    hide Inv, WakeResult, WakeFromIsr, Holders, At;
    var q := WakesOn(x, call);
    var other := if q == x.readers then x.writers else x.readers;
    WakeOwn(k, q, isr);
    WakeOther(k, q, other, isr);
    var k' := if isr then WakeFromIsr(k, q).0 else WakeResult(k, q, Object).0;
    if At(k, WaitList(q)) != [] {
      assert |Holders(k', q)| == |Holders(k, q)| + 1;
    }
  }

  lemma BlockOther(k: Kernel, q: QueueId, other: QueueId, us: uint64)
    requires Inv(k) && q != other && Calling(k) && FitsClock(us)
    ensures var k' := BlockTimeout(k, q, us).0;
            && (At(k', WaitList(other)) != [] ==> At(k, WaitList(other)) != [])
            && Holders(k', other) == Holders(k, other)
  {
    hide Inv, BlockTimeout, Holders;
    var op := DoBlock(q, us);
    ForeignOwn(k, op, other);
    var k' := BlockTimeout(k, q, us).0;
    if At(k', WaitList(other)) != [] {
      assert At(k', WaitList(other))[0] in At(k, WaitList(other));
    }
  }

  lemma AttemptKeeps(k: Kernel, x: Mq, call: Call, us: uint64, lr: nat, lw: nat, token: nat)
    requires Inv(k) && Shape(x) && Calling(k) && FitsClock(us) && token <= 1
    requires token == 1 ==> !BadArguments(x, call)
    requires !x.destroyed ==> WakeUps(k, x, lr, lw, if call.Send? then 0 else token, if call.Send? then token else 0)
    ensures var step := Attempt(k, x, call, us);
            && Inv(step.kernel) && Shape(step.mq)
            && (!x.destroyed ==> WakeUps(step.kernel, step.mq, lr, lw, 0, 0))
            && step.mq == x.(messages := step.mq.messages)
  {
    hide Inv, WakeResult, BlockTimeout, Holders, At, Served;
    if BadArguments(x, call) || x.destroyed {
    } else if CanServe(x, call) {
      ServeKeeps(k, x, call, false, lr, lw, token);
      ServedFields(x, call);
    } else {
      var q := BlocksOn(x, call);
      PendingOwn(k, x.readers, true);
      PendingOwn(k, x.writers, true);
      BlockOwn(k, q, us);
      BlockOther(k, q, if call.Send? then x.readers else x.writers, us);
    }
  }

  lemma ServedFields(x: Mq, call: Call)
    requires !BadArguments(x, call) && CanServe(x, call)
    ensures Served(x, call).0 == x.(messages := Served(x, call).0.messages)
  {
  }

  // ----- which call each waiting task is inside

  /** The caller ends up waiting on the queue its call blocks on, or on neither; nobody else starts waiting. */
  lemma AttemptWaits(k: Kernel, x: Mq, call: Call, us: uint64)
    requires Inv(k) && Shape(x) && Calling(k) && FitsClock(us)
    ensures var step := Attempt(k, x, call, us);
            var c := k.current.value;
            && (forall t | t != c ::
                  && (WaitsOn(step.kernel, t, x.readers) ==> WaitsOn(k, t, x.readers))
                  && (WaitsOn(step.kernel, t, x.writers) ==> WaitsOn(k, t, x.writers)))
            && (step.outcome.Returns? ==>
                  !WaitsOn(step.kernel, c, x.readers) && !WaitsOn(step.kernel, c, x.writers))
            && (step.outcome.Suspends? ==>
                  && !BadArguments(x, call)
                  && !WaitsOn(step.kernel, c, if call.Send? then x.readers else x.writers))
  {
    hide Inv, WakeResult, BlockTimeout, Holders, At, Served, CanServe, NoneTold;
    WakeOwn(k, WakesOn(x, call), false);
    BlockOwn(k, x.readers, us);
    BlockOwn(k, x.writers, us);
  }

  lemma CallsFrame(m: System, m': System)
    requires CallsOk(m) && m'.calls == m.calls
    requires m'.mq.readers == m.mq.readers && m'.mq.writers == m.mq.writers && m'.mq.cap == m.mq.cap
    requires forall t ::
               && (WaitsOn(m'.kernel, t, m.mq.readers) ==> WaitsOn(m.kernel, t, m.mq.readers))
               && (WaitsOn(m'.kernel, t, m.mq.writers) ==> WaitsOn(m.kernel, t, m.mq.writers))
    ensures CallsOk(m')
  {
  }

  // ----- the message log

  lemma ServedLog(m: System, call: Call, m': System)
    requires LogOk(m) && CanServe(m.mq, call) && !BadArguments(m.mq, call)
    requires m'.mq == Served(m.mq, call).0
    requires m'.sent == if call.Send? then m.sent + [Padded(call.data, m.mq.cap)] else m.sent
    requires m'.received == if call.Recv? then m.received + [Served(m.mq, call).1.value] else m.received
    requires m'.fronted == (m.fronted || (call.Send? && call.front))
    ensures LogOk(m')
  {
    match call
    case Recv => TakenLog(m.received, m.mq.messages);
    case Send(front, data) => AddedLog(m.sent, m.received, m.mq.messages, Padded(data, m.mq.cap));
    case Peek =>
  }

  lemma TakenLog(received: seq<Message>, s: seq<Message>)
    requires s != []
    ensures received + s == (received + [s[0]]) + s[1..]
    ensures multiset(received) + multiset(s) == multiset(received + [s[0]]) + multiset(s[1..])
  {
    assert s == [s[0]] + s[1..];
    assert multiset(s) == multiset([s[0]]) + multiset(s[1..]);
  }

  lemma AddedLog(sent: seq<Message>, received: seq<Message>, s: seq<Message>, message: Message)
    requires multiset(sent) == multiset(received) + multiset(s)
    ensures multiset(sent + [message]) == multiset(received) + multiset([message] + s)
    ensures multiset(sent + [message]) == multiset(received) + multiset(s + [message])
    ensures sent == received + s ==> sent + [message] == received + (s + [message])
  {
  }

  lemma SameLog(m: System, m': System)
    requires LogOk(m) && m'.mq.messages == m.mq.messages && m'.mq.cap == m.mq.cap
    requires m'.sent == m.sent && m'.received == m.received && m'.fronted == m.fronted
    ensures LogOk(m')
  {
  }

  // ----- events

  lemma CalledKeeps(m: System, call: Call, us: uint64)
    requires MqInv(m) && CanHappen(m, Called(call, us))
    ensures MqInv(Next(m, Called(call, us)))
  {
    hide Inv, LogOk, WakeUps, WakeResult, BlockTimeout, Served, Padded;
    var m' := Next(m, Called(call, us));
    AttemptKeeps(m.kernel, m.mq, call, us, m.lostReaders, m.lostWriters, 0);
    AttemptWaits(m.kernel, m.mq, call, us);
    AttemptLog(m, m.kernel, call, us, m');
  }

  /** The log after one pass, from whatever kernel the pass began in. */
  lemma AttemptLog(m: System, k: Kernel, call: Call, us: uint64, m': System)
    requires LogOk(m)
    requires var step := Attempt(k, m.mq, call, us);
             var ok := step.outcome.Returns? && step.outcome.code == Ok;
             && m'.mq == step.mq
             && m'.sent == (if ok && call.Send? && |call.data| <= m.mq.cap
                            then m.sent + [Padded(call.data, m.mq.cap)] else m.sent)
             && m'.received == (if ok && call.Recv? && step.outcome.message.Some?
                                then m.received + [step.outcome.message.value] else m.received)
             && m'.fronted == (m.fronted || (ok && call.Send? && |call.data| <= m.mq.cap && call.front))
    ensures LogOk(m')
  {
    hide LogOk, WakeResult, BlockTimeout, Padded;
    if !BadArguments(m.mq, call) && !m.mq.destroyed && CanServe(m.mq, call) {
      ServedLog(m, call, m');
    } else {
      SameLog(m, m');
    }
  }

  lemma IsrKeeps(m: System, call: Call)
    requires MqInv(m) && CanHappen(m, CalledFromIsr(call))
    ensures MqInv(Next(m, CalledFromIsr(call)))
  {
    hide Inv, LogOk, WakeUps, WakeFromIsr, Padded;
    var m' := Next(m, CalledFromIsr(call));
    if !BadArguments(m.mq, call) && !m.mq.destroyed && CanServe(m.mq, call) {
      ServeKeeps(m.kernel, m.mq, call, true, m.lostReaders, m.lostWriters, 0);
      ServedLog(m, call, m');
      WakeOwn(m.kernel, WakesOn(m.mq, call), true);
      CallsFrame(m, m');
    } else {
      SameLog(m, m');
    }
  }

  /** Coming back from `task_yield` with a token: the queue it was handed on is one token short until the pass. */
  lemma TokenSpent(m: System)
    requires MqInv(m) && CanHappen(m, Resumed) && !m.mq.destroyed
    ensures var token := if TaskOf(m.kernel, m.kernel.current.value).result == Object then 1 else 0;
            var send := CallOf(m).call.Send?;
            WakeUps(Resume(m.kernel), m.mq, m.lostReaders, m.lostWriters,
                    if send then 0 else token, if send then token else 0)
  {
    hide Inv, LogOk, Holders, NoneTold;
    var k, c := m.kernel, m.kernel.current.value;
    ResumeOwn(k, m.mq.readers);
    ResumeOwn(k, m.mq.writers);
    HoldersAre(k, m.mq.readers);
    HoldersAre(k, m.mq.writers);
    var mine := if CallOf(m).call.Send? then m.mq.writers else m.mq.readers;
    assert WaitsOn(k, c, mine);
    RemoveOne(Holders(k, m.mq.readers), c);
    RemoveOne(Holders(k, m.mq.writers), c);
  }

  lemma RemoveOne(s: set<TaskId>, t: TaskId)
    ensures |s - {t}| == if t in s then |s| - 1 else |s|
  {
    if t !in s {
      assert s - {t} == s;
    }
  }

  lemma ResumedKeeps(m: System)
    requires MqInv(m) && CanHappen(m, Resumed)
    ensures MqInv(Next(m, Resumed))
  {
    hide Inv, LogOk, WakeUps, WakeResult, BlockTimeout, Served, Padded, Resume, Attempt, Holders;
    var m' := Next(m, Resumed);
    var k, c := m.kernel, m.kernel.current.value;
    var (call, us) := (CallOf(m).call, CallOf(m).us);
    ResumeOwn(k, m.mq.readers);
    ResumeOwn(k, m.mq.writers);
    var k1 := Resume(k);
    if !m.mq.destroyed {
      TokenSpent(m);
    }
    if TaskOf(k, c).result == Object {
      AttemptKeeps(k1, m.mq, call, us, m.lostReaders, m.lostWriters, 1);
      AttemptWaits(k1, m.mq, call, us);
      AttemptLog(m, k1, call, us, m');
    } else {
      SameLog(m, m');
    }
  }

  lemma ElsewhereKeeps(m: System, op: Op)
    requires MqInv(m) && CanHappen(m, Elsewhere(op))
    ensures MqInv(Next(m, Elsewhere(op)))
  {
    hide Inv, LogOk, Apply, Enabled, Foreign, Deletes, Holders, NoneTold;
    var m' := Next(m, Elsewhere(op));
    ForeignOwn(m.kernel, op, m.mq.readers);
    ForeignOwn(m.kernel, op, m.mq.writers);
    CallsFrame(m, m');
    SameLog(m, m');
    if op.DoDelete? {
      RemoveOne(Holders(m.kernel, m.mq.readers), op.task);
      RemoveOne(Holders(m.kernel, m.mq.writers), op.task);
    }
    if At(m'.kernel, WaitList(m.mq.readers)) != [] {
      assert At(m'.kernel, WaitList(m.mq.readers))[0] in At(m.kernel, WaitList(m.mq.readers));
    }
    if At(m'.kernel, WaitList(m.mq.writers)) != [] {
      assert At(m'.kernel, WaitList(m.mq.writers))[0] in At(m.kernel, WaitList(m.mq.writers));
    }
  }

  lemma DestroyKeeps(m: System)
    requires MqInv(m) && CanHappen(m, DestroyCalled)
    ensures MqInv(Next(m, DestroyCalled))
  {
    hide Inv, LogOk, WakeUps, WakeAll;
    var m' := Next(m, DestroyCalled);
    SameLog(m, m');
    if !m.mq.destroyed {
      var k1 := WakeAll(m.kernel, m.mq.readers, Destroyed).0;
      DestroyOwn(m.kernel, m.mq.readers);
      DestroyOwn(k1, m.mq.writers);
      WakeAllMoves(m.kernel, m.mq.readers, Destroyed);
      WakeAllMoves(k1, m.mq.writers, Destroyed);
      CallsFrame(m, m');
    }
  }

  lemma EventKeeps(m: System, e: Event)
    requires MqInv(m) && CanHappen(m, e)
    ensures MqInv(Next(m, e))
  {
    hide MqInv, Next, CanHappen;
    match e
    case Elsewhere(op) => ElsewhereKeeps(m, op);
    case Called(call, us) => CalledKeeps(m, call, us);
    case Resumed => ResumedKeeps(m);
    case CalledFromIsr(call) => IsrKeeps(m, call);
    case DestroyCalled => DestroyKeeps(m);
  }

  ghost predicate Legal(m: System, es: seq<Event>)
    decreases |es|
  {
    es != [] ==> CanHappen(m, es[0]) && Legal(Next(m, es[0]), es[1..])
  }

  function Run(m: System, es: seq<Event>): System
    decreases |es|
  {
    if es == [] then m else Run(Next(m, es[0]), es[1..])
  }

  /** A new queue: no messages, and two wait queues nobody is on or inside a call on. */
  ghost predicate Fresh(m: System) {
    && Inv(m.kernel) && Shape(m.mq) && m.mq.messages == [] && m.sent == m.received == []
    && At(m.kernel, WaitList(m.mq.readers)) == [] && At(m.kernel, WaitList(m.mq.writers)) == []
    && (forall t :: !WaitsOn(m.kernel, t, m.mq.readers) && !WaitsOn(m.kernel, t, m.mq.writers))
  }

  lemma FreshInv(m: System)
    requires Fresh(m)
    ensures MqInv(m)
  {
    hide Inv;
  }

  /** The wake-up invariant and the message log hold over every run: any interleaving of sends to either end,
      receives, peeks, their interrupt forms, timeouts, deletions and other kernel activity. */
  lemma {:induction false} NoLostWakeUp(m: System, es: seq<Event>)
    requires MqInv(m) && Legal(m, es)
    ensures MqInv(Run(m, es))
    decreases |es|
  {
    hide MqInv, CanHappen;
    if es != [] {
      EventKeeps(m, es[0]);
      NoLostWakeUp(Next(m, es[0]), es[1..]);
    }
  }

  /** So, in any state of a live queue whose woken tasks were all left to resume, once none of them is still on
      its way a waiting reader means an empty queue, a waiting writer a full one, and both never wait at once. */
  lemma NobodyPendingMeansSettled(m: System)
    requires MqInv(m) && !m.mq.destroyed && m.lostReaders == m.lostWriters == 0
    requires Holders(m.kernel, m.mq.readers) == {} && Holders(m.kernel, m.mq.writers) == {}
    ensures At(m.kernel, WaitList(m.mq.readers)) != [] ==> m.mq.messages == []
    ensures At(m.kernel, WaitList(m.mq.writers)) != [] ==> |m.mq.messages| == m.mq.qlen
    ensures At(m.kernel, WaitList(m.mq.readers)) == [] || At(m.kernel, WaitList(m.mq.writers)) == []
  {
    hide Inv, CallsOk, LogOk;
  }

  /** A resumed call never sees the stray state: it re-checks, or returns TIMEOUT from a timed call or DESTROYED. */
  lemma AwakenNeverStray(m: System)
    requires MqInv(m) && CanHappen(m, Resumed)
    ensures var outcome := StepOf(m, Resumed).outcome;
            outcome.Returns? ==> outcome.code != BadState
    ensures var c := m.kernel.current.value;
            TaskOf(m.kernel, c).result == Timeout ==> PcOf(m.kernel, c).timed
  {
    hide Inv, LogOk, WakeUps, BlockTimeout, WakeResult, Served, At;
    var c := m.kernel.current.value;
    ResumeFinds(m.kernel, if WaitsOn(m.kernel, c, m.mq.readers) then m.mq.readers else m.mq.writers);
    ResumeOwn(m.kernel, m.mq.readers);
    if TaskOf(m.kernel, c).result == Object {
      BlockOwn(Resume(m.kernel), BlocksOn(m.mq, CallOf(m).call), CallOf(m).us);
    }
  }

  // ----- deleting a woken task

  /** Deleting a task that holds a wake-up takes nobody off the queue it was woken from. */
  lemma HolderDeletion(k: Kernel, q: QueueId, t: TaskId)
    requires Inv(k) && Enabled(k, DoDelete(t)) && t in Holders(k, q) && Delete(k, t).1 == Ok
    ensures var k' := Delete(k, t).0;
            && Inv(k')
            && Holders(k', q) == Holders(k, q) - {t}
            && (At(k', WaitList(q)) != [] <==> At(k, WaitList(q)) != [])
  {
    hide Core, AllInFuture, Delete, Enabled;
    ForeignOwn(k, DoDelete(t), q);
    HoldersAre(k, q);
    HandedIsAwake(k, t, q, Object);
    DeleteMoves(k, t);
    var k' := Delete(k, t).0;
    assert Apply(k, DoDelete(t)) == k';
    if At(k, WaitList(q)) != [] {
      var u := At(k, WaitList(q))[0];
      assert u in At(k, WaitList(q)) && u != t;
      WaiterNode(k, u, q);
      WaiterNode(k', u, q);
    }
    if At(k', WaitList(q)) != [] {
      assert At(k', WaitList(q))[0] in At(k, WaitList(q));
    }
  }

  /** What the tasks waiting on `q` wait for: messages, or free slots. */
  function Supply(x: Mq, q: QueueId): int {
    if q == x.readers then |x.messages| else x.qlen - |x.messages|
  }

  /** A wake-up deleted with its task is never passed on. Its half of the wake-up invariant, the readers' or the
      writers', survives the deletion exactly when nobody waits there or there were more wake-ups under way than
      messages, or free slots. */
  lemma DeletionKeepsWakeUpsIff(m: System, t: TaskId, q: QueueId)
    requires MqInv(m) && !m.mq.destroyed && CanHappen(m, Elsewhere(DoDelete(t)))
    requires q == m.mq.readers || q == m.mq.writers
    requires t in Holders(m.kernel, q) && Delete(m.kernel, t).1 == Ok
    ensures var m' := Next(m, Elsewhere(DoDelete(t)));
            (At(m'.kernel, WaitList(q)) != [] ==> Supply(m'.mq, q) <= |Holders(m'.kernel, q)|) <==>
            (At(m.kernel, WaitList(q)) == [] || Supply(m.mq, q) < |Holders(m.kernel, q)|)
  {
    hide Inv, CallsOk, LogOk, WakeUps, Holders, At, Delete, Enabled;
    HolderDeletion(m.kernel, q, t);
    RemoveOne(Holders(m.kernel, q), t);
    assert Apply(m.kernel, DoDelete(t)) == Delete(m.kernel, t).0;
  }

  /** And it does happen: two readers wait on an empty queue, a send wakes the first, and that one is deleted
      before it runs. Now a message is there, a reader waits, and nobody is on the way. */
  lemma DeletedReaderStrandsMessage(m: System, data: seq<byte>)
    requires MqInv(m) && !m.mq.destroyed && Calling(m.kernel)
    requires m.mq.messages == [] && |At(m.kernel, WaitList(m.mq.readers))| >= 2
    requires Holders(m.kernel, m.mq.readers) == {} && 0 < |data| <= m.mq.cap
    ensures var first := At(m.kernel, WaitList(m.mq.readers))[0];
            var es := [Called(Send(false, data), 0), Elsewhere(DoDelete(first))];
            && Legal(m, es)
            && var end := Run(m, es);
               && At(end.kernel, WaitList(m.mq.readers)) != []
               && end.mq == m.mq.(messages := [Padded(data, m.mq.cap)])
               && Holders(end.kernel, m.mq.readers) == {}
  {
    hide Inv, MqInv, Holders, WakeResult, Delete, Padded, At, Next, CanHappen, StepOf;
    var k, q := m.kernel, m.mq.readers;
    var first := At(k, WaitList(q))[0];
    var send, delete := Called(Send(false, data), 0), Elsewhere(DoDelete(first));
    MqInvKernel(m);
    var m1 := Next(m, send);
    SendToWaiters(m, data);
    WakeOwn(k, q, false);
    WokenCanBeDeleted(k, q);
    HolderDeletion(m1.kernel, q, first);
    DeleteElsewhere(m1, first);
    RunOfTwo(m, send, delete);
  }

  lemma MqInvKernel(m: System)
    requires MqInv(m)
    ensures Inv(m.kernel) && Shape(m.mq)
  {
  }

  /** A send to an empty queue with readers waiting wakes the first of them. */
  lemma SendToWaiters(m: System, data: seq<byte>)
    requires MqInv(m) && !m.mq.destroyed && Calling(m.kernel)
    requires m.mq.messages == [] && 0 < |data| <= m.mq.cap
    ensures var send := Called(Send(false, data), 0);
            && CanHappen(m, send)
            && Next(m, send).kernel == WakeResult(m.kernel, m.mq.readers, Object).0
            && Next(m, send).mq == m.mq.(messages := [Padded(data, m.mq.cap)])
  {
    hide Inv, CallsOk, LogOk, WakeUps, WakeResult, Padded, FitsClock;
    FitsZero();
  }

  lemma DeleteElsewhere(m: System, t: TaskId)
    requires Enabled(m.kernel, DoDelete(t))
    ensures CanHappen(m, Elsewhere(DoDelete(t)))
    ensures Next(m, Elsewhere(DoDelete(t))).kernel == Delete(m.kernel, t).0
    ensures Next(m, Elsewhere(DoDelete(t))).mq == m.mq
  {
    hide Enabled, Delete, Holders;
  }

  lemma RunOfTwo(m: System, a: Event, b: Event)
    requires CanHappen(m, a) && CanHappen(Next(m, a), b)
    ensures Legal(m, [a, b]) && Run(m, [a, b]) == Next(Next(m, a), b)
  {
    hide CanHappen, Next;
    var m1 := Next(m, a);
    assert [a, b][1..] == [b] && [b][1..] == [];
    assert Legal(Next(m1, b), []) && Run(Next(m1, b), []) == Next(m1, b);
    assert Legal(m1, [b]) && Run(m1, [b]) == Next(m1, b);
  }

  lemma FitsZero()
    ensures FitsClock(0)
  {
  }

  lemma WokenCanBeDeleted(k: Kernel, q: QueueId)
    requires Inv(k) && At(k, WaitList(q)) != [] && MayBlock(k)
    ensures var t := At(k, WaitList(q))[0];
            var k' := WakeResult(k, q, Object).0;
            && Delete(k', t).1 == Ok && Enabled(k', DoDelete(t))
  {
    hide Core, AllInFuture, WakeResult, MarkDeleted;
    var t := At(k, WaitList(q))[0];
    WaiterIsWaiting(k, t, q);
    WakeResultKeeps(k, q, Object);
    WokenMoves(k, q, Object);
    RunningTaskOk(k);
  }
}
