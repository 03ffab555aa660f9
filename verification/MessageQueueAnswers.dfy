/** When each call on a message queue succeeds, what it answers when it does not, and which message it hands back. */
module MessageQueueAnswers {
  import opened Common
  import opened TickTime
  import opened KernelState
  import opened KernelInvariant
  import opened KernelBlocking
  import opened KernelWaking
  import KernelRuns
  import opened KernelFrames
  import opened KernelSchedule
  import opened KernelTimeouts
  import opened OwnQueue
  import opened MessageQueue

  // ----- codes

  /** The queue is live and the arguments are in order. */
  predicate Accepts(x: Mq, call: Call) {
    !BadArguments(x, call) && !x.destroyed
  }

  /** One pass of a call succeeds exactly if there is a free slot to send into, or a message to receive or peek at. If
      not, a call that may not wait is busy, one under the scheduler lock is refused, one whose time is no tick is over,
      and any other waits, on its own side of the queue and till its own deadline. */
  lemma AttemptAnswers(k: Kernel, x: Mq, call: Call, us: uint64)
    requires Inv(k) && Shape(x) && Calling(k) && FitsClock(us)
    ensures var step := Attempt(k, x, call, us);
            var c := k.current.value;
            var able := if call.Send? then |x.messages| < x.qlen else |x.messages| > 0;
            var late := us != FOREVER_US && UsToTicks(us) == 0;
            var refused := Accepts(x, call) && !able;
            && (step.outcome == Returns(Invalid, None) <==>
                  call.Send? && (|call.data| == 0 || |call.data| > x.cap))
            && (step.outcome == Returns(WasDestroyed, None) <==> !BadArguments(x, call) && x.destroyed)
            && (step.outcome.Returns? && step.outcome.code == Ok <==> Accepts(x, call) && able)
            && (step.outcome == Returns(Busy, None) <==> refused && us == 0)
            && (step.outcome == Returns(Locked, None) <==> refused && us != 0 && IsLocked(k))
            && (step.outcome == Returns(TimedOut, None) <==> refused && us != 0 && !IsLocked(k) && late)
            && (step.outcome == Suspends <==> refused && us != 0 && !IsLocked(k) && !late)
            && (step.outcome == Suspends ==>
                  && c in At(step.kernel, WaitList(if call.Send? then x.writers else x.readers))
                  && (us != FOREVER_US ==> AsleepUntil(step.kernel, c, k.now + UsToTicks(us))))
            && (!able || call.Peek? ==> step.mq == x)
            && (step.outcome == Returns(Locked, None) ==> step.kernel == k.(pending := true))
            && (step.outcome.Returns? && step.outcome.code != Ok && step.outcome.code != Locked ==> step.kernel == k)
  {
    hide Inv, BlockTimeout, WakeResult, At, UsToTicks, AsleepUntil, Padded;
    BlockAnswers(k, BlocksOn(x, call), us);
  }

  /** The interrupt forms succeed in the same cases and never wait; if they wake anyone they ask for the processor. */
  lemma IsrAnswers(k: Kernel, x: Mq, call: Call)
    requires Shape(x)
    ensures var step := FromIsr(k, x, call);
            var able := if call.Send? then |x.messages| < x.qlen else |x.messages| > 0;
            && step.outcome.Returns?
            && (step.outcome.code == Invalid <==> call.Send? && (|call.data| == 0 || |call.data| > x.cap))
            && (step.outcome.code == WasDestroyed <==> !BadArguments(x, call) && x.destroyed)
            && (step.outcome.code == Ok <==> Accepts(x, call) && able)
            && (step.outcome.code == Busy <==> Accepts(x, call) && !able)
            && (step.outcome.code != Ok ==> step.mq == x && step.kernel == k && step.outcome.message == None)
            && (call.Peek? ==> step.mq == x)
            && (step.outcome.code == Ok && At(k, WaitList(if call.Recv? then x.writers else x.readers)) != [] ==>
                  step.kernel.pending)
  {
    hide WakeFromIsr, Padded;
    WakeAsks(k, WakesOn(x, call));
  }

  /** A resumed call answers by what woke it; handed a wake-up it tries again. */
  lemma AwakenAnswers(m: System)
    requires MqInv(m) && CanHappen(m, Resumed)
    ensures var k, c := m.kernel, m.kernel.current.value;
            var q := if CallOf(m).call.Send? then m.mq.writers else m.mq.readers;
            var outcome := StepOf(m, Resumed).outcome;
            && (c in Holders(k, q) ==> StepOf(m, Resumed) == Attempt(Resume(k), m.mq, CallOf(m).call, CallOf(m).us))
            && (c !in Holders(k, q) ==>
                  && StepOf(m, Resumed).mq == m.mq
                  && (outcome == Returns(WasDestroyed, None) <==> Handed(k, c, q, Destroyed))
                  && (outcome == Returns(TimedOut, None) <==> TaskOf(k, c).result == Timeout)
                  && (outcome == Returns(WasDestroyed, None) || outcome == Returns(TimedOut, None)))
  {
    hide Inv, LogOk, WakeUps, Attempt, Holders, Handed, At;
    var k, c := m.kernel, m.kernel.current.value;
    ResumeFinds(k, if WaitsOn(k, c, m.mq.writers) then m.mq.writers else m.mq.readers);
  }

  /** Destruction empties both wait queues, and everyone on them is to be told. */
  lemma DestroyAnswers(m: System)
    requires MqInv(m)
    ensures var step := StepOf(m, DestroyCalled);
            var x := m.mq;
            && (step.outcome == Returns(BadState, None) <==> x.destroyed)
            && (step.outcome == Returns(Ok, None) <==> !x.destroyed)
            && (x.destroyed ==> step.kernel == m.kernel && step.mq == x)
            && (!x.destroyed ==>
                  && step.mq == x.(destroyed := true)
                  && At(step.kernel, WaitList(x.readers)) == [] && At(step.kernel, WaitList(x.writers)) == []
                  && (forall t | t in At(m.kernel, WaitList(x.readers)) ::
                        Handed(step.kernel, t, x.readers, Destroyed))
                  && (forall t | t in At(m.kernel, WaitList(x.writers)) ::
                        Handed(step.kernel, t, x.writers, Destroyed)))
  {
    hide Inv, LogOk, CallsOk, WakeUps, WakeAll, Holders, NoneTold;
    var k, x := m.kernel, m.mq;
    if !x.destroyed {
      var k1 := WakeAll(k, x.readers, Destroyed).0;
      DestroyOwn(k, x.readers);
      DestroyOwn(k1, x.writers);
      DestroyOthers(k, x.readers, x.writers);
      DestroyOthers(k1, x.writers, x.readers);
      StaysEmpty(At(k1, WaitList(x.readers)), At(WakeAll(k1, x.writers, Destroyed).0, WaitList(x.readers)));
    }
  }

  lemma StaysEmpty(s: seq<TaskId>, s': seq<TaskId>)
    requires forall t :: t in s' ==> t in s
    ensures s == [] ==> s' == []
  {
    if s' != [] {
      assert s'[0] in s';
    }
  }

  /** Waking all of one queue leaves another's waiters, and whoever is on its way out of it. */
  lemma DestroyOthers(k: Kernel, q: QueueId, other: QueueId)
    requires Inv(k) && q != other
    ensures var k' := WakeAll(k, q, Destroyed).0;
            && (forall t :: t in At(k', WaitList(other)) <==> t in At(k, WaitList(other)))
            && (forall t :: Handed(k, t, other, Destroyed) ==> Handed(k', t, other, Destroyed))
  {
    hide Core, AllInFuture, WakeAll;
    WakeAllKeeps(k, q, Destroyed);
    KernelRuns.WakeAllMoves(k, q, Destroyed);
    var k' := WakeAll(k, q, Destroyed).0;
    forall t
      ensures t in At(k', WaitList(other)) <==> t in At(k, WaitList(other))
      ensures Handed(k, t, other, Destroyed) ==> Handed(k', t, other, Destroyed)
    {
      WaiterNode(k, t, other);
      WaiterNode(k', t, other);
      WaiterIsWaiting(k, t, q);
      assert PcOf(k', t) == PcOf(k, t);
    }
  }

  // ----- messages

  /** A slot holds the bytes sent, then zeros up to the slot's size. */
  lemma PaddedIs(data: seq<byte>, cap: nat)
    requires |data| <= cap
    ensures var message := Padded(data, cap);
            && |message| == cap && message[..|data|] == data
            && forall i | |data| <= i < cap :: message[i] == 0
  {
  }

  /** A peek answers what a receive in its place would, message and all, and leaves the message there; from a task or an
      interrupt. */
  lemma PeekAnswersAsReceive(k: Kernel, x: Mq, us: uint64)
    ensures CanServe(x, Recv) ==> Attempt(k, x, Peek, us).outcome == Attempt(k, x, Recv, us).outcome
    ensures FromIsr(k, x, Peek).outcome == FromIsr(k, x, Recv).outcome
    ensures CanServe(x, Recv) ==> FromIsr(k, x, Recv).outcome == Attempt(k, x, Recv, us).outcome
    ensures CanServe(x, Recv) ==> Attempt(k, x, Peek, us).mq == FromIsr(k, x, Peek).mq == x
  {
    hide WakeResult, WakeFromIsr, BlockTimeout;
  }

  /** The message a call hands back, on any way into its pass: none unless it receives or peeks, and then, while nothing
      has been sent to the front, the next of the messages sent that has not been received. */
  lemma HandsBackNextSent(m: System, e: Event)
    requires MqInv(m) && CanHappen(m, e) && !m.fronted && ServedCall(m, e).Some?
    ensures var outcome := StepOf(m, e).outcome;
            outcome.message == if ServedCall(m, e).value.Send? || |m.received| >= |m.sent| then None
                               else Some(m.sent[|m.received|])
    ensures !ServedCall(m, e).value.Send? ==> |m.received| < |m.sent|
  {
    hide Inv, CallsOk, WakeUps, WakeResult, WakeFromIsr, BlockTimeout, Padded, At;
    var s := m.mq.messages;
    if s != [] {
      assert m.sent[|m.received|] == (m.received + s)[|m.received|] == s[0];
    }
  }

  /** What `n` receives in a row hand back, and the queue they leave. */
  function Received(x: Mq, n: nat): (Mq, seq<Message>)
    requires n <= |x.messages|
    decreases n
  {
    if n == 0 then (x, [])
    else
      var (x', message) := Served(x, Recv);
      ReceiveShortens(x);
      var (end, rest) := Received(x', n - 1);
      (end, [message.value] + rest)
  }

  lemma ReceiveShortens(x: Mq)
    requires CanServe(x, Recv)
    ensures Served(x, Recv).1.Some? && |Served(x, Recv).0.messages| == |x.messages| - 1
  {
  }

  lemma {:induction false} ReceivedIs(x: Mq, n: nat)
    requires n <= |x.messages|
    ensures Received(x, n) == (x.(messages := x.messages[n..]), x.messages[..n])
    decreases n
  {
    if n > 0 {
      var x' := x.(messages := x.messages[1..]);
      ReceivedIs(x', n - 1);
      assert x.messages[..n] == [x.messages[0]] + x.messages[1..][..n - 1];
      assert x.messages[n..] == x.messages[1..][n - 1..];
    }
  }

  /** A message sent is received after all those already there, one sent to the front before them; either way the others
      keep their order, and the queue is empty after as many receives as it held messages. */
  lemma SentIsReceived(x: Mq, front: bool, data: seq<byte>)
    requires CanServe(x, Send(front, data)) && !BadArguments(x, Send(front, data))
    ensures var n := |x.messages|;
            var x' := Served(x, Send(front, data)).0;
            var before := Received(x, n).1;
            && |x'.messages| == n + 1
            && Received(x', n + 1).1 ==
               (if front then [Padded(data, x.cap)] + before else before + [Padded(data, x.cap)])
            && Received(x', n + 1).0 == x.(messages := [])
  {
    hide Padded;
    ReceivedIs(x, |x.messages|);
    ReceivedIs(Served(x, Send(front, data)).0, |x.messages| + 1);
    var s := Served(x, Send(front, data)).0.messages;
    assert s[..|s|] == s && s[|s|..] == [];
    assert x.messages[..|x.messages|] == x.messages;
  }

  /** A message sent to the front is the very next received, which leaves the queue as it was. */
  lemma FrontSendUndone(k: Kernel, k': Kernel, x: Mq, data: seq<byte>, us: uint64)
    requires CanServe(x, Send(true, data)) && Accepts(x, Send(true, data))
    ensures var sent := Attempt(k, x, Send(true, data), us);
            var got := Attempt(k', sent.mq, Recv, us);
            got.outcome == Returns(Ok, Some(Padded(data, x.cap))) && got.mq == x
  {
    hide WakeResult, Padded;
  }
}
