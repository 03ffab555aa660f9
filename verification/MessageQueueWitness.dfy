/** A run from boot that ends with a stranded message: the state `DeletedReaderStrandsMessage` starts from is
    reached. */
module MessageQueueWitness {
  import opened Common
  import opened TickTime
  import opened Bitmap
  import opened KernelState
  import opened KernelInvariant
  import opened KernelBlocking
  import opened KernelWaking
  import opened KernelRuns
  import opened KernelFrames
  import opened KernelStages
  import opened MessageQueue

  // ----- the kernel at each stage: the idle task 0 at priority 0, tasks 1 to 3 at priority 1, readers on queue 0

  function Created(n: nat): Kernel
    requires n <= 3
  {
    if n == 0 then BootStage()
    else if n == 1 then
      Stage(map[0 := Listed(0), 1 := Listed(1)], map[ReadyList(0) := [0], ReadyList(1) := [1]], 3, None, map[], 0)
    else if n == 2 then
      Stage(map[0 := Listed(0), 1 := Listed(1), 2 := Listed(1)],
            map[ReadyList(0) := [0], ReadyList(1) := [1, 2]], 3, None, map[], 0)
    else
      Stage(map[0 := Listed(0), 1 := Listed(1), 2 := Listed(1), 3 := Listed(1)],
            map[ReadyList(0) := [0], ReadyList(1) := [1, 2, 3]], 3, None, map[], 0)
  }

  function Started(): Kernel {
    Stage(map[0 := Listed(0), 1 := Runs(1), 2 := Listed(1), 3 := Listed(1)],
          map[ReadyList(0) := [0], ReadyList(1) := [2, 3]], 3, Some(1), map[], 0)
  }

  function OneWaits(): Kernel {
    Stage(map[0 := Listed(0), 1 := Waits(1, 0), 2 := Listed(1), 3 := Listed(1)],
          map[ReadyList(0) := [0], ReadyList(1) := [2, 3], WaitList(0) := [1]], 3, Some(1),
          map[1 := Waiting(0, false, 0)], 1)
  }

  function SecondRuns(): Kernel {
    Stage(map[0 := Listed(0), 1 := Waits(1, 0), 2 := Runs(1), 3 := Listed(1)],
          map[ReadyList(0) := [0], ReadyList(1) := [3], WaitList(0) := [1]], 3, Some(2),
          map[1 := Waiting(0, false, 0)], 1)
  }

  function TwoWait(): Kernel {
    Stage(map[0 := Listed(0), 1 := Waits(1, 0), 2 := Waits(1, 0), 3 := Listed(1)],
          map[ReadyList(0) := [0], ReadyList(1) := [3], WaitList(0) := [1, 2]], 3, Some(2),
          map[1 := Waiting(0, false, 0), 2 := Waiting(0, false, 1)], 2)
  }

  function ThirdRuns(): Kernel {
    Stage(map[0 := Listed(0), 1 := Waits(1, 0), 2 := Waits(1, 0), 3 := Runs(1)],
          map[ReadyList(0) := [0], ReadyList(1) := [], WaitList(0) := [1, 2]], 1, Some(3),
          map[1 := Waiting(0, false, 0), 2 := Waiting(0, false, 1)], 2)
  }

  // ----- from stage to stage

  lemma BootIsCreated()
    ensures Boot(0) == Created(0)
  {
    BootIs();
  }

  lemma CreateStage(n: nat)
    requires n < 3
    ensures Create(Created(n), n + 1, 1) == Created(n + 1)
  {
    hide Create;
    CreateShape(Created(n), n + 1, 1);
    assert SetBit(1, 1) == 3 && SetBit(3, 1) == 3;
    assert n == 0 ==> At(Created(0), ReadyList(1)) + [1] == [1];
    assert n == 1 ==> At(Created(1), ReadyList(1)) + [2] == [1, 2];
    assert n == 2 ==> At(Created(2), ReadyList(1)) + [3] == [1, 2, 3];
    assert Create(Created(n), n + 1, 1).tasks == Created(n + 1).tasks;
    assert Create(Created(n), n + 1, 1).lists == Created(n + 1).lists;
  }

  lemma PickStage(k: Kernel, next: TaskId, rest: seq<TaskId>)
    requires k.mask == 3 && At(k, ReadyList(1)) == [next] + rest && !CurrentIs(k, Running)
    ensures PickNext(k) == k.(
              tasks := k.tasks[next := TaskOf(k, next).(node := Unlinked, state := Running)],
              lists := k.lists[ReadyList(1) := rest],
              mask := if rest == [] then 1 else 3,
              current := Some(next))
  {
    hide PickNext;
    assert Pow2(1) == 2 && Pow2(2) == 4 && Has(3, 1) && ClearBit(3, 1) == 1;
    PickShape(k, 1, next, rest);
  }

  lemma StartStage()
    ensures PickNext(Created(3)) == Started()
  {
    hide PickNext;
    PickStage(Created(3), 1, [2, 3]);
    assert PickNext(Created(3)).tasks == Started().tasks;
    assert PickNext(Created(3)).lists == Started().lists;
  }

  lemma FirstTrap()
    ensures Trap(OneWaits(), false, 0) == SecondRuns()
  {
    hide PickNext, Trap;
    TrapPicks(OneWaits());
    PickStage(OneWaits(), 2, [3]);
    assert PickNext(OneWaits()).tasks == SecondRuns().tasks;
    assert PickNext(OneWaits()).lists == SecondRuns().lists;
  }

  lemma SecondTrap()
    ensures Trap(TwoWait(), false, 0) == ThirdRuns()
  {
    hide PickNext, Trap;
    TrapPicks(TwoWait());
    assert [3] + [] == [3];
    PickStage(TwoWait(), 3, []);
    assert PickNext(TwoWait()).tasks == ThirdRuns().tasks;
    assert PickNext(TwoWait()).lists == ThirdRuns().lists;
  }

  lemma FirstBlocks()
    ensures BlockLocked(Started(), 0) == (OneWaits(), Ok)
  {
    hide BlockLocked;
    BlockShape(Started(), 0);
    assert [] + [1] == [1];
    assert BlockLocked(Started(), 0).0.tasks == OneWaits().tasks;
    assert BlockLocked(Started(), 0).0.lists == OneWaits().lists;
  }

  lemma SecondBlocks()
    ensures BlockLocked(SecondRuns(), 0) == (TwoWait(), Ok)
  {
    hide BlockLocked;
    BlockShape(SecondRuns(), 0);
    assert [1] + [2] == [1, 2];
    assert BlockLocked(SecondRuns(), 0).0.tasks == TwoWait().tasks;
    assert BlockLocked(SecondRuns(), 0).0.lists == TwoWait().lists;
  }

  // ----- the queue's run

  /** A queue of `qlen` messages of `cap` bytes, with no event yet. */
  function AtBoot(cap: nat, qlen: nat): System {
    System(Boot(0), Mq(0, 1, cap, qlen, [], false), map[], [], [], false, 0, 0)
  }

  /** Tasks 1 to 3 are created and the kernel starts. */
  function ToStarted(): seq<Event> {
    [Elsewhere(DoCreate(1, 1)), Elsewhere(DoCreate(2, 1)), Elsewhere(DoCreate(3, 1)), Elsewhere(DoStart)]
  }

  /** Tasks 1 and 2 wait for a message without a timeout. */
  function ToTwoWait(): seq<Event> {
    var receive := Called(Recv, FOREVER_US);
    var trap := Elsewhere(DoTrap(false, 0));
    [receive, trap, receive, trap]
  }

  function ToTwoReaders(): seq<Event> {
    ToStarted() + ToTwoWait()
  }

  lemma ElsewhereNext(m: System, op: Op)
    requires Enabled(m.kernel, op) && (op.DoCreate? || op.DoStart? || op.DoTrap?)
    ensures CanHappen(m, Elsewhere(op)) && Next(m, Elsewhere(op)) == m.(kernel := Apply(m.kernel, op))
  {
    hide Enabled, Apply;
  }

  lemma ReceiveNext(m: System, k': Kernel)
    requires m.mq.messages == [] && !m.mq.destroyed && Calling(m.kernel) && !IsLocked(m.kernel)
    requires BlockLocked(m.kernel, m.mq.readers) == (k', Ok)
    ensures var receive := Called(Recv, FOREVER_US);
            && CanHappen(m, receive)
            && Next(m, receive) == m.(kernel := k',
                                      calls := m.calls[m.kernel.current.value := Pending(Recv, FOREVER_US)])
  {
    hide BlockLocked, Calling;
    assert m.kernel.current.Some? by {
      CallerRuns(m.kernel);
    }
  }

  lemma CallerRuns(k: Kernel)
    requires Calling(k)
    ensures k.current.Some?
  {
  }

  /** A path through given systems is a legal run. */
  lemma {:induction false} RunPath(ms: seq<System>, es: seq<Event>)
    requires |ms| == |es| + 1
    requires forall i | 0 <= i < |es| :: CanHappen(ms[i], es[i]) && Next(ms[i], es[i]) == ms[i + 1]
    ensures MessageQueue.Legal(ms[0], es) && MessageQueue.Run(ms[0], es) == ms[|es|]
    decreases |es|
  {
    hide CanHappen, Next;
    if es != [] {
      assert forall i | 0 <= i < |es| - 1 :: ms[1..][i] == ms[i + 1] && es[1..][i] == es[i + 1];
      RunPath(ms[1..], es[1..]);
    }
  }

  lemma CreateNext(m: System, n: nat)
    requires n < 3 && m.kernel == Created(n)
    ensures var op := DoCreate(n + 1, 1);
            CanHappen(m, Elsewhere(op)) && Next(m, Elsewhere(op)) == m.(kernel := Created(n + 1))
  {
    CreateStage(n);
    ElsewhereNext(m, DoCreate(n + 1, 1));
  }

  /** That run is legal, and ends with two readers waiting on the empty queue and a third task running. */
  lemma TwoReadersReached(cap: nat, qlen: nat)
    requires cap >= 1 && qlen >= 1
    ensures var m := AtBoot(cap, qlen);
            && Fresh(m) && MessageQueue.Legal(m, ToTwoReaders())
            && var end := MessageQueue.Run(m, ToTwoReaders());
               end.kernel == ThirdRuns() && end.mq == m.mq
  {
    hide Next, CanHappen, Started, ThirdRuns, Fresh, ToStarted, ToTwoWait;
    var m := AtBoot(cap, qlen);
    FreshAtBoot(cap, qlen);
    StartsUp(m);
    var m4 := m.(kernel := Started());
    TwoStartToWait(m4);
    RunConcat(m, ToStarted(), ToTwoWait());
  }

  lemma StartsUp(m: System)
    requires m.kernel == Boot(0)
    ensures MessageQueue.Legal(m, ToStarted()) && MessageQueue.Run(m, ToStarted()) == m.(kernel := Started())
  {
    hide Next, CanHappen, Created, Started, Boot;
    BootIsCreated();
    var m1, m2, m3 := m.(kernel := Created(1)), m.(kernel := Created(2)), m.(kernel := Created(3));
    CreateNext(m, 0);
    CreateNext(m1, 1);
    CreateNext(m2, 2);
    StartNext(m3);
    RunPath([m, m1, m2, m3, m.(kernel := Started())], ToStarted());
  }

  lemma TwoStartToWait(m: System)
    requires m.kernel == Started() && m.mq.messages == [] && !m.mq.destroyed && m.mq.readers == 0 && m.calls == map[]
    ensures MessageQueue.Legal(m, ToTwoWait())
    ensures var waits := Pending(Recv, FOREVER_US);
            MessageQueue.Run(m, ToTwoWait()) == m.(kernel := ThirdRuns(), calls := map[1 := waits, 2 := waits])
  {
    hide Next, CanHappen, Started, OneWaits, SecondRuns, TwoWait, ThirdRuns;
    var waits := Pending(Recv, FOREVER_US);
    var m5 := m.(kernel := OneWaits(), calls := map[1 := waits]);
    var m6 := m5.(kernel := SecondRuns());
    var m7 := m6.(kernel := TwoWait(), calls := map[1 := waits, 2 := waits]);
    FirstReceive(m);
    SecondReceive(m6);
    TrapsNext(m5, m7);
    RunPath([m, m5, m6, m7, m7.(kernel := ThirdRuns())], ToTwoWait());
  }

  lemma FreshAtBoot(cap: nat, qlen: nat)
    requires cap >= 1 && qlen >= 1
    ensures Fresh(AtBoot(cap, qlen))
  {
    hide Inv;
    BootInv(0);
    BootIs();
  }

  lemma StartNext(m: System)
    requires m.kernel == Created(3)
    ensures CanHappen(m, Elsewhere(DoStart)) && Next(m, Elsewhere(DoStart)) == m.(kernel := Started())
  {
    StartStage();
    ElsewhereNext(m, DoStart);
  }

  lemma FirstReceive(m: System)
    requires m.kernel == Started() && m.mq.messages == [] && !m.mq.destroyed && m.mq.readers == 0 && m.calls == map[]
    ensures var receive := Called(Recv, FOREVER_US);
            && CanHappen(m, receive)
            && Next(m, receive) == m.(kernel := OneWaits(), calls := map[1 := Pending(Recv, FOREVER_US)])
  {
    FirstBlocks();
    ReceiveNext(m, OneWaits());
  }

  lemma SecondReceive(m: System)
    requires m.kernel == SecondRuns() && m.mq.messages == [] && !m.mq.destroyed && m.mq.readers == 0
    requires m.calls == map[1 := Pending(Recv, FOREVER_US)]
    ensures var receive := Called(Recv, FOREVER_US);
            && CanHappen(m, receive)
            && Next(m, receive) == m.(kernel := TwoWait(), calls := map[1 := Pending(Recv, FOREVER_US),
                                                                        2 := Pending(Recv, FOREVER_US)])
  {
    SecondBlocks();
    ReceiveNext(m, TwoWait());
  }

  lemma TrapEnabled()
    ensures Enabled(OneWaits(), DoTrap(false, 0)) && Enabled(TwoWait(), DoTrap(false, 0))
  {
  }

  lemma TrapsNext(m5: System, m7: System)
    requires m5.kernel == OneWaits() && m7.kernel == TwoWait()
    ensures var trap := Elsewhere(DoTrap(false, 0));
            && CanHappen(m5, trap) && Next(m5, trap) == m5.(kernel := SecondRuns())
            && CanHappen(m7, trap) && Next(m7, trap) == m7.(kernel := ThirdRuns())
  {
    hide Stage, OneWaits, SecondRuns, TwoWait, ThirdRuns, Trap;
    FirstTrap();
    SecondTrap();
    TrapEnabled();
    ElsewhereNext(m5, DoTrap(false, 0));
    ElsewhereNext(m7, DoTrap(false, 0));
  }

  /** A legal run from boot strands a message: task 3 sends one, task 1 is woken for it and deleted before it runs; the
      message is there, task 2 waits for it, and nobody is on the way. */
  lemma StrandedFromBoot(cap: nat, qlen: nat, data: seq<byte>)
    requires qlen >= 1 && 0 < |data| <= cap
    ensures var es := ToTwoReaders() + [Called(Send(false, data), 0), Elsewhere(DoDelete(1))];
            && MessageQueue.Legal(AtBoot(cap, qlen), es)
            && var end := MessageQueue.Run(AtBoot(cap, qlen), es);
               && end.mq == AtBoot(cap, qlen).mq.(messages := [Padded(data, cap)])
               && At(end.kernel, WaitList(end.mq.readers)) != []
               && Holders(end.kernel, end.mq.readers) == {}
  {
    hide MqInv, MessageQueue.Legal, MessageQueue.Run, Fresh, Inv;
    var m := AtBoot(cap, qlen);
    TwoReadersReached(cap, qlen);
    FreshInv(m);
    NoLostWakeUp(m, ToTwoReaders());
    var two := MessageQueue.Run(m, ToTwoReaders());
    assert Holders(two.kernel, 0) == {};
    DeletedReaderStrandsMessage(two, data);
    var more := [Called(Send(false, data), 0), Elsewhere(DoDelete(1))];
    RunConcat(m, ToTwoReaders(), more);
  }

  lemma {:induction false} RunConcat(m: System, a: seq<Event>, b: seq<Event>)
    requires MessageQueue.Legal(m, a) && MessageQueue.Legal(MessageQueue.Run(m, a), b)
    ensures MessageQueue.Legal(m, a + b) && MessageQueue.Run(m, a + b) == MessageQueue.Run(MessageQueue.Run(m, a), b)
    decreases |a|
  {
    hide CanHappen, Next;
    if a == [] {
      assert a + b == b;
    } else {
      assert (a + b)[1..] == a[1..] + b;
      RunConcat(Next(m, a[0]), a[1..], b);
    }
  }
}
