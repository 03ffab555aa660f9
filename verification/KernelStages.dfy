/** What one step of a spelled-out run does to a spelled-out kernel. */
module KernelStages {
  import opened Common
  import opened Bitmap
  import opened KernelState
  import opened KernelBlocking
  import opened KernelRuns

  function Listed(priority: nat): Task {
    Task(priority, Ready, Linked(ReadyList(priority)), false, 0, NoResult)
  }

  function Runs(priority: nat): Task {
    Task(priority, Running, Unlinked, false, 0, NoResult)
  }

  function Waits(priority: nat, q: QueueId): Task {
    Task(priority, Blocked, Linked(WaitList(q)), false, 0, NoResult)
  }

  /** No timeout is queued, no slice used, the lock is free and nothing is pending; the idle task is 0. */
  function Stage(tasks: map<TaskId, Task>, lists: map<ListId, seq<TaskId>>, mask: nat, current: Option<TaskId>,
                 pc: map<TaskId, Pc>, arrivals: nat): Kernel {
    Kernel(tasks, lists, mask, [], current, 0, 0, 0, false, 0, map[], pc, arrivals)
  }

  function BootStage(): Kernel {
    Stage(map[0 := Listed(0)], map[ReadyList(0) := [0]], 1, None, map[], 0)
  }

  lemma BootIs()
    ensures Boot(0) == BootStage()
  {
    assert InsertAt([], 0, 0) == [0];
  }

  lemma CreateShape(k: Kernel, t: TaskId, p: nat)
    requires t !in k.tasks && p <= PRIORITY_MAX
    ensures Create(k, t, p) == k.(
              tasks := k.tasks[t := Listed(p)],
              lists := k.lists[ReadyList(p) := At(k, ReadyList(p)) + [t]],
              mask := SetBit(k.mask, p))
  {
    hide SetBit;
    var s := At(k, ReadyList(p));
    assert InsertAt(s, |s|, t) == s + [t];
    assert Create(k, t, p).tasks == k.tasks[t := Listed(p)];
  }

  /** Picking takes the first task of the list `p` of the highest bit. */
  lemma PickShape(k: Kernel, p: nat, next: TaskId, rest: seq<TaskId>)
    requires Pow2(p) <= k.mask < Pow2(p + 1) && p <= PRIORITY_MAX && Has(k.mask, p)
    requires At(k, ReadyList(p)) == [next] + rest && !CurrentIs(k, Running)
    ensures PickNext(k) == k.(
              tasks := k.tasks[next := TaskOf(k, next).(node := Unlinked, state := Running)],
              lists := k.lists[ReadyList(p) := rest],
              mask := if rest == [] then ClearBit(k.mask, p) else k.mask,
              current := Some(next))
  {
    HighestIs(k.mask, p);
    Pow2Monotone(0, p);
    hide Highest, ClearBit, Has, Pow2;
    assert ([next] + rest)[1..] == rest;
    var off := TaskOf(k, next).(node := Unlinked);
    assert k.tasks[next := off][next := off.(state := Running)] == k.tasks[next := off.(state := Running)];
  }

  /** A running task steps down to the end of its list. */
  lemma StepDownShape(k: Kernel, p: nat)
    requires k.current.Some? && k.current != Some(k.idle) && k.current.value in k.tasks && p <= PRIORITY_MAX
    requires TaskOf(k, k.current.value) == Runs(p)
    ensures var c := k.current.value;
            StepDown(k) == k.(
              tasks := k.tasks[c := Listed(p)],
              lists := k.lists[ReadyList(p) := At(k, ReadyList(p)) + [c]],
              mask := SetBit(k.mask, p))
  {
    hide SetBit;
    var c := k.current.value;
    var s := At(k, ReadyList(p));
    assert InsertAt(s, |s|, c) == s + [c];
    assert StepDown(k).tasks == k.tasks[c := Listed(p)];
  }

  /** A tick that finds a higher priority ready steps the running task down and picks. */
  lemma TickPreempts(k: Kernel, now: nat)
    requires k.timeouts == [] && CurrentIs(k, Running) && !CurrentIsIdle(k) && !IsLocked(k)
    requires k.mask != 0 && HigherPriorityReady(k)
    ensures Trap(k, true, now) == SwitchToHighest(StepDown(k.(now := now, slice := 0)))
  {
    hide StepDown, SwitchToHighest, And, Above;
    var ticked := k.(now := now);
    assert TrapExpire(k, true, now) == ticked;
    assert HigherPriorityReady(ticked);
    assert OnTick(ticked) == (ticked.(slice := 0), true);
  }

  /** A trap that finds its task blocked, with no timeout queued and no request pending, only picks. */
  lemma TrapPicks(k: Kernel)
    requires k.timeouts == [] && k.current.Some? && !CurrentIs(k, Running) && !k.pending
    ensures Trap(k, false, k.now) == PickNext(k)
  {
    hide PopHighest;
    assert k.(now := k.now) == k;
    PopHighestFlags(k);
  }

  lemma PopHighestFlags(k: Kernel)
    ensures PopHighest(k).0.pending == k.pending
  {
    hide Highest, ClearBit;
  }

  lemma {:induction false} PositionLast(k: Kernel, s: seq<TaskId>, p: nat)
    requires forall t | t in s :: TaskOf(k, t).priority >= p
    ensures WaiterPosition(k, s, p) == |s|
  {
    if s != [] {
      assert s[0] in s && forall t | t in s[1..] :: t in s;
      PositionLast(k, s[1..], p);
    }
  }

  /** A task of no higher priority than any waiter joins the end of the queue. */
  lemma BlockShape(k: Kernel, q: QueueId)
    requires MayBlock(k) && !IsLocked(k) && TaskOf(k, k.current.value).node == Unlinked
    requires k.current.value !in At(k, WaitList(q))
    requires forall t | t in At(k, WaitList(q)) :: TaskOf(k, t).priority >= TaskOf(k, k.current.value).priority
    ensures var c := k.current.value;
            BlockLocked(k, q) == (k.(
              tasks := k.tasks[c := BlockedTask(TaskOf(k, c), q)],
              lists := k.lists[WaitList(q) := At(k, WaitList(q)) + [c]],
              pc := k.pc[c := Waiting(q, false, k.arrivals)],
              arrivals := k.arrivals + 1), Ok)
  {
    hide InsertAt, BlockCurrent;
    var c := k.current.value;
    var s := At(k, WaitList(q));
    var reset := SetTask(k, c, TaskOf(k, c).(result := NoResult));
    BlockCurrentShape(reset, q);
    PositionLast(reset, s, TaskOf(k, c).priority);
    AppendIsInsert(s, c);
    assert BlockCurrent(reset, q).tasks == k.tasks[c := BlockedTask(TaskOf(k, c), q)];
  }

  /** An interrupt wakes the only waiter of a queue, which waits without a timeout. */
  lemma WakeShape(k: Kernel, q: QueueId, t: TaskId, p: nat)
    requires At(k, WaitList(q)) == [t] && t in k.tasks && TaskOf(k, t) == Waits(p, q) && k.timeouts == []
    requires p <= PRIORITY_MAX
    ensures WakeFromIsr(k, q).0 == k.(
              tasks := k.tasks[t := Listed(p).(result := Object)],
              lists := k.lists[WaitList(q) := []][ReadyList(p) := At(k, ReadyList(p)) + [t]],
              mask := SetBit(k.mask, p),
              pending := true)
  {
    hide SetBit;
    assert [t][1..] == [];
    var s := At(k, ReadyList(p));
    assert InsertAt(s, |s|, t) == s + [t];
    assert WakeFromIsr(k, q).0.tasks == k.tasks[t := Listed(p).(result := Object)];
  }

  /** A path through given kernels is a legal run. */
  lemma {:induction false} RunPath(ks: seq<Kernel>, ops: seq<Op>)
    requires |ks| == |ops| + 1
    requires forall i | 0 <= i < |ops| :: Enabled(ks[i], ops[i]) && Apply(ks[i], ops[i]) == ks[i + 1]
    ensures Legal(ks[0], ops) && Run(ks[0], ops) == ks[|ops|]
    decreases |ops|
  {
    hide Enabled, Apply;
    if ops != [] {
      assert forall i | 0 <= i < |ops| - 1 :: ks[1..][i] == ks[i + 1] && ops[1..][i] == ops[i + 1];
      RunPath(ks[1..], ops[1..]);
    }
  }
}
