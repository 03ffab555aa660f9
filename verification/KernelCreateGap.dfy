/** Creating a task once the scheduler runs. `task_create_kernel` is then in no critical section, so traps can come
    after its task is on the ready list and before the mask with its bit, loaded in between, is stored; so in
    `task_yield`. Whatever they do, the kernel stays consistent up to that one bit; whether the store leaves it so is a
    matter of what they changed. */
module KernelCreateGap {
  import opened Common
  import opened TickTime
  import opened Bitmap
  import opened KernelState
  import opened KernelInvariant
  import opened KernelSteps
  import opened KernelBlocking
  import opened KernelWaking
  import opened KernelRuns
  import opened KernelMended

  /** `task_create_kernel` up to its last statement but one: the task is on its ready list, the mask not yet stored. */
  function HalfCreate(k: Kernel, t: TaskId, p: nat): Kernel {
    Create(k, t, p).(mask := k.mask)
  }

  /** The store that ends `mask |= 1 << p`, of the mask as it was loaded. */
  function StoreMask(k: Kernel, loaded: nat, p: nat): Kernel {
    k.(mask := SetBit(loaded, p))
  }

  /** The next pop enters the corrupt-queue loop: the highest bit is that of an empty list. */
  predicate Spins(k: Kernel) {
    k.mask != 0 && 0 <= Highest(k.mask) && At(k, ReadyList(Highest(k.mask))) == []
  }

  /** `task_yield` with its task back on the ready list and the mask not yet stored. */
  function UnstoredYield(k: Kernel): Kernel {
    Yield(k).(mask := k.mask)
  }

  /** With nothing in between, the store completes the step the rest of the model takes. */
  lemma CreateUninterrupted(k: Kernel, t: TaskId, p: nat)
    requires t !in k.tasks && p <= PRIORITY_MAX
    ensures var half := HalfCreate(k, t, p);
            StoreMask(half, half.mask, p) == Create(k, t, p) && At(half, ReadyList(p)) != []
  {
    hide SetBit;
    FreshNode(k, t);
  }

  lemma YieldUninterrupted(k: Kernel)
    requires Core(k) && MayBlock(k) && !IsLocked(k)
    ensures var p := TaskOf(k, k.current.value).priority;
            var half := UnstoredYield(k);
            StoreMask(half, half.mask, p) == Yield(k) && At(half, ReadyList(p)) != []
  {
    hide Core, SetBit;
    RunningTaskOk(k);
  }

  lemma FreshNode(k: Kernel, t: TaskId)
    requires t !in k.tasks
    ensures TaskOf(k, t).node == Unlinked
  {
  }

  // ----- the state in the gap

  /** The bit of `p` is set, or at least the idle task is not on that list. */
  predicate IdleSeen(g: Kernel, p: nat) {
    Has(g.mask, p) || TaskOf(g, g.idle).node != Linked(ReadyList(p))
  }

  ghost predicate CoreGap(g: Kernel, p: nat) {
    Core(Mended(g, p)) && IdleSeen(g, p)
  }

  /** All is well but for bit `p`, which may be clear though its list holds a task. */
  ghost predicate InGap(g: Kernel, p: nat) {
    Inv(Mended(g, p)) && IdleSeen(g, p)
  }

  lemma CoreIsGap(k: Kernel, p: nat)
    requires Core(k) && p <= PRIORITY_MAX
    ensures Mended(k, p) == k && IdleSeen(k, p)
  {
    hide TasksOk, TimeoutsOk, QueuesOk, GlobalOk;
    NotOnList(k, k.idle, ReadyList(p));
    if At(k, ReadyList(p)) != [] {
      SetBitSame(k.mask, p);
    }
  }

  /** A bit that is set, or whose list is empty, leaves nothing to mend. */
  lemma GapIsCore(g: Kernel, p: nat)
    requires Has(g.mask, p) || At(g, ReadyList(p)) == []
    ensures Mended(g, p) == g
  {
    if Has(g.mask, p) {
      SetBitSame(g.mask, p);
    }
  }

  lemma HalfCreateInGap(k: Kernel, t: TaskId, p: nat)
    requires Inv(k) && t !in k.tasks && p <= PRIORITY_MAX
    ensures InGap(HalfCreate(k, t, p), p)
  {
    hide MaskOk, ListsOk, TasksOk, TimeoutsOk, QueuesOk, AllInFuture, Inv, SetBit, InsertAt;
    CreateUninterrupted(k, t, p);
    CreateKeeps(k, t, p);
    InvTime(k);
    CoreIsGap(k, p);
    assert k.idle != t;
  }

  lemma UnstoredYieldInGap(k: Kernel)
    requires Inv(k) && MayBlock(k) && !IsLocked(k) && TaskOf(k, k.current.value).priority <= PRIORITY_MAX
    ensures InGap(UnstoredYield(k), TaskOf(k, k.current.value).priority)
  {
    hide Inv, StepDown, SetBit;
    InvTime(k);
    YieldUninterrupted(k);
    YieldKeeps(k);
    CoreIsGap(k, TaskOf(k, k.current.value).priority);
    StepDownKeepsIdle(k);
  }

  // ----- picks in the gap

  lemma StepDownGap(g: Kernel, p: nat)
    requires CoreGap(g, p) && p <= PRIORITY_MAX && CurrentIs(g, Running) && !IsLocked(g)
    ensures CoreGap(StepDown(g), p) && NoneRunning(StepDown(g))
  {
    hide Core, SetBit;
    StepDownMended(g, p);
    StepDownKeeps(Mended(g, p));
    if Has(g.mask, p) {
      GapIsCore(g, p);
      CoreIsGap(StepDown(g), p);
    } else {
      StepDownKeepsIdle(g);
    }
    assert NoneRunning(Mended(StepDown(g), p));
  }

  lemma StepDownKeepsIdle(g: Kernel)
    requires g.current.Some?
    ensures StepDown(g).idle == g.idle && TaskOf(StepDown(g), g.idle).node == TaskOf(g, g.idle).node
  {
    hide ReadyEnqueue;
    var c := g.current.value;
    ReadyEnqueueMoves(SetTask(g, c, TaskOf(g, c).(state := Ready)), c);
  }

  /** With bit `p` clear a pop passes over that list, and still takes a ready task off its own. */
  lemma PopBelow(g: Kernel, p: nat)
    requires CoreGap(g, p) && p <= PRIORITY_MAX && !Has(g.mask, p) && g.mask != 0
    ensures PopHighest(g).1.Some?
    ensures var t := PopHighest(g).1.value;
            && t in g.tasks && TaskOf(g, t).state == Ready
            && TaskOf(g, t).node == Linked(ReadyList(TaskOf(g, t).priority)) && TaskOf(g, t).priority <= PRIORITY_MAX
            && PopHighest(g).0 == ReadyRemove(g, t)
  {
    hide TimeoutsOk, QueuesOk, GlobalOk, SetBit;
    var k := Mended(g, p);
    SetBitGrows(g.mask, p);
    HighestSpec(g.mask);
    var h := Highest(g.mask);
    SetBitHas(g.mask, p, h);
    assert Has(k.mask, h) && At(k, ReadyList(h)) != [];
    var t := At(k, ReadyList(h))[0];
    NotOnList(k, t, ReadyList(h));
    assert TaskOk(k, t);
    UnlinkFirstIsUnlink(k, ReadyList(h));
    SameUnlink(g, k, ReadyList(h));
  }

  lemma SameUnlink(g: Kernel, k: Kernel, id: ListId)
    requires k == g.(mask := k.mask) && At(k, id) != []
    requires UnlinkFirst(k, id) == Unlink(k, At(k, id)[0])
    ensures UnlinkFirst(g, id) == Unlink(g, At(g, id)[0])
  {
    assert UnlinkFirst(g, id) == UnlinkFirst(k, id).(mask := g.mask);
  }

  lemma SwitchGap(g: Kernel, p: nat)
    requires CoreGap(g, p) && p <= PRIORITY_MAX && !IsLocked(g) && NoneRunning(g)
    ensures CoreGap(SwitchToHighest(g), p) && CurrentIs(SwitchToHighest(g), Running)
  {
    hide Core, SetBit, SwitchToHighest, NoneRunning;
    if Has(g.mask, p) || At(g, ReadyList(p)) == [] {
      GapIsCore(g, p);
      SwitchToHighestKeeps(g);
      CoreIsGap(SwitchToHighest(g), p);
    } else if g.mask == 0 {
      SwitchToIdleGap(g, p);
    } else {
      SwitchBelowGap(g, p);
    }
  }

  lemma SwitchToIdleGap(g: Kernel, p: nat)
    requires CoreGap(g, p) && p <= PRIORITY_MAX && !IsLocked(g) && NoneRunning(g) && g.mask == 0
    ensures CoreGap(SwitchToHighest(g), p) && CurrentIs(SwitchToHighest(g), Running)
  {
    hide TimeoutsOk, QueuesOk, SetBit, CoreBut;
    var k := Mended(g, p);
    assert TaskOk(k, k.idle);
    var r := TaskOf(k, k.idle).priority;
    NotOnList(k, k.idle, ReadyList(r));
    ZeroHas(r);
    ZeroHas(p);
    SetBitHas(0, p, r);
    assert TaskOf(k, k.idle).node == Unlinked;
    CoreToBut(k, k.idle);
    MakeCurrentKeeps(k, k.idle);
    assert Mended(MakeCurrent(g, g.idle), p) == MakeCurrent(k, k.idle);
  }

  lemma SwitchBelowGap(g: Kernel, p: nat)
    requires CoreGap(g, p) && p <= PRIORITY_MAX && !IsLocked(g) && NoneRunning(g)
    requires !Has(g.mask, p) && g.mask != 0
    ensures CoreGap(SwitchToHighest(g), p) && CurrentIs(SwitchToHighest(g), Running)
  {
    hide Core, SetBit, CoreBut, PopHighest, ReadyRemove, GlobalOk;
    var k := Mended(g, p);
    PopBelow(g, p);
    var t := PopHighest(g).1.value;
    RemoveMended(g, t, p);
    CoreToBut(k, t);
    ReadyRemoveKeeps(k, t);
    ReadyRemoveMoves(k, t);
    ReadyRemoveMoves(g, t);
    assert NoneRunning(ReadyRemove(k, t));
    MakeCurrentKeeps(ReadyRemove(k, t), t);
    CurrentMended(ReadyRemove(g, t), t, p);
  }

  lemma CurrentMended(g: Kernel, t: TaskId, p: nat)
    ensures Mended(MakeCurrent(g, t), p) == MakeCurrent(Mended(g, p), t)
  {
    hide SetBit;
  }

  lemma PickNextGap(g: Kernel, p: nat)
    requires CoreGap(g, p) && p <= PRIORITY_MAX && !IsLocked(g)
    ensures CoreGap(PickNext(g), p) && CurrentIs(PickNext(g), Running)
  {
    hide CoreGap, SwitchToHighest, StepDown;
    if CurrentIs(g, Running) {
      StepDownGap(g, p);
      StepDownFlags(g);
      SwitchGap(StepDown(g), p);
    } else {
      NoneRunsGap(g, p);
      SwitchGap(g, p);
    }
  }

  lemma StepDownFlags(g: Kernel)
    requires g.current.Some?
    ensures StepDown(g).lockCount == g.lockCount
  {
    hide SetBit;
  }

  lemma NoneRunsGap(g: Kernel, p: nat)
    requires CoreGap(g, p) && !CurrentIs(g, Running)
    ensures NoneRunning(g)
  {
    hide Core, SetBit;
    OnlyCurrentRuns(Mended(g, p));
    assert forall u | u in g.tasks :: TaskOf(Mended(g, p), u).state == TaskOf(g, u).state;
  }

  lemma FlagsGap(g: Kernel, slice: nat, pending: bool, p: nat)
    requires CoreGap(g, p) && slice < TIME_SLICE_TICKS
    ensures CoreGap(g.(slice := slice, pending := pending), p)
  {
    hide Core, SetBit;
    LockMeansRunning(Mended(g, p));
    FlagsKeep(Mended(g, p), slice, g.lockCount, pending);
  }

  lemma LockGap(g: Kernel, p: nat)
    requires CoreGap(g, p)
    ensures g.slice < TIME_SLICE_TICKS
    ensures IsLocked(g) ==> CurrentIs(g, Running) && !CurrentIsIdle(g)
  {
    hide Core, SetBit;
    LockMeansRunning(Mended(g, p));
  }

  lemma OnTickSlice(g: Kernel)
    ensures OnTick(g).0 == g.(slice := OnTick(g).0.slice)
    ensures g.slice < TIME_SLICE_TICKS ==> OnTick(g).0.slice < TIME_SLICE_TICKS
  {
    hide HigherPriorityReady;
  }

  lemma TryRescheduleGap(g: Kernel, p: nat)
    requires CoreGap(g, p) && p <= PRIORITY_MAX
    ensures CoreGap(TryReschedule(g), p)
  {
    hide CoreGap, PickNext, HigherPriorityReady;
    LockGap(g, p);
    FlagsGap(g, g.slice, false, p);
    if !IsLocked(g) {
      PickNextGap(g.(pending := false), p);
    }
  }

  lemma DecideGap(g: Kernel, systick: bool, p: nat)
    requires CoreGap(g, p) && p <= PRIORITY_MAX && g.current.Some?
    ensures CoreGap(Decide(g, systick), p)
  {
    hide CoreGap, PickNext, OnTick, TryReschedule;
    LockGap(g, p);
    if !CurrentIs(g, Running) || CurrentIsIdle(g) {
      PickNextGap(g, p);
      TryRescheduleGap(PickNext(g), p);
    } else if systick {
      OnTickSlice(g);
      var ticked := OnTick(g).0;
      FlagsGap(g, ticked.slice, g.pending, p);
      FlagsGap(g, ticked.slice, true, p);
      if !IsLocked(ticked) {
        PickNextGap(ticked, p);
      }
    } else {
      TryRescheduleGap(g, p);
    }
  }

  lemma DecideInGap(g: Kernel, systick: bool, p: nat)
    requires InGap(g, p) && p <= PRIORITY_MAX && g.current.Some?
    ensures InGap(Decide(g, systick), p)
  {
    hide Core, Decide, SetBit, IdleSeen;
    DecideGap(g, systick, p);
    DecideKeepsTime(g, systick);
    FewerKeepFuture(Mended(g, p), Mended(Decide(g, systick), p));
  }

  // ----- runs in the gap

  lemma InvIsGap(k: Kernel, p: nat)
    requires Inv(k) && p <= PRIORITY_MAX
    ensures InGap(k, p)
  {
    hide Inv;
    InvTime(k);
    CoreIsGap(k, p);
  }

  lemma BlindStepInGap(g: Kernel, op: Op, p: nat)
    requires InGap(g, p) && p <= PRIORITY_MAX && Enabled(g, op) && !op.DoTrap? && !op.DoDecide? && !op.DoStart?
    ensures InGap(Apply(g, op), p)
  {
    hide Inv, Apply, Enabled, SetBit;
    SameEnabled(g, op, p);
    StepKeeps(Mended(g, p), op);
    if Has(g.mask, p) {
      GapIsCore(g, p);
      InvIsGap(Apply(g, op), p);
    } else {
      ApplyMended(g, op, p);
      IdleStays(Mended(g, p), op);
    }
  }

  lemma SameEnabled(g: Kernel, op: Op, p: nat)
    ensures Enabled(Mended(g, p), op) <==> Enabled(g, op)
  {
    hide SetBit;
  }

  lemma StartInGap(g: Kernel, p: nat)
    requires InGap(g, p) && p <= PRIORITY_MAX && g.current.None?
    ensures InGap(PickNext(g), p)
  {
    hide Core, PickNext, SetBit, IdleSeen;
    LockGap(g, p);
    PickNextGap(g, p);
    PickNextKeepsTime(g);
    FewerKeepFuture(Mended(g, p), Mended(PickNext(g), p));
  }

  /** Every step of the kernel, picks included, keeps all but the one bit right. */
  lemma StepInGap(g: Kernel, op: Op, p: nat)
    requires InGap(g, p) && p <= PRIORITY_MAX && Enabled(g, op)
    ensures InGap(Apply(g, op), p)
  {
    hide InGap, TrapExpire, Decide, PickNext;
    match op
    case DoStart => StartInGap(g, p);
    case DoTrap(systick, now) =>
      BlindStepInGap(g, DoExpire(systick, now), p);
      ExpireKeepsCurrent(g, systick, now, p);
      DecideInGap(TrapExpire(g, systick, now), systick, p);
    case DoDecide(systick) => DecideInGap(g, systick, p);
    case _ => BlindStepInGap(g, op, p);
  }

  lemma ExpireKeepsCurrent(g: Kernel, systick: bool, now: nat, p: nat)
    requires InGap(g, p) && g.now <= now < g.now + HALF
    ensures TrapExpire(g, systick, now).current == g.current
  {
    hide Inv, TrapExpire, SetBit;
    TrapExpireMended(g, systick, now, p);
    TrapExpireKeeps(Mended(g, p), systick, now);
  }

  lemma {:induction false} RunInGap(g: Kernel, ops: seq<Op>, p: nat)
    requires InGap(g, p) && p <= PRIORITY_MAX && Legal(g, ops)
    ensures InGap(Run(g, ops), p)
    decreases |ops|
  {
    hide InGap, Enabled, Apply;
    if ops != [] {
      StepInGap(g, ops[0], p);
      RunInGap(Apply(g, ops[0]), ops[1..], p);
    }
  }

  /** No pick inside the gap enters the corrupt-queue loop: the highest set bit is that of a list with a task on it. */
  lemma GapNeverSpins(g: Kernel, p: nat)
    requires InGap(g, p) && p <= PRIORITY_MAX
    ensures !Spins(g)
  {
    hide TasksOk, TimeoutsOk, QueuesOk, GlobalOk, ListsOk, AllInFuture, SetBit;
    if g.mask != 0 {
      SetBitGrows(g.mask, p);
      HighestSpec(g.mask);
      SetBitHas(g.mask, p, Highest(g.mask));
      assert Has(Mended(g, p).mask, Highest(g.mask));
    }
  }

  // ----- the store

  /** Only the mask invariant looks at the mask. */
  lemma MaskAlone(k: Kernel, mask: nat)
    requires Inv(k)
    ensures Inv(k.(mask := mask)) <==> MaskOk(k.(mask := mask))
  {
    hide ListsOk, MaskOk, TimeoutsOk, QueuesOk;
    var k' := k.(mask := mask);
    SameListsOk(k, k');
    SameQueuesOk(k, k');
    TimeoutsInTasks(k);
    SameTimeoutsOk(k, k');
    assert forall t :: PcOf(k', t) == PcOf(k, t) && ArrivalOf(k', t) == ArrivalOf(k, t);
    forall t | t in k'.tasks ensures TaskOk(k', t) {
      assert TaskOk(k, t);
    }
  }

  /** All bits but that of `p` are the same. */
  ghost predicate SameBitsBut(m: nat, n: nat, p: nat) {
    forall q: nat | q <= PRIORITY_MAX && q != p :: Has(m, q) <==> Has(n, q)
  }

  lemma StoreKeepsInvIff(g: Kernel, loaded: nat, p: nat)
    requires InGap(g, p) && p <= PRIORITY_MAX && loaded < Pow2(32)
    ensures Inv(StoreMask(g, loaded, p)) <==> At(g, ReadyList(p)) != [] && SameBitsBut(loaded, g.mask, p)
  {
    hide TasksOk, TimeoutsOk, QueuesOk, GlobalOk, ListsOk, AllInFuture, SetBit;
    var k, s := Mended(g, p), StoreMask(g, loaded, p);
    MaskAlone(k, s.mask);
    assert k.(mask := s.mask) == s;
    StaysInWord(loaded, p, 32);
    forall q: nat
      ensures Has(s.mask, q) <==> q == p || Has(loaded, q)
      ensures q != p ==> (Has(k.mask, q) <==> Has(g.mask, q))
    {
      SetBitHas(loaded, p, q);
      SetBitHas(g.mask, p, q);
    }
    if MaskOk(s) {
      assert Has(s.mask, p);
      forall q: nat | q <= PRIORITY_MAX && q != p ensures Has(loaded, q) <==> Has(g.mask, q) {
        assert Has(k.mask, q) <==> At(g, ReadyList(q)) != [];
      }
    }
    if At(g, ReadyList(p)) != [] && SameBitsBut(loaded, g.mask, p) {
      forall q: nat | q <= PRIORITY_MAX ensures Has(s.mask, q) <==> At(s, ReadyList(q)) != [] {
        assert At(s, ReadyList(q)) == At(k, ReadyList(q));
      }
    }
  }

  lemma GapMask(g: Kernel, p: nat)
    requires InGap(g, p)
    ensures g.mask < Pow2(32)
  {
    hide TasksOk, TimeoutsOk, QueuesOk, GlobalOk, ListsOk, AllInFuture, SetBit;
    SetBitGrows(g.mask, p);
  }

  /** From a state in the gap the kernel runs on (`before`); the mask is loaded; the kernel runs on again (`between`);
      the mask is stored with the bit of `p`. */
  function Stored(g: Kernel, p: nat, before: seq<Op>, between: seq<Op>): Kernel {
    var loaded := Run(g, before);
    StoreMask(Run(loaded, between), loaded.mask, p)
  }

  /** What the store leaves, over all runs. The kernel is right again exactly if the list of `p` is still not empty and
      no other bit has changed since the load. Until the store every pick finds a task where the mask says; the next one
      does not, and spins, exactly if the highest bit stored is a stale one. */
  ghost predicate StoreRace(start: Kernel, p: nat, before: seq<Op>, between: seq<Op>) {
    var loaded := Run(start, before);
    var g := Run(loaded, between);
    var s := Stored(start, p, before, between);
    && (Inv(s) <==> At(g, ReadyList(p)) != [] && SameBitsBut(loaded.mask, g.mask, p))
    && !Spins(loaded) && !Spins(g) && 0 <= Highest(s.mask)
    && (Spins(s) <==> if Highest(s.mask) == p then At(g, ReadyList(p)) == [] else !Has(g.mask, Highest(s.mask)))
  }

  lemma GapRace(start: Kernel, p: nat, before: seq<Op>, between: seq<Op>)
    requires InGap(start, p) && p <= PRIORITY_MAX && Legal(start, before) && Legal(Run(start, before), between)
    ensures StoreRace(start, p, before, between)
  {
    hide InGap, Inv, StoreMask;
    RunInGap(start, before, p);
    var loaded := Run(start, before);
    RunInGap(loaded, between, p);
    var g := Run(loaded, between);
    GapMask(loaded, p);
    StoreKeepsInvIff(g, loaded.mask, p);
    GapNeverSpins(loaded, p);
    GapNeverSpins(g, p);
    StoreSpinsIff(g, loaded.mask, p);
  }

  /** Creation by a running kernel, with any traps and any other tasks' steps before its mask is stored. */
  lemma CreationKeepsInvIff(k: Kernel, t: TaskId, p: nat, before: seq<Op>, between: seq<Op>)
    requires Inv(k) && t !in k.tasks && p <= PRIORITY_MAX && Legal(HalfCreate(k, t, p), before)
    requires Legal(Run(HalfCreate(k, t, p), before), between)
    ensures StoreRace(HalfCreate(k, t, p), p, before, between)
    ensures before == between == [] ==> Stored(HalfCreate(k, t, p), p, before, between) == Create(k, t, p)
  {
    hide InGap, Inv, StoreRace, HalfCreate;
    HalfCreateInGap(k, t, p);
    GapRace(HalfCreate(k, t, p), p, before, between);
    CreateUninterrupted(k, t, p);
  }

  /** The same of the enqueue in `task_yield`. */
  lemma YieldKeepsInvIff(k: Kernel, before: seq<Op>, between: seq<Op>)
    requires Inv(k) && MayBlock(k) && !IsLocked(k) && Legal(UnstoredYield(k), before)
    requires Legal(Run(UnstoredYield(k), before), between)
    ensures var p := TaskOf(k, k.current.value).priority;
            && StoreRace(UnstoredYield(k), p, before, between)
            && (before == between == [] ==> Stored(UnstoredYield(k), p, before, between) == Yield(k))
  {
    hide InGap, Inv, StoreRace, UnstoredYield;
    var p := TaskOf(k, k.current.value).priority;
    InvTime(k);
    RunningTaskOk(k);
    UnstoredYieldInGap(k);
    GapRace(UnstoredYield(k), p, before, between);
    YieldUninterrupted(k);
  }

  lemma StoreSpinsIff(g: Kernel, loaded: nat, p: nat)
    requires InGap(g, p) && p <= PRIORITY_MAX && loaded < Pow2(32)
    ensures var s := StoreMask(g, loaded, p);
            && 0 <= Highest(s.mask)
            && (Spins(s) <==> if Highest(s.mask) == p then At(g, ReadyList(p)) == [] else !Has(g.mask, Highest(s.mask)))
  {
    hide TasksOk, TimeoutsOk, QueuesOk, GlobalOk, ListsOk, AllInFuture, SetBit;
    var k, s := Mended(g, p), StoreMask(g, loaded, p);
    StaysInWord(loaded, p, 32);
    SetBitHas(loaded, p, p);
    ZeroHas(p);
    HighestSpec(s.mask);
    var h := Highest(s.mask);
    SetBitHas(g.mask, p, h);
    assert Has(k.mask, h) <==> At(k, ReadyList(h)) != [];
  }
}
