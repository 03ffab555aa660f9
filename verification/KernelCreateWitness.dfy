/** Two runs from boot in which traps come inside `task_create_kernel`: one ends in the corrupt-queue loop, the other
    leaves a ready task that no pick sees. */
module KernelCreateWitness {
  import opened Common
  import opened TickTime
  import opened Bitmap
  import opened KernelState
  import opened KernelInvariant
  import opened KernelRuns
  import opened KernelStages
  import opened KernelCreateGap

  // ----- task 1 of priority 1 creates tasks 2 and 3 of priority 2

  function Created(): Kernel {
    Stage(map[0 := Listed(0), 1 := Listed(1)], map[ReadyList(0) := [0], ReadyList(1) := [1]], 3, None, map[], 0)
  }

  function Started(): Kernel {
    Stage(map[0 := Listed(0), 1 := Runs(1)], map[ReadyList(0) := [0], ReadyList(1) := []], 1, Some(1), map[], 0)
  }

  function SecondCreated(): Kernel {
    Stage(map[0 := Listed(0), 1 := Runs(1), 2 := Listed(2)],
          map[ReadyList(0) := [0], ReadyList(1) := [], ReadyList(2) := [2]], 5, Some(1), map[], 0)
  }

  /** Task 3 is on its list; the mask, 5 either way, is loaded. */
  function ThirdListed(): Kernel {
    Stage(map[0 := Listed(0), 1 := Runs(1), 2 := Listed(2), 3 := Listed(2)],
          map[ReadyList(0) := [0], ReadyList(1) := [], ReadyList(2) := [2, 3]], 5, Some(1), map[], 0)
  }

  /** From here on the tick is 1. */
  function SecondRuns(): Kernel {
    Stage(map[0 := Listed(0), 1 := Listed(1), 2 := Runs(2), 3 := Listed(2)],
          map[ReadyList(0) := [0], ReadyList(1) := [1], ReadyList(2) := [3]], 7, Some(2), map[], 0).(now := 1)
  }

  function SecondWaits(): Kernel {
    Stage(map[0 := Listed(0), 1 := Listed(1), 2 := Waits(2, 0), 3 := Listed(2)],
          map[ReadyList(0) := [0], ReadyList(1) := [1], ReadyList(2) := [3], WaitList(0) := [2]], 7, Some(2),
          map[2 := Waiting(0, false, 0)], 1).(now := 1)
  }

  function ThirdRuns(): Kernel {
    Stage(map[0 := Listed(0), 1 := Listed(1), 2 := Waits(2, 0), 3 := Runs(2)],
          map[ReadyList(0) := [0], ReadyList(1) := [1], ReadyList(2) := [], WaitList(0) := [2]], 3, Some(3),
          map[2 := Waiting(0, false, 0)], 1).(now := 1)
  }

  function ThirdWaits(): Kernel {
    Stage(map[0 := Listed(0), 1 := Listed(1), 2 := Waits(2, 0), 3 := Waits(2, 0)],
          map[ReadyList(0) := [0], ReadyList(1) := [1], ReadyList(2) := [], WaitList(0) := [2, 3]], 3, Some(3),
          map[2 := Waiting(0, false, 0), 3 := Waiting(0, false, 1)], 2).(now := 1)
  }

  function FirstRunsAgain(): Kernel {
    Stage(map[0 := Listed(0), 1 := Runs(1), 2 := Waits(2, 0), 3 := Waits(2, 0)],
          map[ReadyList(0) := [0], ReadyList(1) := [], ReadyList(2) := [], WaitList(0) := [2, 3]], 1, Some(1),
          map[2 := Waiting(0, false, 0), 3 := Waiting(0, false, 1)], 2).(now := 1)
  }

  lemma Bits()
    ensures Pow2(0) == 1 && Pow2(1) == 2 && Pow2(2) == 4 && Pow2(3) == 8
    ensures Has(1, 0) && Has(3, 1) && Has(5, 2) && Has(7, 2)
    ensures SetBit(1, 1) == 3 && SetBit(1, 2) == 5 && SetBit(5, 2) == 5 && SetBit(5, 1) == 7
    ensures ClearBit(3, 1) == 1 && ClearBit(7, 2) == 3
  {
  }

  lemma FirstCreates()
    ensures Enabled(BootStage(), DoCreate(1, 1)) && Apply(BootStage(), DoCreate(1, 1)) == Created()
  {
    hide Create;
    Bits();
    CreateShape(BootStage(), 1, 1);
    assert [] + [1] == [1];
    assert Create(BootStage(), 1, 1).tasks == Created().tasks;
    assert Create(BootStage(), 1, 1).lists == Created().lists;
  }

  lemma Starts()
    ensures Enabled(Created(), DoStart) && Apply(Created(), DoStart) == Started()
  {
    hide PickNext;
    Bits();
    assert [1] + [] == [1];
    PickShape(Created(), 1, 1, []);
    assert PickNext(Created()).tasks == Started().tasks;
    assert PickNext(Created()).lists == Started().lists;
  }

  lemma SecondCreates()
    ensures Enabled(Started(), DoCreate(2, 2)) && Apply(Started(), DoCreate(2, 2)) == SecondCreated()
  {
    hide Create;
    Bits();
    CreateShape(Started(), 2, 2);
    assert [] + [2] == [2];
    assert Create(Started(), 2, 2).tasks == SecondCreated().tasks;
    assert Create(Started(), 2, 2).lists == SecondCreated().lists;
  }

  lemma ThirdHalfCreates()
    ensures Enabled(SecondCreated(), DoCreate(3, 2)) && HalfCreate(SecondCreated(), 3, 2) == ThirdListed()
  {
    hide Create;
    Bits();
    CreateShape(SecondCreated(), 3, 2);
    assert [2] + [3] == [2, 3];
    assert Create(SecondCreated(), 3, 2).tasks == ThirdListed().tasks;
    assert Create(SecondCreated(), 3, 2).lists == ThirdListed().lists;
  }

  lemma TwoIsAboveOne()
    ensures And(5, Above(1)) != 0
  {
    Pow2Monotone(3, 32);
    assert Has(5, 2) by {
      Bits();
    }
    AnyAbove(5, 1);
  }

  /** A tick finds a ready task of priority 2 and preempts the creator. */
  lemma CreatorIsPreempted()
    ensures Enabled(ThirdListed(), DoTrap(true, 1)) && Apply(ThirdListed(), DoTrap(true, 1)) == SecondRuns()
  {
    hide Trap, StepDown, PickNext, Above, And, SwitchToHighest;
    Bits();
    TwoIsAboveOne();
    TickPreempts(ThirdListed(), 1);
    CreatorStepsDown();
    SecondIsPicked();
  }

  function SteppedDown(): Kernel {
    Stage(map[0 := Listed(0), 1 := Listed(1), 2 := Listed(2), 3 := Listed(2)],
          map[ReadyList(0) := [0], ReadyList(1) := [1], ReadyList(2) := [2, 3]], 7, Some(1), map[], 0).(now := 1)
  }

  lemma CreatorStepsDown()
    ensures StepDown(ThirdListed().(now := 1, slice := 0)) == SteppedDown()
  {
    hide StepDown;
    Bits();
    var ticked := ThirdListed().(now := 1, slice := 0);
    StepDownShape(ticked, 1);
    assert [] + [1] == [1];
    assert StepDown(ticked).tasks == SteppedDown().tasks;
    assert StepDown(ticked).lists == SteppedDown().lists;
  }

  lemma PickIsSwitch(k: Kernel)
    requires !CurrentIs(k, Running)
    ensures PickNext(k) == SwitchToHighest(k)
  {
    hide SwitchToHighest;
  }

  lemma SecondIsPicked()
    ensures SwitchToHighest(SteppedDown()) == SecondRuns()
  {
    hide PickNext, SwitchToHighest;
    Bits();
    PickIsSwitch(SteppedDown());
    assert [2] + [3] == [2, 3];
    PickShape(SteppedDown(), 2, 2, [3]);
    assert PickNext(SteppedDown()).tasks == SecondRuns().tasks;
    assert PickNext(SteppedDown()).lists == SecondRuns().lists;
  }

  lemma SecondBlocks()
    ensures Enabled(SecondRuns(), DoBlock(0, FOREVER_US))
    ensures Apply(SecondRuns(), DoBlock(0, FOREVER_US)) == SecondWaits()
  {
    hide BlockLocked;
    BlockShape(SecondRuns(), 0);
    assert [] + [2] == [2];
    assert BlockLocked(SecondRuns(), 0).0.tasks == SecondWaits().tasks;
    assert BlockLocked(SecondRuns(), 0).0.lists == SecondWaits().lists;
  }

  lemma ThirdIsPicked()
    ensures Enabled(SecondWaits(), DoTrap(false, 1)) && Apply(SecondWaits(), DoTrap(false, 1)) == ThirdRuns()
  {
    hide Trap, PickNext;
    Bits();
    TrapPicks(SecondWaits());
    assert [3] + [] == [3];
    PickShape(SecondWaits(), 2, 3, []);
    assert PickNext(SecondWaits()).tasks == ThirdRuns().tasks;
    assert PickNext(SecondWaits()).lists == ThirdRuns().lists;
  }

  lemma ThirdBlocks()
    ensures Enabled(ThirdRuns(), DoBlock(0, FOREVER_US))
    ensures Apply(ThirdRuns(), DoBlock(0, FOREVER_US)) == ThirdWaits()
  {
    hide BlockLocked;
    BlockShape(ThirdRuns(), 0);
    assert [2] + [3] == [2, 3];
    assert BlockLocked(ThirdRuns(), 0).0.tasks == ThirdWaits().tasks;
    assert BlockLocked(ThirdRuns(), 0).0.lists == ThirdWaits().lists;
  }

  lemma CreatorIsPicked()
    ensures Enabled(ThirdWaits(), DoTrap(false, 1)) && Apply(ThirdWaits(), DoTrap(false, 1)) == FirstRunsAgain()
  {
    hide Trap, PickNext;
    Bits();
    TrapPicks(ThirdWaits());
    assert [1] + [] == [1];
    PickShape(ThirdWaits(), 1, 1, []);
    assert PickNext(ThirdWaits()).tasks == FirstRunsAgain().tasks;
    assert PickNext(ThirdWaits()).lists == FirstRunsAgain().lists;
  }

  function ToSecondCreated(): seq<Op> {
    [DoCreate(1, 1), DoStart, DoCreate(2, 2)]
  }

  /** Task 2 preempts the creator and waits, then task 3 does, and the creator is back. */
  function BothRunAndWait(): seq<Op> {
    [DoTrap(true, 1), DoBlock(0, FOREVER_US), DoTrap(false, 1), DoBlock(0, FOREVER_US), DoTrap(false, 1)]
  }

  lemma SecondCreatedReached()
    ensures Legal(Boot(0), ToSecondCreated()) && Run(Boot(0), ToSecondCreated()) == SecondCreated()
  {
    BootIs();
    FirstCreates();
    Starts();
    SecondCreates();
    hide Enabled, Apply, Boot, BootStage, Created, Started, SecondCreated;
    var ks := [BootStage(), Created(), Started(), SecondCreated()];
    RunPath(ks, ToSecondCreated());
  }

  lemma CreatorBack()
    ensures Legal(ThirdListed(), BothRunAndWait()) && Run(ThirdListed(), BothRunAndWait()) == FirstRunsAgain()
  {
    CreatorIsPreempted();
    SecondBlocks();
    ThirdIsPicked();
    ThirdBlocks();
    CreatorIsPicked();
    hide Enabled, Apply, ThirdListed, SecondRuns, SecondWaits, ThirdRuns, ThirdWaits, FirstRunsAgain;
    RunPath([ThirdListed(), SecondRuns(), SecondWaits(), ThirdRuns(), ThirdWaits(), FirstRunsAgain()],
            BothRunAndWait());
  }

  lemma EndOfBoth()
    ensures Stored(ThirdListed(), 2, [], BothRunAndWait()) == FirstRunsAgain().(mask := 5)
  {
    hide FirstRunsAgain, BothRunAndWait;
    Bits();
    CreatorBack();
    assert Run(ThirdListed(), []) == ThirdListed();
  }

  /** The next tick steps the running task down and enters the corrupt-queue loop. */
  predicate NextTickSpins(k: Kernel) {
    && k.current.Some?
    && var back := StepDown(k.(now := k.now + 1, slice := 0));
       Trap(k, true, k.now + 1) == SwitchToHighest(back) && Spins(back)
  }

  /** The stored bit 2 is stale, and the next tick's pick goes by it. */
  lemma StaleBitSpins()
    ensures var end := FirstRunsAgain().(mask := 5);
            Spins(end) && !MaskOk(end) && NextTickSpins(end)
  {
    hide Trap, StepDown, SwitchToHighest, Highest, And, Above;
    var end := FirstRunsAgain().(mask := 5);
    Bits();
    HighestIs(5, 2);
    HighestIs(7, 2);
    assert At(end, ReadyList(2)) == [];
    TwoIsAboveOne();
    TickPreempts(end, 2);
    StepDownShape(end.(now := 2, slice := 0), 1);
  }

  /** A legal run from boot in which the store of a stale mask makes the next tick spin: a task creates two of higher
      priority, a tick comes inside the second creation, and both run and wait before the creator is back. */
  lemma CreationSpinsFromBoot()
    ensures var k := Run(Boot(0), ToSecondCreated());
            && Legal(Boot(0), ToSecondCreated()) && Enabled(k, DoCreate(3, 2))
            && Legal(HalfCreate(k, 3, 2), BothRunAndWait())
            && var end := Stored(HalfCreate(k, 3, 2), 2, [], BothRunAndWait());
               !Inv(end) && Spins(end) && NextTickSpins(end)
  {
    hide SecondCreated, ThirdListed, FirstRunsAgain, HalfCreate, ToSecondCreated, BothRunAndWait, Boot, Stored, Spins,
         MaskOk, Enabled, NextTickSpins;
    SecondCreatedReached();
    ThirdHalfCreates();
    CreatorBack();
    EndOfBoth();
    StaleBitSpins();
  }

  // ----- tasks 1 and 2 of priority 1; task 1 waits, and is woken while task 2 creates task 3 of priority 2

  function TwoCreated(): Kernel {
    Stage(map[0 := Listed(0), 1 := Listed(1), 2 := Listed(1)],
          map[ReadyList(0) := [0], ReadyList(1) := [1, 2]], 3, None, map[], 0)
  }

  function OneRuns(): Kernel {
    Stage(map[0 := Listed(0), 1 := Runs(1), 2 := Listed(1)],
          map[ReadyList(0) := [0], ReadyList(1) := [2]], 3, Some(1), map[], 0)
  }

  function OneWaits(): Kernel {
    Stage(map[0 := Listed(0), 1 := Waits(1, 0), 2 := Listed(1)],
          map[ReadyList(0) := [0], ReadyList(1) := [2], WaitList(0) := [1]], 3, Some(1),
          map[1 := Waiting(0, false, 0)], 1)
  }

  function TwoRuns(): Kernel {
    Stage(map[0 := Listed(0), 1 := Waits(1, 0), 2 := Runs(1)],
          map[ReadyList(0) := [0], ReadyList(1) := [], WaitList(0) := [1]], 1, Some(2),
          map[1 := Waiting(0, false, 0)], 1)
  }

  /** Task 3 is on its list; the mask, 1, is loaded. */
  function ThreeListed(): Kernel {
    Stage(map[0 := Listed(0), 1 := Waits(1, 0), 2 := Runs(1), 3 := Listed(2)],
          map[ReadyList(0) := [0], ReadyList(1) := [], WaitList(0) := [1], ReadyList(2) := [3]], 1, Some(2),
          map[1 := Waiting(0, false, 0)], 1)
  }

  function OneWoken(pending: bool): Kernel {
    Stage(map[0 := Listed(0), 1 := Listed(1).(result := Object), 2 := Runs(1), 3 := Listed(2)],
          map[ReadyList(0) := [0], ReadyList(1) := [1], WaitList(0) := [], ReadyList(2) := [3]], 3, Some(2),
          map[1 := Waiting(0, false, 0)], 1).(pending := pending)
  }

  lemma TwoCreates()
    ensures Enabled(Created(), DoCreate(2, 1)) && Apply(Created(), DoCreate(2, 1)) == TwoCreated()
  {
    hide Create;
    assert SetBit(3, 1) == 3 && [1] + [2] == [1, 2];
    CreateShape(Created(), 2, 1);
    assert Create(Created(), 2, 1).tasks == TwoCreated().tasks;
    assert Create(Created(), 2, 1).lists == TwoCreated().lists;
  }

  lemma OneStarts()
    ensures Enabled(TwoCreated(), DoStart) && Apply(TwoCreated(), DoStart) == OneRuns()
  {
    hide PickNext;
    Bits();
    assert [1] + [2] == [1, 2];
    PickShape(TwoCreated(), 1, 1, [2]);
    assert PickNext(TwoCreated()).tasks == OneRuns().tasks;
    assert PickNext(TwoCreated()).lists == OneRuns().lists;
  }

  lemma OneBlocks()
    ensures Enabled(OneRuns(), DoBlock(0, FOREVER_US)) && Apply(OneRuns(), DoBlock(0, FOREVER_US)) == OneWaits()
  {
    hide BlockLocked;
    BlockShape(OneRuns(), 0);
    assert [] + [1] == [1];
    assert BlockLocked(OneRuns(), 0).0.tasks == OneWaits().tasks;
    assert BlockLocked(OneRuns(), 0).0.lists == OneWaits().lists;
  }

  lemma TwoIsPicked()
    ensures Enabled(OneWaits(), DoTrap(false, 0)) && Apply(OneWaits(), DoTrap(false, 0)) == TwoRuns()
  {
    hide Trap, PickNext;
    Bits();
    TrapPicks(OneWaits());
    assert [2] + [] == [2];
    PickShape(OneWaits(), 1, 2, []);
    assert PickNext(OneWaits()).tasks == TwoRuns().tasks;
    assert PickNext(OneWaits()).lists == TwoRuns().lists;
  }

  lemma ThreeHalfCreates()
    ensures Enabled(TwoRuns(), DoCreate(3, 2)) && HalfCreate(TwoRuns(), 3, 2) == ThreeListed()
  {
    hide Create;
    Bits();
    CreateShape(TwoRuns(), 3, 2);
    assert [] + [3] == [3];
    assert Create(TwoRuns(), 3, 2).tasks == ThreeListed().tasks;
    assert Create(TwoRuns(), 3, 2).lists == ThreeListed().lists;
  }

  lemma OneIsWoken()
    ensures Enabled(ThreeListed(), DoWake(0, Object, true))
    ensures Apply(ThreeListed(), DoWake(0, Object, true)) == OneWoken(true)
  {
    hide WakeFromIsr, SetBit;
    Bits();
    WakeShape(ThreeListed(), 0, 1, 1);
    assert [] + [1] == [1];
    assert WakeFromIsr(ThreeListed(), 0).0.tasks == OneWoken(true).tasks;
    assert WakeFromIsr(ThreeListed(), 0).0.lists == OneWoken(true).lists;
  }

  lemma NothingAboveOne()
    ensures And(3, Above(1)) == 0
  {
    Pow2Monotone(3, 32);
    Bits();
    AnyAbove(3, 1);
    forall q: nat | 1 < q <= PRIORITY_MAX ensures !Has(3, q) {
      NoBitsBeyond(3, 2, q);
    }
  }

  lemma NoSwitch()
    ensures Enabled(OneWoken(true), DoTrap(false, 0)) && Apply(OneWoken(true), DoTrap(false, 0)) == OneWoken(false)
  {
    hide And, Above, PickNext;
    NothingAboveOne();
    var k := OneWoken(true);
    assert TrapExpire(k, false, 0) == k;
  }

  function ToTwoRuns(): seq<Op> {
    [DoCreate(1, 1), DoCreate(2, 1), DoStart, DoBlock(0, FOREVER_US), DoTrap(false, 0)]
  }

  /** An interrupt wakes task 1; its trap finds no reason to switch. */
  function InterruptWakes(): seq<Op> {
    [DoWake(0, Object, true), DoTrap(false, 0)]
  }

  lemma TwoRunsReached()
    ensures Legal(Boot(0), ToTwoRuns()) && Run(Boot(0), ToTwoRuns()) == TwoRuns()
  {
    BootIs();
    FirstCreates();
    TwoCreates();
    OneStarts();
    OneBlocks();
    TwoIsPicked();
    hide Enabled, Apply, Boot, BootStage, Created, TwoCreated, OneRuns, OneWaits, TwoRuns;
    RunPath([BootStage(), Created(), TwoCreated(), OneRuns(), OneWaits(), TwoRuns()], ToTwoRuns());
  }

  lemma EndOfWake()
    ensures Legal(ThreeListed(), InterruptWakes())
    ensures Stored(ThreeListed(), 2, [], InterruptWakes()) == OneWoken(false).(mask := 5)
  {
    Bits();
    OneIsWoken();
    NoSwitch();
    assert ThreeListed().mask == 1;
    hide Enabled, Apply, ThreeListed, OneWoken;
    RunPath([ThreeListed(), OneWoken(true), OneWoken(false)], InterruptWakes());
    assert Run(ThreeListed(), []) == ThreeListed();
  }

  /** A legal run from boot after which a ready task is on its list with the bit of that list clear: an interrupt wakes
      it between the load and the store of the mask in another task's creation. */
  lemma CreationHidesFromBoot()
    ensures var k := Run(Boot(0), ToTwoRuns());
            && Legal(Boot(0), ToTwoRuns()) && Enabled(k, DoCreate(3, 2))
            && Legal(HalfCreate(k, 3, 2), InterruptWakes())
            && var end := Stored(HalfCreate(k, 3, 2), 2, [], InterruptWakes());
               TaskOf(end, 1).state == Ready && At(end, ReadyList(1)) == [1] && !Has(end.mask, 1) && !Inv(end)
  {
    hide TwoRuns, ThreeListed, OneWoken, HalfCreate, ToTwoRuns, InterruptWakes, Boot, Stored, MaskOk, Enabled, Has;
    TwoRunsReached();
    ThreeHalfCreates();
    EndOfWake();
    BitIsClear();
  }

  lemma BitIsClear()
    ensures var end := OneWoken(false).(mask := 5);
            TaskOf(end, 1).state == Ready && At(end, ReadyList(1)) == [1] && !Has(end.mask, 1) && !MaskOk(end)
  {
    assert !Has(5, 1);
  }
}
