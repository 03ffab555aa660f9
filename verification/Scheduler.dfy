/** The kernel's code: the scheduler object with the fields of `scheduler_t` and the task records, updated in
    place statement by statement. Every method is proved to take the kernel to the state its function in
    KernelState names, so what is proved of those functions is proved of this code. */
module Scheduler {
  import opened Common
  import opened TickTime
  import Bitmap
  import opened KernelState
  import opened KernelInvariant
  import opened KernelSteps
  import opened KernelBlocking
  import opened KernelWaking
  import opened KernelRuns

  class Scheduler {
    var tasks: map<TaskId, Task>
    var lists: map<ListId, seq<TaskId>>
    var mask: nat
    var timeouts: seq<TaskId>
    var current: Option<TaskId>
    const idle: TaskId
    var slice: nat
    var lockCount: uint32
    var pending: bool
    var ticks: uint32

    ghost var now: nat
    ghost var due: map<TaskId, nat>
    ghost var pc: map<TaskId, Pc>
    ghost var arrivals: nat

    /** The kernel value this object stands for. */
    ghost function State(): Kernel
      reads this
    {
      Kernel(tasks, lists, mask, timeouts, current, idle, slice, lockCount, pending, now, due, pc, arrivals)
    }

    ghost predicate Valid()
      reads this
    {
      Inv(State()) && ticks == Low(now)
    }

    function Record(t: TaskId): (task: Task)
      reads this`tasks
      ensures t in tasks ==> task == tasks[t]
      ensures t !in tasks ==> task == NO_TASK
    {
      if t in tasks then tasks[t] else NO_TASK
    }

    function ListAt(id: ListId): (s: seq<TaskId>)
      reads this`lists
      ensures id in lists ==> s == lists[id]
      ensures id !in lists ==> s == []
    {
      if id in lists then lists[id] else []
    }

    /** `kernel_init`: the idle task alone. */
    constructor (idle: TaskId)
      ensures Valid() && State() == Boot(idle)
    {
      this.idle := idle;
      tasks, lists, mask, timeouts := map[], map[], 0, [];
      current, slice, lockCount, pending, ticks := None, 0, 0, false, 0;
      now, due, pc, arrivals := 0, map[], map[], 0;
      new;
      TaskCreate(idle, 0);
      BootInv(idle);
    }

    // ----- list.h on state_list nodes

    method AddBefore(t: TaskId, id: ListId, i: nat)
      requires i <= |ListAt(id)|
      modifies `tasks, `lists
      ensures State() == Link(old(State()), t, id, i)
    {
      var s := ListAt(id);
      tasks := tasks[t := Record(t).(node := Linked(id))];
      lists := lists[id := s[..i] + [t] + s[i..]];
    }

    method AddTail(t: TaskId, id: ListId)
      modifies `tasks, `lists
      ensures State() == Link(old(State()), t, id, |At(old(State()), id)|)
    {
      AddBefore(t, id, |ListAt(id)|);
    }

    method DelInit(t: TaskId)
      modifies `tasks, `lists
      ensures State() == Unlink(old(State()), t)
    {
      match Record(t).node
      case Unlinked =>
      case Linked(id) =>
        tasks, lists := tasks[t := Record(t).(node := Unlinked)], lists[id := Without(ListAt(id), t)];
    }

    method DelFirst(id: ListId) returns (t: TaskId)
      requires ListAt(id) != []
      modifies `tasks, `lists
      ensures t == At(old(State()), id)[0] && State() == UnlinkFirst(old(State()), id)
    {
      t := ListAt(id)[0];
      tasks, lists := tasks[t := Record(t).(node := Unlinked)], lists[id := ListAt(id)[1..]];
    }

    // ----- sched.c: ready lists

    method ReadyEnqueue(t: TaskId)
      modifies `tasks, `lists, `mask
      ensures State() == KernelState.ReadyEnqueue(old(State()), t)
    {
      if t !in tasks || tasks[t].priority > Bitmap.PRIORITY_MAX || tasks[t].state == Deleted {
        return;
      }
      if tasks[t].node.Linked? {
        return;
      }
      var p := tasks[t].priority;
      AddTail(t, ReadyList(p));
      mask := Bitmap.SetBit(mask, p);
    }

    method ReadyRemove(t: TaskId)
      modifies `tasks, `lists, `mask
      ensures State() == KernelState.ReadyRemove(old(State()), t)
    {
      var task := Record(t);
      if task.priority > Bitmap.PRIORITY_MAX || task.node.Unlinked? {
        return;
      }
      DelInit(t);
      if ListAt(ReadyList(task.priority)) == [] {
        mask := Bitmap.ClearBit(mask, task.priority);
      }
    }

    method PopHighest() returns (t: Option<TaskId>)
      modifies `tasks, `lists, `mask
      ensures (State(), t) == KernelState.PopHighest(old(State()))
    {
      if mask == 0 {
        return None;
      }
      var p := Bitmap.Highest(mask);
      if p < 0 || ListAt(ReadyList(p)) == [] {
        return None;
      }
      var first := DelFirst(ReadyList(p));
      if ListAt(ReadyList(p)) == [] {
        mask := Bitmap.ClearBit(mask, p);
      }
      t := Some(first);
    }

    // ----- sched.c: choosing a task

    predicate CurrentRuns()
      reads this
    {
      current.Some? && Record(current.value).state == Running
    }

    /** `sched_pick_next`: the caller stores the result in `current_task`. */
    method PickNext() returns (t: TaskId)
      modifies `tasks, `lists, `mask
      ensures State().(current := Some(t)) == KernelState.PickNext(old(State()))
    {
      hide KernelState.ReadyEnqueue, KernelState.PopHighest;
      ghost var was := State();
      if CurrentRuns() {
        var c := current.value;
        tasks := tasks[c := Record(c).(state := Ready)];
        assert State() == SetTask(was, c, TaskOf(was, c).(state := Ready));
        if c != idle {
          ReadyEnqueue(c);
        }
      }
      ghost var down := State();
      assert KernelState.PickNext(was) == SwitchToHighest(down);
      var next := PopHighest();
      t := if next.Some? then next.value else idle;
      ghost var popped := State();
      tasks := tasks[t := Record(t).(state := Running)];
      assert State().(current := Some(t)) == MakeCurrent(popped, t);
    }

    predicate HigherPriorityReady()
      reads this
    {
      && current.Some?
      && Record(current.value).priority < Bitmap.PRIORITY_MAX
      && Bitmap.And(mask, Bitmap.Above(Record(current.value).priority)) != 0
    }

    method OnTick() returns (switch: bool)
      modifies `slice
      ensures (State(), switch) == KernelState.OnTick(old(State()))
    {
      if current.None? {
        return false;
      }
      if !CurrentRuns() || current == Some(idle) {
        slice := 0;
        return true;
      }
      if mask == 0 {
        return false;
      }
      if HigherPriorityReady() {
        slice := 0;
        return true;
      }
      if ListAt(ReadyList(Record(current.value).priority)) == [] {
        return false;
      }
      slice := slice + 1;
      if slice >= TIME_SLICE_TICKS {
        slice := 0;
        return true;
      }
      switch := false;
    }

    method TryReschedule()
      modifies `tasks, `lists, `mask, `current, `pending
      ensures State() == KernelState.TryReschedule(old(State()))
    {
      if current.Some? && pending && lockCount == 0 {
        pending := false;
        if !CurrentRuns() || current == Some(idle) || HigherPriorityReady() {
          var next := PickNext();
          current := Some(next);
        }
      }
    }

    // ----- sched.c: timeouts

    method TimeoutRemove(t: TaskId)
      modifies `timeouts
      ensures State() == KernelState.TimeoutRemove(old(State()), t)
    {
      timeouts := Without(timeouts, t);
    }

    method TimeoutInsert(t: TaskId)
      modifies `timeouts
      ensures State() == KernelState.TimeoutInsert(old(State()), t)
    {
      if t !in tasks || !tasks[t].waitingOnTimer {
        return;
      }
      timeouts := Without(timeouts, t);
      var w := tasks[t].wakeup;
      var i := 0;
      while i < |timeouts| && !Earlier(w, Record(timeouts[i]).wakeup)
        invariant i <= |timeouts|
        invariant TimeoutPosition(old(State()), timeouts, w) == i + TimeoutPosition(old(State()), timeouts[i..], w)
      {
        assert timeouts[i..][1..] == timeouts[i + 1..];
        i := i + 1;
      }
      timeouts := timeouts[..i] + [t] + timeouts[i..];
    }

    method ExpireTask(t: TaskId)
      modifies `tasks, `lists, `mask
      ensures State() == Expire(old(State()), t)
    {
      if Record(t).state != Blocked || !Record(t).waitingOnTimer {
        return;
      }
      tasks := tasks[t := Record(t).(waitingOnTimer := false, result := Timeout)];
      DelInit(t);
      tasks := tasks[t := Record(t).(state := Ready)];
      ReadyEnqueue(t);
    }

    method WakeExpired()
      requires ticks == Low(now)
      modifies `tasks, `lists, `mask, `timeouts
      ensures State() == KernelState.WakeExpired(old(State()))
    {
      hide Expire;
      while timeouts != []
        invariant KernelState.WakeExpired(State()) == KernelState.WakeExpired(old(State()))
        decreases |timeouts|
      {
        var t := timeouts[0];
        if !Expired(ticks, Record(t).wakeup) {
          return;
        }
        ghost var was := State();
        timeouts := timeouts[1..];
        ExpireKeepsTimeouts(State(), t);
        ExpireTask(t);
        assert State() == Expire(was.(timeouts := was.timeouts[1..]), t);
      }
    }

    // ----- sched.c: wait lists and the deleted list

    /** The walk of `sched_block_current` along the waiters. */
    method WaiterIndex(waiters: seq<TaskId>, p: nat) returns (i: nat)
      ensures i == WaiterPosition(State(), waiters, p)
    {
      i := 0;
      while i < |waiters| && Record(waiters[i]).priority >= p
        invariant i <= |waiters|
        invariant WaiterPosition(State(), waiters, p) == i + WaiterPosition(State(), waiters[i..], p)
      {
        assert waiters[i..][1..] == waiters[i + 1..];
        i := i + 1;
      }
    }

    method BlockCurrent(q: QueueId)
      modifies `tasks, `lists, `mask
      ensures State() == KernelState.BlockCurrent(old(State()), q)
    {
      hide KernelState.ReadyRemove, WaiterPosition;
      if current.None? {
        return;
      }
      var c := current.value;
      tasks := tasks[c := Record(c).(state := Blocked, waitingOnTimer := false)];
      if Record(c).node.Linked? {
        ReadyRemove(c);
      }
      var i := WaiterIndex(ListAt(WaitList(q)), Record(c).priority);
      AddBefore(c, WaitList(q), i);
    }

    method WakeOne(q: QueueId) returns (t: Option<TaskId>)
      modifies `tasks, `lists, `mask, `timeouts
      ensures (State(), t) == KernelState.WakeOne(old(State()), q)
    {
      if ListAt(WaitList(q)) == [] {
        return None;
      }
      var first := DelFirst(WaitList(q));
      TimeoutRemove(first);
      tasks := tasks[first := Record(first).(waitingOnTimer := false, state := Ready)];
      ReadyEnqueue(first);
      t := Some(first);
    }

    method MarkDeleted(t: TaskId)
      modifies `tasks, `lists, `mask, `timeouts, `pc
      ensures State() == KernelState.MarkDeleted(old(State()), t)
    {
      if t !in tasks || t == idle || tasks[t].state == Deleted {
        return;
      }
      if Record(t).node.Linked? {
        if Record(t).state == Ready {
          ReadyRemove(t);
        } else {
          DelInit(t);
        }
      }
      TimeoutRemove(t);
      tasks := tasks[t := Record(t).(waitingOnTimer := false, result := NoResult, state := Deleted)];
      AddTail(t, DeletedList);
      pc := pc - {t};
    }

    // ----- wait_queue.c

    method BlockLocked(q: QueueId) returns (code: Error)
      modifies `tasks, `lists, `mask, `pending, `pc, `arrivals
      ensures (State(), code) == KernelState.BlockLocked(old(State()), q)
    {
      if current.None? || lockCount != 0 {
        pending := true;
        return if current.None? then Invalid else Locked;
      }
      var c := current.value;
      tasks := tasks[c := Record(c).(result := NoResult)];
      BlockCurrent(q);
      pc, arrivals := pc[c := Waiting(q, false, arrivals)], arrivals + 1;
      code := Ok;
    }

    method BlockTicks(q: QueueId, timeout: uint32) returns (code: Error)
      requires ticks == Low(now)
      modifies `tasks, `lists, `mask, `timeouts, `pending, `due, `pc, `arrivals
      ensures (State(), code) == KernelState.BlockTicks(old(State()), q, timeout)
    {
      hide KernelState.BlockLocked, KernelState.TimeoutInsert, Low;
      if timeout == 0 {
        return TimedOut;
      }
      ghost var was := State();
      code := BlockLocked(q);
      BlockLockedCounts(was, q);
      if code != Ok || current.None? {
        return;
      }
      var c := current.value;
      ghost var blocked := State();
      LowSum(now, timeout);
      tasks := tasks[c := Record(c).(wakeup := Low(ticks + timeout), waitingOnTimer := true, result := NoResult)];
      due := due[c := now + timeout];
      pc := pc[c := Waiting(q, true, arrivals - 1)];
      assert State() == SetTask(blocked, c, TaskOf(blocked, c).(
        wakeup := Low(now + timeout), waitingOnTimer := true, result := NoResult)).(
        due := blocked.due[c := now + timeout], pc := blocked.pc[c := Waiting(q, true, was.arrivals)]);
      TimeoutInsert(c);
    }

    method BlockTimeout(q: QueueId, us: uint64) returns (code: Error)
      requires ticks == Low(now)
      modifies `tasks, `lists, `mask, `timeouts, `pending, `due, `pc, `arrivals
      ensures (State(), code) == KernelState.BlockTimeout(old(State()), q, us)
      ensures old(Valid() && MayBlock(State())) && (us != FOREVER_US ==> UsToTicks(us) < HALF) ==> Valid()
    {
      ghost var was := State();
      hide Inv;
      if Valid() && MayBlock(was) && (us != FOREVER_US ==> UsToTicks(us) < HALF) {
        BlockTimeoutKeeps(was, q, us);
      }
      if us == FOREVER_US {
        code := BlockLocked(q);
      } else {
        code := BlockTicks(q, UsToTicks(us));
      }
    }

    method WakeOneResult(q: QueueId, result: WaitResult) returns (t: Option<TaskId>)
      modifies `tasks, `lists, `mask, `timeouts, `pending
      ensures (State(), t) == WakeResult(old(State()), q, result)
      ensures old(Valid()) && (result == Object || result == Destroyed) ==> Valid()
    {
      ghost var was := State();
      hide Inv, KernelState.WakeOne;
      if Valid() && (result == Object || result == Destroyed) {
        WakeKeepsInv(was, q, result, false);
      }
      t := WakeOne(q);
      if t.Some? && lockCount != 0 {
        pending := true;
      }
      if t.Some? {
        tasks := tasks[t.value := Record(t.value).(result := result)];
      }
    }

    method WakeOneFromIsr(q: QueueId) returns (t: Option<TaskId>)
      modifies `tasks, `lists, `mask, `timeouts, `pending
      ensures (State(), t) == WakeFromIsr(old(State()), q)
      ensures old(Valid()) ==> Valid()
    {
      ghost var was := State();
      hide Inv, WakeResult;
      if Valid() {
        WakeKeepsInv(was, q, Object, true);
      }
      t := WakeOneResult(q, Object);
      if t.Some? {
        pending := true;
      }
    }

    method WakeAllResult(q: QueueId, result: WaitResult) returns (count: nat)
      modifies `tasks, `lists, `mask, `timeouts, `pending
      ensures (State(), count) == WakeAll(old(State()), q, result)
    {
      hide WakeResult, WakeAll;
      count := 0;
      while ListAt(WaitList(q)) != []
        invariant WakeAll(State(), q, result).0 == WakeAll(old(State()), q, result).0
        invariant count + WakeAll(State(), q, result).1 == WakeAll(old(State()), q, result).1
        decreases |ListAt(WaitList(q))|
      {
        WakeAllUnfolds(State(), q, result);
        var _ := WakeOneResult(q, result);
        count := count + 1;
      }
      WakeAllUnfolds(State(), q, result);
    }

    // ----- task.c

    method TaskCreate(t: TaskId, priority: nat)
      modifies `tasks, `lists, `mask
      ensures State() == Create(old(State()), t, priority)
    {
      if priority > Bitmap.PRIORITY_MAX {
        return;
      }
      tasks := tasks[t := Task(priority, Ready, Unlinked, false, 0, NoResult)];
      ReadyEnqueue(t);
    }

    method TaskYield()
      modifies `tasks, `lists, `mask, `pending
      ensures State() == Yield(old(State()))
      ensures old(Valid()) ==> Valid()
    {
      ghost var was := State();
      hide Inv;
      if Valid() {
        YieldKeeps(was);
      }
      if lockCount != 0 {
        pending := true;
        return;
      }
      if CurrentRuns() && current != Some(idle) {
        var c := current.value;
        tasks := tasks[c := Record(c).(state := Ready)];
        ReadyEnqueue(c);
      }
    }

    method TaskDelete(t: TaskId) returns (code: Error)
      modifies `tasks, `lists, `mask, `timeouts, `pending, `pc
      ensures (State(), code) == Delete(old(State()), t)
      ensures old(Valid()) ==> Valid()
    {
      ghost var was := State();
      hide Inv, KernelState.MarkDeleted;
      if Valid() {
        DeleteKeeps(was, t);
      }
      if t !in tasks || t == idle {
        return Invalid;
      }
      if tasks[t].state == Deleted {
        return BadState;
      }
      if current == Some(t) && lockCount != 0 {
        return Locked;
      }
      MarkDeleted(t);
      if current == Some(t) {
        pending := true;
      }
      code := Ok;
    }

    /** One pass of the delay loop towards the tick `until`, stored as `wakeup`. */
    method DelayPass(wakeup: uint32, ghost until: nat)
      requires ticks == Low(now) && wakeup == Low(until)
      modifies `tasks, `lists, `mask, `timeouts, `pending, `due
      ensures State() == Delay(old(State()), until)
      ensures old(Valid() && MaySleep(State(), until)) ==> Valid()
    {
      ghost var was := State();
      hide Inv, KernelState.ReadyRemove, KernelState.TimeoutInsert;
      if Valid() && MaySleep(was, until) {
        DelayKeeps(was, until);
      }
      if current.None? {
        return;
      }
      if lockCount != 0 {
        pending := true;
        return;
      }
      if Expired(ticks, wakeup) {
        return;
      }
      var c := current.value;
      tasks := tasks[c := Record(c).(wakeup := wakeup, waitingOnTimer := true, result := NoResult, state := Blocked)];
      due := due[c := until];
      ReadyRemove(c);
      TimeoutInsert(c);
    }

    /** `task_cleanup_deleted`, run by the idle task: every deleted record is freed. */
    method CleanupDeleted()
      requires Valid() && CurrentIsIdle(State()) && CurrentIs(State(), Running)
      modifies `tasks, `lists, `due, `pc
      ensures Valid() && At(State(), DeletedList) == []
      ensures forall t :: t in tasks <==> t in old(tasks) && t !in old(At(State(), DeletedList))
    {
      hide Core, AllInFuture;
      while ListAt(DeletedList) != []
        invariant Valid() && CurrentIsIdle(State()) && CurrentIs(State(), Running)
        invariant forall t :: t in tasks && t !in At(State(), DeletedList) <==>
                              t in old(tasks) && t !in old(At(State(), DeletedList))
        decreases |ListAt(DeletedList)|
      {
        ghost var was := State();
        ReapKeeps(was);
        DeadIsDeleted(was, ListAt(DeletedList)[0]);
        TailMembers(ListAt(DeletedList));
        var t := DelFirst(DeletedList);
        tasks := tasks - {t};
        due, pc := due - {t}, pc - {t};
        assert State() == Reap(was);
      }
    }

    /** The caller is back from the `task_yield` of its blocking call. */
    ghost method LeaveCall()
      modifies `pc
      ensures State() == Resume(old(State()))
    {
      if current.Some? {
        pc := pc[current.value := User];
      }
    }

    // ----- the scheduler lock

    method Lock()
      modifies `lockCount
      ensures State() == LockScheduler(old(State()))
      ensures old(Valid() && MayBlock(State())) ==> Valid()
    {
      ghost var was := State();
      hide Inv;
      if Valid() && MayBlock(was) {
        LockKeeps(was);
      }
      lockCount := Low(lockCount + 1);
    }

    method Unlock()
      modifies `tasks, `lists, `mask, `lockCount, `pending
      ensures State() == UnlockScheduler(old(State()))
      ensures old(Valid()) ==> Valid()
    {
      ghost var was := State();
      hide Inv;
      if Valid() {
        UnlockKeeps(was);
      }
      if lockCount == 0 {
        return;
      }
      lockCount := lockCount - 1;
      if lockCount == 0 && pending {
        pending := false;
        TaskYield();
      }
    }

    // ----- hal.c

    /** `do_trap` after the interrupt handler: `tick` is the new tick count of a tick interrupt, whose
        unbounded value is `instant`. */
    method DoTrap(systick: bool, tick: uint32, ghost instant: nat)
      requires Valid() && Enabled(State(), Op.DoTrap(systick, instant))
      requires tick == Low(instant)
      modifies `tasks, `lists, `mask, `timeouts, `current, `slice, `pending, `ticks, `now
      ensures Valid() && State() == Trap(old(State()), systick, instant)
    {
      hide Core, AllInFuture, KernelState.WakeExpired, Decide;
      TrapKeeps(State(), systick, instant);
      if systick {
        ticks := tick;
        now := instant;
      }
      WakeExpired();
      Decision(systick);
    }

    /** The choice at the end of `do_trap`. */
    method Decision(systick: bool)
      modifies `tasks, `lists, `mask, `current, `slice, `pending
      ensures State() == Decide(old(State()), systick)
    {
      hide KernelState.PickNext, KernelState.TryReschedule, KernelState.OnTick;
      if !CurrentRuns() || current == Some(idle) {
        var next := PickNext();
        current := Some(next);
      } else if systick {
        var switch := OnTick();
        if switch {
          if lockCount != 0 {
            pending := true;
          } else {
            var next := PickNext();
            current := Some(next);
          }
        }
      }
      if !systick {
        TryReschedule();
      }
    }
  }

  /** A running task in its own code, and a tick less than half the 32-bit range away. */
  ghost predicate MaySleep(k: Kernel, until: nat) {
    Calling(k) && k.now - HALF < until < k.now + HALF
  }

  lemma WakeAllUnfolds(k: Kernel, q: QueueId, result: WaitResult)
    ensures At(k, WaitList(q)) == [] ==> WakeAll(k, q, result) == (k, 0)
    ensures At(k, WaitList(q)) != [] ==>
              var k' := WakeResult(k, q, result).0;
              && |At(k', WaitList(q))| < |At(k, WaitList(q))|
              && WakeAll(k, q, result).0 == WakeAll(k', q, result).0
              && WakeAll(k, q, result).1 == WakeAll(k', q, result).1 + 1
  {
    hide WakeResult;
    if At(k, WaitList(q)) != [] {
      WakeResultShrinks(k, q, result);
    }
  }

  lemma BlockLockedCounts(k: Kernel, q: QueueId)
    ensures var (k', code) := BlockLocked(k, q);
            && (code == Ok ==> k'.arrivals == k.arrivals + 1)
            && k'.now == k.now && k'.current == k.current && k'.due == k.due
  {
    hide KernelState.BlockCurrent;
    if k.current.Some? {
      var c := k.current.value;
      BlockCurrentKeepsClock(SetTask(k, c, TaskOf(k, c).(result := NoResult)), q);
    }
  }

  lemma BlockCurrentKeepsClock(k: Kernel, q: QueueId)
    ensures SameTime(k, BlockCurrent(k, q)) && BlockCurrent(k, q).current == k.current
  {
    hide KernelState.ReadyRemove, WaiterPosition, InsertAt;
    if k.current.Some? {
      var c := k.current.value;
      ReadyRemoveMoves(SetTask(k, c, TaskOf(k, c).(state := Blocked, waitingOnTimer := false)), c);
    }
  }

  lemma LowSum(a: nat, b: nat)
    ensures Low(Low(a) + b) == Low(a + b)
  {
  }
}
