/** The kernel as a value: task records, the lists their `state_list` nodes are on, the timeout list and the
    scheduler's own fields, with every operation of `sched.c`, `wait_queue.c` and `task.c`, and the scheduling
    part of `do_trap`, as a function from one kernel to the next.

    Each function is one critical section or one trap: with interrupts off nothing runs in between. Two are not, and
    are taken as one step all the same: `Yield`, and `Create` by a running kernel. What traps inside them do is in
    `KernelYieldGap` and `KernelCreateGap`.
    `now`, `due`, `pc` and `arrivals` are history the C code does not store: unbounded time, the absolute
    deadline behind each stored 32-bit `wakeup`, the call a task is inside, and the order of blocking. */
module KernelState {
  import opened Common
  import opened TickTime
  import opened Bitmap

  type TaskId = nat
  type QueueId = nat

  const TIME_SLICE_TICKS := 10

  datatype TaskState = Ready | Running | Blocked | Deleted

  datatype WaitResult = NoResult | Object | Timeout | Destroyed

  datatype ListId = ReadyList(priority: nat) | WaitList(queue: QueueId) | DeletedList

  /** Where a task's one `state_list` node is: on itself, or on a list. */
  datatype Node = Unlinked | Linked(list: ListId)

  datatype Task = Task(priority: nat, state: TaskState, node: Node,
                       waitingOnTimer: bool, wakeup: uint32, result: WaitResult)

  /** The call a task is inside: none, or blocked (or woken, not yet resumed) on a wait queue. */
  datatype Pc = User | Waiting(queue: QueueId, timed: bool, arrival: nat)

  datatype Kernel = Kernel(
    tasks: map<TaskId, Task>,
    lists: map<ListId, seq<TaskId>>,
    mask: nat,
    timeouts: seq<TaskId>,
    current: Option<TaskId>,
    idle: TaskId,
    slice: nat,
    lockCount: uint32,
    pending: bool,
    now: nat,
    due: map<TaskId, nat>,
    pc: map<TaskId, Pc>,
    arrivals: nat)

  const NO_TASK := Task(0, Deleted, Unlinked, false, 0, NoResult)

  function TaskOf(k: Kernel, t: TaskId): Task {
    if t in k.tasks then k.tasks[t] else NO_TASK
  }

  function At(k: Kernel, id: ListId): seq<TaskId> {
    if id in k.lists then k.lists[id] else []
  }

  function PcOf(k: Kernel, t: TaskId): Pc {
    if t in k.pc then k.pc[t] else User
  }

  function DueOf(k: Kernel, t: TaskId): nat {
    if t in k.due then k.due[t] else 0
  }

  function SetTask(k: Kernel, t: TaskId, task: Task): Kernel {
    k.(tasks := k.tasks[t := task])
  }

  predicate IsLocked(k: Kernel) {
    k.lockCount != 0
  }

  predicate CurrentIs(k: Kernel, state: TaskState) {
    k.current.Some? && TaskOf(k, k.current.value).state == state
  }

  predicate CurrentIsIdle(k: Kernel) {
    k.current == Some(k.idle)
  }

  // ----- state_list nodes

  /** Puts the node of `t` at index `i` of the list. */
  function Link(k: Kernel, t: TaskId, id: ListId, i: nat): Kernel
    requires i <= |At(k, id)|
  {
    SetTask(k, t, TaskOf(k, t).(node := Linked(id))).(lists := k.lists[id := InsertAt(At(k, id), i, t)])
  }

  /** `list_del_init(&task->state_list)` */
  function Unlink(k: Kernel, t: TaskId): Kernel {
    match TaskOf(k, t).node
    case Unlinked => k
    case Linked(id) =>
      SetTask(k, t, TaskOf(k, t).(node := Unlinked)).(lists := k.lists[id := Without(At(k, id), t)])
  }

  /** `list_del_init` of the first node of a list. */
  function UnlinkFirst(k: Kernel, id: ListId): Kernel
    requires At(k, id) != []
  {
    var t := At(k, id)[0];
    SetTask(k, t, TaskOf(k, t).(node := Unlinked)).(lists := k.lists[id := At(k, id)[1..]])
  }

  // ----- ready lists

  /** `sched_ready_enqueue` */
  function ReadyEnqueue(k: Kernel, t: TaskId): Kernel {
    var task := TaskOf(k, t);
    if t !in k.tasks || task.priority > PRIORITY_MAX || task.state == Deleted || task.node.Linked? then k
    else
      var id := ReadyList(task.priority);
      Link(k, t, id, |At(k, id)|).(mask := SetBit(k.mask, task.priority))
  }

  /** Clears the mask bit of a ready list that has become empty. */
  function ClearIfEmpty(k: Kernel, priority: nat): Kernel {
    if At(k, ReadyList(priority)) == [] then k.(mask := ClearBit(k.mask, priority)) else k
  }

  /** `sched_ready_remove` */
  function ReadyRemove(k: Kernel, t: TaskId): Kernel {
    var task := TaskOf(k, t);
    if task.priority > PRIORITY_MAX || task.node.Unlinked? then k
    else ClearIfEmpty(Unlink(k, t), task.priority)
  }

  /** `sched_ready_pop_highest`; the queue-corrupt loop is the second `None`. */
  function PopHighest(k: Kernel): (Kernel, Option<TaskId>) {
    if k.mask == 0 || Highest(k.mask) < 0 then (k, None)
    else
      var id := ReadyList(Highest(k.mask));
      if At(k, id) == [] then (k, None)
      else (ClearIfEmpty(UnlinkFirst(k, id), id.priority), Some(At(k, id)[0]))
  }

  // ----- choosing the current task

  /** The current task, running until now, goes back to its ready list; the idle task has none. */
  function StepDown(k: Kernel): Kernel
    requires k.current.Some?
  {
    var c := k.current.value;
    var idling := SetTask(k, c, TaskOf(k, c).(state := Ready));
    if c != k.idle then ReadyEnqueue(idling, c) else idling
  }

  /** `sched_pick_next`, with its result stored in `current_task` as every caller does. */
  function PickNext(k: Kernel): Kernel {
    SwitchToHighest(if CurrentIs(k, Running) then StepDown(k) else k)
  }

  function SwitchToHighest(k: Kernel): Kernel {
    var (popped, next) := PopHighest(k);
    MakeCurrent(popped, if next.Some? then next.value else k.idle)
  }

  function MakeCurrent(k: Kernel, t: TaskId): Kernel {
    SetTask(k, t, TaskOf(k, t).(state := Running)).(current := Some(t))
  }

  predicate HigherPriorityReady(k: Kernel) {
    && k.current.Some?
    && TaskOf(k, k.current.value).priority < PRIORITY_MAX
    && And(k.mask, Above(TaskOf(k, k.current.value).priority)) != 0
  }

  /** `sched_on_tick`: the new kernel and whether to reschedule. */
  function OnTick(k: Kernel): (Kernel, bool) {
    if k.current.None? then (k, false)
    else if !CurrentIs(k, Running) || CurrentIsIdle(k) then (k.(slice := 0), true)
    else if k.mask == 0 then (k, false)
    else if HigherPriorityReady(k) then (k.(slice := 0), true)
    else if At(k, ReadyList(TaskOf(k, k.current.value).priority)) == [] then (k, false)
    else if k.slice + 1 >= TIME_SLICE_TICKS then (k.(slice := 0), true)
    else (k.(slice := k.slice + 1), false)
  }

  /** `sched_try_reschedule_from_trap` */
  function TryReschedule(k: Kernel): Kernel {
    if k.current.Some? && k.pending && !IsLocked(k) then
      var clear := k.(pending := false);
      if !CurrentIs(clear, Running) || CurrentIsIdle(clear) || HigherPriorityReady(clear) then PickNext(clear)
      else clear
    else k
  }

  /** The scheduling decision at the end of `do_trap`. */
  function Decide(k: Kernel, systick: bool): Kernel {
    var decided :=
      if !CurrentIs(k, Running) || CurrentIsIdle(k) then PickNext(k)
      else if systick then
        var (ticked, switch) := OnTick(k);
        if !switch then ticked
        else if IsLocked(ticked) then ticked.(pending := true)
        else PickNext(ticked)
      else k;
    if systick then decided else TryReschedule(decided)
  }

  // ----- timeouts

  /** Where `sched_timeout_insert` puts a task: before the first queued wakeup that is later. */
  function TimeoutPosition(k: Kernel, queued: seq<TaskId>, wakeup: uint32): (i: nat)
    ensures i <= |queued|
  {
    if queued == [] || Earlier(wakeup, TaskOf(k, queued[0]).wakeup) then 0
    else 1 + TimeoutPosition(k, queued[1..], wakeup)
  }

  /** `sched_timeout_remove` */
  function TimeoutRemove(k: Kernel, t: TaskId): Kernel {
    k.(timeouts := Without(k.timeouts, t))
  }

  /** `sched_timeout_insert` */
  function TimeoutInsert(k: Kernel, t: TaskId): Kernel {
    if t !in k.tasks || !TaskOf(k, t).waitingOnTimer then k
    else
      var rest := Without(k.timeouts, t);
      k.(timeouts := InsertAt(rest, TimeoutPosition(k, rest, TaskOf(k, t).wakeup), t))
  }

  /** What `sched_wake_expired` does to an expired task taken off the timeout list. */
  function Expire(k: Kernel, t: TaskId): Kernel {
    var task := TaskOf(k, t);
    if task.state != Blocked || !task.waitingOnTimer then k
    else
      var timedOut := Unlink(SetTask(k, t, task.(waitingOnTimer := false, result := Timeout)), t);
      ReadyEnqueue(SetTask(timedOut, t, TaskOf(timedOut, t).(state := Ready)), t)
  }

  lemma ExpireKeepsTimeouts(k: Kernel, t: TaskId)
    ensures Expire(k, t).timeouts == k.timeouts
  {
  }

  /** `sched_wake_expired` */
  function WakeExpired(k: Kernel): Kernel
    decreases |k.timeouts|
  {
    if k.timeouts == [] || !Expired(Low(k.now), TaskOf(k, k.timeouts[0]).wakeup) then k
    else
      var rest := k.(timeouts := k.timeouts[1..]);
      ExpireKeepsTimeouts(rest, k.timeouts[0]);
      WakeExpired(Expire(rest, k.timeouts[0]))
  }

  /** The first part of `do_trap`: tick and timeouts. Timer callbacks run between it and the decision. */
  function TrapExpire(k: Kernel, systick: bool, now: nat): Kernel {
    WakeExpired(if systick then k.(now := now) else k)
  }

  /** `do_trap` once the scheduler has started, no callback falling due: tick, timeouts, decision. */
  function Trap(k: Kernel, systick: bool, now: nat): Kernel {
    if k.current.None? then (if systick then k.(now := now) else k)
    else Decide(TrapExpire(k, systick, now), systick)
  }

  // ----- wait queues

  /** Where `sched_block_current` puts a task: before the first waiter of lower priority. */
  function WaiterPosition(k: Kernel, waiters: seq<TaskId>, priority: nat): (i: nat)
    ensures i <= |waiters|
  {
    if waiters == [] || TaskOf(k, waiters[0]).priority < priority then 0
    else 1 + WaiterPosition(k, waiters[1..], priority)
  }

  /** `sched_block_current` */
  function BlockCurrent(k: Kernel, q: QueueId): Kernel {
    if k.current.None? then k
    else
      var c := k.current.value;
      var blocked := SetTask(k, c, TaskOf(k, c).(state := Blocked, waitingOnTimer := false));
      var off := if TaskOf(blocked, c).node.Linked? then ReadyRemove(blocked, c) else blocked;
      Link(off, c, WaitList(q), WaiterPosition(off, At(off, WaitList(q)), TaskOf(off, c).priority))
  }

  /** `trt_wait_q_block_locked` */
  function BlockLocked(k: Kernel, q: QueueId): (Kernel, Error) {
    if k.current.None? then (k.(pending := true), Invalid)
    else if IsLocked(k) then (k.(pending := true), Locked)
    else
      var c := k.current.value;
      var reset := SetTask(k, c, TaskOf(k, c).(result := NoResult));
      var blocked := BlockCurrent(reset, q);
      (blocked.(pc := k.pc[c := Waiting(q, false, k.arrivals)], arrivals := k.arrivals + 1), Ok)
  }

  /** `trt_wait_q_block_ticks_locked` */
  function BlockTicks(k: Kernel, q: QueueId, ticks: uint32): (Kernel, Error) {
    if ticks == 0 then (k, TimedOut)
    else
      var (blocked, e) := BlockLocked(k, q);
      if e != Ok || blocked.current.None? then (blocked, e)
      else
        var c := blocked.current.value;
        var deadline := blocked.now + ticks;
        var timed := SetTask(blocked, c, TaskOf(blocked, c).(
          wakeup := Low(deadline), waitingOnTimer := true, result := NoResult)).(
          due := blocked.due[c := deadline],
          pc := blocked.pc[c := Waiting(q, true, k.arrivals)]);
        (TimeoutInsert(timed, c), Ok)
  }

  /** `trt_wait_q_block_timeout_locked` */
  function BlockTimeout(k: Kernel, q: QueueId, us: uint64): (Kernel, Error) {
    if us == FOREVER_US then BlockLocked(k, q) else BlockTicks(k, q, UsToTicks(us))
  }

  /** `sched_wake_one` */
  function WakeOne(k: Kernel, q: QueueId): (Kernel, Option<TaskId>) {
    if At(k, WaitList(q)) == [] then (k, None)
    else
      var t := At(k, WaitList(q))[0];
      var off := TimeoutRemove(UnlinkFirst(k, WaitList(q)), t);
      var ready := SetTask(off, t, TaskOf(off, t).(waitingOnTimer := false, state := Ready));
      (ReadyEnqueue(ready, t), Some(t))
  }

  /** `trt_wait_q_wake_one_result_locked` */
  function WakeResult(k: Kernel, q: QueueId, result: WaitResult): (Kernel, Option<TaskId>) {
    var (woken, t) := WakeOne(k, q);
    if t.None? then (woken, t)
    else
      var asked := if IsLocked(woken) then woken.(pending := true) else woken;
      (SetTask(asked, t.value, TaskOf(asked, t.value).(result := result)), t)
  }

  /** `trt_wait_q_wake_one_from_isr` */
  function WakeFromIsr(k: Kernel, q: QueueId): (Kernel, Option<TaskId>) {
    var (woken, t) := WakeResult(k, q, Object);
    (if t.Some? then woken.(pending := true) else woken, t)
  }

  lemma WakeResultShrinks(k: Kernel, q: QueueId, result: WaitResult)
    requires At(k, WaitList(q)) != []
    ensures At(WakeResult(k, q, result).0, WaitList(q)) == At(k, WaitList(q))[1..]
  {
  }

  /** `trt_wait_q_wake_all_result_locked`: the new kernel and how many were woken. */
  function WakeAll(k: Kernel, q: QueueId, result: WaitResult): (Kernel, nat)
    decreases |At(k, WaitList(q))|
  {
    if At(k, WaitList(q)) == [] then (k, 0)
    else
      WakeResultShrinks(k, q, result);
      var (rest, n) := WakeAll(WakeResult(k, q, result).0, q, result);
      (rest, n + 1)
  }

  /** The history step of a task coming back from `task_yield` inside a blocking call. */
  function Resume(k: Kernel): Kernel {
    if k.current.None? then k else k.(pc := k.pc[k.current.value := User])
  }

  // ----- tasks

  /** `task_yield` up to its trap. */
  function Yield(k: Kernel): Kernel {
    if IsLocked(k) then k.(pending := true)
    else if CurrentIs(k, Running) && !CurrentIsIdle(k) then StepDown(k)
    else k
  }

  /** `sched_lock` */
  function LockScheduler(k: Kernel): Kernel {
    k.(lockCount := Low(k.lockCount + 1))
  }

  /** The outermost unlock finds a request pending: `sched_unlock` then yields. */
  predicate OwesYield(k: Kernel) {
    k.lockCount == 1 && k.pending
  }

  /** The critical section of `sched_unlock`. */
  function ReleaseLock(k: Kernel): Kernel {
    if k.lockCount == 0 then k
    else k.(lockCount := k.lockCount - 1, pending := k.pending && !OwesYield(k))
  }

  /** `sched_unlock` up to the trap of its `task_yield`, nothing coming in between. */
  function UnlockScheduler(k: Kernel): Kernel {
    if OwesYield(k) then Yield(ReleaseLock(k)) else ReleaseLock(k)
  }

  /** One pass of the loop of `task_delay_ticks` towards the absolute tick `until`. */
  function Delay(k: Kernel, until: nat): Kernel {
    if k.current.None? then k
    else if IsLocked(k) then k.(pending := true)
    else if Expired(Low(k.now), Low(until)) then k
    else
      var c := k.current.value;
      var asleep := SetTask(k, c, TaskOf(k, c).(
        wakeup := Low(until), waitingOnTimer := true, result := NoResult, state := Blocked)).(
        due := k.due[c := until]);
      TimeoutInsert(ReadyRemove(asleep, c), c)
  }

  /** `task_create_kernel` for a task record at address `t`. */
  function Create(k: Kernel, t: TaskId, priority: nat): Kernel {
    if priority > PRIORITY_MAX then k
    else ReadyEnqueue(SetTask(k, t, Task(priority, Ready, Unlinked, false, 0, NoResult)), t)
  }

  /** `sched_mark_deleted` */
  function MarkDeleted(k: Kernel, t: TaskId): Kernel {
    var task := TaskOf(k, t);
    if t !in k.tasks || t == k.idle || task.state == Deleted then k
    else
      var off := if task.node.Unlinked? then k
                 else if task.state == Ready then ReadyRemove(k, t)
                 else Unlink(k, t);
      var dead := SetTask(TimeoutRemove(off, t), t, TaskOf(off, t).(
        waitingOnTimer := false, result := NoResult, state := Deleted));
      Link(dead, t, DeletedList, |At(dead, DeletedList)|).(pc := k.pc - {t})
  }

  /** `task_delete_obj` up to the trap of a self-deletion. */
  function Delete(k: Kernel, t: TaskId): (Kernel, Error) {
    if t !in k.tasks || t == k.idle then (k, Invalid)
    else if TaskOf(k, t).state == Deleted then (k, BadState)
    else if k.current == Some(t) && IsLocked(k) then (k, Locked)
    else
      var dead := MarkDeleted(k, t);
      (if k.current == Some(t) then dead.(pending := true) else dead, Ok)
  }

  /** `sched_pop_deleted` and the `free` of the record: one pass of `task_cleanup_deleted`. */
  function Reap(k: Kernel): Kernel {
    if At(k, DeletedList) == [] then k
    else
      var t := At(k, DeletedList)[0];
      var off := UnlinkFirst(k, DeletedList);
      off.(tasks := off.tasks - {t}, due := off.due - {t}, pc := off.pc - {t})
  }

  /** `kernel_init`: the idle task alone, ready, nothing running. */
  function Boot(idle: TaskId): Kernel {
    var empty := Kernel(map[], map[], 0, [], None, idle, 0, 0, false, 0, map[], map[], 0);
    Create(empty, idle, 0)
  }
}
