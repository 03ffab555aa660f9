/** The kernel invariant: every task is in exactly one place, the place its state says; the ready mask, the
    timeout list and the wait queues agree with that; and the facts about its parts that each step re-proves. */
module KernelInvariant {
  import opened Common
  import opened TickTime
  import opened Bitmap
  import opened KernelState

  /** A list holds, once each, exactly the tasks whose node is on it. */
  ghost predicate ListOk(k: Kernel, id: ListId) {
    && NoDup(At(k, id))
    && forall t :: t in At(k, id) <==> TaskOf(k, t).node == Linked(id)
  }

  ghost predicate ListsOk(k: Kernel) {
    forall id :: ListOk(k, id)
  }

  ghost predicate MaskOk(k: Kernel) {
    && k.mask < Pow2(32)
    && forall p: nat | p <= PRIORITY_MAX :: Has(k.mask, p) <==> At(k, ReadyList(p)) != []
  }

  /** A task out of its blocking state but still inside a blocking call carries an outcome. */
  ghost predicate OutcomeOk(pc: Pc, result: WaitResult) {
    pc.Waiting? ==> result != NoResult && (result == Timeout ==> pc.timed)
  }

  /** A task is in the one place its state says. The idle task alone may be ready and on no list. */
  ghost predicate TaskOk(k: Kernel, t: TaskId) {
    var task, pc := TaskOf(k, t), PcOf(k, t);
    && task.priority <= PRIORITY_MAX
    && (task.waitingOnTimer <==> t in k.timeouts)
    && (task.waitingOnTimer ==> task.state == Blocked)
    && match task.state
       case Running => k.current == Some(t) && task.node == Unlinked && OutcomeOk(pc, task.result)
       case Ready =>
         && (task.node == Linked(ReadyList(task.priority)) || (t == k.idle && task.node == Unlinked))
         && OutcomeOk(pc, task.result)
       case Blocked =>
         && t != k.idle
         && task.result == NoResult
         && (match pc
             case User => task.node == Unlinked && task.waitingOnTimer
             case Waiting(q, timed, _) => task.node == Linked(WaitList(q)) && task.waitingOnTimer == timed)
       case Deleted => t != k.idle && task.node == Linked(DeletedList) && pc == User && task.result == NoResult
  }

  ghost predicate TasksOk(k: Kernel) {
    forall t | t in k.tasks :: TaskOk(k, t)
  }

  /** The timeout list is in deadline order and its stored wakeups are those deadlines on 32 bits. */
  ghost predicate TimeoutsOk(k: Kernel) {
    && NoDup(k.timeouts)
    && (forall t | t in k.timeouts :: t in k.tasks && TaskOf(k, t).wakeup == Low(DueOf(k, t)))
    && forall i, j | 0 <= i < j < |k.timeouts| :: DueOf(k, k.timeouts[i]) <= DueOf(k, k.timeouts[j])
  }

  function ArrivalOf(k: Kernel, t: TaskId): nat {
    if PcOf(k, t).Waiting? then PcOf(k, t).arrival else 0
  }

  /** `u` is to be woken before `v`: higher priority, or the same and it began to wait earlier. */
  ghost predicate Before(k: Kernel, u: TaskId, v: TaskId) {
    || TaskOf(k, u).priority > TaskOf(k, v).priority
    || (TaskOf(k, u).priority == TaskOf(k, v).priority && ArrivalOf(k, u) < ArrivalOf(k, v))
  }

  ghost predicate QueueOk(k: Kernel, q: QueueId) {
    var s := At(k, WaitList(q));
    forall i, j | 0 <= i < j < |s| :: Before(k, s[i], s[j])
  }

  ghost predicate QueuesOk(k: Kernel) {
    forall q :: QueueOk(k, q)
  }

  ghost predicate GlobalOk(k: Kernel) {
    && k.idle in k.tasks
    && (k.current.Some? ==> k.current.value in k.tasks)
    && (k.lockCount > 0 ==> CurrentIs(k, Running) && !CurrentIsIdle(k))
    && k.slice < TIME_SLICE_TICKS
    && (forall t | t in k.pc :: t in k.tasks)
    && forall t :: PcOf(k, t).Waiting? ==> ArrivalOf(k, t) < k.arrivals
  }

  /** Everything but the position of the deadlines relative to the present tick. */
  ghost predicate Core(k: Kernel) {
    && ListsOk(k)
    && MaskOk(k)
    && TasksOk(k)
    && TimeoutsOk(k)
    && QueuesOk(k)
    && GlobalOk(k)
  }

  /** Between traps every deadline is still to come, by less than half the 32-bit range. */
  ghost predicate AllInFuture(k: Kernel) {
    forall t | t in k.timeouts :: k.now < DueOf(k, t) < k.now + HALF
  }

  /** During a trap, after the tick has advanced, deadlines are within half the range either way. */
  ghost predicate AllNear(k: Kernel) {
    forall t | t in k.timeouts :: -HALF < DueOf(k, t) - k.now < HALF
  }

  ghost predicate Inv(k: Kernel) {
    Core(k) && AllInFuture(k)
  }

  // ----- nodes

  lemma LinkKeepsLists(k: Kernel, t: TaskId, id: ListId, i: nat)
    requires ListsOk(k) && TaskOf(k, t).node == Unlinked && i <= |At(k, id)|
    ensures ListsOk(Link(k, t, id, i))
  {
    var k' := Link(k, t, id, i);
    assert ListOk(k, id);
    InsertMembers(At(k, id), i, t);
    forall other ensures ListOk(k', other) {
      assert ListOk(k, other);
    }
  }

  lemma UnlinkKeepsLists(k: Kernel, t: TaskId)
    requires ListsOk(k)
    ensures ListsOk(Unlink(k, t))
  {
    var k' := Unlink(k, t);
    if TaskOf(k, t).node.Linked? {
      var id := TaskOf(k, t).node.list;
      assert ListOk(k, id);
      WithoutMembers(At(k, id), t);
      forall other ensures ListOk(k', other) {
        assert ListOk(k, other);
      }
    }
  }

  /** Taking the first node off a list is `Unlink` of that task. */
  lemma UnlinkFirstIsUnlink(k: Kernel, id: ListId)
    requires ListsOk(k) && At(k, id) != []
    ensures UnlinkFirst(k, id) == Unlink(k, At(k, id)[0])
  {
    assert ListOk(k, id);
    assert At(k, id)[0] in At(k, id);
  }

  lemma SetTaskKeepsLists(k: Kernel, t: TaskId, task: Task)
    requires ListsOk(k) && task.node == TaskOf(k, t).node
    ensures ListsOk(SetTask(k, t, task))
  {
    forall id ensures ListOk(SetTask(k, t, task), id) {
      assert ListOk(k, id);
    }
  }

  // ----- mask

  lemma SetBitKeepsMask(k: Kernel, k': Kernel, p: nat)
    requires MaskOk(k) && p <= PRIORITY_MAX
    requires k'.mask == SetBit(k.mask, p)
    requires At(k', ReadyList(p)) != []
    requires forall r: nat | r != p :: At(k', ReadyList(r)) == At(k, ReadyList(r))
    ensures MaskOk(k')
  {
    StaysInWord(k.mask, p, 32);
    forall r: nat | r <= PRIORITY_MAX ensures Has(k'.mask, r) <==> At(k', ReadyList(r)) != [] {
      SetBitHas(k.mask, p, r);
    }
  }

  /** `ClearIfEmpty` restores the agreement broken by taking a task off the list of `p`. */
  lemma ClearIfEmptyKeepsMask(k: Kernel, less: Kernel, p: nat)
    requires MaskOk(k) && p <= PRIORITY_MAX
    requires less.mask == k.mask && At(k, ReadyList(p)) != []
    requires forall r: nat | r != p :: At(less, ReadyList(r)) == At(k, ReadyList(r))
    ensures MaskOk(ClearIfEmpty(less, p))
  {
    var k' := ClearIfEmpty(less, p);
    StaysInWord(k.mask, p, 32);
    forall r: nat | r <= PRIORITY_MAX ensures Has(k'.mask, r) <==> At(k', ReadyList(r)) != [] {
      ClearBitHas(k.mask, p, r);
    }
  }

  lemma SameReadyListsKeepMask(k: Kernel, k': Kernel)
    requires MaskOk(k) && k'.mask == k.mask
    requires forall r: nat :: At(k', ReadyList(r)) == At(k, ReadyList(r))
    ensures MaskOk(k')
  {
  }

  // ----- timeout list and wait queues

  lemma FewerTimeouts(k: Kernel, k': Kernel, t: TaskId)
    requires TimeoutsOk(k) && k'.timeouts == Without(k.timeouts, t)
    requires forall u | u in k.timeouts && u != t ::
               u in k'.tasks && TaskOf(k', u).wakeup == TaskOf(k, u).wakeup && DueOf(k', u) == DueOf(k, u)
    ensures TimeoutsOk(k')
    ensures forall u :: u in k'.timeouts <==> u in k.timeouts && u != t
  {
    WithoutMembers(k.timeouts, t);
    var s := k'.timeouts;
    forall i, j | 0 <= i < j < |s| ensures DueOf(k', s[i]) <= DueOf(k', s[j]) {
      var a, b := WithoutOrder(k.timeouts, t, i, j);
      assert DueOf(k, k.timeouts[a]) <= DueOf(k, k.timeouts[b]);
    }
  }

  /** A wait queue that lost one task, or none, and whose other tasks kept priority and arrival, stays ordered. */
  lemma ShorterQueueOk(k: Kernel, k': Kernel, q: QueueId, t: TaskId)
    requires QueueOk(k, q) && NoDup(At(k, WaitList(q)))
    requires At(k', WaitList(q)) == Without(At(k, WaitList(q)), t)
    requires forall u | u in At(k, WaitList(q)) && u != t ::
               TaskOf(k', u).priority == TaskOf(k, u).priority && ArrivalOf(k', u) == ArrivalOf(k, u)
    ensures QueueOk(k', q)
  {
    var s, s' := At(k, WaitList(q)), At(k', WaitList(q));
    forall i, j | 0 <= i < j < |s'| ensures Before(k', s'[i], s'[j]) {
      var a, b := WithoutOrder(s, t, i, j);
      assert Before(k, s[a], s[b]);
    }
  }

  /** The common case: `t` has left every wait queue and nothing else about waiting changed. */
  lemma LeavingKeepsQueues(k: Kernel, k': Kernel, t: TaskId)
    requires ListsOk(k) && QueuesOk(k)
    requires forall q :: At(k', WaitList(q)) == Without(At(k, WaitList(q)), t)
    requires forall u | u != t :: TaskOf(k', u).priority == TaskOf(k, u).priority && ArrivalOf(k', u) == ArrivalOf(k, u)
    ensures QueuesOk(k')
  {
    forall q ensures QueueOk(k', q) {
      assert ListOk(k, WaitList(q)) && QueueOk(k, q);
      ShorterQueueOk(k, k', q, t);
    }
  }

  lemma SameQueuesOk(k: Kernel, k': Kernel)
    requires QueuesOk(k)
    requires forall q :: At(k', WaitList(q)) == At(k, WaitList(q))
    requires forall u :: TaskOf(k, u).node.Linked? && TaskOf(k, u).node.list.WaitList? ==>
                         TaskOf(k', u).priority == TaskOf(k, u).priority && ArrivalOf(k', u) == ArrivalOf(k, u)
    requires ListsOk(k)
    ensures QueuesOk(k')
  {
    forall q ensures QueueOk(k', q) {
      assert ListOk(k, WaitList(q)) && QueueOk(k, q);
      var s := At(k, WaitList(q));
      forall i, j | 0 <= i < j < |s| ensures Before(k', s[i], s[j]) {
        assert s[i] in s && s[j] in s && Before(k, s[i], s[j]);
      }
    }
  }

  // ----- all tasks but one

  ghost predicate TasksBut(k: Kernel, t: TaskId) {
    forall u | u in k.tasks && u != t :: TaskOk(k, u)
  }

  /** A step that only touches `t` leaves every other task where it was. */
  lemma OthersKeep(k: Kernel, k': Kernel, t: TaskId)
    requires TasksBut(k, t)
    requires k'.current == k.current && k'.idle == k.idle
    requires forall u | u != t :: u in k'.tasks ==> u in k.tasks
    requires forall u | u != t :: TaskOf(k', u) == TaskOf(k, u) && PcOf(k', u) == PcOf(k, u)
    requires forall u | u != t :: u in k'.timeouts <==> u in k.timeouts
    ensures TasksBut(k', t)
  {
    forall u | u in k'.tasks && u != t ensures TaskOk(k', u) {
      assert TaskOk(k, u);
    }
  }

  lemma SameTimeoutsOk(k: Kernel, k': Kernel)
    requires TimeoutsOk(k) && k'.timeouts == k.timeouts
    requires forall u | u in k.timeouts ::
               u in k'.tasks && TaskOf(k', u).wakeup == TaskOf(k, u).wakeup && DueOf(k', u) == DueOf(k, u)
    ensures TimeoutsOk(k')
  {
  }

  lemma SameListsOk(k: Kernel, k': Kernel)
    requires ListsOk(k)
    requires forall id :: At(k', id) == At(k, id)
    requires forall t :: TaskOf(k', t).node == TaskOf(k, t).node
    ensures ListsOk(k')
  {
    forall id ensures ListOk(k', id) {
      assert ListOk(k, id);
    }
  }

  lemma NotOnList(k: Kernel, t: TaskId, id: ListId)
    requires ListsOk(k)
    ensures t in At(k, id) <==> TaskOf(k, t).node == Linked(id)
    ensures NoDup(At(k, id))
  {
    assert ListOk(k, id);
  }

  lemma SameGlobalOk(k: Kernel, k': Kernel)
    requires GlobalOk(k)
    requires k'.current == k.current && k'.idle == k.idle && k'.lockCount == k.lockCount
    requires k'.slice == k.slice && k'.pc == k.pc && k'.arrivals == k.arrivals
    requires forall t | t in k.tasks :: t in k'.tasks
    requires k.lockCount > 0 && CurrentIs(k, Running) ==> CurrentIs(k', Running)
    ensures GlobalOk(k')
  {
    assert forall t :: PcOf(k', t) == PcOf(k, t) && ArrivalOf(k', t) == ArrivalOf(k, t);
  }
}
