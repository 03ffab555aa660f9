/** `trt_msg_q_t`: the ring, its two wait queues and the bodies of the calls. One method is one pass of a call's
    retry loop: between two passes the task is switched out. */
module MessageQueueObject {
  import opened Common
  import opened TickTime
  import opened KernelState
  import Q = MessageQueue
  import opened MessageRing
  import opened Scheduler

  class MessageQueueObject {
    const ring: Ring
    var destroyed: bool
    const readers: QueueId
    const writers: QueueId
    const kernel: Scheduler

    ghost predicate Valid()
      reads this, ring, ring.buf, kernel
    {
      ring.Valid() && kernel.ticks == Low(kernel.now)
    }

    /** The queue value: the ring as the messages it holds. */
    ghost function Value(): Q.Mq
      requires ring.Valid()
      reads this, ring, ring.buf
    {
      Q.Mq(readers, writers, ring.cap, ring.qlen, ring.Contents(), destroyed)
    }

    constructor (kernel: Scheduler, readers: QueueId, writers: QueueId, cap: nat, qlen: nat)
      requires cap >= 1 && qlen >= 1 && kernel.ticks == Low(kernel.now)
      ensures this.kernel == kernel && Valid() && Value() == Q.Mq(readers, writers, cap, qlen, [], false)
    {
      this.kernel, this.readers, this.writers, destroyed := kernel, readers, writers, false;
      ring := new Ring(cap, qlen);
    }

    /** What every blocking pass does when it cannot be served. */
    method BlockOn(q: QueueId, us: uint64) returns (outcome: Q.Outcome)
      requires Valid()
      modifies kernel
      ensures Valid()
      ensures (kernel.State(), outcome) ==
              var k := old(kernel.State());
              if us == 0 then (k, Q.Returns(Busy, None))
              else if IsLocked(k) then (k.(pending := true), Q.Returns(Locked, None))
              else var (k', code) := BlockTimeout(k, q, us);
                   (k', if code == Ok then Q.Suspends else Q.Returns(code, None))
    {
      hide BlockTimeout;
      if us == 0 {
        return Q.Returns(Busy, None);
      }
      if kernel.lockCount != 0 {
        kernel.pending := true;
        return Q.Returns(Locked, None);
      }
      var code := kernel.BlockTimeout(q, us);
      outcome := if code == Ok then Q.Suspends else Q.Returns(code, None);
    }

    /** One pass of `msg_q_send_obj`, or of `msg_q_send_front_obj` when `front`. */
    method Send(front: bool, data: seq<byte>, us: uint64) returns (outcome: Q.Outcome)
      requires Valid()
      modifies kernel, ring, ring.buf
      ensures Valid()
      ensures Q.Step(kernel.State(), Value(), outcome) ==
              Q.Attempt(old(kernel.State()), old(Value()), Q.Send(front, data), us)
    {
      hide BlockTimeout, WakeResult, Held;
      if |data| == 0 || |data| > ring.cap {
        return Q.Returns(Invalid, None);
      }
      if destroyed {
        return Q.Returns(WasDestroyed, None);
      }
      var full := ring.IsFull();
      if !full {
        if front {
          ring.PushFront(data);
        } else {
          ring.PushBack(data);
        }
        var _ := kernel.WakeOneResult(readers, Object);
        return Q.Returns(Ok, None);
      }
      outcome := BlockOn(writers, us);
    }

    /** One pass of `msg_q_recv_obj`. */
    method Recv(us: uint64) returns (outcome: Q.Outcome)
      requires Valid()
      modifies kernel, ring
      ensures Valid()
      ensures Q.Step(kernel.State(), Value(), outcome) ==
              Q.Attempt(old(kernel.State()), old(Value()), Q.Recv, us)
    {
      hide BlockTimeout, WakeResult, Held;
      if destroyed {
        return Q.Returns(WasDestroyed, None);
      }
      var empty := ring.IsEmpty();
      if !empty {
        var message := ring.PopFront();
        var _ := kernel.WakeOneResult(writers, Object);
        return Q.Returns(Ok, Some(message));
      }
      outcome := BlockOn(readers, us);
    }

    /** One pass of `msg_q_peek_obj`: the wake-up that brought the caller here is passed on. */
    method Peek(us: uint64) returns (outcome: Q.Outcome)
      requires Valid()
      modifies kernel
      ensures Valid()
      ensures Q.Step(kernel.State(), Value(), outcome) ==
              Q.Attempt(old(kernel.State()), old(Value()), Q.Peek, us)
    {
      hide BlockTimeout, WakeResult, Held;
      if destroyed {
        return Q.Returns(WasDestroyed, None);
      }
      var empty := ring.IsEmpty();
      if !empty {
        var message := ring.Front();
        var _ := kernel.WakeOneResult(readers, Object);
        return Q.Returns(Ok, Some(message));
      }
      outcome := BlockOn(readers, us);
    }

    method SendFromIsr(data: seq<byte>) returns (code: Error)
      requires Valid()
      modifies kernel, ring, ring.buf
      ensures Valid()
      ensures Q.Step(kernel.State(), Value(), Q.Returns(code, None)) ==
              Q.FromIsr(old(kernel.State()), old(Value()), Q.Send(false, data))
    {
      hide WakeFromIsr, Held;
      if |data| == 0 || |data| > ring.cap {
        return Invalid;
      }
      if destroyed {
        return WasDestroyed;
      }
      var full := ring.IsFull();
      if full {
        return Busy;
      }
      ring.PushBack(data);
      var _ := kernel.WakeOneFromIsr(readers);
      code := Ok;
    }

    method RecvFromIsr() returns (code: Error, message: Option<Message>)
      requires Valid()
      modifies kernel, ring
      ensures Valid()
      ensures Q.Step(kernel.State(), Value(), Q.Returns(code, message)) ==
              Q.FromIsr(old(kernel.State()), old(Value()), Q.Recv)
    {
      hide WakeFromIsr, Held;
      if destroyed {
        return WasDestroyed, None;
      }
      var empty := ring.IsEmpty();
      if empty {
        return Busy, None;
      }
      var first := ring.PopFront();
      var _ := kernel.WakeOneFromIsr(writers);
      code, message := Ok, Some(first);
    }

    method PeekFromIsr() returns (code: Error, message: Option<Message>)
      requires Valid()
      modifies kernel
      ensures Valid()
      ensures Q.Step(kernel.State(), Value(), Q.Returns(code, message)) ==
              Q.FromIsr(old(kernel.State()), old(Value()), Q.Peek)
    {
      hide WakeFromIsr, Held;
      if destroyed {
        return WasDestroyed, None;
      }
      var empty := ring.IsEmpty();
      if empty {
        return Busy, None;
      }
      var first := ring.Front();
      var _ := kernel.WakeOneFromIsr(readers);
      code, message := Ok, Some(first);
    }

    method Destroy() returns (code: Error, woken: nat)
      requires Valid()
      modifies this, kernel
      ensures Valid()
      ensures Q.Step(kernel.State(), Value(), Q.Returns(code, None)) ==
              Q.Destroy(old(kernel.State()), old(Value()))
      ensures woken == if old(destroyed) then 0
                       else var (k', read) := WakeAll(old(kernel.State()), readers, Destroyed);
                            read + WakeAll(k', writers, Destroyed).1
    {
      hide WakeAll, Held;
      if destroyed {
        return BadState, 0;
      }
      destroyed := true;
      woken := kernel.WakeAllResult(readers, Destroyed);
      var writerCount := kernel.WakeAllResult(writers, Destroyed);
      woken := woken + writerCount;
      code := Ok;
    }
  }

  /** `msg_q_create_obj`: no queue for a zero dimension or when memory runs out. */
  method Create(kernel: Scheduler, readers: QueueId, writers: QueueId, cap: nat, qlen: nat, enough: bool)
    returns (mq: MessageQueueObject?)
    requires kernel.ticks == Low(kernel.now)
    ensures mq == null <==> cap == 0 || qlen == 0 || !enough
    ensures mq != null ==>
              && fresh(mq) && mq.kernel == kernel && mq.Valid()
              && mq.Value() == Q.Mq(readers, writers, cap, qlen, [], false)
  {
    if cap == 0 || qlen == 0 || !enough {
      return null;
    }
    mq := new MessageQueueObject(kernel, readers, writers, cap, qlen);
  }
}
