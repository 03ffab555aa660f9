/** `trt_mutex_t` and the bodies of its calls, updating the mutex and the kernel in place. */
module MutexObject {
  import opened Common
  import opened CallOutcome
  import opened TickTime
  import opened KernelState
  import M = Mutex
  import opened Scheduler

  class MutexObject {
    var owner: Option<TaskId>
    var lockCount: uint32
    var destroyed: bool
    const waiters: QueueId
    const kernel: Scheduler

    ghost function Value(): M.Mutex
      reads this
    {
      M.Mutex(waiters, owner, lockCount, destroyed)
    }

    constructor (kernel: Scheduler, waiters: QueueId)
      ensures this.kernel == kernel && Value() == M.InitMutex(waiters)
    {
      this.kernel, this.waiters := kernel, waiters;
      owner, lockCount, destroyed := None, 0, false;
    }

    method TryLock() returns (code: Error)
      modifies this`owner, this`lockCount
      ensures M.Step(kernel.State(), Value(), Returns(code)) == M.TryLock(old(kernel.State()), old(Value()))
    {
      if kernel.current.None? {
        return Invalid;
      }
      if destroyed {
        return WasDestroyed;
      }
      if owner == None {
        owner := kernel.current;
        lockCount := 1;
        return Ok;
      }
      if owner == kernel.current {
        lockCount := Low(lockCount + 1);
        return Ok;
      }
      code := Busy;
    }

    /** `mutex_lock_obj` and `mutex_lock_timeout_obj` up to the `task_yield`. */
    method Lock(us: uint64) returns (outcome: Outcome)
      requires kernel.ticks == Low(kernel.now)
      modifies this`owner, this`lockCount, kernel
      ensures M.Step(kernel.State(), Value(), outcome) == M.Lock(old(kernel.State()), old(Value()), us)
      ensures kernel.ticks == old(kernel.ticks)
    {
      hide BlockTimeout;
      if kernel.current.None? {
        return Returns(Invalid);
      }
      if destroyed {
        return Returns(WasDestroyed);
      }
      if owner == None {
        owner := kernel.current;
        lockCount := 1;
        return Returns(Ok);
      }
      if owner == kernel.current {
        lockCount := Low(lockCount + 1);
        return Returns(Ok);
      }
      var code := kernel.BlockTimeout(waiters, us);
      outcome := if code == Ok then Suspends else Returns(code);
    }

    /** The locks after the `task_yield`; `timed` is which of the two the caller is in. */
    method Awaken(timed: bool) returns (code: Error)
      requires kernel.current.Some?
      requires var pc := PcOf(kernel.State(), kernel.current.value); timed == (pc.Waiting? && pc.timed)
      modifies kernel
      ensures M.Step(kernel.State(), Value(), Returns(code)) == M.Awaken(old(kernel.State()), old(Value()))
      ensures kernel.ticks == old(kernel.ticks)
    {
      var result := kernel.Record(kernel.current.value).result;
      kernel.LeaveCall();
      if result == Destroyed {
        return WasDestroyed;
      }
      if !timed {
        return if owner == kernel.current then Ok else BadState;
      }
      code := if result == Object && owner == kernel.current then Ok else TimedOut;
    }

    method Unlock() returns (code: Error)
      modifies this`owner, this`lockCount, kernel
      ensures M.Step(kernel.State(), Value(), Returns(code)) == M.Unlock(old(kernel.State()), old(Value()))
      ensures kernel.ticks == old(kernel.ticks)
    {
      hide WakeResult;
      if kernel.current.None? {
        return Invalid;
      }
      if destroyed {
        return WasDestroyed;
      }
      if owner != kernel.current || lockCount == 0 {
        return NotPermitted;
      }
      lockCount := lockCount - 1;
      if lockCount != 0 {
        return Ok;
      }
      var next := kernel.WakeOneResult(waiters, Object);
      if next.Some? {
        owner := next;
        lockCount := 1;
      } else {
        owner := None;
      }
      code := Ok;
    }

    method Destroy() returns (code: Error, woken: nat)
      modifies this, kernel
      ensures M.Step(kernel.State(), Value(), Returns(code)) == M.Destroy(old(kernel.State()), old(Value()))
      ensures kernel.ticks == old(kernel.ticks)
      ensures woken == if old(destroyed) then 0 else WakeAll(old(kernel.State()), waiters, Destroyed).1
    {
      hide WakeAll;
      if destroyed {
        return BadState, 0;
      }
      destroyed := true;
      owner, lockCount := None, 0;
      woken := kernel.WakeAllResult(waiters, Destroyed);
      code := Ok;
    }
  }
}
