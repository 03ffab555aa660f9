/** `trt_sem_t` and the bodies of its calls, updating the semaphore and the kernel in place. */
module SemaphoreObject {
  import opened Common
  import opened CallOutcome
  import opened TickTime
  import opened KernelState
  import S = Semaphore
  import opened Scheduler

  class SemaphoreObject {
    var cnt: int
    var max: int
    var destroyed: bool
    const waiters: QueueId
    const kernel: Scheduler

    ghost function Value(): S.Sem
      reads this
    {
      S.Sem(waiters, cnt, max, destroyed)
    }

    constructor (kernel: Scheduler, waiters: QueueId, max: int, cnt: int)
      ensures this.kernel == kernel && Value() == S.InitSem(waiters, max, cnt)
      ensures S.InBounds(Value()) <==> max >= 0 || cnt >= 0
    {
      this.kernel, this.waiters := kernel, waiters;
      this.cnt := if cnt < 0 then 0 else cnt;
      this.max := if max < cnt then cnt else max;
      destroyed := false;
    }

    method Post() returns (code: Error)
      modifies this`cnt, kernel
      ensures S.Step(kernel.State(), Value(), Returns(code)) == S.Post(old(kernel.State()), old(Value()), false)
      ensures kernel.ticks == old(kernel.ticks)
    {
      hide WakeResult;
      if destroyed {
        return WasDestroyed;
      }
      if kernel.ListAt(WaitList(waiters)) != [] {
        var _ := kernel.WakeOneResult(waiters, Object);
        return Ok;
      }
      if cnt == max {
        return Busy;
      }
      cnt := cnt + 1;
      code := Ok;
    }

    method PostFromIsr() returns (code: Error)
      modifies this`cnt, kernel
      ensures S.Step(kernel.State(), Value(), Returns(code)) == S.Post(old(kernel.State()), old(Value()), true)
      ensures kernel.ticks == old(kernel.ticks)
    {
      hide WakeFromIsr;
      if destroyed {
        return WasDestroyed;
      }
      if kernel.ListAt(WaitList(waiters)) != [] {
        var _ := kernel.WakeOneFromIsr(waiters);
        return Ok;
      }
      if cnt == max {
        return Busy;
      }
      cnt := cnt + 1;
      kernel.pending := true;
      code := Ok;
    }

    /** `sem_wait_obj` and `sem_wait_timeout_obj` up to the `task_yield`. */
    method Wait(us: uint64) returns (outcome: Outcome)
      requires kernel.ticks == Low(kernel.now)
      modifies this`cnt, kernel
      ensures S.Step(kernel.State(), Value(), outcome) == S.Wait(old(kernel.State()), old(Value()), us)
      ensures kernel.ticks == old(kernel.ticks)
    {
      hide BlockTimeout;
      if destroyed {
        return Returns(WasDestroyed);
      }
      if cnt > 0 {
        cnt := cnt - 1;
        return Returns(Ok);
      }
      if kernel.lockCount != 0 {
        kernel.pending := true;
        return Returns(Locked);
      }
      var code := kernel.BlockTimeout(waiters, us);
      outcome := if code == Ok then Suspends else Returns(code);
    }

    /** The waits after the `task_yield`; `timed` is which of the two the caller is in. */
    method Awaken(timed: bool) returns (code: Error)
      requires kernel.current.Some?
      requires var pc := PcOf(kernel.State(), kernel.current.value); timed == (pc.Waiting? && pc.timed)
      modifies kernel
      ensures S.Step(kernel.State(), Value(), Returns(code)) == S.Awaken(old(kernel.State()), old(Value()))
      ensures kernel.ticks == old(kernel.ticks)
    {
      var result := kernel.Record(kernel.current.value).result;
      kernel.LeaveCall();
      if result == Object {
        return Ok;
      }
      if result == Destroyed {
        return WasDestroyed;
      }
      code := if timed then TimedOut else BadState;
    }

    method TryWait() returns (code: Error)
      modifies this`cnt
      ensures S.Step(kernel.State(), Value(), Returns(code)) == S.TryWait(old(kernel.State()), old(Value()))
    {
      if destroyed {
        return WasDestroyed;
      }
      if cnt == 0 {
        return Busy;
      }
      cnt := cnt - 1;
      code := Ok;
    }

    method Destroy() returns (code: Error, woken: nat)
      modifies this`destroyed, this`cnt, kernel
      ensures S.Step(kernel.State(), Value(), Returns(code)) == S.Destroy(old(kernel.State()), old(Value()))
      ensures kernel.ticks == old(kernel.ticks)
      ensures woken == if old(destroyed) then 0 else WakeAll(old(kernel.State()), waiters, Destroyed).1
    {
      hide WakeAll;
      if destroyed {
        return BadState, 0;
      }
      destroyed := true;
      cnt := 0;
      woken := kernel.WakeAllResult(waiters, Destroyed);
      code := Ok;
    }
  }
}
