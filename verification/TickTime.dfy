/** The 32-bit tick arithmetic of `timer.c`: wrap-around comparison of ticks, and microseconds to ticks. */
module TickTime {

  const WORD := 0x1_0000_0000
  const HALF := 0x8000_0000
  const UINT32_MAX := 0xFFFF_FFFF
  const WORD64 := 0x1_0000_0000_0000_0000
  const FOREVER_US := WORD64 - 1
  const TICK_PERIOD_US := 1000

  type uint32 = x: int | 0 <= x < 0x1_0000_0000
  type uint64 = x: int | 0 <= x < 0x1_0000_0000_0000_0000

  /** The low 32 bits of an unbounded tick number: what the kernel stores. */
  function Low(tick: int): uint32 {
    tick % WORD
  }

  function Sub32(a: uint32, b: uint32): uint32 {
    (a - b) % WORD
  }

  /** `(int32_t)(a - b) < 0` */
  predicate Earlier(a: uint32, b: uint32) {
    Sub32(a, b) >= HALF
  }

  /** `timer_expired`: `(int32_t)(now - deadline) >= 0` */
  predicate Expired(now: uint32, deadline: uint32) {
    Sub32(now, deadline) < HALF
  }

  lemma LowDifference(a: int, b: int)
    ensures Sub32(Low(a), Low(b)) == (a - b) % WORD
  {
    var qa, qb := a / WORD, b / WORD;
    assert a - b == (Low(a) - Low(b)) + WORD * (qa - qb);
    ModShift(Low(a) - Low(b), qa - qb);
  }

  lemma ModShift(x: int, q: int)
    ensures (x + WORD * q) % WORD == x % WORD
  {
  }

  /** Within half the range, the stored 32-bit ticks compare as the absolute ticks do,
      however often the counter has wrapped. */
  lemma ComparesLikeAbsoluteTime(a: int, b: int)
    requires -HALF < a - b < HALF
    ensures Earlier(Low(a), Low(b)) <==> a < b
    ensures Expired(Low(a), Low(b)) <==> b <= a
  {
    LowDifference(a, b);
  }

  /** A timeout of `ticks` reads as already over the moment it is set exactly when it is zero or longer
      than half the range: so the saturated conversion of a huge timeout does not wait at all. */
  lemma ReadsExpiredAtOnceIff(now: int, ticks: uint32)
    ensures Expired(Low(now), Low(now + ticks)) <==> ticks == 0 || ticks > HALF
  {
    LowDifference(now, now + ticks);
  }

  /** `timer_us_to_ticks`, with the 64-bit wrap of the addition. */
  function UsToTicks(us: uint64): uint32 {
    if us == 0 then 0
    else
      var ticks := ((us + TICK_PERIOD_US - 1) % WORD64) / TICK_PERIOD_US;
      if ticks > UINT32_MAX then UINT32_MAX else ticks
  }

  /** A converted timeout, unless it saturates, is at least as long as asked for exactly while the rounding addition
      stays within 64 bits, and then less than a tick longer. It saturates exactly from (2^32 - 2) milliseconds to
      there. */
  lemma TicksCoverTheTimeoutIff(us: uint64)
    ensures (UsToTicks(us) == UINT32_MAX || us <= TICK_PERIOD_US * UsToTicks(us)) <==> us <= WORD64 - TICK_PERIOD_US
    ensures us <= WORD64 - TICK_PERIOD_US ==> us > TICK_PERIOD_US * (UsToTicks(us) - 1)
    ensures UsToTicks(us) == UINT32_MAX <==>
            TICK_PERIOD_US * (UINT32_MAX - 1) < us <= WORD64 - TICK_PERIOD_US
  {
  }

  /** A non-zero timeout becomes zero ticks exactly when the rounding addition wraps at 64 bits. */
  lemma ZeroTicksIff(us: uint64)
    ensures UsToTicks(us) == 0 <==> us == 0 || us > WORD64 - TICK_PERIOD_US
  {
  }
}
