/** The software timers of `timer.c`: a list in deadline order under wrap-around comparison, and the loop that
    fires expired timers and puts periodic ones back. */
module Timers {
  import opened Common
  import opened TickTime

  type TimerId = nat

  /** The active timers in list order, with the unbounded tick behind each stored deadline. */
  datatype Active = Active(id: TimerId, deadline: nat, period: uint32)

  /** Firings due to one timer by tick `now`: once if it is one-shot and expired, and for a periodic timer once at
      its deadline and once for every whole period since. */
  function Due(t: Active, now: nat): nat {
    if now < t.deadline then 0
    else if t.period == 0 then 1
    else (now - t.deadline) / t.period + 1
  }

  function DueInAll(ts: seq<Active>, now: nat): nat {
    if ts == [] then 0 else Due(ts[0], now) + DueInAll(ts[1..], now)
  }

  /** Firings due to timer `id`. */
  function DueTo(ts: seq<Active>, id: TimerId, now: nat): nat {
    if ts == [] then 0 else (if ts[0].id == id then Due(ts[0], now) else 0) + DueTo(ts[1..], id, now)
  }

  ghost predicate Sorted(ts: seq<Active>) {
    forall i, j | 0 <= i < j < |ts| :: ts[i].deadline <= ts[j].deadline
  }

  /** All deadlines lie in a window shorter than half the 32-bit range: `late` ticks back, `ahead` ticks on. */
  ghost predicate InWindow(ts: seq<Active>, now: nat, late: nat, ahead: nat) {
    forall t | t in ts :: now <= t.deadline + late && t.deadline <= now + ahead && t.period <= ahead
  }

  /** Where `timer_insert_locked` puts a deadline, comparing 32-bit values. */
  function Position(ts: seq<Active>, deadline: nat): (i: nat)
    ensures i <= |ts|
  {
    if ts == [] || Earlier(Low(deadline), Low(ts[0].deadline)) then 0 else 1 + Position(ts[1..], deadline)
  }

  /** `timer_insert_locked` */
  function Insert(ts: seq<Active>, t: Active): seq<Active> {
    InsertAt(ts, Position(ts, t.deadline), t)
  }

  /** One firing: the first timer leaves the list, or goes back one period later. */
  function FireFirst(ts: seq<Active>): seq<Active>
    requires ts != []
  {
    var t := ts[0];
    if t.period == 0 then ts[1..] else Insert(ts[1..], t.(deadline := t.deadline + t.period))
  }

  // ----- insertion

  lemma {:induction false} PositionSplits(ts: seq<Active>, deadline: nat)
    requires Sorted(ts)
    requires forall t | t in ts :: -HALF < deadline - t.deadline < HALF
    ensures var at := Position(ts, deadline);
            && (forall i | 0 <= i < at :: ts[i].deadline <= deadline)
            && (forall i | at <= i < |ts| :: deadline < ts[i].deadline)
  {
    if ts != [] {
      assert ts[0] in ts;
      ComparesLikeAbsoluteTime(deadline, ts[0].deadline);
      if deadline >= ts[0].deadline {
        assert forall t | t in ts[1..] :: t in ts;
        PositionSplits(ts[1..], deadline);
        assert forall i | 1 <= i < |ts| :: ts[i] == ts[1..][i - 1];
      }
    }
  }

  lemma InsertHas(ts: seq<Active>, t: Active)
    ensures forall u :: u in Insert(ts, t) <==> u in ts || u == t
  {
    var at := Position(ts, t.deadline);
    var s := Insert(ts, t);
    assert s[at] == t;
    forall u ensures u in s <==> u in ts || u == t {
      if u in ts {
        var k :| 0 <= k < |ts| && ts[k] == u;
        assert s[if k < at then k else k + 1] == u;
      }
    }
  }

  /** Inserting under the wrap-around comparison keeps the list in order of absolute deadline, if all deadlines
      are within half the range of the new one. */
  lemma InsertSorted(ts: seq<Active>, t: Active)
    requires Sorted(ts) && forall u | u in ts :: -HALF < t.deadline - u.deadline < HALF
    ensures Sorted(Insert(ts, t))
    ensures forall u :: u in Insert(ts, t) <==> u in ts || u == t
  {
    PositionSplits(ts, t.deadline);
    InsertHas(ts, t);
    hide InsertAt;
    var at := Position(ts, t.deadline);
    var s := Insert(ts, t);
    assert |s| == |ts| + 1 by {
      InsertLength(ts, at, t);
    }
    forall i, j | 0 <= i < j < |s| ensures s[i].deadline <= s[j].deadline {
      InsertAtIndex(ts, at, t, i);
      InsertAtIndex(ts, at, t, j);
    }
  }

  lemma InsertLength(ts: seq<Active>, i: nat, t: Active)
    requires i <= |ts|
    ensures |InsertAt(ts, i, t)| == |ts| + 1
  {
  }

  lemma {:induction false} DueConcat(a: seq<Active>, b: seq<Active>, id: TimerId, now: nat)
    ensures DueTo(a + b, id, now) == DueTo(a, id, now) + DueTo(b, id, now)
    ensures DueInAll(a + b, now) == DueInAll(a, now) + DueInAll(b, now)
  {
    if a == [] {
      assert a + b == b;
    } else {
      assert (a + b)[1..] == a[1..] + b;
      DueConcat(a[1..], b, id, now);
    }
  }

  lemma DueInsert(ts: seq<Active>, t: Active, id: TimerId, now: nat)
    ensures DueTo(Insert(ts, t), id, now) == DueTo(ts, id, now) + (if t.id == id then Due(t, now) else 0)
    ensures DueInAll(Insert(ts, t), now) == DueInAll(ts, now) + Due(t, now)
  {
    var at := Position(ts, t.deadline);
    var a, b := ts[..at], ts[at..];
    assert Insert(ts, t) == (a + [t]) + b;
    assert ts == a + b;
    DueConcat(a + [t], b, id, now);
    DueConcat(a, [t], id, now);
    DueConcat(a, b, id, now);
    assert [t][1..] == [];
  }

  /** A firing takes exactly one from what is due to its timer. */
  lemma OnePeriodLess(t: Active, now: nat)
    requires t.deadline <= now && t.period > 0
    ensures Due(t.(deadline := t.deadline + t.period), now) == Due(t, now) - 1
  {
    var x, p := now - t.deadline, t.period;
    if x >= p {
      assert (x - p) / p == x / p - 1 by {
        DivMinusOne(x, p);
      }
    } else {
      assert x / p == 0 by {
        SmallDiv(x, p);
      }
    }
  }

  lemma DivMinusOne(x: nat, p: nat)
    requires 0 < p <= x
    ensures (x - p) / p == x / p - 1
  {
    var q, r := x / p, x % p;
    assert x == p * q + r;
    assert x - p == p * (q - 1) + r;
    DivUnique(x - p, p, q - 1, r);
  }

  lemma DivUnique(x: int, p: nat, q: int, r: int)
    requires p > 0 && 0 <= r < p && x == p * q + r
    ensures x / p == q
  {
    var d := x / p - q;
    assert p * d == r - x % p;
    MultipleOutside(p, d);
  }

  lemma MultipleOutside(p: nat, d: int)
    ensures d > 0 ==> p * d >= p
    ensures d < 0 ==> p * d <= 0 - p
  {
    if d > 0 {
      AtLeastOnce(p, d);
    }
    if d < 0 {
      AtLeastOnce(p, -d);
      assert p * d == 0 - p * (-d);
    }
  }

  lemma {:induction false} AtLeastOnce(p: nat, d: nat)
    requires d > 0
    ensures p * d >= p
  {
    if d > 1 {
      AtLeastOnce(p, d - 1);
      assert p * d == p * (d - 1) + p;
    }
  }

  lemma SmallDiv(x: nat, p: nat)
    requires x < p
    ensures x / p == 0
  {
    DivUnique(x, p, 0, x);
  }

  lemma RestOfSorted(ts: seq<Active>)
    requires ts != [] && Sorted(ts)
    ensures Sorted(ts[1..])
    ensures forall u | u in ts[1..] :: u in ts && ts[0].deadline <= u.deadline
  {
    forall u | u in ts[1..] ensures ts[0].deadline <= u.deadline {
      var i :| 0 <= i < |ts[1..]| && ts[1..][i] == u;
      assert ts[i + 1] == u;
    }
  }

  lemma FireFirstOrder(ts: seq<Active>, now: nat, late: nat, ahead: nat)
    requires ts != [] && Sorted(ts) && InWindow(ts, now, late, ahead) && late + ahead < HALF
    requires ts[0].deadline <= now
    ensures var ts' := FireFirst(ts);
            && Sorted(ts') && InWindow(ts', now, late, ahead)
            && forall t | t in ts' :: ts[0].deadline <= t.deadline
  {
    hide Insert, Sorted;
    RestOfSorted(ts);
    assert ts[0] in ts;
    if ts[0].period != 0 {
      InsertSorted(ts[1..], ts[0].(deadline := ts[0].deadline + ts[0].period));
    }
  }

  lemma FireFirstDue(ts: seq<Active>, id: TimerId, now: nat)
    requires ts != [] && ts[0].deadline <= now
    ensures DueInAll(FireFirst(ts), now) == DueInAll(ts, now) - 1
    ensures DueTo(FireFirst(ts), id, now) == DueTo(ts, id, now) - (if id == ts[0].id then 1 else 0)
  {
    hide Insert;
    var t := ts[0];
    if t.period != 0 {
      OnePeriodLess(t, now);
      DueInsert(ts[1..], t.(deadline := t.deadline + t.period), id, now);
    }
  }

  /** What one pass of the firing loop does: its timer's due count drops by one, nobody else's changes, the order
      and the window are kept. */
  lemma FireFirstKeeps(ts: seq<Active>, now: nat, late: nat, ahead: nat)
    requires ts != [] && Sorted(ts) && InWindow(ts, now, late, ahead) && late + ahead < HALF
    requires ts[0].deadline <= now
    ensures var ts' := FireFirst(ts);
            && Sorted(ts') && InWindow(ts', now, late, ahead)
            && DueInAll(ts', now) == DueInAll(ts, now) - 1
            && (forall id :: DueTo(ts', id, now) == DueTo(ts, id, now) - (if id == ts[0].id then 1 else 0))
            && forall t | t in ts' :: ts[0].deadline <= t.deadline
  {
    hide FireFirst, Sorted, InWindow, Due, DueTo, DueInAll;
    FireFirstOrder(ts, now, late, ahead);
    FireFirstDue(ts, 0, now);
    forall id ensures DueTo(FireFirst(ts), id, now) == DueTo(ts, id, now) - (if id == ts[0].id then 1 else 0) {
      FireFirstDue(ts, id, now);
    }
  }

  lemma {:induction false} NothingDueLeft(ts: seq<Active>, now: nat)
    requires forall t | t in ts :: now < t.deadline
    ensures DueInAll(ts, now) == 0
  {
    if ts != [] {
      assert ts[0] in ts;
      assert forall t | t in ts[1..] :: t in ts;
      NothingDueLeft(ts[1..], now);
    }
  }

  // ----- the firing loop

  /** `timer_run_expired`: the timers afterwards and the firings, in order, with their deadlines. */
  function RunExpired(ts: seq<Active>, now: nat, ghost late: nat, ghost ahead: nat): (seq<Active>, seq<(TimerId, nat)>)
    requires Sorted(ts) && InWindow(ts, now, late, ahead) && late + ahead < HALF
    decreases DueInAll(ts, now)
  {
    if ts == [] || !Expired(Low(now), Low(ts[0].deadline)) then (ts, [])
    else
      FirstInWindow(ts, now, late, ahead);
      FireFirstKeeps(ts, now, late, ahead);
      var (end, log) := RunExpired(FireFirst(ts), now, late, ahead);
      (end, [(ts[0].id, ts[0].deadline)] + log)
  }

  lemma RunExpiredUnfolds(ts: seq<Active>, now: nat, late: nat, ahead: nat)
    requires Sorted(ts) && InWindow(ts, now, late, ahead) && late + ahead < HALF
    ensures ts == [] || now < ts[0].deadline ==> RunExpired(ts, now, late, ahead) == (ts, [])
    ensures ts != [] && ts[0].deadline <= now ==>
              var ts' := FireFirst(ts);
              && Sorted(ts') && InWindow(ts', now, late, ahead) && DueInAll(ts', now) < DueInAll(ts, now)
              && var (left, fired) := RunExpired(ts', now, late, ahead);
                 RunExpired(ts, now, late, ahead) == (left, [(ts[0].id, ts[0].deadline)] + fired)
  {
    hide Sorted, InWindow, DueInAll, FireFirst;
    if ts != [] {
      FirstInWindow(ts, now, late, ahead);
      if ts[0].deadline <= now {
        FireFirstKeeps(ts, now, late, ahead);
      }
    }
  }

  lemma FirstInWindow(ts: seq<Active>, now: nat, late: nat, ahead: nat)
    requires ts != [] && InWindow(ts, now, late, ahead) && late + ahead < HALF
    ensures Expired(Low(now), Low(ts[0].deadline)) <==> ts[0].deadline <= now
  {
    assert ts[0] in ts;
    ComparesLikeAbsoluteTime(now, ts[0].deadline);
  }

  function CountOf(log: seq<(TimerId, nat)>, id: TimerId): nat {
    if log == [] then 0 else (if log[0].0 == id then 1 else 0) + CountOf(log[1..], id)
  }

  ghost predicate InOrder(log: seq<(TimerId, nat)>) {
    forall i, j | 0 <= i < j < |log| :: log[i].1 <= log[j].1
  }

  /** The loop ends with every deadline still to come; each timer has fired exactly as often as was due to it, and
      the firings came in deadline order. */
  lemma {:induction false} FiresExactlyWhatIsDue(ts: seq<Active>, now: nat, late: nat, ahead: nat)
    requires Sorted(ts) && InWindow(ts, now, late, ahead) && late + ahead < HALF
    ensures var (end, log) := RunExpired(ts, now, late, ahead);
            && Sorted(end) && InWindow(end, now, late, ahead)
            && (forall t | t in end :: now < t.deadline)
            && (forall id :: CountOf(log, id) == DueTo(ts, id, now))
            && InOrder(log)
            && |log| == DueInAll(ts, now)
            && (ts != [] ==> forall i | 0 <= i < |log| :: ts[0].deadline <= log[i].1 <= now)
            && (log != [] ==> ts != [])
    decreases DueInAll(ts, now)
  {
    if ts == [] || !Expired(Low(now), Low(ts[0].deadline)) {
      if ts != [] {
        FirstInWindow(ts, now, late, ahead);
      }
      AllAfterFirst(ts, now);
      NothingDueLeft(ts, now);
      forall id ensures DueTo(ts, id, now) == 0 {
        NothingDueTo(ts, id, now);
      }
    } else {
      FirstInWindow(ts, now, late, ahead);
      FireFirstKeeps(ts, now, late, ahead);
      var next := FireFirst(ts);
      FiresExactlyWhatIsDue(next, now, late, ahead);
      var (end, log) := RunExpired(next, now, late, ahead);
      assert next != [] ==> next[0] in next;
      LogCons((ts[0].id, ts[0].deadline), log);
    }
  }

  lemma AllAfterFirst(ts: seq<Active>, now: nat)
    requires Sorted(ts) && (ts != [] ==> now < ts[0].deadline)
    ensures forall t | t in ts :: now < t.deadline
  {
    forall t | t in ts ensures now < t.deadline {
      var i :| 0 <= i < |ts| && ts[i] == t;
    }
  }

  lemma {:induction false} NothingDueTo(ts: seq<Active>, id: TimerId, now: nat)
    requires forall t | t in ts :: now < t.deadline
    ensures DueTo(ts, id, now) == 0
  {
    if ts != [] {
      assert ts[0] in ts;
      assert forall t | t in ts[1..] :: t in ts;
      NothingDueTo(ts[1..], id, now);
    }
  }

  lemma LogCons(e: (TimerId, nat), log: seq<(TimerId, nat)>)
    ensures forall id :: CountOf([e] + log, id) == (if e.0 == id then 1 else 0) + CountOf(log, id)
    ensures InOrder(log) && (forall i | 0 <= i < |log| :: e.1 <= log[i].1) ==> InOrder([e] + log)
  {
    assert ([e] + log)[1..] == log;
  }

  // ----- one timer across a call

  /** A periodic timer across one call: what was fired and what is still due later add up. */
  lemma DueSplits(deadline: nat, period: uint32, t1: nat, t2: nat)
    requires period > 0 && t1 <= t2
    ensures var id := 0;
            var fired := Due(Active(id, deadline, period), t1);
            Due(Active(id, deadline, period), t2) ==
            fired + Due(Active(id, deadline + period * fired, period), t2)
  {
    if t1 >= deadline {
      WholePeriods(t1 - deadline, t2 - deadline, period);
      Distribute(period, (t1 - deadline) / period, 1);
    }
  }

  /** Whole periods up to `b`, counted from the next multiple after `a`. */
  lemma WholePeriods(a: nat, b: nat, p: nat)
    requires p > 0 && a <= b
    ensures var next := p * (a / p) + p;
            && a < next
            && b / p == if b < next then a / p else a / p + 1 + (b - next) / p
  {
    var q := a / p;
    var next := p * q + p;
    assert a == p * q + a % p;
    if b < next {
      DivUnique(b, p, q, b - p * q);
    } else {
      var c := b - next;
      assert c == p * (c / p) + c % p;
      Distribute(p, c / p, q + 1);
      DivUnique(b, p, c / p + q + 1, c % p);
    }
  }

  lemma Distribute(p: int, x: int, y: int)
    ensures p * (x + y) == p * x + p * y
  {
  }

  /** The deadline a periodic timer has after the loop has run at tick `now`. */
  function DeadlineAfter(deadline: nat, period: uint32, now: nat): nat {
    deadline + period * Due(Active(0, deadline, period), now)
  }

  /** The loop leaves a periodic timer with exactly the deadline its firings account for. */
  lemma {:induction false} LeavesDeadlineAfter(ts: seq<Active>, now: nat, late: nat, ahead: nat, t: Active)
    requires Sorted(ts) && InWindow(ts, now, late, ahead) && late + ahead < HALF
    requires t in ts && t.period > 0
    ensures t.(deadline := DeadlineAfter(t.deadline, t.period, now)) in RunExpired(ts, now, late, ahead).0
    decreases DueInAll(ts, now)
  {
    hide Sorted, InWindow, FireFirst, DueInAll;
    if ts[0].deadline > now {
      FirstInWindow(ts, now, late, ahead);
      AllAfterFirst(ts, now);
      assert DeadlineAfter(t.deadline, t.period, now) == t.deadline;
    } else {
      FirstInWindow(ts, now, late, ahead);
      FireFirstKeeps(ts, now, late, ahead);
      var first, rest := ts[0], ts[1..];
      var again := first.(deadline := first.deadline + first.period);
      FireFirstMembers(ts, now, late, ahead);
      if t == first {
        OnePeriodLess(t, now);
        Distribute(t.period, 1, Due(again, now));
        LeavesDeadlineAfter(FireFirst(ts), now, late, ahead, again);
      } else {
        LeavesDeadlineAfter(FireFirst(ts), now, late, ahead, t);
      }
    }
  }

  lemma FireFirstMembers(ts: seq<Active>, now: nat, late: nat, ahead: nat)
    requires ts != [] && Sorted(ts) && InWindow(ts, now, late, ahead) && late + ahead < HALF
    ensures forall u | u in ts && u != ts[0] :: u in FireFirst(ts)
    ensures ts[0].period > 0 ==> ts[0].(deadline := ts[0].deadline + ts[0].period) in FireFirst(ts)
  {
    var t, rest := ts[0], ts[1..];
    forall u | u in ts && u != t ensures u in rest {
      var i :| 0 <= i < |ts| && ts[i] == u;
      assert rest[i - 1] == u;
    }
    if t.period > 0 {
      InsertHas(rest, t.(deadline := t.deadline + t.period));
    }
  }

  // ----- which timers are active

  ghost predicate HasId(ts: seq<Active>, id: TimerId) {
    exists t | t in ts :: t.id == id
  }

  ghost predicate Distinct(ts: seq<Active>) {
    forall i, j | 0 <= i < j < |ts| :: ts[i].id != ts[j].id
  }

  /** `list_del_init` of the timer `id`, if it is active. */
  function Removed(ts: seq<Active>, id: TimerId): seq<Active> {
    if ts == [] then []
    else if ts[0].id == id then ts[1..]
    else [ts[0]] + Removed(ts[1..], id)
  }

  lemma {:induction false} RemovedIs(ts: seq<Active>, id: TimerId)
    requires Distinct(ts)
    ensures forall u :: u in Removed(ts, id) <==> u in ts && u.id != id
    ensures Distinct(Removed(ts, id))
    ensures Sorted(ts) ==> Sorted(Removed(ts, id))
  {
    if ts != [] {
      hide Distinct, Sorted;
      var rest := ts[1..];
      RestMembers(ts);
      RemovedIs(rest, id);
      if ts[0].id != id {
        ConsKeeps(ts[0], Removed(rest, id));
      }
    }
  }

  lemma ConsKeeps(t: Active, ts: seq<Active>)
    requires Distinct(ts) && forall u | u in ts :: u.id != t.id
    ensures Distinct([t] + ts)
    ensures Sorted(ts) && (forall u | u in ts :: t.deadline <= u.deadline) ==> Sorted([t] + ts)
    ensures forall u :: u in [t] + ts <==> u == t || u in ts
  {
  }

  lemma RestMembers(ts: seq<Active>)
    requires ts != [] && Distinct(ts)
    ensures Distinct(ts[1..])
    ensures forall u :: u in ts[1..] <==> u in ts && u.id != ts[0].id
    ensures Sorted(ts) ==> Sorted(ts[1..]) && forall u | u in ts[1..] :: ts[0].deadline <= u.deadline
  {
    forall u ensures u in ts[1..] <==> u in ts && u.id != ts[0].id {
      if u in ts && u != ts[0] {
        var i :| 0 <= i < |ts| && ts[i] == u;
        assert ts[1..][i - 1] == u;
      }
      if u in ts[1..] {
        var i :| 0 <= i < |ts[1..]| && ts[1..][i] == u;
        assert ts[i + 1] == u;
      }
    }
    if Sorted(ts) {
      RestOfSorted(ts);
    }
  }

  lemma InsertDistinct(ts: seq<Active>, t: Active)
    requires Distinct(ts) && !HasId(ts, t.id)
    ensures Distinct(Insert(ts, t))
  {
    var at := Position(ts, t.deadline);
    var s := Insert(ts, t);
    InsertLength(ts, at, t);
    hide InsertAt;
    assert forall i | 0 <= i < |ts| :: ts[i] in ts;
    forall i, j | 0 <= i < j < |s| ensures s[i].id != s[j].id {
      InsertAtIndex(ts, at, t, i);
      InsertAtIndex(ts, at, t, j);
    }
  }

  lemma FireFirstIds(ts: seq<Active>)
    requires ts != [] && Distinct(ts)
    ensures Distinct(FireFirst(ts))
    ensures forall id :: HasId(FireFirst(ts), id) ==> HasId(ts, id)
    ensures ts[0].period == 0 ==> !HasId(FireFirst(ts), ts[0].id)
  {
    hide Insert, Sorted;
    RestMembers(ts);
    assert ts[0] in ts;
    if ts[0].period != 0 {
      var again := ts[0].(deadline := ts[0].deadline + ts[0].period);
      InsertDistinct(ts[1..], again);
      InsertHas(ts[1..], again);
    }
  }

  /** The loop starts no timer, and ends every one-shot timer that had expired. */
  lemma {:induction false} RunExpiredIds(ts: seq<Active>, now: nat, late: nat, ahead: nat)
    requires Sorted(ts) && InWindow(ts, now, late, ahead) && late + ahead < HALF && Distinct(ts)
    ensures var end := RunExpired(ts, now, late, ahead).0;
            && Distinct(end)
            && (forall id :: HasId(end, id) ==> HasId(ts, id))
            && (forall t | t in ts && t.period == 0 && t.deadline <= now :: !HasId(end, t.id))
    decreases DueInAll(ts, now)
  {
    hide FireFirst, HasId, Sorted, InWindow, Distinct, DueInAll;
    if ts == [] || !Expired(Low(now), Low(ts[0].deadline)) {
      if ts != [] {
        FirstInWindow(ts, now, late, ahead);
      }
      AllAfterFirst(ts, now);
    } else {
      FirstInWindow(ts, now, late, ahead);
      FireFirstKeeps(ts, now, late, ahead);
      FireFirstIds(ts);
      FireFirstMembers(ts, now, late, ahead);
      RunExpiredIds(FireFirst(ts), now, late, ahead);
    }
  }

  /** With distinct timers, what is due to an id is what is due to its timer. */
  lemma {:induction false} DueToIsDue(ts: seq<Active>, t: Active, now: nat)
    requires Distinct(ts) && t in ts
    ensures DueTo(ts, t.id, now) == Due(t, now)
  {
    hide Due;
    RestMembers(ts);
    if ts[0] == t {
      NotDueTo(ts[1..], t.id, now);
    } else {
      var i :| 0 <= i < |ts| && ts[i] == t;
      DueToIsDue(ts[1..], t, now);
    }
  }

  lemma {:induction false} NotDueTo(ts: seq<Active>, id: TimerId, now: nat)
    requires !HasId(ts, id)
    ensures DueTo(ts, id, now) == 0
  {
    if ts != [] {
      assert ts[0] in ts;
      assert forall u | u in ts[1..] :: u in ts;
      NotDueTo(ts[1..], id, now);
    }
  }

  /** A timer not yet expired is left alone. */
  lemma {:induction false} LeavesWaiting(ts: seq<Active>, now: nat, late: nat, ahead: nat, t: Active)
    requires Sorted(ts) && InWindow(ts, now, late, ahead) && late + ahead < HALF
    requires t in ts && now < t.deadline
    ensures t in RunExpired(ts, now, late, ahead).0
    decreases DueInAll(ts, now)
  {
    hide Sorted, InWindow, FireFirst, DueInAll;
    FirstInWindow(ts, now, late, ahead);
    if ts[0].deadline <= now {
      FireFirstKeeps(ts, now, late, ahead);
      FireFirstMembers(ts, now, late, ahead);
      LeavesWaiting(FireFirst(ts), now, late, ahead, t);
    }
  }

  // ----- runs

  datatype Op =
    | StartTimer(id: TimerId, delay: uint32, period: uint32)
    | StopTimer(id: TimerId)
    | Tick(jump: nat)

  datatype State = State(active: seq<Active>, now: nat)

  /** Between calls of the loop no deadline is past and none further off than `ahead`. */
  ghost predicate Settled(s: State, ahead: nat) {
    Sorted(s.active) && Distinct(s.active) && InWindow(s.active, s.now, 0, ahead)
  }

  /** Delays and periods up to `ahead`, and tick jumps that together with them stay below half the range. */
  ghost predicate Fits(op: Op, ahead: nat) {
    match op
    case StartTimer(_, delay, period) => delay <= ahead && period <= ahead
    case StopTimer(_) => true
    case Tick(jump) => jump + ahead < HALF
  }

  /** `timer_start_ticks_obj` */
  function Start(ts: seq<Active>, now: nat, id: TimerId, delay: uint32, period: uint32): seq<Active> {
    Insert(Removed(ts, id), Active(id, now + delay, period))
  }

  /** One operation, with the firings it causes. */
  function Apply(s: State, op: Op, ghost ahead: nat): (State, seq<(TimerId, nat)>)
    requires Settled(s, ahead) && Fits(op, ahead)
  {
    match op
    case StartTimer(id, delay, period) => (s.(active := Start(s.active, s.now, id, delay, period)), [])
    case StopTimer(id) => (s.(active := Removed(s.active, id)), [])
    case Tick(jump) =>
      var (end, log) := RunExpired(s.active, s.now + jump, jump, ahead);
      (State(end, s.now + jump), log)
  }

  lemma StepKeeps(s: State, op: Op, ahead: nat)
    requires Settled(s, ahead) && Fits(op, ahead) && ahead < HALF
    ensures Settled(Apply(s, op, ahead).0, ahead)
  {
    hide Insert, RunExpired, Sorted, Distinct;
    match op
    case StartTimer(id, delay, period) =>
      RemovedIs(s.active, id);
      var t := Active(id, s.now + delay, period);
      InsertSorted(Removed(s.active, id), t);
      InsertDistinct(Removed(s.active, id), t);
    case StopTimer(id) =>
      RemovedIs(s.active, id);
    case Tick(jump) =>
      FiresExactlyWhatIsDue(s.active, s.now + jump, jump, ahead);
      RunExpiredIds(s.active, s.now + jump, jump, ahead);
  }

  /** The state after a run and everything fired in it. */
  function Run(s: State, ops: seq<Op>, ghost ahead: nat): (State, seq<(TimerId, nat)>)
    requires Settled(s, ahead) && ahead < HALF && forall op | op in ops :: Fits(op, ahead)
    decreases |ops|
  {
    if ops == [] then (s, [])
    else
      assert ops[0] in ops;
      StepKeeps(s, ops[0], ahead);
      var (next, fired) := Apply(s, ops[0], ahead);
      var (end, log) := Run(next, ops[1..], ahead);
      (end, fired + log)
  }

  predicate Mentions(op: Op, id: TimerId) {
    !op.Tick? && op.id == id
  }

  predicate SomeTick(ops: seq<Op>) {
    exists i | 0 <= i < |ops| :: ops[i].Tick?
  }

  lemma {:induction false} CountConcat(a: seq<(TimerId, nat)>, b: seq<(TimerId, nat)>, id: TimerId)
    ensures CountOf(a + b, id) == CountOf(a, id) + CountOf(b, id)
  {
    if a == [] {
      assert a + b == b;
    } else {
      assert (a + b)[1..] == a[1..] + b;
      CountConcat(a[1..], b, id);
    }
  }

  lemma OtherTimerStays(s: State, op: Op, ahead: nat, t: Active)
    requires Settled(s, ahead) && Fits(op, ahead) && !op.Tick? && !Mentions(op, t.id)
    ensures t in s.active ==> t in Apply(s, op, ahead).0.active
    ensures HasId(Apply(s, op, ahead).0.active, t.id) ==> HasId(s.active, t.id)
  {
    hide Insert;
    RemovedIs(s.active, op.id);
    if op.StartTimer? {
      InsertHas(Removed(s.active, op.id), Active(op.id, s.now + op.delay, op.period));
    }
  }

  lemma {:induction false} StoppedNeverFires(s: State, ops: seq<Op>, ahead: nat, t: Active)
    requires Settled(s, ahead) && ahead < HALF && forall op | op in ops :: Fits(op, ahead) && !Mentions(op, t.id)
    requires !HasId(s.active, t.id)
    ensures CountOf(Run(s, ops, ahead).1, t.id) == 0
    decreases |ops|
  {
    hide Settled, HasId, RunExpired;
    if ops != [] {
      assert ops[0] in ops;
      StepKeeps(s, ops[0], ahead);
      var (next, fired) := Apply(s, ops[0], ahead);
      SilentWhenAbsent(s, ops[0], ahead, t);
      StoppedNeverFires(next, ops[1..], ahead, t);
      CountConcat(fired, Run(next, ops[1..], ahead).1, t.id);
    }
  }

  lemma SilentWhenAbsent(s: State, op: Op, ahead: nat, t: Active)
    requires Settled(s, ahead) && Fits(op, ahead) && !Mentions(op, t.id) && !HasId(s.active, t.id)
    ensures CountOf(Apply(s, op, ahead).1, t.id) == 0
    ensures !HasId(Apply(s, op, ahead).0.active, t.id)
  {
    hide HasId, RunExpired, Insert, Removed;
    if op.Tick? {
      FiresExactlyWhatIsDue(s.active, s.now + op.jump, op.jump, ahead);
      RunExpiredIds(s.active, s.now + op.jump, op.jump, ahead);
      NotDueTo(s.active, t.id, s.now + op.jump);
    } else {
      OtherTimerStays(s, op, ahead, t);
    }
  }

  /** What one tick does to a timer: its due firings, and it is gone if they were its last. */
  lemma OneTick(s: State, jump: nat, ahead: nat, t: Active)
    requires Settled(s, ahead) && Fits(Tick(jump), ahead) && t in s.active
    ensures var (next, fired) := Apply(s, Tick(jump), ahead);
            && CountOf(fired, t.id) == Due(t, next.now)
            && if t.period == 0 && t.deadline <= next.now then !HasId(next.active, t.id)
               else t.(deadline := DeadlineAfter(t.deadline, t.period, next.now)) in next.active
  {
    hide HasId, RunExpired, CountOf, DueTo, Sorted, Distinct, InWindow;
    var now := s.now + jump;
    TickWindow(s, jump, ahead);
    FiresExactlyWhatIsDue(s.active, now, jump, ahead);
    RunExpiredIds(s.active, now, jump, ahead);
    DueToIsDue(s.active, t, now);
    if t.period > 0 {
      LeavesDeadlineAfter(s.active, now, jump, ahead, t);
    } else if now < t.deadline {
      LeavesWaiting(s.active, now, jump, ahead, t);
    }
  }

  lemma TickWindow(s: State, jump: nat, ahead: nat)
    requires Settled(s, ahead) && Fits(Tick(jump), ahead)
    ensures Sorted(s.active) && Distinct(s.active) && InWindow(s.active, s.now + jump, jump, ahead)
  {
  }

  lemma {:induction false} RunTime(s: State, ops: seq<Op>, ahead: nat)
    requires Settled(s, ahead) && ahead < HALF && forall op | op in ops :: Fits(op, ahead)
    ensures Run(s, ops, ahead).0.now >= s.now
    ensures !SomeTick(ops) ==> Run(s, ops, ahead).0.now == s.now
    decreases |ops|
  {
    hide Settled, RunExpired, SomeTick, Start, Removed;
    if ops != [] {
      assert ops[0] in ops;
      StepKeeps(s, ops[0], ahead);
      SomeTickSplits(ops);
      RunTime(Apply(s, ops[0], ahead).0, ops[1..], ahead);
    }
  }

  lemma DueOnce(t: Active, now: nat, later: nat)
    requires t.period == 0 && t.deadline <= now <= later
    ensures Due(t, now) == Due(t, later) == 1
  {
  }

  lemma DueAfter(t: Active, now: nat, later: nat)
    requires now <= later && (t.period == 0 ==> now < t.deadline)
    ensures var t' := t.(deadline := DeadlineAfter(t.deadline, t.period, now));
            Due(t, later) == Due(t, now) + Due(t', later) && Due(t', now) == 0
  {
    if t.period > 0 {
      DueSplits(t.deadline, t.period, now, later);
      DueSplits(t.deadline, t.period, now, now);
    }
  }

  /** Whatever else is started and stopped meanwhile, however the ticks jump and however often the counter wraps, a
      timer left alone has fired, once tick `T` has been processed, once if it is one-shot and its deadline `D` has
      come, and floor((T - D) / P) + 1 times if its period is `P`: timers neither drift nor skip. */
  lemma {:induction false} NoDriftNoSkip(s: State, ops: seq<Op>, ahead: nat, t: Active)
    requires Settled(s, ahead) && ahead < HALF && forall op | op in ops :: Fits(op, ahead) && !Mentions(op, t.id)
    requires t in s.active
    ensures CountOf(Run(s, ops, ahead).1, t.id) == if SomeTick(ops) then Due(t, Run(s, ops, ahead).0.now) else 0
    decreases |ops|
  {
    hide Settled, RunExpired, Due, HasId, CountOf, SomeTick, Insert, Removed;
    if ops == [] {
      NoFirings(ops, t.id);
    } else {
      assert ops[0] in ops;
      var rest := ops[1..];
      SomeTickSplits(ops);
      StepKeeps(s, ops[0], ahead);
      var (next, fired) := Apply(s, ops[0], ahead);
      CountConcat(fired, Run(next, rest, ahead).1, t.id);
      if ops[0].Tick? {
        OneTick(s, ops[0].jump, ahead, t);
        RunTime(next, rest, ahead);
        var T := Run(next, rest, ahead).0.now;
        if t.period == 0 && t.deadline <= next.now {
          StoppedNeverFires(next, rest, ahead, t);
          DueOnce(t, next.now, T);
        } else {
          var later := t.(deadline := DeadlineAfter(t.deadline, t.period, next.now));
          NoDriftNoSkip(next, rest, ahead, later);
          DueAfter(t, next.now, T);
        }
      } else {
        OtherTimerStays(s, ops[0], ahead, t);
        NoDriftNoSkip(next, rest, ahead, t);
        NoFirings(rest, t.id);
      }
    }
  }

  lemma NoFirings(ops: seq<Op>, id: TimerId)
    ensures CountOf([], id) == 0 && !SomeTick([])
  {
  }

  lemma SomeTickSplits(ops: seq<Op>)
    requires ops != []
    ensures SomeTick(ops) <==> ops[0].Tick? || SomeTick(ops[1..])
  {
    if SomeTick(ops) && !ops[0].Tick? {
      var i :| 0 <= i < |ops| && ops[i].Tick?;
      assert ops[1..][i - 1].Tick?;
    }
    if SomeTick(ops[1..]) {
      var i :| 0 <= i < |ops[1..]| && ops[1..][i].Tick?;
      assert ops[i + 1].Tick?;
    }
  }
}
