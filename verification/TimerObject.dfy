/** `timer.c` itself: timer records on a list kept in order by walking it, and the loop that fires them. */
module TimerObject {
  import opened Common
  import opened TickTime
  import T = Timers

  /** `timer_t`; `due` is the unbounded tick its stored deadline stands for. */
  class Timer {
    const id: T.TimerId
    var deadline: uint32
    var period: uint32
    var callable: bool
    var active: bool
    ghost var due: nat

    /** `timer_setup_obj` with a callback */
    constructor (id: T.TimerId)
      ensures this.id == id && deadline == 0 && period == 0 && callable && !active
    {
      this.id := id;
      deadline, period, callable, active, due := 0, 0, true, false, 0;
    }
  }

  ghost function Snapshot(t: Timer): T.Active
    reads t
  {
    T.Active(t.id, t.due, t.period)
  }

  ghost function View(list: seq<Timer>): (v: seq<T.Active>)
    reads list
    ensures |v| == |list|
    ensures forall i | 0 <= i < |list| :: v[i] == Snapshot(list[i])
  {
    if list == [] then [] else [Snapshot(list[0])] + View(list[1..])
  }

  ghost predicate Flags(all: set<Timer>, list: seq<Timer>)
    reads all
  {
    && (forall t | t in list :: t in all)
    && forall t | t in all :: t.active <==> t in list
  }

  ghost predicate Stored(list: seq<Timer>)
    reads list
  {
    forall t | t in list :: t.deadline == Low(t.due)
  }

  ghost predicate OwnIds(all: set<Timer>) {
    forall t, u | t in all && u in all && t.id == u.id :: t == u
  }

  class TimerList {
    var list: seq<Timer>
    var ticks: uint32
    ghost var now: nat
    /** Every timer created. */
    ghost var all: set<Timer>

    /** A timer's `active` flag says whether its node is on the list. */
    ghost predicate Valid()
      reads this, all, list
    {
      && ticks == Low(now)
      && NoDup(list)
      && Flags(all, list)
      && Stored(list)
      && OwnIds(all)
    }

    ghost function Active(): (v: seq<T.Active>)
      reads this, list
    {
      View(list)
    }

    /** `timer_init` */
    constructor ()
      ensures Valid() && list == [] && all == {}
    {
      list, ticks, now, all := [], 0, 0, {};
    }

    /** `trt_timer_create` when its allocations succeed: a null callback is refused, and otherwise there is one timer
        more, inactive. */
    method Create(id: T.TimerId, callback: bool) returns (t: Timer?)
      requires Valid() && forall u | u in all :: u.id != id
      modifies `all
      ensures Valid() && Active() == old(Active())
      ensures t == null <==> !callback
      ensures t == null ==> all == old(all)
      ensures t != null ==> fresh(t) && t.id == id && t.callable && !t.active && all == old(all) + {t}
    {
      if !callback {
        return null;
      }
      t := new Timer(id);
      all := all + {t};
    }

    /** The trap handler stores the new tick count. */
    method SetTick(tick: uint32, ghost instant: nat)
      requires Valid() && tick == Low(instant)
      modifies `ticks, `now
      ensures Valid() && now == instant && Active() == old(Active())
    {
      ticks := tick;
      now := instant;
    }

    /** A timer is on the list at most once. */
    lemma ActiveDistinct()
      requires Valid()
      ensures T.Distinct(Active())
    {
      forall i, j | 0 <= i < j < |list| ensures list[i].id != list[j].id {
        assert list[i] in list && list[j] in list;
      }
    }

    /** `timer_insert_locked` */
    method Insert(t: Timer)
      requires t !in list && t.deadline == Low(t.due) && Stored(list)
      modifies `list
      ensures Active() == T.Insert(old(Active()), Snapshot(t))
      ensures list == InsertAt(old(list), T.Position(old(Active()), t.due), t)
    {
      hide Low, Earlier, View;
      var i := 0;
      while i < |list| && !Earlier(t.deadline, list[i].deadline)
        invariant i <= |list|
        invariant T.Position(View(list), t.due) == i + T.Position(View(list)[i..], t.due)
      {
        assert list[i] in list;
        assert View(list)[i..][1..] == View(list)[i + 1..];
        i := i + 1;
      }
      assert i < |list| ==> list[i] in list;
      ViewInsert(list, i, t);
      list := list[..i] + [t] + list[i..];
    }

    /** `timer_stop_obj` */
    method Stop(t: Timer)
      requires Valid() && t in all
      modifies `list, t`active
      ensures Valid() && !t.active
      ensures list == Without(old(list), t) && t !in list
      ensures Active() == T.Removed(old(Active()), t.id)
    {
      hide View, Without, T.Removed, Flags, Stored, NoDup, OwnIds;
      OffList(all, list, t);
      if t.active {
        list := Without(list, t);
        ghost var rest, others := list, View(list);
        t.active := false;
        assert View(rest) == others;
        PutOffList(all, rest, t);
      }
    }

    /** `timer_start_ticks_obj` */
    method Start(t: Timer, delay: uint32, period: uint32)
      requires Valid() && t in all
      modifies `list, t
      ensures Valid()
      ensures old(!t.callable) ==> list == old(list) && Active() == old(Active())
      ensures old(t.callable) ==> t.active && Active() == T.Start(old(Active()), now, t.id, delay, period)
    {
      hide T.Insert, T.Removed, T.Position, InsertAt, Without, View, Low, NoDup, OwnIds, Flags, Stored;
      if !t.callable {
        return;
      }
      Stop(t);
      FlagsLess(all, list, list, t);
      ghost var off, others := list, View(list);
      t.deadline := Low(ticks + delay);
      t.due := now + delay;
      LowAdd(now, delay);
      t.period := period;
      t.active := true;
      assert View(off) == others;
      Insert(t);
      PutOnList(all, off, T.Position(others, t.due), t);
    }

    /** `timer_destroy_obj`: no start brings a destroyed timer back. */
    method Destroy(t: Timer)
      requires Valid() && t in all
      modifies `list, t
      ensures Valid() && !t.active && !t.callable && Active() == T.Removed(old(Active()), t.id)
    {
      hide View, Without, T.Removed, Flags, Stored, NoDup, OwnIds;
      Stop(t);
      FlagsLess(all, list, list, t);
      ghost var off, others := list, View(list);
      t.deadline, t.period, t.callable := 0, 0, false;
      t.due := 0;
      assert View(off) == others;
      PutOffList(all, off, t);
    }

    /** `list_del_init` of the first timer's node */
    method TakeFirst() returns (t: Timer)
      requires Valid() && list != []
      modifies `list
      ensures t == old(list[0]) && list == old(list[1..]) && t !in list && t in all
      ensures t.active && t.deadline == Low(t.due)
      ensures NoDup(list) && Stored(list) && forall u | u in list :: u in old(list)
      ensures Flags(all - {t}, list)
      ensures Active() == old(Active())[1..]
    {
      hide View;
      ViewTail(list);
      TailMembers(list);
      t := list[0];
      list := list[1..];
    }

    /** One pass of the loop of `timer_run_expired`, up to the call of the callback. */
    method FireFirst() returns (t: Timer)
      requires Valid() && list != []
      modifies `list, list[0]
      ensures Valid() && t == old(list[0]) && forall u | u in list :: u in old(list)
      ensures Active() == T.FireFirst(old(Active()))
    {
      hide T.Insert, T.Position, InsertAt, View, Low, NoDup, OwnIds, Flags, Stored;
      t := TakeFirst();
      ghost var rest, others := list, Active();
      if t.period != 0 {
        LowAdd(t.due, t.period);
        t.deadline := Low(t.deadline + t.period);
        t.due := t.due + t.period;
        assert View(rest) == others;
        assert Snapshot(t) == old(Snapshot(t)).(deadline := t.due);
        Insert(t);
        PutOnList(all, rest, T.Position(others, t.due), t);
      } else {
        t.active := false;
        assert View(rest) == others;
        PutOffList(all, rest, t);
      }
    }

    /** `timer_run_expired`; the log is of the callbacks it calls, each with the deadline it was due at. */
    method RunExpired(ghost late: nat, ghost ahead: nat) returns (ghost log: seq<(T.TimerId, nat)>)
      requires Valid() && T.Sorted(Active()) && T.InWindow(Active(), now, late, ahead) && late + ahead < HALF
      modifies `list, list
      ensures Valid() && (Active(), log) == T.RunExpired(old(Active()), now, late, ahead)
    {
      hide T.Sorted, T.InWindow, T.FireFirst, T.DueInAll, T.RunExpired, View, NoDup, Flags, Stored, OwnIds, Expired;
      ghost var (end, all') := T.RunExpired(Active(), now, late, ahead);
      log := [];
      while list != [] && Expired(ticks, list[0].deadline)
        invariant Valid() && T.Sorted(Active()) && T.InWindow(Active(), now, late, ahead)
        invariant forall t | t in list :: t in old(list)
        invariant end == T.RunExpired(Active(), now, late, ahead).0
        invariant all' == log + T.RunExpired(Active(), now, late, ahead).1
        decreases T.DueInAll(Active(), now)
      {
        ghost var was := Active();
        T.RunExpiredUnfolds(was, now, late, ahead);
        FirstExpired(late, ahead);
        assert list[0] in list;
        var t := FireFirst();
        log := log + [(was[0].id, was[0].deadline)];
      }
      T.RunExpiredUnfolds(Active(), now, late, ahead);
      if list != [] {
        FirstExpired(late, ahead);
      }
      assert log + [] == log;
    }

    lemma FirstExpired(late: nat, ahead: nat)
      requires Valid() && list != [] && T.InWindow(Active(), now, late, ahead) && late + ahead < HALF
      ensures Expired(ticks, list[0].deadline) <==> Active()[0].deadline <= now
    {
      assert list[0] in list;
      T.FirstInWindow(Active(), now, late, ahead);
    }
  }

  /** A timer's node taken off the list. */
  lemma OffList(all: set<Timer>, list: seq<Timer>, t: Timer)
    requires NoDup(list) && Flags(all, list) && Stored(list) && OwnIds(all) && t in all
    ensures var rest := Without(list, t);
            && t !in rest && NoDup(rest) && Stored(rest) && Flags(all - {t}, rest)
            && View(rest) == T.Removed(View(list), t.id)
            && (!t.active ==> rest == list)
  {
    assert forall u | u in list && u.id == t.id :: u == t;
    ViewWithout(list, t);
    hide View, T.Removed, Without, OwnIds;
    LessOne(list, t);
    FlagsLess(all, list, Without(list, t), t);
    if !t.active {
      assert t !in list;
      WithoutAbsent(list, t);
    }
  }

  lemma LessOne(list: seq<Timer>, t: Timer)
    requires NoDup(list)
    ensures var rest := Without(list, t);
            && NoDup(rest)
            && (forall u | u in rest :: u in list && u != t)
            && (forall u | u in list && u != t :: u in rest)
  {
    WithoutMembers(list, t);
    WithoutFrom(list, t);
    hide Without, NoDup;
    assert forall u | u in Without(list, t) :: u in list;
  }

  lemma FlagsLess(all: set<Timer>, list: seq<Timer>, rest: seq<Timer>, t: Timer)
    requires Flags(all, list) && Stored(list)
    requires (forall u | u in rest :: u in list && u != t) && (forall u | u in list && u != t :: u in rest)
    ensures Flags(all - {t}, rest) && Stored(rest)
  {
  }

  lemma PutOnList(all: set<Timer>, list: seq<Timer>, i: nat, t: Timer)
    requires i <= |list| && NoDup(list) && t !in list && t in all && t.active && t.deadline == Low(t.due)
    requires Flags(all - {t}, list) && Stored(list)
    ensures var list' := InsertAt(list, i, t);
            && NoDup(list') && Flags(all, list') && Stored(list')
            && forall u :: u in list' <==> u in list || u == t
  {
    var list' := InsertAt(list, i, t);
    assert forall u | u in list' :: u == t || u in list;
    InsertMembers(list, i, t);
    hide InsertAt, Low;
    assert forall u | u in all :: u == t || u in all - {t};
  }

  lemma PutOffList(all: set<Timer>, list: seq<Timer>, t: Timer)
    requires t !in list && t in all && !t.active && Flags(all - {t}, list)
    ensures Flags(all, list)
  {
    assert forall u | u in all :: u == t || u in all - {t};
  }

  lemma ViewTail(list: seq<Timer>)
    requires list != []
    ensures View(list)[1..] == View(list[1..])
  {
  }

  lemma ViewInsert(list: seq<Timer>, i: nat, t: Timer)
    requires i <= |list|
    ensures View(InsertAt(list, i, t)) == InsertAt(View(list), i, Snapshot(t))
  {
    var a, b := View(InsertAt(list, i, t)), InsertAt(View(list), i, Snapshot(t));
    assert |a| == |b| == |list| + 1;
    hide View, InsertAt;
    forall j | 0 <= j < |a| ensures a[j] == b[j] {
      InsertAtIndex(list, i, t, j);
      InsertAtIndex(View(list), i, Snapshot(t), j);
    }
  }

  lemma LowAdd(a: nat, b: nat)
    ensures Low(Low(a) + b) == Low(a + b)
  {
  }

  lemma ViewWithout(list: seq<Timer>, t: Timer)
    requires forall u | u in list && u.id == t.id :: u == t
    ensures View(Without(list, t)) == T.Removed(View(list), t.id)
  {
    if list != [] {
      assert View(list)[1..] == View(list[1..]);
      assert list[0] in list;
      if list[0] != t {
        ViewWithout(list[1..], t);
      }
    }
  }
}
