/** The handle table of `handle.c`: a handle packs a slot's index with the generation the slot had when the handle
    was given out, so that closing a handle, which moves the generation on, makes every copy of it stale. */
module Handles {
  import opened Common
  import opened TickTime
  import opened Bitmap

  const INDEX_RANGE := 0x1_0000
  const GENERATIONS := 0xFFFF
  const INVALID_HANDLE: uint32 := 0

  type ObjectId = nat
  type uint16 = x: int | 0 <= x < 0x1_0000

  datatype Kind = AnyKind | TaskKind | SemKind | MutexKind | MsgQKind | TimerKind

  /** `handle_slot_t`; a null object is `None`. */
  datatype Slot = Slot(obj: Option<ObjectId>, kind: Kind, rights: uint32, generation: uint16, used: bool)

  // ----- packing

  /** `handle_make`: the two 16-bit fields do not overlap, so the bitwise or is a sum. */
  function Make(index: uint16, generation: uint16): uint32 {
    generation * INDEX_RANGE + index
  }

  function IndexField(handle: uint32): uint16 {
    handle % INDEX_RANGE
  }

  function GenerationField(handle: uint32): uint16 {
    handle / INDEX_RANGE
  }

  lemma PackedFieldsRoundTrip(index: uint16, generation: uint16, handle: uint32)
    ensures IndexField(Make(index, generation)) == index && GenerationField(Make(index, generation)) == generation
    ensures Make(IndexField(handle), GenerationField(handle)) == handle
    ensures Make(index, generation) == INVALID_HANDLE <==> index == 0 && generation == 0
  {
  }

  // ----- the operations

  /** `handle_get_slot_locked`: the index of the live slot the handle names. */
  function GetSlot(table: seq<Slot>, handle: uint32): (i: Option<nat>)
    ensures i.Some? ==> i.value < |table|
  {
    if handle == INVALID_HANDLE || IndexField(handle) >= |table| then None
    else
      var slot := table[IndexField(handle)];
      if !slot.used || slot.generation != GenerationField(handle) then None else Some(IndexField(handle))
  }

  /** The first unused slot, or the length of the table. */
  function FirstUnused(table: seq<Slot>): (i: nat)
    ensures i <= |table|
    ensures i < |table| ==> !table[i].used
    ensures forall j | 0 <= j < i :: table[j].used
  {
    if table == [] || !table[0].used then 0 else 1 + FirstUnused(table[1..])
  }

  /** `trt_handle_alloc`: the new table, the code, and the handle if the code is OK. */
  function Alloc(table: seq<Slot>, obj: Option<ObjectId>, kind: Kind, rights: uint32): (seq<Slot>, Error, uint32)
    requires |table| <= INDEX_RANGE
  {
    if obj.None? || kind == AnyKind then (table, Invalid, INVALID_HANDLE)
    else
      var i := FirstUnused(table);
      if i == |table| then (table, NoMemory, INVALID_HANDLE)
      else (table[i := Slot(obj, kind, rights, table[i].generation, true)], Ok, Make(i, table[i].generation))
  }

  /** `(slot->rights & rights) == rights` */
  predicate Grants(have: uint32, want: uint32) {
    And(have, want) == want
  }

  /** `trt_handle_lookup` */
  function Lookup(table: seq<Slot>, handle: uint32, kind: Kind, rights: uint32): (Error, Option<ObjectId>) {
    var i := GetSlot(table, handle);
    if i.None? then (Invalid, None)
    else
      var slot := table[i.value];
      if kind != AnyKind && slot.kind != kind then (Invalid, None)
      else if !Grants(slot.rights, rights) then (NotPermitted, None)
      else (Ok, slot.obj)
  }

  /** The generation after `generation`, on 16 bits and leaving out zero. */
  function NextGeneration(generation: uint16): uint16 {
    var next := (generation + 1) % INDEX_RANGE;
    if next == 0 then 1 else next
  }

  /** `trt_handle_close` */
  function Close(table: seq<Slot>, handle: uint32): (seq<Slot>, Error) {
    var i := GetSlot(table, handle);
    if i.None? then (table, Invalid)
    else (table[i.value := Slot(None, AnyKind, 0, NextGeneration(table[i.value].generation), false)], Ok)
  }

  // ----- rights

  ghost predicate Covers(have: uint32, want: uint32) {
    forall q: nat :: Has(want, q) ==> Has(have, q)
  }

  /** The mask test grants a request exactly when every right asked for is held. */
  lemma GrantsIff(have: uint32, want: uint32)
    ensures Grants(have, want) <==> Covers(have, want)
  {
    forall q: nat ensures Has(And(have, want), q) <==> Has(have, q) && Has(want, q) {
      AndHas(have, want, q);
    }
    if Grants(have, want) {
      forall q: nat | Has(want, q) ensures Has(have, q) {
        AndHas(have, want, q);
      }
    } else if Covers(have, want) {
      SameBits(And(have, want), want);
      assert false;
    }
  }

  lemma NothingIsGranted(have: uint32)
    ensures Grants(have, 0)
  {
    GrantsIff(have, 0);
    forall q: nat ensures !Has(0, q) {
      ZeroHas(q);
    }
  }

  lemma {:induction false} SameBits(a: nat, b: nat)
    requires forall q: nat :: Has(a, q) <==> Has(b, q)
    ensures a == b
    decreases a + b
  {
    assert Has(a, 0) <==> Has(b, 0);
    if a != 0 || b != 0 {
      forall q: nat ensures Has(a / 2, q) <==> Has(b / 2, q) {
        assert Has(a, q + 1) <==> Has(b, q + 1);
      }
      SameBits(a / 2, b / 2);
    }
  }

  // ----- runs

  datatype Op =
    | DoAlloc(obj: Option<ObjectId>, kind: Kind, rights: uint32)
    | DoClose(handle: uint32)

  /** The table and how often each of its slots has been closed. */
  datatype System = System(table: seq<Slot>, closes: seq<nat>)

  /** A slot in use holds an object of a kind; one not in use holds nothing; and the generation counts the closes,
      round and round from 1 to 65535. */
  ghost predicate SlotOk(slot: Slot, closes: nat) {
    && slot.generation == 1 + closes % GENERATIONS
    && (if slot.used then slot.obj.Some? && slot.kind != AnyKind
        else slot.obj.None? && slot.kind == AnyKind && slot.rights == 0)
  }

  ghost predicate TableOk(s: System) {
    && |s.table| == |s.closes| <= INDEX_RANGE
    && forall i | 0 <= i < |s.table| :: SlotOk(s.table[i], s.closes[i])
  }

  /** `handle_table_init_locked` for a table of `n` slots */
  function Init(n: nat): (s: System)
    requires n <= INDEX_RANGE
    ensures TableOk(s) && |s.table| == n && forall i | 0 <= i < n :: !s.table[i].used
  {
    System(seq(n, _ => Slot(None, AnyKind, 0, 1, false)), seq(n, _ => 0))
  }

  /** One call; the table stays well formed. */
  function Apply(s: System, op: Op): (s': System)
    requires TableOk(s)
    ensures TableOk(s') && |s'.table| == |s.table|
  {
    match op
    case DoAlloc(obj, kind, rights) => s.(table := Alloc(s.table, obj, kind, rights).0)
    case DoClose(handle) =>
      var i := GetSlot(s.table, handle);
      if i.None? then s
      else
        NextGenerationCounts(s.closes[i.value]);
        System(Close(s.table, handle).0, s.closes[i.value := s.closes[i.value] + 1])
  }

  lemma NextGenerationCounts(closes: nat)
    ensures NextGeneration(1 + closes % GENERATIONS) == 1 + (closes + 1) % GENERATIONS
  {
  }

  function Run(s: System, ops: seq<Op>): (end: System)
    requires TableOk(s)
    ensures TableOk(end) && |end.table| == |s.table|
    decreases |ops|
  {
    if ops == [] then s else Run(Apply(s, ops[0]), ops[1..])
  }

  /** The handle that names slot `i`. */
  function HandleOf(table: seq<Slot>, i: nat): uint32
    requires i < |table| <= INDEX_RANGE
  {
    Make(i, table[i].generation)
  }

  /** Live handles are not the invalid handle, each names its own slot, and no two are equal. */
  lemma LiveHandlesDistinct(s: System, i: nat, j: nat)
    requires TableOk(s) && i < |s.table| && j < |s.table| && s.table[i].used
    ensures HandleOf(s.table, i) != INVALID_HANDLE
    ensures GetSlot(s.table, HandleOf(s.table, i)) == Some(i)
    ensures HandleOf(s.table, i) == HandleOf(s.table, j) ==> i == j
  {
    PackedFieldsRoundTrip(i, s.table[i].generation, 0);
    PackedFieldsRoundTrip(j, s.table[j].generation, 0);
    assert SlotOk(s.table[i], s.closes[i]);
  }

  /** Allocation fails exactly on bad arguments or a full table, and its handle finds the object it was made for,
      under its kind or any, with rights it was given or fewer. No other slot changes. */
  lemma AllocThenLookup(s: System, obj: Option<ObjectId>, kind: Kind, rights: uint32, asKind: Kind, want: uint32)
    requires TableOk(s)
    ensures var (table, code, handle) := Alloc(s.table, obj, kind, rights);
            && (code == Invalid <==> obj.None? || kind == AnyKind)
            && (code == NoMemory <==> code != Invalid && forall i | 0 <= i < |s.table| :: s.table[i].used)
            && (code != Ok ==> table == s.table)
            && (code == Ok ==>
                  var i := IndexField(handle);
                  && i < |table| && !s.table[i].used && table == s.table[i := table[i]]
                  && GetSlot(s.table, handle) == None
                  && Lookup(table, handle, asKind, want) ==
                     if asKind != AnyKind && asKind != kind then (Invalid, None)
                     else if Grants(rights, want) then (Ok, obj) else (NotPermitted, None))
  {
    var i := FirstUnused(s.table);
    if i < |s.table| {
      assert SlotOk(s.table[i], s.closes[i]);
      PackedFieldsRoundTrip(i, s.table[i].generation, 0);
    }
  }

  /** `handle` is the one given out for slot `i`, which is in use. */
  ghost predicate NamesUsed(table: seq<Slot>, handle: uint32, i: nat)
    requires |table| <= INDEX_RANGE
  {
    i < |table| && table[i].used && HandleOf(table, i) == handle
  }

  lemma NamesUsedIff(s: System, handle: uint32, i: nat)
    requires TableOk(s)
    ensures NamesUsed(s.table, handle, i) <==> GetSlot(s.table, handle) == Some(i)
  {
    PackedFieldsRoundTrip(0, 0, handle);
    if i < |s.table| && s.table[i].used {
      LiveHandlesDistinct(s, i, i);
    }
  }

  /** A lookup succeeds exactly for the handle of a slot in use, under the slot's kind or any, asking for no right the
      handle lacks; it is not permitted exactly if only the rights are missing. */
  lemma LookupAnswers(s: System, handle: uint32, kind: Kind, want: uint32, i: nat)
    requires TableOk(s) && NamesUsed(s.table, handle, i)
    ensures var slot := s.table[i];
            var (code, obj) := Lookup(s.table, handle, kind, want);
            && (code == Ok <==> (kind == AnyKind || kind == slot.kind) && Covers(slot.rights, want))
            && (code == NotPermitted <==> (kind == AnyKind || kind == slot.kind) && !Covers(slot.rights, want))
            && (code == Invalid <==> kind != AnyKind && kind != slot.kind)
            && obj == (if code == Ok then slot.obj else None)
  {
    hide Grants;
    NamesUsedIff(s, handle, i);
    GrantsIff(s.table[i].rights, want);
  }

  lemma UnknownHandleAnswers(s: System, handle: uint32, kind: Kind, want: uint32)
    requires TableOk(s) && forall i: nat :: !NamesUsed(s.table, handle, i)
    ensures Lookup(s.table, handle, kind, want) == (Invalid, None)
    ensures Close(s.table, handle) == (s.table, Invalid)
  {
    if GetSlot(s.table, handle).Some? {
      NamesUsedIff(s, handle, GetSlot(s.table, handle).value);
    }
  }

  /** Closing the handle of a slot in use succeeds, empties that slot alone, and leaves the handle naming nothing. */
  lemma CloseAnswers(s: System, handle: uint32, i: nat)
    requires TableOk(s) && NamesUsed(s.table, handle, i)
    ensures var (table, code) := Close(s.table, handle);
            && code == Ok && |table| == |s.table|
            && !table[i].used && table[i].obj == None && GetSlot(table, handle) == None
            && forall j | 0 <= j < |table| && j != i :: table[j] == s.table[j]
  {
    NamesUsedIff(s, handle, i);
  }

  // ----- staleness

  lemma CallCloses(s: System, op: Op, i: nat)
    requires TableOk(s) && i < |s.table|
    ensures var s' := Apply(s, op);
            && s.closes[i] <= s'.closes[i]
            && (s.table[i].used && s.closes[i] == s'.closes[i] ==> s'.table[i] == s.table[i])
  {
    hide SlotOk;
  }

  /** Over a run a slot's close count only grows, and while it does not the slot, if in use, is left alone. */
  lemma {:induction false} ClosesGrow(s: System, ops: seq<Op>, i: nat)
    requires TableOk(s) && i < |s.table|
    ensures var end := Run(s, ops);
            && s.closes[i] <= end.closes[i]
            && (s.table[i].used && s.closes[i] == end.closes[i] ==> end.table[i] == s.table[i])
    decreases |ops|
  {
    hide SlotOk, Apply;
    if ops != [] {
      CallCloses(s, ops[0], i);
      ClosesGrow(Apply(s, ops[0]), ops[1..], i);
    }
  }

  lemma OnlyItsHandleCloses(s: System, op: Op, handle: uint32)
    requires TableOk(s) && GetSlot(s.table, handle).Some? && op != DoClose(handle)
    ensures var i := GetSlot(s.table, handle).value;
            Apply(s, op).closes[i] == s.closes[i] && Apply(s, op).table[i] == s.table[i]
  {
    if op.DoClose? && GetSlot(s.table, op.handle).Some? {
      PackedFieldsRoundTrip(0, 0, handle);
      PackedFieldsRoundTrip(0, 0, op.handle);
    }
  }

  /** A live handle finds its object through any run of allocations and closes of other handles. */
  lemma {:induction false} LiveUntilClosed(s: System, ops: seq<Op>, handle: uint32, kind: Kind, want: uint32)
    requires TableOk(s) && GetSlot(s.table, handle).Some?
    requires forall op | op in ops :: op != DoClose(handle)
    ensures Lookup(Run(s, ops).table, handle, kind, want) == Lookup(s.table, handle, kind, want)
    decreases |ops|
  {
    hide SlotOk, Apply;
    if ops != [] {
      assert ops[0] in ops;
      assert forall op | op in ops[1..] :: op in ops;
      OnlyItsHandleCloses(s, ops[0], handle);
      LiveUntilClosed(Apply(s, ops[0]), ops[1..], handle, kind, want);
    }
  }

  /** When an old handle is taken for a live one again: exactly when its slot is in use and has been closed, since
      the handle was live, a multiple of 65535 times. */
  lemma StaleHandleNamesIff(s: System, ops: seq<Op>, handle: uint32)
    requires TableOk(s) && GetSlot(s.table, handle).Some?
    ensures var i, end := GetSlot(s.table, handle).value, Run(s, ops);
            && end.closes[i] >= s.closes[i]
            && (GetSlot(end.table, handle).Some? <==>
                end.table[i].used && (end.closes[i] - s.closes[i]) % GENERATIONS == 0)
  {
    var i, end := GetSlot(s.table, handle).value, Run(s, ops);
    ClosesGrow(s, ops, i);
    assert SlotOk(s.table[i], s.closes[i]) && SlotOk(end.table[i], end.closes[i]);
    SameRemainderIff(s.closes[i], end.closes[i], GENERATIONS);
  }

  lemma SameRemainderIff(a: nat, b: nat, m: nat)
    requires a <= b && m == GENERATIONS
    ensures a % m == b % m <==> (b - a) % m == 0
  {
  }

  /** So a closed handle fails every lookup, whatever is allocated and closed meanwhile, until its slot has been
      closed 65535 times in all. */
  lemma ClosedHandleRejected(s: System, ops: seq<Op>, handle: uint32, kind: Kind, want: uint32)
    requires TableOk(s) && GetSlot(s.table, handle).Some?
    requires var i := GetSlot(s.table, handle).value;
             s.closes[i] < Run(s, ops).closes[i] < s.closes[i] + GENERATIONS
    ensures Lookup(Run(s, ops).table, handle, kind, want) == (Invalid, None)
  {
    StaleHandleNamesIff(s, ops, handle);
  }

  // ----- the bound is exact

  /** Closing the handle of slot `i` and allocating again, `n` times, when no lower slot is free. */
  function Churn(s: System, i: nat, n: nat, obj: ObjectId, kind: Kind, rights: uint32): seq<Op>
    requires TableOk(s) && i < |s.table|
    decreases n
  {
    if n == 0 then []
    else
      var close, alloc := DoClose(HandleOf(s.table, i)), DoAlloc(Some(obj), kind, rights);
      [close, alloc] + Churn(Apply(Apply(s, close), alloc), i, n - 1, obj, kind, rights)
  }

  lemma CloseAndAlloc(s: System, i: nat, obj: ObjectId, kind: Kind, rights: uint32)
    requires TableOk(s) && i < |s.table| && kind != AnyKind && forall j | 0 <= j <= i :: s.table[j].used
    ensures var closed := Apply(s, DoClose(HandleOf(s.table, i)));
            var next := Apply(closed, DoAlloc(Some(obj), kind, rights));
            && next.closes == s.closes[i := s.closes[i] + 1]
            && next.table[i].used && next.table[i].obj == Some(obj)
            && (forall j | 0 <= j < |s.table| && j != i :: next.table[j] == s.table[j])
            && TableOk(next) && |next.table| == |s.table|
  {
    LiveHandlesDistinct(s, i, i);
    var closed := Apply(s, DoClose(HandleOf(s.table, i)));
    assert closed.table == s.table[i := closed.table[i]] && !closed.table[i].used;
    assert FirstUnused(closed.table) == i;
  }

  lemma {:induction false} ChurnRuns(s: System, i: nat, n: nat, obj: ObjectId, kind: Kind, rights: uint32)
    requires TableOk(s) && i < |s.table| && kind != AnyKind && forall j | 0 <= j <= i :: s.table[j].used
    ensures var end := Run(s, Churn(s, i, n, obj, kind, rights));
            && end.closes[i] == s.closes[i] + n
            && end.table[i].used
            && (n > 0 ==> end.table[i].obj == Some(obj))
    decreases n
  {
    hide Alloc, Close, GetSlot, SlotOk, Make;
    if n > 0 {
      CloseAndAlloc(s, i, obj, kind, rights);
      var close, alloc := DoClose(HandleOf(s.table, i)), DoAlloc(Some(obj), kind, rights);
      var next := Apply(Apply(s, close), alloc);
      var rest := Churn(next, i, n - 1, obj, kind, rights);
      ChurnRuns(next, i, n - 1, obj, kind, rights);
      RunTwo(s, close, alloc, rest);
    }
  }

  lemma RunTwo(s: System, a: Op, b: Op, rest: seq<Op>)
    requires TableOk(s)
    ensures TableOk(Apply(s, a)) && TableOk(Apply(Apply(s, a), b))
    ensures Run(s, [a, b] + rest) == Run(Apply(Apply(s, a), b), rest)
  {
    hide TableOk;
    var ops := [a, b] + rest;
    assert ops[1..] == [b] + rest && ops[1..][1..] == rest;
  }

  /** And after 65535 closes and reallocations the old handle does find another's object. */
  lemma OldHandleFindsNewObject(s: System, i: nat, obj: ObjectId, kind: Kind, rights: uint32)
    requires TableOk(s) && i < |s.table| && kind != AnyKind && forall j | 0 <= j <= i :: s.table[j].used
    ensures var end := Run(s, Churn(s, i, GENERATIONS, obj, kind, rights));
            Lookup(end.table, HandleOf(s.table, i), AnyKind, 0) == (Ok, Some(obj))
  {
    hide Churn, Run, SlotOk, And;
    var n := GENERATIONS;
    ChurnRuns(s, i, n, obj, kind, rights);
    LiveHandlesDistinct(s, i, i);
    var ops := Churn(s, i, n, obj, kind, rights);
    StaleHandleNamesIff(s, ops, HandleOf(s.table, i));
    var end := Run(s, ops);
    NothingIsGranted(end.table[i].rights);
  }
}
