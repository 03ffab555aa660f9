/** `handle.c` itself: the slots of the table scanned, filled and cleared in place. */
module HandleTable {
  import opened Common
  import opened TickTime
  import Bitmap
  import opened Handles

  class HandleTable {
    const slots: array<Slot>
    /** How often each slot has been closed. */
    ghost var closes: seq<nat>

    ghost function State(): System
      reads this, slots
    {
      System(slots[..], closes)
    }

    ghost predicate Valid()
      reads this, slots
    {
      TableOk(State())
    }

    /** `handle_table_init_locked` */
    constructor (n: nat)
      requires n <= INDEX_RANGE
      ensures Valid() && fresh(slots) && State() == Init(n)
    {
      slots := new Slot[n](_ => Slot(None, AnyKind, 0, 1, false));
      closes := seq(n, _ => 0);
      new;
      assert slots[..] == Init(n).table;
    }

    /** `handle_get_slot_locked` */
    method FindSlot(handle: uint32) returns (i: Option<nat>)
      requires Valid()
      ensures i == GetSlot(slots[..], handle)
    {
      if handle == INVALID_HANDLE || IndexField(handle) >= slots.Length {
        return None;
      }
      var index := IndexField(handle);
      if !slots[index].used || slots[index].generation != GenerationField(handle) {
        return None;
      }
      i := Some(index);
    }

    /** `trt_handle_alloc` */
    method Alloc(obj: Option<ObjectId>, kind: Kind, rights: uint32) returns (code: Error, handle: uint32)
      requires Valid()
      modifies slots
      ensures Valid() && (slots[..], code, handle) == Handles.Alloc(old(slots[..]), obj, kind, rights)
      ensures State() == Apply(old(State()), DoAlloc(obj, kind, rights))
    {
      if obj.None? || kind == AnyKind {
        return Invalid, INVALID_HANDLE;
      }
      ghost var was := slots[..];
      for i := 0 to slots.Length
        invariant FirstUnused(was) == i + FirstUnused(was[i..])
        invariant slots[..] == was
      {
        assert was[i..][1..] == was[i + 1..];
        if !slots[i].used {
          slots[i] := Slot(obj, kind, rights, slots[i].generation, true);
          assert slots[..] == was[i := slots[i]];
          return Ok, Make(i, slots[i].generation);
        }
      }
      return NoMemory, INVALID_HANDLE;
    }

    /** `trt_handle_lookup` */
    method Lookup(handle: uint32, kind: Kind, rights: uint32) returns (code: Error, obj: Option<ObjectId>)
      requires Valid()
      ensures (code, obj) == Handles.Lookup(slots[..], handle, kind, rights)
    {
      var i := FindSlot(handle);
      if i.None? {
        return Invalid, None;
      }
      var slot := slots[i.value];
      if kind != AnyKind && slot.kind != kind {
        return Invalid, None;
      }
      if Bitmap.And(slot.rights, rights) != rights {
        return NotPermitted, None;
      }
      return Ok, slot.obj;
    }

    /** `trt_handle_close` */
    method Close(handle: uint32) returns (code: Error)
      requires Valid()
      modifies this`closes, slots
      ensures Valid() && (slots[..], code) == Handles.Close(old(slots[..]), handle)
      ensures State() == Apply(old(State()), DoClose(handle))
    {
      ghost var was := State();
      var i := FindSlot(handle);
      if i.None? {
        return Invalid;
      }
      var next := (slots[i.value].generation + 1) % INDEX_RANGE;
      if next == 0 {
        next := 1;
      }
      slots[i.value] := Slot(None, AnyKind, 0, next, false);
      closes := closes[i.value := closes[i.value] + 1];
      assert slots[..] == was.table[i.value := slots[i.value]];
      assert State() == Apply(was, DoClose(handle));
      code := Ok;
    }

    /** `trt_handle_valid` */
    method IsValid(handle: uint32) returns (valid: bool)
      requires Valid()
      ensures valid <==> GetSlot(slots[..], handle).Some?
    {
      NothingIsAsked(slots[..], handle);
      var code, _ := Lookup(handle, AnyKind, 0);
      valid := code == Ok;
    }
  }

  lemma NothingIsAsked(table: seq<Slot>, handle: uint32)
    ensures Handles.Lookup(table, handle, AnyKind, 0).0 == Ok <==> GetSlot(table, handle).Some?
  {
    if GetSlot(table, handle).Some? {
      NothingIsGranted(table[GetSlot(table, handle).value].rights);
    }
  }
}
