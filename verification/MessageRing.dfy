/** The ring of a message queue: `qlen + 1` slots of `cap` bytes in one flat array, `head` the next free slot
    and `tail` the oldest message. It holds a sequence of at most `qlen` zero-padded messages. */
module MessageRing {
  import opened Common
  import MessageQueue

  type Message = MessageQueue.Message

  // ----- slots of a flat array

  lemma SlotBounds(i: nat, slots: nat, cap: nat)
    requires i < slots
    ensures i * cap + cap <= slots * cap
  {
    assert (i + 1) * cap <= slots * cap;
  }

  lemma SlotsApart(i: nat, j: nat, cap: nat)
    requires i < j
    ensures i * cap + cap <= j * cap
  {
    SlotBounds(i, j, cap);
  }

  /** The bytes of slot `i`. */
  function SlotOf(bytes: seq<byte>, cap: nat, i: nat): Message
    requires i * cap + cap <= |bytes|
  {
    bytes[i * cap..i * cap + cap]
  }

  /** Writing one slot leaves the others. */
  lemma OtherSlots(before: seq<byte>, after: seq<byte>, cap: nat, slots: nat, i: nat, j: nat)
    requires |before| == |after| == slots * cap && i < slots && j < slots && i != j
    requires i * cap + cap <= |after|
    requires forall b | 0 <= b < |before| && !(i * cap <= b < i * cap + cap) :: after[b] == before[b]
    ensures j * cap + cap <= |after| && SlotOf(after, cap, j) == SlotOf(before, cap, j)
  {
    SlotBounds(j, slots, cap);
    if i < j {
      SlotsApart(i, j, cap);
    } else {
      SlotsApart(j, i, cap);
    }
  }

  /** The slot `j` places after `tail`. */
  function Place(tail: nat, j: nat, qlen: nat): nat {
    if tail + j <= qlen then tail + j else tail + j - (qlen + 1)
  }

  function Used(head: nat, tail: nat, qlen: nat): nat
    requires head <= qlen && tail <= qlen
  {
    if head >= tail then head - tail else qlen + 1 - tail + head
  }

  /** The messages from `tail` up to `head`, oldest first. */
  function Held(bytes: seq<byte>, cap: nat, qlen: nat, head: nat, tail: nat): (s: seq<Message>)
    requires |bytes| == (qlen + 1) * cap && head <= qlen && tail <= qlen
    ensures |s| == Used(head, tail, qlen)
  {
    seq(Used(head, tail, qlen), j requires 0 <= j < Used(head, tail, qlen) =>
      (SlotBounds(Place(tail, j, qlen), qlen + 1, cap); SlotOf(bytes, cap, Place(tail, j, qlen))))
  }

  class Ring {
    const cap: nat
    const qlen: nat
    const buf: array<byte>
    var head: nat
    var tail: nat

    ghost predicate Valid()
      reads this
    {
      && cap >= 1 && qlen >= 1
      && buf.Length == (qlen + 1) * cap
      && head <= qlen && tail <= qlen
    }

    /** The deque this ring stands for. */
    ghost function Contents(): seq<Message>
      requires Valid()
      reads this, buf
    {
      Held(buf[..], cap, qlen, head, tail)
    }

    /** `msg_q_create_obj`, once its arguments and allocations are good */
    constructor (cap: nat, qlen: nat)
      requires cap >= 1 && qlen >= 1
      ensures Valid() && this.cap == cap && this.qlen == qlen && fresh(buf)
      ensures Contents() == []
    {
      this.cap := cap;
      this.qlen := qlen;
      assert (qlen + 1) * cap >= 0;
      buf := new byte[(qlen + 1) * cap](i => 0);
      head, tail := 0, 0;
    }

    /** `msg_q_next` */
    function Successor(index: nat): (next: nat)
      requires index <= qlen
      ensures next <= qlen && next == if index == qlen then 0 else index + 1
    {
      (index + 1) % (qlen + 1)
    }

    /** `msg_q_is_full_obj`: all `qlen` places are taken. */
    method IsFull() returns (full: bool)
      requires Valid()
      ensures full <==> |Contents()| == qlen
    {
      full := Successor(head) == tail;
    }

    /** `msg_q_is_empty_obj` */
    method IsEmpty() returns (empty: bool)
      requires Valid()
      ensures empty <==> Contents() == []
    {
      empty := head == tail;
    }

    /** `msg_q_count_obj`, in both of its branches */
    method Count() returns (count: nat)
      requires Valid()
      ensures count == |Contents()| <= qlen
    {
      if head >= tail {
        count := head - tail;
      } else {
        count := (qlen + 1) - tail + head;
      }
    }

    /** `msg_q_zero` on a slot */
    method Zero(from: nat, size: nat)
      requires from + size <= buf.Length
      modifies buf
      ensures forall b | 0 <= b < buf.Length ::
                buf[b] == if from <= b < from + size then 0 else old(buf[b])
    {
      var i := 0;
      while i < size
        invariant i <= size
        invariant forall b | 0 <= b < buf.Length ::
                    buf[b] == if from <= b < from + i then 0 else old(buf[b])
      {
        buf[from + i] := 0;
        i := i + 1;
      }
    }

    /** `msg_q_copy` into a slot */
    method CopyIn(from: nat, data: seq<byte>)
      requires from + |data| <= buf.Length
      modifies buf
      ensures forall b | 0 <= b < buf.Length ::
                buf[b] == if from <= b < from + |data| then data[b - from] else old(buf[b])
    {
      var i := 0;
      while i < |data|
        invariant i <= |data|
        invariant forall b | 0 <= b < buf.Length ::
                    buf[b] == if from <= b < from + i then data[b - from] else old(buf[b])
      {
        buf[from + i] := data[i];
        i := i + 1;
      }
    }

    /** `msg_q_copy` out of a slot */
    method CopyOut(from: nat) returns (message: Message)
      requires from + cap <= buf.Length
      ensures message == buf[from..from + cap]
    {
      message := [];
      var i := 0;
      while i < cap
        invariant i <= cap
        invariant message == buf[from..from + i]
      {
        message := message + [buf[from + i]];
        i := i + 1;
      }
    }

    /** Zeroes a slot and copies the data in: no byte outside the slot changes. */
    method Fill(i: nat, data: seq<byte>)
      requires Valid() && i <= qlen && |data| <= cap
      modifies buf
      ensures i * cap + cap <= buf.Length
      ensures SlotOf(buf[..], cap, i) == MessageQueue.Padded(data, cap)
      ensures forall b | 0 <= b < buf.Length && !(i * cap <= b < i * cap + cap) :: buf[b] == old(buf[b])
    {
      SlotBounds(i, qlen + 1, cap);
      Zero(i * cap, cap);
      CopyIn(i * cap, data);
      assert SlotOf(buf[..], cap, i) == MessageQueue.Padded(data, cap);
    }

    /** The enqueue of `msg_q_send_obj` */
    method PushBack(data: seq<byte>)
      requires Valid() && |data| <= cap && |Contents()| < qlen
      modifies this`head, buf
      ensures Valid()
      ensures Contents() == old(Contents()) + [MessageQueue.Padded(data, cap)]
    {
      ghost var before, was := buf[..], Contents();
      Fill(head, data);
      ghost var slot := head;
      head := Successor(head);
      forall j | 0 <= j < |was| ensures Contents()[j] == was[j] {
        OtherSlots(before, buf[..], cap, qlen + 1, slot, Place(tail, j, qlen));
      }
    }

    /** The enqueue of `msg_q_send_front_obj` */
    method PushFront(data: seq<byte>)
      requires Valid() && |data| <= cap && |Contents()| < qlen
      modifies this`tail, buf
      ensures Valid()
      ensures Contents() == [MessageQueue.Padded(data, cap)] + old(Contents())
    {
      ghost var before, was, from := buf[..], Contents(), tail;
      tail := if tail == 0 then qlen else tail - 1;
      Fill(tail, data);
      forall j | 0 <= j < |was| ensures Contents()[j + 1] == was[j] {
        assert Place(tail, j + 1, qlen) == Place(from, j, qlen);
        OtherSlots(before, buf[..], cap, qlen + 1, tail, Place(from, j, qlen));
      }
    }

    /** The copy of `msg_q_peek_obj` */
    method Front() returns (message: Message)
      requires Valid() && Contents() != []
      ensures message == Contents()[0]
    {
      SlotBounds(tail, qlen + 1, cap);
      message := CopyOut(tail * cap);
    }

    /** The dequeue of `msg_q_recv_obj` */
    method PopFront() returns (message: Message)
      requires Valid() && Contents() != []
      modifies this`tail
      ensures Valid()
      ensures [message] + Contents() == old(Contents())
    {
      ghost var was, from := Contents(), tail;
      message := Front();
      tail := Successor(tail);
      assert |was| == 1 + |Contents()|;
      forall j | 0 <= j < |Contents()| ensures Contents()[j] == was[j + 1] {
        assert Place(tail, j, qlen) == Place(from, j + 1, qlen);
      }
    }
  }
}
