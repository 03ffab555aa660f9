/** `malloc.c` itself: the block list walked and edited in place, and the bytes of the heap, so that what
    `calloc` and `realloc` do to memory can be said. */
module HeapObject {
  import opened Common
  import opened TickTime
  import opened Heap

  class HeapObject {
    /** The ends of the region, aligned. */
    const start: uint32
    const end: uint32
    /** The stretch the blocks tile: the region, or nothing of it if it is too small for a header. */
    ghost const lo: nat
    ghost const hi: nat
    var blocks: seq<Block>
    /** The heap's bytes; index zero is the byte at address `start`. */
    const memory: array<byte>

    ghost predicate Valid()
      reads this
    {
      && Laid(blocks, lo, hi) && memory.Length == hi - lo
      && lo == start && hi == if end <= start + HEADER then lo else end
    }

    /** `heap_init_once` for a region inside the 32-bit address space, address zero and the last eight left out */
    constructor (first: uint32, last: uint32)
      requires 0 < first && first <= WORD - 2 * ALIGNMENT && last < WORD - ALIGNMENT
      ensures Valid() && start == AlignUp(first) && end == AlignDown(last)
      ensures blocks == Initial(start, end) && NoTwoFree(blocks)
    {
      var from, to := AlignUp(first), AlignDown(last);
      start, end, lo := from, to, from;
      if to <= from + HEADER {
        hi := from;
        blocks := [];
        memory := new byte[0];
      } else {
        InitialWellFormed(from, to);
        hi := to;
        blocks := [Block(from, to - from - HEADER, true)];
        memory := new byte[to - from](i => 0);
      }
    }

    /** `heap_total_size` */
    function Total(): (total: uint32)
      ensures total == TotalSize(start, end)
    {
      if end > start then Low(end - start - HEADER) else 0
    }

    /** `malloc` */
    method Malloc(request: uint32) returns (p: Option<nat>)
      requires Valid()
      modifies `blocks
      ensures Valid() && (blocks, p) == Heap.Malloc(old(blocks), request)
      ensures old(NoTwoFree(blocks)) ==> NoTwoFree(blocks)
    {
      hide Laid, NoTwoFree, Split, SetUsed, AlignSize;
      MallocKeeps(blocks, request, lo, hi);
      if request == 0 {
        return None;
      }
      var size := AlignSize(request);
      var i := 0;
      while i < |blocks| && !(blocks[i].free && blocks[i].size >= size)
        invariant i <= |blocks|
        invariant FirstFit(blocks, size) == i + FirstFit(blocks[i..], size)
      {
        assert blocks[i..][1..] == blocks[i + 1..];
        i := i + 1;
      }
      if i == |blocks| {
        return None;
      }
      p := Some(Payload(blocks[i]));
      blocks := blocks[..i] + SetUsed(Split(blocks[i], size)) + blocks[i + 1..];
    }

    /** `free` of a pointer `malloc` returned */
    method Free(p: nat)
      requires Valid() && Live(blocks, p)
      modifies `blocks
      ensures Valid() && blocks == Heap.Free(old(blocks), p)
      ensures old(NoTwoFree(blocks)) ==> NoTwoFree(blocks)
    {
      FreeKeeps(blocks, p, lo, hi);
      var i := IndexAt(blocks, p);
      blocks := blocks[i := blocks[i].(free := true)];
      blocks := MergeNext(blocks, i);
      if i > 0 {
        var prev := blocks[i - 1];
        if prev.free && After(prev) == blocks[i].addr {
          blocks := MergeNext(blocks, i - 1);
        }
      }
    }

    /** `heap_free_size` */
    method TotalFree() returns (total: nat)
      ensures total == FreeSize(blocks)
    {
      total := 0;
      var i := 0;
      while i < |blocks|
        invariant i <= |blocks|
        invariant FreeSize(blocks) == total + FreeSize(blocks[i..])
      {
        assert blocks[i..][1..] == blocks[i + 1..];
        if blocks[i].free {
          total := total + blocks[i].size;
        }
        i := i + 1;
      }
    }

    /** The zeroing loop of `calloc` */
    method ZeroRange(from: nat, n: nat)
      requires from + n <= memory.Length
      modifies memory
      ensures forall a | 0 <= a < memory.Length ::
                memory[a] == if from <= a < from + n then 0 else old(memory[a])
    {
      var i := 0;
      while i < n
        invariant i <= n
        invariant forall a | 0 <= a < memory.Length ::
                    memory[a] == if from <= a < from + i then 0 else old(memory[a])
      {
        memory[from + i] := 0;
        i := i + 1;
      }
    }

    /** The copy loop of `realloc`, between ranges that do not meet */
    method CopyRange(to: nat, from: nat, n: nat)
      requires to + n <= memory.Length && from + n <= memory.Length
      requires to + n <= from || from + n <= to
      modifies memory
      ensures forall a | 0 <= a < memory.Length ::
                memory[a] == if to <= a < to + n then old(memory[from + (a - to)]) else old(memory[a])
    {
      var i := 0;
      while i < n
        invariant i <= n
        invariant forall a | 0 <= a < memory.Length ::
                    memory[a] == if to <= a < to + i then old(memory[from + (a - to)]) else old(memory[a])
      {
        memory[to + i] := memory[from + i];
        i := i + 1;
      }
    }

    /** `calloc`: an overflowing product is refused, and the memory returned is all zero. Products above 2^32 - 8,
        whose rounded size is zero, are covered only when the allocation fails: when it succeeds the zeroing loop runs
        past the block. */
    method Calloc(count: uint32, size: uint32) returns (p: Option<nat>)
      requires Valid()
      requires match Product(count, size)
               case None => true
               case Some(total) => total <= MAX_REQUEST || Heap.Malloc(blocks, total).1 == None
      modifies `blocks, memory
      ensures Valid()
      ensures match Product(count, size)
              case None => p == None && blocks == old(blocks)
              case Some(total) => (blocks, p) == Heap.Malloc(old(blocks), total)
      ensures p.Some? ==>
                && lo <= p.value && p.value + count * size <= hi
                && forall a | p.value - lo <= a < p.value - lo + count * size :: memory[a] == 0
      ensures p.None? ==> memory[..] == old(memory[..])
      ensures OthersKept(old(blocks), old(memory[..]), memory[..], lo, 0)
    {
      if count != 0 && size > UINT32_MAX / count {
        return None;
      }
      NoOverflow(count, size);
      var total := count * size;
      ghost var was, before := blocks, memory[..];
      p := Malloc(total);
      if p.None? {
        MallocRefused(was, total);
        return;
      }
      MallocReturns(was, total, lo, hi);
      ghost var mine := blocks[IndexAt(blocks, p.value)];
      ZeroRange(p.value - start, total);
      WritesInside(was, mine, before, memory[..], lo, hi, 0);
    }

    /** `realloc` */
    method Realloc(p: Option<nat>, request: uint32) returns (q: Option<nat>)
      requires Valid() && (p.Some? ==> Live(blocks, p.value))
      modifies `blocks, memory
      ensures Valid()
      ensures (blocks, q) == match p
                             case None => Heap.Malloc(old(blocks), request)
                             case Some(addr) => Heap.Realloc(old(blocks), addr, request)
      ensures p.None? || request == 0 || request > MAX_REQUEST ==> memory[..] == old(memory[..])
      ensures p.Some? && 0 < request <= MAX_REQUEST ==>
                Reallocated(old(blocks), old(memory[..]), blocks, memory[..], lo, p.value, request, q)
      ensures p.Some? && request > MAX_REQUEST ==> q == p && ShrunkToNothing(old(blocks), blocks, p.value)
    {
      hide Laid, Live, Heap.Free, Reallocated, ShrunkToNothing;
      match p
      case None =>
        q := Malloc(request);
      case Some(addr) =>
        if request == 0 {
          Free(addr);
          return None;
        }
        q := ReallocLive(addr, request);
    }

    /** `realloc` of a live pointer to a size that is not zero */
    method ReallocLive(p: nat, request: uint32) returns (q: Option<nat>)
      requires Valid() && Live(blocks, p) && 0 < request
      modifies `blocks, memory
      ensures Valid() && (blocks, q) == Heap.Realloc(old(blocks), p, request)
      ensures request <= MAX_REQUEST ==>
                Reallocated(old(blocks), old(memory[..]), blocks, memory[..], lo, p, request, q)
      ensures request > MAX_REQUEST ==>
                memory[..] == old(memory[..]) && q == Some(p) && ShrunkToNothing(old(blocks), blocks, p)
    {
      hide Laid, Split, OthersKept, Replaced, Reallocated, SameBytes, Heap.Malloc, Heap.Free, Live;
      LiveIndex(blocks, p, lo, hi);
      ReallocReturns(blocks, p, request, lo, hi);
      var i := IndexAt(blocks, p);
      var block := blocks[i];
      InsideHeap(blocks, block, lo, hi);
      AlignSizeCoversIff(request);
      var size := AlignSize(request);
      ghost var was, before := blocks, memory[..];
      SameMemoryKept(was, before, lo, p);
      if block.size >= size {
        blocks := blocks[..i] + Split(block, size) + blocks[i + 1..];
        if request <= MAX_REQUEST {
          InPlace(was, blocks, before, lo, hi, p, request);
        }
        return Some(p);
      }
      MallocKeepsLive(blocks, size, p);
      q := Malloc(size);
      if q.None? {
        MallocRefused(was, size);
        NotMoved(was, before, lo, p, request);
        return;
      }
      q := GrowInto(was, block, p, q.value, size);
      Moved(was, before, blocks, memory[..], lo, hi, p, request, q.value);
    }

    /** The moving path of `realloc`, once the new block is there. */
    method GrowInto(ghost was: seq<Block>, block: Block, p: nat, to: nat, size: uint32) returns (q: Option<nat>)
      requires Valid() && Laid(was, lo, hi) && 0 < size <= MAX_REQUEST && size % ALIGNMENT == 0 && block.size < size
      requires block in was && !block.free && Payload(block) == p
      requires (blocks, Some(to)) == Heap.Malloc(was, size) && Live(blocks, p)
      modifies `blocks, memory
      ensures Valid() && q == Some(to) && blocks == Heap.Free(old(blocks), p)
      ensures lo <= p && After(block) <= hi && lo <= to && to + size <= hi
      ensures TakesPlace(was, blocks, p, to, size)
      ensures SameBytes(old(memory[..]), p - lo, memory[..], to - lo, block.size)
      ensures OthersKept(was, old(memory[..]), memory[..], lo, p)
    {
      hide Laid, Live, Heap.Malloc, Heap.Free, OthersKept;
      ghost var before := memory[..];
      assert Live(was, p) by {
        Used(was, block);
      }
      MallocReturns(was, size, lo, hi);
      GrownReplaces(was, p, size, lo, hi);
      ghost var mine := blocks[IndexAt(blocks, to)];
      InsideHeap(was, block, lo, hi);
      assert Apart(block, mine);
      CopyRange(to - start, p - start, block.size);
      assert SameBytes(before, p - lo, memory[..], to - lo, block.size);
      WritesInside(was, mine, before, memory[..], lo, hi, p);
      Free(p);
      q := Some(to);
    }
  }

  /** The size `calloc` asks for, if the product fits 32 bits. */
  function Product(count: uint32, size: uint32): (total: Option<uint32>)
    ensures total.Some? ==> total.value == count * size
    ensures total.None? <==> count * size > UINT32_MAX
  {
    if count != 0 && size > UINT32_MAX / count then
      TooBig(count, size);
      None
    else
      NoOverflow(count, size);
      Some(count * size)
  }

  lemma TooBig(count: uint32, size: uint32)
    requires count != 0 && size > UINT32_MAX / count
    ensures count * size > UINT32_MAX
  {
    assert count * size >= count * (UINT32_MAX / count + 1);
  }

  /** The payload bytes of a block. */
  function BytesOf(memory: seq<byte>, b: Block, lo: nat): seq<byte> {
    if lo <= Payload(b) && After(b) - lo <= |memory| then memory[Payload(b) - lo..After(b) - lo] else []
  }

  /** No payload in use changes, but perhaps the one at `except`. */
  ghost predicate OthersKept(blocks: seq<Block>, before: seq<byte>, after: seq<byte>, lo: nat, except: nat) {
    forall b | b in blocks && !b.free && Payload(b) != except :: BytesOf(after, b, lo) == BytesOf(before, b, lo)
  }

  lemma SameMemoryKept(blocks: seq<Block>, memory: seq<byte>, lo: nat, except: nat)
    ensures OthersKept(blocks, memory, memory, lo, except)
  {
  }

  function Smaller(a: nat, b: nat): nat {
    if a < b then a else b
  }

  /** The payload size of the block at `p`. */
  function SizeAt(blocks: seq<Block>, p: nat): nat {
    if IndexAt(blocks, p) < |blocks| then blocks[IndexAt(blocks, p)].size else 0
  }

  /** In place of the block at `p` there is one of at least `size` bytes at `q`, apart from every other block in use,
      and all of those stay as they are. */
  ghost predicate TakesPlace(was: seq<Block>, now: seq<Block>, p: nat, q: nat, size: nat) {
    var i := IndexAt(now, q);
    i < |now| && now[i].size >= size && Replaced(was, now, p, now[i])
  }

  /** The `n` bytes at `from` before are the `n` bytes at `to` after. */
  predicate SameBytes(before: seq<byte>, from: nat, after: seq<byte>, to: nat, n: nat) {
    from + n <= |before| && to + n <= |after| && after[to..to + n] == before[from..from + n]
  }

  /** What `realloc` of the live pointer `p` promises of its result `q`. On success a block of at least `request` bytes
      takes its place, and its first bytes, as many as both sizes have, are those of the old block. On failure nothing
      has changed. In neither case has any other payload in use been touched. */
  ghost predicate Reallocated(was: seq<Block>, before: seq<byte>, now: seq<Block>, after: seq<byte>,
                              lo: nat, p: nat, request: uint32, q: Option<nat>) {
    && OthersKept(was, before, after, lo, p)
    && (q.None? ==> now == was && after == before)
    && (q.Some? ==>
          && TakesPlace(was, now, p, q.value, request)
          && |after| == |before| && lo <= p && lo <= q.value && q.value - lo + request <= |after|
          && SameBytes(before, p - lo, after, q.value - lo, Smaller(SizeAt(was, p), request)))
  }

  lemma Used(blocks: seq<Block>, b: Block)
    requires b in blocks && !b.free
    ensures Live(blocks, Payload(b))
  {
  }

  lemma TakesPlaceInside(was: seq<Block>, now: seq<Block>, p: nat, q: nat, size: nat, lo: nat, hi: nat)
    requires TakesPlace(was, now, p, q, size) && Laid(now, lo, hi)
    ensures lo <= q && q + size <= hi
  {
    hide Laid, Replaced;
    InsideHeap(now, now[IndexAt(now, q)], lo, hi);
  }

  lemma InPlace(was: seq<Block>, now: seq<Block>, memory: seq<byte>, lo: nat, hi: nat, p: nat, request: uint32)
    requires OthersKept(was, memory, memory, lo, p) && Laid(now, lo, hi) && |memory| == hi - lo
    requires lo <= p && p + SizeAt(was, p) <= hi && TakesPlace(was, now, p, p, request)
    ensures Reallocated(was, memory, now, memory, lo, p, request, Some(p))
  {
    hide OthersKept, Laid, TakesPlace, SizeAt;
    TakesPlaceInside(was, now, p, p, request, lo, hi);
  }

  lemma NotMoved(was: seq<Block>, memory: seq<byte>, lo: nat, p: nat, request: uint32)
    requires OthersKept(was, memory, memory, lo, p)
    ensures Reallocated(was, memory, was, memory, lo, p, request, None)
  {
  }

  lemma Moved(was: seq<Block>, before: seq<byte>, now: seq<Block>, after: seq<byte>,
              lo: nat, hi: nat, p: nat, request: uint32, to: nat)
    requires OthersKept(was, before, after, lo, p) && Laid(now, lo, hi) && |after| == |before| == hi - lo
    requires lo <= p && lo <= to && TakesPlace(was, now, p, to, request)
    requires SameBytes(before, p - lo, after, to - lo, SizeAt(was, p))
    ensures Reallocated(was, before, now, after, lo, p, request, Some(to))
  {
    hide OthersKept, Laid, TakesPlace, SizeAt, SameBytes;
    TakesPlaceInside(was, now, p, to, request, lo, hi);
    FewerBytes(before, p - lo, after, to - lo, SizeAt(was, p), Smaller(SizeAt(was, p), request));
  }

  lemma FewerBytes(before: seq<byte>, from: nat, after: seq<byte>, to: nat, n: nat, fewer: nat)
    requires SameBytes(before, from, after, to, n) && fewer <= n
    ensures SameBytes(before, from, after, to, fewer)
  {
    assert after[to..to + fewer] == after[to..to + n][..fewer];
    assert before[from..from + fewer] == before[from..from + n][..fewer];
  }

  /** What `realloc` does above 2^32 - 8, where the rounded size is zero: it reports success and gives the payload
      back to the heap. */
  ghost predicate ShrunkToNothing(was: seq<Block>, now: seq<Block>, p: nat)
    requires Live(was, p)
  {
    now == Shrink(was, IndexAt(was, p), 0)
  }

  lemma InsideHeap(blocks: seq<Block>, b: Block, lo: nat, hi: nat)
    requires Laid(blocks, lo, hi) && b in blocks
    ensures lo <= b.addr && After(b) <= hi
  {
    var j :| 0 <= j < |blocks| && blocks[j] == b;
    BlockAt(blocks, j, lo, hi);
  }

  /** Writes that stay inside one payload touch no other used block. */
  lemma WritesInside(blocks: seq<Block>, mine: Block, before: seq<byte>, after: seq<byte>,
                     lo: nat, hi: nat, except: nat)
    requires Laid(blocks, lo, hi) && |before| == |after| == hi - lo
    requires forall b | b in blocks && !b.free :: Apart(b, mine)
    requires forall a | 0 <= a < |before| && !(Payload(mine) <= a + lo < After(mine)) :: after[a] == before[a]
    ensures OthersKept(blocks, before, after, lo, except)
  {
    forall b | b in blocks && !b.free ensures BytesOf(after, b, lo) == BytesOf(before, b, lo) {
      InsideHeap(blocks, b, lo, hi);
      assert Apart(b, mine);
    }
  }

  lemma NoOverflow(count: uint32, size: uint32)
    requires count == 0 || size <= UINT32_MAX / count
    ensures 0 <= count * size <= UINT32_MAX
  {
    if count != 0 {
      assert count * size <= count * (UINT32_MAX / count);
    }
  }
}
