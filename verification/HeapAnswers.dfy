/** When the heap's calls succeed, and how much of the heap they take. */
module HeapAnswers {
  import opened TickTime
  import opened Common
  import opened Heap

  /** A free block can hold `size` bytes. */
  ghost predicate Fits(blocks: seq<Block>, size: nat) {
    exists b | b in blocks :: b.free && b.size >= size
  }

  /** An allocation fails exactly if it asks for nothing or no free block is big enough. It takes the lowest block that
      is, and of that less than a header and one unit more than the rounded size. */
  lemma MallocAnswers(blocks: seq<Block>, request: uint32, lo: nat, hi: nat)
    requires Laid(blocks, lo, hi)
    ensures var (after, p) := Malloc(blocks, request);
            var size := AlignSize(request);
            && (p == None <==> request == 0 || !Fits(blocks, size))
            && (p == None ==> after == blocks)
            && (p.Some? ==>
                  && (forall b | b in blocks && b.free && b.size >= size :: p.value <= Payload(b))
                  && var i := IndexAt(after, p.value);
                     i < |after| && size <= after[i].size < size + HEADER + ALIGNMENT)
  {
    hide Laid, Split, SetUsed, AlignSize;
    var size := AlignSize(request);
    var i := FirstFit(blocks, size);
    LaidTiles(blocks, lo, hi);
    if i < |blocks| {
      assert blocks[i] in blocks && Fits(blocks, size);
      if request != 0 {
        MallocShape(blocks, request, lo, hi);
        BlockAt(blocks, i, lo, hi);
        LaidTiles(blocks, lo, hi);
        SizeOfPiece(blocks[i], request, lo, hi);
        PieceIsFirst(blocks, i, size);
        forall b | b in blocks && b.free && b.size >= size ensures Payload(blocks[i]) <= Payload(b) {
          var j :| 0 <= j < |blocks| && blocks[j] == b;
          if i < j {
            BlocksApart(blocks, i, j, lo, hi);
          }
        }
      }
    } else {
      NoFit(blocks, size);
    }
  }

  lemma PieceIsFirst(blocks: seq<Block>, i: nat, size: nat)
    requires i < |blocks| && size <= blocks[i].size
    ensures var piece := SetUsed(Split(blocks[i], size));
            (blocks[..i] + piece + blocks[i + 1..])[i] == piece[0] && piece[0].size == Split(blocks[i], size)[0].size
  {
  }

  lemma NoFit(blocks: seq<Block>, size: nat)
    requires FirstFit(blocks, size) == |blocks|
    ensures !Fits(blocks, size)
  {
    forall b | b in blocks ensures !(b.free && b.size >= size) {
      var j :| 0 <= j < |blocks| && blocks[j] == b;
    }
  }

  /** A reallocation of a live pointer keeps the pointer exactly if its block holds the rounded size, and gives back all
      but less than a header and one unit of the rest; it moves exactly if it needs more and a free block has it; it
      fails, leaving everything as it was, exactly if it needs more and none does. */
  lemma ReallocAnswers(blocks: seq<Block>, p: nat, request: uint32, lo: nat, hi: nat)
    requires Laid(blocks, lo, hi) && Live(blocks, p) && request != 0
    ensures var (after, q) := Realloc(blocks, p, request);
            var size := AlignSize(request);
            var room := blocks[IndexAt(blocks, p)].size >= size;
            && (q == Some(p) <==> room)
            && (q == None <==> !room && !Fits(blocks, size))
            && (q == None ==> after == blocks)
            && (room ==> IndexAt(after, p) < |after| && after[IndexAt(after, p)].size < size + HEADER + ALIGNMENT)
  {
    hide Laid, Split, AlignSize, Malloc, Free, Live;
    var size := AlignSize(request);
    LiveIndex(blocks, p, lo, hi);
    var i := IndexAt(blocks, p);
    if blocks[i].size >= size {
      LaidTiles(blocks, lo, hi);
      BlockAt(blocks, i, lo, hi);
      SizeOfPiece(blocks[i], request, lo, hi);
      ShrinkKeeps(blocks, i, size, lo, hi);
      var after := Shrink(blocks, i, size);
      LaidTiles(after, lo, hi);
      IndexIsUnique(after, i, p, lo, hi);
      assert after[i] == Split(blocks[i], size)[0];
    } else {
      RoundingTwice(request);
      MallocAnswers(blocks, size, lo, hi);
      if Malloc(blocks, size).1.Some? {
        MallocReturns(blocks, size, lo, hi);
      }
    }
  }

  /** A rounded size is its own rounding, and is not zero where it is more than some block holds. */
  lemma RoundingTwice(request: uint32)
    ensures AlignSize(AlignSize(request)) == AlignSize(request)
  {
  }

  /** What a free gives back: the block's bytes, and a header for each neighbour it merges with. */
  lemma FreeGivesBack(blocks: seq<Block>, p: nat, lo: nat, hi: nat)
    requires Laid(blocks, lo, hi) && Live(blocks, p)
    ensures var b := blocks[IndexAt(blocks, p)];
            var after := Free(blocks, p);
            FreeSize(after) == FreeSize(blocks) + b.size + HEADER * (|blocks| - |after|)
  {
    hide Laid, Free, Coalesced;
    LiveIndex(blocks, p, lo, hi);
    LaidTiles(blocks, lo, hi);
    var i := IndexAt(blocks, p);
    FreeIsCoalesced(blocks, i, lo, hi);
    CoalescedSize(blocks, i);
  }

  lemma {:induction false} FreeConcat(a: seq<Block>, b: seq<Block>)
    ensures FreeSize(a + b) == FreeSize(a) + FreeSize(b)
  {
    if a == [] {
      assert a + b == b;
    } else {
      assert (a + b)[1..] == a[1..] + b;
      FreeConcat(a[1..], b);
    }
  }

  lemma CoalescedSize(blocks: seq<Block>, i: nat)
    requires i < |blocks| && !blocks[i].free
    ensures FreeSize(Coalesced(blocks, i)) ==
            FreeSize(blocks) + blocks[i].size + HEADER * (|blocks| - |Coalesced(blocks, i)|)
  {
    hide Extent, Merged, FreeSize;
    var from, to := First(blocks, i), Last(blocks, i);
    var a, x, b := blocks[..from], blocks[from..to], blocks[to..];
    assert blocks == a + x + b;
    assert Coalesced(blocks, i) == a + [Merged(x)] + b;
    FreeConcat(a + x, b);
    FreeConcat(a, x);
    FreeConcat(a + [Merged(x)], b);
    FreeConcat(a, [Merged(x)]);
    StretchSize(x, i - from);
  }

  /** A used block with at most one free block on either side, merged. */
  lemma StretchSize(x: seq<Block>, i: nat)
    requires i <= 1 && i < |x| <= i + 2 && !x[i].free && forall j | 0 <= j < |x| && j != i :: x[j].free
    ensures FreeSize([Merged(x)]) == FreeSize(x) + x[i].size + HEADER * (|x| - 1)
  {
    OneFree(Merged(x));
    Unfolded(x);
    if |x| > 1 {
      Unfolded(x[1..]);
      assert x[1..][0] == x[1] && x[1..][1..] == x[2..];
    }
    if |x| > 2 {
      Unfolded(x[2..]);
      assert x[2..][0] == x[2] && x[2..][1..] == x[3..];
    }
    assert x[|x|..] == [];
    EmptySums();
    hide Extent, FreeSize;
    assert Merged(x).size == Extent(x) - HEADER;
  }

  lemma Unfolded(x: seq<Block>)
    requires x != []
    ensures Extent(x) == HEADER + x[0].size + Extent(x[1..])
    ensures FreeSize(x) == (if x[0].free then x[0].size else 0) + FreeSize(x[1..])
  {
  }

  lemma EmptySums()
    ensures Extent([]) == 0 && FreeSize([]) == 0
  {
  }

  lemma OneFree(b: Block)
    requires b.free
    ensures FreeSize([b]) == b.size
  {
    assert [b][1..] == [];
  }
}
