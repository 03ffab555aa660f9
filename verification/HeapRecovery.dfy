/** How far a heap in which everything has been freed is from its initial state. Two free blocks come to lie side by
    side only by a shrink that splits in front of a free block, and cease to only by an allocation of one of them. */
module HeapRecovery {
  import opened TickTime
  import opened Heap

  function One(b: bool): nat {
    if b then 1 else 0
  }

  /** How many blocks are free and followed by a free one. */
  function FreePairs(blocks: seq<Block>): nat {
    if |blocks| < 2 then 0 else One(blocks[0].free && blocks[1].free) + FreePairs(blocks[1..])
  }

  predicate EndsFree(blocks: seq<Block>) {
    blocks != [] && blocks[|blocks| - 1].free
  }

  predicate StartsFree(blocks: seq<Block>) {
    blocks != [] && blocks[0].free
  }

  lemma {:induction false} PairsConcat(a: seq<Block>, b: seq<Block>)
    ensures FreePairs(a + b) == FreePairs(a) + FreePairs(b) + One(EndsFree(a) && StartsFree(b))
  {
    if a == [] {
      assert a + b == b;
    } else {
      assert (a + b)[1..] == a[1..] + b;
      PairsConcat(a[1..], b);
    }
  }

  lemma PairsOfThree(a: seq<Block>, x: seq<Block>, b: seq<Block>)
    requires x != []
    ensures FreePairs(a + x + b) == FreePairs(a) + FreePairs(x) + FreePairs(b)
                                    + One(EndsFree(a) && x[0].free) + One(x[|x| - 1].free && StartsFree(b))
  {
    hide FreePairs;
    PairsConcat(a, x);
    PairsConcat(a + x, b);
    assert (a + x)[|a + x| - 1] == x[|x| - 1];
  }

  // ----- one call

  /** How many pairs of free neighbours an allocation of `size` bytes takes a block from. */
  function PairsTaken(blocks: seq<Block>, request: uint32): nat {
    var i := FirstFit(blocks, AlignSize(request));
    if request == 0 || i == |blocks| then 0
    else
      One(i > 0 && blocks[i - 1].free)
      + One(|Split(blocks[i], AlignSize(request))| == 1 && i + 1 < |blocks| && blocks[i + 1].free)
  }

  /** The same of any call: a reallocation that moves allocates. */
  function Mends(blocks: seq<Block>, c: Call): nat {
    match c
    case Allocate(size) => PairsTaken(blocks, size)
    case Release(_) => 0
    case Resize(p, size) =>
      var i := IndexAt(blocks, p);
      if size == 0 || i == |blocks| || blocks[i].size >= AlignSize(size) then 0
      else PairsTaken(blocks, AlignSize(size))
  }

  lemma SplitLength(b: Block, size: nat)
    requires size <= b.size
    ensures |Split(b, size)| == 1 || |Split(b, size)| == 2
    ensures Split(b, size)[0].free == b.free
    ensures |Split(b, size)| == 2 ==> Split(b, size)[1].free
  {
  }

  lemma PairsOfPiece(piece: seq<Block>)
    requires |piece| == 1 || (|piece| == 2 && !piece[0].free)
    ensures FreePairs(piece) == 0
  {
  }

  /** Block `i` against one or two blocks in its place, the first of them used. */
  lemma PairsReplaced(blocks: seq<Block>, i: nat, piece: seq<Block>)
    requires i < |blocks| && (|piece| == 1 || |piece| == 2) && !piece[0].free
    ensures FreePairs(blocks[..i] + piece + blocks[i + 1..])
            + One(i > 0 && blocks[i - 1].free && blocks[i].free)
            + One(i + 1 < |blocks| && blocks[i + 1].free && blocks[i].free)
            == FreePairs(blocks) + One(piece[|piece| - 1].free && i + 1 < |blocks| && blocks[i + 1].free)
  {
    var a, b := blocks[..i], blocks[i + 1..];
    SplitParts(blocks, i);
    PairsOfThree(a, [blocks[i]], b);
    PairsOfThree(a, piece, b);
    PairsOfPiece(piece);
    PairsOfPiece([blocks[i]]);
  }

  lemma MallocPairs(blocks: seq<Block>, request: uint32)
    ensures FreePairs(Malloc(blocks, request).0) + PairsTaken(blocks, request) == FreePairs(blocks)
  {
    hide AlignSize, FreePairs, Split;
    var size := AlignSize(request);
    var i := FirstFit(blocks, size);
    if request != 0 && i < |blocks| {
      SplitLength(blocks[i], size);
      PairsReplaced(blocks, i, SetUsed(Split(blocks[i], size)));
    }
  }

  lemma ShrinkPairs(blocks: seq<Block>, i: nat, size: nat)
    requires i < |blocks| && !blocks[i].free && size <= blocks[i].size
    ensures FreePairs(Shrink(blocks, i, size)) ==
            FreePairs(blocks) + One(|Split(blocks[i], size)| != 1 && i + 1 < |blocks| && blocks[i + 1].free)
  {
    hide FreePairs, Split;
    SplitLength(blocks[i], size);
    PairsReplaced(blocks, i, Split(blocks[i], size));
  }

  /** Freeing merges with the neighbours a free block would make a pair with, so it makes none and takes none. */
  lemma FreePairsKept(blocks: seq<Block>, p: nat, lo: nat, hi: nat)
    requires Laid(blocks, lo, hi) && Live(blocks, p)
    ensures FreePairs(Free(blocks, p)) == FreePairs(blocks)
  {
    hide Laid, Free, Coalesced, FreePairs;
    LiveIndex(blocks, p, lo, hi);
    LaidTiles(blocks, lo, hi);
    var i := IndexAt(blocks, p);
    FreeIsCoalesced(blocks, i, lo, hi);
    CoalescedPairs(blocks, i);
  }

  lemma CoalescedPairs(blocks: seq<Block>, i: nat)
    requires i < |blocks| && !blocks[i].free
    ensures FreePairs(Coalesced(blocks, i)) == FreePairs(blocks)
  {
    hide FreePairs, Merged;
    var from, to := First(blocks, i), Last(blocks, i);
    var a, x, b := blocks[..from], blocks[from..to], blocks[to..];
    var one := Merged(x);
    assert one.free by {
      MergedFree(x);
    }
    assert blocks == a + x + b;
    assert Coalesced(blocks, i) == a + [one] + b;
    PairsOfThree(a, x, b);
    PairsOfThree(a, [one], b);
    PairsOfPiece([one]);
    StretchPairs(x, i - from);
  }

  lemma MergedFree(x: seq<Block>)
    requires x != []
    ensures Merged(x).free
  {
  }

  /** A used block with at most one on either side. */
  lemma StretchPairs(x: seq<Block>, i: nat)
    requires i <= 1 && i < |x| <= i + 2 && !x[i].free
    ensures FreePairs(x) == 0
  {
    if |x| == 3 {
      assert x[1..][0] == x[1] && |x[1..][1..]| == 1;
      assert FreePairs(x[1..]) == 0;
    }
  }

  lemma MovePairs(blocks: seq<Block>, p: nat, size: uint32, lo: nat, hi: nat)
    requires Laid(blocks, lo, hi) && Live(blocks, p)
    ensures Live(Malloc(blocks, size).0, p)
    ensures FreePairs(Free(Malloc(blocks, size).0, p)) + PairsTaken(blocks, size) == FreePairs(blocks)
  {
    hide Laid, Free, Malloc, FreePairs, PairsTaken, Live;
    MallocKeeps(blocks, size, lo, hi);
    MallocKeepsLive(blocks, size, p);
    MallocPairs(blocks, size);
    FreePairsKept(Malloc(blocks, size).0, p, lo, hi);
  }

  /** Each call adds one pair if it fragments and takes away those it mends, in whatever state the heap is. */
  lemma CallPairs(blocks: seq<Block>, c: Call, lo: nat, hi: nat)
    requires Laid(blocks, lo, hi) && Passes(blocks, c)
    ensures FreePairs(BlocksAfter(blocks, c)) + Mends(blocks, c) == FreePairs(blocks) + One(Fragments(blocks, c))
  {
    hide Laid, Free, Malloc, FreePairs, PairsTaken, AlignSize, Live, Shrink, Split;
    match c
    case Allocate(size) => MallocPairs(blocks, size);
    case Release(p) => FreePairsKept(blocks, p, lo, hi);
    case Resize(p, size) =>
      LiveIndex(blocks, p, lo, hi);
      var i := IndexAt(blocks, p);
      if size == 0 {
        FreePairsKept(blocks, p, lo, hi);
      } else if blocks[i].size >= AlignSize(size) {
        ShrinkPairs(blocks, i, AlignSize(size));
      } else {
        MovePairs(blocks, p, AlignSize(size), lo, hi);
        RefusedTakesNone(blocks, AlignSize(size));
      }
  }

  lemma RefusedTakesNone(blocks: seq<Block>, request: uint32)
    ensures Malloc(blocks, request).1.None? ==> PairsTaken(blocks, request) == 0
  {
  }

  // ----- runs

  /** How many calls of a run fragment. */
  ghost function Broken(blocks: seq<Block>, held: set<nat>, calls: seq<Call>): nat
    requires Legal(blocks, held, calls)
    decreases |calls|
  {
    if calls == [] then 0
    else
      One(Fragments(blocks, calls[0]))
      + Broken(BlocksAfter(blocks, calls[0]), HeldAfter(blocks, held, calls[0]), calls[1..])
  }

  /** How many pairs its allocations mend. */
  ghost function Mended(blocks: seq<Block>, held: set<nat>, calls: seq<Call>): nat
    requires Legal(blocks, held, calls)
    decreases |calls|
  {
    if calls == [] then 0
    else
      Mends(blocks, calls[0])
      + Mended(BlocksAfter(blocks, calls[0]), HeldAfter(blocks, held, calls[0]), calls[1..])
  }

  lemma {:induction false} RunPairs(blocks: seq<Block>, held: set<nat>, calls: seq<Call>, lo: nat, hi: nat)
    requires Laid(blocks, lo, hi) && HeldAreLive(blocks, held) && Legal(blocks, held, calls)
    ensures FreePairs(Run(blocks, held, calls).0) + Mended(blocks, held, calls) ==
            FreePairs(blocks) + Broken(blocks, held, calls)
    decreases |calls|
  {
    hide Laid, HeldAreLive, BlocksAfter, HeldAfter, Passes, Fragments, Mends, FreePairs;
    if calls != [] {
      CallKeeps(blocks, held, calls[0], lo, hi);
      CallPairs(blocks, calls[0], lo, hi);
      RunPairs(BlocksAfter(blocks, calls[0]), HeldAfter(blocks, held, calls[0]), calls[1..], lo, hi);
    }
  }

  lemma {:induction false} AllFree(blocks: seq<Block>)
    requires forall b | b in blocks :: b.free
    ensures UsedSize(blocks) == 0 && |blocks| == FreePairs(blocks) + One(blocks != [])
  {
    if blocks != [] {
      assert blocks[0] in blocks && forall b | b in blocks[1..] :: b in blocks;
      assert |blocks| > 1 ==> blocks[1] in blocks;
      AllFree(blocks[1..]);
    }
  }

  /** A run of allocations, frees and reallocations that holds nothing at its end leaves one free block for each shrink
      that fragmented and was not mended, and one more; the free size is a header short for each. So the heap is its
      initial block again exactly if the allocations have mended as many pairs as the shrinks broke. */
  lemma RecoversIff(calls: seq<Call>, lo: nat, hi: nat)
    requires lo % ALIGNMENT == 0 && hi % ALIGNMENT == 0 && ALIGNMENT <= lo && lo + HEADER < hi <= WORD - ALIGNMENT
    requires Legal(Initial(lo, hi), {}, calls) && Run(Initial(lo, hi), {}, calls).1 == {}
    ensures var start := Initial(lo, hi);
            var (end, broken, mended) :=
              (Run(start, {}, calls).0, Broken(start, {}, calls), Mended(start, {}, calls));
            && mended <= broken
            && |end| == 1 + broken - mended
            && FreeSize(end) == TotalSize(lo, hi) - HEADER * (broken - mended)
            && (end == start <==> broken == mended)
  {
    hide Laid, Live, NoTwoFree, Run, Broken, Mended;
    var start := Initial(lo, hi);
    InitialWellFormed(lo, hi);
    RunPairs(start, {}, calls, lo, hi);
    HeapInvariant(start, {}, calls, lo, hi);
    var end := Run(start, {}, calls).0;
    forall b | b in end ensures b.free {
      if !b.free {
        AllUsedLive(end, b);
      }
    }
    AllFree(end);
    LaidNotEmpty(end, lo, hi);
    TotalIsFreeIff(lo, hi);
    if |end| == 1 {
      OneBlock(end, lo, hi);
    }
  }

  lemma AllUsedLive(blocks: seq<Block>, b: Block)
    requires b in blocks && !b.free
    ensures Live(blocks, Payload(b))
  {
  }

  lemma LaidNotEmpty(blocks: seq<Block>, lo: nat, hi: nat)
    requires Laid(blocks, lo, hi) && lo < hi
    ensures blocks != []
  {
  }

  lemma OneBlock(blocks: seq<Block>, lo: nat, hi: nat)
    requires Laid(blocks, lo, hi) && |blocks| == 1 && blocks[0].free && lo + HEADER < hi
    ensures blocks == Initial(lo, hi)
  {
    assert blocks[1..] == [] && blocks == [blocks[0]];
    assert Extent(blocks) == HEADER + blocks[0].size + Extent([]);
  }
}
