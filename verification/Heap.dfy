/** The heap of `malloc.c` as the list of its block headers in address order: first fit, split, coalesce. */
module Heap {
  import opened Common
  import opened TickTime

  const HEADER := 16
  const ALIGNMENT := 8
  const MAX_REQUEST := WORD - 8

  /** A header: its address, the payload bytes behind it, and whether they are free. */
  datatype Block = Block(addr: nat, size: nat, free: bool)

  /** `align_size`: rounded up to eight, on 32 bits */
  function AlignSize(size: uint32): (aligned: uint32)
    ensures aligned % ALIGNMENT == 0
  {
    var sum := Low(size + ALIGNMENT - 1);
    sum - sum % ALIGNMENT
  }

  /** `align_up` to eight, on 32 bits */
  function AlignUp(addr: uint32): (aligned: uint32)
    ensures aligned % ALIGNMENT == 0
    ensures addr <= WORD - ALIGNMENT ==> addr <= aligned < addr + ALIGNMENT
  {
    AlignDown(Low(addr + ALIGNMENT - 1))
  }

  /** `align_down` to eight */
  function AlignDown(addr: uint32): (aligned: uint32)
    ensures aligned % ALIGNMENT == 0 && aligned <= addr < aligned + ALIGNMENT
  {
    addr - addr % ALIGNMENT
  }

  /** Rounding gives at least what was asked for exactly up to 2^32 - 8; above that it wraps to zero. */
  lemma AlignSizeCoversIff(size: uint32)
    ensures AlignSize(size) >= size <==> size <= MAX_REQUEST
    ensures size > MAX_REQUEST ==> AlignSize(size) == 0
    ensures size <= MAX_REQUEST ==> AlignSize(size) < size + ALIGNMENT
  {
  }

  function Payload(b: Block): nat {
    b.addr + HEADER
  }

  function After(b: Block): nat {
    b.addr + HEADER + b.size
  }

  // ----- tiling

  /** The bytes a list of blocks takes, headers included. */
  function Extent(blocks: seq<Block>): nat {
    if blocks == [] then 0 else HEADER + blocks[0].size + Extent(blocks[1..])
  }

  /** The blocks lie end to end from `lo`, in multiples of eight. */
  ghost predicate Placed(blocks: seq<Block>, lo: nat) {
    blocks != [] ==>
      && blocks[0].addr == lo
      && blocks[0].size % ALIGNMENT == 0
      && Placed(blocks[1..], After(blocks[0]))
  }

  ghost predicate Tiles(blocks: seq<Block>, lo: nat, hi: nat) {
    Placed(blocks, lo) && lo + Extent(blocks) == hi
  }

  /** No two neighbouring blocks are both free. */
  ghost predicate NoTwoFree(blocks: seq<Block>) {
    forall i | 0 <= i < |blocks| - 1 :: !(blocks[i].free && blocks[i + 1].free)
  }

  /** The blocks tile an aligned region inside the 32-bit address space, address zero left out. */
  ghost predicate Laid(blocks: seq<Block>, lo: nat, hi: nat) {
    && lo % ALIGNMENT == 0 && ALIGNMENT <= lo && hi <= WORD - ALIGNMENT
    && Tiles(blocks, lo, hi)
  }

  /** The heap invariant kept by `malloc`, `calloc` and `free`. */
  ghost predicate WellFormed(blocks: seq<Block>, lo: nat, hi: nat) {
    Laid(blocks, lo, hi) && NoTwoFree(blocks)
  }

  lemma {:induction false} ExtentConcat(a: seq<Block>, b: seq<Block>)
    ensures Extent(a + b) == Extent(a) + Extent(b)
  {
    if a == [] {
      assert a + b == b;
    } else {
      assert (a + b)[1..] == a[1..] + b;
      ExtentConcat(a[1..], b);
    }
  }

  lemma {:induction false} PlacedConcat(a: seq<Block>, b: seq<Block>, lo: nat)
    ensures Placed(a + b, lo) <==> Placed(a, lo) && Placed(b, lo + Extent(a))
  {
    if a == [] {
      assert a + b == b;
    } else {
      assert (a + b)[1..] == a[1..] + b;
      PlacedConcat(a[1..], b, After(a[0]));
    }
  }

  lemma ThreeParts(a: seq<Block>, x: seq<Block>, b: seq<Block>, lo: nat)
    ensures Extent(a + x + b) == Extent(a) + Extent(x) + Extent(b)
    ensures Placed(a + x + b, lo) <==>
            Placed(a, lo) && Placed(x, lo + Extent(a)) && Placed(b, lo + Extent(a) + Extent(x))
  {
    hide Placed, Extent;
    ExtentConcat(a + x, b);
    ExtentConcat(a, x);
    PlacedConcat(a + x, b, lo);
    PlacedConcat(a, x, lo);
  }

  /** Swapping a stretch of blocks for others that tile the same bytes keeps the tiling. */
  lemma ReplaceKeepsTiles(a: seq<Block>, old': seq<Block>, new': seq<Block>, b: seq<Block>, lo: nat, hi: nat)
    requires Tiles(a + old' + b, lo, hi)
    requires Extent(new') == Extent(old')
    requires Placed(old', lo + Extent(a)) ==> Placed(new', lo + Extent(a))
    ensures Tiles(a + new' + b, lo, hi)
    ensures Placed(old', lo + Extent(a))
  {
    hide Placed, Extent;
    ThreeParts(a, old', b, lo);
    ThreeParts(a, new', b, lo);
  }

  /** Where block `i` of a tiling lies. */
  lemma {:induction false} BlockAt(blocks: seq<Block>, i: nat, lo: nat, hi: nat)
    requires Tiles(blocks, lo, hi) && i < |blocks|
    ensures blocks[i].addr == lo + Extent(blocks[..i])
    ensures blocks[i].size % ALIGNMENT == 0
    ensures lo <= blocks[i].addr && After(blocks[i]) <= hi
    ensures i + 1 < |blocks| ==> blocks[i + 1].addr == After(blocks[i])
  {
    if i > 0 {
      BlockAt(blocks[1..], i - 1, After(blocks[0]), hi);
      assert blocks[..i][1..] == blocks[1..][..i - 1];
    } else {
      assert blocks[..0] == [];
      if |blocks| > 1 {
        assert Placed(blocks[1..], After(blocks[0]));
        assert blocks[1..][0] == blocks[1];
      }
    }
  }

  /** Blocks of a tiling are disjoint and in address order. */
  lemma {:induction false} BlocksApart(blocks: seq<Block>, i: nat, j: nat, lo: nat, hi: nat)
    requires Tiles(blocks, lo, hi) && i < j < |blocks|
    ensures After(blocks[i]) <= blocks[j].addr
    decreases j - i
  {
    BlockAt(blocks, i, lo, hi);
    if j > i + 1 {
      BlocksApart(blocks, i + 1, j, lo, hi);
    }
  }

  // ----- live pointers

  /** A pointer `malloc` has returned and `free` has not taken back: the payload of a used block. */
  ghost predicate Live(blocks: seq<Block>, p: nat) {
    exists b | b in blocks :: !b.free && Payload(b) == p
  }

  /** The index of the first block whose payload starts at `p`, or the length of the list. */
  function IndexAt(blocks: seq<Block>, p: nat): (i: nat)
    ensures i <= |blocks|
    ensures i < |blocks| ==> Payload(blocks[i]) == p
    ensures (exists b | b in blocks :: Payload(b) == p) ==> i < |blocks|
  {
    if blocks == [] || Payload(blocks[0]) == p then 0 else 1 + IndexAt(blocks[1..], p)
  }

  lemma IndexIsUnique(blocks: seq<Block>, i: nat, p: nat, lo: nat, hi: nat)
    requires Tiles(blocks, lo, hi) && i < |blocks| && Payload(blocks[i]) == p
    ensures blocks[i] in blocks && IndexAt(blocks, p) == i
  {
    var j := IndexAt(blocks, p);
    if j < i {
      BlocksApart(blocks, j, i, lo, hi);
    } else if i < j {
      BlocksApart(blocks, i, j, lo, hi);
    }
  }

  // ----- malloc

  /** The first free block of at least `size`, or the length of the list. */
  function FirstFit(blocks: seq<Block>, size: nat): (i: nat)
    ensures i <= |blocks|
    ensures i < |blocks| ==> blocks[i].free && blocks[i].size >= size
    ensures forall j | 0 <= j < i :: !(blocks[j].free && blocks[j].size >= size)
  {
    if blocks == [] || (blocks[0].free && blocks[0].size >= size) then 0
    else 1 + FirstFit(blocks[1..], size)
  }

  /** `split_block`, with the 32-bit sum of its test. The second condition only keeps the remainder from going
      below zero where that sum has wrapped, which SizeOfPiece shows cannot be. */
  function Split(b: Block, size: nat): (pieces: seq<Block>)
    requires size <= b.size
    ensures pieces != [] && pieces[0].addr == b.addr
  {
    if b.size < Low(size + HEADER + ALIGNMENT) || b.size < size + HEADER then [b]
    else [b.(size := size), Block(b.addr + HEADER + size, b.size - size - HEADER, true)]
  }

  function SetUsed(bs: seq<Block>): seq<Block>
    requires bs != []
  {
    [bs[0].(free := false)] + bs[1..]
  }

  /** `malloc`: the new list and the payload address. */
  function Malloc(blocks: seq<Block>, request: uint32): (seq<Block>, Option<nat>) {
    if request == 0 then (blocks, None)
    else
      var size := AlignSize(request);
      var i := FirstFit(blocks, size);
      if i == |blocks| then (blocks, None)
      else (blocks[..i] + SetUsed(Split(blocks[i], size)) + blocks[i + 1..], Some(Payload(blocks[i])))
  }

  lemma SplitTiles(b: Block, size: nat)
    requires size <= b.size && size % ALIGNMENT == 0 && b.size % ALIGNMENT == 0
    ensures Extent(Split(b, size)) == Extent([b])
    ensures Placed(Split(b, size), b.addr) && Placed(SetUsed(Split(b, size)), b.addr)
    ensures Extent(SetUsed(Split(b, size))) == Extent([b])
    ensures |Split(b, size)| == 2 ==> Split(b, size)[1].free
  {
    var s := Split(b, size);
    assert [b][1..] == [];
    assert SetUsed(s)[1..] == s[1..];
    if |s| == 2 {
      assert s[1..] == [s[1]] && [s[1]][1..] == [];
    } else {
      assert s[1..] == [];
    }
  }

  lemma SplitParts(blocks: seq<Block>, i: nat)
    requires i < |blocks|
    ensures blocks == blocks[..i] + [blocks[i]] + blocks[i + 1..]
  {
  }

  /** Allocation keeps the tiling and leaves no two neighbouring free blocks. */
  lemma MallocKeeps(blocks: seq<Block>, request: uint32, lo: nat, hi: nat)
    requires Laid(blocks, lo, hi)
    ensures Laid(Malloc(blocks, request).0, lo, hi)
    ensures NoTwoFree(blocks) ==> NoTwoFree(Malloc(blocks, request).0)
  {
    var size := AlignSize(request);
    var i := FirstFit(blocks, size);
    if request != 0 && i < |blocks| {
      BlockAt(blocks, i, lo, hi);
      SplitTiles(blocks[i], size);
      SplitParts(blocks, i);
      var piece := SetUsed(Split(blocks[i], size));
      ReplaceKeepsTiles(blocks[..i], [blocks[i]], piece, blocks[i + 1..], lo, hi);
      if NoTwoFree(blocks) {
        UsingKeepsNoTwoFree(blocks, i, piece);
      }
    }
  }

  /** A free block becomes a used one with perhaps a free one behind it. */
  lemma UsingKeepsNoTwoFree(blocks: seq<Block>, i: nat, piece: seq<Block>)
    requires NoTwoFree(blocks) && i < |blocks| && blocks[i].free
    requires |piece| == 1 || |piece| == 2
    requires !piece[0].free
    ensures NoTwoFree(blocks[..i] + piece + blocks[i + 1..])
  {
    var after := blocks[..i] + piece + blocks[i + 1..];
    var shift := |piece| - 1;
    forall j | 0 <= j < |after| - 1 ensures !(after[j].free && after[j + 1].free) {
      if j > i {
        if j >= i + |piece| {
          assert after[j] == blocks[j - shift] && after[j + 1] == blocks[j - shift + 1];
        } else {
          assert after[j + 1] == blocks[i + 1] && !blocks[i + 1].free;
        }
      } else if j + 1 < i {
        assert after[j] == blocks[j] && after[j + 1] == blocks[j + 1];
      }
    }
  }

  /** The block a successful allocation hands out sits where the first fit was. */
  lemma MallocShape(blocks: seq<Block>, request: uint32, lo: nat, hi: nat)
    requires Laid(blocks, lo, hi) && Malloc(blocks, request).1.Some?
    ensures var (after, p) := Malloc(blocks, request);
            var i := FirstFit(blocks, AlignSize(request));
            var piece := SetUsed(Split(blocks[i], AlignSize(request)));
            && after == blocks[..i] + piece + blocks[i + 1..] && blocks[i].free
            && (|piece| == 1 || (|piece| == 2 && piece[1].free))
            && !piece[0].free && piece[0].addr == blocks[i].addr && p.value == Payload(piece[0])
            && (piece[0].size >= request <==> request <= MAX_REQUEST)
            && Laid(after, lo, hi) && IndexAt(after, p.value) == i
  {
    var size := AlignSize(request);
    var i := FirstFit(blocks, size);
    MallocKeeps(blocks, request, lo, hi);
    BlockAt(blocks, i, lo, hi);
    SplitTiles(blocks[i], size);
    SizeOfPiece(blocks[i], request, lo, hi);
    var after := Malloc(blocks, request).0;
    assert after[i] == SetUsed(Split(blocks[i], size))[0];
    IndexIsUnique(after, i, Payload(after[i]), lo, hi);
  }

  /** What a successful allocation returns: a fresh, aligned payload inside the heap, big enough exactly when
      the request was at most 2^32 - 8, and apart from every payload already in use, all of which stay. */
  lemma MallocReturns(blocks: seq<Block>, request: uint32, lo: nat, hi: nat)
    requires Laid(blocks, lo, hi) && Malloc(blocks, request).1.Some?
    ensures var (after, p) := Malloc(blocks, request);
            var i := IndexAt(after, p.value);
            && p.value % ALIGNMENT == 0 && lo < p.value
            && i < |after| && !after[i].free && Payload(after[i]) == p.value && After(after[i]) <= hi
            && (after[i].size >= request <==> request <= MAX_REQUEST)
            && (forall q :: Live(after, q) <==> Live(blocks, q) || q == p.value)
            && (forall b :: b in after && !b.free <==> (b in blocks && !b.free) || b == after[i])
            && (forall b | b in blocks && !b.free :: Apart(b, after[i]))
            && !Live(blocks, p.value)
  {
    hide Split, SetUsed, Laid, FirstFit, AlignSize;
    var i := FirstFit(blocks, AlignSize(request));
    var (after, p) := Malloc(blocks, request);
    var piece := SetUsed(Split(blocks[i], AlignSize(request)));
    MallocShape(blocks, request, lo, hi);
    LaidTiles(after, lo, hi);
    BlockAt(after, i, lo, hi);
    AddressAligned(after, i, lo, hi);
    assert after[i] == piece[0];
    UsedStayApart(blocks, i, piece, lo, hi);
    forall b ensures b in after && !b.free <==> (b in blocks && !b.free) || b == after[i] {
      UsedBlocksAfter(blocks, i, piece, b);
    }
    forall b | b in blocks && !b.free ensures Payload(b) != p.value {
      assert Apart(b, after[i]);
    }
  }

  /** Two blocks share no byte. */
  predicate Apart(a: Block, b: Block) {
    After(a) <= b.addr || After(b) <= a.addr
  }

  lemma LaidTiles(blocks: seq<Block>, lo: nat, hi: nat)
    requires Laid(blocks, lo, hi)
    ensures Tiles(blocks, lo, hi)
    ensures lo % ALIGNMENT == 0 && ALIGNMENT <= lo && hi <= WORD - ALIGNMENT
  {
  }

  lemma UsedStayApart(blocks: seq<Block>, i: nat, piece: seq<Block>, lo: nat, hi: nat)
    requires i < |blocks| && blocks[i].free && piece != []
    requires Tiles(blocks[..i] + piece + blocks[i + 1..], lo, hi)
    ensures var after := blocks[..i] + piece + blocks[i + 1..];
            forall b | b in blocks && !b.free :: b in after && Apart(b, piece[0])
  {
    hide Tiles;
    var after := blocks[..i] + piece + blocks[i + 1..];
    assert after[i] == piece[0];
    forall b | b in blocks && !b.free ensures b in after && Apart(b, piece[0]) {
      var j :| 0 <= j < |blocks| && blocks[j] == b;
      var j' := if j < i then j else j + |piece| - 1;
      assert after[j'] == b;
      if j' < i {
        BlocksApart(after, j', i, lo, hi);
      } else {
        BlocksApart(after, i, j', lo, hi);
      }
    }
  }

  /** In a heap inside the 32-bit address space the sum in `split_block` cannot wrap. */
  lemma SizeOfPiece(b: Block, request: uint32, lo: nat, hi: nat)
    requires ALIGNMENT <= lo <= b.addr && After(b) <= hi <= WORD - ALIGNMENT
    requires b.size >= AlignSize(request) && b.size % ALIGNMENT == 0
    ensures var size := AlignSize(request);
            var piece := Split(b, size);
            && size + HEADER + ALIGNMENT < WORD
            && (if b.size < size + HEADER + ALIGNMENT then piece == [b]
                else |piece| == 2 && piece[0].size == size && piece[1].size >= ALIGNMENT)
            && (request > 0 ==> (piece[0].size >= request <==> request <= MAX_REQUEST))
  {
    AlignSizeCoversIff(request);
  }

  lemma {:induction false} AddressAligned(blocks: seq<Block>, i: nat, lo: nat, hi: nat)
    requires Tiles(blocks, lo, hi) && lo % ALIGNMENT == 0 && i < |blocks|
    ensures blocks[i].addr % ALIGNMENT == 0
  {
    if i > 0 {
      AddressAligned(blocks[1..], i - 1, After(blocks[0]), hi);
    }
  }

  /** In place of a free block come a used piece and perhaps a free one: one used block more. */
  lemma UsedBlocksAfter(blocks: seq<Block>, i: nat, piece: seq<Block>, b: Block)
    requires i < |blocks| && blocks[i].free && piece != [] && |piece| <= 2
    requires !piece[0].free && (|piece| == 2 ==> piece[1].free)
    ensures b in blocks[..i] + piece + blocks[i + 1..] && !b.free <==> (b in blocks && !b.free) || b == piece[0]
  {
    var after := blocks[..i] + piece + blocks[i + 1..];
    assert after[i] == piece[0];
    if b in blocks && !b.free {
      var j :| 0 <= j < |blocks| && blocks[j] == b;
      assert after[if j < i then j else j + |piece| - 1] == b;
    }
    if b in after && !b.free {
      var j :| 0 <= j < |after| && after[j] == b;
      if j < i {
        assert blocks[j] == b;
      } else if j >= i + |piece| {
        assert blocks[j - |piece| + 1] == b;
      }
    }
  }

  // ----- free

  /** `merge_with_next` on block `i` */
  function MergeNext(blocks: seq<Block>, i: nat): (merged: seq<Block>)
    requires i < |blocks|
    ensures |merged| == |blocks| || |merged| == |blocks| - 1
  {
    if i + 1 == |blocks| then blocks
    else
      var next := blocks[i + 1];
      if !next.free || After(blocks[i]) != next.addr then blocks
      else blocks[..i] + [blocks[i].(size := blocks[i].size + HEADER + next.size)] + blocks[i + 2..]
  }

  /** `free` of a payload pointer */
  function Free(blocks: seq<Block>, p: nat): seq<Block>
    requires Live(blocks, p)
  {
    var i := IndexAt(blocks, p);
    var forward := MergeNext(blocks[i := blocks[i].(free := true)], i);
    if i > 0 && forward[i - 1].free && After(forward[i - 1]) == forward[i].addr then MergeNext(forward, i - 1)
    else forward
  }

  /** Blocks `from` up to `to` replaced by one. */
  function Squeeze(blocks: seq<Block>, from: nat, to: nat, one: Block): seq<Block>
    requires from < to <= |blocks|
  {
    blocks[..from] + [one] + blocks[to..]
  }

  lemma SqueezeAt(blocks: seq<Block>, from: nat, to: nat, one: Block)
    requires from < to <= |blocks|
    ensures var r := Squeeze(blocks, from, to, one);
            && |r| == |blocks| - (to - from) + 1
            && (forall j | 0 <= j < from :: r[j] == blocks[j])
            && r[from] == one
            && (forall j | from < j < |r| :: r[j] == blocks[j + (to - from - 1)])
            && (forall j | to <= j < |blocks| :: blocks[j] == r[j - (to - from - 1)])
  {
  }

  /** The stretch a freed block merges with: it, and a free block on either side. */
  function First(blocks: seq<Block>, i: nat): (from: nat)
    requires i < |blocks|
    ensures from <= i
  {
    if i > 0 && blocks[i - 1].free then i - 1 else i
  }

  function Last(blocks: seq<Block>, i: nat): (to: nat)
    requires i < |blocks|
    ensures i < to <= |blocks|
  {
    if i + 1 < |blocks| && blocks[i + 1].free then i + 2 else i + 1
  }

  function Merged(blocks: seq<Block>): Block
    requires blocks != []
  {
    Block(blocks[0].addr, Extent(blocks) - HEADER, true)
  }

  /** Freeing and merging the neighbourhood of block `i`, once the list is known to tile. */
  function Coalesced(blocks: seq<Block>, i: nat): seq<Block>
    requires i < |blocks|
  {
    Squeeze(blocks, First(blocks, i), Last(blocks, i), Merged(blocks[First(blocks, i)..Last(blocks, i)]))
  }

  lemma ExtentOfTwo(a: Block, b: Block)
    ensures Extent([a, b]) == 2 * HEADER + a.size + b.size && Extent([a]) == HEADER + a.size
  {
    assert [a, b][1..] == [b] && [b][1..] == [] && [a][1..] == [];
    assert Extent([b]) == HEADER + b.size + Extent([]);
    assert Extent([a]) == HEADER + a.size + Extent([]);
    assert Extent([a, b]) == HEADER + a.size + Extent([b]);
  }

  /** In a tiling the next block is adjacent, so a freed block takes it in if it is free. */
  lemma MergeForward(blocks: seq<Block>, i: nat, lo: nat, hi: nat)
    requires Tiles(blocks, lo, hi) && i < |blocks|
    ensures var to := Last(blocks, i);
            MergeNext(blocks[i := blocks[i].(free := true)], i) ==
            blocks[..i] + [Merged(blocks[i..to])] + blocks[to..]
  {
    BlockAt(blocks, i, lo, hi);
    hide Tiles, Extent;
    var b := blocks[i];
    ExtentOfTwo(b, b);
    assert blocks[i..i + 1] == [b];
    if i + 1 < |blocks| {
      assert blocks[i..i + 2] == [b, blocks[i + 1]];
      ExtentOfTwo(b, blocks[i + 1]);
    }
  }

  /** Neighbours being adjacent, `free` merges the block with each free neighbour, and no more. */
  lemma FreeIsCoalesced(blocks: seq<Block>, i: nat, lo: nat, hi: nat)
    requires Tiles(blocks, lo, hi) && i < |blocks| && !blocks[i].free
    ensures blocks[i] in blocks && Free(blocks, Payload(blocks[i])) == Coalesced(blocks, i)
  {
    IndexIsUnique(blocks, i, Payload(blocks[i]), lo, hi);
    MergeForward(blocks, i, lo, hi);
    BlockAt(blocks, i, lo, hi);
    var to := Last(blocks, i);
    var forward := MergeNext(blocks[i := blocks[i].(free := true)], i);
    assert forward[i] == Merged(blocks[i..to]) && forward[i + 1..] == blocks[to..] && forward[..i] == blocks[..i];
    if i > 0 {
      BlockAt(blocks, i - 1, lo, hi);
      MergedLonger(blocks, i - 1, to);
      assert forward[i - 1] == blocks[i - 1] && forward[..i - 1] == blocks[..i - 1];
      assert After(forward[i - 1]) == forward[i].addr && forward[i].free;
      assert forward[i - 1 + 2..] == blocks[to..];
    }
  }

  lemma MergedLonger(blocks: seq<Block>, i: nat, to: nat)
    requires i + 1 < to <= |blocks|
    ensures Merged(blocks[i..to]) ==
            Block(blocks[i].addr, blocks[i].size + HEADER + Merged(blocks[i + 1..to]).size, true)
  {
    assert blocks[i..to][1..] == blocks[i + 1..to];
  }

  /** `free` keeps the tiling and leaves no two neighbouring free blocks. */
  lemma FreeKeeps(blocks: seq<Block>, p: nat, lo: nat, hi: nat)
    requires Laid(blocks, lo, hi) && Live(blocks, p)
    ensures Laid(Free(blocks, p), lo, hi)
    ensures NoTwoFree(blocks) ==> NoTwoFree(Free(blocks, p))
  {
    var b :| b in blocks && !b.free && Payload(b) == p;
    var i :| 0 <= i < |blocks| && blocks[i] == b;
    FreeIsCoalesced(blocks, i, lo, hi);
    CoalescedTiles(blocks, i, lo, hi);
    if NoTwoFree(blocks) {
      CoalescedNoTwoFree(blocks, i);
    }
  }

  lemma CoalescedTiles(blocks: seq<Block>, i: nat, lo: nat, hi: nat)
    requires Tiles(blocks, lo, hi) && i < |blocks|
    ensures Tiles(Coalesced(blocks, i), lo, hi)
  {
    hide Tiles, First, Last;
    var from, to := First(blocks, i), Last(blocks, i);
    SqueezeTiles(blocks, from, to, lo, hi);
  }

  lemma SqueezeTiles(blocks: seq<Block>, from: nat, to: nat, lo: nat, hi: nat)
    requires Tiles(blocks, lo, hi) && from < to <= |blocks|
    ensures Tiles(Squeeze(blocks, from, to, Merged(blocks[from..to])), lo, hi)
  {
    var middle := blocks[from..to];
    assert blocks == blocks[..from] + middle + blocks[to..];
    ThreeParts(blocks[..from], middle, blocks[to..], lo);
    MergedSpans(middle, lo + Extent(blocks[..from]));
    hide Placed, Extent;
    ReplaceKeepsTiles(blocks[..from], middle, [Merged(middle)], blocks[to..], lo, hi);
  }

  lemma MergedSpans(middle: seq<Block>, lo: nat)
    requires Placed(middle, lo) && middle != []
    ensures Placed([Merged(middle)], lo) && Extent([Merged(middle)]) == Extent(middle)
  {
    AlignedExtent(middle, lo);
    assert [Merged(middle)][1..] == [];
  }

  lemma {:induction false} AlignedExtent(blocks: seq<Block>, lo: nat)
    requires Placed(blocks, lo)
    ensures Extent(blocks) % ALIGNMENT == 0
    ensures blocks != [] ==> Extent(blocks) >= HEADER
  {
    if blocks != [] {
      AlignedExtent(blocks[1..], After(blocks[0]));
    }
  }

  lemma CoalescedNoTwoFree(blocks: seq<Block>, i: nat)
    requires NoTwoFree(blocks) && i < |blocks|
    ensures NoTwoFree(Coalesced(blocks, i))
  {
    var from, to := First(blocks, i), Last(blocks, i);
    var one := Merged(blocks[from..to]);
    SqueezeAt(blocks, from, to, one);
    StretchEndsUsed(blocks, i);
    hide Squeeze, Merged, First, Last;
    var after := Squeeze(blocks, from, to, one);
    var shift := to - from - 1;
    forall j | 0 <= j < |after| - 1 ensures !(after[j].free && after[j + 1].free) {
      if j > from {
        assert !(blocks[j + shift].free && blocks[j + shift + 1].free);
      } else if j + 1 < from {
        assert !(blocks[j].free && blocks[j + 1].free);
      }
    }
  }

  lemma StretchEndsUsed(blocks: seq<Block>, i: nat)
    requires NoTwoFree(blocks) && i < |blocks|
    ensures First(blocks, i) > 0 ==> !blocks[First(blocks, i) - 1].free
    ensures Last(blocks, i) < |blocks| ==> !blocks[Last(blocks, i)].free
  {
    var from, to := First(blocks, i), Last(blocks, i);
    if from > 0 {
      OneUsed(blocks, from - 1);
    }
    if to < |blocks| {
      OneUsed(blocks, to - 1);
    }
  }

  /** `free` takes back exactly its own pointer; the other used blocks stay. */
  lemma FreeTakesBack(blocks: seq<Block>, p: nat, lo: nat, hi: nat)
    requires Laid(blocks, lo, hi) && Live(blocks, p)
    ensures forall q :: Live(Free(blocks, p), q) <==> Live(blocks, q) && q != p
    ensures forall b :: b in Free(blocks, p) && !b.free <==> b in blocks && !b.free && Payload(b) != p
  {
    var u :| u in blocks && !u.free && Payload(u) == p;
    var i :| 0 <= i < |blocks| && blocks[i] == u;
    hide Free, Tiles, Coalesced;
    FreeIsCoalesced(blocks, i, lo, hi);
    forall b ensures b in Free(blocks, p) && !b.free <==> b in blocks && !b.free && Payload(b) != p {
      UsedAfterFree(blocks, i, b, lo, hi);
    }
  }

  /** Coalescing around a used block takes that block, and no other, from the used ones. */
  lemma UsedAfterFree(blocks: seq<Block>, i: nat, b: Block, lo: nat, hi: nat)
    requires Tiles(blocks, lo, hi) && i < |blocks| && !blocks[i].free
    ensures b in Coalesced(blocks, i) && !b.free <==> b in blocks && !b.free && Payload(b) != Payload(blocks[i])
  {
    StretchFree(blocks, i);
    var from, to := First(blocks, i), Last(blocks, i);
    var one := Merged(blocks[from..to]);
    SqueezeAt(blocks, from, to, one);
    var after := Squeeze(blocks, from, to, one);
    assert Coalesced(blocks, i) == after && one.free;
    hide Squeeze, Merged, First, Last, Tiles, Coalesced;
    if b in blocks && !b.free && Payload(b) != Payload(blocks[i]) {
      var j :| 0 <= j < |blocks| && blocks[j] == b;
      assert j < from || to <= j;
    }
    if b in after && !b.free {
      var j :| 0 <= j < |after| && after[j] == b;
      var j' := if j < from then j else j + (to - from - 1);
      assert blocks[j'] == b && j' != i;
      if j' < i {
        BlocksApart(blocks, j', i, lo, hi);
      } else {
        BlocksApart(blocks, i, j', lo, hi);
      }
    }
  }

  /** Everything in the stretch but the block itself was free already. */
  lemma StretchFree(blocks: seq<Block>, i: nat)
    requires i < |blocks|
    ensures forall j | First(blocks, i) <= j < Last(blocks, i) && j != i :: blocks[j].free
  {
  }

  // ----- inverse and recovery

  /** Coalescing around the first of the pieces a free block was split into gives the old list back. */
  lemma CoalesceBack(blocks: seq<Block>, i: nat, piece: seq<Block>)
    requires NoTwoFree(blocks) && i < |blocks| && blocks[i].free
    requires (|piece| == 1 || (|piece| == 2 && piece[1].free)) && !piece[0].free && Merged(piece) == blocks[i]
    ensures Coalesced(blocks[..i] + piece + blocks[i + 1..], i) == blocks
  {
    hide Merged;
    var after := blocks[..i] + piece + blocks[i + 1..];
    NeighboursUsed(blocks, i);
    assert after[i] == piece[0];
    assert i > 0 ==> after[i - 1] == blocks[i - 1];
    assert First(after, i) == i;
    if |piece| == 2 {
      assert after[i + 1] == piece[1];
      assert after[i + 2..] == blocks[i + 1..];
    } else {
      assert i + 1 < |blocks| ==> after[i + 1] == blocks[i + 1];
      assert after[i + 1..] == blocks[i + 1..];
    }
    assert Last(after, i) == i + |piece|;
    assert after[i..i + |piece|] == piece;
    assert after[..i] == blocks[..i];
    SplitParts(blocks, i);
  }

  /** Freeing what was just allocated restores the block list exactly, header for header. */
  lemma MallocThenFree(blocks: seq<Block>, request: uint32, lo: nat, hi: nat)
    requires WellFormed(blocks, lo, hi) && Malloc(blocks, request).1.Some?
    ensures var (after, p) := Malloc(blocks, request);
            Live(after, p.value) && Free(after, p.value) == blocks
  {
    hide AlignSize, NoTwoFree, Tiles, Coalesced, Free, Merged;
    var (after, p) := Malloc(blocks, request);
    var size := AlignSize(request);
    var i := FirstFit(blocks, size);
    MallocShape(blocks, request, lo, hi);
    var piece := SetUsed(Split(blocks[i], size));
    assert after[i] == piece[0] && after[i] in after;
    FreeIsCoalesced(after, i, lo, hi);
    PieceMerges(blocks[i], size);
    CoalesceBack(blocks, i, piece);
  }

  /** The pieces of a split merge back into the block. */
  lemma PieceMerges(b: Block, size: nat)
    requires size <= b.size && b.free
    ensures Merged(SetUsed(Split(b, size))) == b
  {
    var piece := SetUsed(Split(b, size));
    if |piece| == 2 {
      assert piece == [piece[0], piece[1]];
      ExtentOfTwo(piece[0], piece[1]);
    } else {
      assert piece == [piece[0]];
      ExtentOfTwo(piece[0], piece[0]);
    }
  }

  lemma NeighboursUsed(blocks: seq<Block>, i: nat)
    requires NoTwoFree(blocks) && i < |blocks| && blocks[i].free
    ensures i > 0 ==> !blocks[i - 1].free
    ensures i + 1 < |blocks| ==> !blocks[i + 1].free
  {
    if i > 0 {
      OneUsed(blocks, i - 1);
    }
  }

  /** Of two neighbours one is used. */
  lemma OneUsed(blocks: seq<Block>, i: nat)
    requires NoTwoFree(blocks) && i + 1 < |blocks|
    ensures !blocks[i].free || !blocks[i + 1].free
  {
  }

  /** `heap_init_once` */
  function Initial(lo: nat, hi: nat): seq<Block> {
    if hi <= lo + HEADER then [] else [Block(lo, hi - lo - HEADER, true)]
  }

  /** `heap_free_size` */
  function FreeSize(blocks: seq<Block>): nat {
    if blocks == [] then 0 else (if blocks[0].free then blocks[0].size else 0) + FreeSize(blocks[1..])
  }

  /** `heap_total_size`, subtracting on 32 bits */
  function TotalSize(lo: nat, hi: nat): uint32 {
    if hi > lo then Low(hi - lo - HEADER) else 0
  }

  /** With nothing allocated the list is what initialisation made it. */
  lemma AllFreeIsInitial(blocks: seq<Block>, lo: nat, hi: nat)
    requires WellFormed(blocks, lo, hi) && lo + HEADER < hi
    requires forall p :: !Live(blocks, p)
    ensures blocks == Initial(lo, hi)
  {
    forall i | 0 <= i < |blocks| ensures blocks[i].free {
      assert blocks[i] in blocks;
      assert !Live(blocks, Payload(blocks[i]));
    }
    FirstOrSecondUsed(blocks);
    assert blocks != [];
    assert blocks[1..] == [] && blocks == [blocks[0]];
    assert Extent(blocks) == HEADER + blocks[0].size + Extent([]);
  }

  lemma FirstOrSecondUsed(blocks: seq<Block>)
    requires NoTwoFree(blocks)
    ensures |blocks| > 1 ==> !blocks[0].free || !blocks[1].free
  {
    if |blocks| > 1 {
      OneUsed(blocks, 0);
    }
  }

  lemma InitialWellFormed(lo: nat, hi: nat)
    requires lo % ALIGNMENT == 0 && hi % ALIGNMENT == 0 && ALIGNMENT <= lo && lo + HEADER < hi <= WORD - ALIGNMENT
    ensures WellFormed(Initial(lo, hi), lo, hi)
    ensures forall p :: !Live(Initial(lo, hi), p)
  {
    var blocks := Initial(lo, hi);
    assert blocks[1..] == [];
  }

  /** The reported total of an untouched heap is its free size, except for a region of one alignment unit, less
      than a header: the subtraction wraps there. */
  lemma TotalIsFreeIff(lo: nat, hi: nat)
    requires lo % ALIGNMENT == 0 && hi % ALIGNMENT == 0 && lo <= WORD && hi <= WORD - ALIGNMENT
    ensures FreeSize(Initial(lo, hi)) == TotalSize(lo, hi) <==> hi != lo + ALIGNMENT
  {
  }

  // ----- realloc in place

  /** The in-place path of `realloc`: the block keeps `size` bytes and the rest is split off, unmerged. */
  function Shrink(blocks: seq<Block>, i: nat, size: nat): seq<Block>
    requires i < |blocks| && size <= blocks[i].size
  {
    blocks[..i] + Split(blocks[i], size) + blocks[i + 1..]
  }

  /** The used blocks of `now` are those of `was` but the one at `p`, and in its place `mine`, apart from them all. */
  ghost predicate Replaced(was: seq<Block>, now: seq<Block>, p: nat, mine: Block) {
    && (forall b :: b in now && !b.free <==> b == mine || (b in was && !b.free && Payload(b) != p))
    && (forall b | b in was && !b.free && Payload(b) != p :: Apart(b, mine))
  }

  lemma ReplacedLive(was: seq<Block>, now: seq<Block>, p: nat, mine: Block)
    requires Replaced(was, now, p, mine)
    ensures forall r :: Live(now, r) <==> (Live(was, r) && r != p) || r == Payload(mine)
  {
    assert mine in now && !mine.free;
    forall r ensures Live(now, r) <==> (Live(was, r) && r != p) || r == Payload(mine) {
      if Live(was, r) && r != p {
        var b :| b in was && !b.free && Payload(b) == r;
        assert b in now;
      }
    }
  }

  /** With block `i` freed, the used blocks are the others. */
  lemma UsedBut(blocks: seq<Block>, i: nat, b: Block, lo: nat, hi: nat)
    requires Tiles(blocks, lo, hi) && i < |blocks|
    ensures var p := Payload(blocks[i]);
            b in blocks[i := blocks[i].(free := true)] && !b.free <==> b in blocks && !b.free && Payload(b) != p
    ensures b in blocks && Payload(b) != Payload(blocks[i]) ==> Apart(b, blocks[i])
  {
    hide Tiles;
    var freed := blocks[i := blocks[i].(free := true)];
    if b in blocks {
      var j :| 0 <= j < |blocks| && blocks[j] == b;
      IndexIsUnique(blocks, j, Payload(b), lo, hi);
      IndexIsUnique(blocks, i, Payload(blocks[i]), lo, hi);
      assert j != i ==> freed[j] == b;
      if j < i {
        BlocksApart(blocks, j, i, lo, hi);
      } else if i < j {
        BlocksApart(blocks, i, j, lo, hi);
      }
    }
    if b in freed && !b.free {
      var j :| 0 <= j < |freed| && freed[j] == b;
      assert j != i && blocks[j] == b;
      IndexIsUnique(blocks, j, Payload(b), lo, hi);
      IndexIsUnique(blocks, i, Payload(blocks[i]), lo, hi);
    }
  }

  /** Shrinking keeps the tiling and the block's address, leaves it at least the size asked for, and changes no other
      used block. */
  lemma ShrinkKeeps(blocks: seq<Block>, i: nat, size: nat, lo: nat, hi: nat)
    requires Laid(blocks, lo, hi) && i < |blocks| && !blocks[i].free
    requires size <= blocks[i].size && size % ALIGNMENT == 0
    ensures var after := Shrink(blocks, i, size);
            && Laid(after, lo, hi)
            && i < |after| && after[i].addr == blocks[i].addr && size <= after[i].size <= blocks[i].size
            && Replaced(blocks, after, Payload(blocks[i]), after[i])
  {
    BlockAt(blocks, i, lo, hi);
    SplitTiles(blocks[i], size);
    SplitParts(blocks, i);
    var piece := Split(blocks[i], size);
    ReplaceKeepsTiles(blocks[..i], [blocks[i]], piece, blocks[i + 1..], lo, hi);
    hide Tiles;
    var after := Shrink(blocks, i, size);
    assert after[i] == piece[0];
    var freed := blocks[i := blocks[i].(free := true)];
    assert freed[..i] == blocks[..i] && freed[i + 1..] == blocks[i + 1..];
    forall b
      ensures b in after && !b.free <==> b == after[i] || (b in blocks && !b.free && Payload(b) != Payload(blocks[i])) {
      UsedBlocksAfter(freed, i, piece, b);
      UsedBut(blocks, i, b, lo, hi);
    }
    forall b | b in blocks && !b.free && Payload(b) != Payload(blocks[i]) ensures Apart(b, after[i]) {
      UsedBut(blocks, i, b, lo, hi);
    }
  }

  /** Where merging fails: shrinking leaves no two neighbouring free blocks exactly when it splits nothing off or
      the block behind is not free. */
  lemma ShrinkFragmentsIff(blocks: seq<Block>, i: nat, size: nat)
    requires NoTwoFree(blocks) && i < |blocks| && !blocks[i].free && size <= blocks[i].size
    ensures NoTwoFree(Shrink(blocks, i, size)) <==>
            |Split(blocks[i], size)| == 1 || i + 1 == |blocks| || !blocks[i + 1].free
  {
    var piece := Split(blocks[i], size);
    var after := Shrink(blocks, i, size);
    var shift := |piece| - 1;
    assert after[i] == piece[0] && !piece[0].free;
    if |piece| == 2 && i + 1 < |blocks| && blocks[i + 1].free {
      assert after[i + 1] == piece[1] && after[i + 2] == blocks[i + 1];
      assert after[i + 1].free && after[i + 1 + 1].free;
    } else {
      forall j | 0 <= j < |after| - 1 ensures !(after[j].free && after[j + 1].free) {
        if j > i && j >= i + |piece| {
          assert after[j] == blocks[j - shift] && after[j + 1] == blocks[j - shift + 1];
          assert !(blocks[j - shift].free && blocks[j - shift + 1].free);
        } else if j > i {
          assert after[j + 1] == blocks[i + 1];
        } else if j + 1 < i {
          assert after[j] == blocks[j] && after[j + 1] == blocks[j + 1];
          assert !(blocks[j].free && blocks[j + 1].free);
        }
      }
    }
  }

  /** It does happen, and freeing the shrunk block does not mend it: that `free` merges the block with its next
      neighbour only, so two free pieces stay. In a 4096-byte heap allocate 64 bytes, shrink them to 8, free them:
      nothing is allocated, yet the heap is in two pieces and 16 bytes short. Allocating and freeing the first piece
      again merges it with the second. */
  lemma ShrinkThenFreeSplits()
    ensures var start := Initial(4096, 8192);
            var (used, p) := Malloc(start, 64);
            && p == Some(4112)
            && used[0].size >= 8
            && var shrunk := Shrink(used, 0, 8);
               && Live(shrunk, 4112)
               && var end := Free(shrunk, 4112);
                  && (forall q :: !Live(end, q))
                  && |end| == 2
                  && FreeSize(end) == TotalSize(4096, 8192) - 16
                  && var (again, r) := Malloc(end, 64);
                     r == Some(4112) && Live(again, 4112) && Free(again, 4112) == start
  {
    var start := Initial(4096, 8192);
    assert start == [Block(4096, 4080, true)];
    var used := Malloc(start, 64).0;
    assert used == [Block(4096, 64, false), Block(4176, 4000, true)];
    var shrunk := Shrink(used, 0, 8);
    assert shrunk == [Block(4096, 8, false), Block(4120, 40, true), Block(4176, 4000, true)];
    assert shrunk[0] in shrunk;
    var end := Free(shrunk, 4112);
    assert end == [Block(4096, 64, true), Block(4176, 4000, true)];
    assert end[1..] == [Block(4176, 4000, true)] && end[1..][1..] == [];
    assert FreeSize(end) == 64 + FreeSize(end[1..]);
    assert FreeSize(end[1..]) == 4000 + FreeSize([]);
    FirstPieceAgain();
  }

  lemma FirstPieceAgain()
    ensures var end := [Block(4096, 64, true), Block(4176, 4000, true)];
            var (again, r) := Malloc(end, 64);
            r == Some(4112) && Live(again, 4112) && Free(again, 4112) == Initial(4096, 8192)
  {
    var end := [Block(4096, 64, true), Block(4176, 4000, true)];
    var again := Malloc(end, 64).0;
    assert again == [Block(4096, 64, false), Block(4176, 4000, true)];
    assert again[0] in again && IndexAt(again, 4112) == 0;
  }

  // ----- realloc

  lemma MallocKeepsLive(blocks: seq<Block>, request: uint32, p: nat)
    requires Live(blocks, p)
    ensures Live(Malloc(blocks, request).0, p)
  {
    var b :| b in blocks && !b.free && Payload(b) == p;
    var j :| 0 <= j < |blocks| && blocks[j] == b;
    var after := Malloc(blocks, request).0;
    if request != 0 && FirstFit(blocks, AlignSize(request)) < |blocks| {
      var i := FirstFit(blocks, AlignSize(request));
      assert j != i;
      assert after[if j < i then j else |after| - (|blocks| - j)] == b;
    }
  }

  /** `realloc` of a live pointer, as far as the block list goes: the new list and the pointer returned. */
  function Realloc(blocks: seq<Block>, p: nat, request: uint32): (seq<Block>, Option<nat>)
    requires Live(blocks, p)
  {
    if request == 0 then (Free(blocks, p), None)
    else
      var size := AlignSize(request);
      var i := IndexAt(blocks, p);
      if blocks[i].size >= size then (Shrink(blocks, i, size), Some(p))
      else
        MallocKeepsLive(blocks, size, p);
        var (grown, q) := Malloc(blocks, size);
        if q.None? then (blocks, None) else (Free(grown, p), q)
  }

  /** What `realloc` does to the blocks. It keeps the tiling. A size of zero frees. Otherwise success gives a block in
      place of the old one, apart from every other block in use, all of which stay as they are, and big enough exactly
      up to 2^32 - 8; failure changes nothing. */
  lemma ReallocReturns(blocks: seq<Block>, p: nat, request: uint32, lo: nat, hi: nat)
    requires Laid(blocks, lo, hi) && Live(blocks, p)
    ensures var (after, q) := Realloc(blocks, p, request);
            && Laid(after, lo, hi)
            && (request == 0 ==> q == None && after == Free(blocks, p))
            && (request != 0 && q == None ==> after == blocks)
            && (q.Some? ==>
                  var i := IndexAt(after, q.value);
                  && i < |after| && Replaced(blocks, after, p, after[i])
                  && (request <= MAX_REQUEST ==> after[i].size >= request))
  {
    hide Laid, Free, Malloc, Replaced, AlignSize, Shrink, Live;
    LiveIndex(blocks, p, lo, hi);
    var i := IndexAt(blocks, p);
    var size := AlignSize(request);
    AlignSizeCoversIff(request);
    if request == 0 {
      FreeKeeps(blocks, p, lo, hi);
    } else if blocks[i].size >= size {
      ShrinkKeeps(blocks, i, size, lo, hi);
      var after := Shrink(blocks, i, size);
      LaidTiles(after, lo, hi);
      IndexIsUnique(after, i, p, lo, hi);
    } else {
      MallocKeeps(blocks, size, lo, hi);
      if Malloc(blocks, size).1.Some? {
        GrownReplaces(blocks, p, size, lo, hi);
      }
    }
  }

  /** The moving path: the new block and the old one freed. */
  lemma GrownReplaces(blocks: seq<Block>, p: nat, size: uint32, lo: nat, hi: nat)
    requires Laid(blocks, lo, hi) && Live(blocks, p) && Malloc(blocks, size).1.Some?
    requires size % ALIGNMENT == 0 && size > 0
    ensures var (grown, q) := Malloc(blocks, size);
            && Laid(grown, lo, hi) && Live(grown, p)
            && var after := Free(grown, p);
               var j := IndexAt(after, q.value);
            && Laid(after, lo, hi) && j < |after| && after[j] in grown && !after[j].free
            && Payload(after[j]) == q.value && after[j].size >= size
            && Replaced(blocks, after, p, after[j])
  {
    hide Laid, Free, Malloc, Live;
    MallocKeeps(blocks, size, lo, hi);
    MallocReturns(blocks, size, lo, hi);
    var (grown, q) := Malloc(blocks, size);
    var mine := grown[IndexAt(grown, q.value)];
    assert Live(grown, p) && q.value != p;
    FreeKeeps(grown, p, lo, hi);
    FreeTakesBack(grown, p, lo, hi);
    var after := Free(grown, p);
    assert mine in grown && mine in after;
    var j :| 0 <= j < |after| && after[j] == mine;
    LaidTiles(after, lo, hi);
    IndexIsUnique(after, j, q.value, lo, hi);
  }

  /** A live pointer's index finds a used block. */
  lemma LiveIndex(blocks: seq<Block>, p: nat, lo: nat, hi: nat)
    requires Laid(blocks, lo, hi) && Live(blocks, p)
    ensures var i := IndexAt(blocks, p);
            i < |blocks| && !blocks[i].free && Payload(blocks[i]) == p && blocks[i] in blocks
  {
    var b :| b in blocks && !b.free && Payload(b) == p;
    var j :| 0 <= j < |blocks| && blocks[j] == b;
    IndexIsUnique(blocks, j, p, lo, hi);
  }

  /** `realloc` keeps apart free neighbours apart unless it shrinks a block in front of a free one and splits. */
  lemma ReallocFragmentsIff(blocks: seq<Block>, p: nat, request: uint32, lo: nat, hi: nat)
    requires WellFormed(blocks, lo, hi) && Live(blocks, p)
    ensures NoTwoFree(Realloc(blocks, p, request).0) <==> !Fragments(blocks, Resize(p, request))
  {
    hide Laid, Free, Malloc, AlignSize, Live, NoTwoFree, Shrink, Split;
    LiveIndex(blocks, p, lo, hi);
    var i := IndexAt(blocks, p);
    var size := AlignSize(request);
    if request == 0 {
      FreeKeeps(blocks, p, lo, hi);
    } else if blocks[i].size >= size {
      ShrinkFragmentsIff(blocks, i, size);
    } else {
      MallocKeeps(blocks, size, lo, hi);
      MallocKeepsLive(blocks, size, p);
      if Malloc(blocks, size).1.Some? {
        FreeKeeps(Malloc(blocks, size).0, p, lo, hi);
      }
    }
  }

  // ----- runs

  datatype Call = Allocate(size: uint32) | Release(p: nat) | Resize(p: nat, size: uint32)

  /** The call takes a pointer, and it is live. */
  ghost predicate Passes(blocks: seq<Block>, c: Call) {
    c.Allocate? || Live(blocks, c.p)
  }

  /** The call shrinks a block in front of a free one and splits it. */
  predicate Fragments(blocks: seq<Block>, c: Call) {
    c.Resize? && c.size != 0
    && var i, size := IndexAt(blocks, c.p), AlignSize(c.size);
       && i + 1 < |blocks| && blocks[i + 1].free
       && blocks[i].size >= size && |Split(blocks[i], size)| != 1
  }

  /** The pointers given out and not yet taken back, after one more call. */
  ghost function HeldAfter(blocks: seq<Block>, held: set<nat>, c: Call): set<nat>
    requires Passes(blocks, c)
  {
    match c
    case Allocate(size) =>
      var p := Malloc(blocks, size).1;
      if p.Some? then held + {p.value} else held
    case Release(p) => held - {p}
    case Resize(p, size) =>
      var q := Realloc(blocks, p, size).1;
      if q.Some? then held - {p} + {q.value} else if size == 0 then held - {p} else held
  }

  ghost function BlocksAfter(blocks: seq<Block>, c: Call): seq<Block>
    requires Passes(blocks, c)
  {
    match c
    case Allocate(size) => Malloc(blocks, size).0
    case Release(p) => Free(blocks, p)
    case Resize(p, size) => Realloc(blocks, p, size).0
  }

  /** A run frees and resizes only pointers it holds. */
  ghost predicate Legal(blocks: seq<Block>, held: set<nat>, calls: seq<Call>)
    decreases |calls|
  {
    calls != [] ==>
      && (!calls[0].Allocate? ==> calls[0].p in held) && Passes(blocks, calls[0])
      && Legal(BlocksAfter(blocks, calls[0]), HeldAfter(blocks, held, calls[0]), calls[1..])
  }

  /** No shrink of the run splits in front of a free block. */
  ghost predicate NeverFragments(blocks: seq<Block>, held: set<nat>, calls: seq<Call>)
    requires Legal(blocks, held, calls)
    decreases |calls|
  {
    calls != [] ==>
      && !Fragments(blocks, calls[0])
      && NeverFragments(BlocksAfter(blocks, calls[0]), HeldAfter(blocks, held, calls[0]), calls[1..])
  }

  /** Allocations and frees alone never fragment. */
  lemma {:induction false} NeverFragmentsWithoutResize(blocks: seq<Block>, held: set<nat>, calls: seq<Call>)
    requires Legal(blocks, held, calls) && forall c | c in calls :: !c.Resize?
    ensures NeverFragments(blocks, held, calls)
    decreases |calls|
  {
    hide Passes, BlocksAfter, HeldAfter;
    if calls != [] {
      assert calls[0] in calls && forall c | c in calls[1..] :: c in calls;
      NeverFragmentsWithoutResize(BlocksAfter(blocks, calls[0]), HeldAfter(blocks, held, calls[0]), calls[1..]);
    }
  }

  /** The block list and the held pointers at the end of a run. */
  ghost function Run(blocks: seq<Block>, held: set<nat>, calls: seq<Call>): (seq<Block>, set<nat>)
    requires Legal(blocks, held, calls)
    decreases |calls|
  {
    if calls == [] then (blocks, held)
    else Run(BlocksAfter(blocks, calls[0]), HeldAfter(blocks, held, calls[0]), calls[1..])
  }

  /** The used blocks are those of the held pointers. */
  ghost predicate HeldAreLive(blocks: seq<Block>, held: set<nat>) {
    forall p: nat :: Live(blocks, p) <==> p in held
  }

  lemma CallKeeps(blocks: seq<Block>, held: set<nat>, c: Call, lo: nat, hi: nat)
    requires Laid(blocks, lo, hi) && HeldAreLive(blocks, held) && Passes(blocks, c)
    ensures Laid(BlocksAfter(blocks, c), lo, hi)
    ensures HeldAreLive(BlocksAfter(blocks, c), HeldAfter(blocks, held, c))
  {
    hide Laid, Live, Free, Malloc, Realloc, Replaced;
    match c
    case Allocate(size) =>
      MallocKeeps(blocks, size, lo, hi);
      if Malloc(blocks, size).1.Some? {
        MallocReturns(blocks, size, lo, hi);
      } else {
        MallocRefused(blocks, size);
      }
    case Release(p) =>
      FreeKeeps(blocks, p, lo, hi);
      FreeTakesBack(blocks, p, lo, hi);
    case Resize(p, size) =>
      ReallocReturns(blocks, p, size, lo, hi);
      FreeTakesBack(blocks, p, lo, hi);
      var (after, q) := Realloc(blocks, p, size);
      if q.Some? {
        ReplacedLive(blocks, after, p, after[IndexAt(after, q.value)]);
      }
  }

  lemma MallocRefused(blocks: seq<Block>, request: uint32)
    ensures Malloc(blocks, request).1.None? ==> Malloc(blocks, request).0 == blocks
  {
  }

  lemma CallKeepsNoTwoFree(blocks: seq<Block>, c: Call, lo: nat, hi: nat)
    requires WellFormed(blocks, lo, hi) && Passes(blocks, c)
    ensures NoTwoFree(BlocksAfter(blocks, c)) <==> !Fragments(blocks, c)
  {
    hide Laid, NoTwoFree, Live, Free, Malloc, Realloc;
    match c
    case Allocate(size) => MallocKeeps(blocks, size, lo, hi);
    case Release(p) => FreeKeeps(blocks, p, lo, hi);
    case Resize(p, size) => ReallocFragmentsIff(blocks, p, size, lo, hi);
  }

  /** Over every run of allocations, whose failures are allowed, and of frees and reallocations of held pointers, in any
      order: the blocks tile the heap, the used ones are exactly the held pointers' and every byte is in a free payload,
      a used payload or a header. No two neighbours are free while no shrink splits in front of a free block. */
  lemma {:induction false} HeapInvariant(blocks: seq<Block>, held: set<nat>, calls: seq<Call>, lo: nat, hi: nat)
    requires Laid(blocks, lo, hi) && HeldAreLive(blocks, held) && Legal(blocks, held, calls)
    ensures var (end, left) := Run(blocks, held, calls);
            && Laid(end, lo, hi) && HeldAreLive(end, left)
            && FreeSize(end) + UsedSize(end) + HEADER * |end| == hi - lo
            && (NoTwoFree(blocks) && NeverFragments(blocks, held, calls) ==> NoTwoFree(end))
    decreases |calls|
  {
    hide Laid, HeldAreLive, BlocksAfter, HeldAfter, Passes, NoTwoFree, Fragments;
    if calls == [] {
      BytesAccounted(blocks);
      LaidExtent(blocks, lo, hi);
    } else {
      CallKeeps(blocks, held, calls[0], lo, hi);
      if NoTwoFree(blocks) {
        CallKeepsNoTwoFree(blocks, calls[0], lo, hi);
      }
      HeapInvariant(BlocksAfter(blocks, calls[0]), HeldAfter(blocks, held, calls[0]), calls[1..], lo, hi);
    }
  }

  function UsedSize(blocks: seq<Block>): nat {
    if blocks == [] then 0 else (if blocks[0].free then 0 else blocks[0].size) + UsedSize(blocks[1..])
  }

  lemma {:induction false} BytesAccounted(blocks: seq<Block>)
    ensures FreeSize(blocks) + UsedSize(blocks) + HEADER * |blocks| == Extent(blocks)
  {
    if blocks != [] {
      BytesAccounted(blocks[1..]);
    }
  }

  lemma LaidExtent(blocks: seq<Block>, lo: nat, hi: nat)
    requires Laid(blocks, lo, hi)
    ensures Extent(blocks) == hi - lo
  {
  }

  /** Once every pointer handed out since initialisation has been freed, in whatever order, the heap is one free
      block again and its free size is its total size, if no shrink has split in front of a free block. */
  lemma FullRecovery(calls: seq<Call>, lo: nat, hi: nat)
    requires lo % ALIGNMENT == 0 && hi % ALIGNMENT == 0 && ALIGNMENT <= lo && lo + HEADER < hi <= WORD - ALIGNMENT
    requires Legal(Initial(lo, hi), {}, calls) && Run(Initial(lo, hi), {}, calls).1 == {}
    requires NeverFragments(Initial(lo, hi), {}, calls)
    ensures Run(Initial(lo, hi), {}, calls).0 == Initial(lo, hi)
    ensures FreeSize(Run(Initial(lo, hi), {}, calls).0) == TotalSize(lo, hi)
  {
    InitialWellFormed(lo, hi);
    HeapInvariant(Initial(lo, hi), {}, calls, lo, hi);
    AllFreeIsInitial(Run(Initial(lo, hi), {}, calls).0, lo, hi);
    TotalIsFreeIff(lo, hi);
  }
}
