/** The circular doubly linked lists of `list.h`: what the pointer updates do to the sequence a ring of nodes
    stands for. The first node of a ring is the list head, the others are the entries in order. */
module IntrusiveList {
  import opened Common

  class Node {
    var next: Node
    var prev: Node

    /** `INIT_LIST_HEAD` of a new node */
    constructor ()
      ensures Ring([this])
    {
      next := this;
      prev := this;
      new;
      assert LinkedAt([this], 0);
    }
  }

  function After(i: nat, n: nat): nat {
    if i + 1 == n then 0 else i + 1
  }

  function Before(i: nat, n: nat): nat
    requires i < n
  {
    if i == 0 then n - 1 else i - 1
  }

  ghost predicate NextAt(s: seq<Node>, i: nat)
    requires i < |s|
    reads s
  {
    s[i].next == s[After(i, |s|)]
  }

  ghost predicate PrevAt(s: seq<Node>, i: nat)
    requires i < |s|
    reads s
  {
    s[i].prev == s[Before(i, |s|)]
  }

  /** Node `i` points to its neighbours, the last and the first being neighbours. */
  ghost predicate LinkedAt(s: seq<Node>, i: nat)
    requires i < |s|
    reads s
  {
    NextAt(s, i) && PrevAt(s, i)
  }

  /** The nodes form one ring, in this order, and `prev` is the inverse of `next` all the way round. */
  ghost predicate Ring(s: seq<Node>)
    reads s
  {
    s != [] && NoDup(s) && forall i: nat | i < |s| :: LinkedAt(s, i)
  }

  // ----- what a ring determines

  /** A node points to itself exactly when its ring holds nothing else: an entry on no list, or an empty list. */
  lemma SelfPointingIffAlone(s: seq<Node>, i: nat)
    requires Ring(s) && i < |s|
    ensures s[i].next == s[i] <==> |s| == 1
    ensures s[i].prev == s[i] <==> |s| == 1
  {
    assert LinkedAt(s, i);
  }

  lemma {:induction false} SamePrefix(s: seq<Node>, r: seq<Node>, k: nat)
    requires Ring(s) && Ring(r) && s[0] == r[0] && k < |s| && k < |r|
    ensures s[k] == r[k]
  {
    if k > 0 {
      SamePrefix(s, r, k - 1);
      assert LinkedAt(s, k - 1) && LinkedAt(r, k - 1);
    }
  }

  lemma NotLonger(s: seq<Node>, r: seq<Node>)
    requires Ring(s) && Ring(r) && s[0] == r[0]
    ensures |r| <= |s|
  {
    var last := |s| - 1;
    if last < |r| {
      SamePrefix(s, r, last);
      assert LinkedAt(s, last) && LinkedAt(r, last);
      assert r[After(last, |r|)] == r[0];
    }
  }

  /** The pointers determine the sequence: from one head there is only one ring. */
  lemma RingIsUnique(s: seq<Node>, r: seq<Node>)
    requires Ring(s) && Ring(r) && s[0] == r[0]
    ensures s == r
  {
    NotLonger(s, r);
    NotLonger(r, s);
    forall k | 0 <= k < |s| ensures s[k] == r[k] {
      SamePrefix(s, r, k);
    }
  }

  // ----- the operations

  /** `__list_add` */
  method AddBetween(node: Node, prev: Node, next: Node)
    requires node != prev && node != next
    modifies node, prev`next, next`prev
    ensures prev.next == node && next.prev == node && node.next == next && node.prev == prev
  {
    next.prev := node;
    node.next := next;
    node.prev := prev;
    prev.next := node;
  }

  /** The node that index `at` is in front of: the head, at the end of the list. */
  function Behind(at: nat, n: nat): nat {
    if at == n then 0 else at
  }

  lemma PredecessorOf(s: seq<Node>, at: nat)
    requires Ring(s) && 0 < at <= |s|
    ensures s[Behind(at, |s|)].prev == s[at - 1]
  {
    assert LinkedAt(s, Behind(at, |s|));
  }

  /** `node` linked in between nodes `at - 1` and `at` of what was a ring makes a ring of one node more. */
  lemma AddedRing(s: seq<Node>, at: nat, node: Node)
    requires NoDup(s) && node !in s && 0 < at <= |s|
    requires forall k: nat | k < |s| && k != at - 1 :: NextAt(s, k)
    requires forall k: nat | k < |s| && k != Behind(at, |s|) :: PrevAt(s, k)
    requires s[at - 1].next == node && node.prev == s[at - 1]
    requires node.next == s[Behind(at, |s|)] && s[Behind(at, |s|)].prev == node
    ensures Ring(InsertAt(s, at, node))
  {
    var n, s' := |s|, InsertAt(s, at, node);
    assert |s'| == n + 1;
    AddedNoDup(s, at, node);
    forall k: nat | k < n + 1 ensures LinkedAt(s', k) {
      InsertAtIndex(s, at, node, k);
      InsertAtIndex(s, at, node, After(k, n + 1));
      InsertAtIndex(s, at, node, Before(k, n + 1));
      hide InsertAt;
      if k != at {
        var j := if k < at then k else k - 1;
        assert j == at - 1 || NextAt(s, j);
        assert j == Behind(at, n) || PrevAt(s, j);
      }
    }
  }

  lemma AddedNoDup(s: seq<Node>, at: nat, node: Node)
    requires NoDup(s) && node !in s && at <= |s|
    ensures NoDup(InsertAt(s, at, node))
  {
    InsertMembers(s, at, node);
  }

  /** `list_add_tail` and `list_add_before`, one and the same code: the node goes in front of `pos`, to index `at`.
      In front of the head is the end of the list. */
  method AddTail(node: Node, pos: Node, ghost s: seq<Node>, ghost at: nat)
    requires Ring(s) && node !in s && 0 < at <= |s| && pos == s[Behind(at, |s|)]
    modifies node, pos`prev, pos.prev`next
    ensures Ring(InsertAt(s, at, node))
  {
    PredecessorOf(s, at);
    AddBetween(node, pos.prev, pos);
    forall k: nat | k < |s| ensures (k != at - 1 ==> NextAt(s, k)) && (k != Behind(at, |s|) ==> PrevAt(s, k)) {
      assert old(LinkedAt(s, k));
    }
    AddedRing(s, at, node);
  }

  /** `list_add`: the node goes right behind the head. */
  method Add(node: Node, head: Node, ghost s: seq<Node>)
    requires Ring(s) && s[0] == head && node !in s
    modifies node, head`next, head.next`prev
    ensures Ring(InsertAt(s, 1, node))
  {
    assert LinkedAt(s, 0);
    AddBetween(node, head, head.next);
    forall k: nat | k < |s| ensures (k != 0 ==> NextAt(s, k)) && (k != Behind(1, |s|) ==> PrevAt(s, k)) {
      assert old(LinkedAt(s, k));
    }
    AddedRing(s, 1, node);
  }

  /** The ring closed up around the entry taken out. */
  lemma ClosedRing(s: seq<Node>, i: nat)
    requires NoDup(s) && i < |s| && |s| > 1
    requires forall k: nat | k < |s| && k != i && k != Before(i, |s|) :: NextAt(s, k)
    requires forall k: nat | k < |s| && k != i && k != After(i, |s|) :: PrevAt(s, k)
    requires s[Before(i, |s|)].next == s[After(i, |s|)] && s[After(i, |s|)].prev == s[Before(i, |s|)]
    ensures Ring(s[..i] + s[i + 1..])
  {
    var s' := s[..i] + s[i + 1..];
    SplicedMembers(s, i);
    forall k: nat | k < |s'| ensures LinkedAt(s', k) {
      var j := if k < i then k else k + 1;
      assert s'[k] == s[j];
      assert j == Before(i, |s|) || NextAt(s, j);
      assert j == After(i, |s|) || PrevAt(s, j);
      var (a, b) := (After(k, |s'|), Before(k, |s'|));
      assert s'[a] == s[if a < i then a else a + 1] && s'[b] == s[if b < i then b else b + 1];
    }
  }

  /** `list_del_init`: the entry is alone and the others close up. */
  method DelInit(entry: Node, ghost s: seq<Node>, ghost i: nat)
    requires Ring(s) && i < |s| && s[i] == entry
    modifies entry, entry.next`prev, entry.prev`next
    ensures Ring([entry])
    ensures |s| > 1 ==> Ring(s[..i] + s[i + 1..])
  {
    assert LinkedAt(s, i);
    var prev, next := entry.prev, entry.next;
    next.prev := prev;
    prev.next := next;
    entry.next := entry;
    entry.prev := entry;
    assert LinkedAt([entry], 0);
    if |s| > 1 {
      forall k: nat | k < |s| && k != i
        ensures (k != Before(i, |s|) ==> NextAt(s, k)) && (k != After(i, |s|) ==> PrevAt(s, k))
      {
        assert old(LinkedAt(s, k));
      }
      ClosedRing(s, i);
    }
  }

  /** `list_empty` */
  method IsEmpty(head: Node, ghost s: seq<Node>) returns (empty: bool)
    requires Ring(s) && s[0] == head
    ensures empty <==> s[1..] == []
  {
    SelfPointingIffAlone(s, 0);
    empty := head.next == head;
  }

  ghost predicate Disjoint(r: seq<Node>, s: seq<Node>) {
    forall x | x in r :: x !in s
  }

  /** Adding to one list leaves a list that shares no node with it alone. */
  method AddTailBeside(node: Node, head: Node, ghost s: seq<Node>, ghost other: seq<Node>)
    requires Ring(s) && s[0] == head && node !in s
    requires Ring(other) && Disjoint(other, s) && node !in other
    modifies node, head`prev, head.prev`next
    ensures Ring(s + [node]) && Ring(other)
  {
    assert LinkedAt(s, 0);
    assert head.prev in s && head in s;
    assert InsertAt(s, |s|, node) == s + [node];
    hide Ring;
    AddTail(node, head, s, |s|);
  }

  /** The pointer work of waking a task: its node leaves one list for the end of another. Only these few pointers are
      written, so any third list is as it was. */
  method MoveToTail(entry: Node, ghost s: seq<Node>, ghost i: nat, head: Node, ghost r: seq<Node>)
    requires Ring(s) && 0 < i < |s| && s[i] == entry
    requires Ring(r) && r[0] == head && Disjoint(r, s)
    modifies entry, entry.next`prev, entry.prev`next, head`prev, head.prev`next
    ensures Ring(s[..i] + s[i + 1..]) && Ring(r + [entry])
  {
    SplicedMembers(s, i);
    assert LinkedAt(s, i) && LinkedAt(r, 0);
    assert entry in s && entry.next in s && entry.prev in s && head.prev in r;
    assert forall x | x in r :: x != entry && x != entry.next && x != entry.prev;
    ghost var last := head.prev;
    DelInit(entry, s, i);
    assert Ring(r) && head.prev == last;
    ghost var rest := s[..i] + s[i + 1..];
    assert forall x | x in rest :: x in s && x != entry;
    hide Ring, LinkedAt, NoDup, InsertAt;
    AddTailBeside(entry, head, r, rest);
  }
}
