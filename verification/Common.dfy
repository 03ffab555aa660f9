/** Result codes of the kernel calls, an option type, and the sequence facts every other module uses. */
module Common {

  datatype Option<+T> = None | Some(value: T)

  /** The codes of `err_t`. */
  datatype Error =
    | Ok
    | Invalid
    | NoMemory
    | Busy
    | TimedOut
    | Locked
    | NotPermitted
    | BadState
    | WasDestroyed

  type byte = x: int | 0 <= x < 256

  ghost predicate NoDup<T>(s: seq<T>) {
    forall i, j | 0 <= i < j < |s| :: s[i] != s[j]
  }

  /** `s` with its first occurrence of `x` taken out. */
  function Without<T(==)>(s: seq<T>, x: T): (r: seq<T>)
    ensures |r| == if x in s then |s| - 1 else |s|
  {
    if s == [] then []
    else if s[0] == x then s[1..]
    else [s[0]] + Without(s[1..], x)
  }

  /** `s` with `x` put at index `i`. */
  function InsertAt<T>(s: seq<T>, i: nat, x: T): (r: seq<T>)
    requires i <= |s|
  {
    s[..i] + [x] + s[i..]
  }

  lemma WithoutAbsent<T>(s: seq<T>, x: T)
    requires x !in s
    ensures Without(s, x) == s
  {
    if s != [] {
      WithoutAbsent(s[1..], x);
    }
  }

  lemma {:induction false} WithoutAt<T>(s: seq<T>, i: nat)
    requires NoDup(s) && i < |s|
    ensures Without(s, s[i]) == s[..i] + s[i + 1..]
  {
    if i > 0 {
      assert s[1..][i - 1] == s[i];
      WithoutAt(s[1..], i - 1);
      assert s[..i] + s[i + 1..] == [s[0]] + (s[1..][..i - 1] + s[1..][i..]);
    }
  }

  lemma WithoutMembers<T>(s: seq<T>, x: T)
    requires NoDup(s)
    ensures NoDup(Without(s, x))
    ensures forall y :: y in Without(s, x) <==> y in s && y != x
  {
    if x in s {
      var i :| 0 <= i < |s| && s[i] == x;
      WithoutAt(s, i);
      SplicedMembers(s, i);
    } else {
      WithoutAbsent(s, x);
    }
  }

  lemma {:induction false} WithoutFrom<T>(s: seq<T>, x: T)
    ensures forall i | 0 <= i < |Without(s, x)| :: Without(s, x)[i] in s
  {
    if s != [] && s[0] != x {
      WithoutFrom(s[1..], x);
    }
  }

  lemma SplicedMembers<T>(s: seq<T>, i: nat)
    requires NoDup(s) && i < |s|
    ensures var r := s[..i] + s[i + 1..];
            NoDup(r) && forall y :: y in r <==> y in s && y != s[i]
  {
    var r := s[..i] + s[i + 1..];
    forall y ensures y in r <==> y in s && y != s[i] {
      if y in s && y != s[i] {
        var j :| 0 <= j < |s| && s[j] == y;
        assert r[if j < i then j else j - 1] == y;
      }
    }
  }

  lemma InsertMembers<T>(s: seq<T>, i: nat, x: T)
    requires NoDup(s) && x !in s && i <= |s|
    ensures NoDup(InsertAt(s, i, x))
    ensures forall y :: y in InsertAt(s, i, x) <==> y in s || y == x
    ensures |InsertAt(s, i, x)| == |s| + 1
  {
    var r := InsertAt(s, i, x);
    assert r[i] == x;
    forall y ensures y in r <==> y in s || y == x {
      if y in s {
        var j :| 0 <= j < |s| && s[j] == y;
        assert r[if j < i then j else j + 1] == y;
      }
    }
  }

  lemma TailMembers<T>(s: seq<T>)
    requires NoDup(s) && s != []
    ensures NoDup(s[1..])
    ensures forall y :: y in s[1..] <==> y in s && y != s[0]
  {
    forall y | y in s && y != s[0] ensures y in s[1..] {
      var j :| 0 <= j < |s| && s[j] == y;
      assert s[1..][j - 1] == y;
    }
  }

  /** Taking an element out keeps the others in order. */
  lemma WithoutOrder<T>(s: seq<T>, x: T, i: nat, j: nat) returns (a: nat, b: nat)
    requires NoDup(s) && i < j < |Without(s, x)|
    ensures a < b < |s| && s[a] == Without(s, x)[i] && s[b] == Without(s, x)[j]
    ensures s[a] != x && s[b] != x
  {
    if x in s {
      var m :| 0 <= m < |s| && s[m] == x;
      WithoutAt(s, m);
      a, b := if i < m then i else i + 1, if j < m then j else j + 1;
    } else {
      WithoutAbsent(s, x);
      a, b := i, j;
    }
  }

  lemma InsertAtIndex<T>(s: seq<T>, i: nat, x: T, j: nat)
    requires i <= |s| && j <= |s|
    ensures InsertAt(s, i, x)[j] == if j < i then s[j] else if j == i then x else s[j - 1]
  {
  }

  function IndexOf<T(==)>(s: seq<T>, x: T): (i: nat)
    requires x in s
    ensures i < |s| && s[i] == x
  {
    if s[0] == x then 0 else 1 + IndexOf(s[1..], x)
  }

  /** `x`, if it was in `s`, is still in `s'`, and no further back. */
  ghost predicate KeepsTurn<T>(s: seq<T>, s': seq<T>, x: T) {
    x in s ==> x in s' && IndexOf(s', x) <= IndexOf(s, x)
  }

  lemma {:induction false} AppendKeepsTurn<T>(s: seq<T>, y: T, x: T)
    ensures KeepsTurn(s, s + [y], x)
  {
    if x in s && s[0] != x {
      assert (s + [y])[1..] == s[1..] + [y];
      AppendKeepsTurn(s[1..], y, x);
    }
  }

  lemma {:induction false} WithoutKeepsTurn<T>(s: seq<T>, y: T, x: T)
    requires x != y
    ensures KeepsTurn(s, Without(s, y), x)
  {
    if x in s && s[0] != x && s[0] != y {
      WithoutKeepsTurn(s[1..], y, x);
      assert Without(s, y)[1..] == Without(s[1..], y);
    }
  }
}
