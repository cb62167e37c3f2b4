/**
 The library sort that the repository calls in several places (`sorted`, `list.sort`):
 a stable sort under a total preorder, with the facts every caller relies on.
 */
module Sorting {

  ghost predicate TotalPreorder<T(!new)>(le: (T, T) -> bool) {
    && (forall x, y :: le(x, y) || le(y, x))
    && (forall x, y, z :: le(x, y) && le(y, z) ==> le(x, z))
  }

  ghost predicate SortedBy<T>(s: seq<T>, le: (T, T) -> bool) {
    forall i, j :: 0 <= i < j < |s| ==> le(s[i], s[j])
  }

  /** The order tells any two different members of `s` apart. */
  ghost predicate Distinguishes<T>(s: seq<T>, le: (T, T) -> bool) {
    forall x, y :: x in s && y in s && le(x, y) && le(y, x) ==> x == y
  }

  lemma HeadBelow<T>(x: T, s: seq<T>, r: seq<T>, le: (T, T) -> bool)
    requires s != [] && le(s[0], x) && SortedBy(s, le)
    requires SortedBy(r, le) && multiset(r) == multiset{x} + multiset(s[1..])
    ensures SortedBy([s[0]] + r, le)
  {
    forall j | 0 <= j < |r|
      ensures le(s[0], r[j])
    {
      assert r[j] in multiset(r);
      if r[j] != x {
        assert r[j] in s[1..];
      }
    }
  }

  /** Inserts `x` before the first element that is not strictly below it. */
  function Insert<T(!new)>(x: T, s: seq<T>, le: (T, T) -> bool): (r: seq<T>)
    requires TotalPreorder(le) && SortedBy(s, le)
    ensures SortedBy(r, le)
    ensures multiset(r) == multiset{x} + multiset(s)
  {
    if s == [] then [x]
    else if le(x, s[0]) then
      assert forall j :: 0 <= j < |s| ==> le(x, s[j]);
      [x] + s
    else
      assert s == [s[0]] + s[1..];
      var r' := Insert(x, s[1..], le);
      HeadBelow(x, s, r', le);
      [s[0]] + r'
  }

  /** Stable sort: equal elements keep their order. */
  function Sort<T(!new)>(s: seq<T>, le: (T, T) -> bool): (r: seq<T>)
    requires TotalPreorder(le)
    ensures SortedBy(r, le)
    ensures multiset(r) == multiset(s)
    ensures |r| == |s|
  {
    if s == [] then []
    else
      assert s == [s[0]] + s[1..];
      var r := Insert(s[0], Sort(s[1..], le), le);
      assert |multiset(r)| == |r| && |multiset(s)| == |s|;
      r
  }

  predicate Tied<T>(le: (T, T) -> bool, x: T, y: T) {
    le(x, y) && le(y, x)
  }

  /** The elements of a list that the order cannot tell from `x`, in their order. */
  function Ties<T>(s: seq<T>, le: (T, T) -> bool, x: T): seq<T> {
    if s == [] then [] else (if Tied(le, x, s[0]) then [s[0]] else []) + Ties(s[1..], le, x)
  }

  lemma TiesOfCons<T>(y: T, s: seq<T>, le: (T, T) -> bool, x: T)
    ensures Ties([y] + s, le, x) == (if Tied(le, x, y) then [y] else []) + Ties(s, le, x)
  {
    assert ([y] + s)[1..] == s;
  }

  /** An insertion puts the element before its ties. */
  lemma {:induction false} InsertKeepsTies<T(!new)>(y: T, s: seq<T>, le: (T, T) -> bool, x: T)
    requires TotalPreorder(le) && SortedBy(s, le)
    ensures Ties(Insert(y, s, le), le, x) == (if Tied(le, x, y) then [y] else []) + Ties(s, le, x)
  {
    if s == [] || le(y, s[0]) {
      TiesOfCons(y, s, le, x);
      assert Insert(y, s, le) == [y] + s;
    } else {
      var r := Insert(y, s[1..], le);
      InsertKeepsTies(y, s[1..], le, x);
      PastTies(y, s, r, le, x);
    }
  }

  lemma PastTies<T>(y: T, s: seq<T>, r: seq<T>, le: (T, T) -> bool, x: T)
    requires s != [] && !(Tied(le, x, y) && Tied(le, x, s[0]))
    requires Ties(r, le, x) == (if Tied(le, x, y) then [y] else []) + Ties(s[1..], le, x)
    ensures Ties([s[0]] + r, le, x) == (if Tied(le, x, y) then [y] else []) + Ties(s, le, x)
  {
    TiesOfCons(s[0], r, le, x);
  }

  /** Elements that the order cannot tell apart come out in the order they went in. */
  lemma {:induction false} SortIsStable<T(!new)>(s: seq<T>, le: (T, T) -> bool, x: T)
    requires TotalPreorder(le)
    ensures Ties(Sort(s, le), le, x) == Ties(s, le, x)
  {
    if s != [] {
      SortIsStable(s[1..], le, x);
      InsertKeepsTies(s[0], Sort(s[1..], le), le, x);
    }
  }

  /** Sequences with equal multisets have the same members. */
  lemma SameMembers<T>(a: seq<T>, b: seq<T>)
    requires multiset(a) == multiset(b)
    ensures forall x :: x in a <==> x in b
    ensures |a| == |b|
  {
    forall x
      ensures x in a <==> x in b
    {
      assert x in a <==> x in multiset(a);
      assert x in b <==> x in multiset(b);
    }
    assert |multiset(a)| == |a| && |multiset(b)| == |b|;
  }

  /** Two sorted lists with the same members start with elements the order cannot tell apart. */
  lemma SortedHeads<T(!new)>(a: seq<T>, b: seq<T>, le: (T, T) -> bool)
    requires TotalPreorder(le) && SortedBy(a, le) && SortedBy(b, le)
    requires a != [] && b != [] && a[0] in b && b[0] in a
    ensures le(a[0], b[0]) && le(b[0], a[0])
  {
    var i :| 0 <= i < |b| && b[i] == a[0];
    var j :| 0 <= j < |a| && a[j] == b[0];
    assert le(a[0], a[0]) && le(b[0], b[0]);
    assert i > 0 ==> le(b[0], b[i]);
    assert j > 0 ==> le(a[0], a[j]);
  }

  lemma TailMultiset<T>(s: seq<T>)
    requires s != []
    ensures multiset(s[1..]) == multiset(s) - multiset{s[0]}
    ensures forall x :: x in s[1..] ==> x in s
  {
    assert s == [s[0]] + s[1..];
  }

  /**
   A list sorted under an order that never identifies two of its elements is the only sorted
   list with its members, so a sort forgets the order it was given.
   */
  lemma {:induction false} SortedUnique<T(!new)>(a: seq<T>, b: seq<T>, le: (T, T) -> bool)
    requires TotalPreorder(le) && SortedBy(a, le) && SortedBy(b, le)
    requires multiset(a) == multiset(b)
    requires Distinguishes(a, le)
    ensures a == b
  {
    SameMembers(a, b);
    if a != [] {
      SortedHeads(a, b, le);
      assert a[0] == b[0] by {
        assert b[0] in a;
      }
      TailMultiset(a);
      TailMultiset(b);
      SortedUnique(a[1..], b[1..], le);
      assert a == [a[0]] + a[1..] && b == [b[0]] + b[1..];
    }
  }

  ghost predicate PairwiseApart<T>(s: seq<T>, apart: (T, T) -> bool) {
    forall i, j :: 0 <= i < j < |s| ==> apart(s[i], s[j])
  }

  ghost predicate Apartness<T(!new)>(apart: (T, T) -> bool) {
    (forall x :: !apart(x, x)) && (forall x, y :: apart(x, y) ==> apart(y, x))
  }

  lemma TwiceInMultiset<T>(s: seq<T>, i: int, j: int)
    requires 0 <= i < j < |s| && s[i] == s[j]
    ensures multiset(s)[s[i]] >= 2
  {
    assert s == s[..j] + [s[j]] + s[j + 1..];
    assert s[i] in s[..j];
    assert s[i] in multiset(s[..j]);
  }

  /** A list whose elements are pairwise apart holds each of them once. */
  lemma {:induction false} OnceInMultiset<T(!new)>(s: seq<T>, x: T, apart: (T, T) -> bool)
    requires Apartness(apart) && PairwiseApart(s, apart)
    ensures multiset(s)[x] <= 1
  {
    if s != [] {
      assert s == [s[0]] + s[1..];
      OnceInMultiset(s[1..], x, apart);
      if s[0] == x {
        assert x !in s[1..];
        assert x !in multiset(s[1..]);
      }
    }
  }

  /** Rearranging a list keeps its elements pairwise apart. */
  lemma PermutedApart<T(!new)>(a: seq<T>, b: seq<T>, apart: (T, T) -> bool)
    requires Apartness(apart) && PairwiseApart(a, apart)
    requires multiset(a) == multiset(b)
    ensures PairwiseApart(b, apart)
  {
    SameMembers(a, b);
    forall i, j | 0 <= i < j < |b|
      ensures apart(b[i], b[j])
    {
      if b[i] == b[j] {
        TwiceInMultiset(b, i, j);
        OnceInMultiset(a, b[i], apart);
      }
      assert b[i] in a && b[j] in a;
      var k :| 0 <= k < |a| && a[k] == b[i];
      var l :| 0 <= l < |a| && a[l] == b[j];
    }
  }
}
