/**
 When two payloads have the same text: exactly when they are equal as typed JSON values, in which
 objects compare by keys and values, whatever the order of insertion, and 1, true and 1.0 differ.
 */
module JsonIdentity {
  import opened Sorting
  import opened CanonicalJson
  import opened JsonDecoding
  import opened JsonUniqueness

  /** Equality of typed values: leaves by type and text, objects member by member in any order. */
  ghost predicate Same(a: Json, b: Json)
    decreases a
  {
    match a
    case Arr(x) => b.Arr? && |x| == |b.items| && forall i :: 0 <= i < |x| ==> Same(x[i], b.items[i])
    case Obj(x) =>
      && b.Obj?
      && |x| == |b.members|
      && forall i :: 0 <= i < |x| ==> HasSame(x[i], b.members)
    case _ => a == b
  }

  ghost predicate HasSame(m: Member, ms: seq<Member>)
    decreases m, 1
  {
    exists k :: 0 <= k < |ms| && SameMember(m, ms[k])
  }

  ghost predicate SameMember(m: Member, n: Member)
    decreases m, 0
  {
    m.key == n.key && Same(m.value, n.value)
  }

  /** Sorting members keeps keys distinct and values well-formed. */
  lemma {:induction false} CanonWellFormed(j: Json)
    requires WellFormed(j)
    ensures WellFormed(Canon(j))
  {
    match j
    case Arr(items) =>
      forall i | 0 <= i < |items|
        ensures WellFormed(Canon(items[i]))
      {
        CanonWellFormed(items[i]);
      }
    case Obj(ms) =>
      var c := CanonMembers(ms);
      forall i | 0 <= i < |ms|
        ensures WellFormed(c[i].value)
      {
        CanonWellFormed(ms[i].value);
      }
      SortedMembersWellFormed(c);
    case _ =>
  }

  ghost predicate KeysApart(m: Member, n: Member) {
    m.key != n.key
  }

  lemma SortedMembersWellFormed(c: seq<Member>)
    requires WellFormed(Obj(c))
    ensures WellFormed(Obj(SortMembers(c)))
  {
    var s := SortMembers(c);
    SameMembers(s, c);
    assert PairwiseApart(c, KeysApart);
    PermutedApart(c, s, KeysApart);
    forall i, j | 0 <= i < j < |s|
      ensures s[i].key != s[j].key
    {
      assert KeysApart(s[i], s[j]);
    }
    forall i | 0 <= i < |s|
      ensures WellFormed(s[i].value)
    {
      assert s[i] in c;
    }
  }

  /** Members of `c`, all found in `d`, which has no room for others. */
  lemma SubsetOfSameSize(c: seq<Member>, d: seq<Member>)
    requires DistinctKeys(c) && |c| == |d|
    requires forall i :: 0 <= i < |c| ==> c[i] in d
    ensures multiset(c) == multiset(d)
  {
    var m, n := multiset(c), multiset(d);
    forall x
      ensures m[x] <= n[x]
    {
      assert PairwiseApart(c, KeysApart);
      OnceInMultiset(c, x, KeysApart);
      if m[x] > 0 {
        assert x in c;
        assert x in d;
        assert x in n;
      }
    }
    assert m <= n;
    assert n == m + (n - m);
    assert |n| == |m| + |n - m|;
    assert |m| == |c| && |n| == |d|;
    assert n - m == multiset{};
  }

  lemma KeysDistinguish(c: seq<Member>)
    requires DistinctKeys(c)
    ensures Distinguishes(c, KeyLe)
  {
    forall x, y | x in c && y in c && KeyLe(x, y) && KeyLe(y, x)
      ensures x == y
    {
      StringLeTotal(x.key, y.key);
    }
  }

  lemma SortMembersUnique(c: seq<Member>, d: seq<Member>)
    requires DistinctKeys(c)
    ensures SortMembers(c) == SortMembers(d) <==> multiset(c) == multiset(d)
  {
    var x, y := SortMembers(c), SortMembers(d);
    if multiset(c) == multiset(d) {
      KeyOrder();
      KeysDistinguish(c);
      SameMembers(x, c);
      SortedUnique(x, y, KeyLe);
    }
  }

  /** Two well-formed values have the same canonical form exactly when they are equal as values. */
  lemma {:induction false} CanonSame(a: Json, b: Json)
    requires WellFormed(a) && WellFormed(b)
    ensures Canon(a) == Canon(b) <==> Same(a, b)
    decreases a
  {
    match (a, b)
    case (Arr(x), Arr(y)) =>
      forall i | 0 <= i < |x| && i < |y|
        ensures Canon(x[i]) == Canon(y[i]) <==> Same(x[i], y[i])
      {
        CanonSame(x[i], y[i]);
      }
      ArraysSame(x, y);
    case (Obj(x), Obj(y)) =>
      forall i, k | 0 <= i < |x| && 0 <= k < |y|
        ensures CanonMember(x[i]) == CanonMember(y[k]) <==> SameMember(x[i], y[k])
      {
        CanonSame(x[i].value, y[k].value);
      }
      ObjectsSame(x, y);
    case _ =>
  }

  function CanonMember(m: Member): Member {
    Member(m.key, Canon(m.value))
  }

  /** Every member of `x` has an equal one in `y` up to key order. */
  ghost predicate CanonMatched(x: seq<Member>, y: seq<Member>) {
    |x| == |y| && forall i :: 0 <= i < |x| ==> HasMatch(x[i], y)
  }

  ghost predicate HasMatch(m: Member, y: seq<Member>) {
    exists k :: 0 <= k < |y| && CanonMember(m) == CanonMember(y[k])
  }

  lemma ArraysSame(x: seq<Json>, y: seq<Json>)
    requires forall i :: 0 <= i < |x| && i < |y| ==> (Canon(x[i]) == Canon(y[i]) <==> Same(x[i], y[i]))
    ensures Canon(Arr(x)) == Canon(Arr(y)) <==> Same(Arr(x), Arr(y))
  {
    var cx, cy := Canon(Arr(x)).items, Canon(Arr(y)).items;
    assert |cx| == |x| && |cy| == |y|;
    assert forall i :: 0 <= i < |x| ==> cx[i] == Canon(x[i]);
    assert forall i :: 0 <= i < |y| ==> cy[i] == Canon(y[i]);
    if Same(Arr(x), Arr(y)) {
      assert cx == cy;
    }
  }

  lemma SameMultisetMatches(x: seq<Member>, y: seq<Member>)
    requires multiset(CanonMembers(x)) == multiset(CanonMembers(y))
    ensures CanonMatched(x, y)
  {
    var cx, cy := CanonMembers(x), CanonMembers(y);
    SameMembers(cx, cy);
    assert |x| == |cx| == |cy| == |y|;
    forall i | 0 <= i < |x|
      ensures HasMatch(x[i], y)
    {
      assert cx[i] in cy;
      var k :| 0 <= k < |cy| && cy[k] == cx[i];
      assert cx[i] == CanonMember(x[i]) && cy[k] == CanonMember(y[k]);
      assert CanonMember(x[i]) == CanonMember(y[k]);
    }
  }

  lemma MatchedSameMultiset(x: seq<Member>, y: seq<Member>)
    requires DistinctKeys(x) && CanonMatched(x, y)
    ensures multiset(CanonMembers(x)) == multiset(CanonMembers(y))
  {
    var cx, cy := CanonMembers(x), CanonMembers(y);
    assert DistinctKeys(cx) by {
      assert forall i :: 0 <= i < |x| ==> cx[i].key == x[i].key;
    }
    forall i | 0 <= i < |cx|
      ensures cx[i] in cy
    {
      assert HasMatch(x[i], y);
      var k :| 0 <= k < |y| && CanonMember(x[i]) == CanonMember(y[k]);
      assert cx[i] == cy[k];
    }
    SubsetOfSameSize(cx, cy);
  }

  lemma CanonObjects(x: seq<Member>, y: seq<Member>)
    requires DistinctKeys(x) && DistinctKeys(y)
    ensures Canon(Obj(x)) == Canon(Obj(y)) <==> CanonMatched(x, y)
  {
    var cx, cy := CanonMembers(x), CanonMembers(y);
    assert forall i :: 0 <= i < |x| ==> cx[i].key == x[i].key;
    SortMembersUnique(cx, cy);
    if multiset(cx) == multiset(cy) {
      SameMultisetMatches(x, y);
    }
    if CanonMatched(x, y) {
      MatchedSameMultiset(x, y);
    }
  }

  lemma ObjectsSame(x: seq<Member>, y: seq<Member>)
    requires DistinctKeys(x) && DistinctKeys(y)
    requires forall i, k :: 0 <= i < |x| && 0 <= k < |y| ==>
      (CanonMember(x[i]) == CanonMember(y[k]) <==> SameMember(x[i], y[k]))
    ensures Canon(Obj(x)) == Canon(Obj(y)) <==> Same(Obj(x), Obj(y))
  {
    CanonObjects(x, y);
    forall i | 0 <= i < |x|
      ensures HasMatch(x[i], y) <==> HasSame(x[i], y)
    {
      assert forall k :: 0 <= k < |y| ==> (CanonMember(x[i]) == CanonMember(y[k]) <==> SameMember(x[i], y[k]));
    }
  }

  // ---------------------------------------------------------------------------------------------
  // Main results
  // ---------------------------------------------------------------------------------------------

  /** The stored payload text is the same exactly when the payloads are equal as typed JSON objects. */
  lemma PayloadTextDecidesPayload(p: Dict, q: Dict)
    ensures Dumps(p) == Dumps(q) <==> Same(Obj(p), Obj(q))
  {
    CanonSame(Obj(p), Obj(q));
    CanonWellFormed(Obj(p));
    CanonWellFormed(Obj(q));
    if Dumps(p) == Dumps(q) {
      RenderUnique(Canon(Obj(p)), Canon(Obj(q)), "", "");
    }
  }

  /** The order in which a payload's keys were inserted leaves no trace in its text. */
  lemma InsertionOrderIrrelevant(p: Dict, q: Dict)
    requires multiset(p) == multiset(q)
    ensures Dumps(p) == Dumps(q)
  {
    SameMembers(p, q);
    forall i | 0 <= i < |p|
      ensures exists k :: 0 <= k < |q| && CanonMember(p[i]) == CanonMember(q[k])
    {
      assert p[i] in q;
      var k :| 0 <= k < |q| && q[k] == p[i];
      assert CanonMember(p[i]) == CanonMember(q[k]);
    }
    CanonObjects(p, q);
  }

  /** Every stored payload is quote-balanced text. */
  lemma DumpsBalanced(p: Dict)
    ensures Balanced(Dumps(p))
  {
    CanonWellFormed(Obj(p));
    RenderBalanced(Canon(Obj(p)));
  }
}
