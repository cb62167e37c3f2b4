/**
 Payload text against Python's `==`, which also equates 1, True and 1.0. Equal text is equality with
 every number spelled alike; the value of a float's text is the parameter `v`.
 */
module JsonEquality {
  import opened CanonicalJson
  import opened JsonIdentity

  datatype Number = Finite(r: real) | Infinite(negative: bool) | NotANumber

  predicate Numeric(j: Json) {
    j.Bool? || j.Int? || j.Float?
  }

  function NumberOf(v: string -> Number, j: Json): Number
    requires Numeric(j)
  {
    match j
    case Bool(b) => Finite(if b then 1.0 else 0.0)
    case Int(n) => Finite(n as real)
    case Float(text) => v(text)
  }

  /** Python's `==`: numbers by value, never NaN, lists in order, dicts by keys and values. */
  ghost predicate Equal(v: string -> Number, a: Json, b: Json)
    decreases a
  {
    match a
    case Null => b.Null?
    case Str(_) => a == b
    case Arr(x) => b.Arr? && |x| == |b.items| && forall i :: 0 <= i < |x| ==> Equal(v, x[i], b.items[i])
    case Obj(x) => b.Obj? && |x| == |b.members| && forall i :: 0 <= i < |x| ==> HasEqual(v, x[i], b.members)
    case _ => Numeric(b) && NumberOf(v, a) == NumberOf(v, b) && NumberOf(v, a) != NotANumber
  }

  ghost predicate HasEqual(v: string -> Number, m: Member, ms: seq<Member>)
    decreases m, 1
  {
    exists k :: 0 <= k < |ms| && EqualMember(v, m, ms[k])
  }

  ghost predicate EqualMember(v: string -> Number, m: Member, n: Member)
    decreases m, 0
  {
    m.key == n.key && Equal(v, m.value, n.value)
  }

  /** Wherever both values have a number, it has the same type and the same text. */
  ghost predicate SameSpelling(a: Json, b: Json)
    decreases a
  {
    match a
    case Arr(x) => b.Arr? ==> forall i :: 0 <= i < |x| && i < |b.items| ==> SameSpelling(x[i], b.items[i])
    case Obj(x) =>
      b.Obj? ==> forall i, k :: 0 <= i < |x| && 0 <= k < |b.members| ==> SpelledAlike(x[i], b.members[k])
    case _ => Numeric(a) && Numeric(b) ==> a == b
  }

  ghost predicate SpelledAlike(m: Member, n: Member)
    decreases m, 0
  {
    m.key == n.key ==> SameSpelling(m.value, n.value)
  }

  ghost predicate NoNaN(v: string -> Number, a: Json)
    decreases a
  {
    match a
    case Arr(x) => forall i :: 0 <= i < |x| ==> NoNaN(v, x[i])
    case Obj(x) => forall i :: 0 <= i < |x| ==> NoNaN(v, x[i].value)
    case Float(text) => v(text) != NotANumber
    case _ => true
  }

  /** What the comparison of two values comes down to. */
  ghost predicate Splits(v: string -> Number, a: Json, b: Json) {
    && (Same(a, b) ==> SameSpelling(a, b) && (Equal(v, a, b) <==> NoNaN(v, a)))
    && (Equal(v, a, b) && SameSpelling(a, b) ==> Same(a, b))
  }

  lemma ObjectsSplit(v: string -> Number, x: seq<Member>, y: seq<Member>)
    requires DistinctKeys(y)
    requires forall i, k :: 0 <= i < |x| && 0 <= k < |y| ==> Splits(v, x[i].value, y[k].value)
    ensures Splits(v, Obj(x), Obj(y))
  {
    if Same(Obj(x), Obj(y)) {
      forall i | 0 <= i < |x|
        ensures forall k :: 0 <= k < |y| ==> SpelledAlike(x[i], y[k])
        ensures HasEqual(v, x[i], y) <==> NoNaN(v, x[i].value)
      {
        assert HasSame(x[i], y);
      }
    }
    if Equal(v, Obj(x), Obj(y)) && SameSpelling(Obj(x), Obj(y)) {
      forall i | 0 <= i < |x|
        ensures HasSame(x[i], y)
      {
        assert HasEqual(v, x[i], y);
        var k :| 0 <= k < |y| && EqualMember(v, x[i], y[k]);
        assert SpelledAlike(x[i], y[k]) && Splits(v, x[i].value, y[k].value);
        assert SameMember(x[i], y[k]);
      }
    }
  }

  lemma {:induction false} SameSplits(v: string -> Number, a: Json, b: Json)
    requires WellFormed(a) && WellFormed(b)
    ensures Splits(v, a, b)
    decreases a
  {
    match (a, b)
    case (Arr(x), Arr(y)) =>
      forall i | 0 <= i < |x| && i < |y|
        ensures Splits(v, x[i], y[i])
      {
        SameSplits(v, x[i], y[i]);
      }
    case (Obj(x), Obj(y)) =>
      forall i, k | 0 <= i < |x| && 0 <= k < |y|
        ensures Splits(v, x[i].value, y[k].value)
      {
        SameSplits(v, x[i].value, y[k].value);
      }
      ObjectsSplit(v, x, y);
    case _ =>
  }

  /**
   Two payloads without NaN have the same stored text exactly when they are equal as Python dicts and
   spell every number alike.
   */
  lemma TextIsEqualityAndSpelling(v: string -> Number, p: Dict, q: Dict)
    requires NoNaN(v, Obj(p))
    ensures Dumps(p) == Dumps(q) <==> Equal(v, Obj(p), Obj(q)) && SameSpelling(Obj(p), Obj(q))
  {
    PayloadTextDecidesPayload(p, q);
    SameSplits(v, Obj(p), Obj(q));
  }

  /** Equality as Python dicts alone is not enough: the same dict to Python, and three different texts. */
  lemma EqualDictsOtherTexts(v: string -> Number, key: string)
    requires v("1.0") == Finite(1.0)
    ensures var p, q, r: seq<Member> := [Member(key, Int(1))], [Member(key, Bool(true))], [Member(key, Float("1.0"))];
      && Equal(v, Obj(p), Obj(q)) && Equal(v, Obj(q), Obj(r)) && Equal(v, Obj(r), Obj(p))
      && Dumps(p) != Dumps(q) && Dumps(q) != Dumps(r) && Dumps(r) != Dumps(p)
  {
    assert FloatText("1.0") by {
      assert "1.0"[1] == '.';
    }
    OneMember(v, key, Int(1), Bool(true));
    OneMember(v, key, Bool(true), Float("1.0"));
    OneMember(v, key, Float("1.0"), Int(1));
  }

  lemma OneMember(v: string -> Number, key: string, a: Json, b: Json)
    requires WellFormed(a) && WellFormed(b)
    requires Numeric(a) && Numeric(b) && a != b && Equal(v, a, b)
    ensures Equal(v, Obj([Member(key, a)]), Obj([Member(key, b)]))
    ensures Dumps([Member(key, a)]) != Dumps([Member(key, b)])
  {
    var p: seq<Member>, q: seq<Member> := [Member(key, a)], [Member(key, b)];
    assert EqualMember(v, p[0], q[0]);
    if Same(Obj(p), Obj(q)) {
      OneMemberSame(p, q);
    }
    DifferentTexts(p, q);
  }

  lemma OneMemberSame(p: seq<Member>, q: seq<Member>)
    requires |p| == |q| == 1 && Numeric(p[0].value) && Same(Obj(p), Obj(q))
    ensures p[0].value == q[0].value
  {
    assert HasSame(p[0], q);
    var k :| 0 <= k < |q| && SameMember(p[0], q[k]);
    assert k == 0 && Same(p[0].value, q[0].value);
    match p[0].value {
      case Bool(_) =>
      case Int(_) =>
      case Float(_) =>
    }
  }

  lemma DifferentTexts(p: seq<Member>, q: seq<Member>)
    requires WellFormed(Obj(p)) && WellFormed(Obj(q)) && !Same(Obj(p), Obj(q))
    ensures Dumps(p) != Dumps(q)
  {
    PayloadTextDecidesPayload(p, q);
  }
}
