/**
 An independent reader for whole JSON values in compact form, and the round trip through it: the text
 that is stored and hashed means the payload it was printed from, with keys in code point order.
 */
module JsonValues {
  import opened Prelude
  import opened CanonicalJson
  import opened JsonUniqueness
  import opened JsonReading
  import opened JsonIdentity
  import opened Sorting

  // ---------------------------------------------------------------------------------------------
  // The reader
  // ---------------------------------------------------------------------------------------------

  predicate AllDigits(s: string) {
    s != "" && forall i :: 0 <= i < |s| ==> '0' <= s[i] <= '9'
  }

  /** Positional value: each digit weighs ten times the one after it. */
  function DigitsValue(s: string): nat
    requires forall i :: 0 <= i < |s| ==> '0' <= s[i] <= '9'
  {
    if s == "" then 0 else 10 * DigitsValue(s[..|s| - 1]) + (s[|s| - 1] as int - '0' as int)
  }

  /** A bare token: a word, an integer, or the text of a float. */
  function ReadToken(token: string): Json {
    if token == "null" then Null
    else if token == "true" then Bool(true)
    else if token == "false" then Bool(false)
    else if AllDigits(token) then Int(DigitsValue(token))
    else if token != "" && token[0] == '-' && AllDigits(token[1..]) then Int(0 - DigitsValue(token[1..]))
    else Float(token)
  }

  /** How far a bare token reaches. */
  function TokenLength(s: string): (n: nat)
    ensures n <= |s|
  {
    if s == "" || s[0] in ",]}" then 0 else 1 + TokenLength(s[1..])
  }

  /** The value at the front of a text, and what follows it. */
  function ReadValue(s: string): (r: Option<(Json, string)>)
    ensures r.Some? ==> |r.value.1| < |s|
    decreases |s|, 0
  {
    if s == "" then None
    else if s[0] == '\"' then
      (match ReadString(s)
       case None => None
       case Some((text, rest)) => Some((Str(text), rest)))
    else if s[0] == '[' then
      if |s| > 1 && s[1] == ']' then Some((Arr([]), s[2..]))
      else
        (match ReadItems(s[1..])
         case None => None
         case Some((items, rest)) => Some((Arr(items), rest)))
    else if s[0] == '{' then
      if |s| > 1 && s[1] == '}' then Some((Obj([]), s[2..]))
      else
        (match ReadMembers(s[1..])
         case None => None
         case Some((ms, rest)) => Some((Obj(ms), rest)))
    else if TokenLength(s) == 0 then None
    else Some((ReadToken(s[..TokenLength(s)]), s[TokenLength(s)..]))
  }

  /** One item or more, commas between them, and the closing bracket. */
  function ReadItems(s: string): (r: Option<(seq<Json>, string)>)
    ensures r.Some? ==> |r.value.1| < |s|
    decreases |s|, 1
  {
    match ReadValue(s)
    case None => None
    case Some((v, rest)) =>
      if rest != "" && rest[0] == ']' then Some(([v], rest[1..]))
      else if rest != "" && rest[0] == ',' then
        (match ReadItems(rest[1..])
         case None => None
         case Some((vs, after)) => Some(([v] + vs, after)))
      else None
  }

  /** One member or more, commas between them, and the closing brace. */
  function ReadMembers(s: string): (r: Option<(seq<Member>, string)>)
    ensures r.Some? ==> |r.value.1| < |s|
    decreases |s|, 1
  {
    match ReadMember(s)
    case None => None
    case Some((m, rest)) =>
      if rest != "" && rest[0] == '}' then Some(([m], rest[1..]))
      else if rest != "" && rest[0] == ',' then
        (match ReadMembers(rest[1..])
         case None => None
         case Some((ms, after)) => Some(([m] + ms, after)))
      else None
  }

  function ReadMember(s: string): (r: Option<(Member, string)>)
    ensures r.Some? ==> |r.value.1| < |s|
    decreases |s|, 0
  {
    match ReadString(s)
    case None => None
    case Some((key, rest)) =>
      if rest == "" || rest[0] != ':' then None
      else
        (match ReadValue(rest[1..])
         case None => None
         case Some((v, after)) => Some((Member(key, v), after)))
  }

  // ---------------------------------------------------------------------------------------------
  // Tokens
  // ---------------------------------------------------------------------------------------------

  lemma {:induction false} DigitsMean(n: nat)
    ensures AllDigits(Digits(n)) && DigitsValue(Digits(n)) == n
  {
    if n >= 10 {
      DigitsMean(n / 10);
      assert Digits(n)[..|Digits(n)| - 1] == Digits(n / 10);
    }
  }

  lemma NotAWord(token: string)
    requires token != "" && ('0' <= token[0] <= '9' || token[0] in "-NI")
    ensures token != "null" && token != "true" && token != "false"
  {
  }

  /** The digits of an integer stand for that integer. */
  lemma IntMeans(n: int)
    ensures ReadToken(IntText(n)) == Int(n)
  {
    DigitsMean(if n < 0 then -n else n);
    NotAWord(IntText(n));
    if n < 0 {
      assert IntText(n)[1..] == Digits(-n);
    }
  }

  lemma OtherCharacter(t: string, i: nat)
    requires i < |t| && t[i] in ".eENI"
    ensures !AllDigits(t)
  {
  }

  lemma FloatMeans(t: string)
    requires FloatText(t)
    ensures ReadToken(t) == Float(t)
  {
    NotAWord(t);
    var i :| 0 <= i < |t| && t[i] in ".eENI";
    OtherCharacter(t, i);
    if t[0] == '-' {
      assert i > 0 && t[1..][i - 1] == t[i];
      OtherCharacter(t[1..], i - 1);
    }
  }

  lemma {:induction false} TokenEnds(token: string, r: string)
    requires (forall i :: 0 <= i < |token| ==> token[i] !in ",]}") && Stops(r)
    ensures TokenLength(token + r) == |token|
  {
    if token == "" {
      assert token + r == r;
    } else {
      assert (token + r)[1..] == token[1..] + r;
      TokenEnds(token[1..], r);
    }
  }

  predicate Bare(j: Json) {
    j.Null? || j.Bool? || j.Int? || j.Float?
  }

  /** A token with no character that ends one, and none that opens a string, an array or an object. */
  predicate PlainToken(t: string) {
    t != "" && t[0] !in "\"[{" && forall i :: 0 <= i < |t| ==> t[i] !in ",]}"
  }

  lemma NumberPlain(t: string)
    requires t != "" && forall i :: 0 <= i < |t| ==> NumberChar(t[i])
    ensures PlainToken(t)
  {
  }

  lemma BareShape(j: Json)
    requires WellFormed(j) && Bare(j)
    ensures PlainToken(Render(j))
  {
    match j
    case Null =>
    case Bool(_) =>
    case Int(n) =>
      IntTextShape(n);
      NumberPlain(IntText(n));
    case Float(t) => NumberPlain(t);
  }

  lemma BareMeans(j: Json)
    requires WellFormed(j) && Bare(j)
    ensures ReadToken(Render(j)) == j
  {
    match j
    case Null =>
    case Bool(_) =>
    case Int(n) => IntMeans(n);
    case Float(t) => FloatMeans(t);
  }

  lemma BareReads(j: Json, r: string)
    requires WellFormed(j) && Bare(j) && Stops(r)
    ensures ReadValue(Render(j) + r) == Some((j, r))
  {
    var t := Render(j);
    BareShape(j);
    BareMeans(j);
    TokenEnds(t, r);
    assert (t + r)[0] == t[0] && (t + r)[..|t|] == t && (t + r)[|t|..] == r;
  }

  // ---------------------------------------------------------------------------------------------
  // Round trip
  // ---------------------------------------------------------------------------------------------

  /** Every value is read back from its text, whatever follows it that can follow a value. */
  lemma {:induction false} ValueReadsBack(j: Json, r: string)
    requires WellFormed(j) && Stops(r)
    ensures ReadValue(Render(j) + r) == Some((j, r))
    decreases j, 1
  {
    match j
    case Str(s) =>
      QuotedStringReadsBack(s, r);
    case Arr(items) => ArrayReads(items, r);
    case Obj(ms) => ObjectReads(ms, r);
    case _ => BareReads(j, r);
  }

  lemma {:induction false} ArrayReads(items: seq<Json>, r: string)
    requires forall i :: 0 <= i < |items| ==> WellFormed(items[i])
    ensures ReadValue(Render(Arr(items)) + r) == Some((Arr(items), r))
    decreases items, 2
  {
    var s := Render(Arr(items)) + r;
    ArrSplit(items, r);
    if items == [] {
      assert s[1] == ']' && s[2..] == r;
    } else {
      var inner := Render(items[0]) + (RenderItems(items[1..]) + r);
      FirstChar(items[0]);
      assert s[1..] == inner && s[1] == inner[0] == Render(items[0])[0];
      ItemsRead(items, r);
    }
  }

  lemma {:induction false} ItemsRead(items: seq<Json>, r: string)
    requires items != [] && forall i :: 0 <= i < |items| ==> WellFormed(items[i])
    ensures ReadItems(Render(items[0]) + (RenderItems(items[1..]) + r)) == Some((items, r))
    decreases items, 1
  {
    var rest := RenderItems(items[1..]) + r;
    ItemsSplit(items[1..], r);
    ValueReadsBack(items[0], rest);
    if items[1..] == [] {
      assert rest[1..] == r && items == [items[0]];
    } else {
      assert rest[1..] == Render(items[1..][0]) + (RenderItems(items[1..][1..]) + r);
      ItemsRead(items[1..], r);
      assert items == [items[0]] + items[1..];
    }
  }

  lemma {:induction false} ObjectReads(ms: seq<Member>, r: string)
    requires forall i :: 0 <= i < |ms| ==> WellFormed(ms[i].value)
    ensures ReadValue(Render(Obj(ms)) + r) == Some((Obj(ms), r))
    decreases ms, 3
  {
    var s := Render(Obj(ms)) + r;
    ObjSplit(ms, r);
    if ms == [] {
      assert s[1] == '}' && s[2..] == r;
    } else {
      assert s[1..] == MemberText(ms, r) && s[1] == MemberText(ms, r)[0];
      MembersRead(ms, r);
    }
  }

  /** Reading goes on with the members after the first. */
  lemma ReadMembersSteps(s: string, m: Member, rest: string, ms: seq<Member>, r: string)
    requires ReadMember(s) == Some((m, rest)) && rest != "" && rest[0] == ','
    requires ReadMembers(rest[1..]) == Some((ms, r))
    ensures ReadMembers(s) == Some(([m] + ms, r))
  {
  }

  lemma {:induction false} MembersRead(ms: seq<Member>, r: string)
    requires ms != [] && forall i :: 0 <= i < |ms| ==> WellFormed(ms[i].value)
    ensures ReadMembers(MemberText(ms, r)) == Some((ms, r))
    decreases ms, 2
  {
    var rest := RenderMembers(ms[1..]) + r;
    MembersSplit(ms[1..], r);
    MemberReads(ms[0], rest);
    if ms[1..] == [] {
      assert rest[1..] == r && ms == [ms[0]];
    } else {
      assert rest[1..] == MemberText(ms[1..], r);
      MembersRead(ms[1..], r);
      ReadMembersSteps(MemberText(ms, r), ms[0], rest, ms[1..], r);
      assert ms == [ms[0]] + ms[1..];
    }
  }

  lemma {:induction false} MemberReads(m: Member, rest: string)
    requires WellFormed(m.value) && Stops(rest)
    ensures ReadMember(Quote(m.key) + ([':'] + (Render(m.value) + rest))) == Some((m, rest))
    decreases m, 2
  {
    var tail := [':'] + (Render(m.value) + rest);
    QuotedStringReadsBack(m.key, tail);
    assert tail[0] == ':' && tail[1..] == Render(m.value) + rest;
    ValueReadsBack(m.value, rest);
  }

  // ---------------------------------------------------------------------------------------------
  // What a payload's text means
  // ---------------------------------------------------------------------------------------------

  /** Code point order: a proper prefix, or smaller at the first position where they differ. */
  ghost predicate ComesBefore(a: string, b: string) {
    || (|a| < |b| && a == b[..|a|])
    || exists k :: 0 <= k < |a| && k < |b| && a[..k] == b[..k] && a[k] < b[k]
  }

  /** The keys of every object, at every depth, rise in code point order. */
  ghost predicate KeysRise(j: Json) {
    match j
    case Arr(items) => forall i :: 0 <= i < |items| ==> KeysRise(items[i])
    case Obj(ms) =>
      && (forall i, k :: 0 <= i < k < |ms| ==> ComesBefore(ms[i].key, ms[k].key))
      && (forall i :: 0 <= i < |ms| ==> KeysRise(ms[i].value))
    case _ => true
  }

  lemma {:induction false} OrderedComesBefore(a: string, b: string)
    requires StringLe(a, b) && a != b
    ensures ComesBefore(a, b)
  {
    if a == "" {
      assert b[..0] == "";
    } else if a[0] < b[0] {
      assert a[..0] == b[..0];
    } else {
      assert a == [a[0]] + a[1..] && b == [b[0]] + b[1..];
      OrderedComesBefore(a[1..], b[1..]);
      if |a[1..]| < |b[1..]| && a[1..] == b[1..][..|a[1..]|] {
        assert a == b[..|a|];
      } else {
        var k :| 0 <= k < |a[1..]| && k < |b[1..]| && a[1..][..k] == b[1..][..k] && a[1..][k] < b[1..][k];
        assert a[..k + 1] == [a[0]] + a[1..][..k] && b[..k + 1] == [b[0]] + b[1..][..k];
        assert a[k + 1] < b[k + 1];
      }
    }
  }

  lemma SortedKeysRise(c: seq<Member>)
    requires WellFormed(Obj(c))
    ensures var s := SortMembers(c);
      && (forall i, k :: 0 <= i < k < |s| ==> ComesBefore(s[i].key, s[k].key))
      && (forall i :: 0 <= i < |s| ==> s[i] in c)
  {
    var s := SortMembers(c);
    SortedMembersWellFormed(c);
    SameMembers(s, c);
    forall i, k | 0 <= i < k < |s|
      ensures ComesBefore(s[i].key, s[k].key)
    {
      assert KeyLe(s[i], s[k]) && s[i].key != s[k].key;
      OrderedComesBefore(s[i].key, s[k].key);
    }
    forall i | 0 <= i < |s|
      ensures s[i] in c
    {
      assert s[i] in s;
    }
  }

  lemma {:induction false} CanonKeysRise(j: Json)
    requires WellFormed(j)
    ensures KeysRise(Canon(j))
  {
    match j
    case Arr(items) =>
      forall i | 0 <= i < |items|
        ensures KeysRise(Canon(items[i]))
      {
        CanonKeysRise(items[i]);
      }
    case Obj(ms) =>
      var c := CanonMembers(ms);
      CanonMembersWellFormed(ms);
      forall i | 0 <= i < |ms|
        ensures KeysRise(c[i].value)
      {
        CanonKeysRise(ms[i].value);
      }
      SortedKeysRise(c);
    case _ =>
  }

  lemma CanonMembersWellFormed(ms: seq<Member>)
    requires WellFormed(Obj(ms))
    ensures WellFormed(Obj(CanonMembers(ms)))
  {
    forall i | 0 <= i < |ms|
      ensures WellFormed(CanonMembers(ms)[i].value)
    {
      CanonWellFormed(ms[i].value);
    }
  }

  lemma SortedCanonFixed(c: seq<Member>)
    requires WellFormed(Obj(c)) && forall i :: 0 <= i < |c| ==> Canon(c[i].value) == c[i].value
    ensures Canon(Obj(SortMembers(c))) == Obj(SortMembers(c))
  {
    var s := SortMembers(c);
    SortedKeysRise(c);
    assert CanonMembers(s) == s;
    SortMembersUnique(c, s);
  }

  /** Sorting sorted members changes nothing, so the canonical form of a canonical form is itself. */
  lemma {:induction false} CanonTwice(j: Json)
    requires WellFormed(j)
    ensures Canon(Canon(j)) == Canon(j)
  {
    match j
    case Arr(items) =>
      forall i | 0 <= i < |items|
        ensures Canon(Canon(items[i])) == Canon(items[i])
      {
        CanonTwice(items[i]);
      }
      assert Canon(Canon(j)).items == Canon(j).items;
    case Obj(ms) =>
      var c := CanonMembers(ms);
      CanonMembersWellFormed(ms);
      forall i | 0 <= i < |c|
        ensures Canon(c[i].value) == c[i].value
      {
        CanonTwice(ms[i].value);
      }
      SortedCanonFixed(c);
    case _ =>
  }

  /** The canonical form is the same value. */
  lemma CanonIsSame(j: Json)
    requires WellFormed(j)
    ensures WellFormed(Canon(j)) && Same(Canon(j), j)
  {
    CanonWellFormed(j);
    CanonTwice(j);
    CanonSame(Canon(j), j);
  }

  /**
   What the stored payload text says: read back as JSON, whole, it is a value equal to the payload, and
   the keys of all its objects rise in code point order.
   */
  lemma PayloadTextReadsBack(p: Dict) returns (v: Json)
    ensures ReadValue(Dumps(p)) == Some((v, "")) && Same(v, Obj(p)) && KeysRise(v)
  {
    v := Canon(Obj(p));
    CanonIsSame(Obj(p));
    CanonKeysRise(Obj(p));
    ValueReadsBack(v, "");
    assert Dumps(p) + "" == Dumps(p);
  }
}
