/** The printed text of a value determines the value: unique readability of the compact form. */
module JsonUniqueness {
  import opened CanonicalJson
  import opened JsonDecoding

  // ---------------------------------------------------------------------------------------------
  // Characters and strings
  // ---------------------------------------------------------------------------------------------

  /** Equal first characters and equal remainders. */
  lemma HeadTail(c: char, x: string, d: char, y: string)
    requires [c] + x == [d] + y
    ensures c == d && x == y
  {
    assert c == ([c] + x)[0] && d == ([d] + y)[0];
    assert x == ([c] + x)[1..] && y == ([d] + y)[1..];
  }

  /** Equal concatenations whose first parts are equally long. */
  lemma Cancel(a: string, r: string, b: string, t: string)
    requires a + r == b + t && |a| == |b|
    ensures a == b && r == t
  {
    assert a == (a + r)[..|a|] && b == (b + t)[..|b|];
    assert r == (a + r)[|a|..] && t == (b + t)[|b|..];
  }

  lemma Hex4Value(n: nat)
    requires n < 0x10000
    ensures n == 4096 * (n / 4096) + 256 * (n / 256 % 16) + 16 * (n / 16 % 16) + n % 16
  {
    Div256(n);
    Div4096(n);
    var a, b := n / 16, n / 256;
    assert n == 16 * a + n % 16 && a == 16 * (a / 16) + a % 16 && b == 16 * (b / 16) + b % 16;
  }

  lemma Hex4Unique(a: nat, b: nat)
    requires a < 0x10000 && b < 0x10000
    requires Hex4(a) == Hex4(b)
    ensures a == b
  {
    var x, y := Hex4(a), Hex4(b);
    Hex4Digits(a);
    Hex4Digits(b);
    assert x[0] == y[0] && x[1] == y[1] && x[2] == y[2] && x[3] == y[3];
    HexDigitUnique(a / 4096, b / 4096);
    HexDigitUnique(a / 256 % 16, b / 256 % 16);
    HexDigitUnique(a / 16 % 16, b / 16 % 16);
    HexDigitUnique(a % 16, b % 16);
    Hex4Value(a);
    Hex4Value(b);
  }

  lemma HexDigitUnique(d: nat, e: nat)
    requires d < 16 && e < 16 && HexDigit(d) == HexDigit(e)
    ensures d == e
  {
    assert "0123456789abcdef"[d] == "0123456789abcdef"[e];
  }

  predicate ShortEscape(c: char) {
    c in "\"\\\n\r\t\U{000C}\U{0008}"
  }

  predicate Printable(c: char) {
    !ShortEscape(c) && ' ' <= c <= '~'
  }

  /** The first `\uXXXX` unit of a character that needs one. */
  function FirstUnit(c: char): nat
    ensures FirstUnit(c) < 0x10000
    ensures 0xd800 <= FirstUnit(c) < 0xdc00 <==> c as int >= 0x10000
  {
    if c as int < 0x10000 then c as int else 0xd800 + (c as int - 0x10000) / 0x400
  }

  /** What follows the first unit: nothing, or the low surrogate. */
  function SecondUnit(c: char): string {
    if c as int < 0x10000 then "" else "\\u" + Hex4(0xdc00 + (c as int - 0x10000) % 0x400)
  }

  lemma EscapeCharShape(c: char)
    ensures Printable(c) ==> EscapeChar(c) == [c] && c != '\\'
    ensures ShortEscape(c) ==> |EscapeChar(c)| == 2 && EscapeChar(c)[0] == '\\' && EscapeChar(c)[1] != 'u'
    ensures !Printable(c) && !ShortEscape(c) ==> EscapeChar(c) == UnicodeEscape(c)
    ensures |EscapeChar(c)| > 0 && EscapeChar(c)[0] != '\"'
  {
  }

  lemma EscapeCharUnique(c: char, d: char, r: string, t: string)
    requires EscapeChar(c) + r == EscapeChar(d) + t
    ensures c == d && r == t
  {
    EscapeCharShape(c);
    EscapeCharShape(d);
    var x := EscapeChar(c) + r;
    assert x[0] == EscapeChar(c)[0] == EscapeChar(d)[0];
    if x[0] == '\\' {
      assert x[1] == EscapeChar(c)[1] == EscapeChar(d)[1];
      if x[1] == 'u' {
        UnicodeEscapeUnique(c, d, r, t);
      } else {
        assert c == d;
      }
    } else {
      assert c == d;
    }
    Cancel(EscapeChar(c), r, EscapeChar(d), t);
  }

  lemma UnicodeEscapeUnique(c: char, d: char, r: string, t: string)
    requires UnicodeEscape(c) + r == UnicodeEscape(d) + t
    ensures c == d
  {
    UnitsUnique(FirstUnit(c), SecondUnit(c) + r, UnicodeEscape(c) + r, FirstUnit(d), SecondUnit(d) + t, UnicodeEscape(d) + t);
    if c as int >= 0x10000 {
      SurrogatesUnique(c, d, r, t);
    }
  }

  /** Equal texts that start with one unit each. */
  lemma UnitsUnique(n: nat, r: string, x: string, m: nat, t: string, y: string)
    requires n < 0x10000 && m < 0x10000 && x == y
    requires x == ['\\', 'u'] + Hex4(n) + r && y == ['\\', 'u'] + Hex4(m) + t
    ensures n == m && r == t
  {
    var h, k := ['\\', 'u'] + Hex4(n), ['\\', 'u'] + Hex4(m);
    Cancel(h, r, k, t);
    Cancel(['\\', 'u'], Hex4(n), ['\\', 'u'], Hex4(m));
    Hex4Unique(n, m);
  }

  lemma SurrogatesUnique(c: char, d: char, r: string, t: string)
    requires c as int >= 0x10000 && d as int >= 0x10000
    requires FirstUnit(c) == FirstUnit(d)
    requires SecondUnit(c) + r == SecondUnit(d) + t
    ensures c == d
  {
    var v, w := c as int - 0x10000, d as int - 0x10000;
    SecondUnitsUnique(v % 0x400, w % 0x400, r, t);
  }

  lemma SecondUnitsUnique(v: nat, w: nat, r: string, t: string)
    requires v < 0x400 && w < 0x400
    requires "\\u" + Hex4(0xdc00 + v) + r == "\\u" + Hex4(0xdc00 + w) + t
    ensures v == w
  {
    Cancel("\\u" + Hex4(0xdc00 + v), r, "\\u" + Hex4(0xdc00 + w), t);
    Cancel("\\u", Hex4(0xdc00 + v), "\\u", Hex4(0xdc00 + w));
    Hex4Unique(0xdc00 + v, 0xdc00 + w);
  }

  lemma EscapeSplit(s: string, r: string)
    ensures s == "" ==> Escape(s) + "\"" + r == ['\"'] + r
    ensures s != "" ==> Escape(s) + "\"" + r == EscapeChar(s[0]) + (Escape(s[1..]) + "\"" + r)
    ensures (Escape(s) + "\"" + r)[0] == '\"' <==> s == ""
  {
    if s != "" {
      EscapeCharShape(s[0]);
      Regroup(EscapeChar(s[0]), Escape(s[1..]), "\"", r);
    }
  }

  lemma Regroup(a: string, b: string, c: string, d: string)
    ensures a + b + c + d == a + (b + c + d)
  {
  }

  lemma {:induction false} EscapeUnique(a: string, b: string, r: string, t: string)
    requires Escape(a) + "\"" + r == Escape(b) + "\"" + t
    ensures a == b && r == t
  {
    EscapeSplit(a, r);
    EscapeSplit(b, t);
    if a == "" {
      HeadTail('\"', r, '\"', t);
    } else {
      EscapeCharUnique(a[0], b[0], Escape(a[1..]) + "\"" + r, Escape(b[1..]) + "\"" + t);
      EscapeUnique(a[1..], b[1..], r, t);
      assert a == [a[0]] + a[1..] && b == [b[0]] + b[1..];
    }
  }

  lemma QuoteSplit(a: string, r: string)
    ensures Quote(a) + r == ['\"'] + (Escape(a) + "\"" + r)
  {
    assert Quote(a) == ['\"'] + (Escape(a) + "\"");
  }

  lemma QuoteUnique(a: string, b: string, r: string, t: string)
    requires Quote(a) + r == Quote(b) + t
    ensures a == b && r == t
  {
    QuoteSplit(a, r);
    QuoteSplit(b, t);
    HeadTail('\"', Escape(a) + "\"" + r, '\"', Escape(b) + "\"" + t);
    EscapeUnique(a, b, r, t);
  }

  // ---------------------------------------------------------------------------------------------
  // Numbers
  // ---------------------------------------------------------------------------------------------

  lemma LastDigit(n: nat)
    ensures var x := Digits(n);
      |x| > 0 && x[|x| - 1] == "0123456789"[n % 10] && (n >= 10 ==> x[..|x| - 1] == Digits(n / 10))
  {
  }

  lemma {:induction false} DigitsUnique(n: nat, m: nat)
    requires Digits(n) == Digits(m)
    ensures n == m
  {
    LastDigit(n);
    LastDigit(m);
    if n >= 10 && m >= 10 {
      DigitsUnique(n / 10, m / 10);
    }
  }

  lemma IntTextShape(n: int)
    ensures var t := IntText(n); t != "" && (t[0] == '-' || '0' <= t[0] <= '9')
    ensures forall i :: 0 <= i < |IntText(n)| ==> IntText(n)[i] == '-' || '0' <= IntText(n)[i] <= '9'
    ensures IntText(n)[0] == '-' <==> n < 0
  {
    DigitsPlain(if n < 0 then -n else n);
  }

  lemma IntTextUnique(n: int, m: int)
    requires IntText(n) == IntText(m)
    ensures n == m
  {
    IntTextShape(n);
    IntTextShape(m);
    if n < 0 {
      HeadTail('-', Digits(-n), '-', Digits(-m));
      DigitsUnique(-n, -m);
    } else {
      DigitsUnique(n, m);
    }
  }

  /** Text that cannot continue a number: the end, or a delimiter. */
  predicate Stops(r: string) {
    r == "" || r[0] in ",]}"
  }

  lemma NumberTextMunch(a: string, b: string, r: string, t: string)
    requires forall i :: 0 <= i < |a| ==> NumberChar(a[i])
    requires forall i :: 0 <= i < |b| ==> NumberChar(b[i])
    requires Stops(r) && Stops(t)
    requires a + r == b + t
    ensures a == b && r == t
  {
    var x := a + r;
    assert |a| == |b| by {
      assert forall i :: 0 <= i < |a| ==> x[i] == a[i];
      assert forall i :: 0 <= i < |b| ==> x[i] == b[i];
      assert |a| < |x| ==> x[|a|] == r[0];
      assert |b| < |x| ==> x[|b|] == t[0];
    }
    Cancel(a, r, b, t);
  }

  // ---------------------------------------------------------------------------------------------
  // Values
  // ---------------------------------------------------------------------------------------------

  datatype Kind = Word | Number | Text | List | Table

  function KindOf(j: Json): Kind {
    match j
    case Null => Word
    case Bool(_) => Word
    case Int(_) => Number
    case Float(_) => Number
    case Str(_) => Text
    case Arr(_) => List
    case Obj(_) => Table
  }

  function KindOfChar(c: char): Kind {
    if c == '\"' then Text
    else if c == '[' then List
    else if c == '{' then Table
    else if c in "ntf" then Word
    else Number
  }

  /** The first character of a value's text shows what kind of value it is. */
  lemma FirstChar(j: Json)
    requires WellFormed(j)
    ensures Render(j) != "" && KindOfChar(Render(j)[0]) == KindOf(j)
    ensures Render(j)[0] !in ",]}"
  {
    match j
    case Int(n) => IntTextShape(n);
    case Float(t) => FloatFirstChar(t);
    case Str(s) => assert Quote(s)[0] == '\"';
    case Arr(items) => ArrFirstChar(items);
    case Obj(ms) => ObjFirstChar(ms);
    case _ =>
  }

  lemma FloatFirstChar(t: string)
    requires FloatText(t)
    ensures t != "" && KindOfChar(t[0]) == Number && t[0] !in ",]}"
  {
  }

  lemma ArrFirstChar(items: seq<Json>)
    ensures Render(Arr(items)) != "" && Render(Arr(items))[0] == '['
  {
  }

  lemma ObjFirstChar(ms: seq<Member>)
    ensures Render(Obj(ms)) != "" && Render(Obj(ms))[0] == '{'
  {
  }

  lemma NumberText(j: Json)
    requires WellFormed(j) && KindOf(j) == Number
    ensures forall i :: 0 <= i < |Render(j)| ==> NumberChar(Render(j)[i])
    ensures j.Float? <==> exists i :: 0 <= i < |Render(j)| && Render(j)[i] in ".eENI"
  {
    match j
    case Int(n) => IntTextShape(n);
    case Float(t) =>
      assert FloatText(t);
      assert Render(j) == t;
  }

  lemma NumberUnique(a: Json, b: Json, r: string, t: string)
    requires WellFormed(a) && WellFormed(b) && KindOf(a) == KindOf(b) == Number
    requires Stops(r) && Stops(t) && Render(a) + r == Render(b) + t
    ensures a == b && r == t
  {
    NumberText(a);
    NumberText(b);
    NumberTextMunch(Render(a), Render(b), r, t);
    if a.Int? {
      IntTextUnique(a.n, b.n);
    }
  }

  lemma WordUnique(a: Json, b: Json, r: string, t: string)
    requires KindOf(a) == KindOf(b) == Word
    requires Render(a) + r == Render(b) + t
    ensures a == b && r == t
  {
    var x := Render(a) + r;
    assert x[0] == Render(a)[0] == Render(b)[0];
    assert a == b;
    assert r == x[|Render(a)|..] && t == x[|Render(b)|..];
  }

  lemma SameKind(a: Json, b: Json, r: string, t: string)
    requires WellFormed(a) && WellFormed(b)
    requires Render(a) + r == Render(b) + t
    ensures KindOf(a) == KindOf(b)
  {
    FirstChar(a);
    FirstChar(b);
    assert (Render(a) + r)[0] == Render(a)[0];
    assert (Render(b) + t)[0] == Render(b)[0];
  }

  /** Unique readability: a value's text, followed by anything that stops it, can be read one way. */
  lemma {:induction false} RenderUnique(a: Json, b: Json, r: string, t: string)
    requires WellFormed(a) && WellFormed(b)
    requires Stops(r) && Stops(t)
    requires Render(a) + r == Render(b) + t
    ensures a == b && r == t
    decreases a, 1
  {
    SameKind(a, b, r, t);
    match KindOf(a)
    case Word => WordUnique(a, b, r, t);
    case Number => NumberUnique(a, b, r, t);
    case Text => QuoteUnique(a.s, b.s, r, t);
    case List => ArrUnique(a.items, b.items, r, t);
    case Table => ObjUnique(a.members, b.members, r, t);
  }

  lemma ArrSplit(a: seq<Json>, r: string)
    ensures Render(Arr(a)) + r == ['['] + (if a == [] then "]" + r else Render(a[0]) + (RenderItems(a[1..]) + r))
  {
  }

  lemma {:induction false} ArrUnique(a: seq<Json>, b: seq<Json>, r: string, t: string)
    requires forall i :: 0 <= i < |a| ==> WellFormed(a[i])
    requires forall i :: 0 <= i < |b| ==> WellFormed(b[i])
    requires Stops(r) && Stops(t)
    requires Render(Arr(a)) + r == Render(Arr(b)) + t
    ensures a == b && r == t
    decreases a, 2
  {
    ArrSplit(a, r);
    ArrSplit(b, t);
    var ra := if a == [] then "]" + r else Render(a[0]) + (RenderItems(a[1..]) + r);
    var rb := if b == [] then "]" + t else Render(b[0]) + (RenderItems(b[1..]) + t);
    HeadTail('[', ra, '[', rb);
    assert ra[0] == ']' <==> a == [] by {
      if a != [] {
        FirstChar(a[0]);
      }
    }
    assert rb[0] == ']' <==> b == [] by {
      if b != [] {
        FirstChar(b[0]);
      }
    }
    if a == [] {
      HeadTail(']', r, ']', t);
    } else {
      ItemsHead(a, b, r, t);
    }
  }

  lemma {:induction false} ItemsHead(a: seq<Json>, b: seq<Json>, r: string, t: string)
    requires a != [] && b != []
    requires forall i :: 0 <= i < |a| ==> WellFormed(a[i])
    requires forall i :: 0 <= i < |b| ==> WellFormed(b[i])
    requires Stops(r) && Stops(t)
    requires Render(a[0]) + (RenderItems(a[1..]) + r) == Render(b[0]) + (RenderItems(b[1..]) + t)
    ensures a == b && r == t
    decreases a, 1
  {
    ItemsSplit(a[1..], r);
    ItemsSplit(b[1..], t);
    RenderUnique(a[0], b[0], RenderItems(a[1..]) + r, RenderItems(b[1..]) + t);
    ItemsUnique(a[1..], b[1..], r, t);
    assert a == [a[0]] + a[1..] && b == [b[0]] + b[1..];
  }

  lemma ItemsSplit(a: seq<Json>, r: string)
    ensures a == [] ==> RenderItems(a) + r == [']'] + r
    ensures a != [] ==> RenderItems(a) + r == [','] + (Render(a[0]) + (RenderItems(a[1..]) + r))
    ensures Stops(RenderItems(a) + r)
    ensures (RenderItems(a) + r)[0] == ']' <==> a == []
  {
  }

  lemma {:induction false} ItemsUnique(a: seq<Json>, b: seq<Json>, r: string, t: string)
    requires forall i :: 0 <= i < |a| ==> WellFormed(a[i])
    requires forall i :: 0 <= i < |b| ==> WellFormed(b[i])
    requires Stops(r) && Stops(t)
    requires RenderItems(a) + r == RenderItems(b) + t
    ensures a == b && r == t
    decreases a, 2
  {
    ItemsSplit(a, r);
    ItemsSplit(b, t);
    if a == [] {
      HeadTail(']', r, ']', t);
    } else {
      HeadTail(',', Render(a[0]) + (RenderItems(a[1..]) + r), ',', Render(b[0]) + (RenderItems(b[1..]) + t));
      ItemsHead(a, b, r, t);
    }
  }

  /** The first member, the rest of the object and what follows it. */
  function MemberText(a: seq<Member>, r: string): string
    requires a != []
  {
    Quote(a[0].key) + ([':'] + (Render(a[0].value) + (RenderMembers(a[1..]) + r)))
  }

  lemma RegroupSix(o: string, k: string, c: string, v: string, m: string, r: string)
    ensures o + k + c + v + m + r == o + (k + (c + (v + (m + r))))
  {
  }

  lemma ObjSplit(a: seq<Member>, r: string)
    ensures Render(Obj(a)) + r == ['{'] + (if a == [] then ['}'] + r else MemberText(a, r))
    ensures a != [] ==> MemberText(a, r)[0] == '\"'
  {
    if a == [] {
      assert Render(Obj(a)) == ['{'] + ['}'];
    } else {
      var k, v, m := Quote(a[0].key), Render(a[0].value), RenderMembers(a[1..]);
      assert Render(Obj(a)) == ['{'] + k + [':'] + v + m;
      RegroupSix(['{'], k, [':'], v, m, r);
    }
  }

  lemma {:induction false} ObjUnique(a: seq<Member>, b: seq<Member>, r: string, t: string)
    requires forall i :: 0 <= i < |a| ==> WellFormed(a[i].value)
    requires forall i :: 0 <= i < |b| ==> WellFormed(b[i].value)
    requires Stops(r) && Stops(t)
    requires Render(Obj(a)) + r == Render(Obj(b)) + t
    ensures a == b && r == t
    decreases a, 2
  {
    ObjSplit(a, r);
    ObjSplit(b, t);
    var ra := if a == [] then ['}'] + r else MemberText(a, r);
    var rb := if b == [] then ['}'] + t else MemberText(b, t);
    HeadTail('{', ra, '{', rb);
    assert ra[0] == '}' <==> a == [];
    assert rb[0] == '}' <==> b == [];
    if a == [] {
      HeadTail('}', r, '}', t);
    } else {
      MembersHead(a, b, r, t);
    }
  }

  lemma {:induction false} MembersHead(a: seq<Member>, b: seq<Member>, r: string, t: string)
    requires a != [] && b != []
    requires forall i :: 0 <= i < |a| ==> WellFormed(a[i].value)
    requires forall i :: 0 <= i < |b| ==> WellFormed(b[i].value)
    requires Stops(r) && Stops(t)
    requires MemberText(a, r) == MemberText(b, t)
    ensures a == b && r == t
    decreases a, 1
  {
    var av := Render(a[0].value) + (RenderMembers(a[1..]) + r);
    var bv := Render(b[0].value) + (RenderMembers(b[1..]) + t);
    QuoteUnique(a[0].key, b[0].key, [':'] + av, [':'] + bv);
    HeadTail(':', av, ':', bv);
    MembersSplit(a[1..], r);
    MembersSplit(b[1..], t);
    RenderUnique(a[0].value, b[0].value, RenderMembers(a[1..]) + r, RenderMembers(b[1..]) + t);
    MembersUnique(a[1..], b[1..], r, t);
    assert a == [a[0]] + a[1..] && b == [b[0]] + b[1..];
  }

  lemma MembersSplit(a: seq<Member>, r: string)
    ensures a == [] ==> RenderMembers(a) + r == ['}'] + r
    ensures a != [] ==> RenderMembers(a) + r == [','] + MemberText(a, r)
    ensures Stops(RenderMembers(a) + r)
    ensures (RenderMembers(a) + r)[0] == '}' <==> a == []
  {
    if a != [] {
      var k, v, m := Quote(a[0].key), Render(a[0].value), RenderMembers(a[1..]);
      assert RenderMembers(a) == [','] + k + [':'] + v + m;
      RegroupSix([','], k, [':'], v, m, r);
    }
  }

  lemma {:induction false} MembersUnique(a: seq<Member>, b: seq<Member>, r: string, t: string)
    requires forall i :: 0 <= i < |a| ==> WellFormed(a[i].value)
    requires forall i :: 0 <= i < |b| ==> WellFormed(b[i].value)
    requires Stops(r) && Stops(t)
    requires RenderMembers(a) + r == RenderMembers(b) + t
    ensures a == b && r == t
    decreases a, 2
  {
    MembersSplit(a, r);
    MembersSplit(b, t);
    if a == [] {
      HeadTail('}', r, '}', t);
    } else {
      HeadTail(',', MemberText(a, r), ',', MemberText(b, t));
      MembersHead(a, b, r, t);
    }
  }
}
