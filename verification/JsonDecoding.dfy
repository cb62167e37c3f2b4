/**
 What a printed payload determines: the text of a payload can be told from anything glued in
 front of it with a '|', and the text fixes the payload up to the order of its members.
 */
module JsonDecoding {
  import opened CanonicalJson

  // ---------------------------------------------------------------------------------------------
  // Quote parity: where a scanner stands inside or outside a string
  // ---------------------------------------------------------------------------------------------

  datatype Scanner = Outside | Inside | Escaped | Broken

  /** A backslash or a '|' can occur in JSON text only inside a string. */
  function Next(q: Scanner, c: char): Scanner {
    match q
    case Outside => if c == '\"' then Inside else if c == '\\' || c == '|' then Broken else Outside
    case Inside => if c == '\"' then Outside else if c == '\\' then Escaped else Inside
    case Escaped => Inside
    case Broken => Broken
  }

  function Scan(q: Scanner, s: string): Scanner
    decreases s
  {
    if s == "" then q else Scan(Next(q, s[0]), s[1..])
  }

  /** Text that a scanner leaves outside every string, as it entered. */
  predicate Balanced(s: string) {
    Scan(Outside, s) == Outside
  }

  lemma {:induction false} ScanConcat(q: Scanner, a: string, b: string)
    ensures Scan(q, a + b) == Scan(Scan(q, a), b)
    decreases a
  {
    if a == "" {
      assert a + b == b;
    } else {
      assert (a + b)[1..] == a[1..] + b;
      ScanConcat(Next(q, a[0]), a[1..], b);
    }
  }

  lemma {:induction false} ScanBroken(s: string)
    ensures Scan(Broken, s) == Broken
  {
    if s != "" {
      ScanBroken(s[1..]);
    }
  }

  /**
   Two scanners that start on opposite sides of a quote never end outside together: a backslash
   would break the one that is outside, and every quote swaps them.
   */
  lemma {:induction false} OppositeSides(s: string)
    ensures !(Scan(Outside, s) == Outside && Scan(Inside, s) == Outside)
  {
    if s != "" {
      if s[0] == '\"' {
        OppositeSides(s[1..]);
      } else if s[0] == '\\' || s[0] == '|' {
        ScanBroken(s[1..]);
      } else {
        OppositeSides(s[1..]);
      }
    }
  }

  /** No balanced text ends with a '|' followed by another balanced text. */
  lemma NoBalancedSuffixAfterBar(x: string, p: string)
    requires Balanced(p)
    ensures !Balanced(x + "|" + p)
  {
    var q := Scan(Outside, x);
    ScanConcat(Outside, x + "|", p);
    ScanConcat(Outside, x, "|");
    OppositeSides(p);
    ScanBroken(p);
  }

  lemma {:induction false} ScanPlain(s: string)
    requires forall i :: 0 <= i < |s| ==> s[i] !in "\"\\|"
    ensures Scan(Outside, s) == Outside
  {
    if s != "" {
      ScanPlain(s[1..]);
    }
  }

  lemma ScanEscapePair(x: char)
    ensures Scan(Inside, ['\\', x]) == Inside
  {
    assert ['\\', x][1..] == [x] && [x][1..] == [];
    assert Scan(Escaped, [x]) == Scan(Inside, []);
  }

  lemma ScanShortEscape(c: char)
    requires c in "\"\\\n\r\t\U{000C}\U{0008}"
    ensures Scan(Inside, EscapeChar(c)) == Inside
  {
    var e := EscapeChar(c);
    ScanEscapePair(e[1]);
    assert e == ['\\', e[1]];
  }

  lemma ScanEscapeChar(c: char)
    ensures Scan(Inside, EscapeChar(c)) == Inside
  {
    if c in "\"\\\n\r\t\U{000C}\U{0008}" {
      ScanShortEscape(c);
    } else if ' ' <= c <= '~' {
      ScanInside([c]);
    } else {
      ScanLongEscape(c);
    }
  }

  lemma ScanLongEscape(c: char)
    ensures Scan(Inside, UnicodeEscape(c)) == Inside
  {
    if c as int < 0x10000 {
      ScanUnicode(c as int);
    } else {
      ScanSurrogates(c as int - 0x10000);
    }
  }

  lemma ScanSurrogates(v: nat)
    requires v < 0x10_0000
    ensures Scan(Inside, "\\u" + Hex4(0xd800 + v / 0x400) + "\\u" + Hex4(0xdc00 + v % 0x400)) == Inside
  {
    var h, l := Hex4(0xd800 + v / 0x400), Hex4(0xdc00 + v % 0x400);
    ScanUnicode(0xd800 + v / 0x400);
    ScanUnicode(0xdc00 + v % 0x400);
    ScanConcat(Inside, "\\u" + h, "\\u" + l);
    assert "\\u" + h + "\\u" + l == ("\\u" + h) + ("\\u" + l);
  }

  lemma ScanUnicode(n: nat)
    requires n < 0x10000
    ensures Scan(Inside, "\\u" + Hex4(n)) == Inside
  {
    var h := Hex4(n);
    Hex4Digits(n);
    ScanConcat(Inside, "\\u", h);
    assert Scan(Inside, "\\u") == Inside by {
      assert "\\u"[1..] == "u" && "u"[1..] == "";
    }
    ScanInside(h);
  }

  lemma {:induction false} ScanInside(s: string)
    requires forall i :: 0 <= i < |s| ==> s[i] != '\"' && s[i] != '\\'
    ensures Scan(Inside, s) == Inside
  {
    if s != "" {
      ScanInside(s[1..]);
    }
  }

  lemma {:induction false} ScanEscape(s: string)
    ensures Scan(Inside, Escape(s)) == Inside
  {
    if s != "" {
      ScanEscapeChar(s[0]);
      ScanEscape(s[1..]);
      ScanConcat(Inside, EscapeChar(s[0]), Escape(s[1..]));
    }
  }

  lemma ScanQuote(s: string)
    ensures Balanced(Quote(s))
  {
    ScanEscape(s);
    ScanConcat(Outside, "\"", Escape(s));
    ScanConcat(Outside, "\"" + Escape(s), "\"");
    assert Scan(Outside, "\"") == Inside by {
      assert "\""[1..] == "";
    }
    assert Scan(Inside, "\"") == Outside by {
      assert "\""[1..] == "";
    }
  }

  lemma BalancedConcat(a: string, b: string)
    requires Balanced(a) && Balanced(b)
    ensures Balanced(a + b)
  {
    ScanConcat(Outside, a, b);
  }

  lemma {:induction false} DigitsPlain(n: nat)
    ensures |Digits(n)| > 0
    ensures forall i :: 0 <= i < |Digits(n)| ==> '0' <= Digits(n)[i] <= '9'
  {
    if n >= 10 {
      DigitsPlain(n / 10);
    }
  }

  lemma WordBalanced(w: string)
    requires w == "null" || w == "true" || w == "false"
    ensures Balanced(w)
  {
    ScanPlain(w);
  }

  lemma FloatBalanced(t: string)
    requires FloatText(t)
    ensures Balanced(t)
  {
    ScanPlain(t);
  }

  lemma IntBalanced(n: int)
    ensures Balanced(IntText(n))
  {
    DigitsPlain(if n < 0 then -n else n);
    ScanPlain(IntText(n));
  }

  lemma {:induction false} RenderBalanced(j: Json)
    requires WellFormed(j)
    ensures Balanced(Render(j))
    decreases j, 1
  {
    match j
    case Null => WordBalanced("null");
    case Bool(b) => WordBalanced(if b then "true" else "false");
    case Int(n) => IntBalanced(n);
    case Float(t) => FloatBalanced(t);
    case Str(s) => ScanQuote(s);
    case Arr(items) => ArrBalanced(items);
    case Obj(ms) => ObjBalanced(ms);
  }

  lemma {:induction false} ArrBalanced(items: seq<Json>)
    requires forall i :: 0 <= i < |items| ==> WellFormed(items[i])
    ensures Balanced(Render(Arr(items)))
    decreases items, 2
  {
    if items == [] {
      ScanPlain("[]");
    } else {
      RenderBalanced(items[0]);
      RenderItemsBalanced(items[1..]);
      ScanPlain("[");
      BalancedConcat("[", Render(items[0]));
      BalancedConcat("[" + Render(items[0]), RenderItems(items[1..]));
    }
  }

  lemma {:induction false} ObjBalanced(ms: seq<Member>)
    requires forall i :: 0 <= i < |ms| ==> WellFormed(ms[i].value)
    ensures Balanced(Render(Obj(ms)))
    decreases ms, 2
  {
    if ms == [] {
      ScanPlain("{}");
    } else {
      MemberBalanced("{", ms[0]);
      RenderMembersBalanced(ms[1..]);
      BalancedConcat("{" + Quote(ms[0].key) + ":" + Render(ms[0].value), RenderMembers(ms[1..]));
    }
  }

  lemma {:induction false} RenderItemsBalanced(items: seq<Json>)
    requires forall i :: 0 <= i < |items| ==> WellFormed(items[i])
    ensures Balanced(RenderItems(items))
    decreases items, 0
  {
    ScanPlain("]");
    if items != [] {
      ScanPlain(",");
      RenderBalanced(items[0]);
      RenderItemsBalanced(items[1..]);
      BalancedConcat(",", Render(items[0]));
      BalancedConcat("," + Render(items[0]), RenderItems(items[1..]));
    }
  }

  lemma {:induction false} MemberBalanced(open: string, m: Member)
    requires open == "{" || open == ","
    requires WellFormed(m.value)
    ensures Balanced(open + Quote(m.key) + ":" + Render(m.value))
    decreases m, 2
  {
    ScanPlain(open);
    ScanPlain(":");
    ScanQuote(m.key);
    RenderBalanced(m.value);
    BalancedConcat(open, Quote(m.key));
    BalancedConcat(open + Quote(m.key), ":");
    BalancedConcat(open + Quote(m.key) + ":", Render(m.value));
  }

  lemma {:induction false} RenderMembersBalanced(ms: seq<Member>)
    requires forall i :: 0 <= i < |ms| ==> WellFormed(ms[i].value)
    ensures Balanced(RenderMembers(ms))
    decreases ms, 0
  {
    ScanPlain("}");
    if ms != [] {
      MemberBalanced(",", ms[0]);
      RenderMembersBalanced(ms[1..]);
      BalancedConcat("," + Quote(ms[0].key) + ":" + Render(ms[0].value), RenderMembers(ms[1..]));
    }
  }
}
