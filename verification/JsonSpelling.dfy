/**
 Which spelling of a value the printer chooses: printable ASCII, as short as any printable text that
 reads back as the value, with upper-case letters only where the value itself has them.
 */
module JsonSpelling {
  import opened Prelude
  import opened CanonicalJson
  import opened JsonUniqueness
  import opened JsonReading
  import opened JsonValues

  ghost predicate Printable(s: string) {
    forall i :: 0 <= i < |s| ==> ' ' <= s[i] <= '~'
  }

  lemma PrintableTail(s: string, k: nat)
    requires Printable(s) && k <= |s|
    ensures Printable(s[k..])
  {
  }

  // ---------------------------------------------------------------------------------------------
  // Strings
  // ---------------------------------------------------------------------------------------------

  lemma EscapeCharLength(c: char)
    ensures |EscapeChar(c)| <= 12
    ensures c as int < 0x10000 ==> |EscapeChar(c)| <= 6
    ensures ' ' <= c <= '~' && c != '\"' && c != '\\' ==> |EscapeChar(c)| == 1
    ensures c in "\"\\\n\r\t" || c == '\U{000C}' || c == '\U{0008}' ==> |EscapeChar(c)| == 2
  {
  }

  lemma CodePointShortest(s: string)
    requires Printable(s) && ReadCodePoint(s).Some?
    ensures var (c, rest) := ReadCodePoint(s).value;
      Printable(rest) && |EscapeChar(c)| + |rest| <= 2 + |s|
  {
    var (c, rest) := ReadCodePoint(s).value;
    EscapeCharLength(c);
    PrintableTail(s, 4);
    if |s| >= 10 {
      PrintableTail(s, 10);
    }
  }

  lemma CharShortest(s: string)
    requires Printable(s) && ReadChar(s).Some?
    ensures var (c, rest) := ReadChar(s).value;
      Printable(rest) && |EscapeChar(c)| + |rest| <= |s|
  {
    var (c, rest) := ReadChar(s).value;
    EscapeCharLength(c);
    if s[0] != '\\' {
      PrintableTail(s, 1);
    } else {
      PrintableTail(s, 2);
      if s[1] == 'u' {
        CodePointShortest(s[2..]);
      }
    }
  }

  lemma {:induction false} InsideShortest(s: string)
    requires Printable(s) && ReadInside(s).Some?
    ensures var (text, rest) := ReadInside(s).value;
      Printable(rest) && |Escape(text)| + 1 + |rest| <= |s|
    decreases |s|
  {
    if s != "" && s[0] == '\"' {
      PrintableTail(s, 1);
    } else {
      CharShortest(s);
      var (c, rest) := ReadChar(s).value;
      InsideShortest(rest);
      var (text, after) := ReadInside(rest).value;
      assert ([c] + text)[1..] == text;
    }
  }

  lemma StringShortest(s: string)
    requires Printable(s) && ReadString(s).Some?
    ensures var (text, rest) := ReadString(s).value;
      Printable(rest) && |Quote(text)| + |rest| <= |s|
  {
    PrintableTail(s, 1);
    InsideShortest(s[1..]);
  }

  // ---------------------------------------------------------------------------------------------
  // Tokens
  // ---------------------------------------------------------------------------------------------

  lemma {:induction false} DigitsShortest(s: string)
    requires AllDigits(s)
    ensures |Digits(DigitsValue(s))| <= |s|
  {
    if |s| > 1 {
      var front := s[..|s| - 1];
      DigitsShortest(front);
      assert DigitsValue(s) / 10 == DigitsValue(front);
    }
  }

  lemma TokenShortest(token: string)
    requires token != ""
    ensures |Render(ReadToken(token))| <= |token|
  {
    if AllDigits(token) {
      DigitsShortest(token);
    } else if token[0] == '-' && AllDigits(token[1..]) {
      DigitsShortest(token[1..]);
    }
  }

  // ---------------------------------------------------------------------------------------------
  // Values
  // ---------------------------------------------------------------------------------------------

  lemma {:induction false} ValueShortest(s: string)
    requires Printable(s) && ReadValue(s).Some?
    ensures var (v, rest) := ReadValue(s).value;
      Printable(rest) && |Render(v)| + |rest| <= |s|
    decreases |s|, 0
  {
    if s[0] == '\"' {
      StringShortest(s);
    } else if s[0] == '[' || s[0] == '{' {
      PrintableTail(s, 1);
      if |s| > 1 && s[1] == (if s[0] == '[' then ']' else '}') {
        PrintableTail(s, 2);
      } else if s[0] == '[' {
        ItemsShortest(s[1..]);
      } else {
        MembersShortest(s[1..]);
      }
    } else {
      var n := TokenLength(s);
      TokenShortest(s[..n]);
      PrintableTail(s, n);
    }
  }

  lemma {:induction false} ItemsShortest(s: string)
    requires Printable(s) && ReadItems(s).Some?
    ensures var (items, rest) := ReadItems(s).value;
      items != [] && Printable(rest) && |Render(items[0])| + |RenderItems(items[1..])| + |rest| <= |s|
    decreases |s|, 1
  {
    ValueShortest(s);
    var (v, rest) := ReadValue(s).value;
    PrintableTail(rest, 1);
    if rest[0] == ']' {
      assert [v][1..] == [];
    } else {
      ItemsShortest(rest[1..]);
      var (vs, after) := ReadItems(rest[1..]).value;
      assert ([v] + vs)[1..] == vs;
    }
  }

  lemma MemberShortest(s: string)
    requires Printable(s) && ReadMember(s).Some?
    ensures var (m, rest) := ReadMember(s).value;
      Printable(rest) && |Quote(m.key)| + 1 + |Render(m.value)| + |rest| <= |s|
    decreases |s|, 0
  {
    StringShortest(s);
    var (key, rest) := ReadString(s).value;
    PrintableTail(rest, 1);
    ValueShortest(rest[1..]);
  }

  lemma {:induction false} MembersShortest(s: string)
    requires Printable(s) && ReadMembers(s).Some?
    ensures var (ms, rest) := ReadMembers(s).value;
      && ms != [] && Printable(rest)
      && |Quote(ms[0].key)| + 1 + |Render(ms[0].value)| + |RenderMembers(ms[1..])| + |rest| <= |s|
    decreases |s|, 1
  {
    MemberShortest(s);
    var (m, rest) := ReadMember(s).value;
    PrintableTail(rest, 1);
    if rest[0] == '}' {
      assert [m][1..] == [];
    } else {
      MembersShortest(rest[1..]);
      var (ms, after) := ReadMembers(rest[1..]).value;
      assert ([m] + ms)[1..] == ms;
    }
  }

  // ---------------------------------------------------------------------------------------------
  // The printed text
  // ---------------------------------------------------------------------------------------------

  /** Printable, and without upper-case letters. */
  ghost predicate Plain(s: string) {
    forall i :: 0 <= i < |s| ==> ' ' <= s[i] <= '~' && !('A' <= s[i] <= 'Z')
  }

  lemma PlainConcat(a: string, b: string)
    requires Plain(a) && Plain(b)
    ensures Plain(a + b)
  {
  }

  lemma PrintableConcat(a: string, b: string)
    requires Printable(a) && Printable(b)
    ensures Printable(a + b)
  {
  }

  lemma PrintableParts(o: string, k: string, c: string, v: string, m: string)
    requires Printable(o) && Printable(k) && Printable(c) && Printable(v) && Printable(m)
    ensures Printable(o + k + c + v + m)
  {
    PrintableConcat(o, k);
    PrintableConcat(o + k, c);
    PrintableConcat(o + k + c, v);
    PrintableConcat(o + k + c + v, m);
  }

  lemma {:induction false} HexPlain(n: nat, k: nat)
    ensures Plain(HexText(n, k))
    decreases k
  {
    if k > 0 {
      HexPlain(n / 16, k - 1);
    }
  }

  lemma UnitPlain(n: nat)
    requires n < 0x10000
    ensures Plain("\\u" + Hex4(n))
  {
    HexPlain(n, 4);
    PlainConcat("\\u", Hex4(n));
  }

  function Uppers(s: string): string {
    if s == "" then "" else (if 'A' <= s[0] <= 'Z' then [s[0]] else "") + Uppers(s[1..])
  }

  lemma {:induction false} UppersConcat(a: string, b: string)
    ensures Uppers(a + b) == Uppers(a) + Uppers(b)
  {
    if a == "" {
      assert a + b == b;
    } else {
      assert (a + b)[1..] == a[1..] + b;
      UppersConcat(a[1..], b);
    }
  }

  lemma {:induction false} NoUppers(s: string)
    requires forall i :: 0 <= i < |s| ==> !('A' <= s[i] <= 'Z')
    ensures Uppers(s) == ""
  {
    if s != "" {
      NoUppers(s[1..]);
    }
  }

  lemma UnicodeEscapePlain(c: char)
    ensures Plain(UnicodeEscape(c))
  {
    if c as int < 0x10000 {
      UnitPlain(c as int);
    } else {
      var v := c as int - 0x10000;
      UnitPlain(0xd800 + v / 0x400);
      UnitPlain(0xdc00 + v % 0x400);
      var high, low := Hex4(0xd800 + v / 0x400), Hex4(0xdc00 + v % 0x400);
      PlainConcat("\\u" + high, "\\u" + low);
      assert ("\\u" + high) + ("\\u" + low) == "\\u" + high + "\\u" + low;
    }
  }

  /** A character stands for itself or is escaped without upper-case letters. */
  lemma EscapeCharKinds(c: char)
    ensures (EscapeChar(c) == [c] && ' ' <= c <= '~') || (Plain(EscapeChar(c)) && !('A' <= c <= 'Z'))
  {
    if EscapeChar(c) == UnicodeEscape(c) {
      UnicodeEscapePlain(c);
    }
  }

  lemma EscapeCharPlain(c: char)
    ensures Printable(EscapeChar(c)) && Uppers(EscapeChar(c)) == Uppers([c])
  {
    EscapeCharKinds(c);
    if EscapeChar(c) != [c] {
      NoUppers(EscapeChar(c));
      NoUppers([c]);
    }
  }

  /** A printed string is printable ASCII, and the upper-case letters in it are the string's own. */
  lemma {:induction false} EscapePlain(s: string)
    ensures Printable(Escape(s)) && Uppers(Escape(s)) == Uppers(s)
  {
    if s != "" {
      EscapeCharPlain(s[0]);
      EscapePlain(s[1..]);
      UppersConcat(EscapeChar(s[0]), Escape(s[1..]));
      UppersConcat([s[0]], s[1..]);
      assert s == [s[0]] + s[1..];
    }
  }

  lemma QuotePrintable(s: string)
    ensures Printable(Quote(s))
  {
    EscapePlain(s);
  }

  lemma BarePrintable(j: Json)
    requires WellFormed(j) && Bare(j)
    ensures Printable(Render(j))
  {
    match j
    case Null =>
    case Bool(_) =>
    case Int(n) => IntTextShape(n);
    case Float(t) => assert forall c: char :: NumberChar(c) ==> ' ' <= c <= '~';
  }

  lemma {:induction false} RenderPrintable(j: Json)
    requires WellFormed(j)
    ensures Printable(Render(j))
    decreases j, 1
  {
    match j
    case Str(s) => QuotePrintable(s);
    case Arr(items) =>
      if items != [] {
        RenderPrintable(items[0]);
        ItemsPrintable(items[1..]);
        PrintableConcat("[", Render(items[0]));
        PrintableConcat("[" + Render(items[0]), RenderItems(items[1..]));
      }
    case Obj(ms) =>
      if ms != [] {
        MemberPrintable(ms, "{");
      }
    case _ => BarePrintable(j);
  }

  /** A first or further member, and the rest of its object. */
  lemma {:induction false} MemberPrintable(ms: seq<Member>, opening: string)
    requires ms != [] && Printable(opening) && forall i :: 0 <= i < |ms| ==> WellFormed(ms[i].value)
    ensures Printable(opening + Quote(ms[0].key) + ":" + Render(ms[0].value) + RenderMembers(ms[1..]))
    decreases ms, 0
  {
    QuotePrintable(ms[0].key);
    RenderPrintable(ms[0].value);
    MembersPrintable(ms[1..]);
    PrintableParts(opening, Quote(ms[0].key), ":", Render(ms[0].value), RenderMembers(ms[1..]));
  }

  lemma {:induction false} ItemsPrintable(items: seq<Json>)
    requires forall i :: 0 <= i < |items| ==> WellFormed(items[i])
    ensures Printable(RenderItems(items))
    decreases items, 0
  {
    if items != [] {
      RenderPrintable(items[0]);
      ItemsPrintable(items[1..]);
      PrintableConcat("," + Render(items[0]), RenderItems(items[1..]));
    }
  }

  lemma {:induction false} MembersPrintable(ms: seq<Member>)
    requires forall i :: 0 <= i < |ms| ==> WellFormed(ms[i].value)
    ensures Printable(RenderMembers(ms))
    decreases ms, 1
  {
    if ms != [] {
      MemberPrintable(ms, ",");
    }
  }

  /**
   The printer's spelling: printable ASCII, and no printable text that reads back as the value is shorter,
   so no character is escaped that need not be, no escape is longer than it has to be, and no number has
   a superfluous digit or sign.
   */
  lemma ShortestSpelling(j: Json, text: string)
    requires WellFormed(j) && Printable(text) && ReadValue(text) == Some((j, ""))
    ensures Printable(Render(j)) && ReadValue(Render(j)) == Some((j, ""))
    ensures |Render(j)| <= |text|
  {
    RenderPrintable(j);
    ValueReadsBack(j, "");
    assert Render(j) + "" == Render(j);
    ValueShortest(text);
  }
}
