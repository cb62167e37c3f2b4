/**
 An independent reader for JSON strings, section 7 of RFC 8259, and the round trip through it: the
 printer's escapes mean the characters they stand for.
 */
module JsonReading {
  import opened Prelude
  import opened CanonicalJson
  import opened JsonUniqueness

  function HexValue(c: char): Option<nat> {
    if '0' <= c <= '9' then Some(c as int - '0' as int)
    else if 'a' <= c <= 'f' then Some(c as int - 'a' as int + 10)
    else if 'A' <= c <= 'F' then Some(c as int - 'A' as int + 10)
    else None
  }

  /** The four hexadecimal digits of a `\uXXXX` unit. */
  function ReadUnit(s: string): (r: Option<nat>)
    ensures r.Some? ==> r.value < 0x10000 && |s| >= 4
  {
    if |s| < 4 then None
    else
      var a, b, c, d := HexValue(s[0]), HexValue(s[1]), HexValue(s[2]), HexValue(s[3]);
      if a == None || b == None || c == None || d == None then None
      else Some(4096 * a.value + 256 * b.value + 16 * c.value + d.value)
  }

  /** The code point after `\u`: one unit, or a high and a low surrogate. */
  function ReadCodePoint(s: string): Option<(char, string)> {
    match ReadUnit(s)
    case None => None
    case Some(n) =>
      if 0xdc00 <= n < 0xe000 then None
      else if n < 0xd800 || 0xe000 <= n then Some((n as char, s[4..]))
      else if |s| < 6 || s[4] != '\\' || s[5] != 'u' then None
      else
        (match ReadUnit(s[6..])
         case None => None
         case Some(m) =>
           if !(0xdc00 <= m < 0xe000) then None
           else Some(((0x10000 + (n - 0xd800) * 0x400 + (m - 0xdc00)) as char, s[10..])))
  }

  function ShortMeaning(c: char): Option<char> {
    match c
    case '\"' => Some('\"')
    case '\\' => Some('\\')
    case '/' => Some('/')
    case 'b' => Some('\U{0008}')
    case 'f' => Some('\U{000C}')
    case 'n' => Some('\n')
    case 'r' => Some('\r')
    case 't' => Some('\t')
    case _ => None
  }

  /** One character of a string's inside; control characters may not stand unescaped. */
  function ReadChar(s: string): (r: Option<(char, string)>)
    ensures r.Some? ==> |r.value.1| < |s|
  {
    if s == "" || s[0] == '\"' || s[0] < ' ' then None
    else if s[0] != '\\' then Some((s[0], s[1..]))
    else if |s| < 2 then None
    else if s[1] == 'u' then ReadCodePoint(s[2..])
    else if ShortMeaning(s[1]).Some? then Some((ShortMeaning(s[1]).value, s[2..]))
    else None
  }

  /** The inside of a string up to its closing quote, and what follows. */
  function ReadInside(s: string): (r: Option<(string, string)>)
    ensures r.Some? ==> |r.value.1| < |s|
    decreases |s|
  {
    if s != "" && s[0] == '\"' then Some(("", s[1..]))
    else
      match ReadChar(s)
      case None => None
      case Some((c, rest)) =>
        (match ReadInside(rest)
         case None => None
         case Some((text, after)) => Some(([c] + text, after)))
  }

  function ReadString(s: string): (r: Option<(string, string)>)
    ensures r.Some? ==> |r.value.1| < |s|
  {
    if s != "" && s[0] == '\"' then ReadInside(s[1..]) else None
  }

  // ---------------------------------------------------------------------------------------------
  // Round trip
  // ---------------------------------------------------------------------------------------------

  lemma HexDigitReads(d: nat)
    requires d < 16
    ensures HexValue(HexDigit(d)) == Some(d)
  {
  }

  lemma UnitReads(n: nat, r: string)
    requires n < 0x10000
    ensures ReadUnit(Hex4(n) + r) == Some(n) && (Hex4(n) + r)[4..] == r
  {
    var s := Hex4(n) + r;
    Hex4Digits(n);
    assert s[0] == Hex4(n)[0] && s[1] == Hex4(n)[1] && s[2] == Hex4(n)[2] && s[3] == Hex4(n)[3];
    HexDigitReads(n / 4096);
    HexDigitReads(n / 256 % 16);
    HexDigitReads(n / 16 % 16);
    HexDigitReads(n % 16);
    Hex4Value(n);
  }

  lemma BasicReads(c: char, r: string)
    requires c as int < 0x10000
    ensures ReadCodePoint(Hex4(c as int) + r) == Some((c, r))
  {
    UnitReads(c as int, r);
  }

  lemma TwoUnits(h: string, l: string, r: string)
    requires |h| == |l| == 4
    ensures var s := h + ("\\u" + (l + r));
      |s| >= 10 && s[4] == '\\' && s[5] == 'u' && s[6..] == l + r && s[10..] == r
  {
    var tail := "\\u" + (l + r);
    var s := h + tail;
    assert s[4..] == tail && tail[2..] == l + r && (l + r)[4..] == r;
    assert s[4] == tail[0] && s[5] == tail[1];
    assert s[6..] == tail[2..] && s[10..] == tail[6..] == (l + r)[4..];
  }

  lemma SurrogatesRead(s: string, n: nat, m: nat)
    requires ReadUnit(s) == Some(n) && 0xd800 <= n < 0xdc00
    requires |s| >= 10 && s[4] == '\\' && s[5] == 'u'
    requires ReadUnit(s[6..]) == Some(m) && 0xdc00 <= m < 0xe000
    ensures ReadCodePoint(s) == Some(((0x10000 + (n - 0xd800) * 0x400 + (m - 0xdc00)) as char, s[10..]))
  {
  }

  lemma PairReads(c: char, r: string)
    requires c as int >= 0x10000
    ensures var v := c as int - 0x10000;
      ReadCodePoint(Hex4(0xd800 + v / 0x400) + ("\\u" + (Hex4(0xdc00 + v % 0x400) + r))) == Some((c, r))
  {
    var v := c as int - 0x10000;
    var high, low := 0xd800 + v / 0x400, 0xdc00 + v % 0x400;
    TwoUnits(Hex4(high), Hex4(low), r);
    UnitReads(high, "\\u" + (Hex4(low) + r));
    UnitReads(low, r);
    SurrogatesRead(Hex4(high) + ("\\u" + (Hex4(low) + r)), high, low);
  }

  lemma ShortReads(c: char, r: string)
    requires ShortEscape(c)
    ensures ReadChar(EscapeChar(c) + r) == Some((c, r))
  {
    var s := EscapeChar(c) + r;
    assert s[0] == EscapeChar(c)[0] && s[1] == EscapeChar(c)[1] && s[2..] == r;
  }

  lemma BasicEscapeReads(c: char, r: string)
    requires c as int < 0x10000
    ensures ReadChar(UnicodeEscape(c) + r) == Some((c, r))
  {
    assert UnicodeEscape(c) + r == "\\u" + (Hex4(c as int) + r);
    BasicReads(c, r);
  }

  /** A character past U+FFFF is printed as two units, the text `r` following. */
  lemma PairEscapeText(c: char, r: string)
    requires c as int >= 0x10000
    ensures var v := c as int - 0x10000;
      UnicodeEscape(c) + r == "\\u" + (Hex4(0xd800 + v / 0x400) + ("\\u" + (Hex4(0xdc00 + v % 0x400) + r)))
  {
    var v := c as int - 0x10000;
  }

  lemma PairEscapeReads(c: char, r: string)
    requires c as int >= 0x10000
    ensures ReadChar(UnicodeEscape(c) + r) == Some((c, r))
  {
    var v := c as int - 0x10000;
    PairEscapeText(c, r);
    PairReads(c, r);
  }

  lemma CharReads(c: char, r: string)
    ensures ReadChar(EscapeChar(c) + r) == Some((c, r))
    ensures (EscapeChar(c) + r)[0] != '\"'
  {
    EscapeCharShape(c);
    if ShortEscape(c) {
      ShortReads(c, r);
    } else if Printable(c) {
      assert ([c] + r)[1..] == r;
    } else if c as int < 0x10000 {
      BasicEscapeReads(c, r);
    } else {
      PairEscapeReads(c, r);
    }
  }

  lemma {:induction false} InsideReads(s: string, r: string)
    ensures ReadInside(Escape(s) + "\"" + r) == Some((s, r))
  {
    if s == "" {
      assert "" + "\"" + r == "\"" + r && ("\"" + r)[1..] == r;
    } else {
      var rest := Escape(s[1..]) + "\"" + r;
      EscapeSplit(s, r);
      CharReads(s[0], rest);
      InsideReads(s[1..], r);
      assert [s[0]] + s[1..] == s;
    }
  }

  /** Every printed string, key or value, is read back as the string it was printed from. */
  lemma QuotedStringReadsBack(s: string, r: string)
    ensures ReadString(Quote(s) + r) == Some((s, r))
  {
    QuoteSplit(s, r);
    InsideReads(s, r);
  }
}
