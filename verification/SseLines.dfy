/**
 What the event-stream reader makes of any list of lines, whatever their order and however they are
 padded: which lines count, which name a data line is dispatched under, and which are dropped.
 */
module SseLines {
  import opened Prelude
  import opened SseStream
  import opened SseStandard

  // ---------------------------------------------------------------------------------------------
  // White space
  // ---------------------------------------------------------------------------------------------

  ghost predicate White(s: string) {
    forall i :: 0 <= i < |s| ==> IsSpace(s[i])
  }

  lemma {:induction false} TrimStartPast(front: string, x: string)
    requires White(front)
    ensures TrimStart(front + x) == TrimStart(x)
  {
    if front == "" {
      assert front + x == x;
    } else {
      assert (front + x)[0] == front[0] && (front + x)[1..] == front[1..] + x;
      TrimStartPast(front[1..], x);
    }
  }

  lemma {:induction false} TrimEndPast(x: string, back: string)
    requires White(back)
    ensures TrimEnd(x + back) == TrimEnd(x)
  {
    if back == "" {
      assert x + back == x;
    } else {
      var n := |back| - 1;
      assert (x + back)[|x| + n] == back[n] && (x + back)[..|x| + n] == x + back[..n];
      TrimEndPast(x, back[..n]);
    }
  }

  lemma {:induction false} TrimStartAcross(x: string, back: string)
    requires White(back)
    ensures TrimEnd(TrimStart(x + back)) == TrimEnd(TrimStart(x))
  {
    if x == "" {
      TrimStartPast(back, "");
      assert back + "" == back == x + back;
    } else if IsSpace(x[0]) {
      assert (x + back)[0] == x[0] && (x + back)[1..] == x[1..] + back;
      TrimStartAcross(x[1..], back);
    } else {
      assert (x + back)[0] == x[0];
      TrimEndPast(x, back);
    }
  }

  /** Trimming sees through any padding. */
  lemma TrimPadded(front: string, line: string, back: string)
    requires White(front) && White(back)
    ensures Trim(front + line + back) == Trim(line)
  {
    assert front + line + back == front + (line + back);
    TrimStartPast(front, line + back);
    TrimStartAcross(line, back);
  }

  lemma {:induction false} TrimStartSplits(s: string) returns (front: string)
    ensures White(front) && s == front + TrimStart(s)
    ensures TrimStart(s) != "" ==> !IsSpace(TrimStart(s)[0])
  {
    if s != "" && IsSpace(s[0]) {
      front := TrimStartSplits(s[1..]);
      front := [s[0]] + front;
      assert s == [s[0]] + s[1..];
    } else {
      front := "";
    }
  }

  lemma {:induction false} TrimEndSplits(s: string) returns (back: string)
    ensures White(back) && s == TrimEnd(s) + back
    ensures TrimEnd(s) != "" ==> !IsSpace(TrimEnd(s)[|TrimEnd(s)| - 1])
  {
    if s != "" && IsSpace(s[|s| - 1]) {
      var n := |s| - 1;
      back := TrimEndSplits(s[..n]);
      back := back + [s[n]];
      assert s == s[..n] + [s[n]];
    } else {
      back := "";
    }
  }

  /** A line is its trimmed text with white space around it, and that text ends in none. */
  lemma TrimSplits(line: string) returns (front: string, back: string)
    ensures White(front) && White(back) && line == front + Trim(line) + back
    ensures Trim(line) != "" ==> !IsSpace(Trim(line)[|Trim(line)| - 1])
  {
    front := TrimStartSplits(line);
    back := TrimEndSplits(TrimStart(line));
  }

  // ---------------------------------------------------------------------------------------------
  // Kinds of lines
  // ---------------------------------------------------------------------------------------------

  datatype Line = IdLine(value: string) | EventLine(value: string) | DataLine(value: string) | OtherLine

  function KindOf(line: string): Line {
    var t := Trim(line);
    if "id: " <= t then IdLine(t[4..])
    else if "event: " <= t then EventLine(t[7..])
    else if "data: " <= t then DataLine(t[6..])
    else OtherLine
  }

  function Label(k: Line): string
    requires !k.OtherLine?
  {
    match k
    case IdLine(_) => "id: "
    case EventLine(_) => "event: "
    case DataLine(_) => "data: "
  }

  /** A value that trimming leaves whole at its end. */
  predicate Value(v: string) {
    v != "" && !IsSpace(v[|v| - 1])
  }

  /** A line of any of the three kinds is recognised however it is padded. */
  lemma PaddedFieldLine(k: Line, front: string, back: string)
    requires !k.OtherLine? && Value(k.value) && White(front) && White(back)
    ensures KindOf(front + (Label(k) + k.value) + back) == k
  {
    var t := Label(k) + k.value;
    TrimPadded(front, t, back);
    TrimKeeps(t);
  }

  /** And nothing else is: a line of a kind is its label and value with white space around them. */
  lemma FieldLineOnly(line: string) returns (front: string, back: string)
    requires !KindOf(line).OtherLine?
    ensures White(front) && White(back) && Value(KindOf(line).value)
    ensures line == front + (Label(KindOf(line)) + KindOf(line).value) + back
  {
    var k := KindOf(line);
    front, back := TrimSplits(line);
    assert Trim(line) == Label(k) + k.value;
    assert Label(k)[|Label(k)| - 1] == ' ' && IsSpace(' ');
  }

  /** A line that names the events to come, or uses a name up. */
  predicate Names(line: string) {
    KindOf(line).EventLine? || KindOf(line).DataLine?
  }

  lemma LineByKind<D>(parse: string -> Option<D>, r: Reader<D>, line: string)
    ensures OnLine(parse, r, line).currentEvent ==
      match KindOf(line) case EventLine(v) => v case DataLine(_) => "" case _ => r.currentEvent
    ensures OnLine(parse, r, line).lastEventId == match KindOf(line) case IdLine(v) => Some(v) case _ => r.lastEventId
    ensures OnLine(parse, r, line).dispatched == r.dispatched + Delivered(parse, r.currentEvent, KindOf(line))
  {
    assert r.dispatched + [] == r.dispatched;
  }

  /** What a line dispatches while a name is pending. */
  function Delivered<D>(parse: string -> Option<D>, name: string, k: Line): seq<(string, D)> {
    if k.DataLine? && name != "" && parse(k.value).Some? then [(name, parse(k.value).value)] else []
  }

  // ---------------------------------------------------------------------------------------------
  // Lists of lines
  // ---------------------------------------------------------------------------------------------

  /** The reader after the first `k` lines. */
  function ReadUpTo<D>(parse: string -> Option<D>, r: Reader<D>, lines: seq<string>, k: nat): Reader<D>
    requires k <= |lines|
  {
    OnLines(parse, r, lines[..k])
  }

  lemma NextLine<D>(parse: string -> Option<D>, r: Reader<D>, lines: seq<string>, k: nat)
    requires k < |lines|
    ensures ReadUpTo(parse, r, lines, k + 1) == OnLine(parse, ReadUpTo(parse, r, lines, k), lines[k])
  {
    assert lines[..k + 1] == lines[..k] + [lines[k]];
    OnLinesConcat(parse, r, lines[..k], [lines[k]]);
    assert [lines[k]][1..] == [];
  }

  /** `i` is the last line before `k` that is an event or data line; -1 if none is. */
  ghost predicate LastNaming(lines: seq<string>, i: int, k: nat) {
    && -1 <= i < k <= |lines|
    && (i >= 0 ==> Names(lines[i]))
    && forall j :: i < j < k ==> !Names(lines[j])
  }

  /** The name that line leaves pending. */
  function LeftBy<D>(r: Reader<D>, lines: seq<string>, i: int): string
    requires -1 <= i < |lines|
  {
    if i == -1 then r.currentEvent else if KindOf(lines[i]).EventLine? then KindOf(lines[i]).value else ""
  }

  lemma {:induction false} PendingName<D>(parse: string -> Option<D>, r: Reader<D>, lines: seq<string>, i: int, k: nat)
    requires LastNaming(lines, i, k)
    ensures ReadUpTo(parse, r, lines, k).currentEvent == LeftBy(r, lines, i)
    decreases k
  {
    if k > 0 {
      NextLine(parse, r, lines, k - 1);
      LineByKind(parse, ReadUpTo(parse, r, lines, k - 1), lines[k - 1]);
      if i < k - 1 {
        PendingName(parse, r, lines, i, k - 1);
        assert !Names(lines[k - 1]);
      }
    }
  }

  /**
   Over any lines, in any order: a data line that parses is dispatched under the name of the last event
   line before it if no other data line came between, and is dropped otherwise. No other line dispatches.
   */
  lemma DispatchesExactly<D>(parse: string -> Option<D>, r: Reader<D>, lines: seq<string>, i: int, k: nat)
    requires k < |lines| && LastNaming(lines, i, k)
    ensures ReadUpTo(parse, r, lines, k + 1).dispatched ==
      ReadUpTo(parse, r, lines, k).dispatched + Delivered(parse, LeftBy(r, lines, i), KindOf(lines[k]))
  {
    PendingName(parse, r, lines, i, k);
    NextLine(parse, r, lines, k);
    LineByKind(parse, ReadUpTo(parse, r, lines, k), lines[k]);
  }

  /** The last event id is the value of the last id line. */
  lemma {:induction false} LastIdLineCounts<D>(parse: string -> Option<D>, r: Reader<D>, lines: seq<string>, i: nat, k: nat)
    requires i < k <= |lines| && KindOf(lines[i]).IdLine?
    requires forall j :: i < j < k ==> !KindOf(lines[j]).IdLine?
    ensures ReadUpTo(parse, r, lines, k).lastEventId == Some(KindOf(lines[i]).value)
    decreases k
  {
    NextLine(parse, r, lines, k - 1);
    LineByKind(parse, ReadUpTo(parse, r, lines, k - 1), lines[k - 1]);
    if i < k - 1 {
      LastIdLineCounts(parse, r, lines, i, k - 1);
    }
  }

  // ---------------------------------------------------------------------------------------------
  // Line ends
  // ---------------------------------------------------------------------------------------------

  /** The same lines with a carriage return before each newline. */
  function WithReturns(lines: seq<string>): seq<string> {
    if lines == [] then [] else [lines[0] + "\r"] + WithReturns(lines[1..])
  }

  lemma ReturnTrimmed<D>(parse: string -> Option<D>, r: Reader<D>, line: string)
    ensures OnLine(parse, r, line + "\r") == OnLine(parse, r, line)
  {
    TrimPadded("", line, "\r");
    assert "" + line + "\r" == line + "\r";
  }

  lemma {:induction false} ReturnsTrimmed<D>(parse: string -> Option<D>, r: Reader<D>, lines: seq<string>)
    ensures OnLines(parse, r, WithReturns(lines)) == OnLines(parse, r, lines)
    decreases |lines|
  {
    if lines != [] {
      ReturnTrimmed(parse, r, lines[0]);
      assert WithReturns(lines)[1..] == WithReturns(lines[1..]);
      ReturnsTrimmed(parse, OnLine(parse, r, lines[0]), lines[1..]);
    }
  }

  ghost predicate NoNewlines(lines: seq<string>) {
    forall i :: 0 <= i < |lines| ==> '\n' !in lines[i]
  }

  lemma {:induction false} SplitsIntoLines(lines: seq<string>)
    requires NoNewlines(lines)
    ensures CompleteLines(Lines(lines)) == lines && Rest(Lines(lines)) == ""
  {
    if lines != [] {
      SplitsIntoLines(lines[1..]);
      SplitLine(lines[0], Lines(lines[1..]));
      assert lines == [lines[0]] + lines[1..];
    }
  }

  lemma {:induction false} ReturnsNoNewlines(lines: seq<string>)
    requires NoNewlines(lines)
    ensures NoNewlines(WithReturns(lines))
  {
    if lines != [] {
      ReturnsNoNewlines(lines[1..]);
    }
  }

  /** A stream whose lines end in CR LF reads as the same stream with plain newlines. */
  lemma CarriageReturnsIgnored<D>(parse: string -> Option<D>, r: Reader<D>, lines: seq<string>)
    requires r.buffer == "" && NoNewlines(lines)
    ensures OnChunk(parse, r, Lines(WithReturns(lines))) == OnChunk(parse, r, Lines(lines))
  {
    var a, b := Lines(WithReturns(lines)), Lines(lines);
    ReturnsNoNewlines(lines);
    SplitsIntoLines(lines);
    SplitsIntoLines(WithReturns(lines));
    ReturnsTrimmed(parse, r, lines);
    assert r.buffer + a == a && r.buffer + b == b;
  }
}
