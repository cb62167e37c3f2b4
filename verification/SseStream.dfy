/**
 The browser's event-stream reader: text arrives in arbitrary chunks, complete lines are read as
 `id: `, `event: ` and `data: ` fields, the incomplete last line is carried over, and every data
 line is dispatched under the pending event name. `JSON.parse` is the partial function `parse`.
 */
module SseStream {
  import opened Prelude

  datatype Reader<D> = Reader(buffer: string, currentEvent: string, lastEventId: Option<string>, dispatched: seq<(string, D)>)

  // ---------------------------------------------------------------------------------------------
  // Text
  // ---------------------------------------------------------------------------------------------

  /** `split('\n')`: the pieces between newlines, the last one possibly empty. */
  function Split(s: string): (r: seq<string>)
    ensures r != []
  {
    if s == "" then [""]
    else
      var r := Split(s[1..]);
      if s[0] == '\n' then [""] + r else [[s[0]] + r[0]] + r[1..]
  }

  function CompleteLines(s: string): seq<string> {
    var parts := Split(s);
    parts[..|parts| - 1]
  }

  function Rest(s: string): string {
    var parts := Split(s);
    parts[|parts| - 1]
  }

  /** White space and line terminators of ECMAScript, as `trim` sees them. */
  predicate IsSpace(c: char) {
    || '\U{0009}' <= c <= '\U{000D}' || c == ' ' || c == '\U{00A0}' || c == '\U{1680}'
    || '\U{2000}' <= c <= '\U{200A}' || c == '\U{2028}' || c == '\U{2029}' || c == '\U{202F}'
    || c == '\U{205F}' || c == '\U{3000}' || c == '\U{FEFF}'
  }

  function TrimStart(s: string): string {
    if s != "" && IsSpace(s[0]) then TrimStart(s[1..]) else s
  }

  function TrimEnd(s: string): string {
    if s != "" && IsSpace(s[|s| - 1]) then TrimEnd(s[..|s| - 1]) else s
  }

  function Trim(s: string): string {
    TrimEnd(TrimStart(s))
  }

  // ---------------------------------------------------------------------------------------------
  // The reader
  // ---------------------------------------------------------------------------------------------

  function OnLine<D>(parse: string -> Option<D>, r: Reader<D>, line: string): Reader<D> {
    var trimmed := Trim(line);
    if "id: " <= trimmed then r.(lastEventId := Some(trimmed[4..]))
    else if "event: " <= trimmed then r.(currentEvent := trimmed[7..])
    else if "data: " <= trimmed then
      var data := parse(trimmed[6..]);
      r.(currentEvent := "",
         dispatched := if data.Some? && r.currentEvent != "" then r.dispatched + [(r.currentEvent, data.value)] else r.dispatched)
    else r
  }

  function OnLines<D>(parse: string -> Option<D>, r: Reader<D>, lines: seq<string>): Reader<D>
    decreases |lines|
  {
    if lines == [] then r else OnLines(parse, OnLine(parse, r, lines[0]), lines[1..])
  }

  function OnChunk<D>(parse: string -> Option<D>, r: Reader<D>, chunk: string): Reader<D> {
    var text := r.buffer + chunk;
    OnLines(parse, r, CompleteLines(text)).(buffer := Rest(text))
  }

  function OnChunks<D>(parse: string -> Option<D>, r: Reader<D>, chunks: seq<string>): Reader<D>
    decreases |chunks|
  {
    if chunks == [] then r else OnChunks(parse, OnChunk(parse, r, chunks[0]), chunks[1..])
  }

  function Concat(chunks: seq<string>): string {
    if chunks == [] then "" else chunks[0] + Concat(chunks[1..])
  }

  // ---------------------------------------------------------------------------------------------
  // Chunk independence
  // ---------------------------------------------------------------------------------------------

  /** The pieces of a text whose last piece goes on with `b`. */
  function Continue(parts: seq<string>, b: string): seq<string>
    requires parts != []
  {
    parts[..|parts| - 1] + Split(parts[|parts| - 1] + b)
  }

  /** A character other than newline joins the first piece. */
  function Attach(c: char, parts: seq<string>): seq<string>
    requires parts != []
  {
    [[c] + parts[0]] + parts[1..]
  }

  lemma AttachContinues(c: char, parts: seq<string>, b: string)
    requires parts != [] && c != '\n'
    ensures Continue(Attach(c, parts), b) == Attach(c, Continue(parts, b))
  {
    if |parts| == 1 {
      var text := [c] + parts[0] + b;
      assert text[0] == c && text[1..] == parts[0] + b;
      assert Split(text) == Attach(c, Split(parts[0] + b));
    }
  }

  lemma {:induction false} SplitContinues(a: string, b: string)
    ensures Split(a + b) == Continue(Split(a), b)
  {
    if a == "" {
      assert a + b == b && "" + b == b;
    } else {
      assert (a + b)[0] == a[0] && (a + b)[1..] == a[1..] + b;
      SplitContinues(a[1..], b);
      if a[0] == '\n' {
        assert Split(a + b) == [""] + Split(a[1..] + b);
      } else {
        assert Split(a + b) == Attach(a[0], Split(a[1..] + b));
        AttachContinues(a[0], Split(a[1..]), b);
      }
    }
  }

  lemma SplitConcat(a: string, b: string)
    ensures CompleteLines(a + b) == CompleteLines(a) + CompleteLines(Rest(a) + b)
    ensures Rest(a + b) == Rest(Rest(a) + b)
  {
    SplitContinues(a, b);
  }

  lemma {:induction false} OnLinesConcat<D>(parse: string -> Option<D>, r: Reader<D>, a: seq<string>, b: seq<string>)
    ensures OnLines(parse, r, a + b) == OnLines(parse, OnLines(parse, r, a), b)
    decreases |a|
  {
    if a == [] {
      assert a + b == b;
    } else {
      assert (a + b)[1..] == a[1..] + b;
      OnLinesConcat(parse, OnLine(parse, r, a[0]), a[1..], b);
    }
  }

  /** Lines do not look at the carried buffer. */
  lemma {:induction false} OnLinesFrame<D>(parse: string -> Option<D>, r: Reader<D>, lines: seq<string>, buffer: string)
    ensures OnLines(parse, r.(buffer := buffer), lines) == OnLines(parse, r, lines).(buffer := buffer)
    decreases |lines|
  {
    if lines != [] {
      OnLinesFrame(parse, OnLine(parse, r, lines[0]), lines[1..], buffer);
      assert OnLine(parse, r.(buffer := buffer), lines[0]) == OnLine(parse, r, lines[0]).(buffer := buffer);
    }
  }

  lemma TwoChunks<D>(parse: string -> Option<D>, r: Reader<D>, a: string, b: string)
    ensures OnChunk(parse, OnChunk(parse, r, a), b) == OnChunk(parse, r, a + b)
  {
    var text := r.buffer + a;
    assert r.buffer + (a + b) == text + b;
    SplitConcat(text, b);
    var mid := OnLines(parse, r, CompleteLines(text));
    OnLinesFrame(parse, mid, CompleteLines(Rest(text) + b), Rest(text));
    OnLinesConcat(parse, r, CompleteLines(text), CompleteLines(Rest(text) + b));
  }

  /**
   However the text is cut into chunks, dispatched events, last event id, pending event name and
   carried buffer are those of reading it in one piece.
   */
  lemma {:induction false} ChunkingIrrelevant<D>(parse: string -> Option<D>, r: Reader<D>, chunks: seq<string>)
    requires chunks != []
    ensures OnChunks(parse, r, chunks) == OnChunk(parse, r, Concat(chunks))
    decreases |chunks|
  {
    if |chunks| == 1 {
      assert chunks[1..] == [] && Concat(chunks) == chunks[0] + "";
      assert chunks[0] + "" == chunks[0];
      assert OnChunks(parse, OnChunk(parse, r, chunks[0]), []) == OnChunk(parse, r, chunks[0]);
    } else {
      ChunkingIrrelevant(parse, OnChunk(parse, r, chunks[0]), chunks[1..]);
      TwoChunks(parse, r, chunks[0], Concat(chunks[1..]));
    }
  }

  /** Two ways of cutting the same text end in the same reader. */
  lemma SameTextSameReader<D>(parse: string -> Option<D>, r: Reader<D>, a: seq<string>, b: seq<string>)
    requires a != [] && b != [] && Concat(a) == Concat(b)
    ensures OnChunks(parse, r, a) == OnChunks(parse, r, b)
  {
    ChunkingIrrelevant(parse, r, a);
    ChunkingIrrelevant(parse, r, b);
  }

  // ---------------------------------------------------------------------------------------------
  // The connection object
  // ---------------------------------------------------------------------------------------------

  class Connection<D> {
    const parse: string -> Option<D>
    var buffer: string
    var currentEvent: string
    var lastEventId: Option<string>
    var dispatched: seq<(string, D)>

    ghost function Abs(): Reader<D>
      reads this
    {
      Reader(buffer, currentEvent, lastEventId, dispatched)
    }

    /** A new connection keeps the last event id of the previous one and nothing else. */
    constructor (parse: string -> Option<D>, lastEventId: Option<string>)
      ensures this.parse == parse
      ensures Abs() == Reader("", "", lastEventId, [])
    {
      this.parse := parse;
      this.lastEventId := lastEventId;
      buffer, currentEvent, dispatched := "", "", [];
    }

    method ReadChunk(chunk: string)
      modifies this
      ensures Abs() == OnChunk(parse, old(Abs()), chunk)
    {
      ghost var before := Abs();
      buffer := buffer + chunk;
      var parts := Split(buffer);
      var lines := parts[..|parts| - 1];
      buffer := parts[|parts| - 1];
      ghost var start := Abs();
      for k := 0 to |lines|
        invariant buffer == start.buffer
        invariant OnLines(parse, start, lines) == OnLines(parse, Abs(), lines[k..])
      {
        var trimmed := Trim(lines[k]);
        ghost var r := Abs();
        if "id: " <= trimmed {
          lastEventId := Some(trimmed[4..]);
        } else if "event: " <= trimmed {
          currentEvent := trimmed[7..];
        } else if "data: " <= trimmed {
          var data := parse(trimmed[6..]);
          if data.Some? && currentEvent != "" {
            dispatched := dispatched + [(currentEvent, data.value)];
          }
          currentEvent := "";
        }
        assert Abs() == OnLine(parse, r, lines[k]);
        assert lines[k..][1..] == lines[k + 1..];
      }
      assert lines[|lines|..] == [];
      OnLinesFrame(parse, before, lines, start.buffer);
    }

    /** The read loop, until the stream is done. */
    method ReadStream(chunks: seq<string>)
      modifies this
      ensures Abs() == OnChunks(parse, old(Abs()), chunks)
      ensures chunks != [] ==> Abs() == OnChunk(parse, old(Abs()), Concat(chunks))
    {
      ghost var start := Abs();
      for k := 0 to |chunks|
        invariant OnChunks(parse, start, chunks) == OnChunks(parse, Abs(), chunks[k..])
      {
        ReadChunk(chunks[k]);
        assert chunks[k..][1..] == chunks[k + 1..];
      }
      assert chunks[|chunks|..] == [];
      if chunks != [] {
        ChunkingIrrelevant(parse, start, chunks);
      }
    }
  }
}
