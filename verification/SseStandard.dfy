/**
 The reader against the standard: section 9.2.6 of the WHATWG HTML Standard, "Interpreting an event
 stream", which dispatches on blank lines, on streams of frames with one event and one data line.
 */
module SseStandard {
  import opened Prelude
  import opened SseStream

  // ---------------------------------------------------------------------------------------------
  // The standard's interpreter
  // ---------------------------------------------------------------------------------------------

  datatype Interpreter = Interpreter(data: string, eventType: string, idBuffer: string, lastId: string, events: seq<(string, string)>)

  const Idle := Interpreter("", "", "", "", [])

  /** Lines end at CR LF, LF or CR; the last piece is incomplete. */
  function StdSplit(s: string): (r: seq<string>)
    ensures r != []
    decreases |s|
  {
    if s == "" then [""]
    else if s[0] == '\r' then [""] + StdSplit(if |s| > 1 && s[1] == '\n' then s[2..] else s[1..])
    else if s[0] == '\n' then [""] + StdSplit(s[1..])
    else Attach(s[0], StdSplit(s[1..]))
  }

  function FirstColon(line: string): (i: nat)
    ensures i <= |line|
    ensures forall k :: 0 <= k < i ==> line[k] != ':'
    ensures i < |line| ==> line[i] == ':'
  {
    if line == "" || line[0] == ':' then 0 else 1 + FirstColon(line[1..])
  }

  datatype Field = EventField | DataField | IdField | OtherField

  function FieldNamed(name: string): Field {
    if name == "event" then EventField
    else if name == "data" then DataField
    else if name == "id" then IdField
    else OtherField
  }

  function StdField(st: Interpreter, field: Field, value: string): Interpreter {
    match field
    case EventField => st.(eventType := value)
    case DataField => st.(data := st.data + value + "\n")
    case IdField => if '\0' in value then st else st.(idBuffer := value)
    case OtherField => st
  }

  function StdDispatch(st: Interpreter): Interpreter {
    var named := st.(lastId := st.idBuffer);
    if st.data == "" then named.(eventType := "")
    else
      var eventType := if st.eventType == "" then "message" else st.eventType;
      named.(data := "", eventType := "", events := st.events + [(eventType, st.data[..|st.data| - 1])])
  }

  function StdLine(st: Interpreter, line: string): Interpreter {
    if line == "" then StdDispatch(st)
    else if line[0] == ':' then st
    else
      var i := FirstColon(line);
      if i == |line| then StdField(st, FieldNamed(line), "")
      else
        var value := line[i + 1..];
        StdField(st, FieldNamed(line[..i]), if value != "" && value[0] == ' ' then value[1..] else value)
  }

  function StdLines(st: Interpreter, lines: seq<string>): Interpreter
    decreases |lines|
  {
    if lines == [] then st else StdLines(StdLine(st, lines[0]), lines[1..])
  }

  function Interpret(text: string): Interpreter {
    var parts := StdSplit(text);
    StdLines(Idle, parts[..|parts| - 1])
  }

  // ---------------------------------------------------------------------------------------------
  // Frames
  // ---------------------------------------------------------------------------------------------

  datatype Frame = Frame(id: Option<string>, event: string, data: string)

  /** A field value that neither trimming nor line splitting can touch. */
  predicate FieldText(v: string) {
    v != "" && !IsSpace(v[0]) && !IsSpace(v[|v| - 1]) && '\n' !in v && '\r' !in v
  }

  predicate GoodFrame(f: Frame) {
    && FieldText(f.event)
    && FieldText(f.data)
    && (f.id.Some? ==> FieldText(f.id.value) && '\0' !in f.id.value)
  }

  function IdLines(f: Frame): seq<string> {
    if f.id.Some? then ["id: " + f.id.value] else []
  }

  function BodyLines(f: Frame, eventFirst: bool): seq<string> {
    if eventFirst then ["event: " + f.event, "data: " + f.data] else ["data: " + f.data, "event: " + f.event]
  }

  function FrameLines(f: Frame, eventFirst: bool): seq<string> {
    IdLines(f) + BodyLines(f, eventFirst) + [""]
  }

  /** Frames in a row, each with its event line first or its data line first. */
  function AllLines(frames: seq<Frame>, eventFirst: seq<bool>): seq<string>
    requires |frames| == |eventFirst|
  {
    if frames == [] then [] else FrameLines(frames[0], eventFirst[0]) + AllLines(frames[1..], eventFirst[1..])
  }

  ghost predicate GoodFrames(frames: seq<Frame>) {
    forall i :: 0 <= i < |frames| ==> GoodFrame(frames[i])
  }

  ghost predicate AllTrue(flags: seq<bool>) {
    forall i :: 0 <= i < |flags| ==> flags[i]
  }

  function Lines(lines: seq<string>): string {
    if lines == [] then "" else lines[0] + "\n" + Lines(lines[1..])
  }

  /** What reaches the handler from a list of standard events: those whose data parses. */
  function Deliver<D>(parse: string -> Option<D>, events: seq<(string, string)>): seq<(string, D)> {
    if events == [] then []
    else
      var front := Deliver(parse, events[..|events| - 1]);
      var (name, text) := events[|events| - 1];
      var data := parse(text);
      if data.Some? then front + [(name, data.value)] else front
  }

  // ---------------------------------------------------------------------------------------------
  // Lines of a rendered stream
  // ---------------------------------------------------------------------------------------------

  ghost predicate SingleLines(lines: seq<string>) {
    forall i :: 0 <= i < |lines| ==> '\n' !in lines[i] && '\r' !in lines[i]
  }

  lemma {:induction false} SplitLine(line: string, rest: string)
    requires '\n' !in line
    ensures Split(line + "\n" + rest) == [line] + Split(rest)
  {
    var text := line + "\n" + rest;
    if line == "" {
      assert text == "\n" + rest && text[1..] == rest;
    } else {
      assert text[1..] == line[1..] + "\n" + rest;
      SplitLine(line[1..], rest);
      assert [line[0]] + line[1..] == line;
    }
  }

  lemma {:induction false} SplitLines(lines: seq<string>)
    requires SingleLines(lines)
    ensures Split(Lines(lines)) == lines + [""]
    ensures '\r' !in Lines(lines)
  {
    if lines != [] {
      SplitLines(lines[1..]);
      SplitLine(lines[0], Lines(lines[1..]));
    }
  }

  lemma {:induction false} SameSplit(s: string)
    requires '\r' !in s
    ensures StdSplit(s) == Split(s)
  {
    if s != "" {
      SameSplit(s[1..]);
    }
  }

  lemma {:induction false} FramesSingleLines(frames: seq<Frame>, eventFirst: seq<bool>)
    requires GoodFrames(frames) && |frames| == |eventFirst|
    ensures SingleLines(AllLines(frames, eventFirst))
  {
    if frames != [] {
      FramesSingleLines(frames[1..], eventFirst[1..]);
      FrameSingleLines(frames[0], eventFirst[0]);
    }
  }

  lemma FrameSingleLines(f: Frame, eventFirst: bool)
    requires GoodFrame(f)
    ensures SingleLines(FrameLines(f, eventFirst))
  {
  }

  // ---------------------------------------------------------------------------------------------
  // One field line, both ways
  // ---------------------------------------------------------------------------------------------

  lemma TrimKeeps(s: string)
    requires s != "" && !IsSpace(s[0]) && !IsSpace(s[|s| - 1])
    ensures Trim(s) == s
  {
  }

  lemma StdFieldLine(st: Interpreter, name: string, v: string)
    requires name == "id" || name == "event" || name == "data"
    requires FieldText(v)
    ensures StdLine(st, name + ": " + v) == StdField(st, FieldNamed(name), v)
  {
    var line := name + ": " + v;
    assert line[|name|] == ':' && line[|name| + 1] == ' ';
    assert FirstColon(line) == |name| by {
      assert forall k :: 0 <= k < |name| ==> line[k] == name[k] && name[k] != ':';
    }
    assert line[..|name|] == name && line[|name| + 1..][1..] == v;
  }

  lemma StdEventLine(st: Interpreter, v: string)
    requires FieldText(v)
    ensures StdLine(st, "event: " + v) == st.(eventType := v)
  {
    StdFieldLine(st, "event", v);
    assert "event" + ": " + v == "event: " + v;
  }

  lemma StdDataLine(st: Interpreter, v: string)
    requires FieldText(v) && st.data == ""
    ensures StdLine(st, "data: " + v) == st.(data := v + "\n")
  {
    StdFieldLine(st, "data", v);
    assert "data" + ": " + v == "data: " + v;
    assert "" + v + "\n" == v + "\n";
  }

  lemma StdIdLine(st: Interpreter, v: string)
    requires FieldText(v) && '\0' !in v
    ensures StdLine(st, "id: " + v) == st.(idBuffer := v)
  {
    StdFieldLine(st, "id", v);
    assert "id" + ": " + v == "id: " + v;
  }

  lemma CodeIdLine<D>(parse: string -> Option<D>, r: Reader<D>, v: string)
    requires FieldText(v)
    ensures OnLine(parse, r, "id: " + v) == r.(lastEventId := Some(v))
  {
    TrimKeeps("id: " + v);
    assert ("id: " + v)[4..] == v;
  }

  lemma CodeEventLine<D>(parse: string -> Option<D>, r: Reader<D>, v: string)
    requires FieldText(v)
    ensures OnLine(parse, r, "event: " + v) == r.(currentEvent := v)
  {
    var line := "event: " + v;
    TrimKeeps(line);
    assert line[0] == 'e' && line[7..] == v;
    assert !("id: " <= line) && "event: " <= line;
  }

  lemma CodeDataLine<D>(parse: string -> Option<D>, r: Reader<D>, v: string)
    requires FieldText(v)
    ensures OnLine(parse, r, "data: " + v) ==
      r.(currentEvent := "",
         dispatched := if parse(v).Some? && r.currentEvent != "" then r.dispatched + [(r.currentEvent, parse(v).value)] else r.dispatched)
  {
    var line := "data: " + v;
    TrimKeeps(line);
    assert line[0] == 'd' && line[6..] == v;
    assert !("id: " <= line) && !("event: " <= line) && "data: " <= line;
  }

  // ---------------------------------------------------------------------------------------------
  // One frame, both ways
  // ---------------------------------------------------------------------------------------------

  function IdOf(f: Frame, before: string): string {
    if f.id.Some? then f.id.value else before
  }

  /** Both fields of a frame set, then the blank line. */
  lemma StdBlankLine(st: Interpreter, f: Frame)
    requires GoodFrame(f) && st.data == "" && st.eventType == ""
    ensures StdLine(st.(eventType := f.event, data := f.data + "\n"), "") ==
      st.(lastId := st.idBuffer, events := st.events + [(f.event, f.data)])
  {
    assert (f.data + "\n")[..|f.data|] == f.data;
  }

  lemma StdBody(st: Interpreter, f: Frame, eventFirst: bool)
    requires GoodFrame(f) && st.data == "" && st.eventType == ""
    ensures StdLines(st, BodyLines(f, eventFirst) + [""]) ==
      st.(lastId := st.idBuffer, events := st.events + [(f.event, f.data)])
  {
    StdBlankLine(st, f);
    if eventFirst {
      StdEventLine(st, f.event);
      StdDataLine(st.(eventType := f.event), f.data);
      StdThree(st, "event: " + f.event, "data: " + f.data, "");
    } else {
      StdDataLine(st, f.data);
      StdEventLine(st.(data := f.data + "\n"), f.event);
      StdThree(st, "data: " + f.data, "event: " + f.event, "");
    }
  }

  lemma StdFrame(st: Interpreter, f: Frame, eventFirst: bool)
    requires GoodFrame(f) && st.data == "" && st.eventType == ""
    ensures StdLines(st, FrameLines(f, eventFirst)) ==
      Interpreter("", "", IdOf(f, st.idBuffer), IdOf(f, st.idBuffer), st.events + [(f.event, f.data)])
  {
    StdIdPart(st, f, BodyLines(f, eventFirst) + [""]);
    assert FrameLines(f, eventFirst) == IdLines(f) + (BodyLines(f, eventFirst) + [""]);
    StdBody(st.(idBuffer := IdOf(f, st.idBuffer)), f, eventFirst);
  }

  lemma StdIdPart(st: Interpreter, f: Frame, rest: seq<string>)
    requires GoodFrame(f)
    ensures StdLines(st, IdLines(f) + rest) == StdLines(st.(idBuffer := IdOf(f, st.idBuffer)), rest)
  {
    if f.id.Some? {
      StdIdLine(st, f.id.value);
      assert (IdLines(f) + rest)[1..] == rest;
    } else {
      assert IdLines(f) + rest == rest;
    }
  }

  lemma StdThree(st: Interpreter, a: string, b: string, c: string)
    ensures StdLines(st, [a, b] + [c]) == StdLine(StdLine(StdLine(st, a), b), c)
  {
    var l := [a, b] + [c];
    assert l[1..] == [b, c] && [b, c][1..] == [c] && [c][1..] == [];
    assert StdLines(st, l) == StdLines(StdLine(st, a), [b, c]);
    assert StdLines(StdLine(st, a), [b, c]) == StdLines(StdLine(StdLine(st, a), b), [c]);
  }

  lemma CodeThree<D>(parse: string -> Option<D>, r: Reader<D>, a: string, b: string, c: string)
    ensures OnLines(parse, r, [a, b] + [c]) == OnLine(parse, OnLine(parse, OnLine(parse, r, a), b), c)
  {
    var l := [a, b] + [c];
    assert l[1..] == [b, c] && [b, c][1..] == [c] && [c][1..] == [];
    assert OnLines(parse, r, l) == OnLines(parse, OnLine(parse, r, a), [b, c]);
    assert OnLines(parse, OnLine(parse, r, a), [b, c]) == OnLines(parse, OnLine(parse, OnLine(parse, r, a), b), [c]);
  }

  /** What a frame dispatches when `pending` is the event name left over from before. */
  function FrameDispatch<D>(parse: string -> Option<D>, pending: string, f: Frame, eventFirst: bool): seq<(string, D)> {
    var name := if eventFirst then f.event else pending;
    if parse(f.data).Some? && name != "" then [(name, parse(f.data).value)] else []
  }

  /** The event name a frame leaves pending: its own, if its data came first. */
  function LeftPending(f: Frame, eventFirst: bool): string {
    if eventFirst then "" else f.event
  }

  lemma CodeFrame<D>(parse: string -> Option<D>, r: Reader<D>, f: Frame, eventFirst: bool)
    requires GoodFrame(f)
    ensures OnLines(parse, r, FrameLines(f, eventFirst)) ==
      r.(lastEventId := if f.id.Some? then f.id else r.lastEventId,
         currentEvent := LeftPending(f, eventFirst),
         dispatched := r.dispatched + FrameDispatch(parse, r.currentEvent, f, eventFirst))
  {
    var body := BodyLines(f, eventFirst);
    var r1 := r.(lastEventId := if f.id.Some? then f.id else r.lastEventId);
    if f.id.Some? {
      CodeIdLine(parse, r, f.id.value);
      assert FrameLines(f, eventFirst)[1..] == body + [""];
    } else {
      assert FrameLines(f, eventFirst) == body + [""];
    }
    assert OnLines(parse, r, FrameLines(f, eventFirst)) == OnLines(parse, r1, body + [""]);
    CodeThree(parse, r1, body[0], body[1], "");
    CodeBody(parse, r1, f, eventFirst);
  }

  lemma CodeBody<D>(parse: string -> Option<D>, r: Reader<D>, f: Frame, eventFirst: bool)
    requires GoodFrame(f)
    ensures var body := BodyLines(f, eventFirst);
      OnLine(parse, OnLine(parse, OnLine(parse, r, body[0]), body[1]), "") ==
        r.(currentEvent := LeftPending(f, eventFirst),
           dispatched := r.dispatched + FrameDispatch(parse, r.currentEvent, f, eventFirst))
  {
    if eventFirst {
      CodeEventLine(parse, r, f.event);
      CodeDataLine(parse, r.(currentEvent := f.event), f.data);
    } else {
      CodeDataLine(parse, r, f.data);
      CodeEventLine(parse, r.(currentEvent := ""), f.event);
      var r' := OnLine(parse, r, "data: " + f.data);
      CodeEventLine(parse, r', f.event);
    }
    assert r.dispatched + [] == r.dispatched;
  }

  // ---------------------------------------------------------------------------------------------
  // Main results
  // ---------------------------------------------------------------------------------------------

  lemma {:induction false} StdLinesConcat(st: Interpreter, a: seq<string>, b: seq<string>)
    ensures StdLines(st, a + b) == StdLines(StdLines(st, a), b)
    decreases |a|
  {
    if a == [] {
      assert a + b == b;
    } else {
      assert (a + b)[1..] == a[1..] + b;
      StdLinesConcat(StdLine(st, a[0]), a[1..], b);
    }
  }

  /** What the standard delivers of a frame, whichever line came first. */
  function FrameDelivery<D>(parse: string -> Option<D>, f: Frame): seq<(string, D)> {
    if parse(f.data).Some? then [(f.event, parse(f.data).value)] else []
  }

  function Deliveries<D>(parse: string -> Option<D>, frames: seq<Frame>): seq<(string, D)> {
    if frames == [] then [] else FrameDelivery(parse, frames[0]) + Deliveries(parse, frames[1..])
  }

  function LastId(frames: seq<Frame>, before: string): string {
    if frames == [] then before else LastId(frames[1..], IdOf(frames[0], before))
  }

  lemma {:induction false} StdStream<D>(parse: string -> Option<D>, st: Interpreter, frames: seq<Frame>, eventFirst: seq<bool>)
    requires GoodFrames(frames) && |frames| == |eventFirst| && st.data == "" && st.eventType == "" && st.lastId == st.idBuffer
    ensures var end := StdLines(st, AllLines(frames, eventFirst));
      && end.lastId == end.idBuffer == LastId(frames, st.idBuffer)
      && end.data == "" && end.eventType == ""
      && Deliver(parse, end.events) == Deliver(parse, st.events) + Deliveries(parse, frames)
    decreases |frames|
  {
    if frames == [] {
      assert Deliver(parse, st.events) + [] == Deliver(parse, st.events);
    } else {
      var f, lines := frames[0], FrameLines(frames[0], eventFirst[0]);
      StdFrame(st, f, eventFirst[0]);
      StdStream(parse, StdLines(st, lines), frames[1..], eventFirst[1..]);
      StdLinesConcat(st, lines, AllLines(frames[1..], eventFirst[1..]));
      DeliverOne(parse, st.events, f);
      AssociateThree(Deliver(parse, st.events), FrameDelivery(parse, f), Deliveries(parse, frames[1..]));
    }
  }

  lemma DeliverOne<D>(parse: string -> Option<D>, events: seq<(string, string)>, f: Frame)
    ensures Deliver(parse, events + [(f.event, f.data)]) == Deliver(parse, events) + FrameDelivery(parse, f)
  {
    assert (events + [(f.event, f.data)])[..|events|] == events;
    assert Deliver(parse, events) + [] == Deliver(parse, events);
  }

  lemma AssociateThree<T>(a: seq<T>, b: seq<T>, c: seq<T>)
    ensures a + b + c == a + (b + c)
  {
  }

  /** What the reader dispatches over frames in a row. */
  function Dispatches<D>(parse: string -> Option<D>, pending: string, frames: seq<Frame>, eventFirst: seq<bool>): seq<(string, D)>
    requires |frames| == |eventFirst|
    decreases |frames|
  {
    if frames == [] then []
    else
      FrameDispatch(parse, pending, frames[0], eventFirst[0]) +
      Dispatches(parse, LeftPending(frames[0], eventFirst[0]), frames[1..], eventFirst[1..])
  }

  function ReaderId(id: Option<string>): string {
    if id.Some? then id.value else ""
  }

  lemma {:induction false} CodeStream<D>(parse: string -> Option<D>, r: Reader<D>, frames: seq<Frame>, eventFirst: seq<bool>)
    requires GoodFrames(frames) && |frames| == |eventFirst|
    ensures var end := OnLines(parse, r, AllLines(frames, eventFirst));
      && end.dispatched == r.dispatched + Dispatches(parse, r.currentEvent, frames, eventFirst)
      && ReaderId(end.lastEventId) == LastId(frames, ReaderId(r.lastEventId))
      && (AllTrue(eventFirst) && r.currentEvent == "" ==> end.currentEvent == "")
    decreases |frames|
  {
    if frames == [] {
      assert r.dispatched + [] == r.dispatched;
    } else {
      var f, lines := frames[0], FrameLines(frames[0], eventFirst[0]);
      CodeFrame(parse, r, f, eventFirst[0]);
      var next := OnLines(parse, r, lines);
      CodeStream(parse, next, frames[1..], eventFirst[1..]);
      OnLinesConcat(parse, r, lines, AllLines(frames[1..], eventFirst[1..]));
      AssociateThree(r.dispatched, FrameDispatch(parse, r.currentEvent, f, eventFirst[0]),
                     Dispatches(parse, next.currentEvent, frames[1..], eventFirst[1..]));
    }
  }

  /**
   Every frame whose data parses and comes before its event line finds that very event name pending,
   left by the frame before it.
   */
  predicate NamesCarry<D>(parse: string -> Option<D>, pending: string, frames: seq<Frame>, eventFirst: seq<bool>)
    requires |frames| == |eventFirst|
    decreases |frames|
  {
    frames == [] ||
    ((eventFirst[0] || parse(frames[0].data).None? || pending == frames[0].event) &&
     NamesCarry(parse, LeftPending(frames[0], eventFirst[0]), frames[1..], eventFirst[1..]))
  }

  lemma {:induction false} NeverMore<D>(parse: string -> Option<D>, pending: string, frames: seq<Frame>, eventFirst: seq<bool>)
    requires |frames| == |eventFirst|
    ensures |Dispatches(parse, pending, frames, eventFirst)| <= |Deliveries(parse, frames)|
    decreases |frames|
  {
    if frames != [] {
      NeverMore(parse, LeftPending(frames[0], eventFirst[0]), frames[1..], eventFirst[1..]);
    }
  }

  lemma SameHeads<T>(x: T, y: T, a: seq<T>, b: seq<T>)
    ensures [x] + a == [y] + b <==> x == y && a == b
  {
    assert ([x] + a)[0] == x && ([y] + b)[0] == y && ([x] + a)[1..] == a && ([y] + b)[1..] == b;
  }

  /** Both deliver the same exactly when every pending name carries: a lost dispatch is never made up for. */
  lemma {:induction false} SameDeliveriesIff<D>(parse: string -> Option<D>, pending: string, frames: seq<Frame>, eventFirst: seq<bool>)
    requires GoodFrames(frames) && |frames| == |eventFirst|
    ensures Dispatches(parse, pending, frames, eventFirst) == Deliveries(parse, frames) <==> NamesCarry(parse, pending, frames, eventFirst)
    decreases |frames|
  {
    if frames != [] {
      var f := frames[0];
      var rest := Dispatches(parse, LeftPending(f, eventFirst[0]), frames[1..], eventFirst[1..]);
      var due := Deliveries(parse, frames[1..]);
      assert GoodFrame(f);
      SameDeliveriesIff(parse, LeftPending(f, eventFirst[0]), frames[1..], eventFirst[1..]);
      NeverMore(parse, LeftPending(f, eventFirst[0]), frames[1..], eventFirst[1..]);
      if parse(f.data).None? {
        assert [] + rest == rest && [] + due == due;
      } else {
        var name := if eventFirst[0] then f.event else pending;
        if name == "" {
          assert |[] + rest| == |rest|;
        } else {
          SameHeads((name, parse(f.data).value), (f.event, parse(f.data).value), rest, due);
        }
      }
    }
  }

  /** The event name pending before frame `i`. */
  function PendingAt(pending: string, frames: seq<Frame>, eventFirst: seq<bool>, i: nat): string
    requires i < |frames| == |eventFirst|
  {
    if i == 0 then pending else LeftPending(frames[i - 1], eventFirst[i - 1])
  }

  /** Frame `i` has its event line first, or no data that parses, or its own event name pending. */
  predicate CarriesAt<D>(parse: string -> Option<D>, pending: string, frames: seq<Frame>, eventFirst: seq<bool>, i: nat)
    requires i < |frames| == |eventFirst|
  {
    eventFirst[i] || parse(frames[i].data).None? || PendingAt(pending, frames, eventFirst, i) == frames[i].event
  }

  lemma CarriesAtTail<D>(parse: string -> Option<D>, pending: string, frames: seq<Frame>, eventFirst: seq<bool>, i: nat)
    requires 0 < i < |frames| == |eventFirst|
    ensures CarriesAt(parse, pending, frames, eventFirst, i) <==>
      CarriesAt(parse, LeftPending(frames[0], eventFirst[0]), frames[1..], eventFirst[1..], i - 1)
  {
  }

  lemma {:induction false} NamesCarryAt<D>(parse: string -> Option<D>, pending: string, frames: seq<Frame>, eventFirst: seq<bool>)
    requires |frames| == |eventFirst|
    ensures NamesCarry(parse, pending, frames, eventFirst) <==>
      forall i :: 0 <= i < |frames| ==> CarriesAt(parse, pending, frames, eventFirst, i)
    decreases |frames|
  {
    if frames != [] {
      var left, fs, es := LeftPending(frames[0], eventFirst[0]), frames[1..], eventFirst[1..];
      NamesCarryAt(parse, left, fs, es);
      if NamesCarry(parse, pending, frames, eventFirst) {
        forall i | 0 <= i < |frames|
          ensures CarriesAt(parse, pending, frames, eventFirst, i)
        {
          if i > 0 {
            CarriesAtTail(parse, pending, frames, eventFirst, i);
          }
        }
      }
      if forall i :: 0 <= i < |frames| ==> CarriesAt(parse, pending, frames, eventFirst, i) {
        forall i | 0 <= i < |fs|
          ensures CarriesAt(parse, left, fs, es, i)
        {
          CarriesAtTail(parse, pending, frames, eventFirst, i + 1);
        }
        assert CarriesAt(parse, pending, frames, eventFirst, 0);
      }
    }
  }

  function FreshReader<D>(): Reader<D> {
    Reader("", "", None, [])
  }

  /** Both ways through a whole text of frames, cut into chunks in any way. */
  lemma StreamBothWays<D>(parse: string -> Option<D>, frames: seq<Frame>, eventFirst: seq<bool>, chunks: seq<string>)
    requires GoodFrames(frames) && |frames| == |eventFirst|
    requires chunks != [] && Concat(chunks) == Lines(AllLines(frames, eventFirst))
    ensures var r, st := OnChunks(parse, FreshReader(), chunks), Interpret(Lines(AllLines(frames, eventFirst)));
      && r.buffer == ""
      && r.dispatched == Dispatches(parse, "", frames, eventFirst)
      && Deliver(parse, st.events) == Deliveries(parse, frames)
      && ReaderId(r.lastEventId) == st.lastId == LastId(frames, "")
      && (AllTrue(eventFirst) ==> r.currentEvent == "")
  {
    var lines := AllLines(frames, eventFirst);
    var text := Lines(lines);
    var start: Reader<D> := FreshReader();
    ChunkingIrrelevant(parse, start, chunks);
    FramesSingleLines(frames, eventFirst);
    SplitLines(lines);
    SameSplit(text);
    assert start.buffer + text == text;
    assert (lines + [""])[..|lines|] == lines;
    CodeStream(parse, start, frames, eventFirst);
    StdStream(parse, Idle, frames, eventFirst);
    assert start.dispatched + Dispatches(parse, "", frames, eventFirst) == Dispatches(parse, "", frames, eventFirst);
    assert Deliver(parse, Idle.events) + Deliveries(parse, frames) == Deliveries(parse, frames);
  }

  /**
   The exact condition for a stream of frames, each with one event and one data line in either order,
   cut in any way: the reader delivers what the standard delivers if and only if every frame whose data
   parses has its event line first, or finds its own event name left pending by a data-first frame.
   */
  lemma StreamMeetsStandardIff<D>(parse: string -> Option<D>, frames: seq<Frame>, eventFirst: seq<bool>, chunks: seq<string>)
    requires GoodFrames(frames) && |frames| == |eventFirst|
    requires chunks != [] && Concat(chunks) == Lines(AllLines(frames, eventFirst))
    ensures OnChunks(parse, FreshReader(), chunks).dispatched == Deliver(parse, Interpret(Lines(AllLines(frames, eventFirst))).events)
       <==> forall i :: 0 <= i < |frames| ==> CarriesAt(parse, "", frames, eventFirst, i)
  {
    StreamBothWays(parse, frames, eventFirst, chunks);
    SameDeliveriesIff(parse, "", frames, eventFirst);
    NamesCarryAt(parse, "", frames, eventFirst);
  }

  /** Where all data parses: if and only if every event line comes first. */
  lemma EventLinesMustComeFirst<D>(parse: string -> Option<D>, frames: seq<Frame>, eventFirst: seq<bool>, chunks: seq<string>)
    requires GoodFrames(frames) && |frames| == |eventFirst|
    requires forall i :: 0 <= i < |frames| ==> parse(frames[i].data).Some?
    requires chunks != [] && Concat(chunks) == Lines(AllLines(frames, eventFirst))
    ensures OnChunks(parse, FreshReader(), chunks).dispatched == Deliver(parse, Interpret(Lines(AllLines(frames, eventFirst))).events)
       <==> AllTrue(eventFirst)
  {
    StreamMeetsStandardIff(parse, frames, eventFirst, chunks);
    if forall i :: 0 <= i < |frames| ==> CarriesAt(parse, "", frames, eventFirst, i) {
      AllFirst(parse, frames, eventFirst, |frames|);
    }
  }

  lemma {:induction false} AllFirst<D>(parse: string -> Option<D>, frames: seq<Frame>, eventFirst: seq<bool>, n: nat)
    requires n <= |frames| == |eventFirst| && GoodFrames(frames)
    requires forall i :: 0 <= i < |frames| ==> parse(frames[i].data).Some? && CarriesAt(parse, "", frames, eventFirst, i)
    ensures forall i :: 0 <= i < n ==> eventFirst[i]
  {
    if n > 0 {
      AllFirst(parse, frames, eventFirst, n - 1);
      assert GoodFrame(frames[n - 1]);
      assert CarriesAt(parse, "", frames, eventFirst, n - 1);
    }
  }

  /** The reader has delivered what the standard's events say, and remembers the same id. */
  ghost predicate Agree<D>(parse: string -> Option<D>, r: Reader<D>, st: Interpreter) {
    && st.data == "" && st.eventType == "" && r.currentEvent == ""
    && r.dispatched == Deliver(parse, st.events)
    && st.lastId == st.idBuffer == ReaderId(r.lastEventId)
  }

  /**
   On any stream of frames with one event line followed by one data line, cut into chunks in any
   way, the reader delivers the standard's events whose data parses, in order, and remembers the
   same last event id.
   */
  lemma FramesMeetStandard<D>(parse: string -> Option<D>, frames: seq<Frame>, eventFirst: seq<bool>, chunks: seq<string>)
    requires GoodFrames(frames) && |frames| == |eventFirst| && AllTrue(eventFirst)
    requires chunks != [] && Concat(chunks) == Lines(AllLines(frames, eventFirst))
    ensures var r := OnChunks(parse, FreshReader(), chunks);
      Agree(parse, r, Interpret(Lines(AllLines(frames, eventFirst)))) && r.buffer == ""
  {
    StreamBothWays(parse, frames, eventFirst, chunks);
    StreamMeetsStandardIff(parse, frames, eventFirst, chunks);
    InterpretEnds(parse, frames, eventFirst);
  }

  lemma InterpretEnds<D>(parse: string -> Option<D>, frames: seq<Frame>, eventFirst: seq<bool>)
    requires GoodFrames(frames) && |frames| == |eventFirst|
    ensures var st := Interpret(Lines(AllLines(frames, eventFirst)));
      st.data == "" && st.eventType == "" && st.lastId == st.idBuffer
  {
    var lines := AllLines(frames, eventFirst);
    FramesSingleLines(frames, eventFirst);
    SplitLines(lines);
    SameSplit(Lines(lines));
    assert (lines + [""])[..|lines|] == lines;
    StdStream(parse, Idle, frames, eventFirst);
  }

  /** For one frame whose data parses, the two agree exactly when the event line comes first. */
  lemma EventLineMustComeFirst<D>(parse: string -> Option<D>, f: Frame, eventFirst: bool)
    requires GoodFrame(f) && parse(f.data).Some?
    ensures var text := Lines(FrameLines(f, eventFirst));
      OnChunk(parse, FreshReader(), text).dispatched == Deliver(parse, Interpret(text).events) <==> eventFirst
  {
    var text := Lines(FrameLines(f, eventFirst));
    assert AllLines([f], [eventFirst]) == FrameLines(f, eventFirst) by {
      assert [f][1..] == [] && [eventFirst][1..] == [];
      assert FrameLines(f, eventFirst) + [] == FrameLines(f, eventFirst);
    }
    assert Concat([text]) == text by {
      assert [text][1..] == [] && text + "" == text;
    }
    EventLinesMustComeFirst(parse, [f], [eventFirst], [text]);
    ChunkingIrrelevant(parse, FreshReader(), [text]);
    assert AllTrue([eventFirst]) <==> [eventFirst][0];
  }
}
