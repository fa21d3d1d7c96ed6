/** The server-sent event framing of the chat stream: the server's printer and the client's
    incremental reader (sections 9.2.5 and 9.2.6 of the WHATWG HTML standard). */
module SseStream {
  import opened Options
  import opened Text

  /** An event as it crosses the wire: its name and its payload text. */
  datatype Event = Event(name: string, data: string)

  /** Everything the client does while it reads: the events handed to the handlers, the last final
      event, and the error it stops with. */
  datatype Reader = Reader(handled: seq<Event>, final: Option<Event>, failure: Option<string>)

  const START := Reader([], None, None)

  // -- The printer --

  function Frame(e: Event): string
  {
    "event: " + e.name + "\ndata: " + e.data + "\n\n"
  }

  function Frames(es: seq<Event>): string
  {
    if es == [] then "" else Frame(es[0]) + Frames(es[1..])
  }

  // -- One block --

  datatype Fields = Fields(name: string, dataLines: seq<string>)

  /** The first `c` in `s` at or after `i`, or -1. */
  function IndexOf(s: string, c: char, i: nat): (k: int)
    requires i <= |s|
    ensures k == -1 || i <= k < |s|
    ensures k >= 0 ==> s[k] == c
    ensures forall j :: i <= j < (if k < 0 then |s| else k) ==> s[j] != c
    decreases |s| - i
  {
    if i == |s| then -1 else if s[i] == c then i else IndexOf(s, c, i + 1)
  }

  /** A line without the carriage return before its line feed. */
  function DropCr(line: string): string
  {
    if line != "" && line[|line| - 1] == '\r' then line[..|line| - 1] else line
  }

  /** `block.split(/\r?\n/)`. */
  function SplitBlock(block: string): seq<string>
    decreases |block|
  {
    var k := IndexOf(block, '\n', 0);
    if k < 0 then [block] else [DropCr(block[..k])] + SplitBlock(block[k + 1..])
  }

  function FieldOf(line: string): string
  {
    var k := IndexOf(line, ':', 0);
    if k < 0 then line else line[..k]
  }

  function ValueOf(line: string): string
  {
    var k := IndexOf(line, ':', 0);
    var value := if k < 0 then "" else line[k + 1..];
    if " " <= value then value[1..] else value
  }

  function ReadLine(f: Fields, line: string): Fields
  {
    if line == "" || ":" <= line then f
    else if FieldOf(line) == "event" then f.(name := ValueOf(line))
    else if FieldOf(line) == "data" then f.(dataLines := f.dataLines + [ValueOf(line)])
    else f
  }

  function ReadLines(f: Fields, lines: seq<string>): Fields
    decreases |lines|
  {
    if lines == [] then f else ReadLines(ReadLine(f, lines[0]), lines[1..])
  }

  /** The event of a block of lines, if it has a name or data. */
  function ParseBlock(block: string): Option<Event>
  {
    var f := ReadLines(Fields("", []), SplitBlock(block));
    if f.name == "" && f.dataLines == [] then None
    else Some(Event(f.name, if Join("\n", f.dataLines) == "" then "{}" else Join("\n", f.dataLines)))
  }

  lemma {:induction false} ReadNext(f: Fields, lines: seq<string>, i: nat)
    requires i < |lines|
    ensures ReadLines(f, lines[i..]) == ReadLines(ReadLine(f, lines[i]), lines[i + 1..])
  {
    assert lines[i..][1..] == lines[i + 1..];
  }

  method ParseSseBlock(block: string) returns (event: Option<Event>)
    ensures event == ParseBlock(block)
  {
    var lines := SplitBlock(block);
    var eventName := "";
    var dataLines: seq<string> := [];
    for i := 0 to |lines|
      invariant ReadLines(Fields("", []), lines) == ReadLines(Fields(eventName, dataLines), lines[i..])
    {
      var rawLine := lines[i];
      ReadNext(Fields(eventName, dataLines), lines, i);
      if !(rawLine == "" || ":" <= rawLine) {
        var separatorIndex := IndexOf(rawLine, ':', 0);
        var field := if separatorIndex == -1 then rawLine else rawLine[..separatorIndex];
        var value := if separatorIndex == -1 then "" else rawLine[separatorIndex + 1..];
        if " " <= value {
          value := value[1..];
        }
        if field == "event" {
          eventName := value;
        }
        if field == "data" {
          dataLines := dataLines + [value];
        }
      }
    }
    if eventName == "" && dataLines == [] {
      return None;
    }
    var data := Join("\n", dataLines);
    return Some(Event(eventName, if data == "" then "{}" else data));
  }

  // -- Handling --

  /** The payload readers, as a test: a payload that is not a JSON object of the shape its event
      needs, or an unknown event name, ends the stream with an error. */
  type PayloadTest = Event -> bool

  function HandleEvent(accepts: PayloadTest, r: Reader, e: Event): Reader
  {
    if r.failure.Some? then r
    else if !accepts(e) then r.(failure := Some("malformed event"))
    else
      var seen := r.(handled := r.handled + [e]);
      if e.name == "error" then seen.(failure := Some("stream error"))
      else if e.name == "final" then seen.(final := Some(e))
      else seen
  }

  function HandleBlock(accepts: PayloadTest, r: Reader, block: string): Reader
  {
    match ParseBlock(block)
    case None => r
    case Some(e) => HandleEvent(accepts, r, e)
  }

  /** The first blank line in `s` at or after `i`: the index of `\n\n`, or -1. */
  function Separator(s: string, i: nat): (k: int)
    requires i <= |s|
    ensures k == -1 || (i <= k && k + 1 < |s|)
    decreases |s| - i
  {
    if i + 1 >= |s| then -1
    else if s[i] == '\n' && s[i + 1] == '\n' then i
    else Separator(s, i + 1)
  }

  datatype Drained = Drained(reader: Reader, rest: string)

  /** Handles every complete block at the front of the buffer. */
  function Drain(accepts: PayloadTest, r: Reader, buffer: string): Drained
    decreases |buffer|
  {
    var k := Separator(buffer, 0);
    if k < 0 then Drained(r, buffer)
    else Drain(accepts, HandleBlock(accepts, r, buffer[..k]), buffer[k + 2..])
  }

  /** The end of the stream: a last block without its blank line still counts, and a stream without
      a final event is an error. */
  function Finish(accepts: PayloadTest, d: Drained): Reader
  {
    if d.reader.failure.Some? then d.reader
    else
      var r := if IsJsBlank(d.rest) then d.reader else HandleBlock(accepts, d.reader, d.rest);
      if r.failure.None? && r.final.None? then r.(failure := Some("Chat stream ended before final event")) else r
  }

  /** The meaning of a whole response text, read at once. */
  function ReadText(accepts: PayloadTest, text: string): Reader
  {
    Finish(accepts, Drain(accepts, START, text))
  }

  // -- The incremental reader --

  method ConsumeSseBuffer(accepts: PayloadTest, buffer: string, r: Reader) returns (remaining: string, next: Reader)
    requires r.failure.None?
    ensures next.failure.None? ==> Drained(next, remaining) == Drain(accepts, r, buffer)
    ensures next.failure.Some? ==> next == Drain(accepts, r, buffer).reader
  {
    remaining, next := buffer, r;
    while true
      invariant next.failure.None?
      invariant Drain(accepts, r, buffer) == Drain(accepts, next, remaining)
      decreases |remaining|
    {
      var separatorIndex := Separator(remaining, 0);
      if separatorIndex == -1 {
        break;
      }
      var block := remaining[..separatorIndex];
      remaining := remaining[separatorIndex + 2..];
      var event := ParseSseBlock(block);
      if event.Some? {
        next := HandleEvent(accepts, next, event.value);
        if next.failure.Some? {
          StoppedReaderIgnores(accepts, next, remaining);
          return;
        }
      }
    }
  }

  /** Reads the response in the pieces in which it arrives. The result does not depend on them. */
  method ReadChatStream(accepts: PayloadTest, chunks: seq<string>) returns (r: Reader)
    ensures r == ReadText(accepts, Concat(chunks))
  {
    r := START;
    var buffer := "";
    for n := 0 to |chunks|
      invariant r.failure.None?
      invariant Drained(r, buffer) == Drain(accepts, START, Concat(chunks[..n]))
    {
      ChunkStep(accepts, chunks, n);
      buffer := buffer + chunks[n];
      buffer, r := ConsumeSseBuffer(accepts, buffer, r);
      if r.failure.Some? {
        StoppedEarly(accepts, chunks, n + 1);
        return;
      }
    }
    assert chunks[..|chunks|] == chunks;
    if !IsJsBlank(buffer) {
      var event := ParseSseBlock(buffer);
      if event.Some? {
        r := HandleEvent(accepts, r, event.value);
        if r.failure.Some? {
          return;
        }
      }
    }
    if r.final == None {
      r := r.(failure := Some("Chat stream ended before final event"));
    }
  }

  // -- Independence of the chunking --

  lemma {:induction false} StoppedReaderIgnores(accepts: PayloadTest, r: Reader, buffer: string)
    requires r.failure.Some?
    ensures Drain(accepts, r, buffer).reader == r
    decreases |buffer|
  {
    var k := Separator(buffer, 0);
    if k >= 0 {
      StoppedReaderIgnores(accepts, r, buffer[k + 2..]);
    }
  }

  lemma {:induction false} SeparatorStable(a: string, b: string, i: nat)
    requires i <= |a| && Separator(a, i) >= 0
    ensures Separator(a + b, i) == Separator(a, i)
    decreases |a| - i
  {
    assert (a + b)[i] == a[i] && (a + b)[i + 1] == a[i + 1];
    if !(a[i] == '\n' && a[i + 1] == '\n') {
      SeparatorStable(a, b, i + 1);
    }
  }

  /** Draining in two steps is draining at once: complete blocks stay where they are when more text
      arrives, and an incomplete one waits in the rest. */
  lemma {:induction false} DrainAppend(accepts: PayloadTest, r: Reader, a: string, b: string)
    ensures var d := Drain(accepts, r, a);
            Drain(accepts, r, a + b) == Drain(accepts, d.reader, d.rest + b)
    decreases |a|
  {
    var k := Separator(a, 0);
    if k >= 0 {
      SeparatorStable(a, b, 0);
      assert (a + b)[..k] == a[..k];
      assert (a + b)[k + 2..] == a[k + 2..] + b;
      DrainAppend(accepts, HandleBlock(accepts, r, a[..k]), a[k + 2..], b);
    }
  }

  lemma {:induction false} ChunkStep(accepts: PayloadTest, chunks: seq<string>, n: nat)
    requires n < |chunks|
    ensures var d := Drain(accepts, START, Concat(chunks[..n]));
            Drain(accepts, START, Concat(chunks[..n + 1])) == Drain(accepts, d.reader, d.rest + chunks[n])
  {
    ConcatSnoc(chunks[..n], chunks[n]);
    assert chunks[..n + 1] == chunks[..n] + [chunks[n]];
    DrainAppend(accepts, START, Concat(chunks[..n]), chunks[n]);
  }

  lemma {:induction false} StoppedEarly(accepts: PayloadTest, chunks: seq<string>, n: nat)
    requires n <= |chunks|
    requires Drain(accepts, START, Concat(chunks[..n])).reader.failure.Some?
    ensures ReadText(accepts, Concat(chunks)) == Drain(accepts, START, Concat(chunks[..n])).reader
  {
    var a, b := Concat(chunks[..n]), Concat(chunks[n..]);
    ConcatAppend(chunks[..n], chunks[n..]);
    assert chunks == chunks[..n] + chunks[n..];
    DrainAppend(accepts, START, a, b);
    var d := Drain(accepts, START, a);
    StoppedReaderIgnores(accepts, d.reader, d.rest + b);
  }

  // -- The reader inverts the printer --

  /** What the printer sends: a name without separators and payload text of one line, not empty. */
  predicate OneLine(e: Event)
  {
    && e.name != "" && '\n' !in e.name && '\r' !in e.name
    && e.data != "" && '\n' !in e.data
  }

  function HandleAll(accepts: PayloadTest, r: Reader, es: seq<Event>): Reader
    decreases |es|
  {
    if es == [] then r else HandleAll(accepts, HandleEvent(accepts, r, es[0]), es[1..])
  }

  function FrameBody(e: Event): string
  {
    "event: " + e.name + "\ndata: " + e.data
  }

  lemma {:induction false} ValueAfterLabel(field: string, value: string)
    requires field != "" && ':' !in field
    ensures var line := field + ": " + value;
            FieldOf(line) == field && ValueOf(line) == value && line != "" && !(":" <= line)
  {
    var line := field + ": " + value;
    assert line[|field|] == ':';
    assert forall j :: 0 <= j < |field| ==> line[j] == field[j];
    assert IndexOf(line, ':', 0) == |field|;
    assert line[|field| + 1..] == " " + value;
    assert (" " + value)[1..] == value;
  }

  lemma {:induction false} FirstLine(first: string, rest: string)
    requires '\n' !in first && '\r' !in first
    ensures SplitBlock(first + "\n" + rest) == [first] + SplitBlock(rest)
  {
    var b := first + "\n" + rest;
    assert b[|first|] == '\n';
    assert forall j :: 0 <= j < |first| ==> b[j] == first[j];
    assert IndexOf(b, '\n', 0) == |first|;
    assert b[..|first|] == first;
    assert b[|first| + 1..] == rest;
  }

  lemma {:induction false} BodyIsTwoLines(e: Event)
    ensures FrameBody(e) == "event" + ": " + e.name + "\n" + ("data" + ": " + e.data)
  {
    assert "event: " == "event" + ": " && "\ndata: " == "\n" + ("data" + ": ");
  }

  lemma {:induction false} LabelHasNoBreak(tag: string, value: string)
    requires '\n' !in tag && '\n' !in value
    ensures '\n' !in tag + ": " + value
    ensures '\r' !in tag && '\r' !in value ==> '\r' !in tag + ": " + value
    ensures SplitBlock(tag + ": " + value) == [tag + ": " + value]
  {
    var line := tag + ": " + value;
    assert IndexOf(line, '\n', 0) == -1;
  }

  lemma {:induction false} BodySplits(e: Event)
    requires OneLine(e)
    ensures SplitBlock(FrameBody(e)) == ["event" + ": " + e.name] + ["data" + ": " + e.data]
  {
    BodyIsTwoLines(e);
    LabelHasNoBreak("event", e.name);
    LabelHasNoBreak("data", e.data);
    FirstLine("event" + ": " + e.name, "data" + ": " + e.data);
  }

  lemma {:induction false} FieldsMakeEvent(block: string, e: Event)
    requires OneLine(e) && ReadLines(Fields("", []), SplitBlock(block)) == Fields(e.name, [e.data])
    ensures ParseBlock(block) == Some(e)
  {
    assert Join("\n", [e.data]) == e.data;
  }

  lemma {:induction false} FrameParses(e: Event)
    requires OneLine(e)
    ensures ParseBlock(FrameBody(e)) == Some(e)
  {
    BodySplits(e);
    ReadsTwoLines(e, "event" + ": " + e.name, "data" + ": " + e.data);
    FieldsMakeEvent(FrameBody(e), e);
  }

  lemma {:induction false} ReadsTwoLines(e: Event, l1: string, l2: string)
    requires l1 == "event" + ": " + e.name && l2 == "data" + ": " + e.data
    ensures ReadLines(Fields("", []), [l1] + [l2]) == Fields(e.name, [e.data])
  {
    var f1, f2 := Fields(e.name, []), Fields(e.name, [e.data]);
    var lines := [l1] + [l2];
    assert ReadLine(Fields("", []), l1) == f1 by {
      ValueAfterLabel("event", e.name);
    }
    assert ReadLine(f1, l2) == f2 by {
      ValueAfterLabel("data", e.data);
      assert [] + [e.data] == [e.data];
    }
    assert lines[1..] == [l2] && [l2][1..] == [];
    assert ReadLines(f2, []) == f2;
    assert ReadLines(f1, [l2]) == f2;
  }

  lemma {:induction false} NoSeparatorBefore(s: string, i: nat, k: nat)
    requires i <= k && k + 1 < |s| && s[k] == '\n' && s[k + 1] == '\n'
    requires forall j :: i <= j < k ==> !(s[j] == '\n' && s[j + 1] == '\n')
    ensures Separator(s, i) == k
    decreases k - i
  {
    if i < k {
      NoSeparatorBefore(s, i + 1, k);
    }
  }

  lemma {:induction false} FrameEnds(e: Event, rest: string)
    requires OneLine(e)
    ensures Separator(Frame(e) + rest, 0) == |FrameBody(e)|
    ensures (Frame(e) + rest)[..|FrameBody(e)|] == FrameBody(e)
    ensures (Frame(e) + rest)[|FrameBody(e)| + 2..] == rest
  {
    var body, s := FrameBody(e), Frame(e) + rest;
    assert s == body + "\n\n" + rest;
    assert s[..|body|] == body && s[|body| + 2..] == rest;
    assert s[|body|] == '\n' && s[|body| + 1] == '\n';
    BodyHasNoSeparator(e);
    forall j | 0 <= j < |body|
      ensures !(s[j] == '\n' && s[j + 1] == '\n')
    {
      assert s[j] == body[j];
      if j + 1 < |body| {
        assert s[j + 1] == body[j + 1];
      } else {
        assert body[j] == e.data[|e.data| - 1];
      }
    }
    NoSeparatorBefore(s, 0, |body|);
  }

  lemma {:induction false} BodyHasNoSeparator(e: Event)
    requires OneLine(e)
    ensures var body := FrameBody(e);
            forall j :: 0 <= j < |body| - 1 ==> !(body[j] == '\n' && body[j + 1] == '\n')
  {
    var body := FrameBody(e);
    var m := 7 + |e.name|;
    assert body == ("event: " + e.name) + ("\ndata: " + e.data);
    forall j | 0 <= j < |body| - 1
      ensures !(body[j] == '\n' && body[j + 1] == '\n')
    {
      if j < m {
        assert body[j] == ("event: " + e.name)[j];
        assert j >= 7 ==> body[j] == e.name[j - 7];
      } else {
        assert body[j + 1] == ("\ndata: " + e.data)[j + 1 - m];
        assert j + 1 >= m + 7 ==> body[j + 1] == e.data[j + 1 - m - 7];
      }
    }
  }

  /** The frames of a list of events are handled as those events, in order, with nothing left over. */
  lemma {:induction false} DrainInvertsFrames(accepts: PayloadTest, r: Reader, es: seq<Event>)
    requires forall k :: 0 <= k < |es| ==> OneLine(es[k])
    ensures Drain(accepts, r, Frames(es)) == Drained(HandleAll(accepts, r, es), "")
    decreases |es|
  {
    if es != [] {
      FrameEnds(es[0], Frames(es[1..]));
      FrameParses(es[0]);
      DrainInvertsFrames(accepts, HandleEvent(accepts, r, es[0]), es[1..]);
    }
  }

  /** Accepted events without an error among them are all handled, and the last final one counts. */
  lemma {:induction false} AllHandled(accepts: PayloadTest, r: Reader, es: seq<Event>)
    requires r.failure.None?
    requires forall k :: 0 <= k < |es| ==> accepts(es[k]) && es[k].name != "error"
    ensures var s := HandleAll(accepts, r, es);
            && s.handled == r.handled + es && s.failure.None?
            && (es != [] && es[|es| - 1].name == "final" ==> s.final == Some(es[|es| - 1]))
    decreases |es|
  {
    if es != [] {
      var s := HandleEvent(accepts, r, es[0]);
      AllHandled(accepts, s, es[1..]);
      assert r.handled + es == (r.handled + [es[0]]) + es[1..];
    }
  }

  lemma {:induction false} HandleAllAppend(accepts: PayloadTest, r: Reader, a: seq<Event>, b: seq<Event>)
    ensures HandleAll(accepts, r, a + b) == HandleAll(accepts, HandleAll(accepts, r, a), b)
    decreases |a|
  {
    if a == [] {
      assert a + b == b;
    } else {
      assert (a + b)[1..] == a[1..] + b;
      HandleAllAppend(accepts, HandleEvent(accepts, r, a[0]), a[1..], b);
    }
  }

  /** End to end: a stream of accepted events that closes with its only final or error event is
      received as sent, however its text is cut on the way. A final event becomes the result; an
      error event is handed over and then ends the stream with an error. */
  lemma {:induction false} StreamArrivesAsSent(accepts: PayloadTest, body: seq<Event>, last: Event, chunks: seq<string>)
    requires forall k :: 0 <= k < |body| ==> OneLine(body[k]) && accepts(body[k]) && body[k].name != "error"
    requires OneLine(last) && accepts(last) && last.name in {"final", "error"}
    requires Concat(chunks) == Frames(body + [last])
    ensures var r := ReadText(accepts, Concat(chunks));
            && r.handled == body + [last]
            && (last.name == "final" ==> r.failure.None? && r.final == Some(last))
            && (last.name == "error" ==> r.failure == Some("stream error"))
  {
    var es := body + [last];
    DrainInvertsFrames(accepts, START, es);
    AllHandled(accepts, START, body);
    HandleAllAppend(accepts, START, body, [last]);
    var r := HandleAll(accepts, START, body);
    assert HandleAll(accepts, r, [last]) == HandleEvent(accepts, r, last);
  }
}
