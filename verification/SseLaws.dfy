/** What the client makes of a response text: of every way to write a block, and of every list of events. */
module SseLaws {
  import opened Options
  import opened SseStream
  import opened Text

  // -- Every way to write a block --

  /** A line of a block: empty, a comment, a field with a value behind a colon, with or without a space in
      front of the value, or a field name alone. */
  datatype Item = Empty | Comment(text: string) | Field(name: string, spaced: bool, value: string) | Bare(name: string)

  predicate IsItem(item: Item)
  {
    match item
    case Empty => true
    case Comment(_) => true
    case Field(name, spaced, value) => name != "" && ':' !in name && (spaced || value == "" || value[0] != ' ')
    case Bare(name) => name != "" && ':' !in name
  }

  function LineOf(item: Item): string
  {
    match item
    case Empty => ""
    case Comment(text) => ":" + text
    case Field(name, spaced, value) => name + (if spaced then ": " else ":") + value
    case Bare(name) => name
  }

  /** The value of the field, if the item is one of that name; a name alone has an empty value. */
  function ValueIn(item: Item, name: string): Option<string>
  {
    match item
    case Field(n, _, value) => if n == name then Some(value) else None
    case Bare(n) => if n == name then Some("") else None
    case _ => None
  }

  /** The last event name, or none. */
  function NameIn(items: seq<Item>): string
  {
    if items == [] then ""
    else
      var last := ValueIn(items[|items| - 1], "event");
      if last.Some? then last.value else NameIn(items[..|items| - 1])
  }

  function DataIn(items: seq<Item>): seq<string>
  {
    if items == [] then []
    else
      var before, last := DataIn(items[..|items| - 1]), ValueIn(items[|items| - 1], "data");
      if last.Some? then before + [last.value] else before
  }

  function LinesOf(items: seq<Item>): seq<string>
  {
    if items == [] then [] else LinesOf(items[..|items| - 1]) + [LineOf(items[|items| - 1])]
  }

  lemma {:induction false} FieldReads(name: string, spaced: bool, value: string)
    requires IsItem(Field(name, spaced, value))
    ensures var line := LineOf(Field(name, spaced, value));
            FieldOf(line) == name && ValueOf(line) == value && line != "" && !(":" <= line)
  {
    var line := LineOf(Field(name, spaced, value));
    assert forall j :: 0 <= j < |name| ==> line[j] == name[j];
    assert line[|name|] == ':' && IndexOf(line, ':', 0) == |name|;
    assert line[|name| + 1..] == (if spaced then " " else "") + value;
    assert (" " + value)[1..] == value && "" + value == value;
  }

  lemma {:induction false} BareReads(name: string)
    requires IsItem(Bare(name))
    ensures FieldOf(name) == name && ValueOf(name) == "" && name != "" && !(":" <= name)
  {
    assert IndexOf(name, ':', 0) == -1;
  }

  lemma {:induction false} ItemReads(f: Fields, item: Item)
    requires IsItem(item)
    ensures var name, data := ValueIn(item, "event"), ValueIn(item, "data");
            ReadLine(f, LineOf(item))
            == Fields(if name.Some? then name.value else f.name,
                      if data.Some? then f.dataLines + [data.value] else f.dataLines)
  {
    assert "event" != "data" by {
      assert |"event"| == 5 && |"data"| == 4;
    }
    match item {
      case Empty =>
      case Comment(text) =>
        assert ":" <= ":" + text;
      case Field(name, spaced, value) =>
        FieldReads(name, spaced, value);
      case Bare(name) =>
        BareReads(name);
    }
  }

  lemma {:induction false} ReadLinesSnoc(f: Fields, lines: seq<string>, line: string)
    ensures ReadLines(f, lines + [line]) == ReadLine(ReadLines(f, lines), line)
    decreases |lines|
  {
    if lines == [] {
      assert [] + [line] == [line] && [line][1..] == [];
    } else {
      assert (lines + [line])[1..] == lines[1..] + [line];
      ReadLinesSnoc(ReadLine(f, lines[0]), lines[1..], line);
    }
  }

  lemma {:induction false} ItemsRead(items: seq<Item>)
    requires forall k :: 0 <= k < |items| ==> IsItem(items[k])
    ensures ReadLines(Fields("", []), LinesOf(items)) == Fields(NameIn(items), DataIn(items))
  {
    if items != [] {
      var before, item := items[..|items| - 1], items[|items| - 1];
      ItemsRead(before);
      ReadLinesSnoc(Fields("", []), LinesOf(before), LineOf(item));
      ItemReads(Fields(NameIn(before), DataIn(before)), item);
    }
  }

  // -- Line breaks --

  /** The lines with a line feed, or a carriage return and a line feed, after each but the last. */
  function Block(lines: seq<string>, crs: seq<bool>): string
    requires |crs| == |lines| > 0
  {
    if |lines| == 1 then lines[0]
    else lines[0] + (if crs[0] then "\r\n" else "\n") + Block(lines[1..], crs[1..])
  }

  /** No line feed inside a line, and no carriage return at its end. */
  predicate IsLine(line: string)
  {
    '\n' !in line && (line != "" ==> line[|line| - 1] != '\r')
  }

  lemma {:induction false} LineSplitsOff(line: string, cr: bool, rest: string)
    requires IsLine(line)
    ensures SplitBlock(line + (if cr then "\r\n" else "\n") + rest) == [line] + SplitBlock(rest)
  {
    var front := if cr then line + "\r" else line;
    var block := line + (if cr then "\r\n" else "\n") + rest;
    assert block == front + "\n" + rest;
    assert block[|front|] == '\n' && forall j :: 0 <= j < |front| ==> block[j] == front[j];
    assert IndexOf(block, '\n', 0) == |front|;
    assert block[..|front|] == front && block[|front| + 1..] == rest;
    assert DropCr(front) == line by {
      if cr {
        assert front[..|front| - 1] == line;
      }
    }
  }

  lemma {:induction false} BlockSplits(lines: seq<string>, crs: seq<bool>)
    requires |crs| == |lines| > 0 && forall k :: 0 <= k < |lines| ==> IsLine(lines[k])
    ensures SplitBlock(Block(lines, crs)) == lines
  {
    if |lines| > 1 {
      BlockSplits(lines[1..], crs[1..]);
      LineSplitsOff(lines[0], crs[0], Block(lines[1..], crs[1..]));
    } else {
      assert IsLine(lines[0]) && IndexOf(lines[0], '\n', 0) == -1;
    }
  }

  /** However a block is written, its event has the last event name and the data lines joined, `{}` if they
      hold nothing; a block without either has no event. */
  lemma {:induction false} BlockReads(items: seq<Item>, crs: seq<bool>)
    requires |crs| == |LinesOf(items)| > 0
    requires forall k :: 0 <= k < |items| ==> IsItem(items[k])
    requires forall k :: 0 <= k < |LinesOf(items)| ==> IsLine(LinesOf(items)[k])
    ensures var name, data := NameIn(items), Join("\n", DataIn(items));
            ParseBlock(Block(LinesOf(items), crs))
            == if |name| == 0 && |DataIn(items)| == 0 then None
               else Some(Event(name, if |data| == 0 then "{}" else data))
  {
    BlockSplits(LinesOf(items), crs);
    ItemsRead(items);
  }

  // -- Every list of events --

  /** The first event that stops the reader: one it does not accept, or an error. */
  function FirstStop(accepts: PayloadTest, es: seq<Event>): (k: nat)
    ensures k <= |es|
    ensures forall j :: 0 <= j < k ==> accepts(es[j]) && es[j].name != "error"
    ensures k < |es| ==> !accepts(es[k]) || es[k].name == "error"
  {
    if es == [] then 0
    else if !accepts(es[0]) || es[0].name == "error" then 0
    else
      var k := FirstStop(accepts, es[1..]);
      assert forall j :: 0 < j < 1 + k ==> es[j] == es[1..][j - 1];
      1 + k
  }

  /** The last final event. */
  function LastFinal(es: seq<Event>): (final: Option<Event>)
  {
    if es == [] then None
    else if es[|es| - 1].name == "final" then Some(es[|es| - 1])
    else LastFinal(es[..|es| - 1])
  }

  lemma {:induction false} LastFinalIsLast(es: seq<Event>)
    ensures LastFinal(es).None? <==> forall k :: 0 <= k < |es| ==> es[k].name != "final"
    ensures LastFinal(es).Some? ==>
      exists k :: 0 <= k < |es| && es[k] == LastFinal(es).value && es[k].name == "final"
                  && forall j :: k < j < |es| ==> es[j].name != "final"
  {
    if es != [] {
      var n := |es| - 1;
      LastFinalIsLast(es[..n]);
      if es[n].name == "final" {
        assert es[n] == LastFinal(es).value;
      } else if LastFinal(es).Some? {
        var k :| 0 <= k < n && es[..n][k] == LastFinal(es).value && es[..n][k].name == "final"
                 && forall j :: k < j < n ==> es[..n][j].name != "final";
        assert es[k] == LastFinal(es).value;
        assert forall j :: k < j < n ==> es[..n][j] == es[j];
      } else {
        assert forall k :: 0 <= k < n ==> es[k] == es[..n][k];
      }
    }
  }

  lemma {:induction false} HandleSnoc(accepts: PayloadTest, r: Reader, es: seq<Event>, e: Event)
    ensures HandleAll(accepts, r, es + [e]) == HandleEvent(accepts, HandleAll(accepts, r, es), e)
  {
    HandleAllAppend(accepts, r, es, [e]);
    var s := HandleAll(accepts, r, es);
    assert HandleAll(accepts, s, [e]) == HandleAll(accepts, HandleEvent(accepts, s, e), []);
  }

  /** The reader after events none of which stops it. */
  lemma {:induction false} HandledUnstopped(accepts: PayloadTest, es: seq<Event>)
    requires forall k :: 0 <= k < |es| ==> accepts(es[k]) && es[k].name != "error"
    ensures HandleAll(accepts, START, es) == Reader(es, LastFinal(es), None)
  {
    if es != [] {
      var before, e := es[..|es| - 1], es[|es| - 1];
      HandledUnstopped(accepts, before);
      assert es == before + [e];
      HandleSnoc(accepts, START, before, e);
    }
  }

  lemma {:induction false} StoppedStays(accepts: PayloadTest, r: Reader, es: seq<Event>)
    requires r.failure.Some?
    ensures HandleAll(accepts, r, es) == r
    decreases |es|
  {
    if es != [] {
      StoppedStays(accepts, r, es[1..]);
    }
  }

  lemma {:induction false} HandledUpToStop(accepts: PayloadTest, es: seq<Event>, k: nat)
    requires k == FirstStop(accepts, es) < |es|
    ensures var e := es[k];
            HandleAll(accepts, START, es)
            == Reader(es[..k] + (if accepts(e) then [e] else []), LastFinal(es[..k]),
                      Some(if accepts(e) then "stream error" else "malformed event"))
  {
    var before, e, after := es[..k], es[k], es[k + 1..];
    HandledUnstopped(accepts, before);
    HandleSnoc(accepts, START, before, e);
    var r := HandleAll(accepts, START, before + [e]);
    assert es == before + [e] + after;
    HandleAllAppend(accepts, START, before + [e], after);
    StoppedStays(accepts, r, after);
    assert before + [] == before;
  }

  /** The outcome of every list of events: all before the first that stops the reader are handled, and that
      one too if it is an error event; without one all are handled and the last final event is the
      result; and without a final event the stream fails for that. */
  lemma {:induction false} StreamOutcome(accepts: PayloadTest, es: seq<Event>)
    requires forall k :: 0 <= k < |es| ==> OneLine(es[k])
    ensures var r, k := ReadText(accepts, Frames(es)), FirstStop(accepts, es);
            if k < |es| then
              && r.handled == es[..k] + (if accepts(es[k]) then [es[k]] else [])
              && r.failure == Some(if accepts(es[k]) then "stream error" else "malformed event")
            else
              && r.handled == es && r.final == LastFinal(es)
              && r.failure == if LastFinal(es).Some? then None else Some("Chat stream ended before final event")
  {
    DrainInvertsFrames(accepts, START, es);
    var k := FirstStop(accepts, es);
    if k < |es| {
      HandledUpToStop(accepts, es, k);
    } else {
      HandledUnstopped(accepts, es);
    }
  }

  lemma {:induction false} BodyIsIncomplete(e: Event)
    requires OneLine(e)
    ensures Separator(FrameBody(e), 0) < 0 && !IsJsBlank(FrameBody(e))
  {
    BodyHasNoSeparator(e);
    NoSeparator(FrameBody(e), 0);
    assert FrameBody(e)[0] == 'e';
  }

  lemma {:induction false} NoSeparator(s: string, i: nat)
    requires i <= |s| && forall j :: i <= j < |s| - 1 ==> !(s[j] == '\n' && s[j + 1] == '\n')
    ensures Separator(s, i) < 0
    decreases |s| - i
  {
    if i < |s| {
      NoSeparator(s, i + 1);
    }
  }

  /** A last event without its blank line is read as if it had one. */
  lemma {:induction false} LastBlockCounts(accepts: PayloadTest, es: seq<Event>, last: Event)
    requires OneLine(last) && forall k :: 0 <= k < |es| ==> OneLine(es[k])
    ensures ReadText(accepts, Frames(es) + FrameBody(last)) == ReadText(accepts, Frames(es + [last]))
  {
    var r := HandleAll(accepts, START, es);
    DrainInvertsFrames(accepts, START, es);
    DrainAppend(accepts, START, Frames(es), FrameBody(last));
    assert "" + FrameBody(last) == FrameBody(last);
    BodyIsIncomplete(last);
    assert Drain(accepts, START, Frames(es) + FrameBody(last)) == Drained(r, FrameBody(last));
    FrameParses(last);
    DrainInvertsFrames(accepts, START, es + [last]);
    HandleSnoc(accepts, START, es, last);
  }

  lemma {:induction false} FrameText()
    ensures Frame(Event("final", "{}")) == "event: final\ndata: {}\n\n"
  {
  }

  /** Blocks end at the first blank line. */
  lemma {:induction false} SeparatorIsFirst(s: string, i: nat)
    requires i <= |s|
    ensures var k := Separator(s, i);
            && (forall j :: i <= j < (if k < 0 then |s| - 1 else k) ==> !(s[j] == '\n' && s[j + 1] == '\n'))
            && (k >= 0 ==> s[k] == '\n' && s[k + 1] == '\n')
    decreases |s| - i
  {
    if i + 1 < |s| && !(s[i] == '\n' && s[i + 1] == '\n') {
      SeparatorIsFirst(s, i + 1);
    }
  }
}
