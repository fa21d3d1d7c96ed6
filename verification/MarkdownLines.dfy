/** The lines of a document and the scanners that consume runs of them. The three regular
    expressions of the parser are parameters: a heading matcher, a list-item test and a
    table-separator test. */
module MarkdownLines {
  import opened Options
  import opened SectionPath
  import opened Text

  type ValidHeading = h: Heading | h.Valid() witness Heading(1, "")

  datatype Grammar = Grammar(
    headingOf: string -> Option<ValidHeading>,
    isListItem: string -> bool,
    isSeparator: string -> bool)

  datatype Line = Line(start: nat, end: nat, text: string)

  /** The characters at which `str.splitlines` ends a line. */
  predicate IsBreak(c: char)
  {
    || '\n' <= c <= '\r'
    || '\U{1c}' <= c <= '\U{1e}'
    || c == '\U{85}' || c == '\U{2028}' || c == '\U{2029}'
  }

  /** The code points one by one. */
  lemma {:induction false} BreaksOneByOne(c: char)
    ensures IsBreak(c) <==> c as int in {10, 11, 12, 13, 28, 29, 30, 133, 8232, 8233}
  {
  }

  predicate IsCrLf(text: string, k: nat)
  {
    k + 1 < |text| && text[k] == '\r' && text[k + 1] == '\n'
  }

  /** The end of the line of `text` that starts at `i`, terminator included. */
  function LineEnd(text: string, i: nat): (e: nat)
    requires i <= |text|
    ensures i <= e <= |text|
    ensures i < |text| ==> i < e
    decreases |text| - i
  {
    if i == |text| then i
    else if IsCrLf(text, i) then i + 2
    else if IsBreak(text[i]) then i + 1
    else LineEnd(text, i + 1)
  }

  /** A line ends at the first break, which a carriage return shares with its line feed. */
  lemma {:induction false} LineEndIsFirstBreak(text: string, i: nat)
    requires i < |text|
    ensures var e := LineEnd(text, i);
            && (forall k :: i <= k < e - 1 ==> IsBreak(text[k]) ==> k == e - 2 && IsCrLf(text, k))
            && (e < |text| ==> IsBreak(text[e - 1]) && !IsCrLf(text, e - 1))
    decreases |text| - i
  {
    if !IsBreak(text[i]) && i + 1 < |text| {
      LineEndIsFirstBreak(text, i + 1);
    }
  }

  /** `lines` cut `text` at its line ends; an empty text has one empty line. */
  ghost predicate LinesOf(text: string, lines: seq<Line>)
  {
    && |lines| > 0
    && lines[0].start == 0
    && lines[|lines| - 1].end == |text|
    && (forall k :: 0 < k < |lines| ==> lines[k].start == lines[k - 1].end)
    && (forall k {:trigger LineOf(text, lines[k])} :: 0 <= k < |lines| ==> LineOf(text, lines[k]))
  }

  ghost predicate LineOf(text: string, line: Line)
  {
    && line.start <= |text|
    && line.end == LineEnd(text, line.start)
    && line.text == text[line.start..line.end]
    && (text != "" ==> line.start < |text|)
  }

  /** The lines up to `offset`. */
  ghost predicate CutTo(text: string, lines: seq<Line>, offset: nat)
  {
    && offset == (if lines == [] then 0 else lines[|lines| - 1].end)
    && (lines != [] ==> lines[0].start == 0)
    && (forall k :: 0 < k < |lines| ==> lines[k].start == lines[k - 1].end)
    && (forall k {:trigger LineOf(text, lines[k])} :: 0 <= k < |lines| ==> LineOf(text, lines[k]))
  }

  lemma {:induction false} CutFurther(text: string, lines: seq<Line>, offset: nat)
    requires CutTo(text, lines, offset) && offset < |text|
    ensures var end := LineEnd(text, offset);
            CutTo(text, lines + [Line(offset, end, text[offset..end])], end)
  {
    var end := LineEnd(text, offset);
    CutSnoc(text, lines, Line(offset, end, text[offset..end]));
  }

  lemma {:induction false} CutSnoc(text: string, lines: seq<Line>, line: Line)
    requires CutTo(text, lines, line.start) && LineOf(text, line)
    ensures CutTo(text, lines + [line], line.end)
  {
    var more := lines + [line];
    forall k | 0 <= k < |more|
      ensures LineOf(text, more[k])
    {
      if k < |lines| {
        assert LineOf(text, lines[k]);
      } else {
        assert more[k] == line;
      }
    }
  }

  method SplitLines(text: string) returns (lines: seq<Line>)
    ensures LinesOf(text, lines)
  {
    lines := [];
    var offset := 0;
    while offset < |text|
      invariant 0 <= offset <= |text|
      invariant CutTo(text, lines, offset)
    {
      var end := LineEnd(text, offset);
      CutFurther(text, lines, offset);
      lines := lines + [Line(offset, end, text[offset..end])];
      offset := end;
    }
    if lines == [] {
      lines := [Line(0, |text|, text)];
    }
  }

  /** In a non-empty text line starts increase and every line reaches past its start. */
  lemma {:induction false} LinesIncrease(text: string, lines: seq<Line>, a: nat, b: nat)
    requires text != "" && LinesOf(text, lines) && a <= b < |lines|
    ensures lines[a].start < lines[b].end <= |text|
    ensures a < b ==> lines[a].end <= lines[b].start
    decreases b - a
  {
    assert LineOf(text, lines[b]);
    if a < b {
      assert LineOf(text, lines[b - 1]);
      LinesIncrease(text, lines, a, b - 1);
    }
  }

  // -- Line predicates --

  predicate IsBlank(line: string)
  {
    Strip(line) == ""
  }

  predicate BlankAt(lines: seq<Line>, k: nat)
    requires k < |lines|
  {
    IsBlank(lines[k].text)
  }

  function HeadingAt(g: Grammar, lines: seq<Line>, k: nat): Option<ValidHeading>
    requires k < |lines|
  {
    g.headingOf(Strip(lines[k].text))
  }

  predicate StartsCodeFence(line: string)
  {
    StartsWith(LStrip(line), "```") || StartsWith(LStrip(line), "~~~")
  }

  predicate HasBar(line: string)
  {
    '|' in line
  }

  predicate StartsTable(g: Grammar, lines: seq<Line>, k: nat)
    requires k < |lines|
  {
    k + 1 < |lines| && HasBar(lines[k].text) && g.isSeparator(Strip(lines[k + 1].text))
  }

  predicate IsIndented(line: string)
  {
    StartsWith(line, " ") || StartsWith(line, "\t")
  }

  function FenceOf(line: string): string
  {
    Truncate(LStrip(line), 3)
  }

  // -- Where a run of lines ends --

  /** Lines i to e - 1 are blank and e is the first later line that is not. */
  ghost predicate BlankRun(lines: seq<Line>, i: nat, e: nat)
  {
    && i <= e <= |lines|
    && (forall k :: i <= k < e ==> BlankAt(lines, k))
    && (e < |lines| ==> !BlankAt(lines, e))
  }

  predicate ClosesFence(lines: seq<Line>, i: nat, k: nat)
    requires i < |lines| && k < |lines|
  {
    StartsWith(LStrip(lines[k].text), FenceOf(lines[i].text))
  }

  /** A fence opened at i runs to its first closing line, or to the end of the document. */
  ghost predicate FenceRun(lines: seq<Line>, i: nat, e: nat)
  {
    && i < e <= |lines|
    && (forall k :: i < k < e - 1 ==> !ClosesFence(lines, i, k))
    && (e < |lines| ==> i < e - 1 && ClosesFence(lines, i, e - 1))
  }

  ghost predicate TableRun(lines: seq<Line>, i: nat, e: nat)
  {
    && i < e <= |lines|
    && (forall k :: i < k < e ==> HasBar(lines[k].text))
    && (e < |lines| ==> !HasBar(lines[e].text))
  }

  predicate LeavesList(g: Grammar, lines: seq<Line>, k: nat)
    requires k < |lines|
  {
    BlankAt(lines, k) || (!g.isListItem(lines[k].text) && !IsIndented(lines[k].text))
  }

  ghost predicate ListRun(g: Grammar, lines: seq<Line>, i: nat, e: nat)
  {
    && i <= e <= |lines|
    && (forall k :: i <= k < e ==> !LeavesList(g, lines, k))
    && (e < |lines| ==> LeavesList(g, lines, e))
  }

  /** What interrupts a paragraph; the very first line of the document interrupts none. */
  predicate LeavesParagraph(g: Grammar, lines: seq<Line>, k: nat)
    requires k < |lines|
  {
    || BlankAt(lines, k)
    || (k > 0 && (HeadingAt(g, lines, k).Some? || StartsCodeFence(lines[k].text)
                  || g.isListItem(lines[k].text) || StartsTable(g, lines, k)))
  }

  ghost predicate ParagraphRun(g: Grammar, lines: seq<Line>, i: nat, e: nat)
  {
    && i <= e <= |lines|
    && (forall k :: i <= k < e ==> !LeavesParagraph(g, lines, k))
    && (e < |lines| ==> LeavesParagraph(g, lines, e))
  }

  // -- The scanners --

  method ConsumeBlankLines(lines: seq<Line>, start: nat) returns (index: nat)
    requires start <= |lines|
    ensures BlankRun(lines, start, index)
  {
    index := start;
    while index < |lines| && IsBlank(lines[index].text)
      invariant start <= index <= |lines|
      invariant forall k :: start <= k < index ==> BlankAt(lines, k)
    {
      index := index + 1;
    }
  }

  method ConsumeCodeFence(lines: seq<Line>, start: nat) returns (index: nat)
    requires start < |lines|
    ensures FenceRun(lines, start, index)
  {
    var fence := FenceOf(lines[start].text);
    index := start + 1;
    while index < |lines|
      invariant start < index <= |lines|
      invariant forall k :: start < k < index ==> !ClosesFence(lines, start, k)
    {
      if StartsWith(LStrip(lines[index].text), fence) {
        return index + 1;
      }
      index := index + 1;
    }
  }

  method ConsumeTable(lines: seq<Line>, start: nat) returns (index: nat)
    requires start < |lines|
    ensures TableRun(lines, start, index)
  {
    index := start + 1;
    while index < |lines| && HasBar(lines[index].text)
      invariant start < index <= |lines|
      invariant forall k :: start < k < index ==> HasBar(lines[k].text)
    {
      index := index + 1;
    }
  }

  method ConsumeList(g: Grammar, lines: seq<Line>, start: nat) returns (index: nat)
    requires start <= |lines|
    ensures ListRun(g, lines, start, index)
  {
    index := start;
    while index < |lines|
      invariant start <= index <= |lines|
      invariant forall k :: start <= k < index ==> !LeavesList(g, lines, k)
    {
      var line := lines[index].text;
      if IsBlank(line) {
        break;
      }
      if !g.isListItem(line) && !IsIndented(line) {
        break;
      }
      index := index + 1;
    }
  }

  method ConsumeParagraph(g: Grammar, lines: seq<Line>, start: nat) returns (index: nat)
    requires start <= |lines|
    ensures ParagraphRun(g, lines, start, index)
  {
    index := start;
    while index < |lines|
      invariant start <= index <= |lines|
      invariant forall k :: start <= k < index ==> !LeavesParagraph(g, lines, k)
    {
      var line := lines[index].text;
      if IsBlank(line) {
        break;
      }
      if index > 0 && (g.headingOf(Strip(line)).Some? || StartsCodeFence(line)
                       || g.isListItem(line) || StartsTable(g, lines, index)) {
        break;
      }
      index := index + 1;
    }
  }
}
