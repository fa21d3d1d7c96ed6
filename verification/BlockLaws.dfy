/** What each kind of block covers, told by the characters of its lines. */
module BlockLaws {
  import opened BlockParser
  import opened MarkdownLines
  import opened Text

  // -- Lines by their characters --

  /** Behind nothing but white space stand three times `c`. */
  predicate ThreeAt(line: string, k: nat, c: char)
  {
    k + 3 <= |line| && AllSpace(line[..k]) && line[k] == c && line[k + 1] == c && line[k + 2] == c
  }

  ghost predicate BeginsWithThree(line: string, c: char)
  {
    exists k: nat :: ThreeAt(line, k, c)
  }

  /** The trimmed line is a heading. */
  ghost predicate IsHeadingLine(g: Grammar, line: string)
  {
    exists t :: TrimsTo(line, t) && g.headingOf(t).Some?
  }

  ghost predicate IsSeparatorLine(g: Grammar, line: string)
  {
    exists t :: TrimsTo(line, t) && g.isSeparator(t)
  }

  predicate Contains(line: string, c: char)
  {
    exists k :: 0 <= k < |line| && line[k] == c
  }

  /** The line opens a table: it has a bar, and a separator follows. */
  ghost predicate OpensTable(g: Grammar, lines: seq<Line>, k: nat)
  {
    k + 1 < |lines| && Contains(lines[k].text, '|') && IsSeparatorLine(g, lines[k + 1].text)
  }

  ghost predicate OpensFence(line: string)
  {
    BeginsWithThree(line, '`') || BeginsWithThree(line, '~')
  }

  predicate BeginsWith(line: string, c: char)
  {
    line != "" && line[0] == c
  }

  // -- The parser's predicates are these --

  lemma {:induction false} BlankIsAllSpace(line: string)
    ensures IsBlank(line) <==> AllSpace(line)
  {
    StripIsEmpty(line);
  }

  lemma {:induction false} HeadingIsTrimmed(g: Grammar, lines: seq<Line>, k: nat)
    requires k < |lines|
    ensures HeadingAt(g, lines, k).Some? <==> IsHeadingLine(g, lines[k].text)
  {
    var line := lines[k].text;
    StripTrims(line);
    if t :| TrimsTo(line, t) && g.headingOf(t).Some? {
      TrimIsStrip(line, t);
    }
  }

  lemma {:induction false} StartsWithThree(s: string, fence: string, c: char)
    requires |fence| == 3 && fence[0] == c && fence[1] == c && fence[2] == c
    ensures StartsWith(s, fence) <==> |s| >= 3 && s[0] == c && s[1] == c && s[2] == c
  {
    if |s| >= 3 && s[0] == c && s[1] == c && s[2] == c {
      assert s[..3] == fence;
    }
  }

  lemma {:induction false} ThreeIsStripped(line: string, c: char)
    requires !IsSpace(c)
    ensures BeginsWithThree(line, c)
      <==> var s := LStrip(line); |s| >= 3 && s[0] == c && s[1] == c && s[2] == c
  {
    var s := LStrip(line);
    if k: nat :| ThreeAt(line, k, c) {
      LStripSkips(line, k);
    }
    if |s| >= 3 && s[0] == c && s[1] == c && s[2] == c {
      LStripIsSuffix(line);
      assert ThreeAt(line, |line| - |s|, c);
    }
  }

  lemma {:induction false} FenceIsThree(line: string)
    ensures StartsCodeFence(line) <==> OpensFence(line)
  {
    ThreeIsStripped(line, '`');
    ThreeIsStripped(line, '~');
    StartsWithThree(LStrip(line), "```", '`');
    StartsWithThree(LStrip(line), "~~~", '~');
  }

  lemma {:induction false} ClosingIsThree(lines: seq<Line>, i: nat, k: nat, c: char)
    requires i < |lines| && k < |lines| && (c == '`' || c == '~') && BeginsWithThree(lines[i].text, c)
    ensures ClosesFence(lines, i, k) <==> BeginsWithThree(lines[k].text, c)
  {
    ThreeIsStripped(lines[i].text, c);
    ThreeIsStripped(lines[k].text, c);
    StartsWithThree(LStrip(lines[k].text), FenceOf(lines[i].text), c);
  }

  lemma {:induction false} TableIsBar(g: Grammar, lines: seq<Line>, k: nat)
    requires k < |lines|
    ensures StartsTable(g, lines, k) <==> OpensTable(g, lines, k)
  {
    if k + 1 < |lines| {
      var line := lines[k + 1].text;
      StripTrims(line);
      if t :| TrimsTo(line, t) && g.isSeparator(t) {
        TrimIsStrip(line, t);
      }
    }
  }

  lemma {:induction false} BarsAreContained(lines: seq<Line>)
    ensures forall k :: 0 <= k < |lines| ==> (HasBar(lines[k].text) <==> Contains(lines[k].text, '|'))
  {
  }

  lemma {:induction false} IndentIsFirst(line: string)
    ensures IsIndented(line) <==> BeginsWith(line, ' ') || BeginsWith(line, '\t')
  {
    if line != "" {
      assert line[..1] == [line[0]];
    }
  }

  // -- The laws --

  /** Blank lines from m to e, and none at e. */
  predicate TrailsBlank(lines: seq<Line>, m: nat, e: nat)
  {
    && m <= e <= |lines|
    && (forall k :: m <= k < e ==> AllSpace(lines[k].text))
    && (e < |lines| ==> !AllSpace(lines[e].text))
  }

  lemma {:induction false} BlankRunTrails(lines: seq<Line>, m: nat, e: nat)
    requires BlankRun(lines, m, e)
    ensures TrailsBlank(lines, m, e)
  {
    forall k | 0 <= k < |lines|
      ensures BlankAt(lines, k) <==> AllSpace(lines[k].text)
    {
      BlankIsAllSpace(lines[k].text);
    }
  }

  /** The kind of a block, and that no other block starts inside it. */
  lemma {:induction false} KindByFirstLine(g: Grammar, lines: seq<Line>, cuts: seq<nat>, blocks: seq<Block>, i: nat)
    requires Parsed(g, lines, cuts, blocks) && i < |blocks|
    ensures cuts[i] < cuts[i + 1] <= |lines|
    ensures blocks[i].kind.Blank? <==> AllSpace(lines[cuts[i]].text)
    ensures blocks[i].kind.HeadingBlock? <==> !AllSpace(lines[cuts[i]].text) && IsHeadingLine(g, lines[cuts[i]].text)
    ensures forall j :: 0 <= j <= |blocks| ==> cuts[j] <= cuts[i] || cuts[i + 1] <= cuts[j]
  {
    assert IsBlock(g, lines, cuts, i, blocks[i]);
    BlankIsAllSpace(lines[cuts[i]].text);
    HeadingIsTrimmed(g, lines, cuts[i]);
    forall j | 0 <= j <= |blocks|
      ensures cuts[j] <= cuts[i] || cuts[i + 1] <= cuts[j]
    {
      if j <= i {
        CutsIncrease(g, lines, cuts, blocks, j, i);
      } else {
        CutsIncrease(g, lines, cuts, blocks, i + 1, j);
      }
    }
  }

  lemma {:induction false} CutsIncrease(g: Grammar, lines: seq<Line>, cuts: seq<nat>, blocks: seq<Block>, a: nat,
                                        b: nat)
    requires Parsed(g, lines, cuts, blocks) && a <= b <= |blocks|
    ensures cuts[a] <= cuts[b]
    decreases b - a
  {
    if a < b {
      var c: nat := b - 1;
      CutsIncrease(g, lines, cuts, blocks, a, c);
      assert IsBlock(g, lines, cuts, c, blocks[c]);
    }
  }

  /** A blank block covers blank lines, and a heading the blank lines behind it. */
  lemma {:induction false} BlankAndHeadingLaw(g: Grammar, lines: seq<Line>, cuts: seq<nat>, blocks: seq<Block>, i: nat)
    requires Parsed(g, lines, cuts, blocks) && i < |blocks| && !blocks[i].kind.Content?
    ensures TrailsBlank(lines, if blocks[i].kind.Blank? then cuts[i] else cuts[i] + 1, cuts[i + 1])
  {
    assert IsBlock(g, lines, cuts, i, blocks[i]);
    BlankRunTrails(lines, if blocks[i].kind.Blank? then cuts[i] else cuts[i] + 1, cuts[i + 1]);
  }

  /** Where the content of a block ends, before the blank lines that follow it. */
  lemma {:induction false} ContentEnd(g: Grammar, lines: seq<Line>, cuts: seq<nat>, blocks: seq<Block>, i: nat)
    returns (m: nat)
    requires Parsed(g, lines, cuts, blocks) && i < |blocks| && blocks[i].kind.Content?
    ensures cuts[i] < m <= |lines| && ContentRun(g, lines, cuts[i], m) && TrailsBlank(lines, m, cuts[i + 1])
  {
    assert IsBlock(g, lines, cuts, i, blocks[i]);
    m :| ContentRun(g, lines, cuts[i], m) && BlankRun(lines, m, cuts[i + 1]);
    ContentConsumes(g, lines, cuts[i], m);
    BlankRunTrails(lines, m, cuts[i + 1]);
  }

  /** A content block whose first line begins with three backticks or tildes reaches through the first
      later line that begins with the same three, or to the end of the document; whatever is between,
      no block starts there and no heading is read there. */
  lemma {:induction false} FenceLaw(g: Grammar, lines: seq<Line>, cuts: seq<nat>, blocks: seq<Block>, i: nat, a: nat,
                                    c: char)
    returns (m: nat)
    requires Parsed(g, lines, cuts, blocks) && i < |blocks| && blocks[i].kind.Content?
    requires a == cuts[i] && a < |lines|
    requires (c == '`' || c == '~') && BeginsWithThree(lines[a].text, c)
    ensures a < m <= |lines| && TrailsBlank(lines, m, cuts[i + 1])
    ensures forall k :: a < k < m - 1 ==> !BeginsWithThree(lines[k].text, c)
    ensures m < |lines| ==> a < m - 1 && BeginsWithThree(lines[m - 1].text, c)
    ensures forall j :: 0 <= j <= |blocks| ==> cuts[j] <= a || cuts[i + 1] <= cuts[j]
    ensures forall k :: 0 <= k <= i ==> cuts[k] < |lines|
    ensures HeadingsIn(g, lines, cuts, i + 1) == HeadingsIn(g, lines, cuts, i)
  {
    m := ContentEnd(g, lines, cuts, blocks, i);
    KindByFirstLine(g, lines, cuts, blocks, i);
    FenceIsThree(lines[a].text);
    forall k | 0 <= k < |lines|
      ensures ClosesFence(lines, a, k) <==> BeginsWithThree(lines[k].text, c)
    {
      ClosingIsThree(lines, a, k, c);
    }
    assert IsBlock(g, lines, cuts, i, blocks[i]);
  }

  /** A table reaches as far as every line has a bar. */
  lemma {:induction false} TableLaw(g: Grammar, lines: seq<Line>, cuts: seq<nat>, blocks: seq<Block>, i: nat, a: nat)
    returns (m: nat)
    requires Parsed(g, lines, cuts, blocks) && i < |blocks| && blocks[i].kind.Content?
    requires a == cuts[i] && a < |lines|
    requires !OpensFence(lines[a].text) && OpensTable(g, lines, a)
    ensures a < m <= |lines| && TrailsBlank(lines, m, cuts[i + 1])
    ensures forall k :: a <= k < m ==> Contains(lines[k].text, '|')
    ensures m < |lines| ==> !Contains(lines[m].text, '|')
  {
    m := ContentEnd(g, lines, cuts, blocks, i);
    FenceIsThree(lines[a].text);
    TableIsBar(g, lines, a);
    BarsAreContained(lines);
  }

  /** The line goes on with a list: it is an item, or begins with a space or a tab, and is not blank. */
  predicate GoesOnWithList(g: Grammar, line: string)
  {
    !AllSpace(line) && (g.isListItem(line) || BeginsWith(line, ' ') || BeginsWith(line, '\t'))
  }

  /** A list reaches as far as every line goes on with it. */
  lemma {:induction false} ListLaw(g: Grammar, lines: seq<Line>, cuts: seq<nat>, blocks: seq<Block>, i: nat, a: nat)
    returns (m: nat)
    requires Parsed(g, lines, cuts, blocks) && i < |blocks| && blocks[i].kind.Content?
    requires a == cuts[i] && a < |lines|
    requires !OpensFence(lines[a].text) && !OpensTable(g, lines, a) && g.isListItem(lines[a].text)
    ensures a < m <= |lines| && TrailsBlank(lines, m, cuts[i + 1])
    ensures forall k :: a <= k < m ==> GoesOnWithList(g, lines[k].text)
    ensures m < |lines| ==> !GoesOnWithList(g, lines[m].text)
  {
    m := ContentEnd(g, lines, cuts, blocks, i);
    FenceIsThree(lines[a].text);
    TableIsBar(g, lines, a);
    forall k | 0 <= k < |lines|
      ensures LeavesList(g, lines, k) <==> !GoesOnWithList(g, lines[k].text)
    {
      BlankIsAllSpace(lines[k].text);
      IndentIsFirst(lines[k].text);
    }
  }

  /** The line ends a paragraph: it is blank, or opens another kind of block and is not the first line of
      the document. */
  ghost predicate EndsParagraph(g: Grammar, lines: seq<Line>, k: nat)
    requires k < |lines|
  {
    var line := lines[k].text;
    AllSpace(line)
    || (k > 0 && (IsHeadingLine(g, line) || OpensFence(line) || g.isListItem(line) || OpensTable(g, lines, k)))
  }

  /** Any other content is a paragraph and reaches to the first line that ends it. */
  lemma {:induction false} ParagraphLaw(g: Grammar, lines: seq<Line>, cuts: seq<nat>, blocks: seq<Block>, i: nat,
                                        a: nat)
    returns (m: nat)
    requires Parsed(g, lines, cuts, blocks) && i < |blocks| && blocks[i].kind.Content?
    requires a == cuts[i] && a < |lines|
    requires !OpensFence(lines[a].text) && !OpensTable(g, lines, a) && !g.isListItem(lines[a].text)
    ensures a < m <= |lines| && TrailsBlank(lines, m, cuts[i + 1])
    ensures forall k :: a <= k < m ==> !EndsParagraph(g, lines, k)
    ensures m < |lines| ==> EndsParagraph(g, lines, m)
  {
    m := ContentEnd(g, lines, cuts, blocks, i);
    FenceIsThree(lines[a].text);
    TableIsBar(g, lines, a);
    forall k | 0 <= k < |lines|
      ensures LeavesParagraph(g, lines, k) <==> EndsParagraph(g, lines, k)
    {
      BlankIsAllSpace(lines[k].text);
      HeadingIsTrimmed(g, lines, k);
      FenceIsThree(lines[k].text);
      TableIsBar(g, lines, k);
    }
  }
}
