/** The block parser: it tiles a document with blank, heading and content blocks. */
module BlockParser {
  import opened MarkdownLines
  import opened Options
  import opened SectionPath
  import opened Text

  datatype Kind = Blank | HeadingBlock | Content

  datatype Block = Block(start: nat, end: nat, kind: Kind, path: seq<string>, heading: Option<string>)

  // -- What a block is, in terms of the lines it covers --

  /** How far the content that starts at line i reaches, before trailing blank lines. */
  ghost predicate ContentRun(g: Grammar, lines: seq<Line>, i: nat, m: nat)
    requires i < |lines|
  {
    if StartsCodeFence(lines[i].text) then FenceRun(lines, i, m)
    else if StartsTable(g, lines, i) then TableRun(lines, i, m)
    else if g.isListItem(lines[i].text) then ListRun(g, lines, i, m)
    else ParagraphRun(g, lines, i, m)
  }

  function KindAt(g: Grammar, lines: seq<Line>, i: nat): Kind
    requires i < |lines|
  {
    if BlankAt(lines, i) then Blank
    else if HeadingAt(g, lines, i).Some? then HeadingBlock
    else Content
  }

  /** The block that starts at line i covers the lines up to e. */
  ghost predicate BlockRun(g: Grammar, lines: seq<Line>, i: nat, e: nat)
    requires i < |lines|
  {
    match KindAt(g, lines, i)
    case Blank => BlankRun(lines, i, e)
    case HeadingBlock => BlankRun(lines, i + 1, e)
    case Content => exists m :: ContentRun(g, lines, i, m) && BlankRun(lines, m, e)
  }

  /** Every branch of the dispatcher consumes a line: a scanner that could stop at once stops only
      on conditions that the dispatcher has already ruled out for its first line. */
  lemma {:induction false} ContentConsumes(g: Grammar, lines: seq<Line>, i: nat, m: nat)
    requires i < |lines| && KindAt(g, lines, i) == Content && ContentRun(g, lines, i, m)
    ensures i < m <= |lines|
  {
    if !StartsCodeFence(lines[i].text) && !StartsTable(g, lines, i) {
      if g.isListItem(lines[i].text) {
        assert !LeavesList(g, lines, i);
      } else {
        assert !LeavesParagraph(g, lines, i);
      }
    }
  }

  /** Two parses of a block agree on where it ends. */
  lemma {:induction false} BlockRunIsUnique(g: Grammar, lines: seq<Line>, i: nat, e: nat, f: nat)
    requires i < |lines| && BlockRun(g, lines, i, e) && BlockRun(g, lines, i, f)
    ensures e == f && i < e
  {
    if KindAt(g, lines, i) == Content {
      var m :| ContentRun(g, lines, i, m) && BlankRun(lines, m, e);
      var n :| ContentRun(g, lines, i, n) && BlankRun(lines, n, f);
      ContentRunIsUnique(g, lines, i, m, n);
      ContentConsumes(g, lines, i, m);
      BlankRunIsUnique(lines, m, e, f);
    } else if KindAt(g, lines, i) == Blank {
      BlankRunIsUnique(lines, i, e, f);
    } else {
      BlankRunIsUnique(lines, i + 1, e, f);
    }
  }

  lemma {:induction false} BlankRunIsUnique(lines: seq<Line>, i: nat, e: nat, f: nat)
    requires BlankRun(lines, i, e) && BlankRun(lines, i, f)
    ensures e == f
  {
  }

  lemma {:induction false} ContentRunIsUnique(g: Grammar, lines: seq<Line>, i: nat, m: nat, n: nat)
    requires i < |lines| && ContentRun(g, lines, i, m) && ContentRun(g, lines, i, n)
    ensures m == n
  {
  }

  /** The headings that open one of the first n blocks, for blocks that start at the lines `cuts`. */
  function HeadingsIn(g: Grammar, lines: seq<Line>, cuts: seq<nat>, n: nat): (hs: seq<Heading>)
    requires n <= |cuts| && forall k :: 0 <= k < n ==> cuts[k] < |lines|
    ensures AllValid(hs)
  {
    if n == 0 then []
    else
      var hs := HeadingsIn(g, lines, cuts, n - 1);
      if KindAt(g, lines, cuts[n - 1]) == HeadingBlock
      then hs + [HeadingAt(g, lines, cuts[n - 1]).value]
      else hs
  }

  /** The section that the first `n` blocks leave open. */
  function PathIn(g: Grammar, lines: seq<Line>, cuts: seq<nat>, n: nat): seq<string>
    requires n <= |cuts| && forall k :: 0 <= k < n ==> cuts[k] < |lines|
  {
    var hs := HeadingsIn(g, lines, cuts, n);
    PathAfter(hs, |hs|)
  }

  function LastTitle(hs: seq<Heading>): Option<string>
  {
    if hs == [] then None else Some(hs[|hs| - 1].title)
  }

  lemma {:induction false} HeadingsStable(g: Grammar, lines: seq<Line>, cuts: seq<nat>, c: nat, n: nat)
    requires n <= |cuts| && forall k :: 0 <= k < n ==> cuts[k] < |lines|
    ensures HeadingsIn(g, lines, cuts + [c], n) == HeadingsIn(g, lines, cuts, n)
  {
    if n > 0 {
      HeadingsStable(g, lines, cuts, c, n - 1);
    }
  }

  /** Block i of a parse whose blocks start at the lines `cuts`; the last cut is the end. */
  ghost predicate IsBlock(g: Grammar, lines: seq<Line>, cuts: seq<nat>, i: nat, b: Block)
    requires i + 1 < |cuts| && forall k :: 0 <= k < |cuts| ==> cuts[k] <= |lines|
  {
    && cuts[i] < cuts[i + 1]
    && (forall k :: 0 <= k <= i ==> cuts[k] < |lines|)
    && BlockRun(g, lines, cuts[i], cuts[i + 1])
    && b.start == lines[cuts[i]].start
    && b.end == lines[cuts[i + 1] - 1].end
    && b.kind == KindAt(g, lines, cuts[i])
    && b.path == PathIn(g, lines, cuts, i + 1)
    && b.heading == LastTitle(HeadingsIn(g, lines, cuts, i + 1))
  }

  ghost predicate Parsed(g: Grammar, lines: seq<Line>, cuts: seq<nat>, blocks: seq<Block>)
  {
    && |cuts| == |blocks| + 1
    && cuts[0] == 0
    && (forall k :: 0 <= k < |cuts| ==> cuts[k] <= |lines|)
    && (forall i {:trigger IsBlock(g, lines, cuts, i, blocks[i])} :: 0 <= i < |blocks| ==>
          IsBlock(g, lines, cuts, i, blocks[i]))
  }

  lemma {:induction false} IsBlockStable(g: Grammar, lines: seq<Line>, cuts: seq<nat>, c: nat, i: nat, b: Block)
    requires i + 1 < |cuts| && (forall k :: 0 <= k < |cuts| ==> cuts[k] <= |lines|) && c <= |lines|
    requires IsBlock(g, lines, cuts, i, b)
    ensures IsBlock(g, lines, cuts + [c], i, b)
  {
    assert forall k :: 0 <= k <= i + 1 ==> (cuts + [c])[k] == cuts[k];
    assert HeadingsIn(g, lines, cuts + [c], i + 1) == HeadingsIn(g, lines, cuts, i + 1) by {
      HeadingsStable(g, lines, cuts, c, i + 1);
    }
  }

  lemma {:induction false} ParsedSnoc(g: Grammar, lines: seq<Line>, cuts: seq<nat>, blocks: seq<Block>, c: nat,
                                      b: Block)
    requires Parsed(g, lines, cuts, blocks) && c <= |lines|
    requires IsBlock(g, lines, cuts + [c], |blocks|, b)
    ensures Parsed(g, lines, cuts + [c], blocks + [b])
  {
    forall i | 0 <= i < |blocks| + 1
      ensures IsBlock(g, lines, cuts + [c], i, (blocks + [b])[i])
    {
      if i < |blocks| {
        IsBlockStable(g, lines, cuts, c, i, blocks[i]);
      }
    }
  }

  // -- The parser --

  method ConsumeContent(g: Grammar, lines: seq<Line>, start: nat) returns (index: nat)
    requires start < |lines| && KindAt(g, lines, start) == Content
    ensures start < index <= |lines|
    ensures ContentRun(g, lines, start, index)
  {
    if StartsCodeFence(lines[start].text) {
      index := ConsumeCodeFence(lines, start);
    } else if StartsTable(g, lines, start) {
      index := ConsumeTable(lines, start);
    } else if g.isListItem(lines[start].text) {
      index := ConsumeList(g, lines, start);
    } else {
      index := ConsumeParagraph(g, lines, start);
    }
    ContentConsumes(g, lines, start, index);
  }

  /** What the parser's loop keeps: the blocks so far and the section they leave open. */
  ghost predicate Parsing(g: Grammar, lines: seq<Line>, cuts: seq<nat>, blocks: seq<Block>,
                          path: seq<string>, heading: Option<string>)
  {
    && Parsed(g, lines, cuts, blocks)
    && (forall k :: 0 <= k < |blocks| ==> cuts[k] < |lines|)
    && path == PathIn(g, lines, cuts, |blocks|)
    && heading == LastTitle(HeadingsIn(g, lines, cuts, |blocks|))
  }

  lemma {:induction false} HeadingsStep(g: Grammar, lines: seq<Line>, cuts: seq<nat>, c: nat, n: nat)
    requires n < |cuts| && (forall k :: 0 <= k <= n ==> cuts[k] < |lines|)
    ensures (cuts + [c])[n] == cuts[n]
    ensures var hs := HeadingsIn(g, lines, cuts, n);
            HeadingsIn(g, lines, cuts + [c], n + 1)
            == if KindAt(g, lines, cuts[n]) == HeadingBlock then hs + [HeadingAt(g, lines, cuts[n]).value] else hs
  {
    HeadingsStable(g, lines, cuts, c, n + 1);
  }

  lemma {:induction false} HeadingAdded(hs: seq<Heading>, h: Heading)
    requires AllValid(hs) && h.Valid()
    ensures AllValid(hs + [h])
    ensures PathAfter(hs + [h], |hs| + 1) == Push(PathAfter(hs, |hs|), h) && LastTitle(hs + [h]) == Some(h.title)
  {
    PathOfPrefix(hs, hs + [h], |hs|);
  }

  /** The section after one more block: a heading pushes itself, other blocks keep the section. */
  lemma {:induction false} SectionStep(g: Grammar, lines: seq<Line>, cuts: seq<nat>, c: nat, n: nat)
    requires n < |cuts| && (forall k :: 0 <= k <= n ==> cuts[k] < |lines|)
    ensures (cuts + [c])[n] == cuts[n]
    ensures var path, path' := PathIn(g, lines, cuts, n), PathIn(g, lines, cuts + [c], n + 1);
            var title := LastTitle(HeadingsIn(g, lines, cuts, n));
            var title' := LastTitle(HeadingsIn(g, lines, cuts + [c], n + 1));
            if KindAt(g, lines, cuts[n]) == HeadingBlock
            then var h := HeadingAt(g, lines, cuts[n]).value; path' == Push(path, h) && title' == Some(h.title)
            else path' == path && title' == title
  {
    var hs := HeadingsIn(g, lines, cuts, n);
    HeadingsStep(g, lines, cuts, c, n);
    if KindAt(g, lines, cuts[n]) == HeadingBlock {
      HeadingAdded(hs, HeadingAt(g, lines, cuts[n]).value);
    }
  }

  lemma {:induction false} BlockAdded(g: Grammar, lines: seq<Line>, cuts: seq<nat>, n: nat,
                                      path: seq<string>, heading: Option<string>, b: Block, c: nat)
    requires |cuts| == n + 1 && (forall k :: 0 <= k <= n ==> cuts[k] < |lines|)
    requires path == PathIn(g, lines, cuts, n) && heading == LastTitle(HeadingsIn(g, lines, cuts, n))
    requires cuts[n] < c <= |lines| && BlockRun(g, lines, cuts[n], c)
    requires b.start == lines[cuts[n]].start && b.end == lines[c - 1].end && b.kind == KindAt(g, lines, cuts[n])
    requires if b.kind == HeadingBlock
             then var h := HeadingAt(g, lines, cuts[n]).value;
                  b.path == Push(path, h) && b.heading == Some(h.title)
             else b.path == path && b.heading == heading
    ensures forall k :: 0 <= k < |cuts + [c]| ==> (cuts + [c])[k] <= |lines|
    ensures IsBlock(g, lines, cuts + [c], n, b)
  {
    CutAppended(cuts, n, c);
    SectionStep(g, lines, cuts, c, n);
  }

  lemma {:induction false} CutAppended(cuts: seq<nat>, n: nat, c: nat)
    requires |cuts| == n + 1
    ensures |cuts + [c]| == n + 2 && (cuts + [c])[n + 1] == c
    ensures forall k :: 0 <= k <= n ==> (cuts + [c])[k] == cuts[k]
  {
  }

  lemma {:induction false} ParsingStep(g: Grammar, lines: seq<Line>, cuts: seq<nat>, blocks: seq<Block>,
                                       path: seq<string>, heading: Option<string>, b: Block, c: nat)
    requires Parsing(g, lines, cuts, blocks, path, heading)
    requires cuts[|blocks|] < c <= |lines| && BlockRun(g, lines, cuts[|blocks|], c)
    requires b.start == lines[cuts[|blocks|]].start && b.end == lines[c - 1].end
    requires b.kind == KindAt(g, lines, cuts[|blocks|])
    requires if b.kind == HeadingBlock
             then var h := HeadingAt(g, lines, cuts[|blocks|]).value;
                  b.path == Push(path, h) && b.heading == Some(h.title)
             else b.path == path && b.heading == heading
    ensures Parsing(g, lines, cuts + [c], blocks + [b], b.path, b.heading)
  {
    var n, more := |blocks|, cuts + [c];
    BlockAdded(g, lines, cuts, n, path, heading, b, c);
    ParsedSnoc(g, lines, cuts, blocks, c, b);
    CutAppended(cuts, n, c);
    assert |blocks + [b]| == n + 1;
    assert b.path == PathIn(g, lines, more, n + 1) && b.heading == LastTitle(HeadingsIn(g, lines, more, n + 1));
  }

  /** A block takes the blank lines that follow it, so only the first block can be blank. */
  lemma {:induction false} OnlyFirstIsBlank(g: Grammar, lines: seq<Line>, cuts: seq<nat>, blocks: seq<Block>)
    requires Parsed(g, lines, cuts, blocks)
    ensures forall i :: 0 < i < |blocks| ==> blocks[i].kind != Blank
  {
    forall i | 0 < i < |blocks|
      ensures blocks[i].kind != Blank
    {
      assert IsBlock(g, lines, cuts, i - 1, blocks[i - 1]) && IsBlock(g, lines, cuts, i, blocks[i]);
    }
  }

  method ParseBlocks(g: Grammar, text: string)
    returns (blocks: seq<Block>, ghost lines: seq<Line>, ghost cuts: seq<nat>)
    ensures LinesOf(text, lines)
    ensures Parsed(g, lines, cuts, blocks)
    ensures cuts[|blocks|] == |lines|
    ensures forall i :: 0 < i < |blocks| ==> blocks[i].kind != Blank
  {
    var ls := SplitLines(text);
    lines := ls;
    blocks := [];
    cuts := [0];
    var sectionStack: seq<string> := [];
    var currentHeading: Option<string> := None;
    var index := 0;
    while index < |ls|
      invariant Parsing(g, ls, cuts, blocks, sectionStack, currentHeading)
      invariant index == cuts[|blocks|] <= |ls|
      decreases |ls| - index
    {
      var startIndex := index;
      var kind := Content;
      ghost var path, title := sectionStack, currentHeading;
      var headingMatch := g.headingOf(Strip(ls[index].text));
      if IsBlank(ls[index].text) {
        kind := Blank;
        index := ConsumeBlankLines(ls, index);
      } else if headingMatch.Some? {
        kind := HeadingBlock;
        var heading := headingMatch.value;
        sectionStack := Truncate(sectionStack, heading.level - 1) + [heading.title];
        currentHeading := Some(heading.title);
        index := ConsumeBlankLines(ls, index + 1);
      } else {
        index := ConsumeContent(g, ls, index);
        index := ConsumeBlankLines(ls, index);
      }
      assert BlockRun(g, ls, startIndex, index) && startIndex < index;
      var block := Block(ls[startIndex].start, ls[index - 1].end, kind, sectionStack, currentHeading);
      ParsingStep(g, ls, cuts, blocks, path, title, block, index);
      blocks, cuts := blocks + [block], cuts + [index];
    }
    OnlyFirstIsBlank(g, ls, cuts, blocks);
  }

  // -- Consequences --

  /** Blocks follow each other without gaps from the first character to the last. */
  ghost predicate Tiles(blocks: seq<Block>, from: nat, to: nat)
  {
    && (forall i :: 0 <= i < |blocks| ==> blocks[i].start < blocks[i].end)
    && (forall i :: 0 < i < |blocks| ==> blocks[i].start == blocks[i - 1].end)
    && (if blocks == [] then from == to
        else blocks[0].start == from && blocks[|blocks| - 1].end == to)
  }

  /** The section path and heading of a block can differ from those of the block before it only
      when the block is a heading. */
  ghost predicate SectionsChangeAtHeadings(blocks: seq<Block>)
  {
    forall i :: 0 < i < |blocks| && blocks[i].kind != HeadingBlock ==>
      blocks[i].path == blocks[i - 1].path && blocks[i].heading == blocks[i - 1].heading
  }

  lemma {:induction false} BlockSpansLines(g: Grammar, text: string, lines: seq<Line>, cuts: seq<nat>,
                                           blocks: seq<Block>, i: nat)
    requires text != "" && LinesOf(text, lines) && Parsed(g, lines, cuts, blocks) && i < |blocks|
    ensures cuts[i] < |lines| && 0 < cuts[i + 1] <= |lines|
    ensures blocks[i].start == lines[cuts[i]].start < blocks[i].end == lines[cuts[i + 1] - 1].end
    ensures cuts[i + 1] < |lines| ==> blocks[i].end == lines[cuts[i + 1]].start
  {
    assert IsBlock(g, lines, cuts, i, blocks[i]);
    LinesIncrease(text, lines, cuts[i], cuts[i + 1] - 1);
  }

  lemma {:induction false} ParsedTiles(g: Grammar, text: string, lines: seq<Line>, cuts: seq<nat>, blocks: seq<Block>)
    requires text != "" && LinesOf(text, lines) && Parsed(g, lines, cuts, blocks) && cuts[|blocks|] == |lines|
    ensures Tiles(blocks, 0, |text|)
  {
    forall i | 0 <= i < |blocks|
      ensures blocks[i].start < blocks[i].end
      ensures i > 0 ==> blocks[i].start == blocks[i - 1].end
    {
      BlockSpansLines(g, text, lines, cuts, blocks, i);
      if i > 0 {
        BlockSpansLines(g, text, lines, cuts, blocks, i - 1);
      }
    }
    BlockSpansLines(g, text, lines, cuts, blocks, 0);
    BlockSpansLines(g, text, lines, cuts, blocks, |blocks| - 1);
  }

  lemma {:induction false} ParsedSections(g: Grammar, lines: seq<Line>, cuts: seq<nat>, blocks: seq<Block>)
    requires Parsed(g, lines, cuts, blocks)
    ensures SectionsChangeAtHeadings(blocks)
    ensures forall i :: 0 <= i < |blocks| ==> |blocks[i].path| <= 6
    ensures forall i :: 0 <= i < |blocks| ==>
      (blocks[i].heading.None? <==> blocks[i].path == [])
      && (blocks[i].path != [] ==> blocks[i].heading == Some(blocks[i].path[|blocks[i].path| - 1]))
  {
    forall i | 0 <= i < |blocks|
      ensures |blocks[i].path| <= 6
      ensures blocks[i].heading.None? <==> blocks[i].path == []
      ensures blocks[i].path != [] ==> blocks[i].heading == Some(blocks[i].path[|blocks[i].path| - 1])
    {
      assert IsBlock(g, lines, cuts, i, blocks[i]);
      var hs := HeadingsIn(g, lines, cuts, i + 1);
      if hs != [] {
        PathShape(hs, |hs|);
      }
    }
    forall i | 0 < i < |blocks| && blocks[i].kind != HeadingBlock
      ensures blocks[i].path == blocks[i - 1].path && blocks[i].heading == blocks[i - 1].heading
    {
      assert IsBlock(g, lines, cuts, i, blocks[i]);
      assert IsBlock(g, lines, cuts, i - 1, blocks[i - 1]);
    }
  }
}
