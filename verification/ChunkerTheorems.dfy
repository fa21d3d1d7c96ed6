/** What every chunking result satisfies, for every document, grammar and token estimator. */
module ChunkerTheorems {
  import opened BlockParser
  import opened Chunker
  import opened MarkdownLines
  import opened Options
  import opened SectionPath
  import opened Splitter
  import opened Words

  // -- Coverage --

  function PreviousEnd(chunks: seq<ChunkPlan>, i: nat): nat
    requires i <= |chunks|
  {
    if i == 0 then 0 else chunks[i - 1].charEnd
  }

  function PreviousStart(chunks: seq<ChunkPlan>, i: nat): nat
    requires i <= |chunks|
  {
    if i == 0 then 0 else chunks[i - 1].charStart
  }

  /** Chunk i starts inside the chunk before it, or at its end, and ends later. */
  ghost predicate Follows(text: string, chunks: seq<ChunkPlan>, i: nat)
    requires i < |chunks|
  {
    && PreviousStart(chunks, i) <= chunks[i].charStart <= PreviousEnd(chunks, i) < chunks[i].charEnd <= |text|
    && chunks[i].ordinal == i
  }

  /** The stored text of the first n chunks, each without the part that repeats the chunk before. */
  function Reassemble(text: string, chunks: seq<ChunkPlan>, n: nat): string
    requires n <= |chunks| && forall i :: 0 <= i < n ==> Follows(text, chunks, i)
  {
    if n == 0 then ""
    else
      var c := chunks[n - 1];
      assert Follows(text, chunks, n - 1);
      Reassemble(text, chunks, n - 1) + text[c.charStart..c.charEnd][PreviousEnd(chunks, n - 1) - c.charStart..]
  }

  /** A chunk in terms of the blocks it covers. */
  lemma {:induction false} ChunkInBlocks(s: Settings, text: string, blocks: seq<Block>, cuts: seq<nat>,
                                         chunks: seq<ChunkPlan>, i: nat)
    requires WithinText(text, blocks) && i < |chunks| && i + 1 < |cuts|
    requires ChunkAt(s, text, blocks, cuts, chunks, i)
    ensures cuts[i] < cuts[i + 1] <= |blocks|
    ensures var base := blocks[cuts[i]].start;
            && chunks[i].charEnd == blocks[cuts[i + 1] - 1].end
            && chunks[i].charStart <= base < chunks[i].charEnd <= |text|
            && StartIs(s, text, chunks[..i], base, chunks[i].charEnd, chunks[i].charStart)
            && chunks[i].ordinal == i
            && chunks[i].tokenCount == s.Tokens(text, chunks[i].charStart, chunks[i].charEnd)
  {
    var region := blocks[cuts[i]..cuts[i + 1]];
    assert region[0] == blocks[cuts[i]];
    assert region[|region| - 1] == blocks[cuts[i + 1] - 1];
  }

  /** The own region of chunk i starts where the chunk before it ends. */
  lemma {:induction false} RegionBounds(s: Settings, text: string, t: Trace, chunks: seq<ChunkPlan>, i: nat)
    requires ChunksOf(s, text, t, chunks) && i < |chunks|
    ensures t.cuts[i] < t.cuts[i + 1] <= |t.blocks|
    ensures t.blocks[t.cuts[i]].start == PreviousEnd(chunks, i)
  {
    PiecesOfTrace(s, text, t, chunks);
    RegionOfTrace(s, text, t, chunks, i);
    if i > 0 {
      EndOfRegion(s, text, t, chunks, i - 1);
      NextStartsAtEnd(t.blocks, |text|, t.cuts[i]);
    }
  }

  lemma {:induction false} RegionOfTrace(s: Settings, text: string, t: Trace, chunks: seq<ChunkPlan>, i: nat)
    requires ChunksOf(s, text, t, chunks) && i < |chunks|
    ensures t.cuts[i] < t.cuts[i + 1] <= |t.blocks| && t.cuts[0] == 0
  {
    ChunkInBlocks(s, text, t.blocks, t.cuts, chunks, i);
  }

  lemma {:induction false} NextStartsAtEnd(blocks: seq<Block>, to: nat, c: nat)
    requires Tiles(blocks, 0, to) && 0 < c < |blocks|
    ensures blocks[c].start == blocks[c - 1].end
  {
  }

  lemma {:induction false} ChunkFollows(s: Settings, text: string, t: Trace, chunks: seq<ChunkPlan>, i: nat)
    requires ChunksOf(s, text, t, chunks) && i < |chunks|
    ensures Follows(text, chunks, i)
    ensures chunks[i].charStart < PreviousEnd(chunks, i) ==>
      s.Tokens(text, chunks[i].charStart, chunks[i].charEnd) <= s.config.max
  {
    RegionBounds(s, text, t, chunks, i);
    ChunkInBlocks(s, text, t.blocks, t.cuts, chunks, i);
    NoOverlapIff(s, text, chunks[..i], t.blocks[t.cuts[i]].start, chunks[i].charEnd, chunks[i].charStart);
    if i > 0 {
      ChunkInBlocks(s, text, t.blocks, t.cuts, chunks, i - 1);
      assert chunks[..i][|chunks[..i]| - 1] == chunks[i - 1];
    }
  }

  lemma {:induction false} PiecesOfTrace(s: Settings, text: string, t: Trace, chunks: seq<ChunkPlan>)
    requires ChunksOf(s, text, t, chunks)
    ensures GoodPieces(s, text, t.blocks, |text|)
    ensures t.blocks != [] && t.blocks[|t.blocks| - 1].end == |text|
  {
    BlocksAreGood(s, text, t.lines, t.lineCuts, t.parsed, t.starts, t.blocks);
  }

  lemma {:induction false} EndOfRegion(s: Settings, text: string, t: Trace, chunks: seq<ChunkPlan>, i: nat)
    requires ChunksOf(s, text, t, chunks) && i < |chunks|
    ensures 0 < t.cuts[i + 1] <= |t.blocks| && chunks[i].charEnd == t.blocks[t.cuts[i + 1] - 1].end
  {
    ChunkInBlocks(s, text, t.blocks, t.cuts, chunks, i);
  }

  lemma {:induction false} LastChunkEndsText(s: Settings, text: string, t: Trace, chunks: seq<ChunkPlan>)
    requires ChunksOf(s, text, t, chunks)
    ensures chunks != [] && chunks[|chunks| - 1].charEnd == |text|
  {
    PiecesOfTrace(s, text, t, chunks);
    if chunks != [] {
      EndOfRegion(s, text, t, chunks, |chunks| - 1);
    }
  }

  /** No character is lost or invented: each chunk follows the one before it, the last one ends
      where the text ends, and the chunks without their overlaps spell the text. */
  lemma {:induction false} ChunksCoverText(s: Settings, text: string, t: Trace, chunks: seq<ChunkPlan>)
    requires ChunksOf(s, text, t, chunks)
    ensures chunks != [] && chunks[|chunks| - 1].charEnd == |text|
    ensures forall i :: 0 <= i < |chunks| ==> Follows(text, chunks, i)
    ensures Reassemble(text, chunks, |chunks|) == text
  {
    LastChunkEndsText(s, text, t, chunks);
    forall i | 0 <= i < |chunks|
      ensures Follows(text, chunks, i)
    {
      ChunkFollows(s, text, t, chunks, i);
    }
    ReassembleIsPrefix(text, chunks, |chunks|);
    assert text[..|text|] == text;
  }

  lemma {:induction false} ReassembleIsPrefix(text: string, chunks: seq<ChunkPlan>, n: nat)
    requires n <= |chunks| && forall i :: 0 <= i < |chunks| ==> Follows(text, chunks, i)
    ensures PreviousEnd(chunks, n) <= |text|
    ensures Reassemble(text, chunks, n) == text[..PreviousEnd(chunks, n)]
  {
    if n > 0 {
      ReassembleIsPrefix(text, chunks, n - 1);
      var c, p := chunks[n - 1], PreviousEnd(chunks, n - 1);
      assert Follows(text, chunks, n - 1);
      SliceOfSlice(text, c.charStart, c.charEnd, p - c.charStart, c.charEnd - c.charStart);
      assert text[c.charStart..c.charEnd][p - c.charStart..] == text[p..c.charEnd];
      assert text[..c.charEnd] == text[..p] + text[p..c.charEnd];
    }
  }

  // -- Size --

  /** Without overlap: a region of several pieces is within the target, and a single piece fits. */
  lemma {:induction false} RegionIsBounded(s: Settings, text: string, t: Trace, chunks: seq<ChunkPlan>, i: nat)
    requires ChunksOf(s, text, t, chunks) && i < |chunks|
    ensures PreviousEnd(chunks, i) < chunks[i].charEnd <= |text|
    ensures chunks[i].charStart <= chunks[i].charEnd
    ensures chunks[i].tokenCount == s.Tokens(text, chunks[i].charStart, chunks[i].charEnd)
    ensures s.Tokens(text, PreviousEnd(chunks, i), chunks[i].charEnd) <= s.config.max
      || (t.cuts[i + 1] == t.cuts[i] + 1 && AtMostOneWord(text[PreviousEnd(chunks, i)..chunks[i].charEnd]))
  {
    RegionBounds(s, text, t, chunks, i);
    ChunkInBlocks(s, text, t.blocks, t.cuts, chunks, i);
    RegionFits(s, text, t, chunks, i);
  }

  lemma {:induction false} RegionFits(s: Settings, text: string, t: Trace, chunks: seq<ChunkPlan>, i: nat)
    requires ChunksOf(s, text, t, chunks) && i < |chunks|
    ensures t.cuts[i] < t.cuts[i + 1] <= |t.blocks|
    ensures if t.cuts[i + 1] == t.cuts[i] + 1 then Fits(s, text, t.blocks[t.cuts[i]], s.config.max)
            else Within(s, text, t.blocks, t.cuts[i], t.cuts[i + 1])
  {
    PiecesOfTrace(s, text, t, chunks);
    assert ChunkAt(s, text, t.blocks, t.cuts, chunks, i);
    assert RegionAt(s, text, t.blocks, t.cuts, i);
  }

  /** Every chunk is within the maximum, unless it is without overlap a single piece in which no
      second word starts: one word that cannot be cut, or a block of white space. */
  lemma {:induction false} ChunksAreBounded(s: Settings, text: string, t: Trace, chunks: seq<ChunkPlan>, i: nat)
    requires ChunksOf(s, text, t, chunks) && i < |chunks|
    ensures Follows(text, chunks, i)
    ensures chunks[i].tokenCount == s.Tokens(text, chunks[i].charStart, chunks[i].charEnd)
    ensures chunks[i].tokenCount <= s.config.max
      || (&& chunks[i].charStart == PreviousEnd(chunks, i)
          && t.cuts[i + 1] == t.cuts[i] + 1
          && AtMostOneWord(text[chunks[i].charStart..chunks[i].charEnd]))
  {
    ChunkFollows(s, text, t, chunks, i);
    RegionIsBounded(s, text, t, chunks, i);
  }

  /** Packing is greedy: a chunk that is not the last one stops at a heading, or because its region
      would exceed the target with the next block added; and a region of several blocks is within
      the target. */
  lemma {:induction false} PackingIsGreedy(s: Settings, text: string, t: Trace, chunks: seq<ChunkPlan>, i: nat)
    requires ChunksOf(s, text, t, chunks) && i < |chunks|
    ensures t.cuts[i] < t.cuts[i + 1] <= |t.blocks|
    ensures t.cuts[i + 1] == t.cuts[i] + 1 || Within(s, text, t.blocks, t.cuts[i], t.cuts[i + 1])
    ensures i + 1 < |chunks| ==>
      t.cuts[i + 1] < |t.blocks|
      && (t.blocks[t.cuts[i + 1]].kind == HeadingBlock || !Within(s, text, t.blocks, t.cuts[i], t.cuts[i + 1] + 1))
  {
    assert ChunkAt(s, text, t.blocks, t.cuts, chunks, i);
    assert Region(s, text, t.blocks, t.cuts[i], t.cuts[i + 1]);
    if i + 1 < |chunks| {
      assert ChunkAt(s, text, t.blocks, t.cuts, chunks, i + 1);
      assert Full(s, text, t.blocks, t.cuts[i], t.cuts[i + 1]);
    }
  }

  // -- Sections --

  lemma {:induction false} SameSectionThrough(blocks: seq<Block>, a: nat, k: nat)
    requires a <= k < |blocks| && SectionsChangeAtHeadings(blocks)
    requires forall j :: a < j <= k ==> blocks[j].kind != HeadingBlock
    ensures blocks[k].path == blocks[a].path && blocks[k].heading == blocks[a].heading
  {
    if a < k {
      SameSectionThrough(blocks, a, k - 1);
    }
  }

  /** The own region of a chunk never crosses a section: all its blocks lie in the section recorded
      with the chunk, and only its first block can be a heading. */
  lemma {:induction false} ChunkStaysInSection(s: Settings, text: string, t: Trace, chunks: seq<ChunkPlan>, i: nat,
                                               k: nat)
    requires ChunksOf(s, text, t, chunks) && i < |chunks|
    requires t.cuts[i] <= k < t.cuts[i + 1] <= |t.blocks|
    ensures t.blocks[k].path == chunks[i].sectionPath && t.blocks[k].heading == chunks[i].heading
    ensures t.blocks[k].kind == HeadingBlock ==> k == t.cuts[i]
  {
    BlocksAreGood(s, text, t.lines, t.lineCuts, t.parsed, t.starts, t.blocks);
    assert ChunkAt(s, text, t.blocks, t.cuts, chunks, i);
    var a, b := t.cuts[i], t.cuts[i + 1];
    assert forall j :: a < j < b ==> t.blocks[j].kind != HeadingBlock by {
      assert Region(s, text, t.blocks, a, b);
    }
    var m := SectionBlock(t.blocks, a, b, chunks[i]);
    SameSectionThrough(t.blocks, a, k);
    SameSectionThrough(t.blocks, a, m);
  }

  lemma {:induction false} SectionBlock(blocks: seq<Block>, a: nat, b: nat, plan: ChunkPlan) returns (m: nat)
    requires a < b <= |blocks| && IsSectionOf(blocks[a..b], plan)
    ensures a <= m < b && plan.heading == blocks[m].heading && plan.sectionPath == blocks[m].path
  {
    var region := blocks[a..b];
    var k :| 0 <= k < |region| && plan.heading == region[k].heading && plan.sectionPath == region[k].path;
    m := a + k;
  }

  lemma {:induction false} HeadingsGrow(g: Grammar, lines: seq<Line>, cuts: seq<nat>, i: nat, n: nat)
    requires i <= n <= |cuts| && forall k :: 0 <= k < n ==> cuts[k] < |lines|
    ensures HeadingsIn(g, lines, cuts, i) <= HeadingsIn(g, lines, cuts, n)
    decreases n - i
  {
    if i < n {
      HeadingsGrow(g, lines, cuts, i, n - 1);
    }
  }

  /** The section of a block: the path after the headings up to it, with at most six entries, ending
      in the current heading. When no heading of the document skips a level, it is the chain of
      nearest earlier headings of lower levels. */
  lemma {:induction false} SectionIsHeadingChain(g: Grammar, lines: seq<Line>, cuts: seq<nat>, blocks: seq<Block>,
                                                 i: nat)
    requires Parsed(g, lines, cuts, blocks) && i < |blocks|
    requires forall k :: 0 <= k < |blocks| ==> cuts[k] < |lines|
    ensures var hs, n := HeadingsIn(g, lines, cuts, |blocks|), |HeadingsIn(g, lines, cuts, i + 1)|;
            && n <= |hs|
            && blocks[i].path == PathAfter(hs, n)
            && |blocks[i].path| <= 6
            && (n > 0 ==> blocks[i].heading == Some(hs[n - 1].title)
                          && blocks[i].path != [] && blocks[i].path[|blocks[i].path| - 1] == hs[n - 1].title)
            && (NoSkip(hs) ==> blocks[i].path == ExpectedPath(hs, n))
  {
    var hs, first := HeadingsIn(g, lines, cuts, |blocks|), HeadingsIn(g, lines, cuts, i + 1);
    var n := |first|;
    HeadingsGrow(g, lines, cuts, i + 1, |blocks|);
    assert IsBlock(g, lines, cuts, i, blocks[i]);
    PathOfPrefix(first, hs, n);
    if n > 0 {
      PathShape(hs, n);
      assert hs[n - 1] == first[n - 1];
    }
    if NoSkip(hs) {
      NoSkipGivesChain(hs);
      assert AgreesAt(hs, n);
    }
  }
}
