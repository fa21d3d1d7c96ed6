/** The greedy packer of blocks into chunks, with overlap between neighbouring chunks. */
module Chunker {
  import opened BlockParser
  import opened MarkdownLines
  import opened Options
  import opened Splitter
  import opened Words

  datatype ChunkPlan = ChunkPlan(
    ordinal: nat, charStart: nat, charEnd: nat, tokenCount: nat,
    heading: Option<string>, sectionPath: seq<string>, configHash: string)

  // -- Overlap --

  /** From position `k` of the previous span the text up to the new region is below the overlap size. */
  ghost predicate TooShort(s: Settings, text: string, from: nat, base: nat, k: nat)
    requires from <= base <= |text|
  {
    from + k <= base && s.Tokens(text, from + k, base) < s.config.overlap
  }

  /** Word `k` of the previous span opens the overlap: it is the latest word from which the span to
      the new region reaches the overlap size, or the first word if none does. */
  ghost predicate OpensOverlap(s: Settings, text: string, from: nat, base: nat, k: nat)
    requires from <= base <= |text|
  {
    var t := text[from..base];
    && IsWordStart(t, k)
    && (forall j: nat :: IsWordStart(t, j) && k < j ==> TooShort(s, text, from, base, j))
    && (!TooShort(s, text, from, base, k) || forall j: nat :: IsWordStart(t, j) ==> k <= j)
  }

  /** Where the chunk over [base, end) starts, when the chunk before it starts at `from`. */
  ghost predicate OverlapStartIs(s: Settings, text: string, from: nat, base: nat, end: nat, start: nat)
    requires from <= base <= end <= |text|
  {
    if HasWord(text[from..base])
    then exists k: nat ::
      && OpensOverlap(s, text, from, base, k)
      && start == if s.Tokens(text, from + k, end) > s.config.max then base else from + k
    else start == base
  }

  /** The start of the next chunk after `chunks`. */
  ghost predicate StartIs(s: Settings, text: string, chunks: seq<ChunkPlan>, base: nat, end: nat, start: nat)
    requires base <= end <= |text|
  {
    if chunks == [] || s.config.overlap == 0 then start == base
    else
      var from := chunks[|chunks| - 1].charStart;
      from <= base && OverlapStartIs(s, text, from, base, end, start)
  }

  lemma {:induction false} OverlapWordIsUnique(s: Settings, text: string, from: nat, base: nat, k: nat, j: nat)
    requires from <= base <= |text|
    requires OpensOverlap(s, text, from, base, k) && OpensOverlap(s, text, from, base, j)
    ensures k == j
  {
  }

  /** The exact condition for no overlap: it is disabled, there is no earlier chunk, the previous
      span has no word, or the chunk extended to the overlap word would exceed the maximum. */
  lemma {:induction false} NoOverlapIff(s: Settings, text: string, chunks: seq<ChunkPlan>, base: nat, end: nat,
                                        start: nat)
    requires base <= end <= |text| && StartIs(s, text, chunks, base, end, start)
    ensures start == base <==>
      || chunks == []
      || s.config.overlap == 0
      || (var from := chunks[|chunks| - 1].charStart;
          || !HasWord(text[from..base])
          || exists k: nat :: OpensOverlap(s, text, from, base, k) && s.Tokens(text, from + k, end) > s.config.max)
    ensures start <= base
    ensures start < base ==> s.Tokens(text, start, end) <= s.config.max && chunks[|chunks| - 1].charStart <= start
  {
    if chunks != [] && s.config.overlap > 0 {
      var from := chunks[|chunks| - 1].charStart;
      if HasWord(text[from..base]) {
        var k: nat :| OpensOverlap(s, text, from, base, k)
          && start == if s.Tokens(text, from + k, end) > s.config.max then base else from + k;
        forall j: nat | OpensOverlap(s, text, from, base, j)
          ensures j == k
        {
          OverlapWordIsUnique(s, text, from, base, k, j);
        }
      }
    }
  }

  method OverlapStart(s: Settings, text: string, base: nat, end: nat, chunks: seq<ChunkPlan>) returns (start: nat)
    requires base <= end <= |text|
    requires chunks != [] ==> chunks[|chunks| - 1].charStart <= base
    ensures StartIs(s, text, chunks, base, end, start)
  {
    if chunks == [] || s.config.overlap == 0 {
      return base;
    }
    var from := chunks[|chunks| - 1].charStart;
    var candidate := FindOverlapWord(s, text, from, base);
    if candidate == base {
      return base;
    }
    assert OpensOverlap(s, text, from, base, candidate - from);
    if s.Tokens(text, candidate, end) > s.config.max {
      return base;
    }
    return candidate;
  }

  /** The backward search of `OverlapStart` over the words of the previous span. */
  method FindOverlapWord(s: Settings, text: string, from: nat, base: nat) returns (candidate: nat)
    requires from <= base <= |text|
    ensures candidate <= base
    ensures candidate == base <==> !HasWord(text[from..base])
    ensures candidate < base ==> from <= candidate && OpensOverlap(s, text, from, base, candidate - from)
  {
    var previousText := text[from..base];
    var matches := FindWords(previousText);
    candidate := base;
    if matches == [] {
      return;
    }
    var i := |matches|;
    while i > 0
      invariant 0 <= i <= |matches|
      invariant candidate == CandidateAt(from, base, matches, i)
      invariant ShortAfter(s, text, from, base, matches, i)
    {
      i := i - 1;
      candidate := from + matches[i].start;
      MatchInRange(previousText, matches, i);
      if s.Tokens(text, candidate, base) >= s.config.overlap {
        break;
      }
    }
    MatchInRange(previousText, matches, i);
    LatestMatchOpensOverlap(s, text, from, base, matches, i);
  }

  function CandidateAt(from: nat, base: nat, matches: seq<Span>, i: nat): nat
    requires i <= |matches|
  {
    if i == |matches| then base else from + matches[i].start
  }

  lemma {:induction false} MatchInRange(t: string, matches: seq<Span>, i: nat)
    requires AreWords(t, matches) && i < |matches|
    ensures matches[i].start < |t|
  {
    assert IsMatch(t, matches[i]);
  }

  /** From match i on every match is too close to the new region. */
  ghost predicate ShortAfter(s: Settings, text: string, from: nat, base: nat, matches: seq<Span>, i: nat)
    requires from <= base <= |text|
  {
    forall j :: i <= j < |matches| ==> TooShort(s, text, from, base, matches[j].start)
  }

  lemma {:induction false} LatestMatchOpensOverlap(s: Settings, text: string, from: nat, base: nat,
                                                   matches: seq<Span>, i: nat)
    requires from <= base <= |text| && AreWords(text[from..base], matches) && i < |matches|
    requires ShortAfter(s, text, from, base, matches, i + 1)
    requires i == 0 || !TooShort(s, text, from, base, matches[i].start)
    ensures OpensOverlap(s, text, from, base, matches[i].start)
  {
    var t, k := text[from..base], matches[i].start;
    assert IsMatch(t, matches[i]);
    forall j: nat | IsWordStart(t, j) && k < j
      ensures TooShort(s, text, from, base, j)
    {
      var n := LaterWordMatch(t, matches, i, j);
    }
    if i == 0 {
      forall j: nat | IsWordStart(t, j)
        ensures k <= j
      {
        FirstWordMatch(t, matches, j);
      }
    }
  }

  lemma {:induction false} LaterWordMatch(t: string, matches: seq<Span>, i: nat, j: nat) returns (n: nat)
    requires AreWords(t, matches) && i < |matches| && IsWordStart(t, j) && matches[i].start < j
    ensures i < n < |matches| && matches[n].start == j
  {
    n := WordHasMatch(t, matches, j, |matches|);
    if n <= i {
      MatchesIncrease(t, matches, n, i);
    }
  }

  lemma {:induction false} FirstWordMatch(t: string, matches: seq<Span>, j: nat)
    requires AreWords(t, matches) && matches != [] && IsWordStart(t, j)
    ensures matches[0].start <= j
  {
    var n := WordHasMatch(t, matches, j, |matches|);
    MatchesIncrease(t, matches, 0, n);
  }

  // -- Packing --

  /** The own region of chunk i is the blocks from cuts[i] to cuts[i + 1]. */
  ghost predicate RegionAt(s: Settings, text: string, blocks: seq<Block>, cuts: seq<nat>, i: nat)
    requires WithinText(text, blocks) && i + 1 < |cuts|
  {
    var a, b := cuts[i], cuts[i + 1];
    && a < b <= |blocks|
    && Region(s, text, blocks, a, b)
    && (b < |blocks| ==> Full(s, text, blocks, a, b))
  }

  /** A region has no heading after its first block, and is within the target unless it is a
      single block. */
  ghost predicate Region(s: Settings, text: string, blocks: seq<Block>, a: nat, b: nat)
    requires a < b <= |blocks| && WithinText(text, blocks)
  {
    && (forall k :: a < k < b ==> blocks[k].kind != HeadingBlock)
    && (b == a + 1 || Within(s, text, blocks, a, b))
  }

  ghost predicate Within(s: Settings, text: string, blocks: seq<Block>, a: nat, b: nat)
    requires a < b <= |blocks| && WithinText(text, blocks)
  {
    blocks[a].start <= blocks[b - 1].end && s.Tokens(text, blocks[a].start, blocks[b - 1].end) <= s.config.target
  }

  /** The next block could not join the region: it is a heading or it would exceed the target. */
  ghost predicate Full(s: Settings, text: string, blocks: seq<Block>, a: nat, b: nat)
    requires a < b < |blocks| && WithinText(text, blocks)
  {
    blocks[b].kind == HeadingBlock || !Within(s, text, blocks, a, b + 1)
  }

  /** Chunk i: its own region, the overlap before it, its tokens and its section. */
  ghost predicate ChunkAt(s: Settings, text: string, blocks: seq<Block>, cuts: seq<nat>, chunks: seq<ChunkPlan>, i: nat)
    requires WithinText(text, blocks) && i < |chunks| && i + 1 < |cuts|
  {
    && RegionAt(s, text, blocks, cuts, i)
    && PlanOf(s, text, blocks[cuts[i]..cuts[i + 1]], chunks[..i], chunks[i])
  }

  /** `plan` is the chunk for `region` after `chunks`. */
  ghost predicate PlanOf(s: Settings, text: string, region: seq<Block>, chunks: seq<ChunkPlan>, plan: ChunkPlan)
    requires region != [] && WithinText(text, region)
  {
    && region[0].start < region[|region| - 1].end
    && plan.ordinal == |chunks|
    && plan.charEnd == region[|region| - 1].end
    && StartIs(s, text, chunks, region[0].start, plan.charEnd, plan.charStart)
    && plan.charStart <= region[0].start
    && plan.tokenCount == s.Tokens(text, plan.charStart, plan.charEnd)
    && IsSectionOf(region, plan)
    && plan.configHash == s.configHash
  }

  /** The section of the first block that is not blank, or of the first block if all are. */
  ghost predicate IsSectionOf(region: seq<Block>, plan: ChunkPlan)
  {
    exists k ::
      && 0 <= k < |region|
      && (forall j :: 0 <= j < k ==> region[j].kind == Blank)
      && (region[k].kind != Blank || (k == 0 && forall j :: 0 <= j < |region| ==> region[j].kind == Blank))
      && plan.heading == region[k].heading && plan.sectionPath == region[k].path
  }

  ghost predicate Chunked(s: Settings, text: string, blocks: seq<Block>, cuts: seq<nat>, chunks: seq<ChunkPlan>)
    requires WithinText(text, blocks)
  {
    && |cuts| == |chunks| + 1
    && cuts[0] == 0 && cuts[|chunks|] <= |blocks|
    && (forall i :: 0 <= i < |chunks| ==> ChunkAt(s, text, blocks, cuts, chunks, i))
  }

  method FirstNonBlank(blocks: seq<Block>) returns (block: Block)
    requires blocks != []
    ensures exists k ::
      && 0 <= k < |blocks| && block == blocks[k]
      && (forall j :: 0 <= j < k ==> blocks[j].kind == Blank)
      && (blocks[k].kind != Blank || (k == 0 && forall j :: 0 <= j < |blocks| ==> blocks[j].kind == Blank))
  {
    for k := 0 to |blocks|
      invariant forall j :: 0 <= j < k ==> blocks[j].kind == Blank
    {
      if blocks[k].kind != Blank {
        return blocks[k];
      }
    }
    return blocks[0];
  }

  method PlanChunk(s: Settings, text: string, blocks: seq<Block>, chunks: seq<ChunkPlan>) returns (plan: ChunkPlan)
    requires blocks != [] && WithinText(text, blocks)
    requires blocks[0].start < blocks[|blocks| - 1].end
    requires chunks != [] ==> chunks[|chunks| - 1].charStart <= blocks[0].start
    ensures PlanOf(s, text, blocks, chunks, plan)
  {
    var base, end := blocks[0].start, blocks[|blocks| - 1].end;
    var start := OverlapStart(s, text, base, end, chunks);
    NoOverlapIff(s, text, chunks, base, end, start);
    var section := FirstNonBlank(blocks);
    plan := ChunkPlan(|chunks|, start, end, s.Tokens(text, start, end), section.heading, section.path, s.configHash);
  }

  lemma {:induction false} TilesIncrease(blocks: seq<Block>, from: nat, to: nat, i: nat, j: nat)
    requires Tiles(blocks, from, to) && i <= j < |blocks|
    ensures blocks[i].start <= blocks[j].start < blocks[j].end
    ensures i < j ==> blocks[i].end <= blocks[j].start
    decreases j
  {
    if i < j {
      TilesIncrease(blocks, from, to, i, j - 1);
    }
  }

  lemma {:induction false} ChunkedSnoc(s: Settings, text: string, blocks: seq<Block>, cuts: seq<nat>,
                                       chunks: seq<ChunkPlan>, b: nat, plan: ChunkPlan)
    requires WithinText(text, blocks) && Chunked(s, text, blocks, cuts, chunks)
    requires cuts[|chunks|] < b <= |blocks|
    requires Region(s, text, blocks, cuts[|chunks|], b)
    requires b < |blocks| ==> Full(s, text, blocks, cuts[|chunks|], b)
    requires PlanOf(s, text, blocks[cuts[|chunks|]..b], chunks, plan)
    ensures Chunked(s, text, blocks, cuts + [b], chunks + [plan])
  {
    var cs, ps := cuts + [b], chunks + [plan];
    forall i | 0 <= i < |ps|
      ensures ChunkAt(s, text, blocks, cs, ps, i)
    {
      assert cs[i] == cuts[i];
      if i < |chunks| {
        assert ChunkAt(s, text, blocks, cuts, chunks, i);
        assert cs[i + 1] == cuts[i + 1];
        assert ps[..i] == chunks[..i];
      } else {
        assert ps[..i] == chunks;
      }
    }
  }

  /** A region of a tiling starts where the region before it ends. */
  lemma {:induction false} LastChunkStartsBefore(s: Settings, text: string, blocks: seq<Block>, cuts: seq<nat>,
                                                 chunks: seq<ChunkPlan>)
    requires WithinText(text, blocks) && Chunked(s, text, blocks, cuts, chunks)
    requires Tiles(blocks, 0, |text|) && cuts[|chunks|] < |blocks|
    ensures chunks != [] ==> chunks[|chunks| - 1].charStart <= blocks[cuts[|chunks|]].start
  {
    if chunks != [] {
      var i := |chunks| - 1;
      assert ChunkAt(s, text, blocks, cuts, chunks, i);
      TilesIncrease(blocks, 0, |text|, cuts[i], cuts[i + 1]);
    }
  }

  /** Everything `Chunk` computes on the way, for stating what its result means. */
  datatype Trace = Trace(lines: seq<Line>, lineCuts: seq<nat>, parsed: seq<Block>, starts: seq<nat>,
                         blocks: seq<Block>, cuts: seq<nat>)

  ghost predicate ChunksOf(s: Settings, text: string, t: Trace, chunks: seq<ChunkPlan>)
  {
    && text != ""
    && LinesOf(text, t.lines)
    && Parsed(s.grammar, t.lines, t.lineCuts, t.parsed) && t.lineCuts[|t.parsed|] == |t.lines|
    && WithinText(text, t.parsed)
    && SplitsAll(s, text, t.parsed, t.starts, t.blocks)
    && WithinText(text, t.blocks)
    && Chunked(s, text, t.blocks, t.cuts, chunks) && t.cuts[|chunks|] == |t.blocks|
  }

  lemma {:induction false} TilesWithin(blocks: seq<Block>, text: string)
    requires Tiles(blocks, 0, |text|)
    ensures WithinText(text, blocks)
  {
    forall i | 0 <= i < |blocks|
      ensures blocks[i].start < blocks[i].end <= |text|
    {
      TilesIncrease(blocks, 0, |text|, i, |blocks| - 1);
    }
  }

  lemma {:induction false} BlocksAreGood(s: Settings, text: string, lines: seq<Line>, lineCuts: seq<nat>,
                                         parsed: seq<Block>, starts: seq<nat>, blocks: seq<Block>)
    requires text != "" && LinesOf(text, lines)
    requires Parsed(s.grammar, lines, lineCuts, parsed) && lineCuts[|parsed|] == |lines|
    requires WithinText(text, parsed) && SplitsAll(s, text, parsed, starts, blocks)
    ensures GoodPieces(s, text, blocks, |text|)
  {
    ParsedTiles(s.grammar, text, lines, lineCuts, parsed);
    ParsedSections(s.grammar, lines, lineCuts, parsed);
    PiecesAreGood(s, text, parsed, starts, blocks, |parsed|);
    assert blocks[..|blocks|] == blocks;
  }

  /** What the packing loop keeps after n blocks: finished chunks and the current region. */
  ghost predicate Packing(s: Settings, text: string, blocks: seq<Block>, cuts: seq<nat>, chunks: seq<ChunkPlan>,
                          current: seq<Block>, n: nat)
    requires WithinText(text, blocks)
  {
    && Chunked(s, text, blocks, cuts, chunks)
    && cuts[|chunks|] <= n <= |blocks| && current == blocks[cuts[|chunks|]..n]
    && (current != [] ==> Region(s, text, blocks, cuts[|chunks|], n))
  }

  lemma {:induction false} RegionGrows(s: Settings, text: string, blocks: seq<Block>, a: nat, n: nat)
    requires WithinText(text, blocks) && a <= n < |blocks|
    requires a < n ==>
      Region(s, text, blocks, a, n) && blocks[n].kind != HeadingBlock && Within(s, text, blocks, a, n + 1)
    ensures Region(s, text, blocks, a, n + 1)
    ensures blocks[a..n] + [blocks[n]] == blocks[a..n + 1]
  {
  }

  lemma {:induction false} OrdinalsCount(s: Settings, text: string, blocks: seq<Block>, cuts: seq<nat>,
                                         chunks: seq<ChunkPlan>)
    requires WithinText(text, blocks) && Chunked(s, text, blocks, cuts, chunks)
    ensures forall i :: 0 <= i < |chunks| ==> chunks[i].ordinal == i && chunks[i].configHash == s.configHash
  {
    forall i | 0 <= i < |chunks|
      ensures chunks[i].ordinal == i && chunks[i].configHash == s.configHash
    {
      assert ChunkAt(s, text, blocks, cuts, chunks, i);
    }
  }

  /** Plans the chunk for the blocks collected so far. */
  method FlushRegion(s: Settings, text: string, blocks: seq<Block>, current: seq<Block>,
                     chunks: seq<ChunkPlan>, ghost cuts: seq<nat>, ghost n: nat)
    returns (plan: ChunkPlan)
    requires Tiles(blocks, 0, |text|) && WithinText(text, blocks)
    requires Packing(s, text, blocks, cuts, chunks, current, n) && current != []
    requires n < |blocks| ==> Full(s, text, blocks, cuts[|chunks|], n)
    ensures Packing(s, text, blocks, cuts + [n], chunks + [plan], [], n)
  {
    TilesIncrease(blocks, 0, |text|, cuts[|chunks|], n - 1);
    LastChunkStartsBefore(s, text, blocks, cuts, chunks);
    plan := PlanChunk(s, text, current, chunks);
    ChunkedSnoc(s, text, blocks, cuts, chunks, n, plan);
  }

  /** The packing loop of `Chunk`. */
  method PackBlocks(s: Settings, text: string, blocks: seq<Block>)
    returns (chunks: seq<ChunkPlan>, ghost cuts: seq<nat>)
    requires Tiles(blocks, 0, |text|) && WithinText(text, blocks)
    ensures Chunked(s, text, blocks, cuts, chunks) && cuts[|chunks|] == |blocks|
    ensures forall i :: 0 <= i < |chunks| ==> chunks[i].ordinal == i && chunks[i].configHash == s.configHash
  {
    chunks := [];
    cuts := [0];
    var current: seq<Block> := [];
    for n := 0 to |blocks|
      invariant Packing(s, text, blocks, cuts, chunks, current, n)
    {
      var block := blocks[n];
      if block.kind == HeadingBlock && current != [] {
        var plan := FlushRegion(s, text, blocks, current, chunks, cuts, n);
        chunks, cuts, current := chunks + [plan], cuts + [n], [];
      }
      TilesIncrease(blocks, 0, |text|, cuts[|chunks|], n);
      var candidate := current + [block];
      var candidateTokens := s.Tokens(text, candidate[0].start, candidate[|candidate| - 1].end);
      if current != [] && candidateTokens > s.config.target {
        var plan := FlushRegion(s, text, blocks, current, chunks, cuts, n);
        chunks, cuts, current := chunks + [plan], cuts + [n], [block];
        RegionGrows(s, text, blocks, n, n);
      } else {
        RegionGrows(s, text, blocks, cuts[|chunks|], n);
        current := candidate;
      }
    }
    if current != [] {
      var plan := FlushRegion(s, text, blocks, current, chunks, cuts, |blocks|);
      chunks, cuts := chunks + [plan], cuts + [|blocks|];
    }
    OrdinalsCount(s, text, blocks, cuts, chunks);
  }

  method Chunk(s: Settings, text: string) returns (r: Result<seq<ChunkPlan>>, ghost t: Trace)
    ensures r.Err? <==> text == ""
    ensures r.Ok? ==> ChunksOf(s, text, t, r.value)
  {
    if text == "" {
      t := Trace([], [], [], [], [], []);
      return Err("document version text is empty"), t;
    }
    var parsed, lines, lineCuts := ParseBlocks(s.grammar, text);
    ParsedTiles(s.grammar, text, lines, lineCuts, parsed);
    TilesWithin(parsed, text);
    var blocks, starts := SplitOversizedBlocks(s, parsed, text);
    BlocksAreGood(s, text, lines, lineCuts, parsed, starts, blocks);
    var chunks, cuts := PackBlocks(s, text, blocks);
    t := Trace(lines, lineCuts, parsed, starts, blocks, cuts);
    r := Ok(chunks);
  }
}
