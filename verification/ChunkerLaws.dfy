/** The limits of a chunking result in token counts of spans of the text. */
module ChunkerLaws {
  import opened BlockParser
  import opened Chunker
  import opened ChunkerTheorems
  import opened Splitter
  import opened Text
  import opened Words

  /** A word of the text from `from` on starts at `k`: a visible character at `from` or behind white space. */
  predicate WordStartsAt(text: string, from: nat, k: nat)
  {
    from <= k < |text| && !IsSpace(text[k]) && (k == from || IsSpace(text[k - 1]))
  }

  lemma {:induction false} WordStartInSlice(text: string, from: nat, to: nat, k: nat)
    requires from <= to <= |text|
    ensures IsWordStart(text[from..to], k) <==> from + k < to && WordStartsAt(text, from, from + k)
  {
    var t := text[from..to];
    if k < |t| {
      assert t[k] == text[from + k];
      assert k > 0 ==> t[k - 1] == text[from + k - 1];
    }
  }

  /** The chunk that repeats the end of the one before it starts at a word of that chunk. From there to its
      end the text has at least as many tokens as the overlap, or no earlier word does start; from every
      later word it has fewer; and the chunk with its overlap is within the maximum. */
  lemma {:induction false} OverlapLaw(s: Settings, text: string, t: Trace, chunks: seq<ChunkPlan>, i: nat)
    requires ChunksOf(s, text, t, chunks) && i < |chunks| && chunks[i].charStart < PreviousEnd(chunks, i)
    ensures i > 0 && s.config.overlap > 0
    ensures var from, a, b := PreviousStart(chunks, i), chunks[i].charStart, PreviousEnd(chunks, i);
            && from <= a < b < chunks[i].charEnd <= |text|
            && WordStartsAt(text, from, a)
            && (s.count(text[a..b]) >= s.config.overlap || forall w: nat :: w < a ==> !WordStartsAt(text, from, w))
            && (forall w: nat :: a < w < b && WordStartsAt(text, from, w) ==> s.count(text[w..b]) < s.config.overlap)
            && s.count(text[a..chunks[i].charEnd]) <= s.config.max
  {
    ChunkFollows(s, text, t, chunks, i);
    RegionBounds(s, text, t, chunks, i);
    ChunkInBlocks(s, text, t.blocks, t.cuts, chunks, i);
    var from, a, b := PreviousStart(chunks, i), chunks[i].charStart, PreviousEnd(chunks, i);
    assert chunks[..i] != [] && chunks[..i][|chunks[..i]| - 1] == chunks[i - 1];
    var k := OverlapWord(s, text, chunks[..i], b, chunks[i].charEnd, a);
    OpenedAtWord(s, text, from, b, k);
  }

  lemma {:induction false} OverlapWord(s: Settings, text: string, chunks: seq<ChunkPlan>, base: nat, end: nat,
                                       start: nat)
    returns (k: nat)
    requires base <= end <= |text| && StartIs(s, text, chunks, base, end, start) && start < base
    ensures chunks != [] && s.config.overlap > 0
    ensures var from := chunks[|chunks| - 1].charStart;
            from <= base && start == from + k && OpensOverlap(s, text, from, base, k)
            && s.Tokens(text, start, end) <= s.config.max
  {
    var from := chunks[|chunks| - 1].charStart;
    k :| OpensOverlap(s, text, from, base, k)
         && start == if s.Tokens(text, from + k, end) > s.config.max then base else from + k;
  }

  lemma {:induction false} OpenedAtWord(s: Settings, text: string, from: nat, base: nat, k: nat)
    requires from <= base <= |text| && OpensOverlap(s, text, from, base, k)
    ensures from + k < base && WordStartsAt(text, from, from + k)
    ensures s.count(text[from + k..base]) >= s.config.overlap
      || forall w: nat :: w < from + k ==> !WordStartsAt(text, from, w)
    ensures forall w: nat :: from + k < w < base && WordStartsAt(text, from, w) ==>
      s.count(text[w..base]) < s.config.overlap
  {
    WordStartInSlice(text, from, base, k);
    forall w: nat | from <= w < base && WordStartsAt(text, from, w)
      ensures IsWordStart(text[from..base], w - from)
    {
      WordStartInSlice(text, from, base, w - from);
    }
    forall w: nat | from + k < w < base && WordStartsAt(text, from, w)
      ensures s.count(text[w..base]) < s.config.overlap
    {
      assert TooShort(s, text, from, base, w - from);
    }
  }

  /** The blocks of a chunk without its overlap are one block, or within the target; the next block is a
      heading, or would take them over the target. */
  lemma {:induction false} PackingLaw(s: Settings, text: string, t: Trace, chunks: seq<ChunkPlan>, i: nat)
    requires ChunksOf(s, text, t, chunks) && i < |chunks|
    ensures t.cuts[i] < t.cuts[i + 1] <= |t.blocks|
    ensures var start, end := t.blocks[t.cuts[i]].start, t.blocks[t.cuts[i + 1] - 1].end;
            && start <= end <= |text|
            && (t.cuts[i + 1] > t.cuts[i] + 1 ==> s.count(text[start..end]) <= s.config.target)
            && (t.cuts[i + 1] < |t.blocks| ==>
                  var next := t.blocks[t.cuts[i + 1]];
                  next.kind == HeadingBlock
                  || (start <= next.end <= |text| && s.count(text[start..next.end]) > s.config.target))
  {
    PiecesOfTrace(s, text, t, chunks);
    PackingIsGreedy(s, text, t, chunks, i);
    assert ChunkAt(s, text, t.blocks, t.cuts, chunks, i);
    BlocksInOrder(t.blocks, |text|, t.cuts[i], t.cuts[i + 1] - 1);
    if t.cuts[i + 1] < |t.blocks| {
      BlocksInOrder(t.blocks, |text|, t.cuts[i], t.cuts[i + 1]);
      assert Full(s, text, t.blocks, t.cuts[i], t.cuts[i + 1]);
    }
  }

  lemma {:induction false} BlocksInOrder(blocks: seq<Block>, to: nat, a: nat, b: nat)
    requires Tiles(blocks, 0, to) && a <= b < |blocks|
    ensures blocks[a].start < blocks[b].end <= to
  {
    TilesIncrease(blocks, 0, to, a, b);
    TilesIncrease(blocks, 0, to, b, |blocks| - 1);
  }

  /** A block within the maximum stays whole; of any other, each cut is at a word, and the piece before the
      cut would exceed the target with that word. */
  lemma {:induction false} SplitLaw(s: Settings, text: string, blocks: seq<Block>, starts: seq<nat>,
                                    pieces: seq<Block>, i: nat)
    requires WithinText(text, blocks) && SplitsAll(s, text, blocks, starts, pieces) && i < |blocks|
    ensures starts[i] < starts[i + 1] <= |pieces|
    ensures s.count(text[blocks[i].start..blocks[i].end]) <= s.config.max ==>
      starts[i + 1] == starts[i] + 1 && pieces[starts[i]] == blocks[i]
    ensures s.count(text[blocks[i].start..blocks[i].end]) > s.config.max ==>
      forall k :: starts[i] < k < starts[i + 1] ==>
        CutAtWord(s, text, blocks[i].start, blocks[i].end, pieces[k - 1].start, pieces[k].start)
  {
    assert PiecesAt(s, text, blocks, starts, pieces, i);
    var more := pieces[starts[i]..starts[i + 1]];
    if s.Tokens(text, blocks[i].start, blocks[i].end) > s.config.max {
      forall k | starts[i] < k < starts[i + 1]
        ensures CutAtWord(s, text, blocks[i].start, blocks[i].end, pieces[k - 1].start, pieces[k].start)
      {
        SplitCutsAtWord(s, text, blocks[i], more, k - starts[i]);
      }
    } else {
      assert more == [blocks[i]] && more[0] == pieces[starts[i]];
    }
  }

  lemma {:induction false} SplitCutsAtWord(s: Settings, text: string, block: Block, pieces: seq<Block>, j: nat)
    requires block.start < block.end <= |text| && SplitOf(s, text, block, pieces) && 0 < j < |pieces|
    ensures CutAtWord(s, text, block.start, block.end, pieces[j - 1].start, pieces[j].start)
  {
    assert GoodPiece(s, text, block, block.end, pieces[j - 1]);
    assert GoodPiece(s, text, block, block.end, pieces[j]);
    ForcedAtWord(s, text, block, pieces[j - 1].start, pieces[j].start);
  }

  /** A word of the block starts at `at`; with it and the white space behind it the piece from `start` on
      exceeds the target. */
  ghost predicate CutAtWord(s: Settings, text: string, from: nat, to: nat, start: nat, at: nat)
  {
    && from <= start <= at < to <= |text| && WordStartsAt(text, from, at)
    && exists m: nat, e: nat :: WordSpans(text, at, m, e, to) && s.count(text[start..e]) > s.config.target
  }

  /** Visible characters from `at` to m, then white space to `e`, where a visible one or the end follows. */
  predicate WordSpans(text: string, at: nat, m: nat, e: nat, to: nat)
  {
    && at <= m <= e <= to <= |text|
    && (forall k :: at <= k < m ==> !IsSpace(text[k])) && (m < to ==> IsSpace(text[m]))
    && (forall k :: m <= k < e ==> IsSpace(text[k])) && (e < to ==> !IsSpace(text[e]))
  }

  lemma {:induction false} SpansInText(text: string, from: nat, to: nat, k: nat) returns (m: nat, e: nat)
    requires from <= to <= |text| && k <= to - from
    ensures e == from + WordEnd(text[from..to], k) && WordSpans(text, from + k, m, e, to)
  {
    var t := text[from..to];
    m, e := from + SkipWord(t, k), from + WordEnd(t, k);
    assert forall j :: from <= j < to ==> text[j] == t[j - from];
  }

  lemma {:induction false} ForcedAtWord(s: Settings, text: string, block: Block, start: nat, at: nat)
    requires block.start <= start <= at <= block.end <= |text| && CutForced(s, text, block, start, at)
    ensures CutAtWord(s, text, block.start, block.end, start, at)
  {
    WordStartInSlice(text, block.start, block.end, at - block.start);
    var m, e := SpansInText(text, block.start, block.end, at - block.start);
    assert WordSpans(text, at, m, e, block.end) && s.count(text[start..e]) > s.config.target;
  }
}
