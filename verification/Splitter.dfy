/** Cutting oversized blocks at word boundaries. */
module Splitter {
  import opened BlockParser
  import opened MarkdownLines
  import opened Words

  datatype Config = Config(target: nat, max: nat, overlap: nat)

  /** The limits that the configuration constructor accepts. */
  type ValidConfig = c: Config | 0 < c.target <= c.max && c.overlap < c.target
    witness Config(500, 800, 80)

  /** What the chunker is built from. The token estimator is any function: counts need not grow
      with the text. */
  datatype Settings = Settings(config: ValidConfig, count: string -> nat, grammar: Grammar, configHash: string) {
    function Tokens(text: string, start: nat, end: nat): nat
      requires start <= end <= |text|
    {
      count(text[start..end])
    }
  }

  // -- What the splitter promises --

  /** Block `p` fits: it is within `limit`, or no second word starts in it. */
  ghost predicate Fits(s: Settings, text: string, p: Block, limit: nat)
    requires p.start <= p.end <= |text|
  {
    s.Tokens(text, p.start, p.end) <= limit || AtMostOneWord(text[p.start..p.end])
  }

  predicate SameSection(a: Block, b: Block)
  {
    a.kind == b.kind && a.path == b.path && a.heading == b.heading
  }

  predicate WithinText(text: string, blocks: seq<Block>)
  {
    forall i :: 0 <= i < |blocks| ==> blocks[i].start < blocks[i].end <= |text|
  }

  /** The cut at `at` is forced: it is at a word of the block, and the piece that starts at `from`
      would exceed the target with that word added. */
  ghost predicate CutForced(s: Settings, text: string, block: Block, from: nat, at: nat)
    requires block.start <= from <= at <= block.end <= |text|
  {
    var t := text[block.start..block.end];
    && IsWordStart(t, at - block.start)
    && s.Tokens(text, from, block.start + WordEnd(t, at - block.start)) > s.config.target
  }

  /** Piece `p` lies in the block before `to`, keeps its section and fits the target. */
  ghost predicate GoodPiece(s: Settings, text: string, block: Block, to: nat, p: Block)
    requires to <= |text|
  {
    block.start <= p.start < p.end <= to && SameSection(p, block) && Fits(s, text, p, s.config.target)
  }

  /** `pieces` is `block` cut greedily at its words, as far as `to`. */
  ghost predicate CutUpTo(s: Settings, text: string, block: Block, pieces: seq<Block>, to: nat)
    requires block.start <= to <= block.end <= |text|
  {
    && Tiles(pieces, block.start, to)
    && (forall i :: 0 <= i < |pieces| ==> GoodPiece(s, text, block, to, pieces[i]))
    && (forall i :: 0 < i < |pieces| ==> CutForced(s, text, block, pieces[i - 1].start, pieces[i].start))
  }

  /** `pieces` is the whole `block` cut greedily; a block without words stays whole. */
  ghost predicate SplitOf(s: Settings, text: string, block: Block, pieces: seq<Block>)
    requires block.start < block.end <= |text|
  {
    pieces != [] && CutUpTo(s, text, block, pieces, block.end)
  }

  // -- Splitting one block --

  /** The part of `block` from `start` to `end`. */
  function Piece(block: Block, start: nat, end: nat): (p: Block)
    ensures p.start == start && p.end == end && SameSection(p, block)
  {
    Block(start, end, block.kind, block.path, block.heading)
  }

  /** Where a piece starts whose first match is match `i`. */
  function PieceStart(words: seq<Span>, i: nat): nat
    requires i < |words|
  {
    if i == 0 then 0 else words[i].start
  }

  /** The text of a single match, with the white space before the first word of the block, holds
      one word. */
  lemma {:induction false} SingleMatchFits(t: string, words: seq<Span>, i: nat)
    requires AreWords(t, words) && i < |words|
    ensures PieceStart(words, i) < words[i].end <= |t|
    ensures AtMostOneWord(t[PieceStart(words, i)..words[i].end])
  {
    var a, w := PieceStart(words, i), words[i];
    assert IsMatch(t, w);
    MatchHoldsOneWord(t, w.start);
    var slice := t[a..w.end];
    forall k: nat | IsWordStart(slice, k)
      ensures a + k == w.start
    {
      assert slice[k] == t[a + k];
      if k > 0 {
        assert slice[k - 1] == t[a + k - 1];
      }
    }
  }

  lemma {:induction false} SliceOfSlice(text: string, start: nat, end: nat, a: nat, b: nat)
    requires start <= end <= |text| && a <= b <= end - start
    ensures text[start..end][a..b] == text[start + a..start + b]
  {
    var t := text[start..end];
    assert forall k :: a <= k < b ==> t[k] == text[start + k];
    assert |t[a..b]| == |text[start + a..start + b]|;
    forall k | 0 <= k < b - a
      ensures t[a..b][k] == text[start + a..start + b][k]
    {
      assert t[a..b][k] == t[a + k];
    }
  }

  /** The piece under construction in the splitter's loop: it runs from match `first` to match
      n - 1 and is within the target unless it is a single match. */
  ghost predicate OpenPiece(s: Settings, text: string, block: Block, words: seq<Span>,
                            first: nat, n: nat, start: nat, end: nat)
    requires block.start < block.end <= |text|
  {
    && first < n <= |words|
    && start == block.start + PieceStart(words, first)
    && end == block.start + words[n - 1].end
    && start < end <= block.end
    && (first == n - 1 || s.Tokens(text, start, end) <= s.config.target)
  }

  lemma {:induction false} OpenPieceFits(s: Settings, text: string, block: Block, words: seq<Span>,
                                         first: nat, n: nat, p: Block)
    requires block.start < block.end <= |text|
    requires AreWords(text[block.start..block.end], words)
    requires OpenPiece(s, text, block, words, first, n, p.start, p.end)
    ensures Fits(s, text, p, s.config.target)
  {
    if first == n - 1 {
      var t := text[block.start..block.end];
      SingleMatchFits(t, words, first);
      SliceOfSlice(text, block.start, block.end, PieceStart(words, first), words[first].end);
    }
  }

  /** The cut after `pieces` is forced. */
  ghost predicate LastCutForced(s: Settings, text: string, block: Block, pieces: seq<Block>, at: nat)
    requires block.start <= at <= block.end <= |text|
  {
    pieces != [] ==>
      var from := pieces[|pieces| - 1].start;
      block.start <= from <= at && CutForced(s, text, block, from, at)
  }

  lemma {:induction false} ClosePiece(s: Settings, text: string, block: Block, pieces: seq<Block>, p: Block)
    requires block.start <= p.start < p.end <= block.end <= |text|
    requires CutUpTo(s, text, block, pieces, p.start)
    requires SameSection(p, block) && Fits(s, text, p, s.config.target)
    requires LastCutForced(s, text, block, pieces, p.start)
    ensures CutUpTo(s, text, block, pieces + [p], p.end)
  {
    TilesSnoc(pieces, block.start, p);
    forall i | 0 <= i < |pieces| + 1
      ensures GoodPiece(s, text, block, p.end, (pieces + [p])[i])
    {
      if i < |pieces| {
        assert GoodPiece(s, text, block, p.start, pieces[i]);
      }
    }
  }

  lemma {:induction false} TilesSnoc(pieces: seq<Block>, from: nat, p: Block)
    requires Tiles(pieces, from, p.start) && p.start < p.end
    ensures Tiles(pieces + [p], from, p.end)
  {
  }

  /** The splitter's loop: the pieces cut so far, and the current piece, which match `first` opens. */
  datatype Cutting = Cutting(pieces: seq<Block>, first: nat, start: nat, end: nat)

  /** What holds after n matches. */
  ghost predicate Splitting(s: Settings, text: string, block: Block, words: seq<Span>, c: Cutting, n: nat)
    requires block.start < block.end <= |text|
  {
    && block.start <= c.start <= c.end <= block.end
    && CutUpTo(s, text, block, c.pieces, c.start)
    && LastCutForced(s, text, block, c.pieces, c.start)
    && (if n == 0 then c == Cutting([], 0, block.start, block.start)
        else OpenPiece(s, text, block, words, c.first, n, c.start, c.end))
  }

  /** The current piece is cut off before match n, which would take it over the target. */
  lemma {:induction false} CutBeforeMatch(s: Settings, text: string, block: Block, words: seq<Span>, c: Cutting,
                                          n: nat, next: nat)
    requires block.start < block.end <= |text| && AreWords(text[block.start..block.end], words)
    requires 0 < n < |words| && Splitting(s, text, block, words, c, n)
    requires c.end < next == block.start + words[n].end <= block.end
    requires s.Tokens(text, c.start, next) > s.config.target
    ensures Splitting(s, text, block, words, Cutting(c.pieces + [Piece(block, c.start, c.end)], n, c.end, next), n + 1)
  {
    var p := Piece(block, c.start, c.end);
    assert CutUpTo(s, text, block, c.pieces + [p], c.end) by {
      OpenPieceFits(s, text, block, words, c.first, n, p);
      ClosePiece(s, text, block, c.pieces, p);
    }
    assert c.end == block.start + words[n - 1].end;
    assert CutForced(s, text, block, c.start, c.end) && c.end == block.start + PieceStart(words, n) by {
      MatchForcesCut(s, text, block, words, n, c.start, c.end, next);
    }
    LastOfSnoc(s, text, block, c.pieces, p, c.end);
  }

  /** The current piece grows by match n, within the target or as its first match. */
  lemma {:induction false} GrowByMatch(s: Settings, text: string, block: Block, words: seq<Span>, c: Cutting,
                                       n: nat, next: nat)
    requires block.start < block.end <= |text|
    requires n < |words| && Splitting(s, text, block, words, c, n)
    requires c.end < next == block.start + words[n].end <= block.end
    requires c.start < c.end ==> s.Tokens(text, c.start, next) <= s.config.target
    ensures Splitting(s, text, block, words, c.(end := next), n + 1)
  {
  }

  /** The last piece completes the block. */
  lemma {:induction false} LastPiece(s: Settings, text: string, block: Block, words: seq<Span>, c: Cutting)
    requires block.start < block.end <= |text| && AreWords(text[block.start..block.end], words)
    requires words != [] && Splitting(s, text, block, words, c, |words|)
    ensures c.start < c.end && SplitOf(s, text, block, c.pieces + [Piece(block, c.start, c.end)])
  {
    var p := Piece(block, c.start, c.end);
    assert c.end == block.end;
    OpenPieceFits(s, text, block, words, c.first, |words|, p);
    ClosePiece(s, text, block, c.pieces, p);
  }

  lemma {:induction false} LastOfSnoc(s: Settings, text: string, block: Block, pieces: seq<Block>, p: Block, at: nat)
    requires block.start <= p.start <= at <= block.end <= |text|
    requires CutForced(s, text, block, p.start, at)
    ensures LastCutForced(s, text, block, pieces + [p], at)
  {
    assert (pieces + [p])[|pieces + [p]| - 1] == p;
  }

  lemma {:induction false} MatchForcesCut(s: Settings, text: string, block: Block, words: seq<Span>, n: nat,
                                          start: nat, end: nat, next: nat)
    requires block.start < block.end <= |text| && AreWords(text[block.start..block.end], words)
    requires 0 < n < |words| && block.start <= start <= end == block.start + words[n - 1].end
    requires end <= next == block.start + words[n].end <= block.end
    requires s.Tokens(text, start, next) > s.config.target
    ensures words[n].start == words[n - 1].end
    ensures CutForced(s, text, block, start, end)
  {
    var t := text[block.start..block.end];
    assert IsMatch(t, words[n]);
    assert words[n].start == words[n - 1].end;
  }

  /** Match n opens a new piece when it would take the current one over the target, and joins the
      current piece otherwise. */
  ghost function TakeMatch(s: Settings, text: string, block: Block, c: Cutting, n: nat, next: nat): Cutting
    requires c.start <= next <= |text|
  {
    if c.end > c.start && s.Tokens(text, c.start, next) > s.config.target
    then Cutting(c.pieces + [Piece(block, c.start, c.end)], n, c.end, next)
    else c.(end := next)
  }

  lemma {:induction false} TakeMatchSplits(s: Settings, text: string, block: Block, words: seq<Span>, c: Cutting,
                                           n: nat, next: nat, after: Cutting)
    requires block.start < block.end <= |text| && AreWords(text[block.start..block.end], words)
    requires n < |words| && Splitting(s, text, block, words, c, n)
    requires c.end < next == block.start + words[n].end <= block.end
    requires after == TakeMatch(s, text, block, c, n, next)
    ensures Splitting(s, text, block, words, after, n + 1)
  {
    if c.end > c.start && s.Tokens(text, c.start, next) > s.config.target {
      CutBeforeMatch(s, text, block, words, c, n, next);
    } else {
      GrowByMatch(s, text, block, words, c, n, next);
    }
  }

  /** The loop after n matches. */
  ghost function CutAfter(s: Settings, text: string, block: Block, words: seq<Span>, n: nat): (c: Cutting)
    requires block.start < block.end <= |text| && AreWords(text[block.start..block.end], words) && n <= |words|
    ensures block.start <= c.start <= c.end <= block.end
    ensures c.end == block.start + if n == 0 then 0 else words[n - 1].end
  {
    if n == 0 then Cutting([], 0, block.start, block.start)
    else
      MatchInBlock(text[block.start..block.end], words, n - 1);
      TakeMatch(s, text, block, CutAfter(s, text, block, words, n - 1), n - 1, block.start + words[n - 1].end)
  }

  lemma {:induction false} CutAfterStep(s: Settings, text: string, block: Block, words: seq<Span>, n: nat)
    returns (before: Cutting, next: nat)
    requires block.start < block.end <= |text| && AreWords(text[block.start..block.end], words) && n < |words|
    ensures before == CutAfter(s, text, block, words, n)
    ensures before.end < next == block.start + words[n].end <= block.end
    ensures before.start <= before.end
    ensures CutAfter(s, text, block, words, n + 1) == TakeMatch(s, text, block, before, n, next)
  {
    MatchInBlock(text[block.start..block.end], words, n);
    before, next := CutAfter(s, text, block, words, n), block.start + words[n].end;
  }

  lemma {:induction false} CutAfterSplits(s: Settings, text: string, block: Block, words: seq<Span>, c: Cutting,
                                          n: nat)
    requires block.start < block.end <= |text| && AreWords(text[block.start..block.end], words) && n <= |words|
    requires c == CutAfter(s, text, block, words, n)
    ensures Splitting(s, text, block, words, c, n)
    decreases n
  {
    if n > 0 {
      var before, next := CutAfterStep(s, text, block, words, n - 1);
      CutAfterSplits(s, text, block, words, before, n - 1);
      TakeMatchSplits(s, text, block, words, before, n - 1, next, c);
    }
  }

  method SplitBlockByTokens(s: Settings, block: Block, text: string) returns (pieces: seq<Block>)
    requires block.start < block.end <= |text|
    ensures SplitOf(s, text, block, pieces)
  {
    var blockText := text[block.start..block.end];
    var parts := FindWords(blockText);
    if parts == [] {
      assert GoodPiece(s, text, block, block.end, block);
      return [block];
    }

    pieces := [];
    var currentStart: nat, currentEnd: nat := block.start, block.start;
    ghost var first := 0;
    for n := 0 to |parts|
      invariant CutAfter(s, text, block, parts, n) == Cutting(pieces, first, currentStart, currentEnd)
    {
      var candidateEnd: nat := block.start + parts[n].end;
      MatchInBlock(blockText, parts, n);
      var candidateTokens := s.Tokens(text, currentStart, candidateEnd);
      if currentEnd > currentStart && candidateTokens > s.config.target {
        pieces := pieces + [Piece(block, currentStart, currentEnd)];
        currentStart := currentEnd;
        first := n;
      }
      currentEnd := candidateEnd;
    }

    ghost var last := Cutting(pieces, first, currentStart, currentEnd);
    CutAfterSplits(s, text, block, parts, last, |parts|);
    LastPiece(s, text, block, parts, last);
    if currentEnd > currentStart {
      pieces := pieces + [Piece(block, currentStart, currentEnd)];
    }
  }

  lemma {:induction false} MatchInBlock(t: string, words: seq<Span>, n: nat)
    requires AreWords(t, words) && n < |words|
    ensures (if n == 0 then 0 else words[n - 1].end) < words[n].end <= |t|
  {
    MatchesIncrease(t, words, n, n);
    MatchesIncrease(t, words, n, |words| - 1);
    if n > 0 {
      MatchesIncrease(t, words, n - 1, n);
    }
  }

  // -- Splitting all blocks --

  /** How `pieces` come from `block`: it is kept when it is within the maximum, and split otherwise. */
  ghost predicate PiecesOf(s: Settings, text: string, block: Block, pieces: seq<Block>)
    requires block.start < block.end <= |text|
  {
    if s.Tokens(text, block.start, block.end) <= s.config.max
    then pieces == [block]
    else SplitOf(s, text, block, pieces)
  }

  /** The pieces of block i are those from starts[i] to starts[i + 1]. */
  ghost predicate PiecesAt(s: Settings, text: string, blocks: seq<Block>, starts: seq<nat>, pieces: seq<Block>, i: nat)
    requires WithinText(text, blocks) && i < |blocks| && |starts| == |blocks| + 1
  {
    && starts[i] < starts[i + 1] <= |pieces|
    && PiecesOf(s, text, blocks[i], pieces[starts[i]..starts[i + 1]])
  }

  /** Every block's pieces, in order. */
  ghost predicate SplitsAll(s: Settings, text: string, blocks: seq<Block>, starts: seq<nat>, pieces: seq<Block>)
    requires WithinText(text, blocks)
  {
    && |starts| == |blocks| + 1
    && starts[0] == 0 && starts[|blocks|] == |pieces|
    && (forall i {:trigger PiecesAt(s, text, blocks, starts, pieces, i)} :: 0 <= i < |blocks| ==>
          PiecesAt(s, text, blocks, starts, pieces, i))
  }

  method SplitOversizedBlocks(s: Settings, blocks: seq<Block>, text: string)
    returns (pieces: seq<Block>, ghost starts: seq<nat>)
    requires WithinText(text, blocks)
    ensures SplitsAll(s, text, blocks, starts, pieces)
    ensures blocks != [] && Tiles(blocks, 0, |text|) && SectionsChangeAtHeadings(blocks) ==>
      GoodPieces(s, text, pieces, |text|)
  {
    pieces := [];
    starts := [0];
    for n := 0 to |blocks|
      invariant SplitsAll(s, text, blocks[..n], starts, pieces)
    {
      var block := blocks[n];
      var more := [block];
      if s.Tokens(text, block.start, block.end) > s.config.max {
        more := SplitBlockByTokens(s, block, text);
      }
      SplitsAllSnoc(s, text, blocks[..n], starts, pieces, block, more);
      assert blocks[..n] + [block] == blocks[..n + 1];
      pieces := pieces + more;
      starts := starts + [|pieces|];
    }
    assert blocks[..|blocks|] == blocks;
    if blocks != [] && Tiles(blocks, 0, |text|) && SectionsChangeAtHeadings(blocks) {
      PiecesAreGood(s, text, blocks, starts, pieces, |blocks|);
      assert pieces[..starts[|blocks|]] == pieces;
    }
  }

  lemma {:induction false} SplitsAllSnoc(s: Settings, text: string, blocks: seq<Block>, starts: seq<nat>,
                                         pieces: seq<Block>, block: Block, more: seq<Block>)
    requires WithinText(text, blocks) && block.start < block.end <= |text|
    requires SplitsAll(s, text, blocks, starts, pieces)
    requires PiecesOf(s, text, block, more)
    ensures SplitsAll(s, text, blocks + [block], starts + [|pieces| + |more|], pieces + more)
  {
    var bs, st, ps := blocks + [block], starts + [|pieces| + |more|], pieces + more;
    PiecesNonEmpty(s, text, block, more);
    forall i | 0 <= i < |bs|
      ensures PiecesAt(s, text, bs, st, ps, i)
    {
      if i < |blocks| {
        assert PiecesAt(s, text, blocks, starts, pieces, i);
        assert ps[st[i]..st[i + 1]] == pieces[starts[i]..starts[i + 1]];
      } else {
        assert ps[st[i]..st[i + 1]] == more;
      }
    }
  }

  lemma {:induction false} PiecesNonEmpty(s: Settings, text: string, block: Block, more: seq<Block>)
    requires block.start < block.end <= |text| && PiecesOf(s, text, block, more)
    ensures more != []
  {
  }

  // -- Consequences --

  /** Pieces still tile the text, change section only at headings, and each is within the maximum
      or holds at most one word. */
  ghost predicate GoodPieces(s: Settings, text: string, pieces: seq<Block>, to: nat)
  {
    && Tiles(pieces, 0, to)
    && WithinText(text, pieces)
    && SectionsChangeAtHeadings(pieces)
    && (forall i :: 0 <= i < |pieces| ==> Fits(s, text, pieces[i], s.config.max))
  }

  /** The pieces of a block start and end where it does, and keep its section and its limits. */
  lemma {:induction false} PiecesOfBlock(s: Settings, text: string, block: Block, more: seq<Block>)
    requires block.start < block.end <= |text| && PiecesOf(s, text, block, more)
    ensures more != [] && Tiles(more, block.start, block.end) && WithinText(text, more)
    ensures forall i :: 0 <= i < |more| ==> SameSection(more[i], block)
    ensures forall i :: 0 <= i < |more| ==> Fits(s, text, more[i], s.config.max)
  {
    forall i | 0 <= i < |more|
      ensures more[i].start < more[i].end <= |text| && SameSection(more[i], block)
      ensures Fits(s, text, more[i], s.config.max)
    {
      if s.Tokens(text, block.start, block.end) > s.config.max {
        assert GoodPiece(s, text, block, block.end, more[i]);
      }
    }
  }

  lemma {:induction false} TilesAppend(a: seq<Block>, b: seq<Block>, from: nat, mid: nat, to: nat)
    requires Tiles(a, from, mid) && Tiles(b, mid, to)
    ensures Tiles(a + b, from, to)
  {
  }

  /** The pieces of the next block continue good pieces. */
  lemma {:induction false} GoodPiecesAppend(s: Settings, text: string, before: seq<Block>, more: seq<Block>,
                                            last: Block, block: Block)
    requires before != [] && GoodPieces(s, text, before, last.end) && SameSection(before[|before| - 1], last)
    requires block.start == last.end
    requires block.kind != HeadingBlock ==> block.path == last.path && block.heading == last.heading
    requires Tiles(more, block.start, block.end) && WithinText(text, more)
    requires forall i :: 0 <= i < |more| ==> SameSection(more[i], block)
    requires forall i :: 0 <= i < |more| ==> Fits(s, text, more[i], s.config.max)
    ensures GoodPieces(s, text, before + more, block.end)
  {
    TilesAppend(before, more, 0, block.start, block.end);
    SectionsAppend(before, more, last, block);
  }

  /** The pieces of block n - 1, and those before them. */
  lemma {:induction false} PiecesSplitAt(s: Settings, text: string, blocks: seq<Block>, starts: seq<nat>,
                                         pieces: seq<Block>, n: nat) returns (before: seq<Block>, more: seq<Block>)
    requires WithinText(text, blocks) && SplitsAll(s, text, blocks, starts, pieces) && 0 < n <= |blocks|
    ensures starts[n - 1] < starts[n] <= |pieces|
    ensures before == pieces[..starts[n - 1]] && pieces[..starts[n]] == before + more
    ensures more != [] && more[|more| - 1] == pieces[starts[n] - 1]
    ensures PiecesOf(s, text, blocks[n - 1], more)
  {
    assert PiecesAt(s, text, blocks, starts, pieces, n - 1);
    before, more := pieces[..starts[n - 1]], pieces[starts[n - 1]..starts[n]];
    assert pieces[..starts[n]] == before + more;
  }

  lemma {:induction false} PiecesAreGood(s: Settings, text: string, blocks: seq<Block>, starts: seq<nat>,
                                         pieces: seq<Block>, n: nat)
    requires WithinText(text, blocks) && SplitsAll(s, text, blocks, starts, pieces)
    requires Tiles(blocks, 0, |text|) && SectionsChangeAtHeadings(blocks)
    requires 0 < n <= |blocks|
    ensures 0 < starts[n] <= |pieces|
    ensures GoodPieces(s, text, pieces[..starts[n]], blocks[n - 1].end)
    ensures SameSection(pieces[starts[n] - 1], blocks[n - 1])
  {
    var block := blocks[n - 1];
    var before, more := PiecesSplitAt(s, text, blocks, starts, pieces, n);
    PiecesOfBlock(s, text, block, more);
    if n == 1 {
      assert before + more == more;
      FirstPiecesAreGood(s, text, more, block);
    } else {
      PiecesAreGood(s, text, blocks, starts, pieces, n - 1);
      assert before[|before| - 1] == pieces[starts[n - 1] - 1];
      NextSection(blocks, |text|, n - 1);
      GoodPiecesAppend(s, text, before, more, blocks[n - 2], block);
    }
  }

  lemma {:induction false} NextSection(blocks: seq<Block>, to: nat, i: nat)
    requires Tiles(blocks, 0, to) && SectionsChangeAtHeadings(blocks) && 0 < i < |blocks|
    ensures blocks[i].start == blocks[i - 1].end
    ensures blocks[i].kind != HeadingBlock ==>
      blocks[i].path == blocks[i - 1].path && blocks[i].heading == blocks[i - 1].heading
  {
  }

  lemma {:induction false} FirstPiecesAreGood(s: Settings, text: string, more: seq<Block>, block: Block)
    requires block.start == 0 && Tiles(more, 0, block.end) && WithinText(text, more)
    requires forall i :: 0 <= i < |more| ==> SameSection(more[i], block)
    requires forall i :: 0 <= i < |more| ==> Fits(s, text, more[i], s.config.max)
    ensures GoodPieces(s, text, more, block.end)
  {
    OneSection(more, block);
  }

  lemma {:induction false} OneSection(more: seq<Block>, block: Block)
    requires forall i :: 0 <= i < |more| ==> SameSection(more[i], block)
    ensures SectionsChangeAtHeadings(more)
  {
  }

  lemma {:induction false} SectionsAppend(before: seq<Block>, more: seq<Block>, last: Block, block: Block)
    requires before != [] && SectionsChangeAtHeadings(before) && SameSection(before[|before| - 1], last)
    requires forall i :: 0 <= i < |more| ==> SameSection(more[i], block)
    requires block.kind != HeadingBlock ==> block.path == last.path && block.heading == last.heading
    ensures SectionsChangeAtHeadings(before + more)
  {
    var all := before + more;
    forall i | 0 < i < |all| && all[i].kind != HeadingBlock
      ensures all[i].path == all[i - 1].path && all[i].heading == all[i - 1].heading
    {
      if i >= |before| {
        assert SameSection(all[i], block);
        assert i > |before| ==> SameSection(all[i - 1], block);
      }
    }
  }
}
