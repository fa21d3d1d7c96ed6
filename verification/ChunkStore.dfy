/** Persisting the chunks of one document version, and summarising them afterwards. */
module ChunkStore {
  import opened Chunker
  import opened ChunkerTheorems
  import opened Options
  import opened Splitter
  import opened Text

  const CHUNKER_VERSION := "semantic_markdown_v1"

  datatype ChunkRow = ChunkRow(
    id: nat, plan: ChunkPlan, chunkerVersion: string,
    prevChunkId: Option<nat>, nextChunkId: Option<nat>, summary: Option<string>)

  // -- Stored chunks --

  /** The rows hold the plans in order, with fresh identifiers. */
  ghost predicate HoldsPlans(rows: seq<ChunkRow>, plans: seq<ChunkPlan>, firstId: nat)
  {
    && |rows| == |plans|
    && (forall i :: 0 <= i < |rows| ==> IsNewRow(rows[i], plans[i], firstId + i))
  }

  predicate IsNewRow(row: ChunkRow, plan: ChunkPlan, id: nat)
  {
    row.id == id && row.plan == plan && row.chunkerVersion == CHUNKER_VERSION && row.summary == None
  }

  /** Neighbours point at each other; the ends point nowhere. */
  predicate LinkedAt(rows: seq<ChunkRow>, i: nat)
    requires i < |rows|
  {
    && rows[i].prevChunkId == (if i > 0 then Some(rows[i - 1].id) else None)
    && rows[i].nextChunkId == (if i + 1 < |rows| then Some(rows[i + 1].id) else None)
  }

  ghost predicate DoublyLinked(rows: seq<ChunkRow>)
  {
    && (forall i :: 0 <= i < |rows| ==> LinkedAt(rows, i))
    && (forall i, j :: 0 <= i < j < |rows| ==> rows[i].id != rows[j].id)
  }

  /** The first `i` rows are linked, the others not yet. */
  ghost predicate LinkedTo(rows: seq<ChunkRow>, i: nat)
    requires i <= |rows|
  {
    && (forall k {:trigger LinkedAt(rows, k)} :: 0 <= k < i ==> LinkedAt(rows, k))
    && (forall k :: i <= k < |rows| ==> rows[k].prevChunkId == None && rows[k].nextChunkId == None)
  }

  /** Row `i` with its links set. */
  function Linked(rows: seq<ChunkRow>, i: nat): ChunkRow
    requires i < |rows|
  {
    var row := if i > 0 then rows[i].(prevChunkId := Some(rows[i - 1].id)) else rows[i];
    if i < |rows| - 1 then row.(nextChunkId := Some(rows[i + 1].id)) else row
  }

  lemma {:induction false} LinkStep(rows: seq<ChunkRow>, plans: seq<ChunkPlan>, firstId: nat, i: nat)
    requires i < |rows| && HoldsPlans(rows, plans, firstId) && LinkedTo(rows, i)
    ensures HoldsPlans(rows[i := Linked(rows, i)], plans, firstId) && LinkedTo(rows[i := Linked(rows, i)], i + 1)
  {
    var t := rows[i := Linked(rows, i)];
    forall k | 0 <= k < i + 1
      ensures LinkedAt(t, k)
    {
      if k < i {
        assert LinkedAt(rows, k);
      }
    }
  }

  /** Following the links forward from the first row visits every row once, in ordinal order; the
      links back retrace the way. */
  lemma {:induction false} LinksFollowOrdinals(rows: seq<ChunkRow>, i: nat, j: nat)
    requires DoublyLinked(rows) && i < |rows| && j < |rows|
    ensures rows[i].nextChunkId == Some(rows[j].id) <==> j == i + 1
    ensures rows[j].prevChunkId == Some(rows[i].id) <==> j == i + 1
    ensures rows[i].nextChunkId == None <==> i == |rows| - 1
    ensures rows[j].prevChunkId == None <==> j == 0
  {
    assert LinkedAt(rows, i) && LinkedAt(rows, j);
  }

  // -- Summaries --

  predicate HasSummary(row: ChunkRow)
  {
    row.summary.Some? && Strip(row.summary.value) != ""
  }

  predicate Needs(row: ChunkRow, force: bool)
  {
    force || !HasSummary(row)
  }

  predicate OffsetsOk(text: string, row: ChunkRow)
  {
    row.plan.charStart < row.plan.charEnd <= |text|
  }

  datatype SummaryRequest = SummaryRequest(chunkId: nat, ordinal: nat, documentText: string, chunkText: string,
                                           heading: Option<string>, sectionPath: seq<string>)

  function RequestFor(text: string, row: ChunkRow): SummaryRequest
    requires OffsetsOk(text, row)
  {
    SummaryRequest(row.id, row.plan.ordinal, text, text[row.plan.charStart..row.plan.charEnd],
                   row.plan.heading, row.plan.sectionPath)
  }

  /** Summarising this row goes through: its offsets are inside the text and the summary is not blank. */
  predicate Summarises(f: SummaryRequest -> string, text: string, row: ChunkRow)
  {
    OffsetsOk(text, row) && Strip(f(RequestFor(text, row))) != ""
  }

  function Summarised(f: SummaryRequest -> string, text: string, force: bool, row: ChunkRow): ChunkRow
    requires Needs(row, force) ==> Summarises(f, text, row)
  {
    if Needs(row, force) then row.(summary := Some(Strip(f(RequestFor(text, row))))) else row
  }

  /** How many of the first n rows need a summary. */
  function CountNeeding(rows: seq<ChunkRow>, force: bool, n: nat): nat
    requires n <= |rows|
  {
    if n == 0 then 0 else CountNeeding(rows, force, n - 1) + if Needs(rows[n - 1], force) then 1 else 0
  }

  datatype RunCounts = RunCounts(generated: nat, reused: nat)

  /** The rows up to n are summarised, the others are as before. */
  ghost predicate SummarisedUpTo(f: SummaryRequest -> string, text: string, force: bool,
                                 before: seq<ChunkRow>, after: seq<ChunkRow>, n: nat)
    requires n <= |before|
  {
    && |after| == |before|
    && (forall i :: 0 <= i < n ==> RowSummarised(f, text, force, before[i], after[i]))
    && (forall i :: n <= i < |before| ==> after[i] == before[i])
  }

  ghost predicate RowSummarised(f: SummaryRequest -> string, text: string, force: bool, before: ChunkRow,
                                after: ChunkRow)
  {
    (Needs(before, force) ==> Summarises(f, text, before)) && after == Summarised(f, text, force, before)
  }

  /** What a summarised row holds, and what the contextualizer was given for it: the document, the span of
      the document that the row stores, and the row's own ordinal and section. A row with a summary that
      is not blank stays as it is unless forced. */
  lemma {:induction false} RowTells(f: SummaryRequest -> string, text: string, force: bool, before: ChunkRow,
                                    after: ChunkRow)
    requires RowSummarised(f, text, force, before, after)
    ensures if !force && before.summary.Some? && !AllSpace(before.summary.value) then after == before
            else
              && before.plan.charStart < before.plan.charEnd <= |text|
              && var request := SummaryRequest(
                   before.id, before.plan.ordinal, text, text[before.plan.charStart..before.plan.charEnd],
                   before.plan.heading, before.plan.sectionPath);
                 && after.summary.Some? && after == before.(summary := after.summary)
                 && |after.summary.value| > 0 && TrimsTo(f(request), after.summary.value)
  {
    if before.summary.Some? {
      StripIsEmpty(before.summary.value);
    }
    if Needs(before, force) {
      StripTrims(f(RequestFor(text, before)));
    }
  }

  lemma {:induction false} RowKept(f: SummaryRequest -> string, text: string, force: bool, before: seq<ChunkRow>,
                                   after: seq<ChunkRow>, n: nat)
    requires n < |before| && SummarisedUpTo(f, text, force, before, after, n) && !Needs(before[n], force)
    ensures SummarisedUpTo(f, text, force, before, after, n + 1)
  {
  }

  lemma {:induction false} RowReplaced(f: SummaryRequest -> string, text: string, force: bool, before: seq<ChunkRow>,
                                       after: seq<ChunkRow>, n: nat)
    requires n < |before| && SummarisedUpTo(f, text, force, before, after, n)
    requires Needs(before[n], force) && Summarises(f, text, before[n])
    ensures SummarisedUpTo(f, text, force, before, after[n := Summarised(f, text, force, before[n])], n + 1)
  {
  }

  /** The chunk table of one document version. Without a document the version is not in the workspace. */
  class VersionChunks {
    const document: Option<string>
    var rows: seq<ChunkRow>
    var nextId: nat

    constructor (document: Option<string>)
      ensures this.document == document && rows == []
    {
      this.document := document;
      rows, nextId := [], 0;
    }

    /** Chunks the version once: a second run finds the rows and only checks where they come from. */
    method ChunkDocumentVersion(s: Settings)
      returns (created: Result<bool>, ghost t: Trace, ghost plans: seq<ChunkPlan>)
      modifies this
      ensures document.None? ==> created.Err? && rows == old(rows)
      ensures document.Some? && old(rows) != [] ==>
        rows == old(rows)
        && (created == Ok(false) <==> FromChunker(rows, s))
        && (created.Err? <==> !FromChunker(rows, s))
      ensures document.Some? && old(rows) == [] ==>
        if document.value == "" then created.Err? && rows == []
        else created == Ok(true) && ChunksOf(s, document.value, t, plans)
             && HoldsPlans(rows, plans, old(nextId)) && DoublyLinked(rows)
    {
      t, plans := Trace([], [], [], [], [], []), [];
      if document.None? {
        return Err("document version does not belong to workspace"), t, plans;
      }
      if rows != [] {
        var valid := ValidateExistingChunks(rows, s);
        created := if valid then Ok(false) else Err("document version already has chunks for another chunker config");
        return;
      }
      var r;
      r, t := Chunk(s, document.value);
      if r.Err? {
        return Err(r.message), t, plans;
      }
      plans := r.value;
      ghost var firstId := nextId;
      for i := 0 to |r.value|
        invariant |rows| == i && nextId == firstId + i
        invariant HoldsPlans(rows, r.value[..i], firstId)
        invariant forall k :: 0 <= k < i ==> rows[k].prevChunkId == None && rows[k].nextChunkId == None
      {
        rows := rows + [ChunkRow(nextId, r.value[i], CHUNKER_VERSION, None, None, None)];
        nextId := nextId + 1;
      }
      LinkRows(r.value, firstId);
      created := Ok(true);
    }

    /** The linking pass over the freshly created rows. */
    method LinkRows(ghost plans: seq<ChunkPlan>, ghost firstId: nat)
      requires HoldsPlans(rows, plans, firstId)
      requires forall k :: 0 <= k < |rows| ==> rows[k].prevChunkId == None && rows[k].nextChunkId == None
      modifies this`rows
      ensures HoldsPlans(rows, plans, firstId) && DoublyLinked(rows)
    {
      for i := 0 to |rows|
        invariant HoldsPlans(rows, plans, firstId) && LinkedTo(rows, i)
      {
        ghost var before := rows;
        LinkStep(before, plans, firstId, i);
        if i > 0 {
          rows := rows[i := rows[i].(prevChunkId := Some(rows[i - 1].id))];
        }
        if i < |rows| - 1 {
          rows := rows[i := rows[i].(nextChunkId := Some(rows[i + 1].id))];
        }
        assert rows == before[i := Linked(before, i)];
      }
    }

    /** Summarises the rows that need it, or all of them when forced. It stops at the first row
        whose offsets or summary are not acceptable. */
    method ContextualizeDocumentVersion(f: SummaryRequest -> string, force: bool) returns (r: Result<RunCounts>)
      modifies this`rows
      ensures document.None? || old(rows) == [] ==> r.Err? && rows == old(rows)
      ensures document.Some? && r.Ok? ==>
        && SummarisedUpTo(f, document.value, force, old(rows), rows, |old(rows)|)
        && r.value.generated == CountNeeding(old(rows), force, |old(rows)|)
        && r.value.generated + r.value.reused == |rows|
      ensures document.Some? && old(rows) != [] && r.Err? ==>
        exists n :: 0 <= n < |old(rows)|
          && SummarisedUpTo(f, document.value, force, old(rows), rows, n)
          && Needs(old(rows)[n], force) && !Summarises(f, document.value, old(rows)[n])
    {
      if document.None? {
        return Err("document version does not belong to workspace");
      }
      if rows == [] {
        return Err("document version has no chunks");
      }
      ghost var before := rows;
      var text := document.value;
      var generated, reused := 0, 0;
      for i := 0 to |rows|
        invariant |rows| == |before|
        invariant SummarisedUpTo(f, text, force, before, rows, i)
        invariant generated == CountNeeding(before, force, i) && generated + reused == i
      {
        var row := rows[i];
        if !force && HasSummary(row) {
          reused := reused + 1;
          RowKept(f, text, force, before, rows, i);
          continue;
        }
        if row.plan.charEnd > |text| {
          return Err("chunk offsets are outside document text");
        }
        if row.plan.charEnd <= row.plan.charStart {
          return Err("chunk offsets are empty");
        }
        var summary := Strip(f(RequestFor(text, row)));
        if summary == "" {
          return Err("contextualizer returned empty summary");
        }
        RowReplaced(f, text, force, before, rows, i);
        rows := rows[i := row.(summary := Some(summary))];
        generated := generated + 1;
      }
      return Ok(RunCounts(generated, reused));
    }

    /** Chunking and summarising, and then both again without force: if the first pair goes through, the
        second creates no chunk, generates no summary and leaves every row as it is. */
    method RunTwice(s: Settings, f: SummaryRequest -> string, force: bool)
      returns (created: Result<bool>, counts: Result<RunCounts>, again: Result<bool>, rerun: Result<RunCounts>,
               ghost settled: seq<ChunkRow>)
      modifies this
      ensures created.Ok? && counts.Ok? ==>
        && again == Ok(false)
        && rerun == Ok(RunCounts(0, |rows|))
        && rows == settled && rows != []
      ensures created == Ok(true) && counts.Ok? ==>
        DoublyLinked(rows) && counts.value == RunCounts(|rows|, 0)
    {
      ghost var firstId := nextId;
      ghost var t: Trace, plans: seq<ChunkPlan>;
      created, t, plans := ChunkDocumentVersion(s);
      ghost var chunked := rows;
      counts := ContextualizeDocumentVersion(f, force);
      settled := rows;
      again, rerun := Err("not run"), Err("not run");
      if created.Ok? && counts.Ok? {
        if created.value {
          StoredRowsAreAccepted(s, document.value, t, plans, chunked, firstId);
          AllNeeded(chunked, force, |chunked|);
        }
        SecondRunIsIdle(f, document.value, force, s, chunked, settled);
        again, rerun := RunAgain(s, f);
      }
    }

    /** Chunking and summarising rows of this chunker that all have a summary. */
    method RunAgain(s: Settings, f: SummaryRequest -> string)
      returns (created: Result<bool>, counts: Result<RunCounts>)
      requires document.Some? && rows != [] && FromChunker(rows, s)
      requires SummarisedUpTo(f, document.value, false, rows, rows, |rows|)
      requires CountNeeding(rows, false, |rows|) == 0 && forall i :: 0 <= i < |rows| ==> !Needs(rows[i], false)
      modifies this
      ensures created == Ok(false) && counts == Ok(RunCounts(0, |rows|)) && rows == old(rows)
    {
      ghost var t, plans;
      created, t, plans := ChunkDocumentVersion(s);
      counts := ContextualizeDocumentVersion(f, false);
      IdleRunKeepsRows(f, document.value, old(rows), rows);
    }
  }

  ghost predicate FromChunker(rows: seq<ChunkRow>, s: Settings)
  {
    forall i :: 0 <= i < |rows| ==> IsFromChunker(rows[i], s)
  }

  predicate IsFromChunker(row: ChunkRow, s: Settings)
  {
    row.chunkerVersion == CHUNKER_VERSION && row.plan.configHash == s.configHash
  }

  method ValidateExistingChunks(rows: seq<ChunkRow>, s: Settings) returns (valid: bool)
    ensures valid <==> FromChunker(rows, s)
    ensures valid <==> forall i :: 0 <= i < |rows| ==>
      rows[i].chunkerVersion == "semantic_markdown_v1" && rows[i].plan.configHash == s.configHash
  {
    for i := 0 to |rows|
      invariant forall k :: 0 <= k < i ==> IsFromChunker(rows[k], s)
    {
      if rows[i].chunkerVersion != CHUNKER_VERSION || rows[i].plan.configHash != s.configHash {
        return false;
      }
    }
    return true;
  }

  // -- Chunk, then summarise, then both again --

  /** Freshly stored rows pass every check of the second chunking run and of the summariser. */
  lemma {:induction false} StoredRowsAreAccepted(s: Settings, text: string, t: Trace, plans: seq<ChunkPlan>,
                                                 rows: seq<ChunkRow>, firstId: nat)
    requires ChunksOf(s, text, t, plans) && HoldsPlans(rows, plans, firstId)
    ensures rows != [] && FromChunker(rows, s)
    ensures forall i :: 0 <= i < |rows| ==> OffsetsOk(text, rows[i]) && rows[i].plan.ordinal == i
    ensures forall i :: 0 <= i < |rows| ==> Needs(rows[i], false)
  {
    ChunksCoverText(s, text, t, plans);
    forall i | 0 <= i < |rows|
      ensures OffsetsOk(text, rows[i]) && rows[i].plan.ordinal == i
      ensures IsFromChunker(rows[i], s) && Needs(rows[i], false)
    {
      assert IsNewRow(rows[i], plans[i], firstId + i);
      assert Follows(text, plans, i);
      PlanHasHash(s, text, t, plans, i);
    }
  }

  lemma {:induction false} PlanHasHash(s: Settings, text: string, t: Trace, plans: seq<ChunkPlan>, i: nat)
    requires ChunksOf(s, text, t, plans) && i < |plans|
    ensures plans[i].configHash == s.configHash
  {
    assert ChunkAt(s, text, t.blocks, t.cuts, plans, i);
  }

  /** After a completed run every row has a summary, so a second unforced run needs none and
      changes none; and summaries do not touch what the chunking check reads. */
  lemma {:induction false} SecondRunIsIdle(f: SummaryRequest -> string, text: string, force: bool, s: Settings,
                                           before: seq<ChunkRow>, after: seq<ChunkRow>)
    requires SummarisedUpTo(f, text, force, before, after, |before|)
    ensures CountNeeding(after, false, |after|) == 0
    ensures forall i :: 0 <= i < |after| ==> !Needs(after[i], false)
    ensures SummarisedUpTo(f, text, false, after, after, |after|)
    ensures FromChunker(after, s) <==> FromChunker(before, s)
    ensures DoublyLinked(before) ==> DoublyLinked(after)
  {
    forall i | 0 <= i < |before|
      ensures HasSummary(after[i]) && RowSummarised(f, text, false, after[i], after[i])
      ensures after[i] == before[i].(summary := after[i].summary)
    {
      assert RowSummarised(f, text, force, before[i], after[i]);
      if Needs(before[i], force) {
        StripTwice(f(RequestFor(text, before[i])));
      }
    }
    NoneNeeded(after, |after|);
    forall i | 0 <= i < |before|
      ensures IsFromChunker(after[i], s) <==> IsFromChunker(before[i], s)
    {
      assert after[i] == before[i].(summary := after[i].summary);
    }
    if DoublyLinked(before) {
      forall i | 0 <= i < |before|
        ensures LinkedAt(after, i)
      {
        assert LinkedAt(before, i);
      }
    }
  }

  /** A run that needs no summary leaves the rows as they are. */
  lemma {:induction false} IdleRunKeepsRows(f: SummaryRequest -> string, text: string,
                                            before: seq<ChunkRow>, after: seq<ChunkRow>)
    requires SummarisedUpTo(f, text, false, before, after, |before|)
    requires forall i :: 0 <= i < |before| ==> !Needs(before[i], false)
    ensures after == before
  {
    forall i | 0 <= i < |before|
      ensures after[i] == before[i]
    {
      assert RowSummarised(f, text, false, before[i], after[i]);
    }
  }

  lemma {:induction false} AllNeeded(rows: seq<ChunkRow>, force: bool, n: nat)
    requires n <= |rows| && forall i :: 0 <= i < |rows| ==> Needs(rows[i], false)
    ensures CountNeeding(rows, force, n) == n
  {
    if n > 0 {
      AllNeeded(rows, force, n - 1);
    }
  }

  lemma {:induction false} StripTwice(x: string)
    requires Strip(x) != ""
    ensures Strip(Strip(x)) != ""
  {
    RStripIsPrefix(LStrip(x));
    StripIsEmpty(Strip(x));
  }

  lemma {:induction false} NoneNeeded(rows: seq<ChunkRow>, n: nat)
    requires n <= |rows| && forall i :: 0 <= i < |rows| ==> HasSummary(rows[i])
    ensures CountNeeding(rows, false, n) == 0
  {
    if n > 0 {
      NoneNeeded(rows, n - 1);
    }
  }
}
