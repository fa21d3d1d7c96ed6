# Chunking, chat streaming, history and client state, verified

This project models the parts of the repository that keep state over many steps and proves what they
guarantee.

- **The Markdown chunker.** `MarkdownLines` cuts a text into lines and scans runs of them, `BlockParser`
  and `SectionPath` group the lines into blocks under a section path, `Splitter` cuts oversized blocks,
  `Chunker` packs blocks into chunks with overlap, and `ChunkerTheorems` follows every character, every
  token bound and every section through all stages. The token estimator is an arbitrary function, so no
  bound needs it to be monotone. `BlockLaws` tells what each kind of block covers by the characters of its
  lines, and `ChunkerLaws` the limits of pieces, chunks and overlaps by token counts of spans of the text. `ChunkStore` stores, links and summarises the chunks of one document
  version; `ContextSummaries` is the truncation of the summaries.
- **The answer stream.** `PartialAnswer` reads the answer out of a partial JSON buffer, `AnswerDeltas` is
  the loop that emits what is new, in one attempt or after retries, `JsonStrings` relates the reading to
  JSON string encoding.
- **The chat stream.** `StreamProtocol` is the generator, the worker thread and their two queues as a
  state machine: `StartMove`, `RunnerMove`, `FinishMove` and `FailMove` are the steps of the generator in
  its own order, `WorkStep` and `Puts` those of the worker, and `CloseStep` is the consumer closing the
  generator before its start or at any yield. A schedule is any list of such actions, so a run is any
  interleaving. `StreamInvariants` and `StreamSteps` hold what every step keeps, `StreamTheorems` and
  `StreamProgress` what every run guarantees. `StreamShape` follows the order of all events, the tool calls,
  the heartbeats and the live sink. `StreamEndings` proves that the request alone decides the
  steps, deltas, ending and audit log of every run that is not closed, `StreamFairness` that every fair
  schedule reaches that end, `StreamedSteps` what the folding client shows of the steps, and
  `StreamWitnesses` constructs the runs that show where the guarantees end.
- **Server-sent events and steps.** `SseStream` is the server's printer and the client's reader, `SseLaws`
  what the reader makes of every way to write a block and of every list of events,
  `ChatSteps` the serialised form of a step and the client's fold of step events, `RetrievalTool` the
  tool that logs retrieval steps.
- **Rolling history.** `History` normalises turns and extracts pinned facts, `HistorySummary` condenses
  older turns, `HistoryLaws` tells what is kept of them by characters and positions, `HistoryCallers` compares the history of a turn that responds at once with that of a
  streamed turn, and `HistoryExamples` holds concrete transcripts at the edges of these guarantees.
- **Client state machines.** `CsrfClient` is the shared token refresh, `CsrfCalls` follows a
  single call and the session through it, `Transcript` the regrouping of a
  session log into turns.

`Text`, `Words`, `Collapse` and `Options` are shared helpers.

Several natural claims do not hold of the code. For each the project has the exact condition under which
it does and a concrete input where it does not:

- The streamed pieces spell the answer unless a chunk boundary falls inside an escape
  (`AnswerDeltas.PiecesSpellAnswerIff`, `AnswerDeltas.SplitEscapeIsWrong`).
- The emitted text is the answer unless an attempt that broke off had shown some of its own
  (`AnswerDeltas.AttemptsSpellAnswerIff`, `AnswerDeltas.RetryRepeatsAnswer`).
- A failing stream yields each logged step once if and only if there is none, the user message or the
  preparation raised, or the output was good and its writing raised; otherwise it repeats them
  (`StreamEndings.StepsGoOutOnceIff`, `StreamTheorems.FailureRepeatsSteps`; a run in
  `StreamWitnesses.RunsAtTheEdges`).
- A stream that is over has one terminal mark unless it was closed before its start, at the final event or
  inside the failure handler before its error event, or `fail_session` raised there; a close at the final
  event leaves two marks, the others none (`StreamTheorems.OneTerminalMarkIff`; runs in
  `StreamWitnesses.RunsAtTheEdges`).
- A user turn reaches the log unless another user turn follows it (`HistorySummary.TurnIsLoggedIff`,
  `HistoryExamples.FirstOfTwoQuestionsIsDropped`).
- The log that is selected to fit beside the pinned facts reaches the runner whole unless it leaves less
  than the sixteen characters of its header: `src/adaptive_rag/chat/history.py:230` reserves only two of
  them. Where there is room for two hundred characters of log the text can be up to fourteen characters
  too long, and its end, which is the newest exchange, gives way to an ellipsis
  (`HistorySummary.PinnedLogIsWholeIff`, `HistorySummary.PinnedOverflowIsBounded`,
  `HistoryExamples.FittingLogLosesItsEnd`).
- A truncated summary text can exceed its limit by two (`ContextSummaries.TruncationExceedsIff`,
  `ContextSummaries.LongWordExceeds`).
- The section path is the chain of nearest lower headings unless a level is skipped in a harmful way
  (`SectionPath.PathIsChainIffHeadingsLand`, `SectionPath.SkippedLevelNestsSibling`).
- A pinned block survives unless it reaches the limit (`HistorySummary.PinnedFactsSurviveIff`,
  `HistoryExamples.ElevenPinnedFactsAreLost`). The pinned texts in both examples begin with "i want", which
  the first pattern at `src/adaptive_rag/chat/history.py:154` finds.
- Both ways to answer prepare the same history unless the load limit is reached
  (`HistoryCallers.SameHistoryIff`, `HistoryExamples.FullTranscriptDiffers`).
- A waiting call sends the refreshed token unless it has been cleared meanwhile
  (`CsrfClient.TokenHoldsIff`, `CsrfClient.WaiterCanSendWithoutToken`).
- Two turns of a transcript never share a tool call if their spans of time do not overlap, and can share
  one otherwise; ordered user messages, as the server sends them
  (`src/adaptive_rag/db/repositories/chat_audit.py:678-686`), never overlap
  (`Transcript.TurnsShareACallIff`, `Transcript.OrderedTurnsDoNotOverlap`,
  `Transcript.UnorderedTimesShareACall`).

The comment at `src/adaptive_rag/chat/history.py:26-27` promises that twelve pinned lines are always kept;
the code guarantees ten, and the model follows the code.

`dafny verify dfyconfig.toml` checks the whole project.

## Model

| member | source | states |
|---|---|---|
| `MarkdownLines.LineEndIsFirstBreak` | src/adaptive_rag/chunking/semantic_markdown.py:425-434 | a line ends at the first break character, which a carriage return shares with its line feed, or at the end of the text |
| `MarkdownLines.SplitLines` | src/adaptive_rag/chunking/semantic_markdown.py:425-434 | the lines cut the text without gaps at its line ends; an empty text has one empty line |
| `MarkdownLines.ConsumeBlankLines` | src/adaptive_rag/chunking/semantic_markdown.py:441-444 | the scanner stops at the first line that is not blank, or at the end |
| `MarkdownLines.ConsumeCodeFence` | src/adaptive_rag/chunking/semantic_markdown.py:452-459 | the scanner takes everything up to and including the first line that closes the same fence, or to the end |
| `MarkdownLines.ConsumeTable` | src/adaptive_rag/chunking/semantic_markdown.py:470-474 | the scanner takes the header and every directly following line with a bar |
| `MarkdownLines.ConsumeList` | src/adaptive_rag/chunking/semantic_markdown.py:477-485 | the scanner takes lines until one is blank or is neither an item nor indented |
| `MarkdownLines.ConsumeParagraph` | src/adaptive_rag/chunking/semantic_markdown.py:488-501 | the scanner takes lines until one is blank or, past the first line of the document, opens a heading, a fence, a list or a table |
| `BlockParser.ContentConsumes` | src/adaptive_rag/chunking/semantic_markdown.py:202-223 | each dispatch branch consumes at least one line, because the dispatcher has already ruled out what would stop the scanner at its first line |
| `BlockParser.BlockRunIsUnique` | src/adaptive_rag/chunking/semantic_markdown.py:167-223 | where a block ends is determined by where it starts |
| `BlockParser.ParseBlocks` | src/adaptive_rag/chunking/semantic_markdown.py:160-223 | for every text the parser ends, its blocks are the runs of lines between its cuts with the section open there, and only the first block can be blank |
| `BlockParser.ParsedTiles` | src/adaptive_rag/chunking/semantic_markdown.py:160-223 | the blocks of a non-empty text are non-empty and follow each other from its first to its last character |
| `BlockParser.ParsedSections` | src/adaptive_rag/chunking/semantic_markdown.py:182-200 | only a heading block changes the section; a path has at most six entries, is empty exactly when there is no heading, and ends in the current heading |
| `BlockLaws.KindByFirstLine` | src/adaptive_rag/chunking/semantic_markdown.py:167-201 | a block is blank if and only if its first line is all white space, a heading if and only if that line without the white space around it matches the heading pattern, and no other block starts inside it |
| `BlockLaws.BlankAndHeadingLaw` | src/adaptive_rag/chunking/semantic_markdown.py:167-196 | a blank block covers blank lines, and a heading the blank lines behind it |
| `BlockLaws.FenceLaw` | src/adaptive_rag/chunking/semantic_markdown.py:447-459 | content that begins, after white space, with three backticks or tildes reaches through the first later line that begins with the same three, or to the end; no block starts and no heading is read in between |
| `BlockLaws.TableLaw` | src/adaptive_rag/chunking/semantic_markdown.py:462-474 | otherwise content whose first line has a bar and is followed by a separator reaches as far as every line has a bar |
| `BlockLaws.ListLaw` | src/adaptive_rag/chunking/semantic_markdown.py:477-485 | otherwise content that begins with a list item reaches as far as every line is visible and is an item or begins with a space or a tab |
| `BlockLaws.ParagraphLaw` | src/adaptive_rag/chunking/semantic_markdown.py:488-501 | any other content reaches to the first line that is blank or, past the first line of the document, opens a heading, a fence, a list or a table |
| `SectionPath.PathShape` | src/adaptive_rag/chunking/semantic_markdown.py:184-187 | the path after a heading has at most as many entries as the level, never more than six, and ends in that heading |
| `SectionPath.PathIsChainIffHeadingsLand` | src/adaptive_rag/chunking/semantic_markdown.py:182-187 | the path is the chain of nearest earlier lower-level headings after each heading if and only if every heading keeps exactly the open headings above it |
| `SectionPath.NoSkipGivesChain` | src/adaptive_rag/chunking/semantic_markdown.py:182-187 | when no heading skips a level, the path is that chain |
| `SectionPath.SkippedLevelNestsSibling` | src/adaptive_rag/chunking/semantic_markdown.py:186 | with levels 1, 3, 3 the second third-level heading is filed under its sibling |
| `Words.FindWords` | src/adaptive_rag/chunking/semantic_markdown.py:243 | the matches of one run of visible characters with its trailing space are exactly the words of the text, in order |
| `Words.NoMatchIffNoWord` | src/adaptive_rag/chunking/semantic_markdown.py:243-245 | there is no match if and only if the text has no visible character |
| `Splitter.SplitBlockByTokens` | src/adaptive_rag/chunking/semantic_markdown.py:239-279 | the pieces tile the block, are cut only before words and only where one more word would exceed the target, and each fits the target or holds one word |
| `Splitter.SplitOversizedBlocks` | src/adaptive_rag/chunking/semantic_markdown.py:225-237 | a block within the maximum is kept, any other is replaced by its pieces; if the blocks tile the text, so do the pieces, each within the maximum or with at most one word |
| `Splitter.PiecesAreGood` | src/adaptive_rag/chunking/semantic_markdown.py:225-279 | after splitting the blocks still tile the text and change section only at headings, and each fits the maximum or holds at most one word |
| `Chunker.OverlapStart` | src/adaptive_rag/chunking/semantic_markdown.py:317-344 | the start is the overlap word or the new region, for every token estimator |
| `Chunker.FindOverlapWord` | src/adaptive_rag/chunking/semantic_markdown.py:330-338 | the search returns the latest word of the previous chunk from which the span reaches the overlap, or its first word if none does |
| `Chunker.OverlapWordIsUnique` | src/adaptive_rag/chunking/semantic_markdown.py:332-338 | there is only one such word, so the rule determines the start |
| `Chunker.NoOverlapIff` | src/adaptive_rag/chunking/semantic_markdown.py:325-344 | the chunk starts at its own region exactly when overlap is off, it is the first, the previous span has no word, or the extended chunk would exceed the maximum |
| `Chunker.PlanChunk` | src/adaptive_rag/chunking/semantic_markdown.py:281-312 | a plan has the next ordinal, ends where its blocks end, counts its own span and carries the section of its first non-blank block |
| `Chunker.FirstNonBlank` | src/adaptive_rag/chunking/semantic_markdown.py:504-508 | the first block that is not blank, or the first block |
| `Chunker.PackBlocks` | src/adaptive_rag/chunking/semantic_markdown.py:132-158 | the chunks are planned for consecutive regions of the blocks that together are all blocks, each region as long as the target and the headings allow; ordinals count from zero |
| `Chunker.Chunk` | src/adaptive_rag/chunking/semantic_markdown.py:127-158 | an empty text is an error; otherwise the chunks are a greedy packing of the parsed and split blocks |
| `ChunkerTheorems.ChunkFollows` | src/adaptive_rag/chunking/semantic_markdown.py:127-158 | each start lies between the start and the end of the previous chunk, ends strictly increase, ordinals count from zero, and a chunk with overlap is within the maximum |
| `ChunkerTheorems.ChunksCoverText` | src/adaptive_rag/chunking/semantic_markdown.py:127-344 | every character is covered: the last chunk ends the text, and joining what each chunk adds past the previous end gives the text back |
| `ChunkerTheorems.ChunksAreBounded` | src/adaptive_rag/chunking/semantic_markdown.py:135-156 | for any token estimator a chunk is within the maximum unless its region is one block with at most one word and it has no overlap |
| `ChunkerTheorems.PackingIsGreedy` | src/adaptive_rag/chunking/semantic_markdown.py:135-156 | a region of several blocks fits the target, and it ends only at a heading or where the next block would exceed the target |
| `ChunkerTheorems.ChunkStaysInSection` | src/adaptive_rag/chunking/semantic_markdown.py:135-153 | all blocks of a chunk lie in the section of the chunk, and a heading is only its first block |
| `ChunkerTheorems.SectionIsHeadingChain` | src/adaptive_rag/chunking/semantic_markdown.py:182-200 | the section of a block is what the headings up to it leave open, and without skipped levels the chain of nearest lower headings |
| `ChunkerLaws.OverlapLaw` | src/adaptive_rag/chunking/semantic_markdown.py:317-344 | a chunk with overlap starts at a word of the chunk before it; from there to the end of that chunk the text has at least the overlap tokens or no word is earlier, from every later word it has fewer, and the chunk is within the maximum |
| `ChunkerLaws.PackingLaw` | src/adaptive_rag/chunking/semantic_markdown.py:135-153 | several blocks of a chunk are within the target, and the next block is a heading or would take them over it |
| `ChunkerLaws.SplitLaw` | src/adaptive_rag/chunking/semantic_markdown.py:225-279 | a block within the maximum stays whole; of any other each cut is at a word with which the piece before it would exceed the target |
| `ChunkStore.VersionChunks.ChunkDocumentVersion` | src/adaptive_rag/chunking/semantic_markdown.py:361-410 | a missing version is an error that changes nothing; existing rows are only checked; otherwise the rows hold the plans in order, doubly linked |
| `ChunkStore.VersionChunks.LinkRows` | src/adaptive_rag/chunking/semantic_markdown.py:400-404 | the linking pass sets both links of every row and keeps what the rows hold |
| `ChunkStore.ValidateExistingChunks` | src/adaptive_rag/chunking/semantic_markdown.py:412-422 | existing rows are accepted if and only if all come from this version and configuration of the chunker |
| `ChunkStore.LinksFollowOrdinals` | src/adaptive_rag/chunking/semantic_markdown.py:400-404 | a row links forward to another exactly when that one has the next ordinal, and back likewise; only the ends have no link |
| `ChunkStore.VersionChunks.ContextualizeDocumentVersion` | src/adaptive_rag/contextualization.py:174-234 | the rows that need a summary get the stripped one and no others change; generated plus reused is the number of rows; an error stops at the first row that cannot be summarised |
| `ChunkStore.RowTells` | src/adaptive_rag/contextualization.py:199-234 | the contextualizer is given the document, the stored span of the row and its ordinal and section; the row gets what it returns without the white space around it; a row with a summary stays as it is unless forced |
| `ChunkStore.StoredRowsAreAccepted` | src/adaptive_rag/contextualization.py:243-249 | the rows that chunking stores always pass the range checks and the configuration check |
| `ChunkStore.SecondRunIsIdle` | src/adaptive_rag/contextualization.py:199-202 | after a run a second unforced run has nothing to generate, changes nothing and finds the chunks still valid and linked |
| `ChunkStore.VersionChunks.RunTwice` | src/adaptive_rag/contextualization.py:174-234 | chunking and summarising the same version again creates no chunk, generates no summary and leaves every row as it is |
| `ContextSummaries.TruncationExceedsIff` | src/adaptive_rag/contextualization.py:296-302 | a truncated text exceeds its limit by at most two characters, and exactly when it is long, has no space left after the cut and lost fewer than two characters to trimming |
| `ContextSummaries.TruncationIsBeginning` | src/adaptive_rag/contextualization.py:296-302 | a truncated text is the beginning of the text, cut before the limit, without trailing white space and back to the last space if there is one, with three dots |
| `ContextSummaries.LongWordExceeds` | src/adaptive_rag/contextualization.py:299-302 | one word of a hundred letters cut to eighty gives eighty-two |
| `ContextSummaries.SummariesStayWithinLimit` | src/adaptive_rag/contextualization.py:79-95 | the deterministic summaries stay within their limit all the same, for every limit from eighty |
| `Collapse.CompactKeepsWords` | src/adaptive_rag/contextualization.py:292-293 | collapsing white space keeps every word in order, leaves single spaces between them and no other white space, and has nothing to do the second time |
| `Collapse.CompactIsTrimmed` | src/adaptive_rag/contextualization.py:292-293 | no white space is left at the ends, and nothing is left exactly of blank text |
| `Collapse.SplitUnfolds` | src/adaptive_rag/contextualization.py:292-293 | the words of a text are the runs of visible characters between white space, in order |
| `PartialAnswer.FindKeyStable` | src/adaptive_rag/chat/qwen.py:535-538 | the first match of the answer key stays where it is when more text arrives |
| `PartialAnswer.FindKeyIsFirst` | src/adaptive_rag/chat/qwen.py:532-538 | the answer is read behind the first quoted key that is followed by a colon and a quote, with any white space around the colon, and not at all without one |
| `PartialAnswer.PartialAnswerFromJsonBuffer` | src/adaptive_rag/chat/qwen.py:532-560 | the result is the unescaped text after the first key up to its closing quote, or nothing without a key |
| `PartialAnswer.CleanPrefixGrows` | src/adaptive_rag/chat/qwen.py:540-560 | the text read so far stays a prefix when the buffer grows, unless the buffer ends inside an escape, and is final once the quote is closed |
| `PartialAnswer.OpenEscapeIsReplaced` | src/adaptive_rag/chat/qwen.py:542-556 | a buffer that ends in a lone backslash shows the backslash, which the next character replaces |
| `AnswerDeltas.EmitAnswerDeltas` | src/adaptive_rag/chat/qwen.py:440-451 | the loop emits the pieces of the emission step by step, and what it has emitted is their concatenation |
| `AnswerDeltas.PiecesSpellAnswerIff` | src/adaptive_rag/chat/qwen.py:440-451 | for every list of deltas the emitted pieces spell the answer of the whole buffer if and only if no delta boundary falls inside an escape that reads as another character than the backslash |
| `AnswerDeltas.BufferIsConcat` | src/adaptive_rag/chat/qwen.py:440-443 | the buffer is the concatenation of the deltas, without the empty ones |
| `AnswerDeltas.SplitEscapeIsWrong` | src/adaptive_rag/chat/qwen.py:542 | a boundary inside an escape gives a wrong character |
| `AnswerDeltas.EmitAttempts` | src/adaptive_rag/chat/qwen.py:373-487 | each attempt reads and emits from its own start; the content of the last one is returned, and blank content is an error after everything has been emitted |
| `AnswerDeltas.AttemptsSpellAnswerIff` | src/adaptive_rag/chat/qwen.py:373-451 | over any attempts the emitted text is the answer of the last one if and only if no earlier attempt had shown any of its answer and no boundary of the last one falls inside an escape that reads as another character than the backslash |
| `AnswerDeltas.RetryRepeatsAnswer` | src/adaptive_rag/chat/qwen.py:376-378 | an attempt that breaks off behind one letter leaves the letter in front of the answer |
| `JsonStrings.ExtractInvertsEncodingIff` | src/adaptive_rag/chat/qwen.py:540-560 | reading inverts JSON string encoding (section 7 of RFC 8259) if and only if the text is written with literal characters and the escapes for newline, tab, quote, backslash and slash only |
| `JsonStrings.EncodedIsOneLine` | src/adaptive_rag/chat/streaming.py:150-156 | an encoded string has no line break, so payload text stays on one line |
| `SseStream.ParseSseBlock` | frontend/src/lib/apiClient.ts:2717-2746 | the fields of a block make one event, or none if there is neither a name nor data |
| `SseStream.ConsumeSseBuffer` | frontend/src/lib/apiClient.ts:2683-2715 | all complete blocks are handled in order and the incomplete rest stays in the buffer |
| `SseStream.ReadChatStream` | frontend/src/lib/apiClient.ts:2641-2681 | the outcome depends only on the concatenated text, not on how it was cut into chunks |
| `SseStream.DrainAppend` | frontend/src/lib/apiClient.ts:2683-2715 | draining a text in two steps is draining it at once |
| `SseStream.FrameParses` | frontend/src/lib/apiClient.ts:2717-2746 | the body that the printer writes for an event parses back to the event |
| `SseStream.DrainInvertsFrames` | src/adaptive_rag/chat/streaming.py:147-156 | the printed frames of any list of events drain to exactly these events |
| `SseStream.StreamArrivesAsSent` | frontend/src/lib/apiClient.ts:2641-2746 | for every cutting of the printed frames the client handles exactly the events sent (sections 9.2.5 and 9.2.6 of the WHATWG HTML standard) and returns the final event or fails with the error event |
| `SseLaws.BlockReads` | frontend/src/lib/apiClient.ts:2717-2746 | however a block is written, with comments, unknown fields, spaces or none behind the colon and either line break, its event has the last event name and the data lines joined, or an empty object for none |
| `SseLaws.StreamOutcome` | frontend/src/lib/apiClient.ts:2641-2715 | for every list of events all before the first unacceptable or error event are handled, and the error event too; without one the last final event is the result, and without a final event the stream fails for that |
| `SseLaws.LastBlockCounts` | frontend/src/lib/apiClient.ts:2660-2668 | a last event without its blank line is read as if it had one |
| `ChatSteps.UsageRoundTripIff` | frontend/src/lib/chatSteps.ts:220-252 | a usage record is read back as it was written if and only if its texts are not blank and its numbers not negative |
| `ChatSteps.StepRoundTripIff` | frontend/src/lib/chatSteps.ts:195-218 | a step is read back as it was written if and only if it is well formed in this sense |
| `ChatSteps.StepsRoundTripIff` | frontend/src/lib/chatSteps.ts:52-61 | a list of steps is read back from the metadata as it was written if and only if every step is |
| `ChatSteps.FindLastMatchingStart` | frontend/src/lib/chatSteps.ts:172-179 | the backward search finds the last open start of the id, or none |
| `ChatSteps.ApplyChatStepEvent` | frontend/src/lib/chatSteps.ts:32-50 | a start is appended; an end replaces the last open start of its id or is appended |
| `ChatSteps.EventIsShown` | frontend/src/lib/chatSteps.ts:32-50 | an end that closes a start takes the place of the last one of its id with its own status and fields and the fields of the start that it lacks; any other event is shown behind the others |
| `ChatSteps.FoldShowsPending` | frontend/src/lib/chatSteps.ts:32-50 | for every list of events the open starts that are shown are those that no later end has closed |
| `ChatSteps.FoldKeepsEnds` | frontend/src/lib/chatSteps.ts:32-50 | for every list of events whose ends carry what earlier starts of their id carry, the ends shown are a permutation of the ends sent |
| `ChatSteps.FoldCalls` | frontend/src/lib/chatSteps.ts:32-50 | a closed call adds exactly its closing step to what is shown |
| `ChatSteps.NonStartsOfLog` | src/adaptive_rag/chat/service.py:461-473 | of a log of closed calls the server keeps exactly the closing steps |
| `RetrievalTool.ChatRetrievalTool.RecordStep` | src/adaptive_rag/chat/tools.py:337-340 | a step goes to the log and, if there is a sink, to the sink |
| `RetrievalTool.ChatRetrievalTool.Search` | src/adaptive_rag/chat/tools.py:171-326 | each call logs one start and one closing step and brackets its audit entry; the start stays open if and only if the audit start or the serialisation of the results raises; results are remembered on success only, also when the audit write that closes the call raises and the call fails with it |
| `RetrievalTool.StepsTell` | src/adaptive_rag/chat/tools.py:187-313 | the start tells query, limit, strategy and route; the closing step is an error with the message if and only if the call was not skipped and nothing was found, and otherwise done with the number of results |
| `RetrievalTool.RemembersLatest` | src/adaptive_rag/chat/tools.py:286-292 | a chunk that was found is remembered by its latest result, and any other as before |
| `RetrievalTool.SearchClosesItsStart` | src/adaptive_rag/chat/tools.py:187-313 | the two steps of a call form a closed call under one id |
| `RetrievalTool.PendingOfSearches` | src/adaptive_rag/chat/tools.py:187-313 | of the log of any calls exactly the starts of the calls that left theirs open are pending |
| `RetrievalTool.ResolveCitations` | src/adaptive_rag/chat/service.py:983-1009 | each known cited chunk once, in the order of first citation |
| `RetrievalTool.CitationsAreKnownCited` | src/adaptive_rag/chat/service.py:995-1009 | citations are exactly the retrieved chunks among the cited ones, without repetition, and follow the order of citation |
| `StreamSteps.RunKeepsInv` | src/adaptive_rag/chat/service.py:325-732 | every interleaving of worker and generator, with a close at any yield, keeps the invariants of queues, output and audit log |
| `StreamSteps.WorkerKeepsDeltaQueue` | src/adaptive_rag/chat/service.py:618-646 | every non-empty delta is yielded or waits in the queue, in order, with the end marker last |
| `StreamSteps.MainKeepsMarks` | src/adaptive_rag/chat/service.py:325-540 | the audit log is exactly what the place of the generator and the raising calls determine |
| `StreamSteps.CloseKeepsMarks` | src/adaptive_rag/chat/service.py:483-502 | a close writes usage once and cancels in the body, and writes nothing before the start or inside the failure handler |
| `StreamTheorems.LoopDeliversEverything` | src/adaptive_rag/chat/service.py:664-732 | whatever the interleaving, a stream past its loop has yielded every delta and every retrieval step once and in order, and the holder is filled |
| `StreamTheorems.DeltasAreAPrefix` | src/adaptive_rag/chat/service.py:664-703 | no run, closed or not, streams anything but a prefix of the deltas and then the rest of the answer |
| `StreamTheorems.SuccessYieldsAnswerIff` | src/adaptive_rag/chat/service.py:394-444 | a successful run yields the context step, the answer start, each logged step once, the answer step and each tool call once, ends in one final event, and its deltas spell the answer if and only if the sanitised answer extends what was streamed, with nothing added otherwise |
| `StreamShape.ToolCallsGoOut` | src/adaptive_rag/chat/service.py:435-436 | the tool calls go out once and in order on every run that succeeds or fails after the flush, none on one that fails before, and a prefix on a closed one |
| `StreamShape.EventsInOrder` | src/adaptive_rag/chat/service.py:325-540 | a run opens with the announcement, the context step and the start of the answer; only steps, deltas and heartbeats follow while the runner works; a success closes with the answer step, the tool calls, the rest of the answer and the final event, a failure with the repeated steps, the error step and the error event |
| `StreamShape.HeartbeatsAreDue` | src/adaptive_rag/chat/service.py:697-702 | a heartbeat goes out exactly when the loop finds one due |
| `StreamShape.SinkIsLive` | src/adaptive_rag/chat/service.py:625-716 | the steps of the tool go to the live queue exactly while the runner is active and its queues are drained, and never once the stream is closed |
| `StreamShape.CloseReleases` | src/adaptive_rag/chat/service.py:708-717 | a close detaches the sink, puts an end marker while the runner is active, and yields nothing |
| `StreamShape.ClosedRunIsCutShort` | src/adaptive_rag/chat/service.py:481-502 | a closed run has yielded what it had at the moment of the close, which is a moment of an unclosed run |
| `StreamTheorems.FailureRepeatsSteps` | src/adaptive_rag/chat/service.py:504-540 | a failing run ends in one error event and yields every step twice unless it failed before the runner or after the flush |
| `StreamEndings.StepsGoOutOnceIff` | src/adaptive_rag/chat/service.py:504-524 | a failing run yields each logged step once if and only if none is logged, recording the user message or preparing raises, or the output is good and writing the answer raises |
| `StreamEndings.RequestDecidesTheRun` | src/adaptive_rag/chat/service.py:325-540 | every run that is over without a close has the same steps, deltas, tool calls, ending and audit log in the same order, given by the request alone, whatever the interleaving |
| `StreamFairness.FairRunsEnd` | src/adaptive_rag/chat/service.py:660-732 | if generator and worker keep getting their turn and the consumer does not close, the stream ends, stays as it is, and ends as the request decides |
| `StreamTheorems.SessionStartedFirst` | src/adaptive_rag/chat/service.py:329-337 | session_started is the first event of every started stream whose user message was recorded, and no later event is one |
| `StreamTheorems.UsageAtMostOnce` | src/adaptive_rag/chat/service.py:797-846 | provider usage is written at most once on every run, closed or not |
| `StreamTheorems.OneTerminalMarkIff` | src/adaptive_rag/chat/service.py:481-540 | a run that is over has exactly one terminal mark if and only if fail_session did not raise and it was not closed before its start, at the final event or inside the failure handler before the error event; a close at the final event leaves two, the other cases none |
| `StreamTheorems.TerminalMarkTellsTheEnding` | src/adaptive_rag/chat/service.py:445-535 | a run read to the end has written success as its last mark, or failure if it ended in an error; a close anywhere in the body leaves user message, usage and cancel, and after the success only at the final event |
| `StreamedSteps.SuccessLeavesOpenWhatTheLogDoes` | src/adaptive_rag/chat/service.py:385-474 | on every successful run the client that folds the streamed steps shows as open exactly what the log leaves open |
| `StreamedSteps.FoldedStepsArePersistedSteps` | src/adaptive_rag/chat/service.py:385-474 | on every successful run whose ends carry what their starts carry, the ends that the folding client shows are a permutation of the kept steps, also as parsed back from the metadata, open starts or not; they are all that it shows if and only if no id has a pending start |
| `StreamedSteps.SearchesArePersistedSteps` | src/adaptive_rag/chat/service.py:385-474 | so for every log of retrieval calls, whatever became of them; nothing is left running if and only if no call left its start open |
| `StreamedSteps.ClosedCallsArePersistedSteps` | src/adaptive_rag/chat/service.py:385-474 | when the log is made of closed calls under one id, the client is left with no open step and shows a permutation of the kept steps |
| `StreamWitnesses.CloseAtFinalLeavesTwoMarks` | src/adaptive_rag/chat/service.py:481-502 | every request on which nothing raises has a run that succeeded and was cancelled, closed at its final event |
| `StreamWitnesses.CloseInHandlerLeavesNoMark` | src/adaptive_rag/chat/service.py:481-523 | every request that fails in the runner has a run closed in the failure handler with no terminal mark |
| `StreamWitnesses.FailingWriteLeavesNoMark` | src/adaptive_rag/chat/service.py:525-535 | and one whose error escapes without a terminal mark if fail_session raises |
| `StreamWitnesses.ReportedFailureRepeatsSteps` | src/adaptive_rag/chat/service.py:504-540 | and otherwise one that reports its error after yielding every logged step twice |
| `StreamWitnesses.RunsAtTheEdges` | src/adaptive_rag/chat/service.py:481-540 | these ends, and a close before the start without a terminal mark, on one concrete request that logs one retrieval call |
| `StreamFairness.TakingTurnsIsFair` | src/adaptive_rag/chat/service.py:660-732 | there are fair schedules: taking turns is one |
| `StreamProgress.EveryRunCanEnd` | src/adaptive_rag/chat/service.py:660-732 | no run gets stuck: from every reachable state worker and generator reach an end without a close |
| `History.NormalizeTurns` | src/adaptive_rag/chat/history.py:132-148 | the loop keeps the stripped user and assistant turns with content, in order |
| `History.NormalizedIsSubstantive` | src/adaptive_rag/chat/history.py:143-147 | every kept turn has a visible character |
| `HistoryLaws.NormalizedKeeps` | src/adaptive_rag/chat/history.py:132-148 | the messages whose role without white space is user or assistant and whose text is not blank, and no others, are the turns, in order and without the white space around them |
| `History.ClipFits` | src/adaptive_rag/chat/history.py:262-266 | a clip keeps its limit, ends in a visible character and is empty only for blank text |
| `HistoryLaws.ClipIsBeginning` | src/adaptive_rag/chat/history.py:262-266 | a clip is the collapsed text, or its beginning without trailing white space and an ellipsis |
| `History.ExtractPinnedFacts` | src/adaptive_rag/chat/history.py:169-192 | the loop returns the latest facts within the slots |
| `History.FactsAreDistinctAndComplete` | src/adaptive_rag/chat/history.py:176-188 | before the limit the facts have different keys, and their keys are exactly those of the pinnable user turns |
| `HistoryLaws.PinsWordsIff` | src/adaptive_rag/chat/history.py:162-166 | a turn is pinned if and only if it is of the user and its words, one space apart, have eight to two hundred and eighty characters and match a pattern |
| `HistoryLaws.LatestIsEnd` | src/adaptive_rag/chat/history.py:189-191 | with a positive number of slots the latest facts are the end of the list |
| `HistoryExamples.LongTextsAreClipped` | src/adaptive_rag/chat/history.py:183-216 | a fact of 201 characters, a question of 161 and an answer of 121 are clipped to 200, 160 and 120 |
| `HistorySummary.BuildLog` | src/adaptive_rag/chat/history.py:210-223 | the loop writes exactly the lines that the positions of the turns determine |
| `HistorySummary.LinesAreAnswersPlusOpenQuestion` | src/adaptive_rag/chat/history.py:210-223 | one line for each assistant turn and one more for a last turn that is a user turn |
| `HistorySummary.TurnIsLoggedIff` | src/adaptive_rag/chat/history.py:212-223 | an assistant turn is always logged; a user turn if and only if it is last or an assistant turn follows it directly |
| `HistorySummary.KeepLatest` | src/adaptive_rag/chat/history.py:238-251 | the loop keeps the longest end of the log that fits and puts the number of all other lines before it |
| `HistorySummary.LongestFitIsUnique` | src/adaptive_rag/chat/history.py:239-247 | there is only one longest end that fits |
| `HistoryLaws.OmissionIsCounted` | src/adaptive_rag/chat/history.py:238-251 | the line in front of a shortened log holds in decimal digits the number of the lines left out |
| `HistorySummary.SummarizeTurns` | src/adaptive_rag/chat/history.py:195-259 | the summary is the cut of pinned block, header and fitted log |
| `HistoryExamples.WholeSummary` | src/adaptive_rag/chat/history.py:203-259 | the whole text of the summary of a question with its answer, an answer alone and an open question, under one fact, and of nothing |
| `HistoryExamples.SharesOfTheLog` | src/adaptive_rag/chat/history.py:230-233 | what is left for the log beside blocks of several lengths |
| `HistorySummary.SummaryFitsIff` | src/adaptive_rag/chat/history.py:257-259 | for any non-empty older part the summary keeps its limit if and only if the limit is at least one |
| `HistorySummary.PinnedFactsSurviveIff` | src/adaptive_rag/chat/history.py:228-259 | the pinned block is a prefix of the summary if and only if it is shorter than the limit, or as long as the limit and already ends in a clip |
| `HistorySummary.TenFactsSurvive` | src/adaptive_rag/chat/history.py:24-27 | with the default limit any ten facts reach the runner whole |
| `HistorySummary.ElevenFullFactsAreCut` | src/adaptive_rag/chat/history.py:24-27 | eleven or more facts of full length never do |
| `HistorySummary.LogBodyFits` | src/adaptive_rag/chat/history.py:237-251 | the forty characters held back are enough for the line that counts what was left out, below a hundred million lines |
| `HistorySummary.UnpinnedLogIsWhole` | src/adaptive_rag/chat/history.py:237-259 | without pinned facts the selected log is whole if and only if it keeps the limit, and from two hundred characters on it does |
| `HistorySummary.PinnedLogIsWholeIff` | src/adaptive_rag/chat/history.py:228-259 | with pinned facts the selected log reaches the runner whole if and only if it fits together with the block and the sixteen characters of its header; otherwise the end of the newest exchange gives way to an ellipsis |
| `HistorySummary.PinnedOverflowIsBounded` | src/adaptive_rag/chat/history.py:230-253 | the text before the final cut exceeds the limit by at most fourteen characters when the block leaves two hundred for the log |
| `HistoryExamples.FittingLogLosesItsEnd` | src/adaptive_rag/chat/history.py:228-259 | with the default limits, for every pinning that finds the question, which begins with the words i want, one fact and eight exchanges whose log has exactly the size left for it: nothing is counted as omitted, and the newest answer loses its last fifteen characters |
| `HistoryExamples.ElevenPinnedFactsAreLost` | src/adaptive_rag/chat/history.py:24-27 | for every pinning that finds eleven wishes of two hundred characters and keeps them apart, they are eleven facts, fewer than the slots, and their block does not survive |
| `HistoryExamples.FirstOfTwoQuestionsIsDropped` | src/adaptive_rag/chat/history.py:212-223 | of two questions in a row the first is not in the log |
| `HistorySummary.PrepareChatHistory` | src/adaptive_rag/chat/history.py:66-129 | the method prepares what the normalised turns, the window and the limits determine; beyond the window it hands over the summary between its fixed sentences |
| `HistorySummary.RunnerIsHandedSummary` | src/adaptive_rag/chat/history.py:87-129 | up to the window the runner is handed the turns; beyond it the first turn is the summary between its fixed sentences, the second the fixed reply and the others the latest turns, and the summary is that of all earlier turns with their latest facts |
| `HistoryLaws.RunnerIsHandedFacts` | src/adaptive_rag/chat/history.py:93-121 | the pinned facts stand in the first turn behind its opening sentence whenever their block is shorter than the limit |
| `HistorySummary.PreparedIsBounded` | src/adaptive_rag/chat/history.py:80-129 | at most two turns more than the window; kept plus summarised is the total; the kept turns are the latest; the summary keeps its limit and starts with the facts when they fit |
| `HistoryCallers.InMemoryChatAuditWriter.RecordMessage` | src/adaptive_rag/chat/audit.py:344-362 | a message is appended |
| `HistoryCallers.InMemoryChatAuditWriter.ListHistoryTurns` | src/adaptive_rag/chat/audit.py:364-379 | the latest turns of the session, no more than the limit, and none for a limit of zero or less |
| `HistoryCallers.TurnsAreOfSession` | src/adaptive_rag/chat/audit.py:364-379 | the user and assistant messages of the session, and no others, are its turns, in order |
| `HistoryCallers.ChatService.PrepareHistory` | src/adaptive_rag/chat/service.py:734-766 | no session gives an empty history; otherwise the listed turns are prepared, without a last user turn that repeats the message |
| `HistoryCallers.ChatService.RespondHistory` | src/adaptive_rag/chat/service.py:161-174 | a turn that responds at once prepares the turns before its own message, which it records afterwards |
| `HistoryCallers.ChatService.StreamHistory` | src/adaptive_rag/chat/service.py:328-349 | a streamed turn records first and prepares the same turns with one place of the load limit taken by its own message |
| `HistoryCallers.RecordedMessageIsDropped` | src/adaptive_rag/chat/service.py:756-762 | the message just recorded is the last one listed and the one left out |
| `HistoryCallers.SameHistoryIff` | src/adaptive_rag/chat/service.py:734-766 | for every transcript both ways prepare the same history if and only if the load limit is not reached or the oldest listed turn says nothing |
| `HistoryExamples.FullTranscriptDiffers` | src/adaptive_rag/chat/service.py:734-766 | a transcript of as many messages as the load limit gives the two ways different histories, and without its oldest message the same, for every positive limit |
| `HistoryCallers.RecentIsLast` | src/adaptive_rag/chat/history.py:100-101 | the turns handed over verbatim are the last ones of the loaded transcript |
| `HistoryCallers.SameRecentTurnsIff` | src/adaptive_rag/chat/service.py:750-766 | the verbatim turns agree beyond the load limit too, if and only if what is still listed fills the window |
| `CsrfClient.RunKeepsInv` | frontend/src/lib/apiClient.ts:1406-1524 | every interleaving of calls, answers and promise callbacks keeps one fetch in flight and the bounds of every call |
| `CsrfClient.OneFetchAtATime` | frontend/src/lib/apiClient.ts:1433-1444 | at most one token fetch is outstanding |
| `CsrfClient.SentAtMostTwice` | frontend/src/lib/apiClient.ts:1446-1489 | a call is sent at most twice; a second send carries the token of the fetch it waited for; calls outside a session or with a safe method never wait and send no token; every token sent was issued |
| `CsrfCalls.FirstSendCarriesToken` | frontend/src/lib/apiClient.ts:1446-1478 | on every schedule a write or logout that starts inside a session sends first exactly the token held at that moment, and waits for the shared fetch without one; any other call is sent without a token |
| `CsrfCalls.ReplyTells` | frontend/src/lib/apiClient.ts:1478-1489 | only the first refusal of a token is not final |
| `CsrfCalls.RefreshTells` | frontend/src/lib/apiClient.ts:1484-1489 | a refused call forgets the token and waits for the fetch in flight or for a new one |
| `CsrfCalls.ResumeTells` | frontend/src/lib/apiClient.ts:1472-1489 | a waiter fails with its fetch; otherwise the first wait ends in a send of the token variable and the second in a send of the token of its fetch |
| `CsrfCalls.RefusedCallIsRetried` | frontend/src/lib/apiClient.ts:1478-1489 | a call whose first send was refused for its token stays on its way to a second send unless the fetch it waits for fails |
| `CsrfCalls.ReturnTells` | frontend/src/lib/apiClient.ts:1410-1431 | a fetch sets the token variable if and only if its response holds a token that is not empty |
| `CsrfCalls.SessionIsActiveIff` | frontend/src/lib/apiClient.ts:1492-1524 | a session is active if and only if a login or a look-up of the user has succeeded and no logout has since |
| `CsrfClient.WaitersAreServed` | frontend/src/lib/apiClient.ts:1433-1444 | a waiting call waits for the fetch in flight or can go on |
| `CsrfClient.FetchesAreBounded` | frontend/src/lib/apiClient.ts:1433-1489 | never more than two fetches for each call |
| `CsrfClient.TokenHoldsIff` | frontend/src/lib/apiClient.ts:1406-1524 | a returned token is held at every later moment if and only if no refused send, login or logout has cleared it |
| `CsrfClient.WaiterSendsReturnedToken` | frontend/src/lib/apiClient.ts:1472-1476 | until then a waiter that goes on fails if and only if its own fetch has no token, and otherwise sends exactly the returned token; a waiter on the fetch that returned it never fails |
| `CsrfClient.WaiterCanSendWithoutToken` | frontend/src/lib/apiClient.ts:1472-1476 | a login that completes before the waiter goes on makes it send no token |
| `Transcript.FindAnswer` | frontend/src/App.tsx:3562-3571 | the first assistant message after the question and before the next user message |
| `Transcript.AnswerIsFirst` | frontend/src/App.tsx:3562-3571 | the answer of a turn is the first assistant message between its question and the next user message, and missing only without one |
| `Transcript.TurnExistsIff` | frontend/src/App.tsx:3553-3561 | there is a turn exactly for the user messages that show a character |
| `Transcript.FindTurnEnd` | frontend/src/App.tsx:3576-3584 | the time of the next user message, or no end |
| `Transcript.TranscriptTurns` | frontend/src/App.tsx:3548-3619 | the loop makes the turns of the non-blank user messages |
| `Transcript.TurnsAreQuestions` | frontend/src/App.tsx:3553-3561 | there is a turn only for a non-blank user message, in the order of the messages |
| `Transcript.EveryQuestionHasATurn` | frontend/src/App.tsx:3553-3561 | each non-blank user message has its turn |
| `Transcript.AnswersAreSeparate` | frontend/src/App.tsx:3562-3575 | no two turns share an answer |
| `Transcript.TurnHasCallIff` | frontend/src/App.tsx:3585-3588 | with user messages ordered in time a turn has a tool call if and only if the last user message at or before the call is its own, as often as it is stored |
| `Transcript.CallsAreDisjoint` | frontend/src/App.tsx:3585-3588 | no tool call is in two turns |
| `Transcript.CallIsOwnedIff` | frontend/src/App.tsx:3585-3588 | a tool call is in some turn if and only if its last user message is not blank |
| `Transcript.NothingIsLost` | frontend/src/App.tsx:3585-3588 | without blank user messages every call from the first user message on is owned |
| `Transcript.TurnHasRunIff` | frontend/src/App.tsx:3592-3598 | a turn has a retrieval run if and only if its tool call or, without one, its time belongs to the turn |
| `Transcript.CallsInOrder` | frontend/src/App.tsx:3585-3588 | the tool calls of a turn come in the order of the log |
| `Transcript.RunsInOrder` | frontend/src/App.tsx:3592-3598 | and so do its retrieval runs |
| `Transcript.RunIsOwnedIff` | frontend/src/App.tsx:3592-3598 | a run is in some turn if and only if a non-blank user message owns it |
| `Transcript.RunsAreDisjoint` | frontend/src/App.tsx:3592-3598 | with distinct tool call ids no run is in two turns |
| `Transcript.TurnsShareACallIff` | frontend/src/App.tsx:3576-3588 | whatever the times, two turns can share a tool call if and only if their spans of time overlap |
| `Transcript.OrderedTurnsDoNotOverlap` | frontend/src/App.tsx:3576-3588 | the spans of two turns never overlap when the user messages are ordered in time |
| `Transcript.UnorderedTurnsCanBeDisjoint` | frontend/src/App.tsx:3576-3588 | user messages at times 10, 5 and 20 are not ordered and their turns are disjoint all the same |
| `Transcript.UnorderedTimesShareACall` | frontend/src/App.tsx:3585-3588 | with unordered times two turns can share a call |

## Left out

- The tokenizer, the regular expressions for headings, list items and table separators, the patterns of pinnable facts and lower-casing are arbitrary functions; only the word scanner is concrete.
- The JSON library: payload acceptance is a parameter of the stream reader, and member names of JSON objects are a datatype with the names that the code reads.
- UTF-8 decoding of the response body: the reader starts from decoded text chunks.
- Answer sanitising, query condensing, routing, retrieval, rerank and error classification: their results are parameters of a run.
- The heartbeat clock: whether a heartbeat is due is chosen freely at each turn of the loop.
- Whether a stream is tried again (status codes, backoff, budget, cancellation) and the fallback models of the runner: the attempts of one request are a list of any length.
- The client's own cancel request to the provider, and the knowledge proposal tool.
- Errors inside the cancel and usage writes are swallowed by the code, so the model records the attempt.
- Database sessions, transactions, workspaces and identifiers of persisted rows beyond their order and links.
- `chunker_config_hash` and the configuration record are one opaque value; the configuration checks of the constructor are assumed.
- The fixed sentences around the summary in the bridge turns are parameters; the position of the summary between them is modelled.
- Bearer-token mode of the API client, and all endpoints beyond login, logout and the current user.
- Dates that cannot be parsed: times in a session log are integers.
- Citations, steps, attachments and tool call details of a regrouped turn: only which messages, calls and runs it owns is modelled.
- NaN and infinite numbers in step metadata: numbers are reals.
- MarkdownLines.LineEnd: positions count characters, and a character outside the basic plane counts once, as in Python.
- Migrations, job queue, providers, React components and command line tools.
