/** The retrieval tool that the chat runner calls: its step log, its live sink, the results it
    remembers, and the audit marks around each call. */
module RetrievalTool {
  import opened ChatSteps
  import opened Options

  const MAX_LIMIT := 50

  /** The router's decision; the route "skip_retrieval" answers without searching. */
  datatype Decision = Decision(route: string, strategy: string, reason: string)

  datatype Hit = Hit(chunkId: nat, payload: string)

  /** What the retrieval service does with the request, or the audit write before it, or the
      serialisation of the results after it. */
  datatype Outcome =
    | AuditStartFails(message: string)
    | Found(hits: seq<Hit>, strategy: string)
    | Fails(message: string)
    | NotSerialised(message: string)

  datatype ToolCall = ToolCall(query: string, limit: int, resultCount: nat)

  datatype AuditMark =
    | Started(id: nat)
    | Completed(id: nat, resultCount: nat)
    | Failed(id: nat, message: string)

  /** Where the live step sink puts its steps. */
  class StepQueue {
    var items: seq<ChatStep>

    constructor ()
      ensures items == []
    {
      items := [];
    }
  }

  function Clamp(limit: int): (r: int)
    ensures 1 <= limit <= 50 ==> r == limit
    ensures limit < 1 ==> r == 1
    ensures limit > 50 ==> r == 50
  {
    if limit < 1 then 1 else if limit > MAX_LIMIT then MAX_LIMIT else limit
  }

  function Detail(query: string, limit: int): map<Key, Json>
  {
    map[KOther("query") := JStr(query), KOther("limit") := JNum(limit as real)]
  }

  function RouteDetail(query: string, limit: int, d: Decision): map<Key, Json>
  {
    Detail(query, limit)
      [KOther("strategy") := JStr(d.strategy)]
      [KOther("route") := JStr(d.route)]
      [KOther("route_reason") := JStr(d.reason)]
  }

  function StartStep(query: string, limit: int, d: Decision): ChatStep
  {
    ChatStep("retrieval", Start, None, Some(RouteDetail(query, limit, d)), None)
  }

  function CloseStep(query: string, limit: int, d: Decision, outcome: Outcome, latency: nat): ChatStep
  {
    if d.route == "skip_retrieval" then
      ChatStep("retrieval", Done, Some(latency as real),
               Some(RouteDetail(query, limit, d)[KOther("result_count") := JNum(0.0)]), None)
    else match outcome
    case Found(hits, strategy) =>
      var counted := Detail(query, limit)[KOther("result_count") := JNum(|hits| as real)];
      ChatStep("retrieval", Done, Some(latency as real), Some(counted[KOther("strategy") := JStr(strategy)]), None)
    case _ =>
      ChatStep("retrieval", Error, Some(latency as real),
               Some(Detail(query, limit)[KOther("error") := JStr(outcome.message)]), None)
  }

  /** Nothing closes the start of a call whose audit write before the search raises, or whose results
      cannot be serialised. */
  predicate LeavesOpen(audited: bool, d: Decision, outcome: Outcome)
  {
    d.route != "skip_retrieval" && ((audited && outcome.AuditStartFails?) || outcome.NotSerialised?)
  }

  datatype SearchCall = SearchCall(query: string, limit: int, decision: Decision, outcome: Outcome, latency: nat)

  /** What the logged steps of a call say: the start names the request and its route, and the step that
      closes it tells how the call went. */
  predicate LogTells(logged: seq<ChatStep>, audited: bool, c: SearchCall)
  {
    var skipped := c.decision.route == "skip_retrieval";
    var query, limit := JStr(c.query), JNum(c.limit as real);
    var strategy, route, reason := JStr(c.decision.strategy), JStr(c.decision.route), JStr(c.decision.reason);
    && |logged| == (if !skipped && ((audited && c.outcome.AuditStartFails?) || c.outcome.NotSerialised?) then 1 else 2)
    && logged[0] == ChatStep("retrieval", Start, None,
         Some(map[KOther("query") := query, KOther("limit") := limit, KOther("strategy") := strategy,
                  KOther("route") := route, KOther("route_reason") := reason]), None)
    && (|logged| == 2 ==>
          logged[1] == ChatStep(
            "retrieval",
            if skipped || c.outcome.Found? then Done else Error,
            Some(c.latency as real),
            Some(if skipped then
                   map[KOther("query") := query, KOther("limit") := limit, KOther("strategy") := strategy,
                       KOther("route") := route, KOther("route_reason") := reason, KOther("result_count") := JNum(0.0)]
                 else if c.outcome.Found? then
                   map[KOther("query") := query, KOther("limit") := limit,
                       KOther("result_count") := JNum(|c.outcome.hits| as real),
                       KOther("strategy") := JStr(c.outcome.strategy)]
                 else
                   map[KOther("query") := query, KOther("limit") := limit, KOther("error") := JStr(c.outcome.message)]),
            None))
  }

  /** What a call adds to the log. */
  function StepsOfSearch(audited: bool, c: SearchCall): seq<ChatStep>
  {
    var start, close := StartStep(c.query, c.limit, c.decision),
                        CloseStep(c.query, c.limit, c.decision, c.outcome, c.latency);
    if LeavesOpen(audited, c.decision, c.outcome) then [start] else [start, close]
  }

  lemma {:induction false} StepsTell(audited: bool, c: SearchCall)
    ensures LogTells(StepsOfSearch(audited, c), audited, c)
  {
  }

  /** The results by chunk; a later result for the same chunk replaces the earlier one. */
  function Remember(retrieved: map<nat, string>, hits: seq<Hit>): map<nat, string>
  {
    if hits == [] then retrieved
    else Remember(retrieved, hits[..|hits| - 1])[hits[|hits| - 1].chunkId := hits[|hits| - 1].payload]
  }

  /** The latest result for the chunk, if it was found. */
  function LatestOf(hits: seq<Hit>, id: nat): (payload: Option<string>)
    ensures payload.None? <==> forall k :: 0 <= k < |hits| ==> hits[k].chunkId != id
    ensures payload.Some? ==>
      exists k :: 0 <= k < |hits| && hits[k] == Hit(id, payload.value)
                  && forall j :: k < j < |hits| ==> hits[j].chunkId != id
  {
    if hits == [] then None
    else
      var n := |hits| - 1;
      if hits[n].chunkId == id then
        assert hits[n] == Hit(id, hits[n].payload);
        Some(hits[n].payload)
      else
        var before := LatestOf(hits[..n], id);
        assert before.Some? ==> forall k :: 0 <= k < n ==> hits[..n][k] == hits[k];
        before
  }

  /** A chunk that was found is remembered by its latest result, and any other as before. */
  lemma {:induction false} RemembersLatest(retrieved: map<nat, string>, hits: seq<Hit>, id: nat)
    ensures var payload, after := LatestOf(hits, id), Remember(retrieved, hits);
            if payload.Some? then id in after && after[id] == payload.value
            else (id in after <==> id in retrieved) && (id in retrieved ==> after[id] == retrieved[id])
  {
    if hits != [] {
      RemembersLatest(retrieved, hits[..|hits| - 1], id);
    }
  }

  /** What a call that is not skipped returns: the hits, or the error of the first thing that raised. */
  function ResultOf(audited: bool, outcome: Outcome, closeError: Option<string>): (r: Result<seq<Hit>>)
    ensures r.Ok? <==> outcome.Found? && !(audited && closeError.Some?)
    ensures r.Ok? ==> r.value == outcome.hits
    ensures r.Err? ==> r.message == if audited && closeError.Some? && (outcome.Found? || outcome.Fails?)
                                    then closeError.value else outcome.message
  {
    if outcome.NotSerialised? || (audited && outcome.AuditStartFails?) then Err(outcome.message)
    else if audited && closeError.Some? then Err(closeError.value)
    else if outcome.Found? then Ok(outcome.hits)
    else Err(outcome.message)
  }

  /** The audit marks of a call of an audited session: none if the first write raises, and the first one
      alone if nothing closes the call. */
  function MarksOf(id: nat, outcome: Outcome, closeError: Option<string>): (marks: seq<AuditMark>)
    ensures |marks| == if outcome.AuditStartFails? then 0
                       else if outcome.NotSerialised? || closeError.Some? then 1 else 2
    ensures marks != [] ==> marks[0] == Started(id)
    ensures |marks| == 2 ==>
      marks[1] == if outcome.Found? then Completed(id, |outcome.hits|) else Failed(id, outcome.message)
  {
    if outcome.AuditStartFails? then []
    else if outcome.NotSerialised? || closeError.Some? then [Started(id)]
    else if outcome.Found? then [Started(id), Completed(id, |outcome.hits|)]
    else [Started(id), Failed(id, outcome.message)]
  }

  class ChatRetrievalTool {
    const defaultLimit: int
    const audited: bool
    var toolCalls: seq<ToolCall>
    var steps: seq<ChatStep>
    var retrieved: map<nat, string>
    var onStep: StepQueue?
    var audit: seq<AuditMark>
    var nextCall: nat

    constructor (defaultLimit: int, audited: bool)
      ensures this.defaultLimit == defaultLimit && this.audited == audited
      ensures toolCalls == [] && steps == [] && retrieved == map[] && onStep == null && audit == []
    {
      this.defaultLimit, this.audited := defaultLimit, audited;
      toolCalls, steps, retrieved, onStep, audit, nextCall := [], [], map[], null, [], 0;
    }

    method SetOnStep(queue: StepQueue?)
      modifies this`onStep
      ensures onStep == queue
    {
      onStep := queue;
    }

    /** Appends to the log and, while a sink is set, to the live queue. */
    method RecordStep(step: ChatStep)
      modifies this`steps, onStep
      ensures steps == old(steps) + [step]
      ensures onStep != null ==> onStep.items == old(onStep.items) + [step]
    {
      steps := steps + [step];
      if onStep != null {
        onStep.items := onStep.items + [step];
      }
    }

    /** One call of the tool. It logs a start and the step that closes it, brackets the search with
        audit marks when the session is audited, and remembers what was found; the start stays open
        when the audit write before the search or the serialisation of its results raises, and only
        then. `closeError` is what the audit write after the search raises, if it does: the call then
        fails with it, its step closed and its results remembered all the same. */
    method Search(query: string, limit: Option<int>, decision: Decision, outcome: Outcome, latency: nat,
                  closeError: Option<string>)
      returns (r: Result<seq<Hit>>, ghost logged: seq<ChatStep>)
      modifies this, onStep
      ensures onStep == old(onStep) && nextCall >= old(nextCall)
      ensures steps == old(steps) + logged
      ensures onStep != null ==> onStep.items == old(onStep.items) + logged
      ensures var active := Clamp(if limit.Some? then limit.value else defaultLimit);
              var c := SearchCall(query, active, decision, outcome, latency);
              logged == StepsOfSearch(audited, c) && LogTells(logged, audited, c)
      ensures r == if decision.route == "skip_retrieval" then Ok([]) else ResultOf(audited, outcome, closeError)
      ensures
        var active := Clamp(if limit.Some? then limit.value else defaultLimit);
        if decision.route == "skip_retrieval" || !outcome.Found? then
          retrieved == old(retrieved) && toolCalls == old(toolCalls)
        else
          && retrieved == Remember(old(retrieved), outcome.hits)
          && toolCalls == old(toolCalls) + [ToolCall(query, active, |outcome.hits|)]
      ensures audit == old(audit) + if decision.route == "skip_retrieval" || !audited then []
                                    else MarksOf(old(nextCall), outcome, closeError)
    {
      var rawLimit := if limit.Some? then limit.value else defaultLimit;
      var active := Clamp(rawLimit);
      ghost var c := SearchCall(query, active, decision, outcome, latency);
      logged := StepsOfSearch(audited, c);
      StepsTell(audited, c);
      RecordStep(StartStep(query, active, decision));
      if decision.route == "skip_retrieval" {
        RecordStep(CloseStep(query, active, decision, outcome, latency));
        r := Ok([]);
      } else {
        r := SearchAndClose(query, active, outcome, CloseStep(query, active, decision, outcome, latency), closeError);
      }
    }

    /** The search between its audit marks, for a call that is not skipped. */
    method SearchAndClose(query: string, active: int, outcome: Outcome, close: ChatStep, closeError: Option<string>)
      returns (r: Result<seq<Hit>>)
      modifies this, onStep
      ensures onStep == old(onStep) && nextCall >= old(nextCall)
      ensures var logged := if (audited && outcome.AuditStartFails?) || outcome.NotSerialised? then [] else [close];
              && steps == old(steps) + logged
              && (onStep != null ==> onStep.items == old(onStep.items) + logged)
      ensures r == ResultOf(audited, outcome, closeError)
      ensures retrieved == if outcome.Found? then Remember(old(retrieved), outcome.hits) else old(retrieved)
      ensures toolCalls == old(toolCalls) + if outcome.Found? then [ToolCall(query, active, |outcome.hits|)] else []
      ensures audit == old(audit) + if audited then MarksOf(old(nextCall), outcome, closeError) else []
    {
      var id := nextCall;
      if audited {
        if outcome.AuditStartFails? {
          return Err(outcome.message);
        }
        nextCall := nextCall + 1;
        audit := audit + [Started(id)];
      }
      if outcome.NotSerialised? {
        return Err(outcome.message);
      }
      if !outcome.Found? {
        var raised := CloseCall(close, Failed(id, outcome.message), closeError);
        return Err(if raised then closeError.value else outcome.message);
      }
      RememberHits(outcome.hits);
      toolCalls := toolCalls + [ToolCall(query, active, |outcome.hits|)];
      var raised := CloseCall(close, Completed(id, |outcome.hits|), closeError);
      return if raised then Err(closeError.value) else Ok(outcome.hits);
    }

    /** The closing step, and the audit mark beside it unless its write raises. */
    method CloseCall(step: ChatStep, mark: AuditMark, closeError: Option<string>) returns (raised: bool)
      modifies this`steps, this`audit, onStep
      ensures steps == old(steps) + [step]
      ensures onStep != null ==> onStep.items == old(onStep.items) + [step]
      ensures raised == (audited && closeError.Some?)
      ensures audit == if audited && !raised then old(audit) + [mark] else old(audit)
    {
      RecordStep(step);
      if audited {
        if closeError.Some? {
          return true;
        }
        audit := audit + [mark];
      }
      return false;
    }

    method RememberHits(hits: seq<Hit>)
      modifies this`retrieved
      ensures retrieved == Remember(old(retrieved), hits)
    {
      for n := 0 to |hits|
        invariant retrieved == Remember(old(retrieved), hits[..n])
      {
        assert hits[..n + 1][..n] == hits[..n];
        retrieved := retrieved[hits[n].chunkId := hits[n].payload];
      }
      assert hits[..|hits|] == hits;
    }
  }

  /** What a call logs is a start and the step that closes it, and the closing step carries every
      field that the start carries. */
  lemma {:induction false} SearchClosesItsStart(query: string, limit: int, d: Decision, outcome: Outcome, latency: nat)
    ensures var call := Call(StartStep(query, limit, d), CloseStep(query, limit, d, outcome, latency));
            Closes(call) && call.start.id == "retrieval"
  {
  }

  // -- The log of several calls --

  function SearchLog(audited: bool, calls: seq<SearchCall>): seq<ChatStep>
  {
    if calls == [] then []
    else SearchLog(audited, calls[..|calls| - 1]) + StepsOfSearch(audited, calls[|calls| - 1])
  }

  /** How many calls leave their start open. */
  function OpenSearches(audited: bool, calls: seq<SearchCall>): nat
  {
    if calls == [] then 0
    else
      var last := calls[|calls| - 1];
      OpenSearches(audited, calls[..|calls| - 1]) + if LeavesOpen(audited, last.decision, last.outcome) then 1 else 0
  }

  /** A retrieval step carries a detail, no usage, and a time exactly when it is an end. */
  predicate IsRetrievalStep(s: ChatStep)
  {
    s.id == "retrieval" && s.detail.Some? && s.usage.None? && (s.status == Start <==> s.elapsedMs.None?)
  }

  predicate AreRetrievalSteps(steps: seq<ChatStep>)
  {
    forall k :: 0 <= k < |steps| ==> IsRetrievalStep(steps[k])
  }

  lemma {:induction false} SearchLogIsRetrieval(audited: bool, calls: seq<SearchCall>)
    ensures AreRetrievalSteps(SearchLog(audited, calls))
  {
    if calls != [] {
      SearchLogIsRetrieval(audited, calls[..|calls| - 1]);
    }
  }

  lemma {:induction false} PendingOfSearch(audited: bool, log: seq<ChatStep>, c: SearchCall)
    ensures Pending(log + StepsOfSearch(audited, c), "retrieval")
            == Pending(log, "retrieval") + if LeavesOpen(audited, c.decision, c.outcome) then 1 else 0
  {
    var start, close := StartStep(c.query, c.limit, c.decision),
                        CloseStep(c.query, c.limit, c.decision, c.outcome, c.latency);
    PendingSnoc(log, start, "retrieval");
    PendingSnoc(log + [start], close, "retrieval");
    assert log + [start, close] == log + [start] + [close];
  }

  /** The starts that a log leaves open are those of the calls that leave theirs open: a call that closes
      its start never closes another's. */
  lemma {:induction false} PendingOfSearches(audited: bool, calls: seq<SearchCall>)
    ensures Pending(SearchLog(audited, calls), "retrieval") == OpenSearches(audited, calls)
  {
    if calls != [] {
      PendingOfSearches(audited, calls[..|calls| - 1]);
      PendingOfSearch(audited, SearchLog(audited, calls[..|calls| - 1]), calls[|calls| - 1]);
    }
  }

  // -- Citations --

  /** The cited chunks that were retrieved, each once, at its first mention. */
  function KnownOnce(cited: seq<nat>, retrieved: map<nat, string>): seq<nat>
  {
    if cited == [] then []
    else
      var rest, id := KnownOnce(cited[..|cited| - 1], retrieved), cited[|cited| - 1];
      if id in retrieved && id !in rest then rest + [id] else rest
  }

  method ResolveCitations(cited: seq<nat>, retrieved: map<nat, string>) returns (citations: seq<string>)
    ensures var ids := KnownOnce(cited, retrieved);
            && |citations| == |ids|
            && forall k :: 0 <= k < |ids| ==> ids[k] in retrieved && citations[k] == retrieved[ids[k]]
  {
    citations := [];
    var seen: set<nat> := {};
    for n := 0 to |cited|
      invariant var ids := KnownOnce(cited[..n], retrieved);
                && |citations| == |ids|
                && (forall k :: 0 <= k < |ids| ==> ids[k] in retrieved && citations[k] == retrieved[ids[k]])
                && (forall id :: id in seen <==> id in ids)
    {
      assert cited[..n + 1][..n] == cited[..n];
      var id := cited[n];
      if id in seen || id !in retrieved {
        continue;
      }
      seen := seen + {id};
      citations := citations + [retrieved[id]];
    }
    assert cited[..|cited|] == cited;
  }

  /** Unknown and repeated ids are skipped and nothing else is: the citations are exactly the cited
      chunks that were retrieved, without repetition, in the order of their first mention. */
  lemma {:induction false} CitationsAreKnownCited(cited: seq<nat>, retrieved: map<nat, string>)
    ensures var ids := KnownOnce(cited, retrieved);
            && (forall id :: id in ids <==> id in cited && id in retrieved)
            && (forall j, k :: 0 <= j < k < |ids| ==> ids[j] != ids[k])
    ensures forall n :: 0 <= n <= |cited| ==> KnownOnce(cited[..n], retrieved) <= KnownOnce(cited, retrieved)
  {
    if cited != [] {
      var front := cited[..|cited| - 1];
      CitationsAreKnownCited(front, retrieved);
      assert cited == front + [cited[|cited| - 1]];
      forall n | 0 <= n <= |cited|
        ensures KnownOnce(cited[..n], retrieved) <= KnownOnce(cited, retrieved)
      {
        if n < |cited| {
          assert cited[..n] == front[..n];
        } else {
          assert cited[..n] == cited;
        }
      }
    }
  }
}
