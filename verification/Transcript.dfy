/** Regrouping the flat log of a session into turns: each non-blank user message with its answer and
    with the tool calls and retrieval runs of its time. */
module Transcript {
  import opened Options
  import opened Text

  datatype Role = User | Assistant | Other

  /** Times are milliseconds. */
  datatype Message = Message(id: nat, role: Role, content: string, createdAt: int)

  datatype ToolCall = ToolCall(id: nat, createdAt: int)

  /** A retrieval run may name the tool call it belongs to. */
  datatype RetrievalRun = RetrievalRun(id: nat, toolCall: Option<nat>, createdAt: int)

  datatype Session = Session(messages: seq<Message>, toolCalls: seq<ToolCall>, runs: seq<RetrievalRun>)

  /** A turn: the positions of its user message and of its answer, and its tool calls and runs. */
  datatype Turn = Turn(user: nat, assistant: Option<nat>, toolCalls: seq<ToolCall>, runs: seq<RetrievalRun>)

  /** `question.trim()` leaves something. */
  predicate Asks(m: Message)
  {
    m.role == User && !IsJsBlank(m.content)
  }

  // -- The scans --

  /** The first user message at or after `k`, or the end. */
  function NextUser(messages: seq<Message>, k: nat): (j: nat)
    requires k <= |messages|
    ensures k <= j <= |messages|
    ensures j < |messages| ==> messages[j].role == User
    ensures forall i :: k <= i < j ==> messages[i].role != User
    decreases |messages| - k
  {
    if k == |messages| || messages[k].role == User then k else NextUser(messages, k + 1)
  }

  /** The first assistant message from `k` on, before any user message. */
  function AnswerFrom(messages: seq<Message>, k: nat): (answer: Option<nat>)
    requires k <= |messages|
    ensures answer.Some? ==>
      && k <= answer.value < |messages| && messages[answer.value].role == Assistant
      && forall i :: k <= i < answer.value ==> messages[i].role == Other
    ensures answer.None? ==> forall i :: k <= i < NextUser(messages, k) ==> messages[i].role != Assistant
    decreases |messages| - k
  {
    if k == |messages| || messages[k].role == User then None
    else if messages[k].role == Assistant then Some(k)
    else AnswerFrom(messages, k + 1)
  }

  /** When the turn of message `k` ends: at the next user message, or never. */
  function EndOf(messages: seq<Message>, k: nat): Option<int>
    requires k < |messages|
  {
    var j := NextUser(messages, k + 1);
    if j < |messages| then Some(messages[j].createdAt) else None
  }

  predicate During(time: int, start: int, end: Option<int>)
  {
    start <= time && (end.Some? ==> time < end.value)
  }

  function CallsDuring(calls: seq<ToolCall>, start: int, end: Option<int>): seq<ToolCall>
  {
    if calls == [] then []
    else
      var before, call := CallsDuring(calls[..|calls| - 1], start, end), calls[|calls| - 1];
      if During(call.createdAt, start, end) then before + [call] else before
  }

  /** A run belongs to a turn through its tool call if it names one, and through its time if not. */
  predicate RunBelongs(run: RetrievalRun, ids: set<nat>, start: int, end: Option<int>)
  {
    if run.toolCall.Some? then run.toolCall.value in ids else During(run.createdAt, start, end)
  }

  function RunsOf(runs: seq<RetrievalRun>, ids: set<nat>, start: int, end: Option<int>): seq<RetrievalRun>
  {
    if runs == [] then []
    else
      var before, run := RunsOf(runs[..|runs| - 1], ids, start, end), runs[|runs| - 1];
      if RunBelongs(run, ids, start, end) then before + [run] else before
  }

  function IdsOf(calls: seq<ToolCall>): set<nat>
  {
    set k | 0 <= k < |calls| :: calls[k].id
  }

  function TurnAt(s: Session, k: nat): Turn
    requires k < |s.messages|
  {
    var start, end := s.messages[k].createdAt, EndOf(s.messages, k);
    var calls := CallsDuring(s.toolCalls, start, end);
    Turn(k, AnswerFrom(s.messages, k + 1), calls, RunsOf(s.runs, IdsOf(calls), start, end))
  }

  function TurnsTo(s: Session, n: nat): seq<Turn>
    requires n <= |s.messages|
  {
    if n == 0 then []
    else if Asks(s.messages[n - 1]) then TurnsTo(s, n - 1) + [TurnAt(s, n - 1)]
    else TurnsTo(s, n - 1)
  }

  method FindAnswer(messages: seq<Message>, index: nat) returns (assistantIndex: int)
    requires index < |messages|
    ensures assistantIndex == match AnswerFrom(messages, index + 1) case Some(k) => k case None => -1
  {
    assistantIndex := -1;
    var j := index + 1;
    while j < |messages|
      invariant index + 1 <= j <= |messages|
      invariant AnswerFrom(messages, index + 1) == AnswerFrom(messages, j)
    {
      if messages[j].role == User {
        break;
      }
      if messages[j].role == Assistant {
        assistantIndex := j;
        break;
      }
      j := j + 1;
    }
  }

  /** Skipping to the answer does not change which user message comes next. */
  lemma {:induction false} NextUserPastAnswer(messages: seq<Message>, k: nat)
    requires k <= |messages| && AnswerFrom(messages, k).Some?
    ensures NextUser(messages, AnswerFrom(messages, k).value + 1) == NextUser(messages, k)
    decreases |messages| - k
  {
    if messages[k].role != Assistant {
      NextUserPastAnswer(messages, k + 1);
    }
  }

  method FindTurnEnd(messages: seq<Message>, index: nat, assistantIndex: int) returns (turnEnd: Option<int>)
    requires index < |messages|
    requires assistantIndex == match AnswerFrom(messages, index + 1) case Some(k) => k case None => -1
    ensures turnEnd == EndOf(messages, index)
  {
    turnEnd := None;
    var j: nat := if assistantIndex >= 0 then assistantIndex + 1 else index + 1;
    if assistantIndex >= 0 {
      NextUserPastAnswer(messages, index + 1);
    }
    while j < |messages|
      invariant j <= |messages|
      invariant NextUser(messages, j) == NextUser(messages, index + 1)
    {
      if messages[j].role == User {
        return Some(messages[j].createdAt);
      }
      j := j + 1;
    }
  }

  method TranscriptTurns(s: Session) returns (turns: seq<Turn>)
    ensures turns == TurnsTo(s, |s.messages|)
  {
    turns := [];
    for index := 0 to |s.messages|
      invariant turns == TurnsTo(s, index)
    {
      var message := s.messages[index];
      if message.role != User {
        continue;
      }
      if IsJsBlank(message.content) {
        continue;
      }
      var assistantIndex := FindAnswer(s.messages, index);
      var turnEnd := FindTurnEnd(s.messages, index, assistantIndex);
      var turnToolCalls := CallsDuring(s.toolCalls, message.createdAt, turnEnd);
      var turnRuns := RunsOf(s.runs, IdsOf(turnToolCalls), message.createdAt, turnEnd);
      var assistant := if assistantIndex >= 0 then Some(assistantIndex) else None;
      turns := turns + [Turn(index, assistant, turnToolCalls, turnRuns)];
    }
  }

  // -- One turn for each question --

  predicate IsTurn(s: Session, n: nat, turn: Turn)
    requires n <= |s.messages|
  {
    turn.user < n && Asks(s.messages[turn.user]) && turn == TurnAt(s, turn.user)
  }

  /** The turns are those of the non-blank user messages, in order. */
  lemma {:induction false} TurnsAreQuestions(s: Session, n: nat)
    requires n <= |s.messages|
    ensures forall i {:trigger TurnsTo(s, n)[i]} :: 0 <= i < |TurnsTo(s, n)| ==> IsTurn(s, n, TurnsTo(s, n)[i])
    ensures forall i, j :: 0 <= i < j < |TurnsTo(s, n)| ==> TurnsTo(s, n)[i].user < TurnsTo(s, n)[j].user
  {
    if n > 0 {
      var before, turns := TurnsTo(s, n - 1), TurnsTo(s, n);
      TurnsAreQuestions(s, n - 1);
      forall i | 0 <= i < |turns|
        ensures IsTurn(s, n, turns[i])
        ensures i < |before| ==> turns[i].user < n - 1
        ensures i == |before| ==> turns[i].user == n - 1
      {
        if i < |before| {
          assert turns[i] == before[i] && IsTurn(s, n - 1, before[i]);
        }
      }
      forall i, j | 0 <= i < j < |turns|
        ensures turns[i].user < turns[j].user
      {
        if j < |before| {
          assert turns[i] == before[i] && turns[j] == before[j];
        }
      }
    }
  }

  lemma {:induction false} EveryQuestionHasATurn(s: Session, n: nat, k: nat)
    requires k < n <= |s.messages| && Asks(s.messages[k])
    ensures TurnAt(s, k) in TurnsTo(s, n)
  {
    if k < n - 1 {
      EveryQuestionHasATurn(s, n - 1, k);
    }
  }

  /** There is a turn exactly for the user messages that show a character. */
  lemma {:induction false} TurnExistsIff(s: Session, k: nat)
    requires k < |s.messages|
    ensures (exists turn :: turn in TurnsTo(s, |s.messages|) && turn.user == k)
            <==> s.messages[k].role == User
                 && exists i :: 0 <= i < |s.messages[k].content| && !IsJsSpace(s.messages[k].content[i])
  {
    TurnsAreQuestions(s, |s.messages|);
    if Asks(s.messages[k]) {
      EveryQuestionHasATurn(s, |s.messages|, k);
    }
    if turn :| turn in TurnsTo(s, |s.messages|) && turn.user == k {
      var i :| 0 <= i < |TurnsTo(s, |s.messages|)| && TurnsTo(s, |s.messages|)[i] == turn;
      assert IsTurn(s, |s.messages|, turn);
    }
  }

  /** An answer lies between its question and the next user message, so no two turns share one. */
  lemma {:induction false} AnswersAreSeparate(s: Session, i: nat, j: nat)
    requires i < j < |s.messages| && s.messages[j].role == User
    requires TurnAt(s, i).assistant.Some? && TurnAt(s, j).assistant.Some?
    ensures i < TurnAt(s, i).assistant.value < j < TurnAt(s, j).assistant.value
  {
    assert s.messages[j].role == User;
  }

  // -- Who owns an item of the log --

  /** The times of the user messages do not decrease; the other messages may have any times. */
  predicate Ordered(messages: seq<Message>)
  {
    forall i, j :: 0 <= i < j < |messages| && messages[i].role == User && messages[j].role == User ==>
      messages[i].createdAt <= messages[j].createdAt
  }

  /** The last user message at or before `time`, or -1. */
  function LastUserBy(messages: seq<Message>, time: int, n: nat): (k: int)
    requires n <= |messages|
    ensures -1 <= k < n
    ensures k >= 0 ==> messages[k].role == User && messages[k].createdAt <= time
    ensures forall i :: k < i < n ==> messages[i].role != User || messages[i].createdAt > time
  {
    if n == 0 then -1
    else if messages[n - 1].role == User && messages[n - 1].createdAt <= time then n - 1
    else LastUserBy(messages, time, n - 1)
  }

  function OwnerOf(s: Session, time: int): int
  {
    LastUserBy(s.messages, time, |s.messages|)
  }

  /** A time falls into the turn of a user message exactly when that message is the last one of a user
      at or before it. */
  lemma {:induction false} DuringIffOwner(s: Session, k: nat, time: int)
    requires Ordered(s.messages) && k < |s.messages| && s.messages[k].role == User
    ensures During(time, s.messages[k].createdAt, EndOf(s.messages, k)) <==> OwnerOf(s, time) == k
  {
    var j, owner := NextUser(s.messages, k + 1), OwnerOf(s, time);
    if s.messages[k].createdAt <= time {
      assert owner >= k;
      if j < |s.messages| {
        assert owner > k ==> owner >= j;
        if owner >= j {
          assert s.messages[j].createdAt <= s.messages[owner].createdAt by {
            if j < owner {
              assert s.messages[j].createdAt <= s.messages[owner].createdAt;
            }
          }
        }
      }
    }
  }

  /** Filtering keeps every call of the time as often as it is stored, and no other. */
  lemma {:induction false} CallsDuringKeeps(calls: seq<ToolCall>, start: int, end: Option<int>, call: ToolCall)
    ensures multiset(CallsDuring(calls, start, end))[call]
            == if During(call.createdAt, start, end) then multiset(calls)[call] else 0
    ensures call in CallsDuring(calls, start, end) <==> call in calls && During(call.createdAt, start, end)
  {
    if calls != [] {
      var n := |calls| - 1;
      assert calls == calls[..n] + [calls[n]];
      CallsDuringKeeps(calls[..n], start, end, call);
    }
  }

  lemma {:induction false} RunsOfKeeps(runs: seq<RetrievalRun>, ids: set<nat>, start: int, end: Option<int>,
                                       run: RetrievalRun)
    ensures multiset(RunsOf(runs, ids, start, end))[run]
            == if RunBelongs(run, ids, start, end) then multiset(runs)[run] else 0
    ensures run in RunsOf(runs, ids, start, end) <==> run in runs && RunBelongs(run, ids, start, end)
  {
    if runs != [] {
      var n := |runs| - 1;
      assert runs == runs[..n] + [runs[n]];
      RunsOfKeeps(runs[..n], ids, start, end, run);
    }
  }

  /** `picked` are the items at increasing positions of `items`. */
  ghost predicate InOrder<T>(picked: seq<T>, items: seq<T>, at: seq<nat>)
  {
    && |at| == |picked|
    && (forall i :: 0 <= i < |at| ==> at[i] < |items| && items[at[i]] == picked[i])
    && (forall i, j :: 0 <= i < j < |at| ==> at[i] < at[j])
  }

  /** The tool calls of a turn come in the order of the log. */
  lemma {:induction false} CallsInOrder(calls: seq<ToolCall>, start: int, end: Option<int>) returns (at: seq<nat>)
    ensures InOrder(CallsDuring(calls, start, end), calls, at)
  {
    at := [];
    if calls != [] {
      var n := |calls| - 1;
      at := CallsInOrder(calls[..n], start, end);
      if During(calls[n].createdAt, start, end) {
        at := at + [n];
      }
    }
  }

  /** And so do its retrieval runs. */
  lemma {:induction false} RunsInOrder(runs: seq<RetrievalRun>, ids: set<nat>, start: int, end: Option<int>)
    returns (at: seq<nat>)
    ensures InOrder(RunsOf(runs, ids, start, end), runs, at)
  {
    at := [];
    if runs != [] {
      var n := |runs| - 1;
      at := RunsInOrder(runs[..n], ids, start, end);
      if RunBelongs(runs[n], ids, start, end) {
        at := at + [n];
      }
    }
  }

  /** The answer of a turn is the first assistant message between its question and the next user message. */
  lemma {:induction false} AnswerIsFirst(s: Session, k: nat)
    requires k < |s.messages|
    ensures var answer := TurnAt(s, k).assistant;
            && (answer.Some? ==>
                  && k < answer.value < |s.messages| && s.messages[answer.value].role == Assistant
                  && forall i :: k < i < answer.value ==> s.messages[i].role == Other)
            && (answer.None? ==>
                  forall i :: k < i < |s.messages| && s.messages[i].role == Assistant ==>
                    exists j :: k < j < i && s.messages[j].role == User)
  {
    if TurnAt(s, k).assistant.None? {
      forall i | k < i < |s.messages| && s.messages[i].role == Assistant
        ensures exists j :: k < j < i && s.messages[j].role == User
      {
        var j := NextUser(s.messages, k + 1);
        assert j < i && s.messages[j].role == User;
      }
    }
  }

  /** A turn has a tool call of the log if and only if the call's last user message is the turn's. */
  lemma {:induction false} TurnHasCallIff(s: Session, k: nat, call: ToolCall)
    requires Ordered(s.messages) && k < |s.messages| && s.messages[k].role == User
    ensures call in TurnAt(s, k).toolCalls <==> call in s.toolCalls && OwnerOf(s, call.createdAt) == k
    ensures multiset(TurnAt(s, k).toolCalls)[call]
            == if OwnerOf(s, call.createdAt) == k then multiset(s.toolCalls)[call] else 0
  {
    CallsDuringKeeps(s.toolCalls, s.messages[k].createdAt, EndOf(s.messages, k), call);
    DuringIffOwner(s, k, call.createdAt);
  }

  /** No tool call is in two turns. */
  lemma {:induction false} CallsAreDisjoint(s: Session, i: nat, j: nat, call: ToolCall)
    requires Ordered(s.messages)
    requires i < |TurnsTo(s, |s.messages|)| && j < |TurnsTo(s, |s.messages|)|
    requires call in TurnsTo(s, |s.messages|)[i].toolCalls && call in TurnsTo(s, |s.messages|)[j].toolCalls
    ensures i == j
  {
    var turns := TurnsTo(s, |s.messages|);
    TurnsAreQuestions(s, |s.messages|);
    TurnHasCallIff(s, turns[i].user, call);
    TurnHasCallIff(s, turns[j].user, call);
  }

  /** A call of the log is in some turn if and only if its last user message is not blank. */
  lemma {:induction false} CallIsOwnedIff(s: Session, call: ToolCall)
    requires Ordered(s.messages) && call in s.toolCalls
    ensures (exists turn :: turn in TurnsTo(s, |s.messages|) && call in turn.toolCalls)
            <==> OwnerOf(s, call.createdAt) >= 0 && Asks(s.messages[OwnerOf(s, call.createdAt)])
  {
    var owner, turns := OwnerOf(s, call.createdAt), TurnsTo(s, |s.messages|);
    if owner >= 0 && Asks(s.messages[owner]) {
      EveryQuestionHasATurn(s, |s.messages|, owner);
      TurnHasCallIff(s, owner, call);
    }
    if turn :| turn in turns && call in turn.toolCalls {
      TurnsAreQuestions(s, |s.messages|);
      var i :| 0 <= i < |turns| && turns[i] == turn;
      TurnHasCallIff(s, turns[i].user, call);
    }
  }

  /** With no blank user message, everything at or after the first user message is owned. */
  lemma {:induction false} NothingIsLost(s: Session, first: nat, call: ToolCall)
    requires Ordered(s.messages) && call in s.toolCalls
    requires forall k :: 0 <= k < |s.messages| && s.messages[k].role == User ==> Asks(s.messages[k])
    requires first < |s.messages| && s.messages[first].role == User && s.messages[first].createdAt <= call.createdAt
    ensures exists turn :: turn in TurnsTo(s, |s.messages|) && call in turn.toolCalls
  {
    CallIsOwnedIff(s, call);
  }

  // -- Retrieval runs --

  predicate UniqueIds(calls: seq<ToolCall>)
  {
    forall i, j :: 0 <= i < j < |calls| ==> calls[i].id != calls[j].id
  }

  /** A stored tool call with this id belongs to user message `k`. */
  predicate CallOwnedBy(s: Session, id: nat, k: int)
  {
    exists c :: 0 <= c < |s.toolCalls| && s.toolCalls[c].id == id && OwnerOf(s, s.toolCalls[c].createdAt) == k
  }

  /** Where a run belongs: to the owner of its tool call, or to its own time's owner. */
  predicate RunOwnedBy(s: Session, run: RetrievalRun, k: int)
  {
    if run.toolCall.Some? then
      CallOwnedBy(s, run.toolCall.value, k)
    else OwnerOf(s, run.createdAt) == k
  }

  lemma {:induction false} IdInTurnIff(s: Session, k: nat, id: nat)
    requires Ordered(s.messages) && k < |s.messages| && s.messages[k].role == User
    ensures id in IdsOf(TurnAt(s, k).toolCalls)
            <==> CallOwnedBy(s, id, k)
  {
    var calls := TurnAt(s, k).toolCalls;
    if id in IdsOf(calls) {
      var i :| 0 <= i < |calls| && calls[i].id == id;
      TurnHasCallIff(s, k, calls[i]);
      var c :| 0 <= c < |s.toolCalls| && s.toolCalls[c] == calls[i];
      assert s.toolCalls[c].id == id;
    }
    if c :| 0 <= c < |s.toolCalls| && s.toolCalls[c].id == id && OwnerOf(s, s.toolCalls[c].createdAt) == k {
      TurnHasCallIff(s, k, s.toolCalls[c]);
      var i :| 0 <= i < |calls| && calls[i] == s.toolCalls[c];
      assert calls[i].id == id;
    }
  }

  /** A turn has a run of the log if and only if the run belongs to the turn's user message. */
  lemma {:induction false} TurnHasRunIff(s: Session, k: nat, run: RetrievalRun)
    requires Ordered(s.messages) && k < |s.messages| && s.messages[k].role == User
    ensures run in TurnAt(s, k).runs <==> run in s.runs && RunOwnedBy(s, run, k)
  {
    var start, end, ids := s.messages[k].createdAt, EndOf(s.messages, k), IdsOf(TurnAt(s, k).toolCalls);
    RunsOfKeeps(s.runs, ids, start, end, run);
    if run.toolCall.Some? {
      IdInTurnIff(s, k, run.toolCall.value);
    } else {
      DuringIffOwner(s, k, run.createdAt);
    }
  }

  /** A run of the log is in some turn if and only if a non-blank user message owns it. */
  lemma {:induction false} RunIsOwnedIff(s: Session, run: RetrievalRun)
    requires Ordered(s.messages) && run in s.runs
    ensures (exists turn :: turn in TurnsTo(s, |s.messages|) && run in turn.runs)
            <==> exists k: nat :: k < |s.messages| && Asks(s.messages[k]) && RunOwnedBy(s, run, k)
  {
    var turns := TurnsTo(s, |s.messages|);
    if k: nat :| k < |s.messages| && Asks(s.messages[k]) && RunOwnedBy(s, run, k) {
      EveryQuestionHasATurn(s, |s.messages|, k);
      TurnHasRunIff(s, k, run);
    }
    if turn :| turn in turns && run in turn.runs {
      TurnsAreQuestions(s, |s.messages|);
      var i :| 0 <= i < |turns| && turns[i] == turn;
      assert IsTurn(s, |s.messages|, turns[i]);
      TurnHasRunIff(s, turns[i].user, run);
    }
  }

  /** With tool calls under different ids, no run is in two turns. */
  lemma {:induction false} RunsAreDisjoint(s: Session, i: nat, j: nat, run: RetrievalRun)
    requires Ordered(s.messages) && UniqueIds(s.toolCalls)
    requires i < |TurnsTo(s, |s.messages|)| && j < |TurnsTo(s, |s.messages|)|
    requires run in TurnsTo(s, |s.messages|)[i].runs && run in TurnsTo(s, |s.messages|)[j].runs
    ensures i == j
  {
    var turns := TurnsTo(s, |s.messages|);
    TurnsAreQuestions(s, |s.messages|);
    TurnHasRunIff(s, turns[i].user, run);
    TurnHasRunIff(s, turns[j].user, run);
    OwnerIsUnique(s, run, turns[i].user, turns[j].user);
  }

  lemma {:induction false} OwnerIsUnique(s: Session, run: RetrievalRun, a: int, b: int)
    requires UniqueIds(s.toolCalls) && RunOwnedBy(s, run, a) && RunOwnedBy(s, run, b)
    ensures a == b
  {
    if run.toolCall.Some? {
      var calls, id := s.toolCalls, run.toolCall.value;
      var c :| 0 <= c < |calls| && calls[c].id == id && OwnerOf(s, calls[c].createdAt) == a;
      var d :| 0 <= d < |calls| && calls[d].id == id && OwnerOf(s, calls[d].createdAt) == b;
      assert !(c < d) && !(d < c);
    }
  }

  // -- Any times --

  predicate Before(time: int, end: Option<int>)
  {
    end.Some? ==> time < end.value
  }

  /** Two spans of time have a moment in common: each starts before both end. */
  predicate Overlap(start: int, end: Option<int>, start': int, end': Option<int>)
  {
    Before(start, end) && Before(start, end') && Before(start', end) && Before(start', end')
  }

  predicate TurnsOverlap(messages: seq<Message>, i: nat, j: nat)
    requires i < |messages| && j < |messages|
  {
    Overlap(messages[i].createdAt, EndOf(messages, i), messages[j].createdAt, EndOf(messages, j))
  }

  lemma {:induction false} SharedMomentIff(start: int, end: Option<int>, start': int, end': Option<int>)
    ensures (exists time :: During(time, start, end) && During(time, start', end'))
            <==> Overlap(start, end, start', end')
  {
    if Overlap(start, end, start', end') {
      var time := if start <= start' then start' else start;
      assert During(time, start, end) && During(time, start', end');
    }
  }

  /** Whatever the times, two turns can share a tool call if and only if their spans overlap. */
  lemma {:induction false} TurnsShareACallIff(messages: seq<Message>, i: nat, j: nat)
    requires i < |messages| && j < |messages|
    ensures (exists call ::
               && call in TurnAt(Session(messages, [call], []), i).toolCalls
               && call in TurnAt(Session(messages, [call], []), j).toolCalls)
            <==> TurnsOverlap(messages, i, j)
  {
    var start, end := messages[i].createdAt, EndOf(messages, i);
    var start', end' := messages[j].createdAt, EndOf(messages, j);
    SharedMomentIff(start, end, start', end');
    forall call: ToolCall
      ensures call in TurnAt(Session(messages, [call], []), i).toolCalls <==> During(call.createdAt, start, end)
      ensures call in TurnAt(Session(messages, [call], []), j).toolCalls <==> During(call.createdAt, start', end')
    {
      CallsDuringKeeps([call], start, end, call);
      CallsDuringKeeps([call], start', end', call);
    }
    if time: int :| During(time, start, end) && During(time, start', end') {
      var call := ToolCall(0, time);
      assert call in TurnAt(Session(messages, [call], []), i).toolCalls;
      assert call in TurnAt(Session(messages, [call], []), j).toolCalls;
    }
  }

  /** Ordered user messages are enough, as the server sends them: their spans never overlap. */
  lemma {:induction false} OrderedTurnsDoNotOverlap(messages: seq<Message>, i: nat, j: nat)
    requires Ordered(messages) && i < j < |messages| && messages[i].role == User && messages[j].role == User
    ensures !TurnsOverlap(messages, i, j)
  {
    assert NextUser(messages, i + 1) <= j;
  }

  /** They are not necessary: user messages at 10, 5 and 20 have spans that do not overlap. */
  lemma {:induction false} UnorderedTurnsCanBeDisjoint()
    ensures var messages := [Message(0, User, "a", 10), Message(1, User, "b", 5), Message(2, User, "c", 20)];
            && !Ordered(messages)
            && !TurnsOverlap(messages, 0, 1) && !TurnsOverlap(messages, 0, 2) && !TurnsOverlap(messages, 1, 2)
  {
    var messages := [Message(0, User, "a", 10), Message(1, User, "b", 5), Message(2, User, "c", 20)];
    assert NextUser(messages, 1) == 1 && NextUser(messages, 2) == 2 && NextUser(messages, 3) == 3;
    assert messages[0].createdAt > messages[1].createdAt;
  }

  /** Without the order the turns can overlap: a call between two user messages whose times are
      exchanged is in two turns. The server, which sorts by time, does not send such a log. */
  lemma {:induction false} UnorderedTimesShareACall()
    ensures var call := ToolCall(0, 7);
            var s := Session([Message(0, User, "a", 0), Message(1, User, "b", 10), Message(2, User, "c", 5)],
                             [call], []);
            call in TurnAt(s, 0).toolCalls && call in TurnAt(s, 2).toolCalls
  {
    var call := ToolCall(0, 7);
    var s := Session([Message(0, User, "a", 0), Message(1, User, "b", 10), Message(2, User, "c", 5)], [call], []);
    assert NextUser(s.messages, 1) == 1 && NextUser(s.messages, 3) == 3;
    CallsDuringKeeps([call], 0, Some(10), call);
    CallsDuringKeeps([call], 5, None, call);
  }
}
