/** Where the service takes its history from: the audit log, before the user message is recorded when
    it responds at once, and after it when it streams. */
module HistoryCallers {
  import opened History
  import opened HistorySummary
  import opened Options
  import opened Text

  // -- The audit writer --

  datatype Message = Message(session: nat, role: string, content: string)

  predicate IsHistory(m: Message, session: nat)
  {
    m.session == session && (m.role == "user" || m.role == "assistant")
  }

  /** The turns of one session, oldest first. */
  function TurnsOf(messages: seq<Message>, session: nat): seq<RawTurn>
  {
    if messages == [] then []
    else
      var before, m := TurnsOf(messages[..|messages| - 1], session), messages[|messages| - 1];
      if IsHistory(m, session) then before + [RawTurn(m.role, m.content)] else before
  }

  /** The user and assistant messages of the session, and no others, are its turns, in their order. */
  lemma {:induction false} TurnsAreOfSession(messages: seq<Message>, session: nat) returns (at: seq<nat>)
    ensures |at| == |TurnsOf(messages, session)|
    ensures forall i :: 0 <= i < |at| ==>
      && at[i] < |messages| && messages[at[i]].session == session
      && TurnsOf(messages, session)[i] == RawTurn(messages[at[i]].role, messages[at[i]].content)
    ensures forall i, j :: 0 <= i < j < |at| ==> at[i] < at[j]
    ensures forall k: nat :: k < |messages| ==>
      (k in at <==> messages[k].session == session && messages[k].role in {"user", "assistant"})
  {
    at := [];
    if messages != [] {
      var n := |messages| - 1;
      var before := messages[..n];
      var earlier := TurnsAreOfSession(before, session);
      assert forall k :: 0 <= k < n ==> before[k] == messages[k];
      at := earlier;
      if IsHistory(messages[n], session) {
        at := earlier + [n];
        assert forall k: nat :: k in at <==> k in earlier || k == n;
      }
    }
  }

  /** `turns[-limit:]`, and nothing for a limit of zero or less. */
  function Tail(turns: seq<RawTurn>, limit: int): seq<RawTurn>
  {
    if limit <= 0 then []
    else if |turns| <= limit then turns
    else turns[|turns| - limit..]
  }

  class InMemoryChatAuditWriter {
    var messages: seq<Message>

    constructor ()
      ensures messages == []
    {
      messages := [];
    }

    method RecordMessage(session: nat, role: string, content: string)
      modifies this
      ensures messages == old(messages) + [Message(session, role, content)]
    {
      messages := messages + [Message(session, role, content)];
    }

    method ListHistoryTurns(session: nat, limit: int) returns (listed: seq<RawTurn>)
      ensures listed == Tail(TurnsOf(messages, session), limit)
    {
      var turns: seq<RawTurn> := [];
      for n := 0 to |messages|
        invariant turns == TurnsOf(messages[..n], session)
      {
        assert messages[..n + 1][..n] == messages[..n];
        if IsHistory(messages[n], session) {
          turns := turns + [RawTurn(messages[n].role, messages[n].content)];
        }
      }
      assert messages[..|messages|] == messages;
      if limit <= 0 {
        return [];
      }
      listed := Tail(turns, limit);
    }
  }

  // -- The service --

  /** Drops a last user turn that repeats the message. */
  function WithoutTrailing(raw: seq<RawTurn>, message: Option<string>): seq<RawTurn>
  {
    if message.Some? && raw != [] && raw[|raw| - 1].role == "user"
       && Strip(raw[|raw| - 1].content) == Strip(message.value)
    then raw[..|raw| - 1]
    else raw
  }

  const NO_HISTORY := Prepared([], None, 0, 0, 0, [])

  class ChatService {
    const audit: InMemoryChatAuditWriter
    const pinning: Pinning
    const wording: Wording
    const messageLimit: int
    const loadLimit: int

    constructor (audit: InMemoryChatAuditWriter, pinning: Pinning, wording: Wording, messageLimit: int, loadLimit: int)
      ensures this.audit == audit && this.pinning == pinning && this.wording == wording
      ensures this.messageLimit == messageLimit
      ensures this.loadLimit == if loadLimit >= messageLimit then loadLimit else messageLimit
    {
      this.audit := audit;
      this.pinning := pinning;
      this.wording := wording;
      this.messageLimit := messageLimit;
      this.loadLimit := if loadLimit >= messageLimit then loadLimit else messageLimit;
    }

    /** The history prepared from a list of loaded turns. */
    function From(raw: seq<RawTurn>): Prepared
    {
      PreparedFrom(pinning, wording, Normalized(raw), Window(messageLimit),
                   DEFAULT_MAX_SUMMARY_CHARS, DEFAULT_PINNED_FACT_SLOTS)
    }

    method PrepareHistory(session: Option<nat>, excluded: Option<string>) returns (p: Prepared)
      ensures session.None? ==> p == NO_HISTORY
      ensures session.Some? ==>
        p == From(WithoutTrailing(Tail(TurnsOf(audit.messages, session.value), loadLimit), excluded))
    {
      if session.None? {
        return NO_HISTORY;
      }
      var raw := audit.ListHistoryTurns(session.value, loadLimit);
      if excluded.Some? && raw != [] {
        var last := raw[|raw| - 1];
        if last.role == "user" && Strip(last.content) == Strip(excluded.value) {
          raw := raw[..|raw| - 1];
        }
      }
      p := PrepareChatHistory(pinning, wording, raw, messageLimit,
                              DEFAULT_MAX_SUMMARY_CHARS, DEFAULT_PINNED_FACT_SLOTS);
    }

    /** A turn that responds at once: history first, then the user message. */
    method RespondHistory(session: nat, message: string) returns (p: Prepared)
      modifies audit
      ensures p == From(Tail(TurnsOf(old(audit.messages), session), loadLimit))
      ensures audit.messages == old(audit.messages) + [Message(session, "user", message)]
    {
      p := PrepareHistory(Some(session), None);
      audit.RecordMessage(session, "user", message);
    }

    /** A streamed turn: the user message first, then the history without it. */
    method StreamHistory(session: nat, message: string) returns (p: Prepared)
      modifies audit
      ensures p == From(Tail(TurnsOf(old(audit.messages), session), loadLimit - 1))
      ensures audit.messages == old(audit.messages) + [Message(session, "user", message)]
    {
      RecordedMessageIsDropped(audit.messages, session, message, loadLimit);
      audit.RecordMessage(session, "user", message);
      p := PrepareHistory(Some(session), Some(message));
    }
  }

  /** The message that was just recorded is the last one listed, so it is the one that is left out; it
      takes one place of the load limit. */
  lemma {:induction false} RecordedMessageIsDropped(messages: seq<Message>, session: nat, message: string, limit: int)
    ensures var listed := Tail(TurnsOf(messages + [Message(session, "user", message)], session), limit);
            WithoutTrailing(listed, Some(message)) == Tail(TurnsOf(messages, session), limit - 1)
  {
    var recorded := Message(session, "user", message);
    assert (messages + [recorded])[..|messages|] == messages;
    var turns := TurnsOf(messages, session);
    var all := turns + [RawTurn("user", message)];
    assert TurnsOf(messages + [recorded], session) == all;
    if limit > 0 {
      var raw := Tail(all, limit);
      assert raw[|raw| - 1] == RawTurn("user", message);
      assert raw[..|raw| - 1] == Tail(turns, limit - 1);
    }
  }

  // -- Both give the runner the same history, or when they do not --

  function KeptOne(raw: RawTurn): seq<Turn>
  {
    if NormalizeOne(raw).Some? then [NormalizeOne(raw).value] else []
  }

  lemma {:induction false} NormalizedSnoc(raw: seq<RawTurn>, last: RawTurn)
    ensures Normalized(raw + [last]) == Normalized(raw) + KeptOne(last)
  {
    assert (raw + [last])[..|raw|] == raw;
  }

  lemma {:induction false} NormalizedCons(first: RawTurn, rest: seq<RawTurn>)
    ensures Normalized([first] + rest) == KeptOne(first) + Normalized(rest)
    decreases |rest|
  {
    if rest == [] {
      NormalizedSnoc([], first);
      assert [] + [first] == [first] + rest;
    } else {
      var before, last := rest[..|rest| - 1], rest[|rest| - 1];
      NormalizedCons(first, before);
      NormalizedSnoc(before, last);
      NormalizedSnoc([first] + before, last);
      assert [first] + rest == [first] + before + [last] && rest == before + [last];
    }
  }

  /** The oldest of the turns that the full load limit lists, if it is reached and says something. */
  predicate LosesOldest(turns: seq<RawTurn>, limit: int)
  {
    1 <= limit <= |turns| && NormalizeOne(turns[|turns| - limit]).Some?
  }

  lemma {:induction false} OneFewer(turns: seq<RawTurn>, limit: int)
    ensures var full, fewer := Normalized(Tail(turns, limit)), Normalized(Tail(turns, limit - 1));
            && (LosesOldest(turns, limit) ==> |full| == |fewer| + 1 && full[1..] == fewer)
            && (!LosesOldest(turns, limit) ==> full == fewer)
  {
    if 1 <= limit <= |turns| {
      var k := |turns| - limit;
      assert Tail(turns, limit) == [turns[k]] + Tail(turns, limit - 1);
      NormalizedCons(turns[k], Tail(turns, limit - 1));
    } else {
      assert Tail(turns, limit) == Tail(turns, limit - 1);
    }
  }

  lemma {:induction false} TotalsTell(service: ChatService, a: seq<RawTurn>, b: seq<RawTurn>)
    requires |Normalized(a)| != |Normalized(b)|
    ensures service.From(a) != service.From(b)
  {
    assert service.From(a).totalMessages == |Normalized(a)| && service.From(b).totalMessages == |Normalized(b)|;
  }

  lemma {:induction false} SameTurnsSameHistory(service: ChatService, a: seq<RawTurn>, b: seq<RawTurn>)
    requires Normalized(a) == Normalized(b)
    ensures service.From(a) == service.From(b)
  {
  }

  /** For every transcript the two ways prepare the same history if and only if the load limit is not
      reached or the oldest turn it lists is blank. */
  lemma {:induction false} SameHistoryIff(service: ChatService, turns: seq<RawTurn>)
    ensures service.From(Tail(turns, service.loadLimit)) == service.From(Tail(turns, service.loadLimit - 1))
            <==> !LosesOldest(turns, service.loadLimit)
  {
    OneFewer(turns, service.loadLimit);
    if LosesOldest(turns, service.loadLimit) {
      TotalsTell(service, Tail(turns, service.loadLimit), Tail(turns, service.loadLimit - 1));
    } else {
      SameTurnsSameHistory(service, Tail(turns, service.loadLimit), Tail(turns, service.loadLimit - 1));
    }
  }

  /** The turns that are handed over verbatim. */
  function Recent(p: Prepared): seq<Turn>
  {
    if p.keptRecent <= |p.turns| then p.turns[|p.turns| - p.keptRecent..] else []
  }

  /** They are the last turns of the transcript that was loaded. */
  lemma {:induction false} RecentIsLast(service: ChatService, raw: seq<RawTurn>)
    ensures Recent(service.From(raw)) == LastTurns(Normalized(raw), Window(service.messageLimit))
  {
  }

  function LastTurns(turns: seq<Turn>, window: nat): seq<Turn>
  {
    if |turns| <= window then turns else turns[|turns| - window..]
  }

  lemma {:induction false} LastOfOneFewer(full: seq<Turn>, fewer: seq<Turn>, window: nat)
    ensures |full| == |fewer| + 1 && full[1..] == fewer ==>
              (LastTurns(full, window) == LastTurns(fewer, window) <==> |fewer| >= window)
  {
    if |full| == |fewer| + 1 && full[1..] == fewer && |fewer| >= window {
      assert full[|full| - window..] == full[1..][|fewer| - window..];
    }
  }

  /** The verbatim turns agree even beyond the load limit, if and only if what is still listed fills
      the window. */
  lemma {:induction false} SameRecentTurnsIff(turns: seq<RawTurn>, limit: int, window: nat)
    ensures LastTurns(Normalized(Tail(turns, limit)), window) == LastTurns(Normalized(Tail(turns, limit - 1)), window)
            <==> !LosesOldest(turns, limit) || |Normalized(Tail(turns, limit - 1))| >= window
  {
    OneFewer(turns, limit);
    LastOfOneFewer(Normalized(Tail(turns, limit)), Normalized(Tail(turns, limit - 1)), window);
  }
}
