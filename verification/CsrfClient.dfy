/** The API client's request security: one shared token, one shared refresh, and calls that wait for it.
    Calls, responses and the promise callbacks interleave in any order. */
module CsrfClient {
  import opened Options

  // -- States --

  /** What a call is for. Only `Write` and `Logout` carry a token. */
  datatype Kind = Read | Me | Write | Login | Logout

  /** A token fetch: sent, answered (the token variable is set), and settled (the shared promise is
      cleared and its waiters may go on). A failed fetch has no token. */
  datatype Fetch = Outstanding | Returned(result: Option<string>) | Settled(result: Option<string>)

  datatype CallPc =
    | Waiting1(fetch: nat) | Sent1 | Rejected | Waiting2(fetch: nat) | Sent2
    | Answered(ok: bool) | Finished | Failed

  /** A call, with the fetches it has waited for and the token headers it has sent. */
  datatype Call = Call(kind: Kind, needsCsrf: bool, pc: CallPc, waits: seq<nat>, sends: seq<Option<string>>)

  datatype State = State(
    humanSessionActive: bool, csrfToken: Option<string>, csrfInflight: Option<nat>,
    fetches: seq<Fetch>, calls: seq<Call>)

  const INIT := State(false, None, None, [], [])

  // -- Steps --

  /** The server's answer to a call: fine, refused for its token, any other error, or no answer. */
  datatype Reply = Good | CsrfRejected | Bad | Lost

  datatype Action =
    | Start(kind: Kind)
    | Resume(call: nat)
    | Reply(call: nat, reply: Reply)
    | Refresh(call: nat)
    | Complete(call: nat)
    | Return(fetch: nat, response: Option<string>)
    | Settle(fetch: nat)

  /** The fetch that `ensureCsrfToken` waits for when no token is known. */
  function Joined(s: State): nat
  {
    if s.csrfInflight.Some? then s.csrfInflight.value else |s.fetches|
  }

  /** The client with that fetch in flight. */
  function Ensure(s: State): State
  {
    if s.csrfInflight.Some? then s
    else s.(fetches := s.fetches + [Outstanding], csrfInflight := Some(|s.fetches|))
  }

  predicate Awaited(s: State, f: nat)
  {
    f < |s.fetches| && s.fetches[f].Settled?
  }

  predicate Enabled(s: State, a: Action)
  {
    match a
    case Start(_) => true
    case Resume(c) =>
      c < |s.calls| && (s.calls[c].pc.Waiting1? || s.calls[c].pc.Waiting2?) && Awaited(s, s.calls[c].pc.fetch)
    case Reply(c, _) => c < |s.calls| && (s.calls[c].pc.Sent1? || s.calls[c].pc.Sent2?)
    case Refresh(c) => c < |s.calls| && s.calls[c].pc.Rejected?
    case Complete(c) => c < |s.calls| && s.calls[c].pc.Answered?
    case Return(f, _) => f < |s.fetches| && s.fetches[f].Outstanding?
    case Settle(f) => f < |s.fetches| && s.fetches[f].Returned?
  }

  /** An empty token counts as an invalid response. */
  function Accepted(response: Option<string>): Option<string>
  {
    if response.Some? && response.value != "" then response else None
  }

  function StartCall(s: State, kind: Kind): State
  {
    var needs := s.humanSessionActive && (kind.Write? || kind.Logout?);
    if needs && s.csrfToken.None? then
      var t := Ensure(s);
      t.(calls := s.calls + [Call(kind, true, Waiting1(Joined(s)), [Joined(s)], [])])
    else s.(calls := s.calls + [Call(kind, needs, Sent1, [], [if needs then s.csrfToken else None])])
  }

  /** A waiter goes on: the first time it sends whatever the token variable holds by now, the second
      time the token that the fetch returned. A failed fetch fails it. */
  function ResumeCall(s: State, call: Call): Call
    requires (call.pc.Waiting1? || call.pc.Waiting2?) && Awaited(s, call.pc.fetch)
  {
    var result := s.fetches[call.pc.fetch].result;
    if result.None? then call.(pc := Failed)
    else if call.pc.Waiting1? then call.(pc := Sent1, sends := call.sends + [s.csrfToken])
    else call.(pc := Sent2, sends := call.sends + [result])
  }

  function ReplyTo(call: Call, reply: Reply): Call
  {
    if reply.Lost? then call.(pc := Failed)
    else if call.pc.Sent1? && call.needsCsrf && reply.CsrfRejected? then call.(pc := Rejected)
    else call.(pc := Answered(reply.Good?))
  }

  /** What the client remembers after a successful answer. */
  function Remember(s: State, call: Call): State
    requires call.pc.Answered?
  {
    if !call.pc.ok then s
    else match call.kind
      case Me => s.(humanSessionActive := true)
      case Login => s.(humanSessionActive := true, csrfToken := None)
      case Logout => s.(humanSessionActive := false, csrfToken := None)
      case _ => s
  }

  function Next(s: State, a: Action): State
    requires Enabled(s, a)
  {
    match a
    case Start(kind) => StartCall(s, kind)
    case Resume(c) => s.(calls := s.calls[c := ResumeCall(s, s.calls[c])])
    case Reply(c, reply) => s.(calls := s.calls[c := ReplyTo(s.calls[c], reply)])
    case Refresh(c) =>
      var call := s.calls[c];
      var t := Ensure(s.(csrfToken := None));
      t.(calls := s.calls[c := call.(pc := Waiting2(Joined(s)), waits := call.waits + [Joined(s)])])
    case Complete(c) =>
      var t := Remember(s, s.calls[c]);
      t.(calls := s.calls[c := s.calls[c].(pc := Finished)])
    case Return(f, response) =>
      var token := Accepted(response);
      s.(fetches := s.fetches[f := Returned(token)], csrfToken := if token.Some? then token else s.csrfToken)
    case Settle(f) =>
      s.(fetches := s.fetches[f := Settled(s.fetches[f].result)], csrfInflight := None)
  }

  function Run(schedule: seq<Action>): State
  {
    if schedule == [] then INIT
    else
      var s, a := Run(schedule[..|schedule| - 1]), schedule[|schedule| - 1];
      if Enabled(s, a) then Next(s, a) else s
  }

  // -- Invariants --

  /** The fetch in flight is the only one that has not settled. */
  predicate SingleFlight(s: State)
  {
    && (s.csrfInflight.Some? ==> s.csrfInflight.value < |s.fetches|)
    && (forall f :: 0 <= f < |s.fetches| ==> (s.fetches[f].Settled? <==> s.csrfInflight != Some(f)))
  }

  /** `token` was returned by a fetch. */
  predicate Issued(fetches: seq<Fetch>, token: string)
  {
    exists f :: 0 <= f < |fetches| && !fetches[f].Outstanding? && fetches[f].result == Some(token)
  }

  predicate AllIssued(fetches: seq<Fetch>, headers: seq<Option<string>>)
  {
    forall k :: 0 <= k < |headers| && headers[k].Some? ==> Issued(fetches, headers[k].value)
  }

  /** The second send carries the token of the fetch that the call waited for last. */
  predicate RetriedWithFreshToken(fetches: seq<Fetch>, call: Call)
  {
    && call.needsCsrf && |call.sends| == 2 && call.waits != []
    && call.waits[|call.waits| - 1] < |fetches|
    && fetches[call.waits[|call.waits| - 1]] == Settled(call.sends[1])
    && call.sends[1].Some?
  }

  predicate CallInv(fetches: seq<Fetch>, call: Call)
  {
    && (forall k :: 0 <= k < |call.waits| ==> call.waits[k] < |fetches|)
    && |call.waits| <= (match call.pc case Waiting1(_) => 1 case Sent1 => 1 case Rejected => 1 case _ => 2)
    && AllIssued(fetches, call.sends)
    && (!call.needsCsrf ==> call.waits == [] && call.sends == [None])
    && match call.pc
       case Waiting1(f) => call.waits == [f] && call.sends == []
       case Sent1 => |call.sends| == 1
       case Rejected => |call.sends| == 1 && call.needsCsrf
       case Waiting2(f) => |call.sends| == 1 && call.needsCsrf && call.waits != [] && call.waits[|call.waits| - 1] == f
       case Sent2 => RetriedWithFreshToken(fetches, call)
       case Answered(_) => |call.sends| == 1 || RetriedWithFreshToken(fetches, call)
       case Finished => |call.sends| == 1 || RetriedWithFreshToken(fetches, call)
       case Failed => |call.sends| <= 1 || RetriedWithFreshToken(fetches, call)
  }

  predicate CallsInv(s: State)
  {
    forall c {:trigger CallInv(s.fetches, s.calls[c])} :: 0 <= c < |s.calls| ==> CallInv(s.fetches, s.calls[c])
  }

  predicate TokenInv(s: State)
  {
    s.csrfToken.Some? ==> Issued(s.fetches, s.csrfToken.value)
  }

  /** How often calls have waited, in all. */
  function Waits(calls: seq<Call>): nat
  {
    if calls == [] then 0 else Waits(calls[..|calls| - 1]) + |calls[|calls| - 1].waits|
  }

  predicate Inv(s: State)
  {
    SingleFlight(s) && CallsInv(s) && TokenInv(s) && |s.fetches| <= Waits(s.calls)
  }

  // -- Fetches only make progress --

  predicate Progress(a: Fetch, b: Fetch)
  {
    a == b || a.Outstanding? || (a.Returned? && b == Settled(a.result))
  }

  predicate Evolves(a: seq<Fetch>, b: seq<Fetch>)
  {
    |a| <= |b| && forall f {:trigger Progress(a[f], b[f])} :: 0 <= f < |a| ==> Progress(a[f], b[f])
  }

  lemma {:induction false} IssuedStays(a: seq<Fetch>, b: seq<Fetch>, token: string)
    requires Evolves(a, b) && Issued(a, token)
    ensures Issued(b, token)
  {
    var f :| 0 <= f < |a| && !a[f].Outstanding? && a[f].result == Some(token);
    assert Progress(a[f], b[f]);
    assert !b[f].Outstanding? && b[f].result == Some(token);
  }

  lemma {:induction false} CallStays(a: seq<Fetch>, b: seq<Fetch>, call: Call)
    requires Evolves(a, b) && CallInv(a, call)
    ensures CallInv(b, call)
  {
    forall k | 0 <= k < |call.sends| && call.sends[k].Some?
      ensures Issued(b, call.sends[k].value)
    {
      IssuedStays(a, b, call.sends[k].value);
    }
    if RetriedWithFreshToken(a, call) {
      var f := call.waits[|call.waits| - 1];
      assert Progress(a[f], b[f]);
    }
  }

  lemma {:induction false} WaitsUpdated(calls: seq<Call>, c: nat, call: Call)
    requires c < |calls|
    ensures Waits(calls[c := call]) == Waits(calls) - |calls[c].waits| + |call.waits|
    decreases |calls|
  {
    var n := |calls| - 1;
    if c == n {
      assert calls[c := call][..n] == calls[..n];
    } else {
      assert calls[c := call][..n] == calls[..n][c := call];
      WaitsUpdated(calls[..n], c, call);
    }
  }

  lemma {:induction false} WaitsSnoc(calls: seq<Call>, call: Call)
    ensures Waits(calls + [call]) == Waits(calls) + |call.waits|
  {
    assert (calls + [call])[..|calls|] == calls;
  }

  // -- Every step keeps the invariant --

  /** One call changes, is added or none, and the fetches evolve. */
  lemma {:induction false} CallsStay(s: State, t: State)
    requires CallsInv(s) && Evolves(s.fetches, t.fetches) && t.calls == s.calls
    ensures CallsInv(t)
  {
    forall c | 0 <= c < |t.calls|
      ensures CallInv(t.fetches, t.calls[c])
    {
      assert CallInv(s.fetches, s.calls[c]);
      CallStays(s.fetches, t.fetches, s.calls[c]);
    }
  }

  lemma {:induction false} CallChanges(s: State, t: State, c: nat)
    requires CallsInv(s) && Evolves(s.fetches, t.fetches) && c < |s.calls|
    requires |t.calls| == |s.calls| && t.calls == s.calls[c := t.calls[c]] && CallInv(t.fetches, t.calls[c])
    ensures CallsInv(t)
  {
    forall k | 0 <= k < |t.calls|
      ensures CallInv(t.fetches, t.calls[k])
    {
      if k != c {
        assert t.calls[k] == s.calls[k];
        assert CallInv(s.fetches, s.calls[k]);
        CallStays(s.fetches, t.fetches, s.calls[k]);
      }
    }
  }

  lemma {:induction false} CallAdded(s: State, t: State)
    requires CallsInv(s) && Evolves(s.fetches, t.fetches)
    requires |t.calls| == |s.calls| + 1 && t.calls[..|s.calls|] == s.calls
    requires CallInv(t.fetches, t.calls[|s.calls|])
    ensures CallsInv(t)
  {
    forall k | 0 <= k < |t.calls|
      ensures CallInv(t.fetches, t.calls[k])
    {
      if k < |s.calls| {
        assert t.calls[k] == s.calls[k];
        assert CallInv(s.fetches, s.calls[k]);
        CallStays(s.fetches, t.fetches, s.calls[k]);
      }
    }
  }

  lemma {:induction false} EnsureKeeps(s: State)
    requires SingleFlight(s)
    ensures SingleFlight(Ensure(s)) && Evolves(s.fetches, Ensure(s).fetches)
    ensures Joined(s) < |Ensure(s).fetches| && Ensure(s).csrfInflight == Some(Joined(s))
    ensures |Ensure(s).fetches| <= |s.fetches| + 1
  {
  }

  lemma {:induction false} StartKeeps(s: State, kind: Kind)
    requires Inv(s)
    ensures Inv(StartCall(s, kind))
  {
    var t := StartCall(s, kind);
    EnsureKeeps(s);
    WaitsSnoc(s.calls, t.calls[|s.calls|]);
    CallAdded(s, t);
    if t.csrfToken.Some? {
      IssuedStays(s.fetches, t.fetches, t.csrfToken.value);
    }
  }

  lemma {:induction false} ResumeKeeps(s: State, c: nat)
    requires Inv(s) && Enabled(s, Resume(c))
    ensures Inv(Next(s, Resume(c)))
  {
    var t := Next(s, Resume(c));
    assert CallInv(s.fetches, s.calls[c]);
    WaitsUpdated(s.calls, c, t.calls[c]);
    if s.calls[c].pc.Waiting2? && s.fetches[s.calls[c].pc.fetch].result.Some? {
      assert Issued(s.fetches, s.fetches[s.calls[c].pc.fetch].result.value);
    }
    CallChanges(s, t, c);
  }

  lemma {:induction false} ReplyKeeps(s: State, c: nat, reply: Reply)
    requires Inv(s) && Enabled(s, Action.Reply(c, reply))
    ensures Inv(Next(s, Action.Reply(c, reply)))
  {
    var t := Next(s, Action.Reply(c, reply));
    assert CallInv(s.fetches, s.calls[c]);
    WaitsUpdated(s.calls, c, t.calls[c]);
    CallChanges(s, t, c);
  }

  lemma {:induction false} RefreshKeeps(s: State, c: nat)
    requires Inv(s) && Enabled(s, Refresh(c))
    ensures Inv(Next(s, Refresh(c)))
  {
    var t := Next(s, Refresh(c));
    EnsureKeeps(s.(csrfToken := None));
    assert CallInv(s.fetches, s.calls[c]);
    CallStays(s.fetches, t.fetches, s.calls[c]);
    WaitsUpdated(s.calls, c, t.calls[c]);
    CallChanges(s, t, c);
  }

  lemma {:induction false} RememberKeeps(s: State, call: Call)
    requires call.pc.Answered?
    ensures var t := Remember(s, call);
            && t.fetches == s.fetches && t.calls == s.calls && t.csrfInflight == s.csrfInflight
            && (t.csrfToken == s.csrfToken || t.csrfToken.None?)
  {
  }

  lemma {:induction false} FinishingKeeps(fetches: seq<Fetch>, call: Call, after: Call)
    requires CallInv(fetches, call) && call.pc.Answered? && after == call.(pc := Finished)
    ensures CallInv(fetches, after)
  {
  }

  lemma {:induction false} CompleteKeeps(s: State, c: nat)
    requires Inv(s) && Enabled(s, Complete(c))
    ensures Inv(Next(s, Complete(c)))
  {
    var t := Next(s, Complete(c));
    RememberKeeps(s, s.calls[c]);
    assert t.fetches == s.fetches && t.calls == s.calls[c := t.calls[c]];
    FinishingKeeps(s.fetches, s.calls[c], t.calls[c]);
    WaitsUpdated(s.calls, c, t.calls[c]);
    CallChanges(s, t, c);
    assert TokenInv(t);
  }

  lemma {:induction false} ReturnKeeps(s: State, f: nat, response: Option<string>)
    requires Inv(s) && Enabled(s, Return(f, response))
    ensures Inv(Next(s, Return(f, response)))
  {
    var t := Next(s, Return(f, response));
    assert Evolves(s.fetches, t.fetches);
    CallsStay(s, t);
    if Accepted(response).Some? {
      assert t.fetches[f].result == Some(t.csrfToken.value);
    } else if s.csrfToken.Some? {
      IssuedStays(s.fetches, t.fetches, s.csrfToken.value);
    }
  }

  lemma {:induction false} SettleKeeps(s: State, f: nat)
    requires Inv(s) && Enabled(s, Settle(f))
    ensures Inv(Next(s, Settle(f)))
  {
    var t := Next(s, Settle(f));
    assert Evolves(s.fetches, t.fetches);
    CallsStay(s, t);
    if s.csrfToken.Some? {
      IssuedStays(s.fetches, t.fetches, s.csrfToken.value);
    }
  }

  lemma {:induction false} RunKeepsInv(schedule: seq<Action>)
    ensures Inv(Run(schedule))
  {
    if schedule != [] {
      var s, a := Run(schedule[..|schedule| - 1]), schedule[|schedule| - 1];
      RunKeepsInv(schedule[..|schedule| - 1]);
      if Enabled(s, a) {
        match a
        case Start(kind) => StartKeeps(s, kind);
        case Resume(c) => ResumeKeeps(s, c);
        case Reply(c, reply) => ReplyKeeps(s, c, reply);
        case Refresh(c) => RefreshKeeps(s, c);
        case Complete(c) => CompleteKeeps(s, c);
        case Return(f, response) => ReturnKeeps(s, f, response);
        case Settle(f) => SettleKeeps(s, f);
      }
    }
  }

  // -- What every interleaving guarantees --

  /** At most one token fetch is outstanding. */
  lemma {:induction false} OneFetchAtATime(schedule: seq<Action>, f: nat, g: nat)
    requires f < |Run(schedule).fetches| && g < |Run(schedule).fetches|
    requires !Run(schedule).fetches[f].Settled? && !Run(schedule).fetches[g].Settled?
    ensures f == g
  {
    RunKeepsInv(schedule);
  }

  /** A call is sent at most twice. Outside a session, or for a safe method, it is sent without a token
      and never waits; a second send follows a refused first one and carries the token of the fetch
      that the call waited for. */
  lemma {:induction false} SentAtMostTwice(schedule: seq<Action>, c: nat)
    requires c < |Run(schedule).calls|
    ensures var s := Run(schedule);
            var call := s.calls[c];
            && |call.sends| <= 2 && |call.waits| <= 2
            && (|call.sends| == 2 ==> RetriedWithFreshToken(s.fetches, call))
            && (!call.needsCsrf ==> call.sends == [None] && call.waits == [])
            && AllIssued(s.fetches, call.sends)
  {
    RunKeepsInv(schedule);
    assert CallInv(Run(schedule).fetches, Run(schedule).calls[c]);
  }

  /** No waiter is lost: the fetch that a call waits for is in flight or has settled. */
  lemma {:induction false} WaitersAreServed(schedule: seq<Action>, c: nat)
    requires c < |Run(schedule).calls|
    requires Run(schedule).calls[c].pc.Waiting1? || Run(schedule).calls[c].pc.Waiting2?
    ensures var s := Run(schedule);
            var f := s.calls[c].pc.fetch;
            f < |s.fetches| && (s.csrfInflight == Some(f) || Enabled(s, Resume(c)))
  {
    RunKeepsInv(schedule);
    var s := Run(schedule);
    assert CallInv(s.fetches, s.calls[c]);
    assert s.calls[c].waits[|s.calls[c].waits| - 1] == s.calls[c].pc.fetch;
  }

  lemma {:induction false} WaitsAreBounded(fetches: seq<Fetch>, calls: seq<Call>)
    requires forall c {:trigger CallInv(fetches, calls[c])} :: 0 <= c < |calls| ==> CallInv(fetches, calls[c])
    ensures Waits(calls) <= 2 * |calls|
  {
    if calls != [] {
      var n := |calls| - 1;
      forall c | 0 <= c < n
        ensures CallInv(fetches, calls[..n][c])
      {
        assert CallInv(fetches, calls[c]);
      }
      WaitsAreBounded(fetches, calls[..n]);
      assert CallInv(fetches, calls[n]);
    }
  }

  /** Refreshing is shared: there are never more than two fetches for each call. */
  lemma {:induction false} FetchesAreBounded(schedule: seq<Action>)
    ensures |Run(schedule).fetches| <= 2 * |Run(schedule).calls|
  {
    RunKeepsInv(schedule);
    WaitsAreBounded(Run(schedule).fetches, Run(schedule).calls);
  }

  // -- How long a returned token holds --

  /** The steps that forget the token: a refused send, and the end of a login or a logout. */
  predicate Clears(s: State, a: Action)
  {
    match a
    case Refresh(c) => true
    case Complete(c) =>
      c < |s.calls| && s.calls[c].pc.Answered? && s.calls[c].pc.ok
      && (s.calls[c].kind.Login? || s.calls[c].kind.Logout?)
    case _ => false
  }

  predicate ClearsAt(schedule: seq<Action>, k: nat)
    requires k < |schedule|
  {
    Enabled(Run(schedule[..k]), schedule[k]) && Clears(Run(schedule[..k]), schedule[k])
  }

  /** The token is known and no fetch could replace it. */
  predicate Holds(s: State, token: string)
  {
    s.csrfToken == Some(token) && forall f :: 0 <= f < |s.fetches| ==> !s.fetches[f].Outstanding?
  }

  lemma {:induction false} StepHoldsIff(s: State, a: Action, token: string)
    requires Holds(s, token) && Enabled(s, a)
    ensures !Clears(s, a) ==> Holds(Next(s, a), token)
    ensures Clears(s, a) ==> Next(s, a).csrfToken == None
  {
  }

  lemma {:induction false} RunTo(schedule: seq<Action>, n: nat)
    requires n < |schedule|
    ensures var s := Run(schedule[..n]);
            Run(schedule[..n + 1]) == if Enabled(s, schedule[n]) then Next(s, schedule[n]) else s
  {
    assert schedule[..n + 1][..n] == schedule[..n];
  }

  predicate HeldUntil(schedule: seq<Action>, n: nat, end: nat, token: Option<string>)
    requires end <= |schedule|
  {
    forall m {:trigger schedule[..m]} :: n < m <= end ==> Run(schedule[..m]).csrfToken == token
  }

  predicate NeverCleared(schedule: seq<Action>, n: nat, end: nat)
    requires end <= |schedule|
  {
    forall k {:trigger ClearsAt(schedule, k)} :: n < k < end ==> !ClearsAt(schedule, k)
  }

  lemma {:induction false} ReturnHolds(s: State, f: nat, response: Option<string>)
    requires Inv(s) && Enabled(s, Return(f, response)) && Accepted(response).Some?
    ensures Holds(Next(s, Return(f, response)), Accepted(response).value)
  {
    var t := Next(s, Return(f, response));
    forall g | 0 <= g < |t.fetches|
      ensures !t.fetches[g].Outstanding?
    {
      if g != f {
        assert t.fetches[g] == s.fetches[g];
      }
    }
  }

  lemma {:induction false} OneMoreStep(schedule: seq<Action>, n: nat, end: nat, token: string)
    requires n < end < |schedule|
    requires HeldUntil(schedule, n, end, Some(token)) <==> NeverCleared(schedule, n, end)
    requires NeverCleared(schedule, n, end) ==> Holds(Run(schedule[..end]), token)
    ensures HeldUntil(schedule, n, end + 1, Some(token)) <==> NeverCleared(schedule, n, end + 1)
    ensures NeverCleared(schedule, n, end + 1) ==> Holds(Run(schedule[..end + 1]), token)
  {
    RunTo(schedule, end);
    if NeverCleared(schedule, n, end) {
      if Enabled(Run(schedule[..end]), schedule[end]) {
        StepHoldsIff(Run(schedule[..end]), schedule[end], token);
      }
      assert ClearsAt(schedule, end) <==> Run(schedule[..end + 1]).csrfToken == None;
    } else {
      var k :| n < k < end && ClearsAt(schedule, k);
      assert !HeldUntil(schedule, n, end, Some(token));
      var m :| n < m <= end && Run(schedule[..m]).csrfToken != Some(token);
      assert schedule[..m] == schedule[..m];
    }
  }

  /** From the moment a fetch returns a token, the token variable holds it at every later moment if and
      only if no refused send, login or logout has cleared it since. Up to there every waiter that
      goes on sends exactly the token that the shared fetch returned. */
  lemma {:induction false} TokenHoldsIff(schedule: seq<Action>, n: nat, f: nat, response: Option<string>, end: nat)
    requires n < end <= |schedule| && schedule[n] == Return(f, response) && Accepted(response).Some?
    requires Enabled(Run(schedule[..n]), schedule[n])
    ensures HeldUntil(schedule, n, end, Accepted(response)) <==> NeverCleared(schedule, n, end)
    ensures NeverCleared(schedule, n, end) ==> Holds(Run(schedule[..end]), Accepted(response).value)
    decreases end
  {
    if end == n + 1 {
      RunTo(schedule, n);
      RunKeepsInv(schedule[..n]);
      ReturnHolds(Run(schedule[..n]), f, response);
    } else {
      TokenHoldsIff(schedule, n, f, response, end - 1);
      OneMoreStep(schedule, n, end - 1, Accepted(response).value);
    }
  }

  lemma {:induction false} FetchesEvolve(s: State, a: Action)
    requires Enabled(s, a)
    ensures Evolves(s.fetches, Next(s, a).fetches)
  {
  }

  /** A fetch that has returned keeps its result. */
  lemma {:induction false} ResultStays(
    schedule: seq<Action>, n: nat, f: nat, response: Option<string>, end: nat)
    requires n < end <= |schedule| && schedule[n] == Return(f, response)
    requires Enabled(Run(schedule[..n]), schedule[n])
    ensures f < |Run(schedule[..end]).fetches|
    ensures var fetch := Run(schedule[..end]).fetches[f];
            !fetch.Outstanding? && fetch.result == Accepted(response)
    decreases end
  {
    RunTo(schedule, end - 1);
    if end > n + 1 {
      var s, a := Run(schedule[..end - 1]), schedule[end - 1];
      ResultStays(schedule, n, f, response, end - 1);
      if Enabled(s, a) {
        FetchesEvolve(s, a);
        assert Progress(s.fetches[f], Next(s, a).fetches[f]);
      }
    }
  }

  /** While the token holds, a waiter that goes on for the first time fails if and only if its own fetch
      has no token, and otherwise sends exactly what the shared fetch returned; a waiter on that fetch
      itself never fails. */
  lemma {:induction false} WaiterSendsReturnedToken(
    schedule: seq<Action>, n: nat, f: nat, response: Option<string>, end: nat, c: nat)
    requires n < end <= |schedule| && schedule[n] == Return(f, response) && Accepted(response).Some?
    requires Enabled(Run(schedule[..n]), schedule[n]) && NeverCleared(schedule, n, end)
    requires Enabled(Run(schedule[..end]), Resume(c)) && Run(schedule[..end]).calls[c].pc.Waiting1?
    ensures var s := Run(schedule[..end]);
            var own, call := s.calls[c].pc.fetch, Next(s, Resume(c)).calls[c];
            && (call.pc.Failed? <==> s.fetches[own].result.None?)
            && (call.pc.Failed? ==> call.sends == [])
            && (!call.pc.Failed? ==> call.pc.Sent1? && call.sends == [Accepted(response)])
            && (own == f ==> !call.pc.Failed?)
  {
    TokenHoldsIff(schedule, n, f, response, end);
    ResultStays(schedule, n, f, response, end);
    RunKeepsInv(schedule[..end]);
    assert CallInv(Run(schedule[..end]).fetches, Run(schedule[..end]).calls[c]);
  }

  lemma {:induction false} Then(schedule: seq<Action>, s: State, a: Action, t: State) returns (longer: seq<Action>)
    requires s == Run(schedule) && Enabled(s, a) && t == Next(s, a)
    ensures Run(longer) == t
  {
    longer := schedule + [a];
    assert longer[..|schedule|] == schedule;
  }

  /** The first send of a waiter can lose its token: a login that completes after the shared fetch has
      settled and before the waiter goes on clears the variable, and the waiter sends no token. */
  lemma {:induction false} WaiterCanSendWithoutToken() returns (schedule: seq<Action>)
    ensures var s := Run(schedule);
            && |s.calls| == 3 && |s.fetches| == 1
            && s.fetches[0] == Settled(Some("t"))
            && s.calls[1].waits == [0] && s.calls[1].sends == [None]
  {
    var me := Call(Me, false, Finished, [], [None]);
    schedule := Then([], INIT, Start(Me), State(false, None, None, [], [me.(pc := Sent1)]));
    schedule := Then(schedule, Run(schedule), Action.Reply(0, Good),
                     State(false, None, None, [], [me.(pc := Answered(true))]));
    schedule := Then(schedule, Run(schedule), Complete(0), State(true, None, None, [], [me]));

    var write := Call(Write, true, Waiting1(0), [0], []);
    var login := Call(Login, false, Sent1, [], [None]);
    schedule := Then(schedule, Run(schedule), Start(Write), State(true, None, Some(0), [Outstanding], [me, write]));
    schedule := Then(schedule, Run(schedule), Start(Login),
                     State(true, None, Some(0), [Outstanding], [me, write, login]));
    schedule := SettleThenLogin(schedule, me, write, login);
  }

  lemma {:induction false} SettleThenLogin(before: seq<Action>, me: Call, write: Call, login: Call)
    returns (schedule: seq<Action>)
    requires write == Call(Write, true, Waiting1(0), [0], []) && login == Call(Login, false, Sent1, [], [None])
    requires Run(before) == State(true, None, Some(0), [Outstanding], [me, write, login])
    ensures var sent := write.(pc := Sent1, sends := [None]);
            Run(schedule) == State(true, None, None, [Settled(Some("t"))], [me, sent, login.(pc := Finished)])
  {
    var answered, settled := login.(pc := Answered(true)), [Settled(Some("t"))];
    schedule := Then(before, Run(before), Action.Reply(2, Good),
                     State(true, None, Some(0), [Outstanding], [me, write, answered]));
    schedule := Then(schedule, Run(schedule), Return(0, Some("t")),
                     State(true, Some("t"), Some(0), [Returned(Some("t"))], [me, write, answered]));
    schedule := Then(schedule, Run(schedule), Settle(0), State(true, Some("t"), None, settled, [me, write, answered]));
    schedule := Then(schedule, Run(schedule), Complete(2),
                     State(true, None, None, settled, [me, write, login.(pc := Finished)]));
    var sent, last := write.(pc := Sent1, sends := [None]), login.(pc := Finished);
    assert write.sends + [None] == [None] && [me, write, last][1 := sent] == [me, sent, last];
    schedule := Then(schedule, Run(schedule), Resume(1), State(true, None, None, settled, [me, sent, last]));
  }
}
