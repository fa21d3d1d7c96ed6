/** What becomes of one call of the API client, whatever else goes on. */
module CsrfCalls {
  import opened CsrfClient
  import opened Options

  // -- A call over time --

  /** A call keeps its kind, and what it has waited for and sent is only added to. */
  predicate Grows(before: Call, after: Call)
  {
    && after.kind == before.kind && after.needsCsrf == before.needsCsrf
    && before.waits <= after.waits && before.sends <= after.sends
  }

  lemma {:induction false} StepGrows(s: State, a: Action, c: nat)
    requires Enabled(s, a) && c < |s.calls|
    ensures c < |Next(s, a).calls| && Grows(s.calls[c], Next(s, a).calls[c])
  {
  }

  lemma {:induction false} CallGrows(schedule: seq<Action>, n: nat, end: nat, c: nat)
    requires n <= end <= |schedule| && c < |Run(schedule[..n]).calls|
    ensures c < |Run(schedule[..end]).calls|
    ensures Grows(Run(schedule[..n]).calls[c], Run(schedule[..end]).calls[c])
    decreases end
  {
    if n < end {
      var m: nat := end - 1;
      CallGrows(schedule, n, m, c);
      RunTo(schedule, m);
      var s := Run(schedule[..m]);
      if Enabled(s, schedule[m]) {
        StepGrows(s, schedule[m], c);
        GrowsOn(Run(schedule[..n]).calls[c], s.calls[c], Next(s, schedule[m]).calls[c]);
      }
    }
  }

  lemma {:induction false} GrowsOn(a: Call, b: Call, c: Call)
    requires Grows(a, b) && Grows(b, c)
    ensures Grows(a, c)
  {
  }

  /** How a call begins: outside a session, or for a kind that needs no token, it is sent without one; with
      a held token it is sent with exactly that token; and without one it waits for the fetch in flight,
      or for a new one, and has sent nothing yet. */
  predicate Begins(s: State, kind: Kind, call: Call)
  {
    var carries := s.humanSessionActive && (kind == Write || kind == Logout);
    && call.kind == kind && call.needsCsrf == carries
    && (!carries ==> call.sends == [None] && call.waits == [] && call.pc.Sent1?)
    && (carries && s.csrfToken.Some? ==> call.sends == [s.csrfToken] && call.waits == [] && call.pc.Sent1?)
    && (carries && s.csrfToken.None? ==>
          var f := if s.csrfInflight.Some? then s.csrfInflight.value else |s.fetches|;
          call.sends == [] && call.waits == [f] && call.pc == Waiting1(f))
  }

  lemma {:induction false} StartBegins(s: State, kind: Kind)
    ensures var t := Next(s, Start(kind));
            && |t.calls| == |s.calls| + 1 && t.calls[..|s.calls|] == s.calls
            && Begins(s, kind, t.calls[|s.calls|])
            && t.csrfToken == s.csrfToken && t.humanSessionActive == s.humanSessionActive
  {
  }

  /** On every schedule a write or logout that starts inside a session carries the token that is held at
      that moment in its first send, for good; without a held token it waits; and any other call is sent
      without a token. */
  lemma {:induction false} FirstSendCarriesToken(schedule: seq<Action>, n: nat, end: nat, kind: Kind)
    requires n < end <= |schedule| && schedule[n] == Start(kind)
    ensures var s, c := Run(schedule[..n]), |Run(schedule[..n]).calls|;
            && c < |Run(schedule[..n + 1]).calls| && Begins(s, kind, Run(schedule[..n + 1]).calls[c])
            && c < |Run(schedule[..end]).calls|
            && var call, carries := Run(schedule[..end]).calls[c],
                                    s.humanSessionActive && (kind == Write || kind == Logout);
               && call.kind == kind && call.needsCsrf == carries
               && (carries && s.csrfToken.None? ==> call.waits != [])
               && (!carries || s.csrfToken.Some? ==>
                     call.sends != [] && call.sends[0] == if carries then s.csrfToken else None)
  {
    RunTo(schedule, n);
    StartBegins(Run(schedule[..n]), kind);
    CallGrows(schedule, n + 1, end, |Run(schedule[..n]).calls|);
  }

  // -- Answers --

  /** What an answer does to a call: only the first refusal of a token is not final. */
  lemma {:induction false} ReplyTells(schedule: seq<Action>, c: nat, reply: Reply)
    requires Enabled(Run(schedule), Action.Reply(c, reply))
    ensures var before, after := Run(schedule).calls[c], Next(Run(schedule), Action.Reply(c, reply)).calls[c];
            && after.sends == before.sends
            && after.pc == if reply == Lost then Failed
                           else if reply == CsrfRejected && before.needsCsrf && |before.sends| == 1 then Rejected
                           else Answered(reply == Good)
  {
    RunKeepsInv(schedule);
    assert CallInv(Run(schedule).fetches, Run(schedule).calls[c]);
  }

  /** A refused call forgets the token and waits for the fetch in flight or for a new one. */
  lemma {:induction false} RefreshTells(s: State, c: nat)
    requires Enabled(s, Refresh(c))
    ensures var t := Next(s, Refresh(c));
            var f := if s.csrfInflight.Some? then s.csrfInflight.value else |s.fetches|;
            && t.csrfToken == None && t.csrfInflight == Some(f) && t.humanSessionActive == s.humanSessionActive
            && t.calls[c].pc == Waiting2(f) && t.calls[c].waits == s.calls[c].waits + [f]
            && t.calls[c].sends == s.calls[c].sends
  {
  }

  /** A waiter fails with its fetch; otherwise the first wait ends in a send of the token variable, and the
      second in a send of the fetch's own token. */
  lemma {:induction false} ResumeTells(s: State, c: nat)
    requires Enabled(s, Resume(c))
    ensures var before, after := s.calls[c], Next(s, Resume(c)).calls[c];
            var result := s.fetches[before.pc.fetch].result;
            if result.None? then after.pc == Failed && after.sends == before.sends
            else if before.pc.Waiting1? then after.pc == Sent1 && after.sends == before.sends + [s.csrfToken]
            else after.pc == Sent2 && after.sends == before.sends + [result]
  {
  }

  /** A token response fills the variable if it holds a token, and is a failure if it is empty. */
  lemma {:induction false} ReturnTells(s: State, f: nat, response: Option<string>)
    requires Enabled(s, Return(f, response))
    ensures var t := Next(s, Return(f, response));
            if response.Some? && |response.value| > 0
            then t.csrfToken == response && t.fetches[f] == Returned(response)
            else t.csrfToken == s.csrfToken && t.fetches[f] == Returned(None)
  {
  }

  // -- A refused call is tried again --

  /** The call is on its way to a second send, has made it, or has failed with the fetch it waited for. */
  predicate Retries(fetches: seq<Fetch>, call: Call)
  {
    || call.pc.Rejected? || call.pc.Waiting2? || |call.sends| == 2
    || (call.pc.Failed? && call.waits != []
        && var f := call.waits[|call.waits| - 1];
           f < |fetches| && fetches[f] == Settled(None))
  }

  lemma {:induction false} StepKeepsRetrying(s: State, a: Action, c: nat)
    requires Inv(s) && Enabled(s, a) && c < |s.calls| && Retries(s.fetches, s.calls[c])
    ensures c < |Next(s, a).calls| && Retries(Next(s, a).fetches, Next(s, a).calls[c])
  {
    assert CallInv(s.fetches, s.calls[c]);
    FetchesEvolve(s, a);
    StepGrows(s, a, c);
    if s.calls[c].pc.Failed? && |s.calls[c].sends| != 2 {
      var f := s.calls[c].waits[|s.calls[c].waits| - 1];
      assert Progress(s.fetches[f], Next(s, a).fetches[f]);
    }
  }

  /** On every schedule a call whose first send was refused for its token is not given up: it stays on its
      way to a second send, unless the token fetch that it waits for fails. */
  lemma {:induction false} RefusedCallIsRetried(schedule: seq<Action>, n: nat, end: nat, c: nat)
    requires n < end <= |schedule| && schedule[n] == Action.Reply(c, CsrfRejected)
    requires Enabled(Run(schedule[..n]), schedule[n])
    requires Run(schedule[..n]).calls[c].needsCsrf && |Run(schedule[..n]).calls[c].sends| == 1
    ensures c < |Run(schedule[..end]).calls|
    ensures Retries(Run(schedule[..end]).fetches, Run(schedule[..end]).calls[c])
    decreases end
  {
    if end == n + 1 {
      RefusedNow(schedule, n, end, c);
    } else {
      RefusedCallIsRetried(schedule, n, end - 1, c);
      RetriesOn(schedule, end - 1, end, c);
    }
  }

  lemma {:induction false} RefusedNow(schedule: seq<Action>, n: nat, next: nat, c: nat)
    requires n < |schedule| && next == n + 1 && schedule[n] == Action.Reply(c, CsrfRejected)
    requires Enabled(Run(schedule[..n]), schedule[n])
    requires Run(schedule[..n]).calls[c].needsCsrf && |Run(schedule[..n]).calls[c].sends| == 1
    ensures c < |Run(schedule[..next]).calls|
    ensures Retries(Run(schedule[..next]).fetches, Run(schedule[..next]).calls[c])
  {
    RunTo(schedule, n);
    ReplyTells(schedule[..n], c, CsrfRejected);
  }

  lemma {:induction false} RetriesOn(schedule: seq<Action>, n: nat, next: nat, c: nat)
    requires n < |schedule| && next == n + 1 && c < |Run(schedule[..n]).calls|
    requires Retries(Run(schedule[..n]).fetches, Run(schedule[..n]).calls[c])
    ensures c < |Run(schedule[..next]).calls|
    ensures Retries(Run(schedule[..next]).fetches, Run(schedule[..next]).calls[c])
  {
    RunTo(schedule, n);
    RunKeepsInv(schedule[..n]);
    if Enabled(Run(schedule[..n]), schedule[n]) {
      StepKeepsRetrying(Run(schedule[..n]), schedule[n], c);
    }
  }

  // -- The session --

  /** Step k completes a call of this kind that was answered well. */
  predicate Completes(schedule: seq<Action>, k: nat, kind: Kind)
    requires k < |schedule|
  {
    schedule[k].Complete?
    && var s, c := Run(schedule[..k]), schedule[k].call;
       c < |s.calls| && s.calls[c].kind == kind && s.calls[c].pc == Answered(true)
  }

  predicate OpensSession(schedule: seq<Action>, k: nat)
    requires k < |schedule|
  {
    Completes(schedule, k, Me) || Completes(schedule, k, Login)
  }

  ghost predicate SessionIsOpen(schedule: seq<Action>, n: nat)
    requires n <= |schedule|
  {
    exists k {:trigger OpensSession(schedule, k)} ::
      0 <= k < n && OpensSession(schedule, k) && forall j :: k < j < n ==> !Completes(schedule, j, Logout)
  }

  /** A session is active if and only if a login or a look-up of the current user has succeeded and no
      logout has since. */
  lemma {:induction false} SessionIsActiveIff(schedule: seq<Action>, n: nat)
    requires n <= |schedule|
    ensures Run(schedule[..n]).humanSessionActive <==> SessionIsOpen(schedule, n)
  {
    if n > 0 {
      SessionIsActiveIff(schedule, n - 1);
      RunTo(schedule, n - 1);
      SessionStep(schedule, n - 1, n);
      StepOfSession(Run(schedule[..n - 1]), schedule[n - 1]);
    }
  }

  lemma {:induction false} StepOfSession(s: State, a: Action)
    ensures var ends := a.Complete? && a.call < |s.calls| && s.calls[a.call].pc == Answered(true);
            Enabled(s, a) ==>
              Next(s, a).humanSessionActive
              == if ends && (s.calls[a.call].kind == Me || s.calls[a.call].kind == Login) then true
                 else if ends && s.calls[a.call].kind == Logout then false
                 else s.humanSessionActive
    ensures a.Complete? && a.call < |s.calls| && s.calls[a.call].pc == Answered(true) ==> Enabled(s, a)
  {
  }

  lemma {:induction false} SessionStep(schedule: seq<Action>, n: nat, next: nat)
    requires n < |schedule| && next == n + 1
    ensures SessionIsOpen(schedule, next)
      <==> OpensSession(schedule, n) || (SessionIsOpen(schedule, n) && !Completes(schedule, n, Logout))
  {
    if SessionIsOpen(schedule, n) && !Completes(schedule, n, Logout) {
      var k :| 0 <= k < n && OpensSession(schedule, k) && forall j :: k < j < n ==> !Completes(schedule, j, Logout);
      assert OpensSession(schedule, k);
    }
    if SessionIsOpen(schedule, next) && !OpensSession(schedule, n) {
      var k :| 0 <= k < next && OpensSession(schedule, k)
               && forall j :: k < j < next ==> !Completes(schedule, j, Logout);
      assert k < n && OpensSession(schedule, k);
    }
  }
}
