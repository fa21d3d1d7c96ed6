/** Retrieval steps on a successful run, from the tool's log to the client's view and to the message
    metadata. */
module StreamedSteps {
  import opened ChatSteps
  import opened StreamInvariants
  import opened StreamProtocol
  import opened StreamTheorems
  import RetrievalTool

  // -- Any log --

  /** The step events of a successful run. */
  function Streamed(env: Env): seq<ChatStep>
  {
    Intro(env) + AllSteps(env) + [env.answerDone]
  }

  /** On every successful run the client that folds the streamed steps shows as open exactly what the
      log leaves open; so nothing is left running if and only if every logged start is closed. */
  lemma {:induction false} SuccessLeavesOpenWhatTheLogDoes(env: Env, schedule: seq<Action>, id: string)
    requires Succeeding(Run(env, schedule).pc)
    ensures var shown := Fold([], StepsOf(Run(env, schedule).out));
            var pending := Pending(Streamed(env), id);
            OpenCount(shown, id) == pending && (LastStart(shown, id) < 0 <==> pending == 0)
  {
    SuccessYieldsAnswerIff(env, schedule);
    FoldShowsPending(StepsOf(Run(env, schedule).out), id);
  }

  lemma {:induction false} OpeningIsNotKept(env: Env)
    requires env.answerStart.status == Start
    ensures NonStarts(Streamed(env)) == PersistedSteps(env, AllSteps(env))
  {
    var ctx, log := ContextSteps(env), AllSteps(env);
    NonStartsSnoc(Intro(env) + log, env.answerDone);
    NonStartsSnoc(ctx + log, env.answerDone);
    NonStartsAppend(Intro(env), log);
    NonStartsAppend(ctx, log);
    NonStartsSnoc(ctx, env.answerStart);
  }

  /** On every successful run whose ends carry what their starts carry, the ends that the folding client
      shows are a permutation of what the server kept with the assistant message, open starts or not;
      and they are all that it shows if and only if no id has a pending start. */
  lemma {:induction false} FoldedStepsArePersistedSteps(env: Env, schedule: seq<Action>)
    requires env.answerStart.status == Start && EndsCarryStarts(Streamed(env))
    requires Succeeding(Run(env, schedule).pc)
    ensures var shown := Fold([], StepsOf(Run(env, schedule).out));
            var kept := PersistedSteps(env, AllSteps(env));
            && multiset(NonStarts(shown)) == multiset(kept)
            && (NoneOpen(shown) <==> NonePending(Streamed(env)))
            && (AllWellFormed(kept) ==> multiset(NonStarts(shown)) == multiset(ParseSteps(Serialized(kept))))
  {
    SuccessYieldsAnswerIff(env, schedule);
    FoldKeepsEnds(Streamed(env));
    OpeningIsNotKept(env);
    NothingRunsIff(Streamed(env), Fold([], Streamed(env)));
    StepsRoundTripIff(PersistedSteps(env, AllSteps(env)));
  }

  // -- Logs of the retrieval tool --

  /** The answer step opens and closes under an id that is not the retrieval steps' id, and the
      context step is complete when it is yielded. */
  predicate AnswerStepsClose(env: Env, id: string)
  {
    && Closes(Call(env.answerStart, env.answerDone)) && env.answerStart.id != id
    && (env.context.Some? ==> env.context.value.status != Start)
  }

  /** The steps of a run from the answer's opening on: an end of the answer or of a retrieval call carries
      what its start does. */
  lemma {:induction false} RetrievalEndsCarryStarts(env: Env)
    requires AnswerStepsClose(env, "retrieval") && RetrievalTool.AreRetrievalSteps(AllSteps(env))
    ensures EndsCarryStarts(Streamed(env))
  {
    var events, from, to := Streamed(env), |Intro(env)|, |Intro(env)| + |AllSteps(env)|;
    forall i, j | 0 <= i < j < |events| && events[i].id == events[j].id
                  && events[i].status == Start && events[j].status != Start
      ensures Carries(events[i], events[j])
    {
      if from <= i < to {
        assert RetrievalTool.IsRetrievalStep(events[i]) by {
          assert events[i] == AllSteps(env)[i - from];
        }
      }
      if from <= j < to {
        assert RetrievalTool.IsRetrievalStep(events[j]) by {
          assert events[j] == AllSteps(env)[j - from];
        }
      }
    }
  }

  /** What is pending around the log: the answer is opened and closed, and nothing else is. */
  lemma {:induction false} PendingOfStreamed(env: Env, id: string)
    requires AnswerStepsClose(env, "retrieval") && RetrievalTool.AreRetrievalSteps(AllSteps(env))
    ensures Pending(Streamed(env), id) == if id == "retrieval" then Pending(AllSteps(env), id) else 0
  {
    var ctx, log := ContextSteps(env), AllSteps(env);
    PendingOfContext(env, id);
    PendingSnoc(ctx, env.answerStart, id);
    PendingSnoc(Intro(env) + log, env.answerDone, id);
    if id == "retrieval" {
      PendingAppend(Intro(env), log, id);
    } else {
      PendingOfOthers(Intro(env), log, id);
    }
  }

  lemma {:induction false} OnlySearchesPend(env: Env)
    requires AnswerStepsClose(env, "retrieval") && RetrievalTool.AreRetrievalSteps(AllSteps(env))
    ensures NonePending(Streamed(env)) <==> Pending(AllSteps(env), "retrieval") == 0
  {
    PendingOfStreamed(env, "retrieval");
    if Pending(AllSteps(env), "retrieval") == 0 {
      forall id
        ensures Pending(Streamed(env), id) == 0
      {
        PendingOfStreamed(env, id);
      }
    }
  }

  lemma {:induction false} PendingOfContext(env: Env, id: string)
    requires env.context.Some? ==> env.context.value.status != Start
    ensures Pending(ContextSteps(env), id) == 0
  {
    if env.context.Some? {
      PendingSnoc([], env.context.value, id);
      assert [] + [env.context.value] == ContextSteps(env);
    }
  }

  /** On every successful run of a runner that logs the steps of retrieval calls, whatever became of the
      calls: the ends that are shown are a permutation of the kept ones, and nothing is left running if
      and only if no call left its start open. */
  lemma {:induction false} SearchesArePersistedSteps(env: Env, schedule: seq<Action>, audited: bool,
                                                     calls: seq<RetrievalTool.SearchCall>)
    requires AllSteps(env) == RetrievalTool.SearchLog(audited, calls) && AnswerStepsClose(env, "retrieval")
    requires Succeeding(Run(env, schedule).pc)
    ensures var shown := Fold([], StepsOf(Run(env, schedule).out));
            && multiset(NonStarts(shown)) == multiset(PersistedSteps(env, AllSteps(env)))
            && (NoneOpen(shown) <==> RetrievalTool.OpenSearches(audited, calls) == 0)
  {
    RetrievalTool.SearchLogIsRetrieval(audited, calls);
    RetrievalTool.PendingOfSearches(audited, calls);
    RetrievalEndsCarryStarts(env);
    FoldedStepsArePersistedSteps(env, schedule);
    OnlySearchesPend(env);
  }

  // -- Logs of closed calls --

  lemma {:induction false} ClosingStepsAreEnds(calls: seq<Call>, id: string)
    requires AreCalls(calls, id)
    ensures forall k :: 0 <= k < |ClosingSteps(calls)| ==> ClosingSteps(calls)[k].status != Start
    ensures NonStarts(ClosingSteps(calls)) == ClosingSteps(calls)
  {
    if calls != [] {
      ClosingStepsAreEnds(calls[..|calls| - 1], id);
    }
  }

  /** The open answer step is found behind the finished retrieval steps. */
  lemma {:induction false} AnswerStepIsLastStart(before: seq<ChatStep>, start: ChatStep, ends: seq<ChatStep>)
    requires start.status == Start
    requires forall k :: 0 <= k < |ends| ==> ends[k].status != Start
    ensures LastStart(before + [start] + ends, start.id) == |before|
  {
    var all := before + [start] + ends;
    assert all[|before|] == start;
  }

  /** The end of the answer step replaces its start, which the finished retrieval steps follow. */
  lemma {:induction false} AnswerCloses(before: seq<ChatStep>, answer: Call, ends: seq<ChatStep>)
    requires Closes(answer)
    requires forall k :: 0 <= k < |ends| ==> ends[k].status != Start
    ensures Apply(before + [answer.start] + ends, answer.close) == before + [answer.close] + ends
  {
    AnswerStepIsLastStart(before, answer.start, ends);
    assert Merge(answer.start, answer.close) == answer.close;
  }

  lemma {:induction false} FoldOfIntro(env: Env, id: string)
    requires AnswerStepsClose(env, id)
    ensures Fold([], Intro(env)) == Intro(env)
  {
    var ctx := ContextSteps(env);
    assert Fold([], ctx) == ctx by {
      if ctx != [] {
        FoldSnoc([], [], ctx[0]);
        assert [] + [ctx[0]] == ctx;
      }
    }
    FoldSnoc([], ctx, env.answerStart);
  }

  lemma {:induction false} FoldOfSuccess(env: Env, calls: seq<Call>, id: string)
    requires AreCalls(calls, id) && AnswerStepsClose(env, id)
    ensures Fold([], Intro(env) + LogOf(calls) + [env.answerDone])
            == ContextSteps(env) + [env.answerDone] + ClosingSteps(calls)
  {
    var log, ends := LogOf(calls), ClosingSteps(calls);
    assert Fold([], Intro(env) + log) == Intro(env) + ends by {
      FoldOfIntro(env, id);
      FoldAppend([], Intro(env), log);
      FoldCalls(Intro(env), calls, id);
    }
    FoldSnoc([], Intro(env) + log, env.answerDone);
    ClosingStepsAreEnds(calls, id);
    AnswerCloses(ContextSteps(env), Call(env.answerStart, env.answerDone), ends);
  }

  lemma {:induction false} PersistedOfSuccess(env: Env, calls: seq<Call>, id: string)
    requires AreCalls(calls, id) && AnswerStepsClose(env, id)
    ensures PersistedSteps(env, LogOf(calls)) == ContextSteps(env) + ClosingSteps(calls) + [env.answerDone]
  {
    var ctx, log := ContextSteps(env), LogOf(calls);
    NonStartsAppend(ctx + log, [env.answerDone]);
    NonStartsAppend(ctx, log);
    NonStartsOfLog(calls, id);
    NonStartsSnoc([], env.answerDone);
    assert [] + [env.answerDone] == [env.answerDone];
    assert NonStarts(ctx) == ctx by {
      if ctx != [] {
        NonStartsSnoc([], ctx[0]);
        assert [] + [ctx[0]] == ctx;
      }
    }
  }

  lemma {:induction false} EndsMayMove(ctx: seq<ChatStep>, done: ChatStep, ends: seq<ChatStep>)
    requires forall k :: 0 <= k < |ctx| ==> ctx[k].status != Start
    requires forall k :: 0 <= k < |ends| ==> ends[k].status != Start
    requires done.status != Start
    ensures multiset(ctx + [done] + ends) == multiset(ctx + ends + [done])
    ensures var shown := ctx + [done] + ends; forall k :: 0 <= k < |shown| ==> shown[k].status != Start
  {
  }

  /** On every successful run whose log is made of closed retrieval calls, the client that folds the
      streamed steps is left with no open step, and shows a permutation of what the server kept with
      the assistant message. */
  lemma {:induction false} ClosedCallsArePersistedSteps(env: Env, schedule: seq<Action>, calls: seq<Call>, id: string)
    requires AllSteps(env) == LogOf(calls) && AreCalls(calls, id) && AnswerStepsClose(env, id)
    requires Succeeding(Run(env, schedule).pc)
    ensures var shown := Fold([], StepsOf(Run(env, schedule).out));
            var kept := PersistedSteps(env, AllSteps(env));
            && (forall k :: 0 <= k < |shown| ==> shown[k].status != Start)
            && multiset(shown) == multiset(kept)
            && (AllWellFormed(kept) ==> multiset(shown) == multiset(ParseSteps(Serialized(kept))))
  {
    SuccessYieldsAnswerIff(env, schedule);
    FoldOfSuccess(env, calls, id);
    PersistedOfSuccess(env, calls, id);
    ClosingStepsAreEnds(calls, id);
    EndsMayMove(ContextSteps(env), env.answerDone, ClosingSteps(calls));
    StepsRoundTripIff(PersistedSteps(env, AllSteps(env)));
  }
}
