/** Runs that show where the guarantees of the chat stream end: a close at the final event, a close in
    the failure handler, a failing session write, and a failure after steps went out. */
module StreamWitnesses {
  import opened ChatSteps
  import opened Options
  import opened StreamInvariants
  import opened StreamProgress
  import opened StreamProtocol
  import opened StreamSteps
  import opened StreamTheorems

  /** The step first, then the rest of the schedule. */
  lemma {:induction false} Prepended(schedule: seq<Action>, a: Action, rest: seq<Action>) returns (more: seq<Action>)
    ensures schedule + more == schedule + [a] + rest
  {
    more := [a] + rest;
  }

  // -- On to the final event --

  /** Nothing raises and the runner returns an output. */
  predicate Smooth(env: Env)
  {
    env.fails == {} && env.outcome == Output
  }

  predicate InBody(pc: Pc)
  {
    !InHandler(pc) && !Over(pc)
  }

  lemma {:induction false} SmoothStaysInBody(env: Env, s: State, due: bool)
    requires Smooth(env) && WorkInv(env, s.work) && PhaseInv(env, s)
    requires InBody(s.pc) && !s.pc.AfterFinal? && MainEnabled(s)
    ensures InBody(MainStep(env, s, due).pc)
  {
    if InLoop(s.pc) || Draining(s.pc) {
      assert MainStep(env, s, due).pc == RunnerMove(s, due).next;
      if !s.pc.Join? {
        LoopStays(s, due);
      }
    } else {
      SmoothMovesInBody(env, s);
    }
  }

  lemma {:induction false} SmoothMovesInBody(env: Env, s: State)
    requires Smooth(env)
    ensures Starting(s.pc) ==> InBody(StartMove(env, s).next)
    ensures Finishing(s.pc) && !s.pc.AfterFinal? ==> InBody(FinishMove(env, s).next)
  {
  }

  lemma {:induction false} SmoothAdvances(env: Env, schedule: seq<Action>) returns (a: Action)
    requires Smooth(env) && InBody(Run(env, schedule).pc) && !Run(env, schedule).pc.AfterFinal?
    ensures InBody(Run(env, schedule + [a]).pc)
    ensures Less(LeftAt(env, Run(env, schedule + [a])), LeftAt(env, Run(env, schedule)))
  {
    var s := Run(env, schedule);
    RunKeepsInv(env, schedule);
    a := SomeStepAdvances(env, s);
    RunSnoc(env, schedule, a);
    if a.Main? {
      SmoothStaysInBody(env, s, a.due);
    }
  }

  /** From every place of its body a run without a raise can go on to the final event. */
  lemma {:induction false} ReachesFinal(env: Env, schedule: seq<Action>, left: Left) returns (more: seq<Action>)
    requires Smooth(env) && InBody(Run(env, schedule).pc) && left == LeftAt(env, Run(env, schedule))
    ensures Run(env, schedule + more).pc.AfterFinal?
    decreases left.start, left.work, left.main
  {
    if Run(env, schedule).pc.AfterFinal? {
      more := [];
      assert schedule + more == schedule;
    } else {
      var a := SmoothAdvances(env, schedule);
      var rest := ReachesFinal(env, schedule + [a], LeftAt(env, Run(env, schedule + [a])));
      more := Prepended(schedule, a, rest);
    }
  }

  /** Any such run that is closed at the final event has succeeded and is cancelled as well. */
  lemma {:induction false} CloseAtFinalLeavesTwoMarks(env: Env) returns (schedule: seq<Action>)
    requires env.session && Smooth(env)
    ensures var s := Run(env, schedule);
            && s.pc.Closed? && Place(s).AfterFinal?
            && Succeeded in s.marks && Cancelled in s.marks && Terminals(s.marks) == 2
  {
    var more := ReachesFinal(env, [], LeftAt(env, Run(env, [])));
    schedule := ClosedAt(env, [] + more);
    OneTerminalMarkIff(env, schedule);
  }

  lemma {:induction false} ClosedAt(env: Env, schedule: seq<Action>) returns (closed: seq<Action>)
    requires Run(env, schedule).pc.AfterFinal? || Run(env, schedule).pc.AtFailPersist?
    ensures Run(env, closed).pc.Closed? && Place(Run(env, closed)) == Run(env, schedule).pc
  {
    RunKeepsInv(env, schedule);
    RunSnoc(env, schedule, Close);
    closed := schedule + [Close];
  }

  // -- On to the failure handler --

  /** The runner does not return an output, and nothing raises before it. */
  predicate FailsInRunner(env: Env)
  {
    env.outcome != Output && RecordUser !in env.fails && Prepare !in env.fails
  }

  /** On the way to the place in the handler where the failure is written. */
  predicate BeforeFailureMark(s: State)
  {
    && !s.flushed
    && (Starting(s.pc) || InLoop(s.pc) || Draining(s.pc) || s.pc.Reemit? || s.pc.AtErrorStep? || s.pc.AtFailPersist?)
    && (InHandler(s.pc) ==> s.work.phase.Finished?)
  }

  lemma {:induction false} StaysBeforeFailureMark(env: Env, s: State, due: bool)
    requires FailsInRunner(env) && WorkInv(env, s.work) && PhaseInv(env, s)
    requires BeforeFailureMark(s) && !s.pc.AtFailPersist? && MainEnabled(s)
    ensures BeforeFailureMark(MainStep(env, s, due))
  {
  }

  lemma {:induction false} FailingAdvances(env: Env, schedule: seq<Action>) returns (a: Action)
    requires FailsInRunner(env) && BeforeFailureMark(Run(env, schedule)) && !Run(env, schedule).pc.AtFailPersist?
    ensures BeforeFailureMark(Run(env, schedule + [a]))
    ensures Less(LeftAt(env, Run(env, schedule + [a])), LeftAt(env, Run(env, schedule)))
  {
    var s := Run(env, schedule);
    RunKeepsInv(env, schedule);
    a := SomeStepAdvances(env, s);
    RunSnoc(env, schedule, a);
    if a.Main? {
      StaysBeforeFailureMark(env, s, a.due);
    }
  }

  lemma {:induction false} ReachesFailureMark(env: Env, schedule: seq<Action>, left: Left) returns (more: seq<Action>)
    requires FailsInRunner(env) && BeforeFailureMark(Run(env, schedule)) && left == LeftAt(env, Run(env, schedule))
    ensures var s := Run(env, schedule + more);
            s.pc.AtFailPersist? && !s.flushed && s.work.phase.Finished?
    decreases left.start, left.work, left.main
  {
    if Run(env, schedule).pc.AtFailPersist? {
      more := [];
      assert schedule + more == schedule;
    } else {
      var a := FailingAdvances(env, schedule);
      var rest := ReachesFailureMark(env, schedule + [a], LeftAt(env, Run(env, schedule + [a])));
      more := Prepended(schedule, a, rest);
    }
  }

  /** A run that fails in the runner and is closed before the failure is written has no terminal mark. */
  lemma {:induction false} CloseInHandlerLeavesNoMark(env: Env) returns (schedule: seq<Action>)
    requires env.session && FailsInRunner(env)
    ensures var s := Run(env, schedule);
            s.pc.Closed? && InHandler(Place(s)) && Terminals(s.marks) == 0
  {
    var more := ReachesFailureMark(env, [], LeftAt(env, Run(env, [])));
    schedule := ClosedAt(env, [] + more);
    OneTerminalMarkIff(env, schedule);
  }

  /** Nor has one whose failure cannot be written: the error of the write leaves the generator. */
  lemma {:induction false} FailingWriteLeavesNoMark(env: Env) returns (schedule: seq<Action>)
    requires env.session && FailsInRunner(env) && FailSession in env.fails
    ensures Run(env, schedule).pc.Escaped? && Terminals(Run(env, schedule).marks) == 0
  {
    var more := ReachesFailureMark(env, [], LeftAt(env, Run(env, [])));
    schedule := [] + more + [Main(false)];
    RunSnoc(env, [] + more, Main(false));
    OneTerminalMarkIff(env, schedule);
  }

  /** Every other failure in the runner can be reported, and then every logged step went out twice. */
  lemma {:induction false} ReportedFailureRepeatsSteps(env: Env) returns (schedule: seq<Action>)
    requires FailsInRunner(env) && (env.session ==> FailSession !in env.fails)
    ensures Reported(Run(env, schedule).pc)
    ensures StepsOf(Run(env, schedule).out) == Intro(env) + AllSteps(env) + AllSteps(env) + [env.answerError]
  {
    var more := ReachesFailureMark(env, [], LeftAt(env, Run(env, [])));
    var s := Run(env, [] + more);
    RunSnoc(env, [] + more, Main(false));
    RunSnoc(env, [] + more + [Main(false)], Main(false));
    schedule := [] + more + [Main(false)] + [Main(false)];
    FailureRepeatsSteps(env, schedule);
  }

  // -- One request --

  const ANSWER_START := ChatStep("answer", Start, None, None, None)
  const ANSWER_DONE := ChatStep("answer", Done, Some(1.0), None, None)
  const ANSWER_ERROR := ChatStep("answer", Error, Some(1.0), None, None)
  const SEARCH := ChatStep("retrieval", Start, None, None, None)
  const FOUND := ChatStep("retrieval", Done, Some(1.0), None, None)

  /** A request with a session whose runner logs one retrieval call. */
  function Request(outcome: Outcome, fails: set<Site>): Env
  {
    Env(true, None, ANSWER_START, ANSWER_DONE, ANSWER_ERROR, [Log(SEARCH), Log(FOUND)], outcome, "answer", [], fails)
  }

  /** A run that is closed before it starts has no terminal mark. */
  lemma {:induction false} CloseBeforeStart(env: Env)
    requires env.session
    ensures var s := Run(env, [Close]);
            s.pc.Closed? && Place(s).Begin? && Terminals(s.marks) == 0
  {
    assert Run(env, []).pc.Begin?;
    RunSnoc(env, [], Close);
    assert [] + [Close] == [Close];
    OneTerminalMarkIff(env, [Close]);
  }

  /** The ends of this request that the guarantees do not cover. */
  lemma {:induction false} RunsAtTheEdges()
    returns (atFinal: seq<Action>, inHandler: seq<Action>, escaping: seq<Action>, reported: seq<Action>)
    ensures var s := Run(Request(Output, {}), [Close]);
            s.pc.Closed? && Place(s).Begin? && Terminals(s.marks) == 0
    ensures var s := Run(Request(Output, {}), atFinal);
            s.pc.Closed? && Place(s).AfterFinal? && Terminals(s.marks) == 2
    ensures var s := Run(Request(Raised, {}), inHandler);
            s.pc.Closed? && InHandler(Place(s)) && Terminals(s.marks) == 0
    ensures var s := Run(Request(Raised, {FailSession}), escaping);
            s.pc.Escaped? && Terminals(s.marks) == 0
    ensures var s := Run(Request(Raised, {}), reported);
            Reported(s.pc) && StepsOf(s.out) == [ANSWER_START, SEARCH, FOUND, SEARCH, FOUND, ANSWER_ERROR]
  {
    CloseBeforeStart(Request(Output, {}));
    atFinal := CloseAtFinalLeavesTwoMarks(Request(Output, {}));
    inHandler := CloseInHandlerLeavesNoMark(Request(Raised, {}));
    escaping := FailingWriteLeavesNoMark(Request(Raised, {FailSession}));
    reported := ReportedFailureRepeatsSteps(Request(Raised, {}));
    assert AllSteps(Request(Raised, {})) == [SEARCH, FOUND];
    assert Intro(Request(Raised, {})) == [ANSWER_START];
  }
}
