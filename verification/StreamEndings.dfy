/** Which end a run reaches: the request alone decides it, and what has gone out by then, whatever the
    interleaving. */
module StreamEndings {
  import opened ChatSteps
  import opened StreamInvariants
  import opened StreamProtocol
  import opened StreamShape
  import opened StreamSteps
  import opened StreamTheorems

  /** Where a request fails, if it does: before the runner is submitted, in the runner or on its output
      before the steps are flushed, or when the answer is written. */
  datatype Cause = NoFailure | Early | OnOutput | OnWriting

  function CauseOf(env: Env): Cause
  {
    if (env.session && RecordUser in env.fails) || Prepare in env.fails then Early
    else if env.outcome != Output || Finish in env.fails then OnOutput
    else if env.session && (RecordAssistant in env.fails || SucceedSession in env.fails) then OnWriting
    else NoFailure
  }

  /** What the failure handler can tell from the state. */
  function CauseSeen(s: State): Cause
  {
    if s.flushed then OnWriting else if s.work.phase.Idle? then Early else OnOutput
  }

  predicate AfterStart(pc: Pc)
  {
    (Starting(pc) && !pc.Begin? && !pc.AtPrepare?) || InLoop(pc) || Draining(pc) || Finishing(pc)
  }

  predicate Escapes(env: Env)
  {
    env.session && FailSession in env.fails
  }

  /** How far the generator has come tells what has not raised, and in the handler what has. */
  ghost predicate CauseInv(env: Env, s: State)
  {
    && (s.pc.AtPrepare? ==> !(env.session && RecordUser in env.fails))
    && (AfterStart(s.pc) ==> !CauseOf(env).Early?)
    && (s.pc.FlushSteps? || Answering(s.pc) ==> CauseOf(env).OnWriting? || CauseOf(env).NoFailure?)
    && (s.pc.AtFinal? || Succeeding(s.pc) ==> CauseOf(env).NoFailure?)
    && (Failing(s.pc) ==> CauseOf(env) == CauseSeen(s))
    && (Failing(s.pc) && s.work.phase.Idle? ==> s.parts == [] && s.work.log == [])
    && (s.pc.AtErrorEvent? || Reported(s.pc) ==> !Escapes(env))
    && (s.pc.Escaped? ==> Escapes(env))
  }

  lemma {:induction false} StartKeepsCause(env: Env, s: State, due: bool)
    requires Starting(s.pc) && CauseInv(env, s)
    requires WorkInv(env, s.work) && PhaseInv(env, s) && StepQueueInv(s) && DeltaQueueInv(env, s)
    ensures CauseInv(env, MainStep(env, s, due))
  {
  }

  lemma {:induction false} RunnerKeepsCause(env: Env, s: State, due: bool)
    requires (InLoop(s.pc) || Draining(s.pc)) && MainEnabled(s) && CauseInv(env, s)
    requires WorkInv(env, s.work) && PhaseInv(env, s)
    ensures CauseInv(env, MainStep(env, s, due))
  {
    if s.pc.Join? {
      JoinKeepsCause(env, s, due);
    } else {
      LoopStays(s, due);
      assert MainStep(env, s, due).pc == RunnerMove(s, due).next;
    }
  }

  lemma {:induction false} JoinKeepsCause(env: Env, s: State, due: bool)
    requires s.pc.Join? && MainEnabled(s) && CauseInv(env, s) && WorkInv(env, s.work) && PhaseInv(env, s)
    ensures CauseInv(env, MainStep(env, s, due))
  {
  }

  lemma {:induction false} FinishKeepsCause(env: Env, s: State, due: bool)
    requires Finishing(s.pc) && CauseInv(env, s) && PhaseInv(env, s)
    ensures CauseInv(env, MainStep(env, s, due))
  {
  }

  lemma {:induction false} FailKeepsCause(env: Env, s: State, due: bool)
    requires InHandler(s.pc) && CauseInv(env, s)
    ensures CauseInv(env, MainStep(env, s, due))
  {
    HandlerMoves(env, s);
    HandlerFields(env, s, due);
    CauseStays(env, s, MainStep(env, s, due));
  }

  lemma {:induction false} HandlerFields(env: Env, s: State, due: bool)
    requires InHandler(s.pc)
    ensures var t := MainStep(env, s, due);
            t.pc == FailMove(env, s).next && t.work == s.work && t.flushed == s.flushed && t.parts == s.parts
  {
  }

  lemma {:induction false} CauseStays(env: Env, s: State, t: State)
    requires Failing(s.pc) && Failing(t.pc) && CauseInv(env, s)
    requires t.work == s.work && t.flushed == s.flushed && t.parts == s.parts
    requires t.pc.AtErrorEvent? || Reported(t.pc) ==> !Escapes(env)
    requires t.pc.Escaped? ==> Escapes(env)
    ensures CauseInv(env, t)
  {
  }

  lemma {:induction false} HandlerMoves(env: Env, s: State)
    requires InHandler(s.pc) && CauseInv(env, s)
    ensures var next := FailMove(env, s).next;
            && Failing(next)
            && (next.AtErrorEvent? || Reported(next) ==> !Escapes(env))
            && (next.Escaped? ==> Escapes(env))
  {
  }

  lemma {:induction false} StepKeepsCause(env: Env, s: State, a: Action)
    requires CauseInv(env, s) && Enabled(s, a)
    requires WorkInv(env, s.work) && PhaseInv(env, s) && StepQueueInv(s) && DeltaQueueInv(env, s)
    ensures CauseInv(env, Next(env, s, a))
  {
    match a
    case Main(due) =>
      if Starting(s.pc) {
        StartKeepsCause(env, s, due);
      } else if InLoop(s.pc) || Draining(s.pc) {
        RunnerKeepsCause(env, s, due);
      } else if Finishing(s.pc) {
        FinishKeepsCause(env, s, due);
      } else {
        FailKeepsCause(env, s, due);
      }
    case Worker =>
    case Close =>
  }

  lemma {:induction false} RunKeepsCause(env: Env, schedule: seq<Action>)
    ensures CauseInv(env, Run(env, schedule))
  {
    if schedule != [] {
      var before, a := schedule[..|schedule| - 1], schedule[|schedule| - 1];
      RunKeepsCause(env, before);
      RunKeepsInv(env, before);
      if Enabled(Run(env, before), a) {
        StepKeepsCause(env, Run(env, before), a);
      }
    }
  }

  // -- The end of a run --

  /** Where a run with this request ends, if the consumer does not close it. */
  function EndOf(env: Env): Pc
  {
    if CauseOf(env).NoFailure? then Ended else if Escapes(env) then Escaped else EndedWithError
  }

  /** The steps of a failing run if each logged step went out once. */
  function StepsOnce(env: Env): seq<ChatStep>
  {
    if CauseOf(env).Early? then [env.answerError]
    else Intro(env) + AllSteps(env) + (if CauseOf(env).OnWriting? then [env.answerDone] else []) + [env.answerError]
  }

  /** The steps of a run by where its request fails. */
  function FinalSteps(env: Env): seq<ChatStep>
  {
    match CauseOf(env)
    case NoFailure => Intro(env) + AllSteps(env) + [env.answerDone]
    case OnOutput => Intro(env) + AllSteps(env) + AllSteps(env) + [env.answerError]
    case _ => StepsOnce(env)
  }

  function FinalDeltas(env: Env): seq<string>
  {
    match CauseOf(env)
    case Early => []
    case OnOutput => AllTexts(env)
    case _ => AllTexts(env) + Rest(env, AllTexts(env))
  }

  function FinalCalls(env: Env): seq<string>
  {
    if CauseOf(env).Early? || CauseOf(env).OnOutput? then [] else env.toolCalls
  }

  function FinalMarks(env: Env): seq<AuditMark>
  {
    if env.session then MarksAt(env, EndOf(env), CauseOf(env).OnWriting?) else []
  }

  lemma {:induction false} HandlerSteps(env: Env, s: State)
    requires Failing(s.pc) && !s.pc.Reemit? && !s.pc.AtErrorStep?
    requires WorkInv(env, s.work) && PhaseInv(env, s) && CursorInv(s) && StepsInv(env, s) && CauseInv(env, s)
    ensures StepsOf(s.out) == FinalSteps(env)
  {
    assert StepsOf(s.out) == AfterRepeat(env, s.work, s.flushed) + [env.answerError];
    match CauseOf(env) {
      case Early =>
        assert BeforeFailure(env, s.work, s.flushed) + s.work.log == [];
      case OnOutput =>
      case OnWriting =>
        assert BeforeFailure(env, s.work, s.flushed) + [] == BeforeFailure(env, s.work, s.flushed);
      case NoFailure =>
    }
  }

  /** Every run that is over without a close has yielded the same steps, deltas and tool calls and left the
      same audit log, each in the same order: the request decides them, and the schedule only how steps and
      deltas mix. */
  lemma {:induction false} RequestDecidesTheRun(env: Env, schedule: seq<Action>)
    requires var pc := Run(env, schedule).pc; Over(pc) && !pc.Closed?
    ensures var s := Run(env, schedule);
            && s.pc == EndOf(env)
            && StepsOf(s.out) == FinalSteps(env)
            && DeltasOf(s.out) == FinalDeltas(env)
            && CallsOf(s.out) == FinalCalls(env)
            && EndingsOf(s.out) == EndingsAt(EndOf(env))
            && s.marks == FinalMarks(env)
  {
    RunKeepsInv(env, schedule);
    RunKeepsCause(env, schedule);
    RunKeepsCalls(env, schedule);
    var s := Run(env, schedule);
    EndIs(env, s);
    CallsOfEnd(env, s);
    MarksOfEnd(env, s);
    DeltasOfEnd(env, s);
    if Failing(s.pc) {
      HandlerSteps(env, s);
    } else {
      SuccessYieldsAnswerIff(env, schedule);
    }
  }

  lemma {:induction false} EndIs(env: Env, s: State)
    requires Over(s.pc) && !s.pc.Closed? && CauseInv(env, s)
    ensures s.pc == EndOf(env)
  {
  }

  lemma {:induction false} CallsOfEnd(env: Env, s: State)
    requires Over(s.pc) && !s.pc.Closed? && CauseInv(env, s) && CallsInv(env, s)
    ensures CallsOf(s.out) == FinalCalls(env)
  {
  }

  lemma {:induction false} MarksOfEnd(env: Env, s: State)
    requires Over(s.pc) && !s.pc.Closed? && CauseInv(env, s) && PhaseInv(env, s) && MarksInv(env, s)
    ensures s.marks == FinalMarks(env)
  {
  }

  lemma {:induction false} DeltasOfEnd(env: Env, s: State)
    requires Over(s.pc) && !s.pc.Closed? && CauseInv(env, s) && PhaseInv(env, s)
    requires WorkInv(env, s.work) && DeltaQueueInv(env, s) && DeltasInv(env, s)
    ensures DeltasOf(s.out) == FinalDeltas(env)
  {
  }

  /** A failing run yields each logged step once if and only if nothing is logged, the user message or the
      preparation raises, or the runner's output is good and it is the writing of the answer that raises. */
  lemma {:induction false} StepsGoOutOnceIff(env: Env, schedule: seq<Action>)
    requires var pc := Run(env, schedule).pc; Reported(pc) || pc.Escaped?
    ensures StepsOf(Run(env, schedule).out) == StepsOnce(env)
            <==> AllSteps(env) == [] || CauseOf(env).Early? || CauseOf(env).OnWriting?
  {
    RunKeepsInv(env, schedule);
    RunKeepsCause(env, schedule);
    HandlerSteps(env, Run(env, schedule));
    if CauseOf(env).OnOutput? {
      assert |FinalSteps(env)| == |StepsOnce(env)| + |AllSteps(env)|;
    }
  }
}
