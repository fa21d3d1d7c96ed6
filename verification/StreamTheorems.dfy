/** What every run of the chat stream guarantees. */
module StreamTheorems {
  import opened Options
  import opened StreamInvariants
  import opened StreamProtocol
  import opened StreamShape
  import opened StreamSteps
  import opened Text

  // -- Delivery --

  /** Whatever the interleaving, a stream that is past its loop without a close has yielded every
      delta of the runner once and in order and every retrieval step once and in order, and the
      result holder is filled. */
  lemma {:induction false} LoopDeliversEverything(env: Env, schedule: seq<Action>)
    ensures var s := Run(env, schedule);
            Finishing(s.pc) || s.pc.Ended? || (Failing(s.pc) && !s.work.phase.Idle?) ==>
              && s.parts == AllTexts(env)
              && s.work.log == AllSteps(env)
              && s.work.holder == Some(env.outcome)
              && AllTexts(env) <= DeltasOf(s.out)
              && Intro(env) + AllSteps(env) <= StepsOf(s.out)
  {
    RunKeepsInv(env, schedule);
  }

  /** Closed or not, no run streams anything but the runner's deltas in order and, once they are all
      out, what is left of the answer. */
  lemma {:induction false} DeltasAreAPrefix(env: Env, schedule: seq<Action>)
    ensures DeltasOf(Run(env, schedule).out) <= AllTexts(env) + Rest(env, AllTexts(env))
  {
    RunKeepsInv(env, schedule);
  }

  lemma {:induction false} ClosingDeltaCompletes(env: Env, parts: seq<string>)
    ensures Concat(parts + Rest(env, parts)) == env.answer <==> Concat(parts) <= env.answer
  {
    ConcatAppend(parts, Rest(env, parts));
    var rest := ClosingDelta(env.answer, Concat(parts));
    assert Rest(env, parts) == [rest] ==> Concat(Rest(env, parts)) == rest + Concat([]);
  }

  /** A run that reaches the final event has yielded the context step, the opening of the answer, every
      logged step once and the closing of the answer, and every tool call once; and its deltas spell the
      answer if and only if the sanitised answer extends what was streamed. */
  lemma {:induction false} SuccessYieldsAnswerIff(env: Env, schedule: seq<Action>)
    requires Succeeding(Run(env, schedule).pc)
    ensures var out := Run(env, schedule).out;
            && StepsOf(out) == Intro(env) + AllSteps(env) + [env.answerDone]
            && CallsOf(out) == env.toolCalls
            && EndingsOf(out) == [FinalEvent] && out != [] && out[|out| - 1] == FinalEvent
            && (Concat(DeltasOf(out)) == env.answer <==> Concat(AllTexts(env)) <= env.answer)
            && (!(Concat(AllTexts(env)) < env.answer) ==> DeltasOf(out) == AllTexts(env))
  {
    RunKeepsInv(env, schedule);
    RunKeepsCalls(env, schedule);
    ClosingDeltaCompletes(env, AllTexts(env));
  }

  /** A failing run ends in one error event. It repeats every step it has already streamed live,
      unless the steps had been flushed; so it yields each of them once only if it fails before the
      runner or after the flush. */
  lemma {:induction false} FailureRepeatsSteps(env: Env, schedule: seq<Action>)
    requires Reported(Run(env, schedule).pc)
    ensures var s := Run(env, schedule);
            && EndingsOf(s.out) == [ErrorEvent] && s.out != [] && s.out[|s.out| - 1] == ErrorEvent
            && StepsOf(s.out) == (if s.flushed then Intro(env) + AllSteps(env) + [env.answerDone]
                                  else if s.work.phase.Idle? then []
                                  else Intro(env) + AllSteps(env) + AllSteps(env)) + [env.answerError]
  {
    RunKeepsInv(env, schedule);
    FailureSteps(env, Run(env, schedule));
  }

  lemma {:induction false} FailureSteps(env: Env, s: State)
    requires WorkInv(env, s.work) && PhaseInv(env, s) && CursorInv(s) && StepsInv(env, s) && Reported(s.pc)
    ensures StepsOf(s.out) == (if s.flushed then Intro(env) + AllSteps(env) + [env.answerDone]
                               else if s.work.phase.Idle? then []
                               else Intro(env) + AllSteps(env) + AllSteps(env)) + [env.answerError]
  {
    if s.flushed {
      assert BeforeFailure(env, s.work, s.flushed) + [] == BeforeFailure(env, s.work, s.flushed);
    } else if s.work.phase.Idle? {
      assert s.work.log == [];
    }
  }

  /** With a session whose user message was recorded, session_started is the first event of every
      stream that started, and no other event is one. */
  lemma {:induction false} SessionStartedFirst(env: Env, schedule: seq<Action>)
    ensures var s := Run(env, schedule);
            && (env.session && RecordUser !in env.fails && !Place(s).Begin? ==>
                  s.out != [] && s.out[0] == SessionStarted)
            && (forall i :: 0 < i < |s.out| ==> s.out[i] != SessionStarted)
  {
    RunKeepsInv(env, schedule);
  }

  // -- The audit log --

  predicate Terminal(m: AuditMark)
  {
    m.Succeeded? || m.Failed? || m.Cancelled?
  }

  function Terminals(marks: seq<AuditMark>): nat
  {
    if marks == [] then 0 else (if Terminal(marks[0]) then 1 else 0) + Terminals(marks[1..])
  }

  function Usages(marks: seq<AuditMark>): nat
  {
    if marks == [] then 0 else (if marks[0].UsageWritten? then 1 else 0) + Usages(marks[1..])
  }

  lemma {:induction false} CountsAdd(a: seq<AuditMark>, b: seq<AuditMark>)
    ensures Terminals(a + b) == Terminals(a) + Terminals(b) && Usages(a + b) == Usages(a) + Usages(b)
    decreases |a|
  {
    if a == [] {
      assert a + b == b;
    } else {
      assert (a + b)[1..] == a[1..] + b;
      CountsAdd(a[1..], b);
    }
  }

  lemma {:induction false} CountsOfShort(marks: seq<AuditMark>)
    requires |marks| <= 3
    ensures Terminals(marks) == (if |marks| > 0 && Terminal(marks[0]) then 1 else 0)
                                + (if |marks| > 1 && Terminal(marks[1]) then 1 else 0)
                                + (if |marks| > 2 && Terminal(marks[2]) then 1 else 0)
    ensures Usages(marks) == (if |marks| > 0 && marks[0].UsageWritten? then 1 else 0)
                             + (if |marks| > 1 && marks[1].UsageWritten? then 1 else 0)
                             + (if |marks| > 2 && marks[2].UsageWritten? then 1 else 0)
  {
    if marks != [] {
      CountsOfShort(marks[1..]);
    }
  }

  lemma {:induction false} CountsBeforeFailure(env: Env, flushed: bool)
    ensures Terminals(MarksBeforeFailure(env, flushed)) == 0
    ensures Usages(MarksBeforeFailure(env, flushed)) == if UsageBeforeFailure(env, flushed) then 1 else 0
  {
    var kept := if flushed && RecordAssistant !in env.fails then [AssistantMark(env), UsageWritten] else [];
    CountsOfShort(UserMark(env));
    CountsOfShort(kept);
    CountsAdd(UserMark(env), kept);
  }

  lemma {:induction false} CountsFailing(env: Env, flushed: bool)
    ensures Usages(MarksBy(env, Lost, flushed)) == 1 && Terminals(MarksBy(env, Lost, flushed)) == 0
    ensures Usages(MarksBy(env, Written, flushed)) == 1 && Terminals(MarksBy(env, Written, flushed)) == 1
  {
    var usage := if UsageBeforeFailure(env, flushed) then [] else [UsageWritten];
    var before := MarksBeforeFailure(env, flushed);
    CountsBeforeFailure(env, flushed);
    CountsOfShort(usage);
    CountsOfShort([Failed]);
    CountsAdd(before, usage);
    CountsAdd(before + usage, [Failed]);
  }

  lemma {:induction false} CountsCompleted(env: Env)
    ensures var marks := UserMark(env) + [AssistantMark(env), UsageWritten, Succeeded];
            Usages(marks) == 1 && Terminals(marks) == 1
  {
    var done := [AssistantMark(env), UsageWritten, Succeeded];
    CountsOfShort(UserMark(env));
    CountsOfShort(done);
    CountsAdd(UserMark(env), done);
  }

  lemma {:induction false} CountsBy(env: Env, stage: Stage, flushed: bool)
    ensures Usages(MarksBy(env, stage, flushed)) == if UsageBy(env, stage, flushed) then 1 else 0
    ensures Terminals(MarksBy(env, stage, flushed)) == if stage.Completed? || stage.Written? then 1 else 0
  {
    match stage
    case NotBegun =>
    case Body => CountsOfShort(UserMark(env));
    case Completed => CountsCompleted(env);
    case Handling => CountsBeforeFailure(env, flushed);
    case Written => CountsFailing(env, flushed);
    case Lost => CountsFailing(env, flushed);
  }

  /** The counts of a log that a close may have completed. */
  lemma {:induction false} CountsOfRun(env: Env, s: State)
    requires env.session && MarksInv(env, s) && ClosedInv(s)
    ensures var stage := StageOf(Place(s));
            var closing := if s.pc.Closed? then CloseMarks(env, Place(s)) else [];
            && Usages(s.marks) == (if UsageBy(env, stage, s.flushed) then 1 else 0) + Usages(closing)
            && Terminals(s.marks)
               == (if stage.Completed? || stage.Written? then 1 else 0) + (if closing != [] then 1 else 0)
  {
    var c := Place(s);
    CountsBy(env, StageOf(c), s.flushed);
    CountsOfShort(CloseMarks(env, c));
    CountsAdd(MarksAt(env, c, s.flushed), CloseMarks(env, c));
  }

  /** Provider usage is written at most once, closed or not. */
  lemma {:induction false} UsageAtMostOnce(env: Env, schedule: seq<Action>)
    ensures Usages(Run(env, schedule).marks) <= 1
  {
    var s := Run(env, schedule);
    RunKeepsInv(env, schedule);
    if env.session {
      CountsOfRun(env, s);
      CountsOfShort(CloseMarks(env, Place(s)));
    }
  }

  /** The terminal marks of a run that is over. Exactly one, if and only if the generator ended, or
      was closed after it started, before the final event was consumed, and not inside the failure
      handler before its error event. A close at the final event cancels after success. */
  lemma {:induction false} OneTerminalMarkIff(env: Env, schedule: seq<Action>)
    requires env.session && Over(Run(env, schedule).pc)
    ensures var s := Run(env, schedule);
            var c := Place(s);
            && (Terminals(s.marks) == 1 <==>
                  !s.pc.Escaped? && !(s.pc.Closed? && (c.Begin? || c.AfterFinal? || (InHandler(c) && !c.AfterError?))))
            && (s.pc.Closed? && c.AfterFinal? ==>
                  Succeeded in s.marks && Cancelled in s.marks && Terminals(s.marks) == 2)
            && (s.pc.Escaped? || (s.pc.Closed? && (c.Begin? || (InHandler(c) && !c.AfterError?))) ==>
                  Terminals(s.marks) == 0)
  {
    RunKeepsInv(env, schedule);
    TerminalsOfRun(env, Run(env, schedule));
    if Run(env, schedule).pc.Closed? && Place(Run(env, schedule)).AfterFinal? {
      BothMarksOfFinal(env, Run(env, schedule));
    }
  }

  lemma {:induction false} TerminalsOfRun(env: Env, s: State)
    requires env.session && MarksInv(env, s) && ClosedInv(s) && Over(s.pc)
    ensures var c := Place(s);
            && (Terminals(s.marks) == 1 <==>
                  !s.pc.Escaped? && !(s.pc.Closed? && (c.Begin? || c.AfterFinal? || (InHandler(c) && !c.AfterError?))))
            && (s.pc.Closed? && c.AfterFinal? ==> Terminals(s.marks) == 2)
            && (s.pc.Escaped? || (s.pc.Closed? && (c.Begin? || (InHandler(c) && !c.AfterError?))) ==>
                  Terminals(s.marks) == 0)
  {
    var stage := StageOf(Place(s));
    CountsOfRun(env, s);
    if s.pc.Closed? {
      assert !Place(s).AtErrorEvent? && !Place(s).AtFinal? && !Over(Place(s));
      assert stage.Completed? <==> Place(s).AfterFinal?;
      assert stage.Written? <==> Place(s).AfterError?;
      assert CloseMarks(env, Place(s)) == [] <==> Place(s).Begin? || InHandler(Place(s));
    }
  }

  lemma {:induction false} BothMarksOfFinal(env: Env, s: State)
    requires env.session && MarksInv(env, s) && s.pc.Closed? && Place(s).AfterFinal?
    ensures Succeeded in s.marks && Cancelled in s.marks
  {
    assert s.marks == UserMark(env) + [AssistantMark(env), UsageWritten, Succeeded] + [Cancelled];
  }

  /** What a run leaves in the audit log, by how it ended. A close anywhere in the body cancels, and
      nothing comes after the cancel; only a close at the final event finds the success written. */
  lemma {:induction false} TerminalMarkTellsTheEnding(env: Env, schedule: seq<Action>)
    requires env.session
    ensures var s := Run(env, schedule);
            && (s.pc.Ended? ==> s.marks == UserMark(env) + [AssistantMark(env), UsageWritten, Succeeded])
            && (s.pc.EndedWithError? ==> s.marks != [] && s.marks[|s.marks| - 1] == Failed)
            && (s.pc.Closed? && !Place(s).Begin? && !InHandler(Place(s)) ==>
                  s.marks == if Place(s).AfterFinal?
                             then UserMark(env) + [AssistantMark(env), UsageWritten, Succeeded, Cancelled]
                             else UserMark(env) + [UsageWritten, Cancelled])
  {
    RunKeepsInv(env, schedule);
    MarksOfEndings(env, Run(env, schedule));
  }

  lemma {:induction false} MarksOfEndings(env: Env, s: State)
    requires env.session && MarksInv(env, s) && ClosedInv(s)
    ensures s.pc.Ended? ==> s.marks == UserMark(env) + [AssistantMark(env), UsageWritten, Succeeded]
    ensures s.pc.EndedWithError? ==> s.marks != [] && s.marks[|s.marks| - 1] == Failed
    ensures s.pc.Closed? && !Place(s).Begin? && !InHandler(Place(s)) ==>
              s.marks == if Place(s).AfterFinal?
                         then UserMark(env) + [AssistantMark(env), UsageWritten, Succeeded, Cancelled]
                         else UserMark(env) + [UsageWritten, Cancelled]
  {
    if s.pc.Closed? && !Place(s).Begin? && !InHandler(Place(s)) {
      assert s.marks == MarksAt(env, Place(s), s.flushed) + CloseMarks(env, Place(s));
    }
  }
}
