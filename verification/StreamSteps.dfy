/** Every step of the chat stream, the worker's, the generator's and the consumer's close, keeps the
    invariants; so they hold after every schedule. */
module StreamSteps {
  import opened ChatSteps
  import opened Options
  import opened StreamInvariants
  import opened StreamProtocol

  // -- Queues --

  lemma {:induction false} TextsSnoc(q: seq<Option<string>>, e: Option<string>)
    ensures Texts(q + [e]) == Texts(q) + (if e.Some? then [e.value] else [])
    decreases |q|
  {
    if q == [] {
      assert q + [e] == [e];
    } else {
      assert (q + [e])[1..] == q[1..] + [e];
      TextsSnoc(q[1..], e);
    }
  }

  // -- The worker --

  lemma {:induction false} WorkerKeepsWork(env: Env, s: State)
    requires WorkInv(env, s.work) && WorkerEnabled(s)
    ensures WorkInv(env, WorkerStep(env, s).work)
  {
  }

  lemma {:induction false} WorkerKeepsPhase(env: Env, s: State)
    requires WorkInv(env, s.work) && PhaseInv(env, s) && CursorInv(s) && WorkerEnabled(s)
    ensures PhaseInv(env, WorkerStep(env, s)) && CursorInv(WorkerStep(env, s))
  {
  }

  /** The step that reaches the sink is the last one logged. */
  lemma {:induction false} SinkGrows(env: Env, w: Work)
    requires WorkInv(env, w) && w.pending.Some?
    ensures Sunk(WorkStep(env, w)) == Sunk(w) + [w.pending.value]
  {
  }

  lemma {:induction false} WorkerKeepsStepQueue(env: Env, s: State)
    requires WorkInv(env, s.work) && PhaseInv(env, s) && StepQueueInv(s) && WorkerEnabled(s)
    ensures StepQueueInv(WorkerStep(env, s))
  {
    var t := WorkerStep(env, s);
    if InLoop(s.pc) || Draining(s.pc) {
      if s.work.pending.Some? {
        SinkGrows(env, s.work);
      } else {
        assert t.stepQ == s.stepQ && Sunk(t.work) == Sunk(s.work);
      }
    }
  }

  /** What the worker puts is what its step adds to the program's texts. */
  lemma {:induction false} PutsAreTexts(env: Env, w: Work)
    requires WorkInv(env, w)
    ensures w.pos <= WorkStep(env, w).pos <= |env.program|
    ensures TextsIn(env.program, WorkStep(env, w).pos) == TextsIn(env.program, w.pos) + Texts(Puts(env, w))
  {
    TextsSnoc([], if Puts(env, w) == [] then None else Puts(env, w)[0]);
  }

  lemma {:induction false} TextsOfPuts(q: seq<Option<string>>, puts: seq<Option<string>>)
    requires |puts| <= 1
    ensures Texts(q + puts) == Texts(q) + Texts(puts)
  {
    if puts == [] {
      assert q + puts == q;
    } else {
      assert q + puts == q + [puts[0]];
      TextsSnoc(q, puts[0]);
    }
  }

  lemma {:induction false} WorkerKeepsDeltaQueue(env: Env, s: State)
    requires WorkInv(env, s.work) && PhaseInv(env, s) && DeltaQueueInv(env, s) && WorkerEnabled(s)
    ensures WorkInv(env, WorkerStep(env, s).work) && DeltaQueueInv(env, WorkerStep(env, s))
  {
    WorkerKeepsWork(env, s);
    PutsAreTexts(env, s.work);
    TextsOfPuts(s.deltaQ, Puts(env, s.work));
  }

  lemma {:induction false} WorkerKeepsOutput(env: Env, s: State)
    requires WorkInv(env, s.work) && PhaseInv(env, s) && CursorInv(s) && WorkerEnabled(s)
    requires StepsInv(env, s) && CursorInv(WorkerStep(env, s))
    ensures StepsInv(env, WorkerStep(env, s))
  {
    var t := WorkerStep(env, s);
    if InLoop(s.pc) || Draining(s.pc) {
      assert t.work.log[..s.live] == s.work.log[..s.live];
    }
  }

  lemma {:induction false} WorkerKeepsYields(env: Env, s: State)
    requires DeltasInv(env, s) && ClosedInv(s) && PartsInv(env, s) && EndingInv(s) && LastInv(s) && WorkerEnabled(s)
    ensures var t := WorkerStep(env, s);
            DeltasInv(env, t) && ClosedInv(t) && PartsInv(env, t) && EndingInv(t) && LastInv(t)
  {
  }

  lemma {:induction false} WorkerKeepsMarks(env: Env, s: State)
    requires OpeningInv(env, s) && MarksInv(env, s) && WorkerEnabled(s)
    ensures OpeningInv(env, WorkerStep(env, s)) && MarksInv(env, WorkerStep(env, s))
  {
  }

  lemma {:induction false} WorkerKeeps(env: Env, s: State)
    requires Inv(env, s) && WorkerEnabled(s)
    ensures Inv(env, WorkerStep(env, s))
  {
    WorkerKeepsWork(env, s);
    WorkerKeepsPhase(env, s);
    WorkerKeepsStepQueue(env, s);
    WorkerKeepsDeltaQueue(env, s);
    WorkerKeepsOutput(env, s);
    WorkerKeepsYields(env, s);
    WorkerKeepsMarks(env, s);
  }

  // -- The generator --

  function Yielded(env: Env, s: State): seq<string>
  {
    DeltasAt(env, s.pc, s.flushed, s.parts)
  }

  lemma {:induction false} MainKeepsWork(env: Env, s: State, due: bool)
    requires WorkInv(env, s.work) && PhaseInv(env, s) && MainEnabled(s)
    ensures WorkInv(env, MainStep(env, s, due).work)
  {
  }

  lemma {:induction false} MainKeepsCursor(env: Env, s: State, due: bool)
    requires WorkInv(env, s.work) && PhaseInv(env, s) && StepQueueInv(s) && CursorInv(s) && MainEnabled(s)
    ensures CursorInv(MainStep(env, s, due))
  {
  }

  lemma {:induction false} BeginKeepsOpening(env: Env, s: State, due: bool)
    requires OpeningInv(env, s) && s.pc.Begin?
    ensures OpeningInv(env, MainStep(env, s, due))
  {
  }

  lemma {:induction false} AnnouncesOnlyAtBegin(env: Env, s: State, due: bool)
    requires MainEnabled(s) && !s.pc.Begin?
    ensures SessionStarted !in MainMove(env, s, due).emit && !MainMove(env, s, due).next.Begin?
    ensures !MainMove(env, s, due).next.Closed?
  {
  }

  lemma {:induction false} LaterKeepsOpening(env: Env, s: State, due: bool)
    requires OpeningInv(env, s) && MainEnabled(s) && !s.pc.Begin?
    ensures OpeningInv(env, MainStep(env, s, due))
  {
    AnnouncesOnlyAtBegin(env, s, due);
  }

  lemma {:induction false} StartKeepsPhase(env: Env, s: State, due: bool)
    requires WorkInv(env, s.work) && PhaseInv(env, s)
    requires Starting(s.pc)
    ensures PhaseInv(env, MainStep(env, s, due))
  {
  }

  lemma {:induction false} StartKeepsStepQueue(env: Env, s: State, due: bool)
    requires WorkInv(env, s.work) && PhaseInv(env, s) && StepQueueInv(s)
    requires Starting(s.pc)
    ensures StepQueueInv(MainStep(env, s, due))
  {
  }

  lemma {:induction false} StartKeepsDeltaQueue(env: Env, s: State, due: bool)
    requires WorkInv(env, s.work) && PhaseInv(env, s) && DeltaQueueInv(env, s)
    requires Starting(s.pc)
    ensures MainStep(env, s, due).work.pos <= |env.program| && DeltaQueueInv(env, MainStep(env, s, due))
  {
  }

  lemma {:induction false} StartYieldsSteps(env: Env, s: State, due: bool)
    requires WorkInv(env, s.work) && PhaseInv(env, s) && StepQueueInv(s) && CursorInv(s)
    requires Starting(s.pc)
    requires CursorInv(MainStep(env, s, due))
    ensures StepsAt(env, MainStep(env, s, due)) == WithStep(StepsAt(env, s), MainMove(env, s, due).emit)
  {
  }

  lemma {:induction false} StartYieldsDeltas(env: Env, s: State, due: bool)
    requires WorkInv(env, s.work) && PhaseInv(env, s)
    requires Starting(s.pc)
    ensures Yielded(env, MainStep(env, s, due)) == WithDelta(Yielded(env, s), MainMove(env, s, due).emit)
  {
  }

  lemma {:induction false} StartYieldsEnding(env: Env, s: State, due: bool)
    requires Starting(s.pc)
    ensures EndingsAt(MainStep(env, s, due).pc) == WithEnding(EndingsAt(s.pc), MainMove(env, s, due).emit)
  {
  }

  /** From the loop the generator goes on in the loop, or to the draining once the worker is done. */
  lemma {:induction false} LoopMoves(env: Env, s: State, due: bool)
    requires InLoop(s.pc)
    ensures var m := MainMove(env, s, due);
            || InLoop(m.next)
            || (m.next.DrainSteps1?
                && (s.work.phase.Finished? || (s.deltaQ != [] && s.deltaQ[0].None?)))
  {
  }

  lemma {:induction false} MarkerMeansDone(env: Env, s: State)
    requires WorkInv(env, s.work) && PhaseInv(env, s) && DeltaQueueInv(env, s)
    requires InLoop(s.pc) && s.deltaQ != [] && s.deltaQ[0].None?
    ensures s.work.phase.SignalPut? || s.work.phase.Finished?
  {
    assert |s.deltaQ| == 1;
  }

  lemma {:induction false} LoopKeepsPhase(env: Env, s: State, due: bool)
    requires WorkInv(env, s.work) && PhaseInv(env, s) && DeltaQueueInv(env, s)
    requires InLoop(s.pc)
    ensures PhaseInv(env, MainStep(env, s, due))
  {
    var t := MainStep(env, s, due);
    LoopMoves(env, s, due);
    if s.deltaQ != [] && s.deltaQ[0].None? {
      MarkerMeansDone(env, s);
    }
    assert t.pc == MainMove(env, s, due).next && t.work == s.work && t.flushed == s.flushed;
    assert InLoop(t.pc) ==> t.sink;
  }

  lemma {:induction false} LoopKeepsStepQueue(env: Env, s: State, due: bool)
    requires WorkInv(env, s.work) && PhaseInv(env, s) && StepQueueInv(s)
    requires InLoop(s.pc)
    ensures StepQueueInv(MainStep(env, s, due))
  {
    var t := MainStep(env, s, due);
    LoopMoves(env, s, due);
    assert t.pc == MainMove(env, s, due).next && t.work == s.work;
    if TakesStep(s) {
      assert t.live == s.live + 1 && t.stepQ == s.stepQ[1..];
      assert Sunk(s.work)[s.live..][1..] == Sunk(s.work)[s.live + 1..];
    } else {
      assert t.live == s.live && t.stepQ == s.stepQ;
    }
  }

  /** Taking a delta moves it from the queue to the parts. */
  lemma {:induction false} DeltaTaken(parts: seq<string>, q: seq<Option<string>>)
    requires q != [] && MarkerLast(q)
    ensures MarkerLast(q[1..]) && (q[0].None? ==> q[1..] == [])
    ensures q[0].Some? ==> parts + [q[0].value] + Texts(q[1..]) == parts + Texts(q)
    ensures q[0].None? ==> Texts(q) == [] && Texts(q[1..]) == []
    ensures q[0].Some? ==> (EndsWithMarker(q[1..]) <==> EndsWithMarker(q))
  {
    if q[0].Some? {
      assert parts + [q[0].value] + Texts(q[1..]) == parts + ([q[0].value] + Texts(q[1..]));
      if |q| > 1 {
        assert q[1..][|q| - 2] == q[|q| - 1];
      }
    } else {
      assert |q| == 1;
    }
  }

  lemma {:induction false} LoopGetKeepsDeltaQueue(env: Env, s: State, due: bool)
    requires WorkInv(env, s.work) && PhaseInv(env, s) && DeltaQueueInv(env, s)
    requires s.pc.LoopGet?
    ensures MainStep(env, s, due).work.pos <= |env.program| && DeltaQueueInv(env, MainStep(env, s, due))
  {
    if s.deltaQ != [] {
      DeltaTaken(s.parts, s.deltaQ);
    }
  }

  lemma {:induction false} LoopKeepsDeltaQueue(env: Env, s: State, due: bool)
    requires WorkInv(env, s.work) && PhaseInv(env, s) && DeltaQueueInv(env, s)
    requires InLoop(s.pc) && !s.pc.LoopGet?
    ensures MainStep(env, s, due).work.pos <= |env.program| && DeltaQueueInv(env, MainStep(env, s, due))
  {
  }

  lemma {:induction false} PrefixGrows(a: seq<ChatStep>, b: seq<ChatStep>, k: nat)
    requires k < |b|
    ensures a + b[..k + 1] == a + b[..k] + [b[k]]
  {
  }

  lemma {:induction false} TakenStepIsNext(env: Env, s: State)
    requires s.live <= |Sunk(s.work)| && s.stepQ == Sunk(s.work)[s.live..] && s.stepQ != []
    ensures s.live < |s.work.log|
    ensures Intro(env) + s.work.log[..s.live + 1] == Intro(env) + s.work.log[..s.live] + [s.stepQ[0]]
  {
    assert s.stepQ[0] == s.work.log[s.live];
    PrefixGrows(Intro(env), s.work.log, s.live);
  }

  lemma {:induction false} LoopStays(s: State, due: bool)
    requires (InLoop(s.pc) || Draining(s.pc)) && !s.pc.Join?
    ensures var next := RunnerMove(s, due).next; InLoop(next) || Draining(next)
  {
  }

  lemma {:induction false} LoopYieldsSteps(env: Env, s: State, due: bool)
    requires WorkInv(env, s.work) && PhaseInv(env, s) && StepQueueInv(s) && CursorInv(s)
    requires InLoop(s.pc)
    requires CursorInv(MainStep(env, s, due))
    ensures StepsAt(env, MainStep(env, s, due)) == WithStep(StepsAt(env, s), MainMove(env, s, due).emit)
  {
    if TakesStep(s) {
      TakenStepIsNext(env, s);
      assert MainMove(env, s, due) == Yield(StepEvent(s.stepQ[0]), s.pc);
      assert MainStep(env, s, due).live == s.live + 1;
    } else {
      LoopTakesNothing(env, s, due);
    }
  }

  lemma {:induction false} LoopTakesNothing(env: Env, s: State, due: bool)
    requires WorkInv(env, s.work) && PhaseInv(env, s) && InLoop(s.pc) && !TakesStep(s)
    ensures var t, emit := MainStep(env, s, due), MainMove(env, s, due).emit;
            && (InLoop(t.pc) || Draining(t.pc)) && t.live == s.live && t.work == s.work
            && (emit == [] || !emit[0].StepEvent?)
  {
  }

  lemma {:induction false} LoopYieldsDeltas(env: Env, s: State, due: bool)
    requires WorkInv(env, s.work) && PhaseInv(env, s)
    requires InLoop(s.pc)
    ensures Yielded(env, MainStep(env, s, due)) == WithDelta(Yielded(env, s), MainMove(env, s, due).emit)
  {
  }

  lemma {:induction false} LoopYieldsEnding(env: Env, s: State, due: bool)
    requires InLoop(s.pc)
    ensures EndingsAt(MainStep(env, s, due).pc) == WithEnding(EndingsAt(s.pc), MainMove(env, s, due).emit)
  {
  }

  lemma {:induction false} DrainKeepsPhase(env: Env, s: State, due: bool)
    requires WorkInv(env, s.work) && PhaseInv(env, s) && DeltaQueueInv(env, s)
    requires Draining(s.pc) && MainEnabled(s)
    ensures PhaseInv(env, MainStep(env, s, due))
  {
  }

  lemma {:induction false} DrainKeepsStepQueue(env: Env, s: State, due: bool)
    requires WorkInv(env, s.work) && PhaseInv(env, s) && StepQueueInv(s)
    requires Draining(s.pc) && MainEnabled(s)
    ensures StepQueueInv(MainStep(env, s, due))
  {
  }

  lemma {:induction false} DrainDeltasKeepsDeltaQueue(env: Env, s: State, due: bool)
    requires WorkInv(env, s.work) && PhaseInv(env, s) && DeltaQueueInv(env, s)
    requires s.pc.DrainDeltas?
    ensures MainStep(env, s, due).work.pos <= |env.program| && DeltaQueueInv(env, MainStep(env, s, due))
  {
    if s.deltaQ != [] {
      DeltaTaken(s.parts, s.deltaQ);
    }
  }

  lemma {:induction false} DrainKeepsDeltaQueue(env: Env, s: State, due: bool)
    requires WorkInv(env, s.work) && PhaseInv(env, s) && DeltaQueueInv(env, s)
    requires Draining(s.pc) && !s.pc.DrainDeltas? && MainEnabled(s)
    ensures MainStep(env, s, due).work.pos <= |env.program| && DeltaQueueInv(env, MainStep(env, s, due))
  {
  }

  lemma {:induction false} DrainYieldsSteps(env: Env, s: State, due: bool)
    requires WorkInv(env, s.work) && PhaseInv(env, s) && StepQueueInv(s) && CursorInv(s)
    requires Draining(s.pc) && MainEnabled(s)
    requires CursorInv(MainStep(env, s, due))
    ensures StepsAt(env, MainStep(env, s, due)) == WithStep(StepsAt(env, s), MainMove(env, s, due).emit)
  {
    if TakesStep(s) {
      TakenStepIsNext(env, s);
    } else if s.pc.Join? {
      assert s.work.log[..s.live] == s.work.log;
    }
  }

  lemma {:induction false} DrainYieldsDeltas(env: Env, s: State, due: bool)
    requires WorkInv(env, s.work) && PhaseInv(env, s)
    requires Draining(s.pc) && MainEnabled(s)
    ensures Yielded(env, MainStep(env, s, due)) == WithDelta(Yielded(env, s), MainMove(env, s, due).emit)
  {
  }

  lemma {:induction false} DrainYieldsEnding(env: Env, s: State, due: bool)
    requires Draining(s.pc) && MainEnabled(s)
    ensures EndingsAt(MainStep(env, s, due).pc) == WithEnding(EndingsAt(s.pc), MainMove(env, s, due).emit)
  {
  }

  lemma {:induction false} FinishKeepsPhase(env: Env, s: State, due: bool)
    requires WorkInv(env, s.work) && PhaseInv(env, s)
    requires Finishing(s.pc)
    ensures PhaseInv(env, MainStep(env, s, due))
  {
  }

  lemma {:induction false} FinishKeepsStepQueue(env: Env, s: State, due: bool)
    requires WorkInv(env, s.work) && PhaseInv(env, s) && StepQueueInv(s)
    requires Finishing(s.pc)
    ensures StepQueueInv(MainStep(env, s, due))
  {
  }

  lemma {:induction false} FinishKeepsDeltaQueue(env: Env, s: State, due: bool)
    requires WorkInv(env, s.work) && PhaseInv(env, s) && DeltaQueueInv(env, s)
    requires Finishing(s.pc)
    ensures MainStep(env, s, due).work.pos <= |env.program| && DeltaQueueInv(env, MainStep(env, s, due))
  {
  }

  lemma {:induction false} EarlyFinishYieldsSteps(env: Env, s: State, due: bool)
    requires WorkInv(env, s.work) && PhaseInv(env, s) && StepQueueInv(s) && CursorInv(s)
    requires s.pc.AtFinish? || s.pc.FlushSteps?
    requires CursorInv(MainStep(env, s, due))
    ensures StepsAt(env, MainStep(env, s, due)) == WithStep(StepsAt(env, s), MainMove(env, s, due).emit)
  {
  }

  lemma {:induction false} AnswerDoneYieldsStep(env: Env, s: State, due: bool)
    requires WorkInv(env, s.work) && PhaseInv(env, s) && StepQueueInv(s) && CursorInv(s)
    requires s.pc.AtAnswerDone?
    requires CursorInv(MainStep(env, s, due))
    ensures StepsAt(env, MainStep(env, s, due)) == WithStep(StepsAt(env, s), MainMove(env, s, due).emit)
  {
  }

  lemma {:induction false} LateFinishYieldsNoStep(env: Env, s: State, due: bool)
    requires WorkInv(env, s.work) && PhaseInv(env, s) && StepQueueInv(s) && CursorInv(s)
    requires Finishing(s.pc) && !s.pc.AtFinish? && !s.pc.FlushSteps? && !s.pc.AtAnswerDone?
    requires CursorInv(MainStep(env, s, due))
    ensures StepsAt(env, MainStep(env, s, due)) == WithStep(StepsAt(env, s), MainMove(env, s, due).emit)
  {
  }

  lemma {:induction false} FinishYieldsDeltas(env: Env, s: State, due: bool)
    requires WorkInv(env, s.work) && PhaseInv(env, s)
    requires Finishing(s.pc)
    ensures Yielded(env, MainStep(env, s, due)) == WithDelta(Yielded(env, s), MainMove(env, s, due).emit)
  {
  }

  lemma {:induction false} FinishYieldsEnding(env: Env, s: State, due: bool)
    requires Finishing(s.pc)
    ensures EndingsAt(MainStep(env, s, due).pc) == WithEnding(EndingsAt(s.pc), MainMove(env, s, due).emit)
  {
  }

  lemma {:induction false} FailKeepsPhase(env: Env, s: State, due: bool)
    requires WorkInv(env, s.work) && PhaseInv(env, s)
    requires InHandler(s.pc)
    ensures PhaseInv(env, MainStep(env, s, due))
  {
  }

  lemma {:induction false} FailKeepsStepQueue(env: Env, s: State, due: bool)
    requires WorkInv(env, s.work) && PhaseInv(env, s) && StepQueueInv(s)
    requires InHandler(s.pc)
    ensures StepQueueInv(MainStep(env, s, due))
  {
  }

  lemma {:induction false} FailKeepsDeltaQueue(env: Env, s: State, due: bool)
    requires WorkInv(env, s.work) && PhaseInv(env, s) && DeltaQueueInv(env, s)
    requires InHandler(s.pc)
    ensures MainStep(env, s, due).work.pos <= |env.program| && DeltaQueueInv(env, MainStep(env, s, due))
  {
  }

  lemma {:induction false} ReemitYieldsSteps(env: Env, s: State, due: bool)
    requires WorkInv(env, s.work) && PhaseInv(env, s) && StepQueueInv(s) && CursorInv(s)
    requires s.pc.Reemit?
    requires CursorInv(MainStep(env, s, due))
    ensures StepsAt(env, MainStep(env, s, due)) == WithStep(StepsAt(env, s), MainMove(env, s, due).emit)
  {
    if !s.flushed {
      if s.cursor < |s.work.log| {
        PrefixGrows(BeforeFailure(env, s.work, s.flushed), s.work.log, s.cursor);
      } else {
        assert s.work.log[..s.cursor] == s.work.log;
      }
    }
  }

  lemma {:induction false} ErrorStepYieldsSteps(env: Env, s: State, due: bool)
    requires WorkInv(env, s.work) && PhaseInv(env, s) && StepQueueInv(s) && CursorInv(s)
    requires s.pc.AtErrorStep?
    requires CursorInv(MainStep(env, s, due))
    ensures StepsAt(env, MainStep(env, s, due)) == WithStep(StepsAt(env, s), MainMove(env, s, due).emit)
  {
  }

  predicate PastErrorStep(pc: Pc)
  {
    pc.AtFailPersist? || pc.AtErrorEvent? || pc.AfterError? || pc.EndedWithError? || pc.Escaped?
  }

  lemma {:induction false} PastErrorMoves(env: Env, s: State, due: bool)
    requires PastErrorStep(s.pc) && MainEnabled(s)
    ensures var m := MainMove(env, s, due);
            PastErrorStep(m.next) && (m.emit == [] || !m.emit[0].StepEvent?)
  {
  }

  lemma {:induction false} StepsStay(env: Env, s: State, t: State)
    requires PastErrorStep(s.pc) && PastErrorStep(t.pc) && t.work == s.work && t.flushed == s.flushed
    ensures StepsAt(env, t) == StepsAt(env, s)
  {
    PastErrorSteps(env, s);
    PastErrorSteps(env, t);
  }

  lemma {:induction false} PastErrorSteps(env: Env, s: State)
    requires PastErrorStep(s.pc)
    ensures StepsAt(env, s) == AfterRepeat(env, s.work, s.flushed) + [env.answerError]
  {
  }

  lemma {:induction false} LateFailYieldsNoStep(env: Env, s: State, due: bool)
    requires PastErrorStep(s.pc) && MainEnabled(s) && CursorInv(MainStep(env, s, due))
    ensures StepsAt(env, MainStep(env, s, due)) == WithStep(StepsAt(env, s), MainMove(env, s, due).emit)
  {
    var t := MainStep(env, s, due);
    PastErrorMoves(env, s, due);
    assert t.pc == MainMove(env, s, due).next && t.work == s.work && t.flushed == s.flushed;
    StepsStay(env, s, t);
  }

  lemma {:induction false} FailYieldsDeltas(env: Env, s: State, due: bool)
    requires WorkInv(env, s.work) && PhaseInv(env, s)
    requires InHandler(s.pc)
    ensures Yielded(env, MainStep(env, s, due)) == WithDelta(Yielded(env, s), MainMove(env, s, due).emit)
  {
  }

  lemma {:induction false} FailYieldsEnding(env: Env, s: State, due: bool)
    requires InHandler(s.pc)
    ensures EndingsAt(MainStep(env, s, due).pc) == WithEnding(EndingsAt(s.pc), MainMove(env, s, due).emit)
  {
  }

  lemma {:induction false} MainKeepsPhase(env: Env, s: State, due: bool)
    requires WorkInv(env, s.work) && PhaseInv(env, s) && DeltaQueueInv(env, s) && MainEnabled(s)
    ensures PhaseInv(env, MainStep(env, s, due))
  {
    if Starting(s.pc) { StartKeepsPhase(env, s, due); }
    else if InLoop(s.pc) { LoopKeepsPhase(env, s, due); }
    else if Draining(s.pc) { DrainKeepsPhase(env, s, due); }
    else if Finishing(s.pc) { FinishKeepsPhase(env, s, due); }
    else { FailKeepsPhase(env, s, due); }
  }

  lemma {:induction false} MainKeepsStepQueue(env: Env, s: State, due: bool)
    requires WorkInv(env, s.work) && PhaseInv(env, s) && StepQueueInv(s) && MainEnabled(s)
    ensures StepQueueInv(MainStep(env, s, due))
  {
    if Starting(s.pc) { StartKeepsStepQueue(env, s, due); }
    else if InLoop(s.pc) { LoopKeepsStepQueue(env, s, due); }
    else if Draining(s.pc) { DrainKeepsStepQueue(env, s, due); }
    else if Finishing(s.pc) { FinishKeepsStepQueue(env, s, due); }
    else { FailKeepsStepQueue(env, s, due); }
  }

  lemma {:induction false} MainKeepsDeltaQueue(env: Env, s: State, due: bool)
    requires WorkInv(env, s.work) && PhaseInv(env, s) && DeltaQueueInv(env, s) && MainEnabled(s)
    requires WorkInv(env, MainStep(env, s, due).work)
    ensures DeltaQueueInv(env, MainStep(env, s, due))
  {
    if Starting(s.pc) { StartKeepsDeltaQueue(env, s, due); }
    else if s.pc.LoopGet? { LoopGetKeepsDeltaQueue(env, s, due); }
    else if InLoop(s.pc) { LoopKeepsDeltaQueue(env, s, due); }
    else if s.pc.DrainDeltas? { DrainDeltasKeepsDeltaQueue(env, s, due); }
    else if Draining(s.pc) { DrainKeepsDeltaQueue(env, s, due); }
    else if Finishing(s.pc) { FinishKeepsDeltaQueue(env, s, due); }
    else { FailKeepsDeltaQueue(env, s, due); }
  }

  lemma {:induction false} MainYieldsSteps(env: Env, s: State, due: bool)
    requires WorkInv(env, s.work) && PhaseInv(env, s) && StepQueueInv(s) && CursorInv(s) && MainEnabled(s)
    requires CursorInv(MainStep(env, s, due))
    ensures StepsAt(env, MainStep(env, s, due)) == WithStep(StepsAt(env, s), MainMove(env, s, due).emit)
  {
    if Starting(s.pc) { StartYieldsSteps(env, s, due); }
    else if InLoop(s.pc) { LoopYieldsSteps(env, s, due); }
    else if Draining(s.pc) { DrainYieldsSteps(env, s, due); }
    else if s.pc.AtFinish? || s.pc.FlushSteps? { EarlyFinishYieldsSteps(env, s, due); }
    else if s.pc.AtAnswerDone? { AnswerDoneYieldsStep(env, s, due); }
    else if Finishing(s.pc) { LateFinishYieldsNoStep(env, s, due); }
    else if s.pc.Reemit? { ReemitYieldsSteps(env, s, due); }
    else if s.pc.AtErrorStep? { ErrorStepYieldsSteps(env, s, due); }
    else { LateFailYieldsNoStep(env, s, due); }
  }

  lemma {:induction false} MainYieldsDeltas(env: Env, s: State, due: bool)
    requires WorkInv(env, s.work) && PhaseInv(env, s) && MainEnabled(s)
    ensures Yielded(env, MainStep(env, s, due)) == WithDelta(Yielded(env, s), MainMove(env, s, due).emit)
  {
    if Starting(s.pc) { StartYieldsDeltas(env, s, due); }
    else if InLoop(s.pc) { LoopYieldsDeltas(env, s, due); }
    else if Draining(s.pc) { DrainYieldsDeltas(env, s, due); }
    else if Finishing(s.pc) { FinishYieldsDeltas(env, s, due); }
    else { FailYieldsDeltas(env, s, due); }
  }

  lemma {:induction false} MainYieldsEnding(env: Env, s: State, due: bool)
    requires MainEnabled(s)
    ensures EndingsAt(MainStep(env, s, due).pc) == WithEnding(EndingsAt(s.pc), MainMove(env, s, due).emit)
  {
    if Starting(s.pc) { StartYieldsEnding(env, s, due); }
    else if InLoop(s.pc) { LoopYieldsEnding(env, s, due); }
    else if Draining(s.pc) { DrainYieldsEnding(env, s, due); }
    else if Finishing(s.pc) { FinishYieldsEnding(env, s, due); }
    else { FailYieldsEnding(env, s, due); }
  }

  lemma {:induction false} MovesStop(env: Env, s: State, due: bool)
    requires MainEnabled(s)
    ensures var m := MainMove(env, s, due);
            && (m.emit != [] ==> !PassesThrough(m.next)) && !m.next.Closed?
            && (m.next.AfterFinal? || m.next.AtFailPersist? ==> m.emit != [])
  {
  }

  lemma {:induction false} MainKeepsClosed(env: Env, s: State, due: bool)
    requires MainEnabled(s)
    ensures ClosedInv(MainStep(env, s, due))
  {
    var m, t := MainMove(env, s, due), MainStep(env, s, due);
    MovesStop(env, s, due);
    assert t.pc == m.next && t.atYield == (m.emit != []);
  }

  lemma {:induction false} TextsGrow(program: seq<Op>, m: nat, n: nat)
    requires m <= n <= |program|
    ensures TextsIn(program, m) <= TextsIn(program, n)
  {
    if m < n {
      TextsGrow(program, m, n - 1);
    }
  }

  lemma {:induction false} TakenDeltaIsNext(env: Env, s: State)
    requires s.work.pos <= |env.program| && s.deltaQ != [] && s.deltaQ[0].Some?
    requires s.parts + Texts(s.deltaQ) == TextsIn(env.program, s.work.pos)
    ensures s.parts + [s.deltaQ[0].value] <= AllTexts(env)
  {
    assert s.parts + [s.deltaQ[0].value] + Texts(s.deltaQ[1..]) == s.parts + Texts(s.deltaQ);
    TextsGrow(env.program, s.work.pos, |env.program|);
  }

  lemma {:induction false} RunnerKeepsParts(env: Env, s: State, due: bool)
    requires WorkInv(env, s.work) && PhaseInv(env, s) && DeltaQueueInv(env, s) && PartsInv(env, s)
    requires TakesDelta(s) && s.deltaQ[0].Some?
    ensures PartsInv(env, MainStep(env, s, due))
  {
    TakenDeltaIsNext(env, s);
  }

  lemma {:induction false} MainKeepsParts(env: Env, s: State, due: bool)
    requires WorkInv(env, s.work) && PhaseInv(env, s) && DeltaQueueInv(env, s) && PartsInv(env, s) && MainEnabled(s)
    ensures PartsInv(env, MainStep(env, s, due))
  {
    if TakesDelta(s) && s.deltaQ[0].Some? {
      RunnerKeepsParts(env, s, due);
    }
  }

  // -- The end of the output, by what a step yields --

  /** A step that goes to an ending has just yielded it or was there already. */
  predicate EndsWell(pc: Pc, m: Move)
  {
    && (Succeeding(m.next) ==> m.emit == [FinalEvent] || (m.emit == [] && Succeeding(pc)))
    && (Reported(m.next) ==> m.emit == [ErrorEvent] || (m.emit == [] && Reported(pc)))
  }

  lemma {:induction false} MovesEndWell(env: Env, s: State, due: bool)
    requires MainEnabled(s)
    ensures EndsWell(s.pc, MainMove(env, s, due))
  {
  }

  lemma {:induction false} LastFollows(s: State, t: State, m: Move)
    requires LastInv(s) && !s.pc.Closed? && !t.pc.Closed? && EndsWell(s.pc, m)
    requires t.pc == m.next && t.out == s.out + m.emit
    ensures LastInv(t)
  {
    if m.emit == [] {
      assert t.out == s.out;
    }
  }

  lemma {:induction false} MainKeepsLast(env: Env, s: State, due: bool)
    requires LastInv(s) && MainEnabled(s)
    ensures LastInv(MainStep(env, s, due))
  {
    MovesEndWell(env, s, due);
    MainAppends(env, s, due);
    LastFollows(s, MainStep(env, s, due), MainMove(env, s, due));
  }

  // -- The audit log, by stages --

  /** The three places that write. */
  predicate Writes(pc: Pc)
  {
    pc.Begin? || pc.AtPersist? || pc.AtFailPersist?
  }

  /** Elsewhere the stage stays, or a raise in the body before the flush enters the handler. */
  predicate StageStays(s: State, next: Pc)
  {
    && !next.Closed?
    && (StageOf(next) == StageOf(s.pc) || (StageOf(s.pc).Body? && StageOf(next).Handling? && !s.flushed))
  }

  lemma {:induction false} QuietStart(env: Env, s: State, due: bool)
    requires PhaseInv(env, s) && MainEnabled(s) && !Writes(s.pc) && Starting(s.pc)
    ensures MainMove(env, s, due).write == [] && StageStays(s, MainMove(env, s, due).next)
  {
  }

  lemma {:induction false} QuietRunner(env: Env, s: State, due: bool)
    requires PhaseInv(env, s) && MainEnabled(s) && !Writes(s.pc) && (InLoop(s.pc) || Draining(s.pc))
    ensures MainMove(env, s, due).write == [] && StageStays(s, MainMove(env, s, due).next)
  {
  }

  lemma {:induction false} QuietFinish(env: Env, s: State, due: bool)
    requires PhaseInv(env, s) && MainEnabled(s) && !Writes(s.pc) && Finishing(s.pc)
    ensures MainMove(env, s, due).write == [] && StageStays(s, MainMove(env, s, due).next)
  {
  }

  lemma {:induction false} QuietFail(env: Env, s: State, due: bool)
    requires PhaseInv(env, s) && MainEnabled(s) && !Writes(s.pc) && InHandler(s.pc)
    ensures MainMove(env, s, due).write == [] && StageStays(s, MainMove(env, s, due).next)
  {
  }

  lemma {:induction false} QuietMoves(env: Env, s: State, due: bool)
    requires PhaseInv(env, s) && MainEnabled(s) && !Writes(s.pc)
    ensures MainMove(env, s, due).write == [] && StageStays(s, MainMove(env, s, due).next)
  {
    if Starting(s.pc) { QuietStart(env, s, due); }
    else if InLoop(s.pc) || Draining(s.pc) { QuietRunner(env, s, due); }
    else if Finishing(s.pc) { QuietFinish(env, s, due); }
    else { QuietFail(env, s, due); }
  }

  lemma {:induction false} QuietFields(env: Env, s: State, due: bool)
    requires MainEnabled(s) && !Writes(s.pc)
    ensures var m, t := MainMove(env, s, due), MainStep(env, s, due);
            && t.pc == m.next && t.marks == s.marks + m.write && t.usageRecorded == s.usageRecorded
            && (t.flushed == s.flushed || (StageOf(s.pc).Body? && StageOf(m.next).Body?))
  {
  }

  lemma {:induction false} MarksStay(env: Env, s: State, t: State)
    requires MarksInv(env, s) && !s.pc.Closed? && StageStays(s, t.pc)
    requires t.marks == s.marks && t.usageRecorded == s.usageRecorded
    requires t.flushed == s.flushed || (StageOf(s.pc).Body? && StageOf(t.pc).Body?)
    ensures MarksInv(env, t)
  {
    assert UserMark(env) + [] == UserMark(env);
  }

  lemma {:induction false} QuietKeepsMarks(env: Env, s: State, due: bool)
    requires PhaseInv(env, s) && MarksInv(env, s) && MainEnabled(s) && !Writes(s.pc)
    ensures MarksInv(env, MainStep(env, s, due))
  {
    QuietMoves(env, s, due);
    QuietFields(env, s, due);
    assert s.marks + [] == s.marks;
    MarksStay(env, s, MainStep(env, s, due));
  }

  lemma {:induction false} BeginKeepsMarks(env: Env, s: State, due: bool)
    requires PhaseInv(env, s) && MarksInv(env, s) && s.pc.Begin?
    ensures MarksInv(env, MainStep(env, s, due))
  {
    assert s.marks + [] == s.marks;
    assert [] + [UserMessage] == [UserMessage];
    assert UserMark(env) + [] == UserMark(env);
  }

  /** Without a session, or when the first write raises, nothing is written at the end. */
  lemma {:induction false} NothingPersisted(env: Env, s: State, due: bool)
    requires PhaseInv(env, s) && MarksInv(env, s) && s.pc.AtPersist?
    requires !env.session || RecordAssistant in env.fails
    ensures MarksInv(env, MainStep(env, s, due))
  {
    var t := MainStep(env, s, due);
    assert MainMove(env, s, due).write == [] && s.marks + [] == s.marks;
    assert t.marks == s.marks && t.usageRecorded == s.usageRecorded && t.flushed == s.flushed;
    assert UserMark(env) + [] == UserMark(env);
  }

  lemma {:induction false} PersistedMarks(env: Env, s: State)
    requires WorkInv(env, s.work) && PhaseInv(env, s) && MarksInv(env, s) && s.pc.AtPersist?
    requires env.session && RecordAssistant !in env.fails
    ensures !s.usageRecorded && s.flushed && s.marks == UserMark(env)
    ensures FinishMove(env, s)
            == if SucceedSession in env.fails then Write([AssistantMark(env), UsageWritten], Reemit)
               else Write([AssistantMark(env), UsageWritten, Succeeded], AtFinal)
  {
    assert [AssistantMark(env)] + [UsageWritten] == [AssistantMark(env), UsageWritten];
    assert [AssistantMark(env), UsageWritten] + [Succeeded] == [AssistantMark(env), UsageWritten, Succeeded];
  }

  lemma {:induction false} PersistKeepsMarks(env: Env, s: State, due: bool)
    requires WorkInv(env, s.work) && PhaseInv(env, s) && MarksInv(env, s) && s.pc.AtPersist?
    ensures MarksInv(env, MainStep(env, s, due))
  {
    if !env.session || RecordAssistant in env.fails {
      NothingPersisted(env, s, due);
    } else {
      var t, m := MainStep(env, s, due), FinishMove(env, s);
      PersistedMarks(env, s);
      assert t.pc == m.next && t.marks == s.marks + m.write && t.usageRecorded && t.flushed;
    }
  }

  lemma {:induction false} FailureMarks(env: Env, s: State)
    requires MarksInv(env, s) && s.pc.AtFailPersist? && env.session
    ensures var usage := if UsageBeforeFailure(env, s.flushed) then [] else [UsageWritten];
            && s.marks == MarksBeforeFailure(env, s.flushed)
            && FailMove(env, s)
               == if FailSession in env.fails then Write(usage, Escaped) else Write(usage + [Failed], AtErrorEvent)
  {
  }

  lemma {:induction false} FailureIsWritten(env: Env, s: State, t: State)
    requires MarksInv(env, s) && s.pc.AtFailPersist? && env.session
    requires var m := FailMove(env, s);
             t.pc == m.next && t.marks == s.marks + m.write && t.flushed == s.flushed && t.usageRecorded
    ensures MarksInv(env, t)
  {
    var before := MarksBeforeFailure(env, s.flushed);
    var usage := if UsageBeforeFailure(env, s.flushed) then [] else [UsageWritten];
    FailureMarks(env, s);
    assert before + (usage + [Failed]) == before + usage + [Failed];
  }

  lemma {:induction false} FailPersistKeepsMarks(env: Env, s: State, due: bool)
    requires PhaseInv(env, s) && MarksInv(env, s) && s.pc.AtFailPersist?
    ensures MarksInv(env, MainStep(env, s, due))
  {
    if env.session {
      FailureIsWritten(env, s, MainStep(env, s, due));
    } else {
      assert s.marks + [] == s.marks;
    }
  }

  lemma {:induction false} MainKeepsMarks(env: Env, s: State, due: bool)
    requires WorkInv(env, s.work) && PhaseInv(env, s) && MarksInv(env, s) && MainEnabled(s)
    ensures MarksInv(env, MainStep(env, s, due))
  {
    if s.pc.Begin? { BeginKeepsMarks(env, s, due); }
    else if s.pc.AtPersist? { PersistKeepsMarks(env, s, due); }
    else if s.pc.AtFailPersist? { FailPersistKeepsMarks(env, s, due); }
    else { QuietKeepsMarks(env, s, due); }
  }

  /** A step appends what it yields. */
  lemma {:induction false} MainAppends(env: Env, s: State, due: bool)
    requires MainEnabled(s)
    ensures MainStep(env, s, due).out == s.out + MainMove(env, s, due).emit && |MainMove(env, s, due).emit| <= 1
    ensures MainStep(env, s, due).pc != Closed
  {
  }

  lemma {:induction false} MainKeepsOutput(env: Env, s: State, due: bool)
    requires WorkInv(env, s.work) && PhaseInv(env, s) && StepQueueInv(s) && CursorInv(s) && MainEnabled(s)
    requires CursorInv(MainStep(env, s, due))
    requires StepsInv(env, s) && DeltasInv(env, s) && EndingInv(s)
    ensures StepsInv(env, MainStep(env, s, due)) && DeltasInv(env, MainStep(env, s, due))
    ensures EndingInv(MainStep(env, s, due))
  {
    MainAppends(env, s, due);
    OutAfter(s.out, MainMove(env, s, due).emit);
    MainYieldsSteps(env, s, due);
    MainYieldsDeltas(env, s, due);
    MainYieldsEnding(env, s, due);
  }

  lemma {:induction false} MainKeeps(env: Env, s: State, due: bool)
    requires Inv(env, s) && MainEnabled(s)
    ensures Inv(env, MainStep(env, s, due))
  {
    MainKeepsWork(env, s, due);
    MainKeepsPhase(env, s, due);
    MainKeepsStepQueue(env, s, due);
    MainKeepsCursor(env, s, due);
    MainKeepsDeltaQueue(env, s, due);
    MainKeepsOutput(env, s, due);
    MainKeepsClosed(env, s, due);
    MainKeepsParts(env, s, due);
    MainKeepsLast(env, s, due);
    if s.pc.Begin? { BeginKeepsOpening(env, s, due); } else { LaterKeepsOpening(env, s, due); }
    MainKeepsMarks(env, s, due);
  }

  // -- The close --

  lemma {:induction false} CloseKeepsMarks(env: Env, s: State)
    requires PhaseInv(env, s) && MarksInv(env, s) && CloseEnabled(s)
    ensures MarksInv(env, CloseStep(env, s))
  {
  }

  lemma {:induction false} CloseKeepsControl(env: Env, s: State)
    requires WorkInv(env, s.work) && CloseEnabled(s)
    ensures var t := CloseStep(env, s);
            && WorkInv(env, t.work) && PhaseInv(env, t) && StepQueueInv(t) && DeltaQueueInv(env, t)
            && CursorInv(t) && StepsInv(env, t)
  {
  }

  lemma {:induction false} CloseKeepsOutput(env: Env, s: State)
    requires DeltasInv(env, s) && ClosedInv(s) && PartsInv(env, s)
    requires EndingInv(s) && LastInv(s) && OpeningInv(env, s) && CloseEnabled(s)
    ensures var t := CloseStep(env, s);
            && DeltasInv(env, t) && ClosedInv(t) && PartsInv(env, t) && EndingInv(t) && LastInv(t) && OpeningInv(env, t)
  {
  }

  lemma {:induction false} CloseKeeps(env: Env, s: State)
    requires Inv(env, s) && CloseEnabled(s)
    ensures Inv(env, CloseStep(env, s))
  {
    CloseKeepsControl(env, s);
    CloseKeepsOutput(env, s);
    CloseKeepsMarks(env, s);
  }

  // -- Every run --

  lemma {:induction false} NextKeepsInv(env: Env, s: State, a: Action)
    requires Inv(env, s) && Enabled(s, a)
    ensures Inv(env, Next(env, s, a))
  {
    match a
    case Main(due) => MainKeeps(env, s, due);
    case Worker => WorkerKeeps(env, s);
    case Close => CloseKeeps(env, s);
  }

  lemma {:induction false} InitInv(env: Env)
    ensures Inv(env, INIT)
  {
  }

  lemma {:induction false} RunKeepsInv(env: Env, schedule: seq<Action>)
    ensures Inv(env, Run(env, schedule))
  {
    if schedule == [] {
      InitInv(env);
    } else {
      var s, a := Run(env, schedule[..|schedule| - 1]), schedule[|schedule| - 1];
      RunKeepsInv(env, schedule[..|schedule| - 1]);
      if Enabled(s, a) {
        NextKeepsInv(env, s, a);
      }
    }
  }
}
