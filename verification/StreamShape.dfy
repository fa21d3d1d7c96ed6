/** The order of all events of a run, whatever their kind: what opens it, what may stand in its middle,
    and what closes it. */
module StreamShape {
  import opened ChatSteps
  import opened Options
  import opened StreamInvariants
  import opened StreamProtocol
  import opened StreamSteps
  import opened Text

  // -- Tool calls --

  /** The tool calls that have gone out by the time the generator has reached `pc`. */
  function CallsAt(env: Env, pc: Pc, flushed: bool, cursor: nat): seq<string>
    requires pc.FlushToolCalls? ==> cursor <= |env.toolCalls|
  {
    if pc.FlushToolCalls? then env.toolCalls[..cursor]
    else if (Answering(pc) && !pc.AtAnswerDone?) || (Failing(pc) && flushed) then env.toolCalls
    else []
  }

  ghost predicate CallsInv(env: Env, s: State)
  {
    && (Place(s).FlushToolCalls? ==> s.cursor <= |env.toolCalls|)
    && CallsOf(s.out) == CallsAt(env, Place(s), s.flushed, s.cursor)
  }

  lemma {:induction false} MoveKeepsCalls(env: Env, s: State, due: bool)
    requires PhaseInv(env, s) && MainEnabled(s) && CallsInv(env, s)
    ensures var t := MainStep(env, s, due);
            && (t.pc.FlushToolCalls? ==> t.cursor <= |env.toolCalls|)
            && CallsAt(env, t.pc, t.flushed, t.cursor)
               == WithCall(CallsAt(env, s.pc, s.flushed, s.cursor), MainMove(env, s, due).emit)
  {
    if Starting(s.pc) {
      StartKeepsCalls(env, s, due);
    } else if InLoop(s.pc) || Draining(s.pc) {
      RunnerKeepsCalls(env, s, due);
    } else if Finishing(s.pc) {
      FinishKeepsCalls(env, s, due);
    } else {
      FailKeepsCalls(env, s, due);
    }
  }

  lemma {:induction false} StartKeepsCalls(env: Env, s: State, due: bool)
    requires PhaseInv(env, s) && Starting(s.pc)
    ensures var t, emit := MainStep(env, s, due), MainMove(env, s, due).emit;
            && !t.pc.FlushToolCalls? && WithCall([], emit) == []
            && CallsAt(env, s.pc, s.flushed, s.cursor) == [] && CallsAt(env, t.pc, t.flushed, t.cursor) == []
  {
  }

  lemma {:induction false} RunnerKeepsCalls(env: Env, s: State, due: bool)
    requires PhaseInv(env, s) && (InLoop(s.pc) || Draining(s.pc)) && MainEnabled(s)
    ensures var t, emit := MainStep(env, s, due), MainMove(env, s, due).emit;
            && !t.pc.FlushToolCalls? && WithCall([], emit) == []
            && CallsAt(env, s.pc, s.flushed, s.cursor) == [] && CallsAt(env, t.pc, t.flushed, t.cursor) == []
  {
  }

  lemma {:induction false} FinishKeepsCalls(env: Env, s: State, due: bool)
    requires PhaseInv(env, s) && Finishing(s.pc) && (s.pc.FlushToolCalls? ==> s.cursor <= |env.toolCalls|)
    ensures var t := MainStep(env, s, due);
            && (t.pc.FlushToolCalls? ==> t.cursor <= |env.toolCalls|)
            && CallsAt(env, t.pc, t.flushed, t.cursor)
               == WithCall(CallsAt(env, s.pc, s.flushed, s.cursor), MainMove(env, s, due).emit)
  {
  }

  lemma {:induction false} FailKeepsCalls(env: Env, s: State, due: bool)
    requires InHandler(s.pc)
    ensures var t := MainStep(env, s, due);
            && !t.pc.FlushToolCalls?
            && CallsAt(env, t.pc, t.flushed, t.cursor)
               == WithCall(CallsAt(env, s.pc, s.flushed, s.cursor), MainMove(env, s, due).emit)
  {
  }

  lemma {:induction false} RunKeepsCalls(env: Env, schedule: seq<Action>)
    ensures CallsInv(env, Run(env, schedule))
  {
    if schedule != [] {
      var before, a := schedule[..|schedule| - 1], schedule[|schedule| - 1];
      RunKeepsCalls(env, before);
      RunKeepsInv(env, before);
      NextKeepsCalls(env, Run(env, before), a);
    }
  }

  lemma {:induction false} NextKeepsCalls(env: Env, s: State, a: Action)
    requires PhaseInv(env, s) && CallsInv(env, s)
    ensures Enabled(s, a) ==> CallsInv(env, Next(env, s, a))
  {
    if Enabled(s, a) && a.Main? {
      MoveKeepsCalls(env, s, a.due);
      MainAppends(env, s, a.due);
      CallsAfter(s.out, MainMove(env, s, a.due).emit);
    }
  }

  /** Every tool call of the request goes out once and in order on a run that succeeds or fails after the
      flush; none on a run that fails before; and a run closed on the way has yielded a prefix. */
  lemma {:induction false} ToolCallsGoOut(env: Env, schedule: seq<Action>)
    ensures var s := Run(env, schedule);
            var calls := CallsOf(s.out);
            && calls <= env.toolCalls
            && (Succeeding(Place(s)) ==> calls == env.toolCalls)
            && (Failing(Place(s)) ==> calls == if s.flushed then env.toolCalls else [])
            && (Starting(Place(s)) || InLoop(Place(s)) || Draining(Place(s)) ==> calls == [])
  {
    RunKeepsCalls(env, schedule);
  }

  // -- All events --

  function StepEvents(steps: seq<ChatStep>): (events: seq<Event>)
    ensures |events| == |steps|
    ensures forall i :: 0 <= i < |steps| ==> events[i] == StepEvent(steps[i])
  {
    seq(|steps|, i requires 0 <= i < |steps| => StepEvent(steps[i]))
  }

  function CallEvents(calls: seq<string>): (events: seq<Event>)
    ensures |events| == |calls|
    ensures forall i :: 0 <= i < |calls| ==> events[i] == ToolCallEvent(calls[i])
  {
    seq(|calls|, i requires 0 <= i < |calls| => ToolCallEvent(calls[i]))
  }

  function Announcement(env: Env): seq<Event>
  {
    if Announces(env) then [SessionStarted] else []
  }

  /** What comes before the runner is submitted. */
  function Opening(env: Env): seq<Event>
  {
    Announcement(env) + (if env.context.Some? then [StepEvent(env.context.value)] else [])
    + [StepEvent(env.answerStart)]
  }

  function OpeningAt(env: Env, pc: Pc): seq<Event>
    requires Starting(pc)
  {
    match pc
    case Begin => []
    case Submit => Opening(env)
    case AtAnswerStart => Announcement(env) + if env.context.Some? then [StepEvent(env.context.value)] else []
    case _ => Announcement(env)
  }

  /** What may stand in the middle, while the runner works: steps, deltas and heartbeats. */
  predicate IsChatter(e: Event)
  {
    e.StepEvent? || e.DeltaEvent? || e.Heartbeat?
  }

  /** The answer step, the tool calls, and what is left of the answer. */
  function Answered(env: Env): seq<Event>
  {
    var rest := ClosingDelta(env.answer, Concat(AllTexts(env)));
    [StepEvent(env.answerDone)] + CallEvents(env.toolCalls) + if rest != "" then [DeltaEvent(rest)] else []
  }

  function UpTo<T>(items: seq<T>, n: nat): seq<T>
  {
    if n <= |items| then items[..n] else items
  }

  /** What the finishing generator has added to the middle. */
  function TailAt(env: Env, pc: Pc, cursor: nat): seq<Event>
  {
    if pc.AtFinish? || pc.FlushSteps? || pc.AtAnswerDone? then []
    else if pc.FlushToolCalls? then [StepEvent(env.answerDone)] + CallEvents(UpTo(env.toolCalls, cursor))
    else if pc.AtClosingDelta? then [StepEvent(env.answerDone)] + CallEvents(env.toolCalls)
    else if pc.AtPersist? || pc.AtFinal? then Answered(env)
    else Answered(env) + [FinalEvent]
  }

  /** What a failing run has added to the middle, with the steps that the handler repeats. */
  function FailTailAt(env: Env, pc: Pc, cursor: nat, flushed: bool, log: seq<ChatStep>): seq<Event>
  {
    var before := if flushed then Answered(env) else [];
    if pc.Reemit? then before + StepEvents(if flushed then [] else UpTo(log, cursor))
    else
      var repeated := before + StepEvents(if flushed then [] else log);
      if pc.AtErrorStep? then repeated
      else if Reported(pc) then repeated + [StepEvent(env.answerError)] + [ErrorEvent]
      else repeated + [StepEvent(env.answerError)]
  }

  /** The events are a head, a middle of steps, deltas and heartbeats, and a tail; a solid frame has no
      middle. */
  datatype Frame = Frame(head: seq<Event>, tail: seq<Event>, solid: bool)

  ghost predicate Fits(out: seq<Event>, f: Frame)
  {
    && |f.head| + |f.tail| <= |out| && (f.solid ==> |f.head| + |f.tail| == |out|)
    && out[..|f.head|] == f.head && out[|out| - |f.tail|..] == f.tail
    && forall i :: |f.head| <= i < |out| - |f.tail| ==> IsChatter(out[i])
  }

  function FrameAt(env: Env, s: State): Frame
  {
    if Starting(s.pc) then Frame(OpeningAt(env, s.pc), [], true)
    else if InLoop(s.pc) || Draining(s.pc) then Frame(Opening(env), [], false)
    else if Failing(s.pc) then
      Frame(if s.work.phase.Idle? then Announcement(env) else Opening(env),
            FailTailAt(env, s.pc, s.cursor, s.flushed, s.work.log), s.work.phase.Idle?)
    else Frame(Opening(env), TailAt(env, s.pc, s.cursor), false)
  }

  /** What a yield can do: lengthen the head as long as there is nothing else, the middle as long as there
      is no tail, or the tail. */
  predicate FrameFollows(f: Frame, emit: seq<Event>, g: Frame)
  {
    || (f.tail == [] && f.solid && g == Frame(f.head + emit, [], true))
    || (f.tail == [] && g == Frame(f.head, [], false) && forall i :: 0 <= i < |emit| ==> IsChatter(emit[i]))
    || g == Frame(f.head, f.tail + emit, f.solid)
  }

  lemma {:induction false} FollowsFits(out: seq<Event>, f: Frame, emit: seq<Event>, more: seq<Event>, g: Frame)
    requires Fits(out, f) && FrameFollows(f, emit, g) && more == out + emit
    ensures Fits(more, g)
  {
    assert forall i :: 0 <= i < |out| ==> more[i] == out[i];
    if f.tail == [] && f.solid && g == Frame(f.head + emit, [], true) {
      assert out == f.head;
    } else {
      assert more[..|f.head|] == out[..|f.head|];
      if g == Frame(f.head, f.tail + emit, f.solid) {
        assert more[|more| - |g.tail|..] == out[|out| - |f.tail|..] + emit;
      }
    }
  }

  lemma {:induction false} TailFollows(f: Frame, emit: seq<Event>, g: Frame)
    requires g.head == f.head && g.solid == f.solid && g.tail == f.tail + emit
    ensures FrameFollows(f, emit, g)
  {
  }

  lemma {:induction false} MiddleFollows(f: Frame, emit: seq<Event>, g: Frame)
    requires f.tail == [] && g == Frame(f.head, [], false) && forall i :: 0 <= i < |emit| ==> IsChatter(emit[i])
    ensures FrameFollows(f, emit, g)
  {
  }

  lemma {:induction false} FailingFrame(env: Env, s: State)
    requires Failing(s.pc)
    ensures FrameAt(env, s) == Frame(if s.work.phase.Idle? then Announcement(env) else Opening(env),
                                     FailTailAt(env, s.pc, s.cursor, s.flushed, s.work.log), s.work.phase.Idle?)
  {
    assert !Starting(s.pc) && !InLoop(s.pc) && !Draining(s.pc);
  }

  lemma {:induction false} FinishingFrame(env: Env, s: State)
    requires Finishing(s.pc) || s.pc.Ended?
    ensures FrameAt(env, s) == Frame(Opening(env), TailAt(env, s.pc, s.cursor), false)
  {
    assert !Starting(s.pc) && !InLoop(s.pc) && !Draining(s.pc) && !Failing(s.pc);
  }

  lemma {:induction false} StartFollows(env: Env, s: State, t: State)
    requires Starting(s.pc) && WorkInv(env, s.work) && PhaseInv(env, s) && t == MainStep(env, s, false)
    ensures FrameFollows(FrameAt(env, s), StartMove(env, s).emit, FrameAt(env, t))
  {
    var f, g, emit := FrameAt(env, s), FrameAt(env, t), StartMove(env, s).emit;
    assert f.head + [] == f.head;
    if t.pc.Reemit? {
      assert UpTo(t.work.log, 0) == [] && g.tail == [];
    } else if Starting(t.pc) {
      assert g.head == f.head + emit;
    }
  }

  lemma {:induction false} RunnerFollows(env: Env, s: State, due: bool, t: State)
    requires (InLoop(s.pc) || Draining(s.pc)) && MainEnabled(s) && WorkInv(env, s.work) && PhaseInv(env, s)
    requires t == MainStep(env, s, due)
    ensures FrameFollows(FrameAt(env, s), RunnerMove(s, due).emit, FrameAt(env, t))
  {
    var f, g, emit := FrameAt(env, s), FrameAt(env, t), RunnerMove(s, due).emit;
    assert f == Frame(Opening(env), [], false);
    if s.pc.Join? {
      JoinFrame(env, s, t);
    } else {
      LoopStays(s, due);
      assert t.pc == RunnerMove(s, due).next && g == f;
    }
    MiddleFollows(f, emit, g);
  }

  lemma {:induction false} JoinFrame(env: Env, s: State, t: State)
    requires s.pc.Join? && MainEnabled(s) && WorkInv(env, s.work) && PhaseInv(env, s)
    requires t == MainStep(env, s, false)
    ensures FrameAt(env, t) == Frame(Opening(env), [], false)
  {
    if t.pc.Reemit? {
      assert UpTo(t.work.log, 0) == [] && StepEvents([]) == [] && t.cursor == 0 && !t.flushed;
      assert FailTailAt(env, t.pc, t.cursor, t.flushed, t.work.log) == [];
      FailingFrame(env, t);
    } else {
      FinishingFrame(env, t);
    }
  }

  lemma {:induction false} EventsGrow(env: Env, k: nat)
    requires k <= |env.toolCalls|
    ensures k < |env.toolCalls| ==>
      CallEvents(UpTo(env.toolCalls, k + 1)) == CallEvents(UpTo(env.toolCalls, k)) + [ToolCallEvent(env.toolCalls[k])]
    ensures k == |env.toolCalls| ==> UpTo(env.toolCalls, k) == env.toolCalls
    ensures CallEvents(UpTo(env.toolCalls, 0)) == []
  {
    if k == |env.toolCalls| {
      assert env.toolCalls[..k] == env.toolCalls;
    }
  }

  /** What a step of the finishing generator adds is what the tail gains. */
  lemma {:induction false} FinishTail(env: Env, s: State, t: State)
    requires Finishing(s.pc) && WorkInv(env, s.work) && PhaseInv(env, s) && StepQueueInv(s) && DeltaQueueInv(env, s)
    requires s.pc.FlushToolCalls? ==> s.cursor <= |env.toolCalls|
    requires t == MainStep(env, s, false) && !t.pc.Reemit?
    ensures TailAt(env, t.pc, t.cursor) == TailAt(env, s.pc, s.cursor) + FinishMove(env, s).emit
  {
    if s.pc.FlushToolCalls? {
      EventsGrow(env, s.cursor);
    } else if s.pc.AtAnswerDone? {
      EventsGrow(env, 0);
    }
  }

  /** A raise hands the tail over to the failure handler. */
  lemma {:induction false} RaiseKeepsTail(env: Env, s: State, t: State)
    requires Finishing(s.pc) && PhaseInv(env, s) && t == MainStep(env, s, false) && t.pc.Reemit?
    ensures FinishMove(env, s).emit == [] && t.work == s.work && t.cursor == 0
    ensures FailTailAt(env, t.pc, t.cursor, t.flushed, t.work.log) == TailAt(env, s.pc, s.cursor)
  {
    assert s.pc.AtFinish? || s.pc.AtPersist?;
    assert UpTo(t.work.log, 0) == [] && StepEvents([]) == [];
    assert Answered(env) + [] == Answered(env);
  }

  lemma {:induction false} RaiseFollows(env: Env, s: State, t: State)
    requires Finishing(s.pc) && WorkInv(env, s.work) && PhaseInv(env, s) && t == MainStep(env, s, false) && t.pc.Reemit?
    ensures FinishMove(env, s).emit == [] && FrameAt(env, t) == FrameAt(env, s)
  {
    RaiseKeepsTail(env, s, t);
    FinishingFrame(env, s);
    FailingFrame(env, t);
  }

  lemma {:induction false} FinishStays(env: Env, s: State, t: State)
    requires Finishing(s.pc) && t == MainStep(env, s, false) && !t.pc.Reemit?
    ensures Finishing(t.pc) || t.pc.Ended?
  {
  }

  lemma {:induction false} FinishFollows(env: Env, s: State, t: State)
    requires Finishing(s.pc) && WorkInv(env, s.work) && PhaseInv(env, s) && StepQueueInv(s) && DeltaQueueInv(env, s)
    requires s.pc.FlushToolCalls? ==> s.cursor <= |env.toolCalls|
    requires t == MainStep(env, s, false)
    ensures FrameFollows(FrameAt(env, s), FinishMove(env, s).emit, FrameAt(env, t))
  {
    var f := FrameAt(env, s);
    if t.pc.Reemit? {
      RaiseFollows(env, s, t);
      assert f.tail + [] == f.tail;
      TailFollows(f, [], f);
    } else {
      FinishStays(env, s, t);
      FinishTail(env, s, t);
      FinishingFrame(env, s);
      FinishingFrame(env, t);
      TailFollows(f, FinishMove(env, s).emit, FrameAt(env, t));
    }
  }

  lemma {:induction false} LogGrows(log: seq<ChatStep>, k: nat)
    requires k <= |log|
    ensures k < |log| ==> StepEvents(UpTo(log, k + 1)) == StepEvents(UpTo(log, k)) + [StepEvent(log[k])]
    ensures k == |log| ==> UpTo(log, k) == log
  {
    if k == |log| {
      assert log[..k] == log;
    }
  }

  lemma {:induction false} FailTailGrows(env: Env, s: State, t: State)
    requires InHandler(s.pc) && CursorInv(s) && t == MainStep(env, s, false)
    ensures Failing(t.pc) && t.work == s.work && t.flushed == s.flushed
    ensures FailTailAt(env, t.pc, t.cursor, t.flushed, t.work.log)
            == FailTailAt(env, s.pc, s.cursor, s.flushed, s.work.log) + FailMove(env, s).emit
  {
    if s.pc.Reemit? && !s.flushed {
      LogGrows(s.work.log, s.cursor);
    }
  }

  lemma {:induction false} FailFollows(env: Env, s: State, t: State)
    requires InHandler(s.pc) && CursorInv(s) && t == MainStep(env, s, false)
    ensures FrameFollows(FrameAt(env, s), FailMove(env, s).emit, FrameAt(env, t))
  {
    FailTailGrows(env, s, t);
    FailingFrame(env, s);
    FailingFrame(env, t);
    TailFollows(FrameAt(env, s), FailMove(env, s).emit, FrameAt(env, t));
  }

  lemma {:induction false} DueOnlyInLoop(env: Env, s: State, due: bool)
    requires MainEnabled(s) && !InLoop(s.pc) && !Draining(s.pc)
    ensures MainStep(env, s, due) == MainStep(env, s, false)
  {
  }

  lemma {:induction false} MainFollows(env: Env, s: State, due: bool, t: State)
    requires MainEnabled(s) && t == MainStep(env, s, due) && CursorInv(s)
    requires WorkInv(env, s.work) && PhaseInv(env, s) && StepQueueInv(s) && DeltaQueueInv(env, s)
    requires s.pc.FlushToolCalls? ==> s.cursor <= |env.toolCalls|
    ensures FrameFollows(FrameAt(env, s), MainMove(env, s, due).emit, FrameAt(env, t))
  {
    if InLoop(s.pc) || Draining(s.pc) {
      RunnerFollows(env, s, due, t);
    } else {
      DueOnlyInLoop(env, s, due);
      if Starting(s.pc) {
        StartFollows(env, s, t);
      } else if Finishing(s.pc) {
        FinishFollows(env, s, t);
      } else {
        FailFollows(env, s, t);
      }
    }
  }

  lemma {:induction false} WorkerKeepsFrame(env: Env, s: State)
    requires WorkerEnabled(s) && PhaseInv(env, s)
    ensures FrameAt(env, WorkerStep(env, s)) == FrameAt(env, s) && WorkerStep(env, s).out == s.out
  {
  }

  /** The events of every run that is not closed fit the frame of the place that it has reached. */
  lemma {:induction false} RunFitsFrame(env: Env, schedule: seq<Action>)
    ensures var s := Run(env, schedule); !s.pc.Closed? ==> Fits(s.out, FrameAt(env, s))
  {
    if schedule != [] {
      var before, a := schedule[..|schedule| - 1], schedule[|schedule| - 1];
      RunFitsFrame(env, before);
      RunKeepsInv(env, before);
      RunKeepsCalls(env, before);
      NextFitsFrame(env, Run(env, before), a, Run(env, schedule));
    } else {
      assert FrameAt(env, INIT) == Frame([], [], true);
    }
  }

  lemma {:induction false} NextFitsFrame(env: Env, s: State, a: Action, t: State)
    requires !s.pc.Closed? ==> Fits(s.out, FrameAt(env, s))
    requires WorkInv(env, s.work) && PhaseInv(env, s) && StepQueueInv(s) && DeltaQueueInv(env, s) && CursorInv(s)
    requires CallsInv(env, s)
    requires t == if Enabled(s, a) then Next(env, s, a) else s
    ensures !t.pc.Closed? ==> Fits(t.out, FrameAt(env, t))
  {
    if Enabled(s, a) {
      match a
      case Main(due) =>
        MainAppends(env, s, due);
        MainFollows(env, s, due, t);
        FollowsFits(s.out, FrameAt(env, s), MainMove(env, s, due).emit, t.out, FrameAt(env, t));
      case Worker => WorkerKeepsFrame(env, s);
      case Close =>
    }
  }

  /** The events of a run in their order. A successful run opens with the announcement, the context step and
      the answer's start; only steps, deltas and heartbeats follow while the runner works; and it closes
      with the answer step, the tool calls, what is left of the answer, and the final event. A failing run
      closes with the steps once more unless they were flushed, the error step and the error event, behind
      what a success would have closed with if it fails after the flush; one that fails before the runner
      has nothing between the announcement and the error step. */
  lemma {:induction false} EventsInOrder(env: Env, schedule: seq<Action>)
    ensures var s := Run(env, schedule);
            var repeated := if s.flushed then Answered(env) else StepEvents(s.work.log);
            && (Succeeding(s.pc) ==> Fits(s.out, Frame(Opening(env), Answered(env) + [FinalEvent], false)))
            && (Reported(s.pc) ==>
                  Fits(s.out, if s.work.phase.Idle?
                              then Frame(Announcement(env), [StepEvent(env.answerError), ErrorEvent], true)
                              else Frame(Opening(env), repeated + [StepEvent(env.answerError), ErrorEvent], false)))
  {
    RunFitsFrame(env, schedule);
    RunKeepsInv(env, schedule);
    FinalFrame(env, Run(env, schedule));
  }

  lemma {:induction false} FinalFrame(env: Env, s: State)
    requires WorkInv(env, s.work) && PhaseInv(env, s)
    ensures Succeeding(s.pc) ==> FrameAt(env, s) == Frame(Opening(env), Answered(env) + [FinalEvent], false)
    ensures var repeated := if s.flushed then Answered(env) else StepEvents(s.work.log);
            Reported(s.pc) ==>
              FrameAt(env, s)
              == if s.work.phase.Idle? then Frame(Announcement(env), [StepEvent(env.answerError), ErrorEvent], true)
                 else Frame(Opening(env), repeated + [StepEvent(env.answerError), ErrorEvent], false)
  {
    if Reported(s.pc) {
      FailingFrame(env, s);
      ReportedTail(env, s);
      assert [] + [StepEvent(env.answerError), ErrorEvent] == [StepEvent(env.answerError), ErrorEvent];
    } else if Succeeding(s.pc) {
      assert Finishing(s.pc) || s.pc.Ended?;
      FinishingFrame(env, s);
    }
  }

  lemma {:induction false} TwoMore(events: seq<Event>, e: Event, f: Event)
    ensures events + [e] + [f] == events + [e, f]
    ensures [] + events == events && events + [] == events
  {
  }

  lemma {:induction false} ReportedTail(env: Env, s: State)
    requires Reported(s.pc) && WorkInv(env, s.work) && PhaseInv(env, s)
    ensures FailTailAt(env, s.pc, s.cursor, s.flushed, s.work.log)
            == (if s.flushed then Answered(env) else StepEvents(s.work.log)) + [StepEvent(env.answerError), ErrorEvent]
    ensures s.work.phase.Idle? ==> !s.flushed && StepEvents(s.work.log) == []
  {
    TwoMore(if s.flushed then Answered(env) else StepEvents(s.work.log), StepEvent(env.answerError), ErrorEvent);
    assert StepEvents([]) == [];
    if s.work.phase.Idle? {
      assert s.work.log == [];
    }
  }

  // -- Heartbeats --

  /** How often the loop came to its heartbeat with one due. */
  function BeatsDue(env: Env, schedule: seq<Action>): nat
  {
    if schedule == [] then 0
    else
      var before, a := schedule[..|schedule| - 1], schedule[|schedule| - 1];
      BeatsDue(env, before) + if Run(env, before).pc == LoopBeat && a == Main(true) then 1 else 0
  }

  /** A heartbeat goes out exactly when one is due. */
  lemma {:induction false} HeartbeatsAreDue(env: Env, schedule: seq<Action>)
    ensures HeartbeatsOf(Run(env, schedule).out) == BeatsDue(env, schedule)
  {
    if schedule != [] {
      var before, a := schedule[..|schedule| - 1], schedule[|schedule| - 1];
      HeartbeatsAreDue(env, before);
      NextBeats(env, Run(env, before), a);
    }
  }

  lemma {:induction false} NextBeats(env: Env, s: State, a: Action)
    ensures Enabled(s, a) ==>
      (HeartbeatsOf(Next(env, s, a).out) == HeartbeatsOf(s.out) + if s.pc == LoopBeat && a == Main(true) then 1 else 0)
    ensures s.pc == LoopBeat && a.Main? ==> Enabled(s, a)
  {
    if Enabled(s, a) && a.Main? {
      MainAppends(env, s, a.due);
      CallsAfter(s.out, MainMove(env, s, a.due).emit);
      BeatMove(env, s, a.due);
    }
  }

  lemma {:induction false} BeatMove(env: Env, s: State, due: bool)
    requires MainEnabled(s)
    ensures MainMove(env, s, due).emit == [Heartbeat] <==> s.pc == LoopBeat && due
  {
  }

  // -- The live sink --

  /** The tool's steps go to the live queue from the submission of the runner until the queue has been
      drained for the last time, and never once the stream is closed. */
  ghost predicate SinkInv(s: State)
  {
    s.sink <==> InLoop(s.pc) || (Draining(s.pc) && !s.pc.Join?)
  }

  lemma {:induction false} MainKeepsSink(env: Env, s: State, due: bool)
    requires MainEnabled(s) && SinkInv(s)
    ensures SinkInv(MainStep(env, s, due))
  {
    if InLoop(s.pc) || Draining(s.pc) {
      if !s.pc.Join? {
        LoopStays(s, due);
      }
    } else {
      NeverBack(env, s, due);
    }
  }

  lemma {:induction false} NeverBack(env: Env, s: State, due: bool)
    requires MainEnabled(s) && !InLoop(s.pc) && !Draining(s.pc)
    ensures var next := MainMove(env, s, due).next;
            (InLoop(next) <==> s.pc.Submit?) && !Draining(next)
  {
  }

  lemma {:induction false} SinkIsLive(env: Env, schedule: seq<Action>)
    ensures SinkInv(Run(env, schedule))
  {
    if schedule != [] {
      var before, a := schedule[..|schedule| - 1], schedule[|schedule| - 1];
      SinkIsLive(env, before);
      if Enabled(Run(env, before), a) && a.Main? {
        MainKeepsSink(env, Run(env, before), a.due);
      }
    }
  }

  /** What a close releases besides its audit marks: the sink is detached, and while the runner is active an
      end marker follows what waits in the delta queue; nothing more is yielded. */
  lemma {:induction false} CloseReleases(env: Env, s: State)
    requires CloseEnabled(s)
    ensures var t := CloseStep(env, s);
            && !t.sink && t.stepQ == s.stepQ && t.out == s.out && t.work == s.work
            && t.deltaQ == s.deltaQ + (if InLoop(s.pc) || Draining(s.pc) then [None] else [])
            && t.usageRecorded == (s.usageRecorded || (env.session && !s.pc.Begin? && !InHandler(s.pc)))
  {
  }

  /** Once the stream is closed the step queue gets nothing more, however long the worker goes on. */
  lemma {:induction false} ClosedQueueStays(env: Env, schedule: seq<Action>, a: Action)
    requires Run(env, schedule).pc.Closed? && Enabled(Run(env, schedule), a)
    ensures Next(env, Run(env, schedule), a).stepQ == Run(env, schedule).stepQ
  {
    SinkIsLive(env, schedule);
  }

  // -- Closed runs --

  /** A closed run has yielded what it had when it was closed, at a moment of an unclosed run. */
  lemma {:induction false} ClosedRunIsCutShort(env: Env, schedule: seq<Action>) returns (n: nat)
    requires Run(env, schedule).pc.Closed?
    ensures n < |schedule|
    ensures var s, t := Run(env, schedule), Run(env, schedule[..n]);
            CloseEnabled(t) && t.pc == Place(s) && t.out == s.out
  {
    n := |schedule| - 1;
    var before, a := schedule[..n], schedule[n];
    if Run(env, before).pc.Closed? {
      n := ClosedRunIsCutShort(env, before);
      assert schedule[..n] == before[..n];
    } else {
      OnlyCloses(env, Run(env, before), a);
    }
  }

  lemma {:induction false} OnlyCloses(env: Env, s: State, a: Action)
    requires !s.pc.Closed? && Enabled(s, a) && Next(env, s, a).pc.Closed?
    ensures a == Close && Place(Next(env, s, a)) == s.pc && Next(env, s, a).out == s.out
  {
  }
}
