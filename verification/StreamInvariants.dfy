/** What every step of the chat stream keeps, whoever makes it. */
module StreamInvariants {
  import opened ChatSteps
  import opened Options
  import opened StreamProtocol
  import opened Text

  predicate Answering(pc: Pc)
  {
    || pc.AtAnswerDone? || pc.FlushToolCalls? || pc.AtClosingDelta?
    || pc.AtPersist? || pc.AtFinal? || pc.AfterFinal? || pc.Ended?
  }

  predicate Failing(pc: Pc)
  {
    InHandler(pc) || pc.EndedWithError? || pc.Escaped?
  }

  // -- The worker --

  ghost predicate WorkInv(env: Env, w: Work)
  {
    && w.pos <= |env.program|
    && w.log == StepsIn(env.program, w.pos)
    && (w.phase.Idle? ==> w.pos == 0)
    && (w.pending.Some? ==> w.phase.Running? && w.log != [] && w.log[|w.log| - 1] == w.pending.value)
    && (w.phase.HolderSet? || w.phase.SignalPut? || w.phase.Finished? ==> w.pos == |env.program|)
    && w.holder == (if w.phase.Idle? || w.phase.Running? then None else Some(env.outcome))
  }

  /** Which phases the worker can be in when the generator is at a place. */
  ghost predicate PhaseInv(env: Env, s: State)
  {
    && (Starting(s.pc) ==> s.work.phase.Idle? && !s.flushed && s.live == 0)
    && (InLoop(s.pc) || Draining(s.pc) ==> !s.work.phase.Idle? && !s.flushed)
    && (InLoop(s.pc) ==> s.sink)
    && (Draining(s.pc) ==> s.work.phase.SignalPut? || s.work.phase.Finished?)
    && (Finishing(s.pc) || s.pc == Ended ==> s.work.phase.Finished? && env.outcome == Output)
    && (s.pc.AtFinish? || s.pc.FlushSteps? ==> !s.flushed)
    && (Answering(s.pc) ==> s.flushed)
    && (Failing(s.pc) ==> (s.work.phase.Idle? || s.work.phase.Finished?) && (s.flushed ==> s.work.phase.Finished?))
  }

  // -- The queues --

  /** The logged steps that have reached the live sink. */
  function Sunk(w: Work): seq<ChatStep>
  {
    if w.pending.Some? && w.log != [] then w.log[..|w.log| - 1] else w.log
  }

  function Texts(q: seq<Option<string>>): seq<string>
  {
    if q == [] then []
    else if q[0].Some? then [q[0].value] + Texts(q[1..])
    else Texts(q[1..])
  }

  /** The end marker can only be the last entry. */
  ghost predicate MarkerLast(q: seq<Option<string>>)
  {
    forall i :: 0 <= i < |q| - 1 ==> q[i].Some?
  }

  predicate EndsWithMarker(q: seq<Option<string>>)
  {
    q != [] && q[|q| - 1].None?
  }

  /** Every step that reached the sink has been yielded or waits in the step queue, in order. */
  ghost predicate StepQueueInv(s: State)
  {
    && (Starting(s.pc) ==> s.stepQ == [] && s.work.log == [])
    && (InLoop(s.pc) || Draining(s.pc) ==> s.live <= |Sunk(s.work)| && s.stepQ == Sunk(s.work)[s.live..])
    && (s.pc.DrainDeltas? || s.pc.DrainSteps2? || s.pc.Join? ==> s.stepQ == [])
    && (Finishing(s.pc) || s.pc == Ended ==> s.live == |s.work.log|)
    && (s.pc == FlushSteps ==> s.cursor == |s.work.log|)
  }

  /** Every non-empty delta so far has been yielded or waits in the delta queue, in order. */
  ghost predicate DeltaQueueInv(env: Env, s: State)
    requires s.work.pos <= |env.program|
  {
    && (Starting(s.pc) ==> s.parts == [] && s.deltaQ == [])
    && (InLoop(s.pc) || Draining(s.pc) ==>
          s.parts + Texts(s.deltaQ) == TextsIn(env.program, s.work.pos) && MarkerLast(s.deltaQ))
    && (InLoop(s.pc) ==> (EndsWithMarker(s.deltaQ) <==> s.work.phase.SignalPut? || s.work.phase.Finished?))
    && (s.pc.DrainSteps1? || s.pc.DrainDeltas? ==> s.deltaQ == [] || EndsWithMarker(s.deltaQ))
    && (s.pc.DrainSteps2? || s.pc.Join? ==> s.deltaQ == [])
    && (Finishing(s.pc) || s.pc == Ended || (Failing(s.pc) && s.work.phase.Finished?) ==> s.parts == AllTexts(env))
  }

  // -- What went out --

  function Intro(env: Env): seq<ChatStep>
  {
    ContextSteps(env) + [env.answerStart]
  }

  /** The steps yielded before the failure handler was entered. */
  function BeforeFailure(env: Env, w: Work, flushed: bool): seq<ChatStep>
  {
    if flushed then Intro(env) + w.log + [env.answerDone]
    else if w.phase.Idle? then []
    else Intro(env) + w.log
  }

  /** And with those that the handler repeats. */
  function AfterRepeat(env: Env, w: Work, flushed: bool): seq<ChatStep>
  {
    BeforeFailure(env, w, flushed) + if flushed then [] else w.log
  }

  /** The steps yielded by the time the generator is where it is. */
  function StepsAt(env: Env, s: State): seq<ChatStep>
    requires InLoop(s.pc) || Draining(s.pc) ==> s.live <= |s.work.log|
    requires s.pc == Reemit ==> s.cursor <= |s.work.log|
  {
    if s.pc.Begin? || s.pc.AtPrepare? || s.pc.AtContext? then []
    else if s.pc.AtAnswerStart? then ContextSteps(env)
    else if s.pc.Submit? then Intro(env)
    else if InLoop(s.pc) || Draining(s.pc) then Intro(env) + s.work.log[..s.live]
    else if s.pc.AtFinish? || s.pc.FlushSteps? || s.pc.AtAnswerDone? then Intro(env) + s.work.log
    else if Answering(s.pc) then Intro(env) + s.work.log + [env.answerDone]
    else if s.pc.Reemit? then BeforeFailure(env, s.work, s.flushed) + if s.flushed then [] else s.work.log[..s.cursor]
    else if s.pc.AtErrorStep? then AfterRepeat(env, s.work, s.flushed)
    else AfterRepeat(env, s.work, s.flushed) + [env.answerError]
  }

  /** The closing delta, as the list of deltas it adds. */
  function Rest(env: Env, parts: seq<string>): seq<string>
  {
    var rest := ClosingDelta(env.answer, Concat(parts));
    if rest == "" then [] else [rest]
  }

  /** The deltas yielded by the time the generator has reached `pc`. */
  function DeltasAt(env: Env, pc: Pc, flushed: bool, parts: seq<string>): seq<string>
  {
    if pc.AtPersist? || pc.AtFinal? || pc.AfterFinal? || pc.Ended? || (Failing(pc) && flushed)
    then parts + Rest(env, parts)
    else parts
  }

  function AllTexts(env: Env): seq<string>
  {
    TextsIn(env.program, |env.program|)
  }

  predicate Succeeding(pc: Pc)
  {
    pc.AfterFinal? || pc.Ended?
  }

  predicate Reported(pc: Pc)
  {
    pc.AfterError? || pc.EndedWithError?
  }

  /** The final and error events that have gone out. */
  function EndingsAt(pc: Pc): seq<Event>
  {
    if Succeeding(pc) then [FinalEvent] else if Reported(pc) then [ErrorEvent] else []
  }

  ghost predicate CursorInv(s: State)
  {
    && (InLoop(s.pc) || Draining(s.pc) ==> s.live <= |s.work.log|)
    && (s.pc == Reemit ==> s.cursor <= |s.work.log|)
  }

  ghost predicate StepsInv(env: Env, s: State)
    requires CursorInv(s)
  {
    s.pc != Closed ==> StepsOf(s.out) == StepsAt(env, s)
  }

  ghost predicate DeltasInv(env: Env, s: State)
  {
    DeltasOf(s.out) == DeltasAt(env, Place(s), s.flushed, s.parts)
  }

  /** The place that decides what has been written so far: where the generator is or was closed. */
  function Place(s: State): Pc
  {
    if s.pc == Closed && s.closedAt.Some? then s.closedAt.value else s.pc
  }

  predicate Announces(env: Env)
  {
    env.session && RecordUser !in env.fails
  }

  /** The two places of the generator's end that it never stops at. */
  predicate PassesThrough(pc: Pc)
  {
    pc.AtFinal? || pc.AtErrorEvent?
  }

  ghost predicate ClosedInv(s: State)
  {
    && (s.atYield ==> !PassesThrough(s.pc))
    && (s.pc.AfterFinal? || s.pc.AtFailPersist? ==> s.atYield)
    && (s.pc == Closed ==> s.closedAt.Some? && !Over(s.closedAt.value) && !PassesThrough(s.closedAt.value))
  }

  /** Only what the runner produced is ever streamed, and in order, also when the stream is closed. */
  ghost predicate PartsInv(env: Env, s: State)
  {
    && s.parts <= AllTexts(env)
    && (s.flushed || Answering(Place(s)) ==> s.parts == AllTexts(env))
  }

  ghost predicate EndingInv(s: State)
  {
    EndingsOf(s.out) == EndingsAt(Place(s))
  }

  ghost predicate LastInv(s: State)
  {
    && (Succeeding(Place(s)) ==> s.out != [] && s.out[|s.out| - 1] == FinalEvent)
    && (Reported(Place(s)) ==> s.out != [] && s.out[|s.out| - 1] == ErrorEvent)
  }

  /** The session is announced first and never again. */
  ghost predicate OpeningInv(env: Env, s: State)
  {
    && (Place(s).Begin? ==> s.out == [])
    && (Announces(env) && !Place(s).Begin? ==> s.out != [] && s.out[0] == SessionStarted)
    && (forall i :: 0 <= i < |s.out| && s.out[i] == SessionStarted ==> i == 0 && Announces(env))
  }

  // -- The audit log --

  function AllSteps(env: Env): seq<ChatStep>
  {
    StepsIn(env.program, |env.program|)
  }

  function UserMark(env: Env): seq<AuditMark>
  {
    if Announces(env) then [UserMessage] else []
  }

  function AssistantMark(env: Env): AuditMark
  {
    AssistantMessage(env.answer, PersistedSteps(env, AllSteps(env)))
  }

  /** What was written before the failure handler was entered. */
  function MarksBeforeFailure(env: Env, flushed: bool): seq<AuditMark>
  {
    UserMark(env) + if flushed && RecordAssistant !in env.fails then [AssistantMark(env), UsageWritten] else []
  }

  function UsageBeforeFailure(env: Env, flushed: bool): bool
  {
    flushed && RecordAssistant !in env.fails
  }

  /** The stages of the audit log: not begun, in the body, finished, in the failure handler, failure
      written, and left by the error of that write. */
  datatype Stage = NotBegun | Body | Completed | Handling | Written | Lost

  function StageOf(pc: Pc): Stage
  {
    if pc.Begin? then NotBegun
    else if pc.AtFinal? || Succeeding(pc) then Completed
    else if pc.Reemit? || pc.AtErrorStep? || pc.AtFailPersist? then Handling
    else if pc.AtErrorEvent? || Reported(pc) then Written
    else if pc.Escaped? then Lost
    else Body
  }

  /** The audit log at a stage of a run with a session. */
  function MarksBy(env: Env, stage: Stage, flushed: bool): seq<AuditMark>
  {
    var usage := if UsageBeforeFailure(env, flushed) then [] else [UsageWritten];
    match stage
    case NotBegun => []
    case Body => UserMark(env)
    case Completed => UserMark(env) + [AssistantMark(env), UsageWritten, Succeeded]
    case Handling => MarksBeforeFailure(env, flushed)
    case Written => MarksBeforeFailure(env, flushed) + usage + [Failed]
    case Lost => MarksBeforeFailure(env, flushed) + usage
  }

  /** Whether provider usage has been written at a stage of a run with a session. */
  predicate UsageBy(env: Env, stage: Stage, flushed: bool)
  {
    stage.Completed? || stage.Written? || stage.Lost? || (stage.Handling? && UsageBeforeFailure(env, flushed))
  }

  function MarksAt(env: Env, pc: Pc, flushed: bool): seq<AuditMark>
  {
    MarksBy(env, StageOf(pc), flushed)
  }

  /** What a close at `pc` writes. */
  function CloseMarks(env: Env, pc: Pc): seq<AuditMark>
  {
    match StageOf(pc)
    case Body => [UsageWritten, Cancelled]
    case Completed => [Cancelled]
    case _ => []
  }

  ghost predicate MarksInv(env: Env, s: State)
  {
    && (!env.session ==> s.marks == [] && (StageOf(s.pc).Handling? ==> !s.flushed))
    && (env.session && !s.pc.Closed? ==>
          && (StageOf(s.pc).Body? || StageOf(s.pc).Completed? ==> Announces(env))
          && s.marks == MarksAt(env, s.pc, s.flushed)
          && (s.usageRecorded <==> UsageBy(env, StageOf(s.pc), s.flushed)))
    && (env.session && s.pc.Closed? && s.closedAt.Some? ==>
          s.marks == MarksAt(env, s.closedAt.value, s.flushed) + CloseMarks(env, s.closedAt.value))
  }

  // -- Kept by every step --

  ghost predicate Inv(env: Env, s: State)
  {
    && WorkInv(env, s.work) && PhaseInv(env, s) && StepQueueInv(s) && DeltaQueueInv(env, s) && CursorInv(s)
    && StepsInv(env, s) && DeltasInv(env, s) && ClosedInv(s) && PartsInv(env, s)
    && EndingInv(s) && LastInv(s) && OpeningInv(env, s) && MarksInv(env, s)
  }
}
