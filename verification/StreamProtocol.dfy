/** The chat stream as a state machine: the generator that the server iterates, the worker thread
    that runs the chat runner, and the two queues between them. Any scheduling of the two and any
    moment at which the consumer closes the generator is a run. */
module StreamProtocol {
  import opened ChatSteps
  import opened Options
  import opened Text

  // -- What a run depends on --

  /** What the runner does on the worker thread: call the delta callback, or log a retrieval step. */
  datatype Op = Say(text: string) | Log(step: ChatStep)

  /** How the runner ends. A returned value that is not a runner output counts as an error. */
  datatype Outcome = Output | NoOutput | Raised

  /** The calls of the generator that can raise. */
  datatype Site = RecordUser | Prepare | Finish | RecordAssistant | SucceedSession | FailSession

  /** Everything that is fixed during a run: the request, the runner's behaviour, the sanitised
      answer, and which calls raise. */
  datatype Env = Env(
    session: bool, context: Option<ChatStep>, answerStart: ChatStep, answerDone: ChatStep, answerError: ChatStep,
    program: seq<Op>, outcome: Outcome, answer: string, toolCalls: seq<string>, fails: set<Site>)

  // -- What a run does --

  datatype Event =
    | SessionStarted
    | StepEvent(step: ChatStep)
    | ToolCallEvent(call: string)
    | DeltaEvent(text: string)
    | Heartbeat
    | FinalEvent
    | ErrorEvent

  datatype AuditMark =
    | UserMessage
    | AssistantMessage(answer: string, steps: seq<ChatStep>)
    | UsageWritten
    | Succeeded
    | Failed
    | Cancelled

  /** Where the generator is. The names follow the generator's body, the loop that runs the runner
      and the failure handler. */
  datatype Pc =
    | Begin | AtPrepare | AtContext | AtAnswerStart | Submit
    | LoopHead | LoopDrain | LoopGet | LoopBeat
    | DrainSteps1 | DrainDeltas | DrainSteps2 | Join
    | AtFinish | FlushSteps | AtAnswerDone | FlushToolCalls | AtClosingDelta | AtPersist | AtFinal | AfterFinal
    | Reemit | AtErrorStep | AtFailPersist | AtErrorEvent | AfterError
    | Ended | EndedWithError | Escaped | Closed

  /** The worker thread: not submitted, in the runner, runner ended and result held, end marker
      put, finished. */
  datatype Phase = Idle | Running | HolderSet | SignalPut | Finished

  /** What the worker thread owns: how much of the program it has run, the step it has logged but
      not yet passed to the live sink, the result holder and the step log. */
  datatype Work = Work(phase: Phase, pos: nat, pending: Option<ChatStep>, holder: Option<Outcome>, log: seq<ChatStep>)

  datatype State = State(
    pc: Pc, atYield: bool, closedAt: Option<Pc>, work: Work,
    sink: bool, deltaQ: seq<Option<string>>, stepQ: seq<ChatStep>,
    live: nat, parts: seq<string>, cursor: nat, flushed: bool, usageRecorded: bool,
    out: seq<Event>, marks: seq<AuditMark>)

  const INIT := State(Begin, false, None, Work(Idle, 0, None, None, []), false, [], [], 0, [], 0, false, false, [], [])

  // -- The worker's steps --

  predicate WorkerEnabled(s: State)
  {
    s.work.phase.Running? || s.work.phase.HolderSet? || s.work.phase.SignalPut?
  }

  /** What the worker does to its own state. */
  function WorkStep(env: Env, w: Work): Work
  {
    match w.phase
    case HolderSet => w.(phase := SignalPut)
    case SignalPut => w.(phase := Finished)
    case Running =>
      if w.pending.Some? then w.(pending := None)
      else if w.pos < |env.program| then
        match env.program[w.pos]
        case Say(_) => w.(pos := w.pos + 1)
        case Log(step) => w.(pos := w.pos + 1, log := w.log + [step], pending := Some(step))
      else w.(holder := Some(env.outcome), phase := HolderSet)
    case _ => w
  }

  /** What the worker puts on the delta queue: a non-empty delta, or the end marker. */
  function Puts(env: Env, w: Work): seq<Option<string>>
  {
    if w.phase.HolderSet? then [None]
    else if w.phase.Running? && w.pending.None? && w.pos < |env.program| && env.program[w.pos].Say?
            && env.program[w.pos].text != ""
    then [Some(env.program[w.pos].text)]
    else []
  }

  function WorkerStep(env: Env, s: State): State
    requires WorkerEnabled(s)
  {
    s.(work := WorkStep(env, s.work),
       deltaQ := s.deltaQ + Puts(env, s.work),
       stepQ := if s.work.phase.Running? && s.work.pending.Some? && s.sink then s.stepQ + [s.work.pending.value]
                else s.stepQ)
  }

  // -- The generator's steps --

  /** A step of the generator: where it goes, the event it yields on the way if any, and what it
      writes to the audit log. */
  datatype Move = Move(next: Pc, emit: seq<Event>, write: seq<AuditMark>)

  function Go(next: Pc): Move
  {
    Move(next, [], [])
  }

  function Yield(e: Event, next: Pc): Move
  {
    Move(next, [e], [])
  }

  function Write(marks: seq<AuditMark>, next: Pc): Move
  {
    Move(next, [], marks)
  }

  /** `_record_provider_usage_once`: the write is attempted once; its own errors are swallowed. */
  function UsageOnce(s: State): seq<AuditMark>
  {
    if s.usageRecorded then [] else [UsageWritten]
  }

  function ContextSteps(env: Env): seq<ChatStep>
  {
    if env.context.Some? then [env.context.value] else []
  }

  /** The steps kept with the assistant message. */
  function PersistedSteps(env: Env, log: seq<ChatStep>): seq<ChatStep>
  {
    NonStarts(ContextSteps(env) + log + [env.answerDone])
  }

  /** What remains of the answer after the streamed text, if the answer extends it. */
  function ClosingDelta(answer: string, streamed: string): string
  {
    if streamed <= answer then answer[|streamed|..] else ""
  }

  predicate Starting(pc: Pc)
  {
    pc.Begin? || pc.AtPrepare? || pc.AtContext? || pc.AtAnswerStart? || pc.Submit?
  }

  predicate InLoop(pc: Pc)
  {
    pc.LoopHead? || pc.LoopDrain? || pc.LoopGet? || pc.LoopBeat?
  }

  predicate Draining(pc: Pc)
  {
    pc.DrainSteps1? || pc.DrainDeltas? || pc.DrainSteps2? || pc.Join?
  }

  predicate InHandler(pc: Pc)
  {
    pc.Reemit? || pc.AtErrorStep? || pc.AtFailPersist? || pc.AtErrorEvent? || pc.AfterError?
  }

  predicate Over(pc: Pc)
  {
    pc.Ended? || pc.EndedWithError? || pc.Escaped? || pc.Closed?
  }

  predicate Finishing(pc: Pc)
  {
    !Starting(pc) && !InLoop(pc) && !Draining(pc) && !InHandler(pc) && !Over(pc)
  }

  /** From the start of the body to the moment the runner is submitted. A raise goes to the failure
      handler. */
  function StartMove(env: Env, s: State): Move
    requires Starting(s.pc)
  {
    match s.pc
    case Begin =>
      if !env.session then Go(AtPrepare)
      else if RecordUser in env.fails then Go(Reemit)
      else Move(AtPrepare, [SessionStarted], [UserMessage])
    case AtPrepare => Go(if Prepare in env.fails then Reemit else AtContext)
    case AtContext =>
      if env.context.Some? then Yield(StepEvent(env.context.value), AtAnswerStart) else Go(AtAnswerStart)
    case AtAnswerStart => Yield(StepEvent(env.answerStart), Submit)
    case Submit => Go(LoopHead)
  }

  /** Whether this step takes a step, or a delta or the end marker, off its queue. */
  predicate TakesStep(s: State)
  {
    (s.pc.LoopDrain? || s.pc.DrainSteps1? || s.pc.DrainSteps2?) && s.stepQ != []
  }

  predicate TakesDelta(s: State)
  {
    (s.pc.LoopGet? || s.pc.DrainDeltas?) && s.deltaQ != []
  }

  function DrainSteps(s: State, after: Pc): Move
  {
    if s.stepQ != [] then Yield(StepEvent(s.stepQ[0]), s.pc) else Go(after)
  }

  /** The loop that runs while the worker does, and the draining after it. `due` says whether a
      heartbeat is due. */
  function RunnerMove(s: State, due: bool): Move
    requires InLoop(s.pc) || Draining(s.pc)
  {
    match s.pc
    case LoopHead => Go(if s.work.phase.Finished? then DrainSteps1 else LoopDrain)
    case LoopDrain => DrainSteps(s, LoopGet)
    case LoopGet =>
      if s.deltaQ == [] then Go(LoopBeat)
      else if s.deltaQ[0].None? then Go(DrainSteps1)
      else Yield(DeltaEvent(s.deltaQ[0].value), LoopBeat)
    case LoopBeat => if due then Yield(Heartbeat, LoopHead) else Go(LoopHead)
    case DrainSteps1 => DrainSteps(s, DrainDeltas)
    case DrainDeltas =>
      if s.deltaQ == [] || s.deltaQ[0].None? then Go(DrainSteps2)
      else Yield(DeltaEvent(s.deltaQ[0].value), DrainDeltas)
    case DrainSteps2 => DrainSteps(s, Join)
    case Join => Go(if s.work.holder == Some(Output) then AtFinish else Reemit)
  }

  /** From the runner's output to the final event. */
  function FinishMove(env: Env, s: State): Move
    requires Finishing(s.pc)
  {
    match s.pc
    case AtFinish => Go(if Finish in env.fails then Reemit else FlushSteps)
    case FlushSteps =>
      if s.cursor < |s.work.log| then Yield(StepEvent(s.work.log[s.cursor]), FlushSteps) else Go(AtAnswerDone)
    case AtAnswerDone => Yield(StepEvent(env.answerDone), FlushToolCalls)
    case FlushToolCalls =>
      if s.cursor < |env.toolCalls| then Yield(ToolCallEvent(env.toolCalls[s.cursor]), FlushToolCalls)
      else Go(AtClosingDelta)
    case AtClosingDelta =>
      var rest := ClosingDelta(env.answer, Concat(s.parts));
      if rest != "" then Yield(DeltaEvent(rest), AtPersist) else Go(AtPersist)
    case AtPersist =>
      if !env.session then Go(AtFinal)
      else if RecordAssistant in env.fails then Go(Reemit)
      else
        var kept := [AssistantMessage(env.answer, PersistedSteps(env, s.work.log))] + UsageOnce(s);
        if SucceedSession in env.fails then Write(kept, Reemit) else Write(kept + [Succeeded], AtFinal)
    case AtFinal => Yield(FinalEvent, AfterFinal)
    case AfterFinal => Go(Ended)
  }

  /** The failure handler. */
  function FailMove(env: Env, s: State): Move
    requires InHandler(s.pc)
  {
    match s.pc
    case Reemit =>
      if !s.flushed && s.cursor < |s.work.log| then Yield(StepEvent(s.work.log[s.cursor]), Reemit) else Go(AtErrorStep)
    case AtErrorStep => Yield(StepEvent(env.answerError), AtFailPersist)
    case AtFailPersist =>
      if !env.session then Go(AtErrorEvent)
      else if FailSession in env.fails then Write(UsageOnce(s), Escaped)
      else Write(UsageOnce(s) + [Failed], AtErrorEvent)
    case AtErrorEvent => Yield(ErrorEvent, AfterError)
    case AfterError => Go(EndedWithError)
  }

  predicate MainEnabled(s: State)
  {
    !Over(s.pc) && (s.pc.Join? ==> s.work.phase.Finished?)
  }

  function MainMove(env: Env, s: State, due: bool): Move
    requires MainEnabled(s)
  {
    if Starting(s.pc) then StartMove(env, s)
    else if InLoop(s.pc) || Draining(s.pc) then RunnerMove(s, due)
    else if Finishing(s.pc) then FinishMove(env, s)
    else FailMove(env, s)
  }

  /** The position in the list that is being yielded: the unstreamed steps, the tool calls, or all
      steps again in the failure handler. */
  function CursorAfter(env: Env, s: State, next: Pc): nat
  {
    if s.pc.AtFinish? && next.FlushSteps? then s.live
    else if next == s.pc then s.cursor + 1
    else 0
  }

  /** One step of the generator, up to its next yield or the next point where it looks at shared
      state. */
  function MainStep(env: Env, s: State, due: bool): State
    requires MainEnabled(s)
  {
    var m := MainMove(env, s, due);
    s.(pc := m.next, atYield := m.emit != [], out := s.out + m.emit, marks := s.marks + m.write,
       work := if s.pc.Submit? then s.work.(phase := Running) else s.work,
       sink := if s.pc.Submit? then true else if m.next.Join? then false else s.sink,
       stepQ := if TakesStep(s) then s.stepQ[1..] else s.stepQ,
       live := if TakesStep(s) then s.live + 1 else s.live,
       deltaQ := if TakesDelta(s) then s.deltaQ[1..] else s.deltaQ,
       parts := if TakesDelta(s) && s.deltaQ[0].Some? then s.parts + [s.deltaQ[0].value] else s.parts,
       cursor := CursorAfter(env, s, m.next),
       flushed := s.flushed || (s.pc.FlushSteps? && m.next.AtAnswerDone?),
       usageRecorded := s.usageRecorded || (env.session && UsageStep(env, s.pc)))
  }

  /** The two places of the body that record provider usage. */
  predicate UsageStep(env: Env, pc: Pc)
  {
    (pc.AtPersist? && RecordAssistant !in env.fails) || pc.AtFailPersist?
  }

  // -- Closing --

  /** The consumer can close the generator before it starts and at every yield. */
  predicate CloseEnabled(s: State)
  {
    s.pc.Begin? || (s.atYield && !Over(s.pc))
  }

  /** A close before the start does nothing. In the body it writes usage and cancels; inside the
      failure handler it leaves at once. While the runner is active it also puts an end marker. */
  function CloseStep(env: Env, s: State): State
    requires CloseEnabled(s)
  {
    s.(pc := Closed, atYield := false, closedAt := Some(s.pc), sink := false,
       deltaQ := if InLoop(s.pc) || Draining(s.pc) then s.deltaQ + [None] else s.deltaQ,
       usageRecorded := s.usageRecorded || ClosesBody(env, s.pc),
       marks := if ClosesBody(env, s.pc) then s.marks + UsageOnce(s) + [Cancelled] else s.marks)
  }

  predicate ClosesBody(env: Env, pc: Pc)
  {
    env.session && !pc.Begin? && !InHandler(pc)
  }

  // -- Runs --

  datatype Action = Main(due: bool) | Worker | Close

  predicate Enabled(s: State, a: Action)
  {
    match a
    case Main(_) => MainEnabled(s)
    case Worker => WorkerEnabled(s)
    case Close => CloseEnabled(s)
  }

  function Next(env: Env, s: State, a: Action): State
    requires Enabled(s, a)
  {
    match a
    case Main(due) => MainStep(env, s, due)
    case Worker => WorkerStep(env, s)
    case Close => CloseStep(env, s)
  }

  /** The state after a schedule; an action that is not enabled leaves the state as it is. */
  function Run(env: Env, schedule: seq<Action>): State
  {
    if schedule == [] then INIT
    else
      var s := Run(env, schedule[..|schedule| - 1]);
      var a := schedule[|schedule| - 1];
      if Enabled(s, a) then Next(env, s, a) else s
  }

  // -- What went out --

  function StepsOf(out: seq<Event>): seq<ChatStep>
  {
    if out == [] then []
    else
      var rest := StepsOf(out[..|out| - 1]);
      match out[|out| - 1]
      case StepEvent(step) => rest + [step]
      case _ => rest
  }

  function DeltasOf(out: seq<Event>): seq<string>
  {
    if out == [] then []
    else
      var rest := DeltasOf(out[..|out| - 1]);
      match out[|out| - 1]
      case DeltaEvent(text) => rest + [text]
      case _ => rest
  }

  function EndingsOf(out: seq<Event>): seq<Event>
  {
    if out == [] then []
    else
      var rest := EndingsOf(out[..|out| - 1]);
      var e := out[|out| - 1];
      if e.FinalEvent? || e.ErrorEvent? then rest + [e] else rest
  }

  function CallsOf(out: seq<Event>): seq<string>
  {
    if out == [] then []
    else
      var rest := CallsOf(out[..|out| - 1]);
      match out[|out| - 1]
      case ToolCallEvent(call) => rest + [call]
      case _ => rest
  }

  function HeartbeatsOf(out: seq<Event>): nat
  {
    if out == [] then 0 else HeartbeatsOf(out[..|out| - 1]) + if out[|out| - 1].Heartbeat? then 1 else 0
  }

  /** What a yield adds to each list. */
  function WithStep(steps: seq<ChatStep>, emit: seq<Event>): seq<ChatStep>
  {
    if emit != [] && emit[0].StepEvent? then steps + [emit[0].step] else steps
  }

  function WithDelta(deltas: seq<string>, emit: seq<Event>): seq<string>
  {
    if emit != [] && emit[0].DeltaEvent? then deltas + [emit[0].text] else deltas
  }

  function WithEnding(endings: seq<Event>, emit: seq<Event>): seq<Event>
  {
    if emit != [] && (emit[0].FinalEvent? || emit[0].ErrorEvent?) then endings + [emit[0]] else endings
  }

  function WithCall(calls: seq<string>, emit: seq<Event>): seq<string>
  {
    if emit != [] && emit[0].ToolCallEvent? then calls + [emit[0].call] else calls
  }

  lemma {:induction false} CallsAfter(out: seq<Event>, emit: seq<Event>)
    requires |emit| <= 1
    ensures CallsOf(out + emit) == WithCall(CallsOf(out), emit)
    ensures HeartbeatsOf(out + emit) == HeartbeatsOf(out) + if emit == [Heartbeat] then 1 else 0
  {
    if emit == [] {
      assert out + emit == out;
    } else {
      assert (out + emit)[..|out|] == out;
    }
  }

  lemma {:induction false} OutAfter(out: seq<Event>, emit: seq<Event>)
    requires |emit| <= 1
    ensures StepsOf(out + emit) == WithStep(StepsOf(out), emit)
    ensures DeltasOf(out + emit) == WithDelta(DeltasOf(out), emit)
    ensures EndingsOf(out + emit) == WithEnding(EndingsOf(out), emit)
  {
    if emit == [] {
      assert out + emit == out;
    } else {
      assert (out + emit)[..|out|] == out;
    }
  }

  // -- What the runner produces --

  function StepsIn(program: seq<Op>, n: nat): seq<ChatStep>
    requires n <= |program|
  {
    if n == 0 then []
    else
      var rest := StepsIn(program, n - 1);
      if program[n - 1].Log? then rest + [program[n - 1].step] else rest
  }

  function TextsIn(program: seq<Op>, n: nat): seq<string>
    requires n <= |program|
  {
    if n == 0 then []
    else
      var rest := TextsIn(program, n - 1);
      if program[n - 1].Say? && program[n - 1].text != "" then rest + [program[n - 1].text] else rest
  }
}
