/** The chat stream never gets stuck: from every state that a run reaches, the worker and the
    generator can go on to an end by themselves. */
module StreamProgress {
  import opened StreamInvariants
  import opened StreamProtocol
  import opened StreamSteps

  /** How many steps the worker has left. */
  function WorkLeft(env: Env, w: Work): nat
    requires w.pos <= |env.program|
  {
    match w.phase
    case Running => 2 * (|env.program| - w.pos) + (if w.pending.Some? then 1 else 0) + 3
    case HolderSet => 2
    case SignalPut => 1
    case _ => 0
  }

  lemma {:induction false} WorkerAdvances(env: Env, s: State)
    requires WorkInv(env, s.work) && WorkerEnabled(s)
    ensures var t := WorkerStep(env, s);
            t.work.pos <= |env.program| && WorkLeft(env, t.work) < WorkLeft(env, s.work) && t.pc == s.pc
  {
  }

  /** How many steps the generator has left before it submits the runner. */
  function StartLeft(pc: Pc): nat
  {
    match pc
    case Begin => 5
    case AtPrepare => 4
    case AtContext => 3
    case AtAnswerStart => 2
    case Submit => 1
    case _ => 0
  }

  function Remaining(total: nat, done: nat): nat
  {
    if done < total then total - done else 0
  }

  function HandlerLeft(s: State): nat
  {
    match s.pc
    case Reemit => 5 + Remaining(|s.work.log|, s.cursor)
    case AtErrorStep => 4
    case AtFailPersist => 3
    case AtErrorEvent => 2
    case AfterError => 1
    case _ => 0
  }

  /** The longest way through the failure handler. */
  function HandlerMost(s: State): nat
  {
    6 + |s.work.log|
  }

  function FinishLeft(env: Env, s: State): nat
  {
    var calls := |env.toolCalls|;
    match s.pc
    case AtFinish => HandlerMost(s) + 6 + calls + |s.work.log|
    case FlushSteps => HandlerMost(s) + 5 + calls + Remaining(|s.work.log|, s.cursor)
    case AtAnswerDone => HandlerMost(s) + 4 + calls
    case FlushToolCalls => HandlerMost(s) + 3 + Remaining(calls, s.cursor)
    case AtClosingDelta => HandlerMost(s) + 2
    case AtPersist => HandlerMost(s) + 1
    case AtFinal => 2
    case AfterFinal => 1
    case _ => 0
  }

  function FinishMost(env: Env, s: State): nat
  {
    HandlerMost(s) + 7 + |env.toolCalls| + |s.work.log|
  }

  function RunnerLeft(env: Env, s: State): nat
  {
    var most, steps, deltas := FinishMost(env, s), |s.stepQ|, |s.deltaQ|;
    match s.pc
    case LoopDrain => most + 7 + steps + deltas
    case LoopGet => most + 6 + steps + deltas
    case LoopBeat => most + 5 + steps + deltas
    case LoopHead => most + 4 + steps + deltas
    case DrainSteps1 => most + 3 + steps + deltas
    case DrainDeltas => most + 2 + steps + deltas
    case DrainSteps2 => most + 1 + steps
    case Join => most
    case _ => 0
  }

  /** How many steps the generator has left once the worker has finished. */
  function MainLeft(env: Env, s: State): nat
  {
    if InLoop(s.pc) || Draining(s.pc) then RunnerLeft(env, s)
    else if Finishing(s.pc) then FinishLeft(env, s)
    else HandlerLeft(s)
  }

  lemma {:induction false} StartAdvances(env: Env, s: State, due: bool)
    requires Starting(s.pc)
    ensures StartLeft(MainStep(env, s, due).pc) < StartLeft(s.pc)
  {
  }

  lemma {:induction false} RunnerAdvances(env: Env, s: State, due: bool)
    requires (InLoop(s.pc) || Draining(s.pc)) && s.work.phase.Finished?
    ensures MainLeft(env, MainStep(env, s, due)) < MainLeft(env, s)
    ensures StartLeft(MainStep(env, s, due).pc) == 0
  {
  }

  lemma {:induction false} FinishAdvances(env: Env, s: State, due: bool)
    requires Finishing(s.pc)
    ensures MainLeft(env, MainStep(env, s, due)) < MainLeft(env, s)
    ensures StartLeft(MainStep(env, s, due).pc) == 0
  {
  }

  lemma {:induction false} HandlerAdvances(env: Env, s: State, due: bool)
    requires InHandler(s.pc)
    ensures MainLeft(env, MainStep(env, s, due)) < MainLeft(env, s)
    ensures StartLeft(MainStep(env, s, due).pc) == 0
  {
  }

  lemma {:induction false} MainAdvances(env: Env, s: State, due: bool)
    requires MainEnabled(s) && !Starting(s.pc) && !WorkerEnabled(s) && WorkInv(env, s.work) && PhaseInv(env, s)
    ensures MainLeft(env, MainStep(env, s, due)) < MainLeft(env, s)
    ensures StartLeft(MainStep(env, s, due).pc) == 0
    ensures MainStep(env, s, due).work == s.work
  {
    if InLoop(s.pc) || Draining(s.pc) {
      RunnerAdvances(env, s, due);
    } else if Finishing(s.pc) {
      FinishAdvances(env, s, due);
    } else {
      HandlerAdvances(env, s, due);
    }
  }

  lemma {:induction false} RunSnoc(env: Env, schedule: seq<Action>, a: Action)
    requires Enabled(Run(env, schedule), a)
    ensures Run(env, schedule + [a]) == Next(env, Run(env, schedule), a)
  {
    assert (schedule + [a])[..|schedule|] == schedule;
  }

  /** The steps left: before the runner is submitted, on the worker, and behind the worker. */
  datatype Left = Left(start: nat, work: nat, main: nat)

  function LeftAt(env: Env, s: State): Left
  {
    Left(StartLeft(s.pc), if s.work.pos <= |env.program| then WorkLeft(env, s.work) else 0, MainLeft(env, s))
  }

  predicate Less(a: Left, b: Left)
  {
    a.start < b.start || (a.start == b.start && (a.work < b.work || (a.work == b.work && a.main < b.main)))
  }

  /** Some step is always possible that brings the end closer. */
  lemma {:induction false} SomeStepAdvances(env: Env, s: State) returns (a: Action)
    requires Inv(env, s) && !Over(s.pc)
    ensures a != Close && Enabled(s, a)
    ensures Less(LeftAt(env, Next(env, s, a)), LeftAt(env, s))
  {
    if Starting(s.pc) {
      a := Main(false);
      StartAdvances(env, s, false);
      MainKeepsWork(env, s, false);
    } else if WorkerEnabled(s) {
      a := Worker;
      WorkerAdvances(env, s);
      WorkerKeepsWork(env, s);
    } else {
      a := Main(false);
      MainAdvances(env, s, false);
    }
  }

  lemma {:induction false} SomeRunAdvances(env: Env, schedule: seq<Action>) returns (a: Action)
    requires !Over(Run(env, schedule).pc)
    ensures a != Close
    ensures Less(LeftAt(env, Run(env, schedule + [a])), LeftAt(env, Run(env, schedule)))
  {
    RunKeepsInv(env, schedule);
    a := SomeStepAdvances(env, Run(env, schedule));
    RunSnoc(env, schedule, a);
  }

  /** From every reachable state there is a way to an end that uses no close: some step is always
      possible, and a worker that runs lets the generator finish. */
  lemma {:induction false} EveryRunCanEnd(env: Env, schedule: seq<Action>) returns (more: seq<Action>)
    ensures Over(Run(env, schedule + more).pc)
    ensures Close !in more
  {
    more := EndFrom(env, schedule, LeftAt(env, Run(env, schedule)));
  }

  lemma {:induction false} EndFrom(env: Env, schedule: seq<Action>, left: Left) returns (more: seq<Action>)
    requires left == LeftAt(env, Run(env, schedule))
    ensures Over(Run(env, schedule + more).pc)
    ensures Close !in more
    decreases left.start, left.work, left.main
  {
    if Over(Run(env, schedule).pc) {
      more := [];
      assert schedule + more == schedule;
    } else {
      var a := SomeRunAdvances(env, schedule);
      var rest := EndFrom(env, schedule + [a], LeftAt(env, Run(env, schedule + [a])));
      more := [a] + rest;
      assert schedule + more == schedule + [a] + rest;
    }
  }
}
