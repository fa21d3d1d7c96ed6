/** Every fair schedule of the chat stream ends, and ends as the request decides. */
module StreamFairness {
  import opened StreamEndings
  import opened StreamInvariants
  import opened StreamProgress
  import opened StreamProtocol
  import opened StreamSteps

  // -- Infinite schedules --

  /** The first `n` actions of an infinite schedule. */
  function Prefix(sigma: nat -> Action, n: nat): (schedule: seq<Action>)
    ensures |schedule| == n
  {
    seq(n, (i: nat) => sigma(i))
  }

  function StateAt(env: Env, sigma: nat -> Action, n: nat): State
  {
    Run(env, Prefix(sigma, n))
  }

  lemma {:induction false} StateAfter(env: Env, sigma: nat -> Action, n: nat)
    ensures var s := StateAt(env, sigma, n);
            StateAt(env, sigma, n + 1) == if Enabled(s, sigma(n)) then Next(env, s, sigma(n)) else s
  {
    assert Prefix(sigma, n + 1)[..n] == Prefix(sigma, n);
  }

  ghost predicate MainComes(sigma: nat -> Action, n: nat)
  {
    exists m: nat :: n <= m && sigma(m).Main?
  }

  ghost predicate WorkerComes(sigma: nat -> Action, n: nat)
  {
    exists m: nat :: n <= m && sigma(m).Worker?
  }

  /** Generator and worker get their turn again and again, and the consumer does not close the stream. */
  ghost predicate Fair(sigma: nat -> Action)
  {
    && (forall n: nat :: sigma(n) != Close)
    && (forall n: nat :: MainComes(sigma, n))
    && (forall n: nat :: WorkerComes(sigma, n))
  }

  /** Taking turns is fair. */
  lemma {:induction false} TakingTurnsIsFair(due: bool)
    ensures Fair((n: nat) => if n % 2 == 0 then Main(due) else Worker)
  {
    var sigma := (n: nat) => if n % 2 == 0 then Main(due) else Worker;
    forall n: nat
      ensures MainComes(sigma, n) && WorkerComes(sigma, n)
    {
      assert sigma(2 * n).Main? && sigma(2 * n + 1).Worker?;
    }
  }

  // -- A rule for fair schedules --

  /** What is observed of a run at each moment: whether it is over, whether it is the worker's turn that
      counts, and how much is left. */
  datatype Observed = Observed(over: bool, workersTurn: bool, left: Left)

  predicate Counts(workersTurn: bool, a: Action)
  {
    if workersTurn then a.Worker? else a.Main?
  }

  /** A turn that counts leaves less; any other turn changes nothing that is observed. */
  predicate TurnCounts(sigma: nat -> Action, seen: nat -> Observed, n: nat)
  {
    !seen(n).over ==>
      if Counts(seen(n).workersTurn, sigma(n)) then Less(seen(n + 1).left, seen(n).left)
      else seen(n + 1) == seen(n)
  }

  ghost predicate TurnsCount(sigma: nat -> Action, seen: nat -> Observed)
  {
    forall n: nat :: TurnCounts(sigma, seen, n)
  }

  lemma {:induction false} NextCount(sigma: nat -> Action, seen: nat -> Observed, n: nat, m: nat) returns (k: nat)
    requires TurnsCount(sigma, seen) && n <= m && !seen(n).over
    requires Counts(seen(n).workersTurn, sigma(m))
    ensures n < k && Less(seen(k).left, seen(n).left)
    decreases m - n
  {
    assert TurnCounts(sigma, seen, n);
    if Counts(seen(n).workersTurn, sigma(n)) {
      k := n + 1;
    } else {
      k := NextCount(sigma, seen, n + 1, m);
    }
  }

  lemma {:induction false} LeftFalls(sigma: nat -> Action, seen: nat -> Observed, n: nat) returns (k: nat)
    requires Fair(sigma) && TurnsCount(sigma, seen) && !seen(n).over
    ensures n < k && Less(seen(k).left, seen(n).left)
  {
    var m: nat;
    if seen(n).workersTurn {
      assert WorkerComes(sigma, n);
      m :| n <= m && sigma(m).Worker?;
    } else {
      assert MainComes(sigma, n);
      m :| n <= m && sigma(m).Main?;
    }
    k := NextCount(sigma, seen, n, m);
  }

  /** If turns count, a fair schedule leads to the end. */
  lemma {:induction false} FairTurnsEnd(sigma: nat -> Action, seen: nat -> Observed, n: nat, left: Left)
    returns (end: nat)
    requires Fair(sigma) && TurnsCount(sigma, seen) && left == seen(n).left
    ensures seen(end).over
    decreases left.start, left.work, left.main
  {
    end := n;
    if !seen(n).over {
      var k := LeftFalls(sigma, seen, n);
      end := FairTurnsEnd(sigma, seen, k, seen(k).left);
    }
  }

  // -- Turns that count --

  /** Whose turn brings the end closer: the worker's while it runs, and else the generator's. */
  predicate WorkersTurn(s: State)
  {
    !Starting(s.pc) && WorkerEnabled(s)
  }

  /** The steps left, without those of the generator while the worker still runs: it can go round its
      loop any number of times. */
  function Rank(env: Env, s: State): Left
  {
    var left := LeftAt(env, s);
    if Starting(s.pc) || WorkerEnabled(s) then left.(main := 0) else left
  }

  function Seen(env: Env, s: State): Observed
  {
    Observed(Over(s.pc), WorkersTurn(s), Rank(env, s))
  }

  lemma {:induction false} AdvancingStep(env: Env, s: State, a: Action)
    requires WorkInv(env, s.work) && PhaseInv(env, s) && !Over(s.pc) && Counts(WorkersTurn(s), a)
    ensures Enabled(s, a) && Less(Rank(env, Next(env, s, a)), Rank(env, s))
  {
    if Starting(s.pc) {
      StartAdvances(env, s, a.due);
    } else if WorkerEnabled(s) {
      WorkerAdvances(env, s);
    } else {
      MainAdvances(env, s, a.due);
    }
  }

  /** Only a turn of the generator's loop beside a running worker is enabled and does not count. */
  lemma {:induction false} OtherIsLoopTurn(env: Env, s: State, a: Action)
    requires WorkInv(env, s.work) && PhaseInv(env, s)
    requires !Over(s.pc) && !Counts(WorkersTurn(s), a) && a != Close && Enabled(s, a)
    ensures WorkerEnabled(s) && a.Main? && (InLoop(s.pc) || Draining(s.pc)) && !s.pc.Join?
  {
  }

  lemma {:induction false} LoopTurn(env: Env, s: State, due: bool)
    requires (InLoop(s.pc) || Draining(s.pc)) && !s.pc.Join?
    ensures var t := MainStep(env, s, due);
            t.work == s.work && (InLoop(t.pc) || Draining(t.pc))
  {
    LoopStays(s, due);
    assert MainStep(env, s, due).pc == RunnerMove(s, due).next;
  }

  lemma {:induction false} SameSeen(env: Env, s: State, t: State)
    requires WorkerEnabled(s) && t.work == s.work
    requires (InLoop(s.pc) || Draining(s.pc)) && (InLoop(t.pc) || Draining(t.pc))
    ensures Seen(env, t) == Seen(env, s)
  {
  }

  /** Any other turn changes nothing of this. */
  lemma {:induction false} OtherStep(env: Env, s: State, a: Action, t: State)
    requires WorkInv(env, s.work) && PhaseInv(env, s)
    requires !Over(s.pc) && !Counts(WorkersTurn(s), a) && a != Close
    requires t == if Enabled(s, a) then Next(env, s, a) else s
    ensures Seen(env, t) == Seen(env, s)
  {
    if Enabled(s, a) {
      OtherIsLoopTurn(env, s, a);
      LoopTurn(env, s, a.due);
      SameSeen(env, s, t);
    }
  }

  lemma {:induction false} StateIsSound(env: Env, sigma: nat -> Action, n: nat)
    ensures var s := StateAt(env, sigma, n); WorkInv(env, s.work) && PhaseInv(env, s)
  {
    RunKeepsInv(env, Prefix(sigma, n));
  }

  lemma {:induction false} TurnOfRunCounts(env: Env, sigma: nat -> Action, n: nat)
    requires sigma(n) != Close
    ensures TurnCounts(sigma, (i: nat) => Seen(env, StateAt(env, sigma, i)), n)
  {
    var s, a, t := StateAt(env, sigma, n), sigma(n), StateAt(env, sigma, n + 1);
    StateIsSound(env, sigma, n);
    StateAfter(env, sigma, n);
    if !Over(s.pc) {
      if Counts(WorkersTurn(s), a) {
        AdvancingStep(env, s, a);
      } else {
        OtherStep(env, s, a, t);
      }
    }
  }

  // -- What fairness gives --

  lemma {:induction false} OnlyCloseCloses(env: Env, s: State, a: Action)
    requires Enabled(s, a) && a != Close && !s.pc.Closed?
    ensures !Next(env, s, a).pc.Closed?
  {
  }

  lemma {:induction false} NeverClosed(env: Env, sigma: nat -> Action, n: nat)
    requires Fair(sigma)
    ensures !StateAt(env, sigma, n).pc.Closed?
  {
    if n > 0 {
      var s, a := StateAt(env, sigma, n - 1), sigma(n - 1);
      NeverClosed(env, sigma, n - 1);
      StateAfter(env, sigma, n - 1);
      if Enabled(s, a) {
        OnlyCloseCloses(env, s, a);
      }
    }
  }

  lemma {:induction false} NothingAfterEnd(env: Env, s: State, a: Action)
    requires PhaseInv(env, s) && Over(s.pc) && !s.pc.Closed?
    ensures !Enabled(s, a)
  {
  }

  lemma {:induction false} OverStays(env: Env, sigma: nat -> Action, n: nat, m: nat)
    requires Fair(sigma) && n <= m && Over(StateAt(env, sigma, n).pc)
    ensures StateAt(env, sigma, m) == StateAt(env, sigma, n)
    decreases m - n
  {
    if n < m {
      NeverClosed(env, sigma, n);
      StateIsSound(env, sigma, n);
      StateAfter(env, sigma, n);
      NothingAfterEnd(env, StateAt(env, sigma, n), sigma(n));
      OverStays(env, sigma, n + 1, m);
    }
  }

  /** However generator and worker take turns, if each keeps getting its turn the stream ends and stays as
      it is; and steps, deltas, tool calls, ending and audit log are those that the request decides. */
  lemma {:induction false} FairRunsEnd(env: Env, sigma: nat -> Action) returns (end: nat)
    requires Fair(sigma)
    ensures forall m :: m >= end ==> StateAt(env, sigma, m) == StateAt(env, sigma, end)
    ensures var s := StateAt(env, sigma, end);
            && s.pc == EndOf(env)
            && StepsOf(s.out) == FinalSteps(env)
            && DeltasOf(s.out) == FinalDeltas(env)
            && CallsOf(s.out) == FinalCalls(env)
            && EndingsOf(s.out) == EndingsAt(EndOf(env))
            && s.marks == FinalMarks(env)
  {
    var seen := (i: nat) => Seen(env, StateAt(env, sigma, i));
    forall n: nat
      ensures TurnCounts(sigma, seen, n)
    {
      TurnOfRunCounts(env, sigma, n);
    }
    end := FairTurnsEnd(sigma, seen, 0, seen(0).left);
    NeverClosed(env, sigma, end);
    RequestDecidesTheRun(env, Prefix(sigma, end));
    forall m | m >= end
      ensures StateAt(env, sigma, m) == StateAt(env, sigma, end)
    {
      OverStays(env, sigma, end, m);
    }
  }
}
