/**
 The cycles of the autonomous live engine (src/engine/LiveEngine.ts). `evaluateOnce` is started by
 a timer that does not wait for the previous cycle, so cycles interleave at their awaits. The
 class below has one method for each synchronous stretch between two awaits, proved against a step
 function; the lemmas are about every interleaving of such steps, and about the ledger the
 engine reads at the moment it starts a placement.
 */
module LiveEngine {
  import opened Wrappers
  import opened Orders
  import opened SubmissionRules

  type Cycle = nat

  // Where a cycle is waiting.
  datatype Stage =
    | Loading        // market information
    | Reconciling    // monitor and reconcile
    | Reconciled     // the outcome is applied, the cycle resumes next
    | Placing        // liveOrderEngine.place
    | Accounting     // the second reconcile
    | Accounted

  // A call of `place`: by which cycle, and the ledger at that instant.
  datatype Placement = Placement(cycle: Cycle, ledger: Ledger)

  datatype Outcome =
    | Sound              // reconciled, no halting condition
    | Halting(why: string)
    | Throws

  datatype PlaceResult = GateRefused | Rejected | Acknowledged | UnknownResult | PlaceThrows

  // What a resumed cycle decides: the coordinator's selection passes the pre-trade gate or not.
  datatype Decision = NoTrade | Blocked | Trade | DecisionThrows

  datatype State = State(
    halted: Option<string>,
    errors: nat,
    ordersPlaced: nat,
    cycles: map<Cycle, Stage>,
    started: set<Cycle>,
    placements: seq<Placement>)
  {
    function Halt(why: string): State {
      if halted.Some? then this else this.(halted := Some(why))
    }

    function At(c: Cycle, stage: Stage): State {
      this.(cycles := cycles[c := stage])
    }

    function End(c: Cycle): State {
      this.(cycles := cycles - {c})
    }

    // The catch of `evaluateOnce`.
    function Fail(c: Cycle, max: nat): State {
      var failed := this.(errors := errors + 1).End(c);
      if failed.errors >= max then failed.Halt("consecutive cycle errors") else failed
    }

    function Finish(c: Cycle): State {
      this.(errors := 0).End(c)
    }

    predicate Waits(c: Cycle, stage: Stage) {
      c in cycles && cycles[c] == stage
    }
  }

  datatype Step =
    | Begin(cycle: Cycle, loaded: bool, killed: bool)
    | Load(cycle: Cycle, killed: bool)
    | Reconcile(cycle: Cycle, outcome: Outcome)
    | Resume(cycle: Cycle, ledger: Ledger, decision: Decision)
    | Return(cycle: Cycle, result: PlaceResult)
    | Account(cycle: Cycle, outcome: Outcome)
    | Conclude(cycle: Cycle)
    | ExternalHalt(why: string)

  const START := State(None, 0, 0, map[], {}, [])

  function Killed(s: State, killed: bool): State {
    if killed then s.Halt("kill switch active") else s
  }

  function Next(max: nat, s: State, step: Step): State {
    match step
    case Begin(c, loaded, killed) =>
      if c in s.started then s
      else
        var begun := s.(started := s.started + {c});
        if loaded then Killed(begun, killed).At(c, Reconciling) else begun.At(c, Loading)
    case Load(c, killed) => if s.Waits(c, Loading) then Killed(s, killed).At(c, Reconciling) else s
    case Reconcile(c, outcome) =>
      if !s.Waits(c, Reconciling) then s
      else (match outcome
            case Sound => s.At(c, Reconciled)
            case Halting(why) => s.Halt(why).At(c, Reconciled)
            case Throws => s.Fail(c, max))
    case Resume(c, ledger, decision) =>
      if !s.Waits(c, Reconciled) then s
      else if s.halted.Some? then s.End(c)
      else if HasInFlight(ledger) then s.Finish(c)
      else (match decision
            case NoTrade => s.Finish(c)
            case Blocked => s.Finish(c)
            case DecisionThrows => s.Fail(c, max)
            case Trade => s.(placements := s.placements + [Placement(c, ledger)]).At(c, Placing))
    case Return(c, result) =>
      if !s.Waits(c, Placing) then s
      else (match result
            case GateRefused => s.Finish(c)
            case Rejected => s.Finish(c)
            case UnknownResult => s.(ordersPlaced := s.ordersPlaced + 1).Halt("ambiguous LIVE submission").Finish(c)
            case Acknowledged => s.(ordersPlaced := s.ordersPlaced + 1).At(c, Accounting)
            case PlaceThrows => s.Fail(c, max))
    case Account(c, outcome) =>
      if !s.Waits(c, Accounting) then s
      else (match outcome
            case Sound => s.At(c, Accounted)
            case Halting(why) => s.Halt(why).At(c, Accounted)
            case Throws => s.Fail(c, max))
    case Conclude(c) => if s.Waits(c, Accounted) then s.Finish(c) else s
    case ExternalHalt(why) => s.Halt(why)
  }

  function Run(max: nat, s: State, steps: seq<Step>): State
    decreases |steps|
  {
    if steps == [] then s else Next(max, Run(max, s, steps[..|steps| - 1]), steps[|steps| - 1])
  }

  // ---- The engine itself ----

  class LiveEngine {
    const maxConsecutiveErrors: nat
    const killSwitch: bool
    var halt: Option<string>
    var consecutiveErrors: nat
    var ordersPlaced: nat
    var marketInfoLoaded: bool
    // the suspended cycles, and the history of started cycles and placements
    var waiting: map<Cycle, Stage>
    ghost var started: set<Cycle>
    ghost var placements: seq<Placement>

    constructor (maxConsecutiveErrors: nat, killSwitch: bool)
      ensures Now() == START && this.maxConsecutiveErrors == maxConsecutiveErrors && this.killSwitch == killSwitch
      ensures !marketInfoLoaded
    {
      this.maxConsecutiveErrors, this.killSwitch := maxConsecutiveErrors, killSwitch;
      halt, consecutiveErrors, ordersPlaced, marketInfoLoaded, waiting := None, 0, 0, false, map[];
      started, placements := {}, [];
    }

    ghost function Now(): State
      reads this
    {
      State(halt, consecutiveErrors, ordersPlaced, waiting, started, placements)
    }

    method HaltNow(why: string)
      modifies this
      ensures Now() == old(Now()).Halt(why) && marketInfoLoaded == old(marketInfoLoaded)
    {
      if halt.None? { halt := Some(why); }
    }

    // `evaluateOnce` up to its first await. The kill switch is configured or the risk manager's.
    method BeginCycle(c: Cycle, riskKillSwitch: bool)
      requires c !in started
      modifies this
      ensures Now()
          == Next(maxConsecutiveErrors, old(Now()), Begin(c, old(marketInfoLoaded), killSwitch || riskKillSwitch))
      ensures marketInfoLoaded == old(marketInfoLoaded)
    {
      started := started + {c};
      if marketInfoLoaded {
        if killSwitch || riskKillSwitch { HaltNow("kill switch active"); }
        waiting := waiting[c := Reconciling];
      } else {
        waiting := waiting[c := Loading];
      }
    }

    method MarketInfoLoaded(c: Cycle, riskKillSwitch: bool)
      requires c in waiting && waiting[c] == Loading
      modifies this
      ensures Now() == Next(maxConsecutiveErrors, old(Now()), Load(c, killSwitch || riskKillSwitch))
      ensures marketInfoLoaded
    {
      marketInfoLoaded := true;
      if killSwitch || riskKillSwitch { HaltNow("kill switch active"); }
      waiting := waiting[c := Reconciling];
    }

    method CatchError(c: Cycle)
      modifies this
      ensures Now() == old(Now()).Fail(c, maxConsecutiveErrors) && marketInfoLoaded == old(marketInfoLoaded)
    {
      consecutiveErrors := consecutiveErrors + 1;
      waiting := waiting - {c};
      if consecutiveErrors >= maxConsecutiveErrors { HaltNow("consecutive cycle errors"); }
    }

    // The end of `reconcileAndAccount`, in either place where a cycle awaits it.
    method ReconcileReturned(c: Cycle, outcome: Outcome)
      requires c in waiting && (waiting[c] == Reconciling || waiting[c] == Accounting)
      modifies this
      ensures Now() == Next(maxConsecutiveErrors, old(Now()),
                            if old(waiting)[c] == Reconciling then Reconcile(c, outcome) else Account(c, outcome))
    {
      match outcome {
        case Throws => CatchError(c); return;
        case Halting(why) => HaltNow(why);
        case Sound =>
      }
      waiting := waiting[c := if waiting[c] == Reconciling then Reconciled else Accounted];
    }

    // From the reconcile to the start of a placement, without an await in between.
    method Resumed(c: Cycle, ledger: Ledger, decision: Decision) returns (placed: bool)
      requires c in waiting && waiting[c] == Reconciled
      modifies this
      ensures Now() == Next(maxConsecutiveErrors, old(Now()), Resume(c, ledger, decision))
      ensures placed <==> placements != old(placements)
      ensures placed <==> old(halt).None? && !HasInFlight(ledger) && decision.Trade?
    {
      placed := false;
      if halt.Some? { waiting := waiting - {c}; return; }
      if HasInFlight(ledger) || decision.NoTrade? || decision.Blocked? {
        consecutiveErrors := 0;
        waiting := waiting - {c};
        return;
      }
      if decision.DecisionThrows? { CatchError(c); return; }
      placed := true;
      placements := placements + [Placement(c, ledger)];
      waiting := waiting[c := Placing];
    }

    method PlaceReturned(c: Cycle, result: PlaceResult)
      requires c in waiting && waiting[c] == Placing
      modifies this
      ensures Now() == Next(maxConsecutiveErrors, old(Now()), Return(c, result))
    {
      if result.PlaceThrows? { CatchError(c); return; }
      if result.UnknownResult? || result.Acknowledged? { ordersPlaced := ordersPlaced + 1; }
      if result.UnknownResult? { HaltNow("ambiguous LIVE submission"); }
      if result.Acknowledged? {
        waiting := waiting[c := Accounting];
      } else {
        consecutiveErrors := 0;
        waiting := waiting - {c};
      }
    }

    method CycleConcluded(c: Cycle)
      requires c in waiting && waiting[c] == Accounted
      modifies this
      ensures Now() == Next(maxConsecutiveErrors, old(Now()), Conclude(c))
    {
      consecutiveErrors := 0;
      waiting := waiting - {c};
    }
  }

  // ---- Every interleaving ----

  // Every placement is a cycle's only one, made after its own reconcile while the ledger held no
  // unresolved live order; enough consecutive errors have halted the engine.
  ghost predicate Sane(max: nat, s: State) {
    && (forall c :: c in s.cycles ==> c in s.started)
    && (forall i :: 0 <= i < |s.placements| ==> Placed(s, s.placements[i]))
    && (forall i, j :: 0 <= i < j < |s.placements| ==> s.placements[i].cycle != s.placements[j].cycle)
    && (s.errors >= max && s.errors > 0 ==> s.halted.Some?)
  }

  ghost predicate Placed(s: State, p: Placement) {
    && p.cycle in s.started && !HasInFlight(p.ledger)
    && (p.cycle in s.cycles ==>
          s.cycles[p.cycle].Placing? || s.cycles[p.cycle].Accounting? || s.cycles[p.cycle].Accounted?)
  }

  lemma NextIsSane(max: nat, s: State, step: Step)
    requires Sane(max, s)
    ensures Sane(max, Next(max, s, step))
  {
    hide HasInFlight;
    var t := Next(max, s, step);
    StepShape(max, s, step);
    hide Next;
    forall i | 0 <= i < |t.placements| ensures Placed(t, t.placements[i]) {
      if i < |s.placements| { assert Placed(s, s.placements[i]) && t.placements[i] == s.placements[i]; }
    }
  }

  // A step moves at most its own cycle, and a placement is the move of a reconciled one.
  lemma StepShape(max: nat, s: State, step: Step)
    ensures var t := Next(max, s, step);
            && s.started <= t.started
            && (t.errors >= max && t.errors > 0 ==>
                t.halted.Some? || (s.errors >= max && s.errors > 0 && s.halted.None?))
            && (s.halted.Some? ==> t.halted.Some?)
            && (t.placements == s.placements
                || (step.Resume? && s.Waits(step.cycle, Reconciled) && !HasInFlight(step.ledger)
                    && t.Waits(step.cycle, Placing)
                    && t.placements == s.placements + [Placement(step.cycle, step.ledger)]))
            && (forall c :: c in t.cycles ==>
                  || (c in s.cycles && t.cycles[c] == s.cycles[c])
                  || (c !in s.started && c in t.started)
                  || (c in s.cycles && Later(s.cycles[c], t.cycles[c])))
  {
    hide HasInFlight;
  }

  predicate Later(a: Stage, b: Stage) {
    !(a.Placing? || a.Accounting? || a.Accounted?) || b.Placing? || b.Accounting? || b.Accounted?
  }

  lemma {:induction false} RunIsSane(max: nat, steps: seq<Step>)
    ensures Sane(max, Run(max, START, steps))
    decreases |steps|
  {
    if steps != [] {
      RunIsSane(max, steps[..|steps| - 1]);
      NextIsSane(max, Run(max, START, steps[..|steps| - 1]), steps[|steps| - 1]);
    }
  }

  // The halt is sticky: its first reason stays, and no placement starts after it, whatever the
  // cycles already under way do.
  lemma {:induction false} HaltIsSticky(max: nat, s: State, steps: seq<Step>)
    requires s.halted.Some?
    ensures Run(max, s, steps).halted == s.halted && Run(max, s, steps).placements == s.placements
    decreases |steps|
  {
    if steps != [] {
      HaltIsSticky(max, s, steps[..|steps| - 1]);
      hide HasInFlight;
    }
  }

  // The last event of a run that grows the placements: the cycle's own reconcile ended in this
  // run before it, and nothing is halted or unresolved at that instant.
  lemma {:induction false} ReconciledItself(max: nat, steps: seq<Step>, c: Cycle)
    requires Run(max, START, steps).Waits(c, Reconciled)
    ensures exists i :: 0 <= i < |steps| && steps[i].Reconcile? && steps[i].cycle == c && !steps[i].outcome.Throws?
    decreases |steps|
  {
    var init := steps[..|steps| - 1];
    hide HasInFlight;
    if Run(max, START, init).Waits(c, Reconciled) {
      ReconciledItself(max, init, c);
      var i :| 0 <= i < |init| && init[i].Reconcile? && init[i].cycle == c && !init[i].outcome.Throws?;
      assert steps[i] == init[i];
    } else {
      assert steps[|steps| - 1].Reconcile? && steps[|steps| - 1].cycle == c && !steps[|steps| - 1].outcome.Throws?;
    }
  }

  lemma EachPlacementIsItsCyclesOnly(max: nat, steps: seq<Step>, next: Step)
    requires Next(max, Run(max, START, steps), next).placements != Run(max, START, steps).placements
    ensures var s := Run(max, START, steps);
            && next.Resume? && s.halted.None? && !HasInFlight(next.ledger)
            && Next(max, s, next).placements == s.placements + [Placement(next.cycle, next.ledger)]
            && (forall i :: 0 <= i < |s.placements| ==> s.placements[i].cycle != next.cycle)
            && exists i ::
                 0 <= i < |steps| && steps[i].Reconcile? && steps[i].cycle == next.cycle && !steps[i].outcome.Throws?
  {
    var s := Run(max, START, steps);
    RunIsSane(max, steps);
    NextIsSane(max, s, next);
    hide HasInFlight, Run;
    assert next.Resume? && s.Waits(next.cycle, Reconciled);
    ReconciledItself(max, steps, next.cycle);
    var t := Next(max, s, next);
    forall i | 0 <= i < |s.placements| ensures s.placements[i].cycle != next.cycle {
      assert t.placements[i] == s.placements[i] && t.placements[|s.placements|].cycle == next.cycle;
    }
  }

  // Nothing keeps two cycles from placing at once: the second one is only stopped by what the
  // ledger shows when it resumes, and the first one's order is not in the ledger before it is
  // validated. `LockReentry` shows what the two submissions can then do.
  lemma TwoCyclesPlaceAtOnceIff(max: nat, s: State, first: Cycle, second: Cycle, ledger: Ledger)
    requires first != second && s.Waits(first, Placing) && s.Waits(second, Reconciled) && s.halted.None?
    ensures var t := Next(max, s, Resume(second, ledger, Trade));
            t.Waits(first, Placing) && (t.Waits(second, Placing) <==> !HasInFlight(ledger))
  {
    hide HasInFlight;
  }

  lemma RunAppend(max: nat, s: State, steps: seq<Step>, step: Step)
    ensures Run(max, s, steps + [step]) == Next(max, Run(max, s, steps), step)
  {
    assert (steps + [step])[..|steps|] == steps;
  }

  // Two cycles begun and reconciled before either placed.
  const TWO_RECONCILED := START.(started := {1, 2}, cycles := map[1 := Reconciled, 2 := Reconciled])

  const TWO_BEGUN := START.(started := {1, 2}, cycles := map[1 := Reconciling, 2 := Reconciling])

  lemma TwoBegin(max: nat)
    ensures Next(max, Next(max, START, Begin(1, true, false)), Begin(2, true, false)) == TWO_BEGUN
  {
    var one := START.(started := {1}, cycles := map[1 := Reconciling]);
    assert START.started + {1} == {1};
    assert Next(max, START, Begin(1, true, false)) == one;
    assert one.started + {2} == {1, 2};
  }

  lemma BothReconcile(max: nat)
    ensures Next(max, Next(max, TWO_BEGUN, Reconcile(1, Sound)), Reconcile(2, Sound)) == TWO_RECONCILED
  {
    assert Next(max, TWO_BEGUN, Reconcile(1, Sound)) == TWO_BEGUN.(cycles := map[1 := Reconciled, 2 := Reconciling]);
  }

  lemma RunFour(max: nat, s: State, a: Step, b: Step, c: Step, d: Step)
    ensures Run(max, s, [a, b, c, d]) == Next(max, Next(max, Next(max, Next(max, s, a), b), c), d)
  {
    assert Run(max, s, []) == s;
    hide Next, Run;
    RunAppend(max, s, [], a);
    RunAppend(max, s, [a], b);
    RunAppend(max, s, [a, b], c);
    RunAppend(max, s, [a, b, c], d);
    assert [] + [a] == [a] && [a] + [b] == [a, b] && [a, b] + [c] == [a, b, c] && [a, b, c] + [d] == [a, b, c, d];
  }

  lemma TwoReconcile(max: nat)
    ensures Run(max, START, [Begin(1, true, false), Begin(2, true, false), Reconcile(1, Sound), Reconcile(2, Sound)])
        == TWO_RECONCILED
  {
    hide Next, Run;
    TwoBegin(max);
    BothReconcile(max);
    RunFour(max, START, Begin(1, true, false), Begin(2, true, false), Reconcile(1, Sound), Reconcile(2, Sound));
  }

  lemma BothPlace(max: nat)
    ensures var t := Next(max, Next(max, TWO_RECONCILED, Resume(1, map[], Trade)), Resume(2, map[], Trade));
            t.Waits(1, Placing) && t.Waits(2, Placing)
  {
  }

  lemma TwoCyclesPlaceAtOnce(max: nat)
    ensures exists steps :: Run(max, START, steps).Waits(1, Placing) && Run(max, START, steps).Waits(2, Placing)
  {
    var steps := [Begin(1, true, false), Begin(2, true, false), Reconcile(1, Sound), Reconcile(2, Sound)];
    TwoReconcile(max);
    BothPlace(max);
    hide Next, Run;
    RunAppend(max, START, steps, Resume(1, map[], Trade));
    RunAppend(max, START, steps + [Resume(1, map[], Trade)], Resume(2, map[], Trade));
  }
}
