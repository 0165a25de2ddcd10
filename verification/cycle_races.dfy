/** The intelligence cycle (kernel/intelligence_engine/manager.py) cut at its awaits: the gate,
    each stage, the stamp, the event. Companies are switched on and off in between. */
module CycleRaces {
  import opened Common
  import opened Intelligence

  /** A cycle past its gate, and how many of its writes it has made: first the stages, then the
      stamp, then the event. */
  datatype Flight = Flight(company: string, trigger: string, done: nat)

  datatype Engine = Engine(state: State, flights: map<nat, Flight>)

  datatype Move =
    | Gate(task: nat, company: string, trigger: string)
    | Go(task: nat, now: int)
    | Fail(task: nat)
    | SwitchOn(company: string, version: Option<int>, now: int)
    | SwitchOff(company: string, now: int)

  function Written(s: State, f: Flight, now: int): State {
    if f.done < |STAGES| then s.(writes := s.writes + [Write(f.company, STAGES[f.done])])
    else if f.done > |STAGES| then s.(log := s.log + [Event(CYCLE_COMPLETED, Some(f.company))])
    else if f.company !in s.status then s
    else s.(status := s.status[f.company := Stamp(s.status[f.company], f.trigger, now)])
  }

  function Moved(e: Engine, m: Move): Engine {
    match m
    case Gate(task, company, trigger) =>
      if task in e.flights || !IsActive(e.state, company) then e
      else e.(flights := e.flights[task := Flight(company, trigger, 0)])
    case Go(task, now) =>
      if task !in e.flights then e
      else
        var f := e.flights[task];
        Engine(Written(e.state, f, now),
               if f.done > |STAGES| then e.flights - {task} else e.flights[task := f.(done := f.done + 1)])
    case Fail(task) => e.(flights := e.flights - {task})
    case SwitchOn(company, version, now) => e.(state := Activate(e.state, company, version, now))
    case SwitchOff(company, now) => e.(state := Deactivate(e.state, company, now))
  }

  function Run(e: Engine, moves: seq<Move>): Engine {
    if moves == [] then e else Moved(Run(e, moves[..|moves| - 1]), moves[|moves| - 1])
  }

  // ---------- a cycle without interruption ----------

  function Gos(task: nat, n: nat, now: int): seq<Move> {
    if n == 0 then [] else Gos(task, n - 1, now) + [Go(task, now)]
  }

  lemma Then(e: Engine, moves: seq<Move>, m: Move)
    ensures Run(e, moves + [m]) == Moved(Run(e, moves), m)
  {
    assert (moves + [m])[..|moves|] == moves;
  }

  /** How many writes a cycle makes before it ends. */
  function WritesMade(fault: Fault): nat {
    match fault case None => |STAGES| + 2 case Some(n) => if n <= |STAGES| then n else |STAGES| + 1
  }

  /** The moves of one cycle that fails after `fault` of its writes, if it does. */
  function CycleMoves(task: nat, company: string, trigger: string, fault: Fault, now: int): seq<Move> {
    [Gate(task, company, trigger)] + Gos(task, WritesMade(fault), now) + if fault.Some? then [Fail(task)] else []
  }

  lemma GosAfterGate(gate: Move, task: nat, n: nat, now: int)
    requires n > 0
    ensures [gate] + Gos(task, n, now) == [gate] + Gos(task, n - 1, now) + [Go(task, now)]
  {
  }

  /** The state after n writes of a cycle. */
  function After(s: State, company: string, trigger: string, n: nat, now: int): State
    requires company in s.status
  {
    var worked := s.(writes := s.writes + WritesOf(company, STAGES[..if n < |STAGES| then n else |STAGES|]));
    var stamped := worked.(status := worked.status[company := Stamp(worked.status[company], trigger, now)]);
    if n <= |STAGES| then worked
    else if n == |STAGES| + 1 then stamped
    else stamped.(log := stamped.log + [Event(CYCLE_COMPLETED, Some(company))])
  }

  lemma NextWritten(s: State, company: string, trigger: string, n: nat, now: int)
    requires company in s.status && n <= |STAGES| + 1
    ensures Written(After(s, company, trigger, n, now), Flight(company, trigger, n), now)
         == After(s, company, trigger, n + 1, now)
  {
    if n < |STAGES| {
      assert WritesOf(company, STAGES[..n + 1]) == WritesOf(company, STAGES[..n]) + [Write(company, STAGES[n])];
    }
  }

  /** The engine after n writes of a cycle. */
  function EngineAfter(e: Engine, task: nat, company: string, trigger: string, n: nat, now: int): Engine
    requires company in e.state.status
  {
    Engine(After(e.state, company, trigger, n, now),
           if n <= |STAGES| + 1 then e.flights[task := Flight(company, trigger, n)] else e.flights)
  }

  lemma GoWrites(e: Engine, task: nat, company: string, trigger: string, n: nat, now: int)
    requires task !in e.flights && company in e.state.status && n <= |STAGES| + 1
    ensures Moved(EngineAfter(e, task, company, trigger, n, now), Go(task, now))
         == EngineAfter(e, task, company, trigger, n + 1, now)
  {
    NextWritten(e.state, company, trigger, n, now);
    assert e.flights[task := Flight(company, trigger, n)] - {task} == e.flights;
    assert e.flights[task := Flight(company, trigger, n)][task := Flight(company, trigger, n + 1)]
        == e.flights[task := Flight(company, trigger, n + 1)];
  }

  lemma GateOpens(e: Engine, task: nat, company: string, trigger: string, now: int)
    requires task !in e.flights && IsActive(e.state, company)
    ensures Run(e, [Gate(task, company, trigger)]) == EngineAfter(e, task, company, trigger, 0, now)
  {
    assert [Gate(task, company, trigger)][..0] == [];
    assert e.state.writes + WritesOf(company, STAGES[..0]) == e.state.writes;
  }

  /** Each move of a row leads from one of these engines to the next. */
  lemma {:induction false} GosFollow(e: Engine, gate: Move, task: nat, n: nat, now: int, engines: seq<Engine>)
    requires n < |engines| && Run(e, [gate]) == engines[0]
    requires forall k :: 0 <= k < |engines| - 1 ==> Moved(engines[k], Go(task, now)) == engines[k + 1]
    ensures Run(e, [gate] + Gos(task, n, now)) == engines[n]
  {
    if n == 0 {
      assert [gate] + [] == [gate];
    } else {
      GosFollow(e, gate, task, n - 1, now, engines);
      Then(e, [gate] + Gos(task, n - 1, now), Go(task, now));
      GosAfterGate(gate, task, n, now);
    }
  }

  lemma GosWrite(e: Engine, task: nat, company: string, trigger: string, n: nat, now: int)
    requires task !in e.flights && IsActive(e.state, company) && n <= |STAGES| + 2
    ensures Run(e, [Gate(task, company, trigger)] + Gos(task, n, now)) == EngineAfter(e, task, company, trigger, n, now)
  {
    var engines := seq(|STAGES| + 3, k requires 0 <= k < |STAGES| + 3 =>
                         EngineAfter(e, task, company, trigger, k, now));
    GateOpens(e, task, company, trigger, now);
    forall k | 0 <= k < |engines| - 1
      ensures Moved(engines[k], Go(task, now)) == engines[k + 1]
    {
      GoWrites(e, task, company, trigger, k, now);
    }
    GosFollow(e, Gate(task, company, trigger), task, n, now, engines);
  }

  lemma CycleIsAfter(s: State, company: string, trigger: string, fault: Fault, now: int)
    requires IsActive(s, company)
    ensures Cycle(s, company, trigger, fault, now) == After(s, company, trigger, WritesMade(fault), now)
  {
  }

  /** Gate, stages, stamp and event in a row, as far as they get, are the whole cycle. */
  lemma UninterruptedIsCycle(e: Engine, task: nat, company: string, trigger: string, fault: Fault, now: int)
    requires task !in e.flights
    ensures Run(e, CycleMoves(task, company, trigger, fault, now))
         == e.(state := Cycle(e.state, company, trigger, fault, now))
  {
    var gate, n := Gate(task, company, trigger), WritesMade(fault);
    if IsActive(e.state, company) {
      GosWrite(e, task, company, trigger, n, now);
      CycleIsAfter(e.state, company, trigger, fault, now);
    } else {
      assert [gate][..0] == [];
      GosFollow(e, gate, task, n, now, seq(n + 1, _ => e));
    }
    var most := [gate] + Gos(task, n, now);
    Then(e, most, Fail(task));
    assert most + [] == most;
    assert e.flights[task := Flight(company, trigger, n)] - {task} == e.flights && e.flights - {task} == e.flights;
  }

  // ---------- cycles and switches interleaved ----------

  predicate SwitchesOn(m: Move, company: string) {
    m.SwitchOn? && m.company == company
  }

  predicate SwitchesOff(m: Move, company: string) {
    m.SwitchOff? && m.company == company
  }

  /** From step g on the company is switched off, and not on again before step n. */
  predicate OffSince(moves: seq<Move>, company: string, g: nat, n: nat)
    requires g <= n <= |moves|
  {
    if g == n then false
    else
      SwitchesOff(moves[n - 1], company)
      || (!SwitchesOn(moves[n - 1], company) && OffSince(moves, company, g, n - 1))
  }

  lemma MoveSwitches(e: Engine, m: Move, company: string)
    ensures IsActive(Moved(e, m).state, company) <==>
              SwitchesOn(m, company) || (IsActive(e.state, company) && !SwitchesOff(m, company))
  {
  }

  lemma {:induction false} ActiveIffNotOffSince(e: Engine, moves: seq<Move>, company: string, g: nat, n: nat)
    requires g <= n <= |moves| && IsActive(Run(e, moves[..g]).state, company)
    ensures IsActive(Run(e, moves[..n]).state, company) <==> !OffSince(moves, company, g, n)
  {
    if g < n {
      ActiveIffNotOffSince(e, moves, company, g, n - 1);
      assert moves[..n][..n - 1] == moves[..n - 1];
      MoveSwitches(Run(e, moves[..n - 1]), moves[n - 1], company);
    }
  }

  predicate Passes(e: Engine, m: Move, task: nat) {
    m.Gate? && m.task == task && task !in e.flights && IsActive(e.state, m.company)
  }

  /** The last step before n at which that cycle passed its gate; -1 if there is none. */
  function GateOf(e: Engine, moves: seq<Move>, task: nat, n: nat): (g: int)
    requires n <= |moves|
    ensures -1 <= g < n
  {
    if n == 0 then -1
    else if Passes(Run(e, moves[..n - 1]), moves[n - 1], task) then n - 1
    else GateOf(e, moves, task, n - 1)
  }

  lemma {:induction false} FlightPassedGate(e: Engine, moves: seq<Move>, task: nat, n: nat)
    requires n <= |moves| && e.flights == map[] && task in Run(e, moves[..n]).flights
    ensures
      var g := GateOf(e, moves, task, n);
      g >= 0 && IsActive(Run(e, moves[..g]).state, Run(e, moves[..n]).flights[task].company)
  {
    assert n > 0;
    assert moves[..n][..n - 1] == moves[..n - 1];
    if !Passes(Run(e, moves[..n - 1]), moves[n - 1], task) {
      FlightPassedGate(e, moves, task, n - 1);
    }
  }

  /** Under every interleaving a cycle goes on for a company that is off exactly when the company
      was switched off after the cycle's gate and has not been switched on again. */
  lemma GoesOnWhileOffIff(e: Engine, moves: seq<Move>, n: nat)
    requires e.flights == map[] && n < |moves| && moves[n].Go? && moves[n].task in Run(e, moves[..n]).flights
    ensures
      var company := Run(e, moves[..n]).flights[moves[n].task].company;
      var g := GateOf(e, moves, moves[n].task, n);
      g >= 0 && (!IsActive(Run(e, moves[..n]).state, company) <==> OffSince(moves, company, g, n))
  {
    var task := moves[n].task;
    FlightPassedGate(e, moves, task, n);
    ActiveIffNotOffSince(e, moves, Run(e, moves[..n]).flights[task].company, GateOf(e, moves, task, n), n);
  }

  /** It happens: the gate, a deactivation, and then the first write for a company that is off. */
  lemma WritesWhileOff(e: Engine, task: nat, company: string, trigger: string, off: int, now: int)
    requires task !in e.flights && IsActive(e.state, company)
    ensures
      var e' := Run(e, [Gate(task, company, trigger), SwitchOff(company, off), Go(task, now)]);
      !IsActive(e'.state, company) && e'.state.writes == e.state.writes + [Write(company, STAGES[0])]
  {
    var gate, switch, go := Gate(task, company, trigger), SwitchOff(company, off), Go(task, now);
    Then(e, [], gate);
    Then(e, [gate], switch);
    Then(e, [gate, switch], go);
    assert [] + [gate] == [gate] && [gate] + [switch] == [gate, switch] && [gate, switch] + [go] == [gate, switch, go];
  }
}
