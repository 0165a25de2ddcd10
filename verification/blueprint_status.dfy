/** Which Blueprint version the intelligence engine believes in: the handlers' events feed
    the engine (kernel/workflow_engine/engine.py, kernel/intelligence_engine/manager.py). */
module BlueprintStatus {
  import opened Common
  import opened Blueprint
  import opened Versions
  import VT = VersionTheorems
  import opened Handlers
  import opened HandlerTheorems
  import opened HandlerRaces
  import Intelligence
  import IntelligenceTheorems

  datatype Committer = Publisher | Restorer | SignedUp

  /** The handlers, the engine, and how each company's active Blueprint was committed. */
  datatype Joint = Joint(races: State, engine: Intelligence.State, committers: map<string, Committer>)

  /** A move of some handler, with how the cycle it may cause ends and when; a scheduled cycle;
      or a deactivation. */
  datatype Turn =
    | Handler(move: Move, fault: Intelligence.Fault, now: int)
    | Scheduled(tenant: string, fault: Intelligence.Fault, now: int)
    | Deactivated(tenant: string, now: int)

  datatype Emitted = Emitted(name: string, company: string, version: Option<int>)

  /** The event a move emits; a published Blueprint's event carries its version. */
  function EmittedBy(s: State, m: Move): Option<Emitted> {
    match m
    case Begin(task, DoCreate(company, _, _, _, _)) =>
      if task in s.flights then None else Some(Emitted("workflow.created", company, None))
    case Begin(task, DoRecord(company, _)) =>
      if task in s.flights then None else Some(Emitted(TRANSACTION_RECORDED, company, None))
    case Resume(task) =>
      if task !in s.flights || !s.flights[task].stage.ToEmit? then None
      else
        var f := s.flights[task];
        Some(Emitted(f.event, f.company, if f.event == Intelligence.BLUEPRINT_PUBLISHED then Some(f.version) else None))
    case _ => None
  }

  /** The emitted events are those the handlers append. */
  lemma EmittedAreTheEvents(w: World, s: State, m: Move)
    ensures Moved(w, s, m).kernel.events
         == s.kernel.events
            + match EmittedBy(s, m) case Some(e) => [Intelligence.Event(e.name, Some(e.company))] case None => []
  {
    assert s.kernel.events + [] == s.kernel.events;
  }

  function CommitterOf(m: Move): Committer {
    if m.Begin? && m.request.DoPublish? then Publisher
    else if m.Begin? && m.request.DoRestore? then Restorer
    else SignedUp
  }

  function Heard(engine: Intelligence.State, e: Option<Emitted>, fault: Intelligence.Fault, now: int)
    : Intelligence.State
  {
    if e.None? then engine
    else
      Intelligence.Publish(IntelligenceTheorems.OBSERVED, engine, e.value.name, Some(e.value.company), e.value.version,
                           fault, now)
  }

  function Turned(w: World, j: Joint, t: Turn): Joint {
    match t
    case Handler(m, fault, now) =>
      var mark := MarkOf(w, j.races, m);
      Joint(Moved(w, j.races, m), Heard(j.engine, EmittedBy(j.races, m), fault, now),
            if mark.Commits? then j.committers[mark.company := CommitterOf(m)] else j.committers)
    case Scheduled(tenant, fault, now) => j.(engine := Intelligence.Cycle(j.engine, tenant, "scheduled", fault, now))
    case Deactivated(tenant, now) => j.(engine := Intelligence.Deactivate(j.engine, tenant, now))
  }

  function Run(w: World, j: Joint, turns: seq<Turn>): Joint {
    if turns == [] then j else Turned(w, Run(w, j, turns[..|turns| - 1]), turns[|turns| - 1])
  }

  /** The version `intelligence_status` holds for the company. */
  function Believed(engine: Intelligence.State, company: string): Option<int> {
    if company in engine.status then engine.status[company].blueprintVersion else None
  }

  lemma HeardBelief(engine: Intelligence.State, e: Option<Emitted>, fault: Intelligence.Fault, now: int,
                    company: string)
    ensures Believed(Heard(engine, e, fault, now), company)
         == if e.Some? && e.value.company == company && e.value.name == Intelligence.BLUEPRINT_PUBLISHED
            then e.value.version else Believed(engine, company)
  {
    IntelligenceTheorems.ObservedIsSound();
  }

  lemma MoveMarksVersion(w: World, s: State, m: Move, company: string)
    ensures
      var mark := MarkOf(w, s, m);
      VT.CurrentVersion(Moved(w, s, m).kernel.store, company)
      == VT.CurrentVersion(s.kernel.store, company) + if mark.Commits? && mark.company == company then 1 else 0
  {
    MoveMarksStore(w, s, m);
  }

  /** The company's Blueprint is not committed while one of its handlers is half-way, and its
      handlers do not fail. */
  ghost predicate TakesTurns(w: World, s: State, m: Move, company: string) {
    && (MarkOf(w, s, m).Commits? && MarkOf(w, s, m).company == company ==> !InFlight(s, company))
    && (m.Fail? ==> !FliesFor(s, m.task, company))
  }

  /** A handler half-way knows the active version, and the engine has not heard of it yet. */
  predicate Unheard(j: Joint, f: Flight) {
    && 1 <= f.version == VT.CurrentVersion(j.races.kernel.store, f.company)
    && f.company in j.committers
    && (f.event == Intelligence.BLUEPRINT_PUBLISHED <==> j.committers[f.company] == Publisher)
    && Believed(j.engine, f.company) != Some(f.version as int)
  }

  predicate UpToDate(j: Joint, company: string) {
    Believed(j.engine, company) == Some(VT.CurrentVersion(j.races.kernel.store, company) as int)
  }

  predicate LastPublished(j: Joint, company: string) {
    company in j.committers && j.committers[company] == Publisher
  }

  ghost predicate Inv(j: Joint, company: string) {
    && (Believed(j.engine, company).Some? ==>
          1 <= Believed(j.engine, company).value <= VT.CurrentVersion(j.races.kernel.store, company))
    && (forall t :: FliesFor(j.races, t, company) ==> Unheard(j, j.races.flights[t]))
    && (forall t, u :: FliesFor(j.races, t, company) && FliesFor(j.races, u, company) ==> t == u)
    && (!InFlight(j.races, company) ==> (UpToDate(j, company) <==> LastPublished(j, company)))
  }

  /** What the invariant reads is the same, but for the stage of the company's flight. */
  ghost predicate SameBut(j: Joint, j': Joint, company: string) {
    && Believed(j'.engine, company) == Believed(j.engine, company)
    && VT.CurrentVersion(j'.races.kernel.store, company) == VT.CurrentVersion(j.races.kernel.store, company)
    && (company in j'.committers <==> company in j.committers)
    && (company in j.committers ==> j'.committers[company] == j.committers[company])
    && (forall t :: FliesFor(j'.races, t, company) <==> FliesFor(j.races, t, company))
    && (forall t :: FliesFor(j'.races, t, company) ==>
          j'.races.flights[t] == j.races.flights[t].(stage := j'.races.flights[t].stage))
  }

  lemma SameKeepsInv(j: Joint, j': Joint, company: string)
    requires Inv(j, company) && SameBut(j, j', company)
    ensures Inv(j', company)
  {
    forall t | FliesFor(j'.races, t, company)
      ensures Unheard(j', j'.races.flights[t])
    {
      assert Unheard(j, j.races.flights[t]);
    }
    assert InFlight(j.races, company) <==> InFlight(j'.races, company);
  }

  /** A publish or restore of the company commits, */
  lemma CommitKeepsInv(w: World, j: Joint, m: Move, fault: Intelligence.Fault, now: int, company: string)
    requires Inv(j, company) && !InFlight(j.races, company) && m.Begin? && m.task !in j.races.flights
    requires Committed(w, j.races.kernel, m.request).Some? && m.request.company == company
    ensures Inv(Turned(w, j, Handler(m, fault, now)), company)
  {
    var j' := Turned(w, j, Handler(m, fault, now));
    MoveMarksVersion(w, j.races, m, company);
    CommittedIs(w, j.races.kernel, m.request);
    assert j'.engine == j.engine;
    assert forall t: nat :: !FliesFor(j.races, t, company);
    assert FliesFor(j'.races, m.task, company);
    assert forall t: nat :: FliesFor(j'.races, t, company) ==> t == m.task;
    assert Unheard(j', j'.races.flights[m.task]);
  }

  /** or its signup does. */
  lemma SignupKeepsInv(w: World, j: Joint, m: Move, fault: Intelligence.Fault, now: int, company: string)
    requires Inv(j, company) && !InFlight(j.races, company) && m.Begin? && m.task !in j.races.flights
    requires m.request.DoSignup? && m.request.company == company && MarkOf(w, j.races, m).Commits?
    ensures Inv(Turned(w, j, Handler(m, fault, now)), company)
  {
    var j' := Turned(w, j, Handler(m, fault, now));
    MoveMarksVersion(w, j.races, m, company);
    assert j'.engine == j.engine && j'.races.flights == j.races.flights;
    assert forall t: nat :: FliesFor(j'.races, t, company) <==> FliesFor(j.races, t, company);
    assert forall t: nat :: !FliesFor(j.races, t, company);
    assert forall t: nat :: !FliesFor(j'.races, t, company);
  }

  /** A handler of the company goes on; */
  lemma ResumeKeepsInv(w: World, j: Joint, task: nat, fault: Intelligence.Fault, now: int, company: string)
    requires Inv(j, company) && FliesFor(j.races, task, company) && !j.races.flights[task].stage.ToEmit?
    ensures Inv(Turned(w, j, Handler(Resume(task), fault, now)), company)
  {
    var m, f := Resume(task), j.races.flights[task];
    var j' := Turned(w, j, Handler(m, fault, now));
    MoveMarksVersion(w, j.races, m, company);
    assert j'.engine == j.engine;
    assert forall t: nat :: FliesFor(j'.races, t, company) <==> FliesFor(j.races, t, company);
    SameKeepsInv(j, j', company);
  }

  /** at its end the engine hears of it. */
  lemma EmitKeepsInv(w: World, j: Joint, task: nat, fault: Intelligence.Fault, now: int, company: string)
    requires Inv(j, company) && FliesFor(j.races, task, company) && j.races.flights[task].stage.ToEmit?
    ensures Inv(Turned(w, j, Handler(Resume(task), fault, now)), company)
  {
    var m, f := Resume(task), j.races.flights[task];
    var j' := Turned(w, j, Handler(m, fault, now));
    MoveMarksVersion(w, j.races, m, company);
    HeardBelief(j.engine, EmittedBy(j.races, m), fault, now, company);
    assert Unheard(j, f);
    assert j'.committers == j.committers;
    assert forall t: nat :: FliesFor(j'.races, t, company) ==> FliesFor(j.races, t, company) && t != task;
    assert forall t: nat :: !FliesFor(j'.races, t, company);
  }

  /** A move that neither commits for the company nor is one of its handlers going on. */
  lemma OtherMoveKeepsInv(w: World, j: Joint, m: Move, fault: Intelligence.Fault, now: int, company: string)
    requires Inv(j, company) && TakesTurns(w, j.races, m, company)
    requires MarkOf(w, j.races, m).Commits? ==> MarkOf(w, j.races, m).company != company
    requires m.Resume? ==> !FliesFor(j.races, m.task, company)
    ensures Inv(Turned(w, j, Handler(m, fault, now)), company)
  {
    var j' := Turned(w, j, Handler(m, fault, now));
    MoveMarksVersion(w, j.races, m, company);
    HeardBelief(j.engine, EmittedBy(j.races, m), fault, now, company);
    OtherFlights(w, j.races, m, company);
    SameKeepsInv(j, j', company);
  }

  lemma OtherFlights(w: World, s: State, m: Move, company: string)
    requires MarkOf(w, s, m).Commits? ==> MarkOf(w, s, m).company != company
    requires m.Resume? || m.Fail? ==> !FliesFor(s, m.task, company)
    ensures forall t :: FliesFor(Moved(w, s, m), t, company) <==> FliesFor(s, t, company)
    ensures forall t :: FliesFor(s, t, company) ==> Moved(w, s, m).flights[t] == s.flights[t]
  {
    if m.Begin? {
      CommittedIs(w, s.kernel, m.request);
    }
  }

  lemma CycleKeepsBelief(engine: Intelligence.State, tenant: string, fault: Intelligence.Fault, now: int,
                         company: string)
    ensures Believed(Intelligence.Cycle(engine, tenant, "scheduled", fault, now), company) == Believed(engine, company)
  {
  }

  ghost predicate Serial(w: World, j: Joint, turns: seq<Turn>, company: string) {
    forall i :: 0 <= i < |turns| && turns[i].Handler? ==>
      TakesTurns(w, Run(w, j, turns[..i]).races, turns[i].move, company)
  }

  lemma TurnKeepsInv(w: World, j: Joint, t: Turn, company: string)
    requires Inv(j, company) && (t.Handler? ==> TakesTurns(w, j.races, t.move, company))
    ensures Inv(Turned(w, j, t), company)
  {
    match t
    case Handler(m, fault, now) =>
      if MarkOf(w, j.races, m).Commits? && MarkOf(w, j.races, m).company == company {
        CommittedIs(w, j.races.kernel, m.request);
        if Committed(w, j.races.kernel, m.request).Some? {
          CommitKeepsInv(w, j, m, fault, now, company);
        } else {
          SignupKeepsInv(w, j, m, fault, now, company);
        }
      } else if m.Resume? && FliesFor(j.races, m.task, company) {
        if j.races.flights[m.task].stage.ToEmit? {
          EmitKeepsInv(w, j, m.task, fault, now, company);
        } else {
          ResumeKeepsInv(w, j, m.task, fault, now, company);
        }
      } else {
        OtherMoveKeepsInv(w, j, m, fault, now, company);
      }
    case Scheduled(tenant, fault, now) =>
      CycleKeepsBelief(j.engine, tenant, fault, now, company);
      SameKeepsInv(j, Turned(w, j, t), company);
    case Deactivated(tenant, now) =>
      SameKeepsInv(j, Turned(w, j, t), company);
  }

  lemma {:induction false} SerialKeepsInv(w: World, j: Joint, turns: seq<Turn>, company: string)
    requires Inv(j, company) && Serial(w, j, turns, company)
    ensures Inv(Run(w, j, turns), company)
  {
    if turns != [] {
      var n := |turns| - 1;
      assert forall i :: 0 <= i < n ==> turns[..n][..i] == turns[..i];
      SerialKeepsInv(w, j, turns[..n], company);
      TurnKeepsInv(w, Run(w, j, turns[..n]), turns[n], company);
    }
  }

  /** Over every run in which the company's own handlers neither overlap nor fail, whatever the
      other companies' do and whatever cycles fail: with none of its handlers half-way, the engine's
      status holds the version of the active Blueprint exactly when that was committed by a publish.
      After a restore, or after signup, it lags behind. */
  lemma UpToDateIffPublished(w: World, j: Joint, turns: seq<Turn>, company: string)
    requires j.races.kernel.store.active == map[] && j.races.flights == map[]
    requires j.engine == IntelligenceTheorems.EMPTY && j.committers == map[]
    requires Serial(w, j, turns, company) && !InFlight(Run(w, j, turns).races, company)
    ensures UpToDate(Run(w, j, turns), company) <==> LastPublished(Run(w, j, turns), company)
  {
    SerialKeepsInv(w, j, turns, company);
  }

  // ---------- under every interleaving ----------

  /** The version in the last `blueprint.published` event of the company, if there was one. */
  function LastHeard(w: World, j: Joint, turns: seq<Turn>, company: string): Option<int> {
    if turns == [] then None
    else
      var before, t := turns[..|turns| - 1], turns[|turns| - 1];
      var e := if t.Handler? then EmittedBy(Run(w, j, before).races, t.move) else None;
      if e.Some? && e.value.company == company && e.value.name == Intelligence.BLUEPRINT_PUBLISHED
      then e.value.version
      else LastHeard(w, j, before, company)
  }

  lemma TurnBelief(w: World, j: Joint, t: Turn, company: string)
    ensures
      var e := if t.Handler? then EmittedBy(j.races, t.move) else None;
      Believed(Turned(w, j, t).engine, company)
      == if e.Some? && e.value.company == company && e.value.name == Intelligence.BLUEPRINT_PUBLISHED
         then e.value.version else Believed(j.engine, company)
  {
    match t
    case Handler(m, fault, now) => HeardBelief(j.engine, EmittedBy(j.races, m), fault, now, company);
    case Scheduled(tenant, fault, now) => CycleKeepsBelief(j.engine, tenant, fault, now, company);
    case Deactivated(_, _) =>
  }

  /** However handlers overlap and fail, the status holds the version last published to the
      engine, so it is up to date exactly when that is the version committed last. */
  lemma {:induction false} BelievesLastHeard(w: World, j: Joint, turns: seq<Turn>, company: string)
    requires Believed(j.engine, company).None?
    ensures Believed(Run(w, j, turns).engine, company) == LastHeard(w, j, turns, company)
    ensures UpToDate(Run(w, j, turns), company) <==>
              LastHeard(w, j, turns, company) == Some(VT.CurrentVersion(Run(w, j, turns).races.kernel.store, company))
  {
    if turns != [] {
      var before := turns[..|turns| - 1];
      BelievesLastHeard(w, j, before, company);
      TurnBelief(w, Run(w, j, before), turns[|turns| - 1], company);
    }
  }

  // ---------- it happens ----------

  lemma {:induction false} RunConcat(w: World, j: Joint, a: seq<Turn>, b: seq<Turn>)
    ensures Run(w, j, a + b) == Run(w, Run(w, j, a), b)
  {
    if b == [] {
      assert a + b == a;
    } else {
      assert (a + b)[..|a + b| - 1] == a + b[..|b| - 1];
      RunConcat(w, j, a, b[..|b| - 1]);
    }
  }

  /** Handlers' moves as turns, with no cycle failing. */
  function Turns(moves: seq<Move>, now: int): (turns: seq<Turn>)
    ensures |turns| == |moves|
  {
    seq(|moves|, i requires 0 <= i < |moves| => Handler(moves[i], None, now))
  }

  lemma {:induction false} TurnsInterleave(w: World, j: Joint, moves: seq<Move>, now: int)
    ensures Run(w, j, Turns(moves, now)).races == Interleave(w, j.races, moves)
  {
    if moves != [] {
      var n := |moves| - 1;
      assert Turns(moves, now)[..n] == Turns(moves[..n], now);
      TurnsInterleave(w, j, moves[..n], now);
    }
  }

  lemma TurnsConcat(w: World, j: Joint, a: seq<Move>, b: seq<Move>, now: int)
    ensures Run(w, j, Turns(a + b, now)) == Run(w, Run(w, j, Turns(a, now)), Turns(b, now))
  {
    assert Turns(a + b, now) == Turns(a, now) + Turns(b, now);
    RunConcat(w, j, Turns(a, now), Turns(b, now));
  }

  lemma FourTurns(w: World, j: Joint, t: Turn)
    ensures Run(w, j, [t, t, t, t]) == Turned(w, Turned(w, Turned(w, Turned(w, j, t), t), t), t)
  {
    assert [t, t, t, t][..3] == [t, t, t] && [t, t, t][..2] == [t, t] && [t, t][..1] == [t] && [t][..0] == [];
    assert Run(w, j, [t]) == Turned(w, j, t);
    assert Run(w, j, [t, t]) == Turned(w, Turned(w, j, t), t);
    assert Run(w, j, [t, t, t]) == Turned(w, Turned(w, Turned(w, j, t), t), t);
  }

  function HeardOf(f: Flight, before: Option<int>): Option<int> {
    if f.event == Intelligence.BLUEPRINT_PUBLISHED then Some(f.version) else before
  }

  /** What the engine believes once a handler has gone on from its commit to its end. */
  lemma WholeIsHeard(w: World, j: Joint, task: nat, now: int, company: string)
    requires FliesFor(j.races, task, company) && j.races.flights[task].stage.ToInvalidate?
    ensures Believed(Run(w, j, Turns(Whole(task), now)).engine, company)
         == HeardOf(j.races.flights[task], Believed(j.engine, company))
  {
    var t := Handler(Resume(task), None, now);
    assert Turns(Whole(task), now) == [t, t, t, t];
    FourTurns(w, j, t);
    var j1 := Turned(w, j, t);
    var j2 := Turned(w, j1, t);
    var j3 := Turned(w, j2, t);
    TurnBelief(w, j, t, company);
    TurnBelief(w, j1, t, company);
    TurnBelief(w, j2, t, company);
    TurnBelief(w, j3, t, company);
  }

  lemma WholeTurns(w: World, j: Joint, task: nat, now: int, company: string)
    requires FliesFor(j.races, task, company) && j.races.flights[task].stage.ToInvalidate?
    ensures
      var j' := Run(w, j, Turns(Whole(task), now));
      && j'.races.flights == j.races.flights - {task}
      && j'.races.kernel.store == j.races.kernel.store
      && Believed(j'.engine, company) == HeardOf(j.races.flights[task], Believed(j.engine, company))
  {
    WholeIsHeard(w, j, task, now, company);
    TurnsInterleave(w, j, Whole(task), now);
    WholeResumes(w, j.races, task);
  }

  lemma BeginIsNotHeard(w: World, j: Joint, task: nat, request: Step, now: int)
    requires request.DoPublish? || request.DoRestore?
    ensures
      var j' := Run(w, j, Turns([Begin(task, request)], now));
      j'.engine == j.engine && j'.races == Moved(w, j.races, Begin(task, request))
  {
    var t := Handler(Begin(task, request), None, now);
    assert Turns([Begin(task, request)], now) == [t] && [t][..0] == [];
    assert Run(w, j, [t]) == Turned(w, j, t);
  }

  /** A publish or restore handled without interruption. */
  lemma WholeRequestIsHeard(w: World, j: Joint, task: nat, request: Step, now: int, st: Store, f: Flight)
    requires task !in j.races.flights && Committed(w, j.races.kernel, request) == Some((st, f))
    ensures
      var j' := Run(w, j, Turns([Begin(task, request)] + Whole(task), now));
      && j'.races.flights == j.races.flights && j'.races.kernel.store == st
      && Believed(j'.engine, f.company) == HeardOf(f, Believed(j.engine, f.company))
  {
    var j1 := Run(w, j, Turns([Begin(task, request)], now));
    CommittedIs(w, j.races.kernel, request);
    BeginIsNotHeard(w, j, task, request, now);
    assert j1.races.flights == j.races.flights[task := f] && j1.races.kernel.store == st;
    WholeTurns(w, j1, task, now, f.company);
    TurnsConcat(w, j, [Begin(task, request)], Whole(task), now);
    assert j.races.flights[task := f] - {task} == j.races.flights;
  }

  const START := Joint(State(Kernel(Store(map[], []), map[], [], [], 0, []), map[]), IntelligenceTheorems.EMPTY, map[])

  /** Publish, then restore version 1: version 2 is active, and the status still says 1. */
  lemma RestoreLeavesStatusBehind(w: World, company: string, user: string, payload: Payload, now: int)
    requires Sensible(w.env.words) && Validate(w.env, payload).Ok?
    ensures
      var publish := Turns([Begin(0, DoPublish(true, company, user, payload))] + Whole(0), now);
      var restore := Turns([Begin(0, DoRestore(true, company, user, Some(1)))] + Whole(0), now);
      var j := Run(w, START, publish + restore);
      && VT.CurrentVersion(j.races.kernel.store, company) == 2 && Believed(j.engine, company) == Some(1)
      && j.races.flights == map[] && !UpToDate(j, company)
  {
    var publish := Turns([Begin(0, DoPublish(true, company, user, payload))] + Whole(0), now);
    var restore := Turns([Begin(0, DoRestore(true, company, user, Some(1)))] + Whole(0), now);
    var c := Validate(w.env, payload).value;
    var empty := START.races.kernel.store;
    var first := Commit(empty, company, user, c);
    WholeRequestIsHeard(w, START, 0, DoPublish(true, company, user, payload), now, first,
                        Flight(company, c, 1, "blueprint.published", ToInvalidate));
    var j1 := Run(w, START, publish);
    ValidateIsWellFormed(w.env, payload);
    assert GetVersion(first.history, company, 1) == Some(Snapshot(c));
    VT.RestoreRoundTrip(w.env, first, company, user, 1, c);
    WholeRequestIsHeard(w, j1, 0, DoRestore(true, company, user, Some(1)), now, Commit(first, company, user, c),
                        Flight(company, c, 2, "blueprint.version_restored", ToInvalidate));
    RunConcat(w, START, publish, restore);
  }

  lemma BothBegunTurns(w: World, j: Joint, a: Step, b: Step, now: int)
    requires BothAsk(w, a, b) && j.races.flights == map[]
    ensures
      var j' := Run(w, j, Turns([Begin(0, a), Begin(1, b)], now));
      var v := VT.CurrentVersion(j.races.kernel.store, a.company);
      && VT.CurrentVersion(j'.races.kernel.store, a.company) == v + 2 && j'.races.flights.Keys == {0, 1}
      && HeardNext(j', 0, a.company, v + 1) && HeardNext(j', 1, a.company, v + 2)
  {
    BothBegin(w, j.races.kernel, a, b);
    TurnsInterleave(w, j, [Begin(0, a), Begin(1, b)], now);
  }

  /** A publish of that version has committed and is about to go on. */
  predicate HeardNext(j: Joint, task: nat, company: string, version: nat) {
    && FliesFor(j.races, task, company) && j.races.flights[task].stage.ToInvalidate?
    && j.races.flights[task].event == Intelligence.BLUEPRINT_PUBLISHED && j.races.flights[task].version == version
  }

  lemma SecondThenFirst(w: World, j: Joint, company: string, x: nat, y: nat, now: int)
    requires j.races.flights.Keys == {0, 1} && HeardNext(j, 0, company, x) && HeardNext(j, 1, company, y)
    ensures
      var j' := Run(w, Run(w, j, Turns(Whole(1), now)), Turns(Whole(0), now));
      && j'.races.flights == map[] && j'.races.kernel.store == j.races.kernel.store
      && Believed(j'.engine, company) == Some(x)
  {
    WholeTurns(w, j, 1, now, company);
    WholeTurns(w, Run(w, j, Turns(Whole(1), now)), 0, now, company);
  }

  /** Two publishes that commit in one order and are heard in the other leave the older version. */
  lemma HeardOutOfOrder(w: World, j: Joint, a: Step, b: Step, now: int)
    requires BothAsk(w, a, b) && j.races.flights == map[]
    ensures
      var j' := Run(w, j, Turns([Begin(0, a), Begin(1, b)] + Whole(1) + Whole(0), now));
      var v := VT.CurrentVersion(j.races.kernel.store, a.company);
      && VT.CurrentVersion(j'.races.kernel.store, a.company) == v + 2
      && Believed(j'.engine, a.company) == Some(v + 1) && j'.races.flights == map[] && !UpToDate(j', a.company)
  {
    var begun := [Begin(0, a), Begin(1, b)];
    var v := VT.CurrentVersion(j.races.kernel.store, a.company);
    BothBegunTurns(w, j, a, b, now);
    SecondThenFirst(w, Run(w, j, Turns(begun, now)), a.company, v + 1, v + 2, now);
    TurnsConcat(w, j, begun, Whole(1), now);
    TurnsConcat(w, j, begun + Whole(1), Whole(0), now);
  }
}
