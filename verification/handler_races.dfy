/** The publish and restore handlers under every interleaving at their awaits
    (kernel/workflow_engine/engine.py): commit, invalidate, DELETE, INSERT, event.
    Handlers of any companies may run in between, and a handler may fail at any await. */
module HandlerRaces {
  import opened Common
  import opened Blueprint
  import opened Versions
  import VT = VersionTheorems
  import opened Handlers
  import opened HandlerTheorems

  /** What a handler that has committed does next. */
  datatype Stage = ToInvalidate | ToDelete | ToInsert | ToEmit

  datatype Flight = Flight(company: string, content: Content, version: nat, event: string, stage: Stage)

  datatype State = State(kernel: Kernel, flights: map<nat, Flight>)

  /** A request arrives; the handler of a task goes on to its next await; or it fails there. */
  datatype Move = Begin(task: nat, request: Step) | Resume(task: nat) | Fail(task: nat)

  /** What a publish or restore request commits, if it is not refused. */
  function Committed(w: World, k: Kernel, request: Step): Option<(Store, Flight)> {
    match request
    case DoPublish(true, company, user, payload) =>
      (match Publish(w.env, k.store, company, user, payload)
       case (st, Ok(row)) => Some((st, Flight(company, row.content, row.version, "blueprint.published", ToInvalidate)))
       case (_, Err(_)) => None)
    case DoRestore(true, company, user, Some(version)) =>
      (match Restore(w.env, k.store, company, user, version)
       case (st, Ok(row)) =>
         Some((st, Flight(company, row.content, row.version, "blueprint.version_restored", ToInvalidate)))
       case (_, Err(_)) => None)
    case _ => None
  }

  function Resumed(w: World, k: Kernel, f: Flight): Kernel {
    match f.stage
    case ToInvalidate => Uncache(k, f.company)
    case ToDelete => DeleteReserved(k, f.company)
    case ToInsert => InsertAlert(k, f.company, f.content, w.show)
    case ToEmit => Emit(k, f.event, f.company)
  }

  function Next(f: Flight): Option<Flight> {
    match f.stage
    case ToInvalidate => Some(f.(stage := ToDelete))
    case ToDelete => Some(f.(stage := ToInsert))
    case ToInsert => Some(f.(stage := ToEmit))
    case ToEmit => None
  }

  /** Requests other than publish and restore are answered in one move. */
  function Moved(w: World, s: State, m: Move): State {
    match m
    case Begin(task, request) =>
      if task in s.flights then s
      else
        (match Committed(w, s.kernel, request)
         case Some((st, f)) => State(s.kernel.(store := st), s.flights[task := f])
         case None => s.(kernel := Take(w, s.kernel, request)))
    case Resume(task) =>
      if task !in s.flights then s
      else
        var f := s.flights[task];
        State(Resumed(w, s.kernel, f),
              if Next(f).Some? then s.flights[task := Next(f).value] else s.flights - {task})
    case Fail(task) => s.(flights := s.flights - {task})
  }

  function Interleave(w: World, s: State, moves: seq<Move>): State {
    if moves == [] then s else Moved(w, Interleave(w, s, moves[..|moves| - 1]), moves[|moves| - 1])
  }

  lemma Then(w: World, s: State, moves: seq<Move>, m: Move)
    ensures Interleave(w, s, moves + [m]) == Moved(w, Interleave(w, s, moves), m)
  {
    assert (moves + [m])[..|moves|] == moves;
  }

  /** A task's moves without any other in between are the whole handler. */
  lemma UninterruptedIsWhole(w: World, s: State, task: nat, request: Step)
    requires task !in s.flights
    ensures Interleave(w, s, [Begin(task, request), Resume(task), Resume(task), Resume(task), Resume(task)])
         == s.(kernel := Take(w, s.kernel, request))
  {
    var m := [Begin(task, request)];
    assert m[..0] == [];
    Then(w, s, m, Resume(task));
    Then(w, s, m + [Resume(task)], Resume(task));
    Then(w, s, m + [Resume(task)] + [Resume(task)], Resume(task));
    Then(w, s, m + [Resume(task)] + [Resume(task)] + [Resume(task)], Resume(task));
    assert m + [Resume(task)] + [Resume(task)] + [Resume(task)] + [Resume(task)]
        == [Begin(task, request), Resume(task), Resume(task), Resume(task), Resume(task)];
    assert Interleave(w, s, m) == Moved(w, s, Begin(task, request));
    if Committed(w, s.kernel, request).Some? {
      UninterruptedFlight(w, Interleave(w, s, m), task);
      assert (s.flights[task := Committed(w, s.kernel, request).value.1]) - {task} == s.flights;
    }
  }

  lemma UninterruptedFlight(w: World, s: State, task: nat)
    requires task in s.flights && s.flights[task].stage.ToInvalidate?
    ensures
      var f := s.flights[task];
      var r := Resume(task);
      Moved(w, Moved(w, Moved(w, Moved(w, s, r), r), r), r)
      == State(Emit(Sync(Uncache(s.kernel, f.company), f.company, f.content, w.show), f.event, f.company),
               s.flights - {task})
  {
    var r := Resume(task);
    var s1 := Moved(w, s, r);
    var s2 := Moved(w, s1, r);
    var s3 := Moved(w, s2, r);
    assert s3.flights - {task} == s.flights - {task};
  }

  // ---------- the trace ----------

  /** What a move means for a company's alert. */
  datatype Mark =
    | Commits(company: string, content: Content)
    | Deletes(company: string)
    | Inserts(company: string, threshold: real)
    | Passes

  function MarkOf(w: World, s: State, m: Move): Mark {
    match m
    case Begin(task, request) =>
      if task in s.flights then Passes
      else
        (match Committed(w, s.kernel, request)
         case Some((_, f)) => Commits(f.company, f.content)
         case None =>
           if request.DoSignup? && Validate(w.env, request.payload).Ok?
           then Commits(request.company, Validate(w.env, request.payload).value)
           else Passes)
    case Resume(task) =>
      if task !in s.flights then Passes
      else
        var f := s.flights[task];
        if f.stage.ToDelete? then Deletes(f.company)
        else if f.stage.ToInsert? && Wanted(f.content).Some? then Inserts(f.company, Wanted(f.content).value)
        else Passes
    case Fail(_) => Passes
  }

  function Marks(w: World, s: State, moves: seq<Move>): (marks: seq<Mark>)
    ensures |marks| == |moves|
  {
    if moves == [] then []
    else
      var before := moves[..|moves| - 1];
      Marks(w, s, before) + [MarkOf(w, Interleave(w, s, before), moves[|moves| - 1])]
  }

  /** The thresholds inserted for the company since its last DELETE. */
  function AlertsSince(marks: seq<Mark>, company: string): seq<real> {
    if marks == [] then []
    else
      var before := AlertsSince(marks[..|marks| - 1], company);
      match marks[|marks| - 1]
      case Deletes(c) => if c == company then [] else before
      case Inserts(c, x) => if c == company then before + [x] else before
      case _ => before
  }

  /** The Blueprint the company committed last. */
  function LastCommit(marks: seq<Mark>, company: string): Option<Content> {
    if marks == [] then None
    else
      match marks[|marks| - 1]
      case Commits(c, content) =>
        if c == company then Some(content) else LastCommit(marks[..|marks| - 1], company)
      case _ => LastCommit(marks[..|marks| - 1], company)
  }

  function AskedFor(c: Option<Content>): seq<real> {
    if c.Some? && Wanted(c.value).Some? then [Wanted(c.value).value] else []
  }

  /** The move does not create a definition of the company's reserved name by hand. */
  predicate HandsOff(m: Move, company: string) {
    m.Begin? && m.request.DoCreate? ==> m.request.company != company || m.request.name != RESERVED
  }

  predicate AlertsAre(defs: seq<Definition>, company: string, thresholds: seq<real>) {
    |defs| == |thresholds| && forall i :: 0 <= i < |defs| ==> IsAlertFor(defs[i], company, thresholds[i])
  }

  function Reserved(k: Kernel, company: string): seq<Definition> {
    Only(k.definitions, company, RESERVED)
  }

  function ActiveContent(k: Kernel, company: string): Option<Content> {
    if company in k.store.active then Some(k.store.active[company].content) else None
  }

  /** The alert an INSERT makes. */
  function Alert(w: World, k: Kernel, company: string, threshold: real): Definition {
    AlertFor(k.nextId, company, threshold, w.show(threshold))
  }

  lemma AfterDelete(k: Kernel, c: string, company: string)
    ensures Reserved(DeleteReserved(k, c), company) == if c == company then [] else Reserved(k, company)
  {
    OnlyOfWithout(k.definitions, c, RESERVED, company, RESERVED);
  }

  lemma AfterInsert(w: World, k: Kernel, c: string, content: Content, company: string)
    ensures Reserved(InsertAlert(k, c, content, w.show), company)
         == Reserved(k, company)
            + if c == company && Wanted(content).Some? then [Alert(w, k, company, Wanted(content).value)] else []
  {
    if Wanted(content).Some? {
      OnlyOfAppend(k.definitions, Alert(w, k, c, Wanted(content).value), company, RESERVED);
    }
  }

  /** The company's reserved definitions after a move with this mark. */
  function ReservedAfter(w: World, k: Kernel, mark: Mark, company: string): seq<Definition> {
    match mark
    case Deletes(c) => if c == company then [] else Reserved(k, company)
    case Inserts(c, x) => Reserved(k, company) + if c == company then [Alert(w, k, company, x)] else []
    case _ => Reserved(k, company)
  }

  lemma ResumeMarksReserved(w: World, s: State, task: nat, company: string)
    requires task in s.flights
    ensures Reserved(Resumed(w, s.kernel, s.flights[task]), company)
         == ReservedAfter(w, s.kernel, MarkOf(w, s, Resume(task)), company)
  {
    var f := s.flights[task];
    if f.stage.ToDelete? {
      AfterDelete(s.kernel, f.company, company);
    } else if f.stage.ToInsert? {
      AfterInsert(w, s.kernel, f.company, f.content, company);
    }
  }

  lemma MoveMarksReserved(w: World, s: State, m: Move, company: string)
    requires HandsOff(m, company)
    ensures Reserved(Moved(w, s, m).kernel, company) == ReservedAfter(w, s.kernel, MarkOf(w, s, m), company)
  {
    if m.Resume? && m.task in s.flights {
      ResumeMarksReserved(w, s, m.task, company);
    } else if m.Begin? {
      BeginMarksReserved(w, s, m, company);
    }
  }

  lemma BeginMarksReserved(w: World, s: State, m: Move, company: string)
    requires m.Begin? && HandsOff(m, company)
    ensures Reserved(Moved(w, s, m).kernel, company) == ReservedAfter(w, s.kernel, MarkOf(w, s, m), company)
  {
    if m.task !in s.flights && m.request.DoCreate? {
      var r := m.request;
      OnlyOfAppend(s.kernel.definitions,
                   Definition(s.kernel.nextId, r.company, r.name, r.trigger, r.condition, r.action, true),
                   company, RESERVED);
    }
  }

  lemma CommittedIs(w: World, k: Kernel, request: Step)
    ensures
      match Committed(w, k, request)
      case None => true
      case Some((st, f)) =>
        && (request.DoPublish? || request.DoRestore?)
        && st == Commit(k.store, request.company, request.user, f.content)
        && f == Flight(request.company, f.content, VT.CurrentVersion(k.store, request.company) + 1,
                       if request.DoPublish? then "blueprint.published" else "blueprint.version_restored", ToInvalidate)
  {
  }

  /** Only a committing move touches the store, and it is one publish transaction. */
  ghost predicate CommitsAs(st: Store, st': Store, mark: Mark) {
    if mark.Commits? then exists user :: st' == Commit(st, mark.company, user, mark.content) else st' == st
  }

  lemma BeginMarksStore(w: World, s: State, m: Move)
    requires m.Begin?
    ensures CommitsAs(s.kernel.store, Moved(w, s, m).kernel.store, MarkOf(w, s, m))
  {
    if m.task !in s.flights {
      CommittedIs(w, s.kernel, m.request);
      if Committed(w, s.kernel, m.request).None? {
        UncommittedStore(w, s.kernel, m.request);
      }
    }
  }

  lemma UncommittedStore(w: World, k: Kernel, request: Step)
    requires Committed(w, k, request).None?
    ensures
      Take(w, k, request).store
      == if request.DoSignup? && Validate(w.env, request.payload).Ok?
         then Commit(k.store, request.company, request.user, Validate(w.env, request.payload).value) else k.store
  {
  }

  lemma MoveMarksStore(w: World, s: State, m: Move)
    ensures CommitsAs(s.kernel.store, Moved(w, s, m).kernel.store, MarkOf(w, s, m))
  {
    if m.Begin? {
      BeginMarksStore(w, s, m);
    }
  }

  lemma MoveMarksContent(w: World, s: State, m: Move, company: string)
    ensures
      var content := ActiveContent(Moved(w, s, m).kernel, company);
      match MarkOf(w, s, m)
      case Commits(c, x) => content == if c == company then Some(x) else ActiveContent(s.kernel, company)
      case _ => content == ActiveContent(s.kernel, company)
  {
    MoveMarksStore(w, s, m);
  }

  /** The marks tell the company's alerts and its active Blueprint. */
  lemma {:induction false} TraceTells(w: World, s: State, moves: seq<Move>, company: string)
    requires Reserved(s.kernel, company) == [] && ActiveContent(s.kernel, company).None?
    requires forall i :: 0 <= i < |moves| ==> HandsOff(moves[i], company)
    ensures
      var k := Interleave(w, s, moves).kernel;
      var marks := Marks(w, s, moves);
      AlertsAre(Reserved(k, company), company, AlertsSince(marks, company))
      && ActiveContent(k, company) == LastCommit(marks, company)
  {
    if moves != [] {
      var n := |moves| - 1;
      var before := Interleave(w, s, moves[..n]);
      var marks := Marks(w, s, moves[..n]);
      TraceTells(w, s, moves[..n], company);
      MoveMarksReserved(w, before, moves[n], company);
      MoveMarksContent(w, before, moves[n], company);
      assert Marks(w, s, moves)[..n] == marks;
    }
  }

  /** Under every interleaving, and whatever fails: a company is in step exactly when the
      alerts inserted since its last DELETE are those its last commit asks for. */
  lemma InStepIff(w: World, s: State, moves: seq<Move>, company: string)
    requires Reserved(s.kernel, company) == [] && ActiveContent(s.kernel, company).None?
    requires forall i :: 0 <= i < |moves| ==> HandsOff(moves[i], company)
    ensures InSync(Interleave(w, s, moves).kernel, company) <==>
              AlertsSince(Marks(w, s, moves), company) == AskedFor(LastCommit(Marks(w, s, moves), company))
  {
    TraceTells(w, s, moves, company);
    var k := Interleave(w, s, moves).kernel;
    assert ActiveThreshold(k.store, company)
        == if ActiveContent(k, company).Some? then Wanted(ActiveContent(k, company).value) else None;
  }

  // ---------- handlers of one company that do not overlap ----------

  ghost predicate InFlight(s: State, company: string) {
    exists task :: FliesFor(s, task, company)
  }

  predicate FliesFor(s: State, task: nat, company: string) {
    task in s.flights && s.flights[task].company == company
  }

  /** The company's handlers begin only when none of its own is half-way and do not fail, and no
      one else touches its alert; handlers of other companies do as they please. */
  ghost predicate Waits(s: State, m: Move, company: string) {
    match m
    case Begin(_, request) =>
      && LeavesAlone(request, company)
      && ((request.DoPublish? || request.DoRestore?) && request.company == company ==> !InFlight(s, company))
    case Resume(_) => true
    case Fail(task) => task in s.flights ==> s.flights[task].company != company
  }

  ghost predicate Orderly(w: World, s: State, moves: seq<Move>, company: string) {
    forall i :: 0 <= i < |moves| ==> Waits(Interleave(w, s, moves[..i]), moves[i], company)
  }

  predicate InPhase(k: Kernel, f: Flight) {
    && ActiveContent(k, f.company) == Some(f.content)
    && (f.stage.ToInsert? ==> Reserved(k, f.company) == [])
    && (f.stage.ToEmit? ==> InSync(k, f.company))
  }

  /** At most one handler of the company is half-way; without one the company is in step,
      provided it has been so before or has committed since. */
  ghost predicate Phased(s: State, company: string, settled: bool) {
    && (forall t :: FliesFor(s, t, company) ==> InPhase(s.kernel, s.flights[t]))
    && (forall t, u :: FliesFor(s, t, company) && FliesFor(s, u, company) ==> t == u)
    && (!InFlight(s, company) && settled ==> InSync(s.kernel, company))
  }

  predicate SameFor(k: Kernel, k': Kernel, company: string) {
    Reserved(k', company) == Reserved(k, company) && ActiveContent(k', company) == ActiveContent(k, company)
  }

  lemma SameKeepsSync(k: Kernel, k': Kernel, company: string)
    requires SameFor(k, k', company)
    ensures InSync(k', company) <==> InSync(k, company)
  {
    assert ActiveThreshold(k.store, company)
        == if ActiveContent(k, company).Some? then Wanted(ActiveContent(k, company).value) else None;
    assert ActiveThreshold(k'.store, company)
        == if ActiveContent(k', company).Some? then Wanted(ActiveContent(k', company).value) else None;
  }

  /** A move that is not of the company's own handlers. */
  ghost predicate NotTheirs(w: World, s: State, m: Move, company: string) {
    match m
    case Begin(task, request) =>
      task in s.flights || Committed(w, s.kernel, request).None? || request.company != company
    case Resume(task) => !FliesFor(s, task, company)
    case Fail(task) => true
  }

  lemma OthersMark(w: World, s: State, m: Move, company: string)
    requires Waits(s, m, company) && NotTheirs(w, s, m, company)
    ensures MarkOf(w, s, m).Passes? || MarkOf(w, s, m).company != company
    ensures SameFor(s.kernel, Moved(w, s, m).kernel, company)
  {
    assert MarkOf(w, s, m).Passes? || MarkOf(w, s, m).company != company;
    MoveMarksReserved(w, s, m, company);
    MoveMarksContent(w, s, m, company);
  }

  ghost predicate SameFlights(s: State, s': State, company: string) {
    && (forall t :: FliesFor(s', t, company) <==> FliesFor(s, t, company))
    && (forall t :: FliesFor(s, t, company) ==> s'.flights[t] == s.flights[t])
  }

  lemma OthersLeaveFlights(w: World, s: State, m: Move, company: string)
    requires Waits(s, m, company) && NotTheirs(w, s, m, company)
    ensures SameFlights(s, Moved(w, s, m), company)
  {
    if m.Begin? {
      CommittedIs(w, s.kernel, m.request);
    }
  }

  lemma SameKeepsPhased(s: State, s': State, company: string, settled: bool)
    requires Phased(s, company, settled) && SameFor(s.kernel, s'.kernel, company) && SameFlights(s, s', company)
    ensures Phased(s', company, settled)
  {
    SameKeepsSync(s.kernel, s'.kernel, company);
    assert InFlight(s', company) <==> InFlight(s, company);
  }

  lemma OthersKeepPhased(w: World, s: State, m: Move, company: string, settled: bool)
    requires Phased(s, company, settled) && Waits(s, m, company) && NotTheirs(w, s, m, company)
    ensures Phased(Moved(w, s, m), company, settled)
  {
    OthersMark(w, s, m, company);
    OthersLeaveFlights(w, s, m, company);
    SameKeepsPhased(s, Moved(w, s, m), company, settled);
  }

  lemma CommitPhases(w: World, s: State, task: nat, request: Step, company: string, settled: bool)
    requires Phased(s, company, settled) && Waits(s, Begin(task, request), company)
    requires task !in s.flights && Committed(w, s.kernel, request).Some? && request.company == company
    ensures Phased(Moved(w, s, Begin(task, request)), company, true)
  {
    var s' := Moved(w, s, Begin(task, request));
    MoveMarksContent(w, s, Begin(task, request), company);
    assert FliesFor(s', task, company);
    assert forall t: nat :: FliesFor(s, t, company) ==> false;
    assert forall t: nat :: FliesFor(s', t, company) ==> t == task || FliesFor(s, t, company);
  }

  lemma ResumePhases(w: World, s: State, task: nat, settled: bool)
    requires task in s.flights && Phased(s, s.flights[task].company, settled)
    ensures Phased(Moved(w, s, Resume(task)), s.flights[task].company, true)
  {
    var f := s.flights[task];
    var company := f.company;
    var s' := Moved(w, s, Resume(task));
    MoveMarksReserved(w, s, Resume(task), company);
    MoveMarksContent(w, s, Resume(task), company);
    assert FliesFor(s, task, company) && InPhase(s.kernel, f);
    assert forall t: nat :: FliesFor(s', t, company) ==> t == task || FliesFor(s, t, company);
    assert ActiveThreshold(s.kernel.store, company) == Wanted(f.content);
    assert ActiveThreshold(s'.kernel.store, company) == Wanted(f.content);
    if f.stage.ToEmit? {
      SameKeepsSync(s.kernel, s'.kernel, company);
    } else {
      assert FliesFor(s', task, company);
    }
  }

  /** Whether the company has been in step or has committed since. */
  ghost predicate Settled(w: World, s: State, moves: seq<Move>, company: string) {
    InSync(s.kernel, company) || LastCommit(Marks(w, s, moves), company).Some?
  }

  lemma {:induction false} OrderlyPhases(w: World, s: State, moves: seq<Move>, company: string)
    requires !InFlight(s, company) && Orderly(w, s, moves, company)
    ensures Phased(Interleave(w, s, moves), company, Settled(w, s, moves, company))
  {
    if moves != [] {
      var n := |moves| - 1;
      var m := moves[n];
      var before := Interleave(w, s, moves[..n]);
      forall i | 0 <= i < n
        ensures Waits(Interleave(w, s, moves[..n][..i]), moves[..n][i], company)
      {
        assert moves[..n][..i] == moves[..i];
      }
      OrderlyPhases(w, s, moves[..n], company);
      assert Marks(w, s, moves)[..n] == Marks(w, s, moves[..n]);
      assert Waits(before, m, company);
      if m.Begin? && m.task !in before.flights && Committed(w, before.kernel, m.request).Some?
         && m.request.company == company {
        CommitPhases(w, before, m.task, m.request, company, Settled(w, s, moves[..n], company));
      } else if m.Resume? && m.task in before.flights && before.flights[m.task].company == company {
        ResumePhases(w, before, m.task, Settled(w, s, moves[..n], company));
      } else {
        OthersKeepPhased(w, before, m, company, Settled(w, s, moves[..n], company));
        OthersMark(w, before, m, company);
      }
    }
  }

  /** From any state: if the company's own handlers do not overlap, then whenever none of them
      is half-way the company is in step, if it was at the start or has committed since. */
  lemma OrderlyRunsKeepSync(w: World, s: State, moves: seq<Move>, company: string)
    requires !InFlight(s, company) && Orderly(w, s, moves, company)
    requires !InFlight(Interleave(w, s, moves), company) && Settled(w, s, moves, company)
    ensures InSync(Interleave(w, s, moves).kernel, company)
  {
    OrderlyPhases(w, s, moves, company);
  }

  /** A transaction recorded at such a point logs the alert exactly when it reaches the
      threshold of the Blueprint then active. */
  lemma AlertFollowsBlueprint(w: World, s: State, moves: seq<Move>, company: string, t: Transaction)
    requires !InFlight(s, company) && Orderly(w, s, moves, company)
    requires !InFlight(Interleave(w, s, moves), company) && Settled(w, s, moves, company)
    ensures AlertsExactly(w.ops, Interleave(w, s, moves).kernel, company, t)
  {
    OrderlyRunsKeepSync(w, s, moves, company);
    AlertRunsIff(w.ops, Interleave(w, s, moves).kernel, company, t);
  }

  // ---------- the tables ----------

  lemma MoveKeepsTables(w: World, s: State, m: Move)
    requires Tables(s.kernel)
    ensures Tables(Moved(w, s, m).kernel)
  {
    match m
    case Resume(task) =>
      if task in s.flights {
        var f := s.flights[task];
        DeleteKeepsTables(s.kernel, f.company);
        InsertKeepsTables(s.kernel, f.company, f.content, w.show);
      }
    case Begin(task, request) =>
      if task !in s.flights && Committed(w, s.kernel, request).None? {
        TakeKeepsTables(w, s.kernel, request);
      }
    case Fail(_) =>
  }

  lemma TakeKeepsTables(w: World, k: Kernel, request: Step)
    requires Tables(k) && Committed(w, k, request).None?
    ensures Tables(Take(w, k, request))
  {
    match request
    case DoCreate(c, name, trigger, condition, action) =>
      DefineKeepsTables(k, Take(w, k, request), Definition(k.nextId, c, name, trigger, condition, action, true));
    case DoRecord(c, t) => RecordKeepsTables(w.ops, k, c, t);
    case _ =>
  }

  /** Under every interleaving each logged run has its definition, and ids stay unique. */
  lemma {:induction false} RunKeepsTables(w: World, s: State, moves: seq<Move>)
    requires Tables(s.kernel)
    ensures Tables(Interleave(w, s, moves).kernel)
  {
    if moves != [] {
      var n := |moves| - 1;
      RunKeepsTables(w, s, moves[..n]);
      MoveKeepsTables(w, Interleave(w, s, moves[..n]), moves[n]);
    }
  }

  // ---------- handlers of one company that overlap ----------

  lemma {:induction false} InterleaveConcat(w: World, s: State, a: seq<Move>, b: seq<Move>)
    ensures Interleave(w, s, a + b) == Interleave(w, Interleave(w, s, a), b)
  {
    if b == [] {
      assert a + b == a;
    } else {
      assert (a + b)[..|a + b| - 1] == a + b[..|b| - 1];
      InterleaveConcat(w, s, a, b[..|b| - 1]);
    }
  }

  const BOTH: seq<Move> := [Resume(0), Resume(1)]

  function Whole(task: nat): seq<Move> {
    [Resume(task), Resume(task), Resume(task), Resume(task)]
  }

  lemma BothResume(w: World, k: Kernel, f: Flight, g: Flight)
    ensures
      var s' := Interleave(w, State(k, map[0 := f, 1 := g]), BOTH);
      && s'.kernel == Resumed(w, Resumed(w, k, f), g)
      && (Next(f).Some? && Next(g).Some? ==> s'.flights == map[0 := Next(f).value, 1 := Next(g).value])
      && (Next(f).None? && Next(g).None? ==> s'.flights == map[])
  {
    var s := State(k, map[0 := f, 1 := g]);
    Then(w, s, [], Resume(0));
    Then(w, s, [Resume(0)], Resume(1));
    assert [] + [Resume(0)] == [Resume(0)] && [Resume(0)] + [Resume(1)] == BOTH;
  }

  lemma WholeResumes(w: World, s: State, task: nat)
    requires task in s.flights && s.flights[task].stage.ToInvalidate?
    ensures
      var f := s.flights[task];
      Interleave(w, s, Whole(task))
      == State(Emit(Sync(Uncache(s.kernel, f.company), f.company, f.content, w.show), f.event, f.company),
               s.flights - {task})
  {
    var r := Resume(task);
    Then(w, s, [], r);
    Then(w, s, [r], r);
    Then(w, s, [r, r], r);
    Then(w, s, [r, r, r], r);
    assert [] + [r] == [r] && [r] + [r] == [r, r] && [r, r] + [r] == [r, r, r] && [r, r, r] + [r] == Whole(task);
    UninterruptedFlight(w, s, task);
  }

  /** Two accepted publish requests of one company, both asking for an alert. */
  predicate BothAsk(w: World, a: Step, b: Step) {
    && a.DoPublish? && b.DoPublish? && a.owner && b.owner && a.company == b.company
    && Validate(w.env, a.payload).Ok? && Wanted(Validate(w.env, a.payload).value).Some?
    && Validate(w.env, b.payload).Ok? && Wanted(Validate(w.env, b.payload).value).Some?
  }

  function AskedBy(w: World, request: Step): real
    requires request.DoPublish? && Validate(w.env, request.payload).Ok?
    requires Wanted(Validate(w.env, request.payload).value).Some?
  {
    Wanted(Validate(w.env, request.payload).value).value
  }

  function Accepted(w: World, st: Store, a: Step): Flight
    requires a.DoPublish? && Validate(w.env, a.payload).Ok?
  {
    Flight(a.company, Validate(w.env, a.payload).value, VT.CurrentVersion(st, a.company) + 1, "blueprint.published",
           ToInvalidate)
  }

  lemma AcceptedBegins(w: World, s: State, task: nat, a: Step)
    requires task !in s.flights && a.DoPublish? && a.owner && Validate(w.env, a.payload).Ok?
    ensures
      var s' := Moved(w, s, Begin(task, a));
      && s'.kernel.store == Commit(s.kernel.store, a.company, a.user, Validate(w.env, a.payload).value)
      && s'.flights == s.flights[task := Accepted(w, s.kernel.store, a)]
  {
  }

  lemma BothBegin(w: World, k: Kernel, a: Step, b: Step)
    requires BothAsk(w, a, b)
    ensures
      var s := Interleave(w, State(k, map[]), [Begin(0, a), Begin(1, b)]);
      var st := Commit(k.store, a.company, a.user, Validate(w.env, a.payload).value);
      && s.flights == map[0 := Accepted(w, k.store, a), 1 := Accepted(w, st, b)]
      && s.kernel.store == Commit(st, b.company, b.user, Validate(w.env, b.payload).value)
      && ActiveContent(s.kernel, a.company) == Some(Validate(w.env, b.payload).value)
  {
    var s := State(k, map[]);
    Then(w, s, [], Begin(0, a));
    Then(w, s, [Begin(0, a)], Begin(1, b));
    assert [] + [Begin(0, a)] == [Begin(0, a)] && [Begin(0, a)] + [Begin(1, b)] == [Begin(0, a), Begin(1, b)];
    AcceptedBegins(w, s, 0, a);
    AcceptedBegins(w, Moved(w, s, Begin(0, a)), 1, b);
  }

  lemma BothDelete(w: World, k: Kernel, f: Flight, g: Flight)
    requires f.stage.ToInvalidate? && g.stage.ToInvalidate? && g.company == f.company
    ensures
      var s' := Interleave(w, State(k, map[0 := f, 1 := g]), BOTH + BOTH);
      && s'.flights == map[0 := f.(stage := ToInsert), 1 := g.(stage := ToInsert)]
      && s'.kernel.store == k.store && Reserved(s'.kernel, f.company) == []
  {
    var s := State(k, map[0 := f, 1 := g]);
    InterleaveConcat(w, s, BOTH, BOTH);
    BothResume(w, k, f, g);
    var s2 := Interleave(w, s, BOTH);
    BothResume(w, s2.kernel, f.(stage := ToDelete), g.(stage := ToDelete));
    AfterDelete(DeleteReserved(s2.kernel, f.company), f.company, f.company);
  }

  lemma BothInsert(w: World, k: Kernel, f: Flight, g: Flight)
    requires f.stage.ToInsert? && g.stage.ToInsert? && g.company == f.company
    requires Wanted(f.content).Some? && Wanted(g.content).Some? && Reserved(k, f.company) == []
    ensures
      var s' := Interleave(w, State(k, map[0 := f, 1 := g]), BOTH + BOTH);
      && s'.flights == map[] && s'.kernel.store == k.store
      && AlertsAre(Reserved(s'.kernel, f.company), f.company, [Wanted(f.content).value, Wanted(g.content).value])
  {
    var s := State(k, map[0 := f, 1 := g]);
    InterleaveConcat(w, s, BOTH, BOTH);
    BothResume(w, k, f, g);
    var s2 := Interleave(w, s, BOTH);
    BothResume(w, s2.kernel, f.(stage := ToEmit), g.(stage := ToEmit));
    TwoInserts(w, k, f.company, f.content, g.content);
  }

  /** Both DELETE before either INSERTs: the company ends with two alerts. */
  lemma TwoAlerts(w: World, k: Kernel, a: Step, b: Step)
    requires BothAsk(w, a, b)
    ensures
      var s := Interleave(w, State(k, map[]), [Begin(0, a), Begin(1, b)] + (BOTH + BOTH) + (BOTH + BOTH));
      && s.flights == map[]
      && AlertsAre(Reserved(s.kernel, a.company), a.company, [AskedBy(w, a), AskedBy(w, b)])
      && !InSync(s.kernel, a.company)
  {
    var begun := [Begin(0, a), Begin(1, b)];
    var s := State(k, map[]);
    BothBegin(w, k, a, b);
    InterleaveConcat(w, s, begun, BOTH + BOTH);
    InterleaveConcat(w, s, begun + (BOTH + BOTH), BOTH + BOTH);
    var s2 := Interleave(w, s, begun);
    BothDelete(w, s2.kernel, s2.flights[0], s2.flights[1]);
    var s6 := Interleave(w, s2, BOTH + BOTH);
    BothInsert(w, s6.kernel, s6.flights[0], s6.flights[1]);
  }

  lemma TwoInserts(w: World, k: Kernel, company: string, a: Content, b: Content)
    requires Reserved(k, company) == [] && Wanted(a).Some? && Wanted(b).Some?
    ensures AlertsAre(Reserved(InsertAlert(InsertAlert(k, company, a, w.show), company, b, w.show), company), company,
                      [Wanted(a).value, Wanted(b).value])
  {
    AfterInsert(w, k, company, a, company);
    AfterInsert(w, InsertAlert(k, company, a, w.show), company, b, company);
  }

  lemma OneAlertInSyncIff(k: Kernel, company: string, threshold: real)
    requires AlertsAre(Reserved(k, company), company, [threshold])
    ensures InSync(k, company) <==> ActiveThreshold(k.store, company) == Some(threshold)
  {
  }

  /** What a handler leaves that goes on from its commit to its end undisturbed. */
  lemma WholeSyncs(w: World, s: State, task: nat)
    requires task in s.flights && s.flights[task].stage.ToInvalidate? && Wanted(s.flights[task].content).Some?
    ensures
      var f, s' := s.flights[task], Interleave(w, s, Whole(task));
      && s'.flights == s.flights - {task} && s'.kernel.store == s.kernel.store
      && AlertsAre(Reserved(s'.kernel, f.company), f.company, [Wanted(f.content).value])
  {
    var f := s.flights[task];
    WholeResumes(w, s, task);
    SyncSyncs(Uncache(s.kernel, f.company), f.company, f.content, w.show, f.company, RESERVED);
  }

  /** The first commits, the second runs to its end, the first goes on: the second's Blueprint
      is active with the first's alert. */
  lemma FirstSyncsLast(w: World, k: Kernel, a: Step, b: Step)
    requires BothAsk(w, a, b)
    ensures
      var s := Interleave(w, State(k, map[]), [Begin(0, a), Begin(1, b)] + Whole(1) + Whole(0));
      && s.flights == map[]
      && AlertsAre(Reserved(s.kernel, a.company), a.company, [AskedBy(w, a)])
      && ActiveThreshold(s.kernel.store, a.company) == Some(AskedBy(w, b))
      && (InSync(s.kernel, a.company) <==> AskedBy(w, a) == AskedBy(w, b))
  {
    var begun := [Begin(0, a), Begin(1, b)];
    var s := State(k, map[]);
    BothBegin(w, k, a, b);
    var s2 := Interleave(w, s, begun);
    InterleaveConcat(w, s, begun, Whole(1));
    InterleaveConcat(w, s, begun + Whole(1), Whole(0));
    WholeSyncs(w, s2, 1);
    var s6 := Interleave(w, s2, Whole(1));
    WholeSyncs(w, s6, 0);
    OneAlertInSyncIff(Interleave(w, s6, Whole(0)).kernel, a.company, AskedBy(w, a));
  }
}
