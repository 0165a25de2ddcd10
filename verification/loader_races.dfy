/** The loader's cache under every interleaving at its awaits
    (kernel/company_blueprint/loader.py with the writers of the row): a load checks the
    cache, reads the row, then writes the cache; a publish or restore commits a row, then
    invalidates; a signup commits a new company's first row and never invalidates.
    Other tasks may run in between. */
module LoaderRaces {
  import opened Common

  /** A load in flight: about to read, or holding what it read. */
  datatype Flight<Row> = Reading(company: string) | Holding(company: string, row: Option<Row>)

  /** Every row ever committed for a company, newest last; the cache; the loads in
      flight; and the handlers that have committed but not yet invalidated. */
  datatype State<Row> = State(committed: map<string, seq<Row>>, cache: map<string, Row>,
                              loads: map<nat, Flight<Row>>, handlers: map<nat, string>)

  datatype Step<Row> =
    | BeginLoad(task: nat, company: string)
    | ReadRow(task: nat)
    | FinishLoad(task: nat)
    | Commit(task: nat, company: string, row: Row)
    | Invalidate(task: nat)
    | Signup(company: string, row: Row)

  function Rows<Row>(s: State<Row>, company: string): seq<Row> {
    if company in s.committed then s.committed[company] else []
  }

  function ActiveRow<Row>(s: State<Row>, company: string): Option<Row> {
    var rows := Rows(s, company);
    if rows == [] then None else Some(rows[|rows| - 1])
  }

  predicate Enabled<Row>(s: State<Row>, step: Step<Row>) {
    match step
    case BeginLoad(task, _) => task !in s.loads
    case ReadRow(task) => task in s.loads && s.loads[task].Reading?
    case FinishLoad(task) => task in s.loads && s.loads[task].Holding?
    case Commit(task, _, _) => task !in s.handlers
    case Invalidate(task) => task in s.handlers
    case Signup(company, _) => Rows(s, company) == []
  }

  function Take<Row>(s: State<Row>, step: Step<Row>): State<Row>
    requires Enabled(s, step)
  {
    match step
    case BeginLoad(task, company) =>
      if company in s.cache then s else s.(loads := s.loads[task := Reading(company)])
    case ReadRow(task) =>
      var company := s.loads[task].company;
      s.(loads := s.loads[task := Holding(company, ActiveRow(s, company))])
    case FinishLoad(task) =>
      var flight := s.loads[task];
      var landed := s.(loads := s.loads - {task});
      (match flight.row
       case Some(row) => landed.(cache := s.cache[flight.company := row])
       case None => landed)
    case Commit(task, company, row) =>
      s.(committed := s.committed[company := Rows(s, company) + [row]], handlers := s.handlers[task := company])
    case Invalidate(task) =>
      s.(cache := s.cache - {s.handlers[task]}, handlers := s.handlers - {task})
    case Signup(company, row) => s.(committed := s.committed[company := [row]])
  }

  ghost predicate IsRun<Row>(states: seq<State<Row>>, steps: seq<Step<Row>>) {
    && |states| == |steps| + 1
    && forall i :: 0 <= i < |steps| ==> Enabled(states[i], steps[i]) && states[i + 1] == Take(states[i], steps[i])
  }

  // ---------- under every interleaving ----------

  /** What is cached, or held by a load, was committed for that very company. */
  predicate OnlyCommitted<Row(==)>(s: State<Row>) {
    && (forall company :: company in s.cache ==> s.cache[company] in Rows(s, company))
    && (forall task :: task in s.loads && s.loads[task].Holding? && s.loads[task].row.Some? ==>
          s.loads[task].row.value in Rows(s, s.loads[task].company))
  }

  lemma StepOnlyCommitted<Row>(s: State<Row>, step: Step<Row>)
    requires OnlyCommitted(s) && Enabled(s, step)
    ensures OnlyCommitted(Take(s, step))
    ensures forall company :: Rows(s, company) <= Rows(Take(s, step), company)
  {
  }

  lemma {:induction false} EveryRunOnlyCommitted<Row>(states: seq<State<Row>>, steps: seq<Step<Row>>, i: nat)
    requires IsRun(states, steps) && OnlyCommitted(states[0]) && i <= |steps|
    ensures OnlyCommitted(states[i])
  {
    if i > 0 {
      EveryRunOnlyCommitted(states, steps, i - 1);
      StepOnlyCommitted(states[i - 1], steps[i - 1]);
    }
  }

  // ---------- without interruption ----------

  /** A load in one piece answers from the cache, or else caches the row there is; a handler in one
      piece replaces the row and leaves nothing cached. */
  lemma UninterruptedIsWhole<Row>(s: State<Row>, task: nat, company: string, row: Row)
    requires task !in s.loads && task !in s.handlers
    ensures company in s.cache ==> Take(s, BeginLoad(task, company)) == s
    ensures company !in s.cache ==>
              var s1 := Take(s, BeginLoad(task, company));
              Enabled(s1, ReadRow(task)) && Enabled(Take(s1, ReadRow(task)), FinishLoad(task))
              && Take(Take(s1, ReadRow(task)), FinishLoad(task))
                 == match ActiveRow(s, company)
                    case Some(active) => s.(cache := s.cache[company := active])
                    case None => s
    ensures
      var s1 := Take(s, Commit(task, company, row));
      Enabled(s1, Invalidate(task))
      && Take(s1, Invalidate(task))
         == s.(committed := s.committed[company := Rows(s, company) + [row]], cache := s.cache - {company})
  {
    assert s.loads[task := Reading(company)][task := Holding(company, ActiveRow(s, company))] - {task} == s.loads;
    assert s.handlers[task := company] - {task} == s.handlers;
  }

  // ---------- the trace ----------

  /** A process starts with nothing cached, no load in flight and no handler half-way. */
  ghost predicate IsTrace<Row>(states: seq<State<Row>>, steps: seq<Step<Row>>) {
    && IsRun(states, steps)
    && states[0].cache == map[] && states[0].loads == map[] && states[0].handlers == map[]
  }

  predicate CommitsFor<Row>(step: Step<Row>, company: string) {
    step.Commit? && step.company == company
  }

  predicate SignsUp<Row>(step: Step<Row>, company: string) {
    step.Signup? && step.company == company
  }

  /** Some handler commits for the company from step `r` on and before step `i`. */
  predicate CommitBetween<Row>(steps: seq<Step<Row>>, company: string, r: nat, i: nat)
    requires r <= i <= |steps|
  {
    exists m :: r <= m < i && CommitsFor(steps[m], company)
  }

  /** Every handler that has committed for the company has invalidated since. */
  ghost predicate AllInvalidated<Row>(steps: seq<Step<Row>>, company: string, i: nat)
    requires i <= |steps|
  {
    forall m :: 0 <= m < i && CommitsFor(steps[m], company) ==> InvalidatedBy(steps, m, i)
  }

  ghost predicate InvalidatedBy<Row>(steps: seq<Step<Row>>, m: nat, i: nat)
    requires m < i <= |steps| && steps[m].Commit?
  {
    exists v :: m < v < i && steps[v] == Step<Row>.Invalidate(steps[m].task)
  }

  /** The last step before i at which that load read its row; -1 if there is none. */
  function LastRead<Row>(steps: seq<Step<Row>>, task: nat, i: nat): (r: int)
    requires i <= |steps|
    ensures -1 <= r < i
  {
    if i == 0 then -1
    else if steps[i - 1].ReadRow? && steps[i - 1].task == task then i - 1
    else LastRead(steps, task, i - 1)
  }

  /** Step i is a load of the company putting a row into the cache. */
  predicate Writes<Row>(s: State<Row>, step: Step<Row>, company: string)
    requires Enabled(s, step)
  {
    step.FinishLoad? && s.loads[step.task].company == company && s.loads[step.task].row.Some?
  }

  predicate Drops<Row>(s: State<Row>, step: Step<Row>, company: string)
    requires Enabled(s, step)
  {
    step.Invalidate? && s.handlers[step.task] == company
  }

  /** The write the company's entry stems from: the last one, unless it was dropped since. */
  ghost function LastWrite<Row>(states: seq<State<Row>>, steps: seq<Step<Row>>, company: string, i: nat): (w: int)
    requires IsRun(states, steps) && i <= |steps|
    ensures -1 <= w < i
    ensures w >= 0 ==> Enabled(states[w], steps[w]) && Writes(states[w], steps[w], company)
  {
    if i == 0 then -1
    else if Writes(states[i - 1], steps[i - 1], company) then i - 1
    else if Drops(states[i - 1], steps[i - 1], company) then -1
    else LastWrite(states, steps, company, i - 1)
  }

  // ---------- when a write is late ----------

  /** Rows committed for one company differ: each has a version of its own. */
  predicate Distinct<Row(==)>(rows: seq<Row>) {
    forall j, k :: 0 <= j < k < |rows| ==> rows[j] != rows[k]
  }

  predicate Stale<Row(==)>(s: State<Row>, company: string) {
    company in s.cache && Some(s.cache[company]) != ActiveRow(s, company)
  }

  lemma StepRows<Row>(s: State<Row>, step: Step<Row>, company: string)
    requires Enabled(s, step)
    ensures CommitsFor(step, company) ==> Rows(Take(s, step), company) == Rows(s, company) + [step.row]
    ensures SignsUp(step, company) ==> Rows(s, company) == [] && Rows(Take(s, step), company) == [step.row]
    ensures !CommitsFor(step, company) && !SignsUp(step, company) ==> Rows(Take(s, step), company) == Rows(s, company)
  {
  }

  lemma CommitBetweenStep<Row>(steps: seq<Step<Row>>, company: string, r: nat, i: nat)
    requires r <= i < |steps|
    ensures CommitBetween(steps, company, r, i + 1) <==>
              CommitBetween(steps, company, r, i) || CommitsFor(steps[i], company)
  {
  }

  lemma {:induction false} PrefixesGrow<Row>(rows: seq<seq<Row>>, r: nat, i: nat)
    requires forall j :: 0 <= j < |rows| - 1 ==> rows[j] <= rows[j + 1]
    requires r <= i < |rows|
    ensures rows[r] <= rows[i]
  {
    if r < i {
      PrefixesGrow(rows, r, i - 1);
    }
  }

  lemma RowsGrow<Row>(states: seq<State<Row>>, steps: seq<Step<Row>>, company: string, r: nat, i: nat)
    requires IsRun(states, steps) && r <= i <= |steps|
    ensures Rows(states[r], company) <= Rows(states[i], company)
  {
    var rows := seq(|states|, j requires 0 <= j < |states| => Rows(states[j], company));
    forall j | 0 <= j < |rows| - 1
      ensures rows[j] <= rows[j + 1]
    {
      StepRows(states[j], steps[j], company);
    }
    PrefixesGrow(rows, r, i);
  }

  predicate CountsCommits<Row>(counts: seq<nat>, steps: seq<Step<Row>>, company: string, r: nat) {
    && |counts| == |steps| + 1
    && forall j :: r <= j < |steps| ==> counts[j + 1] == counts[j] + if CommitsFor(steps[j], company) then 1 else 0
  }

  lemma {:induction false} MoreIffCommitBetween<Row>(counts: seq<nat>, steps: seq<Step<Row>>, company: string, r: nat,
                                                     i: nat)
    requires r <= i <= |steps| && CountsCommits(counts, steps, company, r)
    ensures counts[r] <= counts[i]
    ensures counts[r] < counts[i] <==> CommitBetween(steps, company, r, i)
  {
    if r < i {
      MoreIffCommitBetween(counts, steps, company, r, i - 1);
      CommitBetweenStep(steps, company, r, i - 1);
    }
  }

  /** From a point where the company has a row, only commits add to its rows. */
  lemma MoreRowsIff<Row>(states: seq<State<Row>>, steps: seq<Step<Row>>, company: string, r: nat, i: nat)
    requires IsRun(states, steps) && r <= i <= |steps| && Rows(states[r], company) != []
    ensures |Rows(states[r], company)| <= |Rows(states[i], company)|
    ensures |Rows(states[r], company)| < |Rows(states[i], company)| <==> CommitBetween(steps, company, r, i)
  {
    var counts: seq<nat> := seq(|states|, j requires 0 <= j < |states| => |Rows(states[j], company)|);
    forall j | r <= j < |steps|
      ensures counts[j + 1] == counts[j] + if CommitsFor(steps[j], company) then 1 else 0
    {
      RowsGrow(states, steps, company, r, j);
      StepRows(states[j], steps[j], company);
    }
    MoreIffCommitBetween(counts, steps, company, r, i);
  }

  /** Of distinct rows, the active one at two points is the same exactly when no commit lies between. */
  lemma SameActiveIff<Row>(states: seq<State<Row>>, steps: seq<Step<Row>>, company: string, r: nat, i: nat)
    requires IsRun(states, steps) && r <= i <= |steps| && Distinct(Rows(states[i], company))
    requires ActiveRow(states[r], company).Some?
    ensures ActiveRow(states[r], company) == ActiveRow(states[i], company) <==> !CommitBetween(steps, company, r, i)
  {
    RowsGrow(states, steps, company, r, i);
    MoreRowsIff(states, steps, company, r, i);
    var before, after := Rows(states[r], company), Rows(states[i], company);
    assert before[|before| - 1] == after[|before| - 1];
    assert |before| == |after| <==> before == after;
  }

  /** What a load holds is the row that was active when it read. */
  lemma {:induction false} HoldsWhatItRead<Row>(states: seq<State<Row>>, steps: seq<Step<Row>>, i: nat, task: nat)
    requires IsTrace(states, steps) && i <= |steps|
    requires task in states[i].loads && states[i].loads[task].Holding?
    ensures
      var r, flight := LastRead(steps, task, i), states[i].loads[task];
      r >= 0 && flight.row == ActiveRow(states[r], flight.company)
  {
    var step := steps[i - 1];
    if !(step.ReadRow? && step.task == task) {
      HoldsWhatItRead(states, steps, i - 1, task);
    }
  }

  predicate HalfWay<Row>(s: State<Row>, task: nat, company: string) {
    task in s.handlers && s.handlers[task] == company
  }

  /** Step m is this task's commit, and no invalidation of it has followed. */
  ghost predicate OpenCommit<Row>(steps: seq<Step<Row>>, m: nat, i: nat, task: nat, company: string)
    requires m < i <= |steps|
  {
    CommitsFor(steps[m], company) && steps[m].task == task && !InvalidatedBy(steps, m, i)
  }

  lemma OpenCommitStep<Row>(steps: seq<Step<Row>>, m: nat, i: nat, task: nat, company: string)
    requires m < i < |steps|
    ensures OpenCommit(steps, m, i + 1, task, company) <==>
              OpenCommit(steps, m, i, task, company) && steps[i] != Invalidate(task)
  {
    if CommitsFor(steps[m], company) && steps[m].task == task {
      assert InvalidatedBy(steps, m, i + 1) <==> InvalidatedBy(steps, m, i) || steps[i] == Invalidate(task);
    }
  }

  lemma HalfWayStep<Row>(s: State<Row>, step: Step<Row>, task: nat, company: string)
    requires Enabled(s, step)
    ensures HalfWay(Take(s, step), task, company) <==>
              (CommitsFor(step, company) && step.task == task)
              || (HalfWay(s, task, company) && step != Invalidate(task))
  {
  }

  ghost predicate SomeOpenCommit<Row>(steps: seq<Step<Row>>, i: nat, task: nat, company: string)
    requires i <= |steps|
  {
    exists m :: 0 <= m < i && OpenCommit(steps, m, i, task, company)
  }

  lemma SomeOpenCommitStep<Row>(steps: seq<Step<Row>>, i: nat, task: nat, company: string)
    requires i < |steps|
    ensures SomeOpenCommit(steps, i + 1, task, company) <==>
              (CommitsFor(steps[i], company) && steps[i].task == task)
              || (SomeOpenCommit(steps, i, task, company) && steps[i] != Invalidate(task))
  {
    var next := i + 1;
    if m :| 0 <= m < i && OpenCommit(steps, m, next, task, company) {
      OpenCommitStep(steps, m, i, task, company);
    }
    if m :| 0 <= m < i && OpenCommit(steps, m, i, task, company) {
      OpenCommitStep(steps, m, i, task, company);
    }
    assert OpenCommit(steps, i, i + 1, task, company) <==> CommitsFor(steps[i], company) && steps[i].task == task;
  }

  /** A handler is half-way exactly when its commit has not been followed by its invalidation. */
  lemma {:induction false} HalfWayIff<Row>(states: seq<State<Row>>, steps: seq<Step<Row>>, i: nat, task: nat,
                                           company: string)
    requires IsTrace(states, steps) && i <= |steps|
    ensures HalfWay(states[i], task, company) <==> SomeOpenCommit(steps, i, task, company)
  {
    if i > 0 {
      HalfWayIff(states, steps, i - 1, task, company);
      SomeOpenCommitStep(steps, i - 1, task, company);
      HalfWayStep(states[i - 1], steps[i - 1], task, company);
    }
  }

  ghost predicate NoneHalfWay<Row>(s: State<Row>, company: string) {
    forall task :: !HalfWay(s, task, company)
  }

  lemma SameHandlers<Row>(s: State<Row>, s': State<Row>, company: string)
    requires s.handlers == s'.handlers
    ensures NoneHalfWay(s, company) <==> NoneHalfWay(s', company)
  {
    assert forall task: nat :: HalfWay(s, task, company) <==> HalfWay(s', task, company);
  }

  /** Every handler of the company has invalidated exactly when none is half-way. */
  lemma DueIff<Row>(states: seq<State<Row>>, steps: seq<Step<Row>>, i: nat, company: string)
    requires IsTrace(states, steps) && i <= |steps|
    ensures AllInvalidated(steps, company, i) <==> NoneHalfWay(states[i], company)
  {
    if task: nat :| HalfWay(states[i], task, company) {
      HalfWayIff(states, steps, i, task, company);
    } else if m :| 0 <= m < i && CommitsFor(steps[m], company) && !InvalidatedBy(steps, m, i) {
      assert OpenCommit(steps, m, i, steps[m].task, company);
      HalfWayIff(states, steps, i, steps[m].task, company);
    }
  }

  /** Step i writes for the company a row that a commit has replaced since the load read it,
      when every handler of the company has invalidated already. */
  ghost predicate LateWrite<Row>(states: seq<State<Row>>, steps: seq<Step<Row>>, company: string, i: nat)
    requires IsTrace(states, steps) && i < |steps|
  {
    && Enabled(states[i], steps[i]) && Writes(states[i], steps[i], company)
    && LastRead(steps, steps[i].task, i) >= 0
    && CommitBetween(steps, company, LastRead(steps, steps[i].task, i), i)
    && AllInvalidated(steps, company, i)
  }

  /** A write puts a row other than the active one into the cache, with no invalidation to come,
      exactly when it is late. */
  lemma LateIff<Row>(states: seq<State<Row>>, steps: seq<Step<Row>>, company: string, i: nat)
    requires IsTrace(states, steps) && i < |steps| && Distinct(Rows(states[i], company))
    requires Enabled(states[i], steps[i]) && Writes(states[i], steps[i], company)
    ensures LateWrite(states, steps, company, i) <==>
              Stale(states[i + 1], company) && NoneHalfWay(states[i + 1], company)
  {
    var task := steps[i].task;
    var r := LastRead(steps, task, i);
    HoldsWhatItRead(states, steps, i, task);
    SameActiveIff(states, steps, company, r, i);
    DueIff(states, steps, i, company);
    StepRows(states[i], steps[i], company);
    SameHandlers(states[i], states[i + 1], company);
  }

  // ---------- when an entry is stale ----------

  /** An entry is what its last write put there. */
  lemma {:induction false} EntryIsLastWrite<Row>(states: seq<State<Row>>, steps: seq<Step<Row>>, company: string,
                                                 i: nat)
    requires IsTrace(states, steps) && i <= |steps|
    ensures
      var w := LastWrite(states, steps, company, i);
      && (company in states[i].cache <==> w >= 0)
      && (w >= 0 ==> Some(states[i].cache[company]) == states[w].loads[steps[w].task].row)
  {
    if i > 0 {
      EntryIsLastWrite(states, steps, company, i - 1);
    }
  }

  /** Since the last write no invalidation has dropped the entry, so a handler half-way then is
      half-way still, and so is one that has committed since. */
  lemma {:induction false} HalfWayStays<Row>(states: seq<State<Row>>, steps: seq<Step<Row>>, company: string, j: nat,
                                             i: nat, task: nat)
    requires IsRun(states, steps) && j <= i <= |steps|
    requires 0 <= LastWrite(states, steps, company, i) < j && HalfWay(states[j], task, company)
    ensures HalfWay(states[i], task, company)
  {
    if j < i {
      HalfWayStays(states, steps, company, j, i - 1, task);
      HalfWayStep(states[i - 1], steps[i - 1], task, company);
    }
  }

  lemma NoneHalfWaySinceWrite<Row>(states: seq<State<Row>>, steps: seq<Step<Row>>, company: string, i: nat)
    requires IsTrace(states, steps) && i <= |steps| && AllInvalidated(steps, company, i)
    requires LastWrite(states, steps, company, i) >= 0
    ensures
      var w := LastWrite(states, steps, company, i);
      AllInvalidated(steps, company, w) && forall m :: w <= m < i ==> !CommitsFor(steps[m], company)
  {
    var w := LastWrite(states, steps, company, i);
    DueIff(states, steps, i, company);
    DueIff(states, steps, w, company);
    forall m | w < m < i
      ensures !CommitsFor(steps[m], company)
    {
      if CommitsFor(steps[m], company) {
        HalfWayStep(states[m], steps[m], steps[m].task, company);
        HalfWayStays(states, steps, company, m + 1, i, steps[m].task);
      }
    }
    if task: nat :| HalfWay(states[w], task, company) {
      HalfWayStep(states[w], steps[w], task, company);
      HalfWayStays(states, steps, company, w + 1, i, task);
    }
  }

  /** Under every interleaving: once every handler of a company has invalidated, its entry is
      stale exactly when the write it stems from was late. */
  lemma StaleIffLastWriteLate<Row>(states: seq<State<Row>>, steps: seq<Step<Row>>, company: string, i: nat)
    requires IsTrace(states, steps) && i <= |steps| && Distinct(Rows(states[i], company))
    requires AllInvalidated(steps, company, i)
    ensures
      var w := LastWrite(states, steps, company, i);
      Stale(states[i], company) <==> w >= 0 && LateWrite(states, steps, company, w)
  {
    var w := LastWrite(states, steps, company, i);
    EntryIsLastWrite(states, steps, company, i);
    if w >= 0 {
      var r := LastRead(steps, steps[w].task, w);
      HoldsWhatItRead(states, steps, w, steps[w].task);
      SameActiveIff(states, steps, company, r, i);
      NoneHalfWaySinceWrite(states, steps, company, i);
      assert CommitBetween(steps, company, r, i) <==> CommitBetween(steps, company, r, w);
    }
  }

  // ---------- it happens ----------

  /** Read, commit, invalidate, write leaves the old row cached with nothing left to drop it; */
  lemma LateWriteHappens<Row>(oldRow: Row, newRow: Row, company: string)
    requires oldRow != newRow
    ensures
      var s0 := State(map[company := [oldRow]], map[], map[], map[]);
      var s1 := Take(s0, BeginLoad(0, company));
      var s2 := Take(s1, ReadRow(0));
      var s3 := Take(s2, Commit(1, company, newRow));
      var s4 := Take(s3, Invalidate(1));
      var s5 := Take(s4, FinishLoad(0));
      Stale(s5, company) && s5.handlers == map[] && s5.cache[company] == oldRow
  {
    var s0 := State(map[company := [oldRow]], map[], map[], map[]);
    var s1 := Take(s0, BeginLoad(0, company));
    var s2 := Take(s1, ReadRow(0));
    var s3 := Take(s2, Commit(1, company, newRow));
    var s4 := Take(s3, Invalidate(1));
    assert Rows(s4, company) == [oldRow, newRow];
  }

  /** and a load that read the new row, but writes after the late one, puts that right. */
  lemma LateWriteRepaired<Row>(oldRow: Row, newRow: Row, company: string)
    requires oldRow != newRow
    ensures
      var s0 := State(map[company := [oldRow]], map[], map[], map[]);
      var s1 := Take(Take(s0, BeginLoad(0, company)), BeginLoad(2, company));
      var s2 := Take(s1, ReadRow(0));
      var s3 := Take(s2, Commit(1, company, newRow));
      var s4 := Take(s3, Invalidate(1));
      var s5 := Take(s4, ReadRow(2));
      var s6 := Take(s5, FinishLoad(0));
      var s7 := Take(s6, FinishLoad(2));
      Stale(s6, company) && s6.handlers == map[] && !Stale(s7, company) && s7.cache[company] == newRow
  {
    var s0 := State(map[company := [oldRow]], map[], map[], map[]);
    var s1 := Take(Take(s0, BeginLoad(0, company)), BeginLoad(2, company));
    var s2 := Take(s1, ReadRow(0));
    var s3 := Take(s2, Commit(1, company, newRow));
    var s4 := Take(s3, Invalidate(1));
    assert Rows(s4, company) == [oldRow, newRow];
  }
}
