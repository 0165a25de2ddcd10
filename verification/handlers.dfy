/** The Blueprint handlers of the workflow engine (kernel/workflow_engine/engine.py), the
    automations they keep in step (automation.py), and the cache they invalidate (loader.py).
    Each method here runs to its end before the next one starts; `HandlerRaces` cuts the
    publish and restore handlers at their awaits. */
module Handlers {
  import opened Common
  import opened Json
  import opened Blueprint
  import opened Versions
  import Intelligence

  const RESERVED := "Large transaction alert (from Blueprint)"
  const TRANSACTION_RECORDED := "transaction.recorded"

  // ---------- automations ----------

  datatype Condition = Unconditional | When(field: Option<string>, op: Option<string>, value: Json)

  datatype Action = Action(kind: Option<string>, message: Option<string>, tag: Option<string>)

  datatype ActionResult = Notify(message: string) | Tag(value: string)

  datatype Definition = Definition(id: nat, company: string, name: string, trigger: string,
                                   condition: Condition, action: Action, enabled: bool)

  datatype RunRow = RunRow(company: string, workflow: nat, name: string, trigger: string, result: ActionResult)

  /** A transaction's dictionary: its amount, and everything else. */
  datatype Transaction = Transaction(amount: real, others: seq<Field>)

  /** Python's `==`, `float` on text, and `str(b).lower() in str(a).lower()`. */
  datatype Ops = Ops(equal: (Json, Json) -> bool, readFloat: string -> Option<real>, contains: (Json, Json) -> bool)

  function Lookup(t: Transaction, field: string): Option<Json> {
    if field == "amount" then Some(JNum(t.amount)) else Get(t.others, field)
  }

  /** A comparison of floats; a value `float` refuses makes it false. */
  predicate Compare(ops: Ops, a: Json, b: Json, holds: (real, real) -> bool) {
    match (ReadFloat(ops.readFloat, a), ReadFloat(ops.readFloat, b))
    case (Some(x), Some(y)) => holds(x, y)
    case (_, _) => false
  }

  predicate Apply(ops: Ops, op: string, a: Json, b: Json) {
    if op == "gte" then Compare(ops, a, b, (x, y) => x >= y)
    else if op == "eq" then ops.equal(a, b)
    else if op == "neq" then !ops.equal(a, b)
    else if op == "gt" then Compare(ops, a, b, (x, y) => x > y)
    else if op == "lt" then Compare(ops, a, b, (x, y) => x < y)
    else if op == "lte" then Compare(ops, a, b, (x, y) => x <= y)
    else if op == "contains" then ops.contains(a, b)
    else false
  }

  predicate Matches(ops: Ops, c: Condition, t: Transaction) {
    match c
    case Unconditional => true
    case When(Some(field), Some(op), value) =>
      Lookup(t, field).Some? && Apply(ops, op, Lookup(t, field).value, value)
    case When(_, _, _) => false
  }

  function RunAction(a: Action): ActionResult {
    if Default(a.kind, "tag") == "notify" then ActionResult.Notify(Default(a.message, "Condition matched"))
    else Tag(Default(a.tag, "flagged"))
  }

  /** The definitions one evaluation runs. */
  function Firing(ops: Ops, company: string, trigger: string, t: Transaction): Definition -> bool {
    (d: Definition) => d.company == company && d.enabled && d.trigger == trigger && Matches(ops, d.condition, t)
  }

  function RunOf(d: Definition, trigger: string): RunRow {
    RunRow(d.company, d.id, d.name, trigger, RunAction(d.action))
  }

  /** The rows logged when the firing definitions run, newest first. */
  function Logged(fires: Definition -> bool, defs: seq<Definition>, trigger: string): seq<RunRow> {
    if defs == [] then []
    else
      var newest := defs[|defs| - 1];
      (if fires(newest) then [RunOf(newest, trigger)] else []) + Logged(fires, defs[..|defs| - 1], trigger)
  }

  function Triggered(ops: Ops, defs: seq<Definition>, company: string, trigger: string, t: Transaction): seq<RunRow> {
    Logged(Firing(ops, company, trigger, t), defs, trigger)
  }

  // ---------- what an evaluation promises, apart from how it is computed ----------

  /** One of the seven comparisons holds; the four orderings only of values that read as numbers. */
  ghost predicate Holds(ops: Ops, op: string, a: Json, b: Json) {
    || (op == "eq" && ops.equal(a, b))
    || (op == "neq" && !ops.equal(a, b))
    || (op == "gt" && exists x, y :: ReadsAs(ops.readFloat, a, x) && ReadsAs(ops.readFloat, b, y) && x > y)
    || (op == "gte" && exists x, y :: ReadsAs(ops.readFloat, a, x) && ReadsAs(ops.readFloat, b, y) && x >= y)
    || (op == "lt" && exists x, y :: ReadsAs(ops.readFloat, a, x) && ReadsAs(ops.readFloat, b, y) && x < y)
    || (op == "lte" && exists x, y :: ReadsAs(ops.readFloat, a, x) && ReadsAs(ops.readFloat, b, y) && x <= y)
    || (op == "contains" && ops.contains(a, b))
  }

  /** The transaction's dictionary has this value under the field. */
  ghost predicate Carries(t: Transaction, field: string, v: Json) {
    if field == "amount" then v == JNum(t.amount)
    else FirstIs(t.others, field, v)
  }

  /** The definition is the company's, enabled, waits for this trigger, and has no condition or one
      that holds of the transaction. */
  ghost predicate Runs(ops: Ops, company: string, trigger: string, t: Transaction, d: Definition) {
    && d.company == company && d.enabled && d.trigger == trigger
    && match d.condition
       case Unconditional => true
       case When(Some(field), Some(op), value) => exists v :: Carries(t, field, v) && Holds(ops, op, v, value)
       case When(_, _, _) => false
  }

  /** The row one run of the definition logs. */
  predicate IsRunOf(row: RunRow, d: Definition, trigger: string) {
    && row.company == d.company && row.workflow == d.id && row.name == d.name && row.trigger == trigger
    && row.result == if d.action.kind == Some("notify")
                     then
                       var message := if d.action.message.Some? then d.action.message.value else "Condition matched";
                       ActionResult.Notify(message)
                     else Tag(if d.action.tag.Some? then d.action.tag.value else "flagged")
  }

  /** The rows are one for each qualifying definition, newest definition first: row i for the one at ks[i]. */
  ghost predicate OneRunEach(qualifies: Definition -> bool, defs: seq<Definition>, trigger: string, rows: seq<RunRow>,
                             ks: seq<nat>)
  {
    && |ks| == |rows|
    && (forall i, j :: 0 <= i < j < |ks| ==> ks[i] > ks[j])
    && (forall i :: 0 <= i < |ks| ==>
          ks[i] < |defs| && qualifies(defs[ks[i]]) && IsRunOf(rows[i], defs[ks[i]], trigger))
    && (forall k :: 0 <= k < |defs| && qualifies(defs[k]) ==> k in ks)
  }

  /** An evaluation of the definitions for a transaction of the company logs these rows. */
  ghost predicate Evaluates(ops: Ops, defs: seq<Definition>, company: string, trigger: string, t: Transaction,
                            rows: seq<RunRow>)
  {
    exists ks :: OneRunEach(Qualifying(ops, company, trigger, t), defs, trigger, rows, ks)
  }

  ghost function Qualifying(ops: Ops, company: string, trigger: string, t: Transaction): Definition -> bool {
    (d: Definition) => Runs(ops, company, trigger, t, d)
  }

  lemma OldRunsStay(fires: Definition -> bool, defs: seq<Definition>, trigger: string, rows: seq<RunRow>, ks: seq<nat>)
    requires defs != [] && OneRunEach(fires, defs[..|defs| - 1], trigger, rows, ks)
    ensures !fires(defs[|defs| - 1]) ==> OneRunEach(fires, defs, trigger, rows, ks)
    ensures forall i :: 0 <= i < |ks| ==>
              ks[i] < |defs| - 1 && fires(defs[ks[i]]) && IsRunOf(rows[i], defs[ks[i]], trigger)
    ensures forall k :: 0 <= k < |defs| - 1 && fires(defs[k]) ==> k in ks
  {
    var front := defs[..|defs| - 1];
    assert forall k :: 0 <= k < |front| ==> front[k] == defs[k];
  }

  lemma NewestRunLeads(fires: Definition -> bool, defs: seq<Definition>, trigger: string, rows: seq<RunRow>,
                       ks: seq<nat>)
    requires defs != [] && fires(defs[|defs| - 1])
    requires OneRunEach(fires, defs[..|defs| - 1], trigger, rows, ks)
    ensures OneRunEach(fires, defs, trigger, [RunOf(defs[|defs| - 1], trigger)] + rows, [|defs| - 1] + ks)
  {
    var n := |defs| - 1;
    var rows', ks' := [RunOf(defs[n], trigger)] + rows, [n] + ks;
    OldRunsStay(fires, defs, trigger, rows, ks);
    forall i | 0 <= i < |ks'|
      ensures ks'[i] < |defs| && fires(defs[ks'[i]]) && IsRunOf(rows'[i], defs[ks'[i]], trigger)
    {
      if i > 0 {
        assert ks'[i] == ks[i - 1] && rows'[i] == rows[i - 1];
      }
    }
    forall k | 0 <= k < |defs| && fires(defs[k])
      ensures k in ks'
    {
      if k < n {
        assert k in ks;
      }
    }
  }

  lemma {:induction false} LoggedAreOneEach(fires: Definition -> bool, defs: seq<Definition>, trigger: string)
    returns (ks: seq<nat>)
    ensures OneRunEach(fires, defs, trigger, Logged(fires, defs, trigger), ks)
  {
    if defs == [] {
      ks := [];
    } else {
      var n := |defs| - 1;
      ks := LoggedAreOneEach(fires, defs[..n], trigger);
      var rest := Logged(fires, defs[..n], trigger);
      if fires(defs[n]) {
        NewestRunLeads(fires, defs, trigger, rest, ks);
        ks := [n] + ks;
      } else {
        OldRunsStay(fires, defs, trigger, rest, ks);
        assert Logged(fires, defs, trigger) == [] + rest == rest;
      }
    }
  }

  lemma ComparesIff(ops: Ops, a: Json, b: Json, holds: (real, real) -> bool)
    ensures Compare(ops, a, b, holds) <==>
              exists x, y :: ReadsAs(ops.readFloat, a, x) && ReadsAs(ops.readFloat, b, y) && holds(x, y)
  {
    ReadFloatReads(ops.readFloat, a);
    ReadFloatReads(ops.readFloat, b);
  }

  lemma AppliesIffHolds(ops: Ops, op: string, a: Json, b: Json)
    ensures Apply(ops, op, a, b) <==> Holds(ops, op, a, b)
  {
    ComparesIff(ops, a, b, (x, y) => x > y);
    ComparesIff(ops, a, b, (x, y) => x >= y);
    ComparesIff(ops, a, b, (x, y) => x < y);
    ComparesIff(ops, a, b, (x, y) => x <= y);
  }

  lemma LookupIffCarries(t: Transaction, field: string, v: Json)
    ensures Lookup(t, field) == Some(v) <==> Carries(t, field, v)
  {
    GetIsFirst(t.others, field, v);
  }

  lemma FiresIffRuns(ops: Ops, company: string, trigger: string, t: Transaction, d: Definition)
    ensures Firing(ops, company, trigger, t)(d) <==> Runs(ops, company, trigger, t, d)
  {
    match d.condition
    case Unconditional =>
    case When(field, op, value) =>
      if field.Some? && op.Some? {
        forall v
          ensures Lookup(t, field.value) == Some(v) <==> Carries(t, field.value, v)
          ensures Apply(ops, op.value, v, value) <==> Holds(ops, op.value, v, value)
        {
          LookupIffCarries(t, field.value, v);
          AppliesIffHolds(ops, op.value, v, value);
        }
      }
  }

  lemma TriggeredEvaluates(ops: Ops, defs: seq<Definition>, company: string, trigger: string, t: Transaction)
    ensures Evaluates(ops, defs, company, trigger, t, Triggered(ops, defs, company, trigger, t))
  {
    var fires := Firing(ops, company, trigger, t);
    var ks := LoggedAreOneEach(fires, defs, trigger);
    forall d
      ensures fires(d) <==> Runs(ops, company, trigger, t, d)
    {
      FiresIffRuns(ops, company, trigger, t, d);
    }
    var rows := Triggered(ops, defs, company, trigger, t);
    assert OneRunEach(Qualifying(ops, company, trigger, t), defs, trigger, rows, ks);
  }

  // ---------- definitions by name ----------

  predicate Named(d: Definition, company: string, name: string) {
    d.company == company && d.name == name
  }

  function Without(defs: seq<Definition>, company: string, name: string): seq<Definition> {
    if defs == [] then []
    else
      var last := defs[|defs| - 1];
      Without(defs[..|defs| - 1], company, name) + if Named(last, company, name) then [] else [last]
  }

  function Only(defs: seq<Definition>, company: string, name: string): seq<Definition> {
    if defs == [] then []
    else
      var last := defs[|defs| - 1];
      Only(defs[..|defs| - 1], company, name) + if Named(last, company, name) then [last] else []
  }

  function Ids(defs: seq<Definition>): set<nat> {
    set d | d in defs :: d.id
  }

  /** The logged runs that outlive some definitions: the schema deletes a run with its definition. */
  function Outliving(rows: seq<RunRow>, removed: set<nat>): seq<RunRow> {
    if rows == [] then []
    else (if rows[0].workflow in removed then [] else [rows[0]]) + Outliving(rows[1..], removed)
  }

  // ---------- the engine's state ----------

  datatype Kernel = Kernel(store: Store, cache: map<string, Row>, definitions: seq<Definition>,
                           runs: seq<RunRow>, nextId: nat, events: seq<Intelligence.Event>)

  datatype Failure = Forbidden | Unprocessable | NotFound | Internal

  /** The threshold a Blueprint asks to be told about. */
  function Wanted(c: Content): Option<real> {
    if c.notify then c.threshold else None
  }

  function AlertFor(id: nat, company: string, threshold: real, message: string): Definition {
    Definition(id, company, RESERVED, TRANSACTION_RECORDED,
               When(Some("amount"), Some("gte"), JNum(threshold)),
               Action(Some("notify"), Some(message), None), true)
  }

  /** The DELETE of `_sync_blueprint_automations`, with the runs it takes along. */
  function DeleteReserved(k: Kernel, company: string): Kernel {
    k.(definitions := Without(k.definitions, company, RESERVED),
       runs := Outliving(k.runs, Ids(Only(k.definitions, company, RESERVED))))
  }

  /** Its INSERT, if one is wanted; `show` renders the alert's message. */
  function InsertAlert(k: Kernel, company: string, c: Content, show: real -> string): Kernel {
    match Wanted(c)
    case None => k
    case Some(x) =>
      k.(definitions := k.definitions + [AlertFor(k.nextId, company, x, show(x))], nextId := k.nextId + 1)
  }

  /** `_sync_blueprint_automations`. */
  function Sync(k: Kernel, company: string, c: Content, show: real -> string): Kernel {
    InsertAlert(DeleteReserved(k, company), company, c, show)
  }

  function Uncache(k: Kernel, company: string): Kernel {
    k.(cache := k.cache - {company})
  }

  function Emit(k: Kernel, name: string, company: string): Kernel {
    k.(events := k.events + [Intelligence.Event(name, Some(company))])
  }

  /** What both handlers do once a version has been committed. */
  function AfterCommit(k: Kernel, st: Store, company: string, c: Content, show: real -> string, event: string): Kernel {
    Emit(Sync(Uncache(k.(store := st), company), company, c, show), event, company)
  }

  function HandlePublish(env: Env, show: real -> string, k: Kernel, owner: bool, company: string, user: string,
                         p: Payload): (Kernel, Result<Row, Failure>)
  {
    if !owner then (k, Err(Forbidden))
    else
      match Publish(env, k.store, company, user, p)
      case (_, Err(Crash)) => (k, Err(Internal))
      case (_, Err(_)) => (k, Err(Unprocessable))
      case (st, Ok(row)) => (AfterCommit(k, st, company, row.content, show, "blueprint.published"), Ok(row))
  }

  function HandleRestore(env: Env, show: real -> string, k: Kernel, owner: bool, company: string, user: string,
                         version: Option<int>): (Kernel, Result<Row, Failure>)
  {
    if !owner then (k, Err(Forbidden))
    else if version.None? then (k, Err(Unprocessable))
    else
      match Restore(env, k.store, company, user, version.value)
      case (_, Err(Crash)) => (k, Err(Internal))
      case (_, Err(_)) => (k, Err(NotFound))
      case (st, Ok(row)) => (AfterCommit(k, st, company, row.content, show, "blueprint.version_restored"), Ok(row))
  }

  /** `workflows.create`: anyone may use any name. */
  function HandleCreate(k: Kernel, company: string, name: string, trigger: string, c: Condition, a: Action): Kernel {
    Emit(k.(definitions := k.definitions + [Definition(k.nextId, company, name, trigger, c, a, true)],
            nextId := k.nextId + 1), "workflow.created", company)
  }

  /** `graph.create` for one manual entry, the ledger append itself aside. */
  function HandleRecord(ops: Ops, k: Kernel, company: string, t: Transaction): Kernel {
    Emit(k.(runs := k.runs + Triggered(ops, k.definitions, company, TRANSACTION_RECORDED, t)),
         TRANSACTION_RECORDED, company)
  }

  /** Signup publishes the country default straight through the version manager. */
  function HandleSignup(env: Env, k: Kernel, company: string, user: string, p: Payload): Kernel {
    k.(store := Publish(env, k.store, company, user, p).0)
  }

  /** `BlueprintLoader.load`. */
  function HandleLoad(k: Kernel, company: string): (Kernel, Option<Row>) {
    if company in k.cache then (k, Some(k.cache[company]))
    else if company !in k.store.active then (k, None)
    else (k.(cache := k.cache[company := k.store.active[company]]), Some(k.store.active[company]))
  }

  class WorkflowEngine {
    const versions: VersionManager
    var cache: map<string, Row>
    var definitions: seq<Definition>
    var runs: seq<RunRow>
    var nextId: nat
    var events: seq<Intelligence.Event>

    function State(): Kernel
      reads this, versions
    {
      Kernel(versions.State(), cache, definitions, runs, nextId, events)
    }

    ghost predicate Valid()
      reads this, versions
    {
      Versions.Valid(versions.State())
    }

    constructor ()
      ensures Valid() && fresh(versions)
      ensures State() == Kernel(Store(map[], []), map[], [], [], 0, [])
    {
      versions := new VersionManager();
      cache, definitions, runs, nextId, events := map[], [], [], 0, [];
    }

    method Load(company: string) returns (row: Option<Row>)
      requires Valid()
      modifies this`cache
      ensures Valid()
      ensures (State(), row) == HandleLoad(old(State()), company)
    {
      if company in cache {
        return Some(cache[company]);
      }
      if company !in versions.active {
        return None;
      }
      cache := cache[company := versions.active[company]];
      return Some(versions.active[company]);
    }

    method SyncBlueprintAutomations(company: string, c: Content, show: real -> string)
      modifies this`definitions, this`runs, this`nextId
      ensures State() == Sync(old(State()), company, c, show)
    {
      runs := Outliving(runs, Ids(Only(definitions, company, RESERVED)));
      definitions := Without(definitions, company, RESERVED);
      if c.notify && c.threshold.Some? {
        definitions := definitions + [AlertFor(nextId, company, c.threshold.value, show(c.threshold.value))];
        nextId := nextId + 1;
      }
    }

    method BlueprintPublish(env: Env, show: real -> string, owner: bool, company: string, user: string, p: Payload)
      returns (r: Result<Row, Failure>)
      requires Valid()
      modifies this, versions
      ensures Valid()
      ensures (State(), r) == HandlePublish(env, show, old(State()), owner, company, user, p)
    {
      if !owner {
        return Err(Forbidden);
      }
      var published := versions.PublishBlueprint(env, company, user, p);
      if published.Err? {
        return Err(if published.error == Crash then Internal else Unprocessable);
      }
      cache := cache - {company};
      SyncBlueprintAutomations(company, published.value.content, show);
      events := events + [Intelligence.Event("blueprint.published", Some(company))];
      return Ok(published.value);
    }

    method BlueprintRestore(env: Env, show: real -> string, owner: bool, company: string, user: string,
                            version: Option<int>)
      returns (r: Result<Row, Failure>)
      requires Valid()
      modifies this, versions
      ensures Valid()
      ensures (State(), r) == HandleRestore(env, show, old(State()), owner, company, user, version)
    {
      if !owner {
        return Err(Forbidden);
      }
      if version.None? {
        return Err(Unprocessable);
      }
      var restored := versions.RestoreVersion(env, company, user, version.value);
      if restored.Err? {
        return Err(if restored.error == Crash then Internal else NotFound);
      }
      cache := cache - {company};
      SyncBlueprintAutomations(company, restored.value.content, show);
      events := events + [Intelligence.Event("blueprint.version_restored", Some(company))];
      return Ok(restored.value);
    }

    method WorkflowsCreate(company: string, name: string, trigger: string, c: Condition, a: Action)
      requires Valid()
      modifies this
      ensures Valid()
      ensures State() == HandleCreate(old(State()), company, name, trigger, c, a)
    {
      definitions := definitions + [Definition(nextId, company, name, trigger, c, a, true)];
      nextId := nextId + 1;
      events := events + [Intelligence.Event("workflow.created", Some(company))];
    }

    method RunFiring(fires: Definition -> bool, trigger: string)
      modifies this`runs
      ensures runs == old(runs) + Logged(fires, definitions, trigger)
      ensures exists ks :: OneRunEach(fires, definitions, trigger, runs[|old(runs)|..], ks)
    {
      var i := |definitions|;
      assert definitions[..i] == definitions;
      while i > 0
        invariant 0 <= i <= |definitions|
        invariant runs + Logged(fires, definitions[..i], trigger) == old(runs) + Logged(fires, definitions, trigger)
      {
        var d := definitions[i - 1];
        assert definitions[..i][..i - 1] == definitions[..i - 1];
        if fires(d) {
          runs := runs + [RunOf(d, trigger)];
        }
        i := i - 1;
      }
      ghost var ks := LoggedAreOneEach(fires, definitions, trigger);
      assert runs == old(runs) + Logged(fires, definitions, trigger);
      assert runs[|old(runs)|..] == Logged(fires, definitions, trigger);
    }

    /** `evaluate_and_run`: the company's definitions, newest first. */
    method EvaluateAndRun(ops: Ops, company: string, trigger: string, t: Transaction)
      modifies this`runs
      ensures runs == old(runs) + Triggered(ops, definitions, company, trigger, t)
      ensures Evaluates(ops, definitions, company, trigger, t, runs[|old(runs)|..])
    {
      RunFiring(Firing(ops, company, trigger, t), trigger);
      TriggeredEvaluates(ops, definitions, company, trigger, t);
      assert runs[|old(runs)|..] == Triggered(ops, definitions, company, trigger, t);
    }

    method GraphCreate(ops: Ops, company: string, t: Transaction)
      requires Valid()
      modifies this
      ensures Valid()
      ensures State() == HandleRecord(ops, old(State()), company, t)
      ensures old(runs) <= runs
      ensures Evaluates(ops, definitions, company, TRANSACTION_RECORDED, t, runs[|old(runs)|..])
    {
      events := events + [Intelligence.Event(TRANSACTION_RECORDED, Some(company))];
      EvaluateAndRun(ops, company, TRANSACTION_RECORDED, t);
    }

    method Signup(env: Env, company: string, user: string, p: Payload)
      requires Valid()
      modifies versions
      ensures Valid()
      ensures State() == HandleSignup(env, old(State()), company, user, p)
    {
      var _ := versions.PublishBlueprint(env, company, user, p);
    }
  }
}
