/** What one handler does to the reserved automation, its logged runs and the cache;
    `HandlerRaces` lets handlers interleave. */
module HandlerTheorems {
  import opened Common
  import opened Json
  import opened Blueprint
  import opened Versions
  import opened Selection
  import Intelligence
  import VT = VersionTheorems
  import opened Handlers

  // ---------- the reserved automation ----------

  predicate IsAlertFor(d: Definition, company: string, threshold: real) {
    && Named(d, company, RESERVED) && d.enabled && d.trigger == TRANSACTION_RECORDED
    && d.condition == When(Some("amount"), Some("gte"), JNum(threshold))
    && d.action.kind == Some("notify")
  }

  /** The threshold the company's active Blueprint asks to be told about, if any. */
  function ActiveThreshold(st: Store, company: string): Option<real> {
    if company in st.active then Wanted(st.active[company].content) else None
  }

  /** The company's definitions of the reserved name: one alert, or none at all. */
  predicate InSync(k: Kernel, company: string) {
    var reserved := Only(k.definitions, company, RESERVED);
    match ActiveThreshold(k.store, company)
    case None => reserved == []
    case Some(x) => |reserved| == 1 && IsAlertFor(reserved[0], company, x)
  }

  lemma {:induction false} OnlyOfWithout(defs: seq<Definition>, company: string, name: string, other: string,
                                         otherName: string)
    ensures Only(Without(defs, company, name), other, otherName)
         == if other == company && otherName == name then [] else Only(defs, other, otherName)
  {
    if defs != [] {
      var front, last := defs[..|defs| - 1], defs[|defs| - 1];
      OnlyOfWithout(front, company, name, other, otherName);
      var kept := Without(front, company, name);
      assert (kept + [last])[..|kept|] == kept;
      if Named(last, company, name) {
        assert Without(defs, company, name) == kept;
      }
    }
  }

  lemma OnlyOfAppend(defs: seq<Definition>, d: Definition, company: string, name: string)
    ensures Only(defs + [d], company, name) == Only(defs, company, name) + if Named(d, company, name) then [d] else []
  {
    assert (defs + [d])[..|defs|] == defs;
  }

  /** Sync leaves exactly the wanted alert under the reserved name, and the
      definitions of every other name or company as they were. */
  lemma SyncSyncs(k: Kernel, company: string, c: Content, show: real -> string, other: string, name: string)
    ensures var reserved := Only(Sync(k, company, c, show).definitions, company, RESERVED);
            match Wanted(c)
            case None => reserved == []
            case Some(x) => |reserved| == 1 && IsAlertFor(reserved[0], company, x)
    ensures Wanted(c).Some? ==>
              Only(Sync(k, company, c, show).definitions, company, RESERVED)[0].action
              == Action(Some("notify"), Some(show(Wanted(c).value)), None)
    ensures other != company || name != RESERVED ==>
              Only(Sync(k, company, c, show).definitions, other, name) == Only(k.definitions, other, name)
  {
    var kept := Without(k.definitions, company, RESERVED);
    OnlyOfWithout(k.definitions, company, RESERVED, company, RESERVED);
    OnlyOfWithout(k.definitions, company, RESERVED, other, name);
    if Wanted(c).Some? {
      var alert := AlertFor(k.nextId, company, Wanted(c).value, show(Wanted(c).value));
      OnlyOfAppend(kept, alert, company, RESERVED);
      OnlyOfAppend(kept, alert, other, name);
    }
  }

  // ---------- definitions and their logged runs ----------

  predicate Owns(d: Definition, r: RunRow) {
    d.id == r.workflow && d.company == r.company && d.name == r.name
  }

  ghost predicate Owned(defs: seq<Definition>, r: RunRow) {
    exists d :: d in defs && Owns(d, r)
  }

  /** What the keys of the two tables promise: an id below the next one for each definition,
      and for every logged run a definition that still exists. */
  ghost predicate Tables(k: Kernel) {
    && (forall d, e :: d in k.definitions && e in k.definitions && d.id == e.id ==> d == e)
    && (forall d :: d in k.definitions ==> d.id < k.nextId)
    && (forall r :: r in k.runs ==> Owned(k.definitions, r))
  }

  predicate LoggedFor(r: RunRow, company: string, name: string) {
    r.company == company && r.name == name
  }

  /** The rows not logged for that name, in their order. */
  function LoggedForOthers(rows: seq<RunRow>, company: string, name: string): seq<RunRow> {
    if rows == [] then []
    else (if LoggedFor(rows[0], company, name) then [] else [rows[0]]) + LoggedForOthers(rows[1..], company, name)
  }

  lemma {:induction false} WithoutKeeps(defs: seq<Definition>, company: string, name: string, d: Definition)
    ensures d in Without(defs, company, name) <==> d in defs && !Named(d, company, name)
    ensures d in Only(defs, company, name) <==> d in defs && Named(d, company, name)
  {
    if defs != [] {
      WithoutKeeps(defs[..|defs| - 1], company, name, d);
      assert defs == defs[..|defs| - 1] + [defs[|defs| - 1]];
    }
  }

  lemma {:induction false} OutlivingAreOthers(rows: seq<RunRow>, removed: set<nat>, company: string, name: string)
    requires forall r :: r in rows ==> (r.workflow in removed <==> LoggedFor(r, company, name))
    ensures Outliving(rows, removed) == LoggedForOthers(rows, company, name)
  {
    if rows != [] {
      OutlivingAreOthers(rows[1..], removed, company, name);
    }
  }

  lemma {:induction false} OutlivingKeeps(rows: seq<RunRow>, removed: set<nat>, r: RunRow)
    ensures r in Outliving(rows, removed) <==> r in rows && r.workflow !in removed
  {
    if rows != [] {
      OutlivingKeeps(rows[1..], removed, r);
    }
  }

  lemma RemovedIff(k: Kernel, company: string, r: RunRow)
    requires Tables(k) && r in k.runs
    ensures r.workflow in Ids(Only(k.definitions, company, RESERVED)) <==> LoggedFor(r, company, RESERVED)
  {
    var d :| d in k.definitions && Owns(d, r);
    var reserved := Only(k.definitions, company, RESERVED);
    WithoutKeeps(k.definitions, company, RESERVED, d);
    if r.workflow in Ids(reserved) {
      var e :| e in reserved && e.id == r.workflow;
      WithoutKeeps(k.definitions, company, RESERVED, e);
    }
  }

  /** The DELETE loses exactly the runs logged for the company's reserved name: the others
      stay, in their order. */
  lemma DeleteLosesTheAlertsRuns(k: Kernel, company: string)
    requires Tables(k)
    ensures DeleteReserved(k, company).runs == LoggedForOthers(k.runs, company, RESERVED)
  {
    forall r | r in k.runs
      ensures r.workflow in Ids(Only(k.definitions, company, RESERVED)) <==> LoggedFor(r, company, RESERVED)
    {
      RemovedIff(k, company, r);
    }
    OutlivingAreOthers(k.runs, Ids(Only(k.definitions, company, RESERVED)), company, RESERVED);
  }

  lemma DeleteKeepsTables(k: Kernel, company: string)
    requires Tables(k)
    ensures Tables(DeleteReserved(k, company))
  {
    var k' := DeleteReserved(k, company);
    var removed := Ids(Only(k.definitions, company, RESERVED));
    forall d: Definition
      ensures d in k'.definitions <==> d in k.definitions && !Named(d, company, RESERVED)
    {
      WithoutKeeps(k.definitions, company, RESERVED, d);
    }
    forall r | r in k'.runs
      ensures Owned(k'.definitions, r)
    {
      OutlivingKeeps(k.runs, removed, r);
      RemovedIff(k, company, r);
      var d :| d in k.definitions && Owns(d, r);
      assert d in k'.definitions;
    }
  }

  lemma DefineKeepsTables(k: Kernel, k': Kernel, d: Definition)
    requires Tables(k) && d.id == k.nextId
    requires k'.definitions == k.definitions + [d] && k'.nextId == k.nextId + 1 && k'.runs == k.runs
    ensures Tables(k')
  {
    forall r | r in k'.runs
      ensures Owned(k'.definitions, r)
    {
      var e :| e in k.definitions && Owns(e, r);
      assert e in k'.definitions;
    }
  }

  lemma InsertKeepsTables(k: Kernel, company: string, c: Content, show: real -> string)
    requires Tables(k)
    ensures Tables(InsertAlert(k, company, c, show))
  {
    if Wanted(c).Some? {
      var d := AlertFor(k.nextId, company, Wanted(c).value, show(Wanted(c).value));
      DefineKeepsTables(k, InsertAlert(k, company, c, show), d);
    }
  }

  lemma {:induction false} LoggedAreOwned(fires: Definition -> bool, defs: seq<Definition>, trigger: string, r: RunRow)
    requires r in Logged(fires, defs, trigger)
    ensures Owned(defs, r)
  {
    var front, newest := defs[..|defs| - 1], defs[|defs| - 1];
    assert defs == front + [newest];
    if r in Logged(fires, front, trigger) {
      LoggedAreOwned(fires, front, trigger, r);
      var d :| d in front && Owns(d, r);
      assert d in defs;
    } else {
      assert r == RunOf(newest, trigger) && Owns(newest, r);
    }
  }

  lemma RecordKeepsTables(ops: Ops, k: Kernel, company: string, t: Transaction)
    requires Tables(k)
    ensures Tables(HandleRecord(ops, k, company, t))
  {
    var logged := Triggered(ops, k.definitions, company, TRANSACTION_RECORDED, t);
    forall r | r in logged
      ensures Owned(k.definitions, r)
    {
      LoggedAreOwned(Firing(ops, company, TRANSACTION_RECORDED, t), k.definitions, TRANSACTION_RECORDED, r);
    }
    assert HandleRecord(ops, k, company, t).runs == k.runs + logged;
  }

  // ---------- what a recorded transaction logs ----------

  /** Recording a transaction only adds rows to the log: newest definition first, one for each that
      is the company's own, enabled, waits for a transaction and has no condition or one that
      holds. None is another company's. */
  lemma RecordEvaluates(ops: Ops, k: Kernel, company: string, t: Transaction)
    ensures
      var k' := HandleRecord(ops, k, company, t);
      && k.runs <= k'.runs && k' == k.(runs := k'.runs, events := k'.events)
      && Evaluates(ops, k.definitions, company, TRANSACTION_RECORDED, t, k'.runs[|k.runs|..])
      && forall i :: |k.runs| <= i < |k'.runs| ==> k'.runs[i].company == company
  {
    var rows := Triggered(ops, k.definitions, company, TRANSACTION_RECORDED, t);
    TriggeredEvaluates(ops, k.definitions, company, TRANSACTION_RECORDED, t);
    var k' := HandleRecord(ops, k, company, t);
    assert k'.runs == k.runs + rows && k'.runs[|k.runs|..] == rows;
    EvaluatedAreOwn(ops, k.definitions, company, TRANSACTION_RECORDED, t, rows);
    assert forall i :: |k.runs| <= i < |k'.runs| ==> k'.runs[i] == rows[i - |k.runs|];
  }

  lemma EvaluatedAreOwn(ops: Ops, defs: seq<Definition>, company: string, trigger: string, t: Transaction,
                        rows: seq<RunRow>)
    requires Evaluates(ops, defs, company, trigger, t, rows)
    ensures forall i :: 0 <= i < |rows| ==> rows[i].company == company
  {
    var ks :| OneRunEach(Qualifying(ops, company, trigger, t), defs, trigger, rows, ks);
    forall i | 0 <= i < |rows|
      ensures rows[i].company == company
    {
      assert IsRunOf(rows[i], defs[ks[i]], trigger) && Runs(ops, company, trigger, t, defs[ks[i]]);
    }
  }

  /** The definitions of one company, in their order. */
  function OfCompany(defs: seq<Definition>, company: string): seq<Definition> {
    Selected((d: Definition) => d.company == company, defs)
  }

  lemma {:induction false} LoggedOfOwn(fires: Definition -> bool, defs: seq<Definition>, company: string,
                                       trigger: string)
    requires forall d :: fires(d) ==> d.company == company
    ensures Logged(fires, defs, trigger) == Logged(fires, OfCompany(defs, company), trigger)
  {
    if defs != [] {
      var n := |defs| - 1;
      var own := OfCompany(defs[..n], company);
      LoggedOfOwn(fires, defs[..n], company, trigger);
      SelectedSplit((d: Definition) => d.company == company, defs);
      assert own + [] == own;
      assert (own + [defs[n]])[..|own|] == own;
      assert [] + Logged(fires, own, trigger) == Logged(fires, own, trigger);
    }
  }

  /** Automations of other companies change nothing of what is logged: two kernels with the same
      definitions of the company log the same rows. */
  lemma OthersAutomationsDoNotRun(ops: Ops, k: Kernel, other: Kernel, company: string, t: Transaction)
    requires OfCompany(k.definitions, company) == OfCompany(other.definitions, company)
    ensures HandleRecord(ops, k, company, t).runs[|k.runs|..]
         == HandleRecord(ops, other, company, t).runs[|other.runs|..]
  {
    var fires := Firing(ops, company, TRANSACTION_RECORDED, t);
    LoggedOfOwn(fires, k.definitions, company, TRANSACTION_RECORDED);
    LoggedOfOwn(fires, other.definitions, company, TRANSACTION_RECORDED);
    assert HandleRecord(ops, k, company, t).runs
        == k.runs + Triggered(ops, k.definitions, company, TRANSACTION_RECORDED, t);
    assert HandleRecord(ops, other, company, t).runs
        == other.runs + Triggered(ops, other.definitions, company, TRANSACTION_RECORDED, t);
  }

  /** A new automation runs from the next transaction on: it leads what is logged exactly when it is
      the company's, waits for a transaction and has no condition or one that holds; the rest is
      as it would have been. */
  lemma CreatedRunsFirst(ops: Ops, k: Kernel, owner: string, name: string, trigger: string, c: Condition, a: Action,
                         company: string, t: Transaction)
    ensures
      var created := HandleCreate(k, owner, name, trigger, c, a);
      var d := Definition(k.nextId, owner, name, trigger, c, a, true);
      var before := HandleRecord(ops, k, company, t).runs[|k.runs|..];
      var after := HandleRecord(ops, created, company, t).runs[|created.runs|..];
      && created.definitions == k.definitions + [d] && created.runs == k.runs && created.nextId == k.nextId + 1
      && (Runs(ops, company, TRANSACTION_RECORDED, t, d) ==>
            |after| == |before| + 1 && IsRunOf(after[0], d, TRANSACTION_RECORDED) && after[1..] == before)
      && (!Runs(ops, company, TRANSACTION_RECORDED, t, d) ==> after == before)
  {
    var created := HandleCreate(k, owner, name, trigger, c, a);
    var d := Definition(k.nextId, owner, name, trigger, c, a, true);
    FiresIffRuns(ops, company, TRANSACTION_RECORDED, t, d);
    assert created.definitions[..|k.definitions|] == k.definitions;
    var rest := Triggered(ops, k.definitions, company, TRANSACTION_RECORDED, t);
    assert HandleRecord(ops, k, company, t).runs == k.runs + rest;
    assert HandleRecord(ops, created, company, t).runs
        == k.runs + Triggered(ops, created.definitions, company, TRANSACTION_RECORDED, t);
    assert [] + rest == rest;
  }

  function CountNamed(rows: seq<RunRow>, company: string, name: string): nat {
    if rows == [] then 0
    else CountNamed(rows[1..], company, name) + if LoggedFor(rows[0], company, name) then 1 else 0
  }

  lemma {:induction false} CountLogged(fires: Definition -> bool, defs: seq<Definition>, company: string,
                                       name: string, trigger: string)
    ensures CountNamed(Logged(fires, defs, trigger), company, name)
         == |Logged(fires, Only(defs, company, name), trigger)|
  {
    if defs != [] {
      var front, newest := defs[..|defs| - 1], defs[|defs| - 1];
      CountLogged(fires, front, company, name, trigger);
      var rest := Logged(fires, front, trigger);
      assert [] + rest == rest;
      assert fires(newest) ==> ([RunOf(newest, trigger)] + rest)[1..] == rest;
      var picked := Only(front, company, name);
      assert picked + [] == picked;
      assert (picked + [newest])[..|picked|] == picked;
    }
  }

  lemma AlertMatchesIff(ops: Ops, d: Definition, company: string, threshold: real, t: Transaction)
    requires IsAlertFor(d, company, threshold)
    ensures Firing(ops, company, TRANSACTION_RECORDED, t)(d) <==> t.amount >= threshold
  {
    assert Lookup(t, "amount") == Some(JNum(t.amount));
    assert Apply(ops, "gte", JNum(t.amount), JNum(threshold)) <==> t.amount >= threshold;
  }

  /** Recording t logs one run of the alert exactly when its amount reaches the
      active threshold, and none otherwise. */
  predicate AlertsExactly(ops: Ops, k: Kernel, company: string, t: Transaction) {
    var logged := Triggered(ops, k.definitions, company, TRANSACTION_RECORDED, t);
    var threshold := ActiveThreshold(k.store, company);
    && HandleRecord(ops, k, company, t).runs == k.runs + logged
    && CountNamed(logged, company, RESERVED) == if threshold.Some? && t.amount >= threshold.value then 1 else 0
  }

  lemma AlertRunsIff(ops: Ops, k: Kernel, company: string, t: Transaction)
    requires InSync(k, company)
    ensures AlertsExactly(ops, k, company, t)
  {
    var fires := Firing(ops, company, TRANSACTION_RECORDED, t);
    CountLogged(fires, k.definitions, company, RESERVED, TRANSACTION_RECORDED);
    var reserved := Only(k.definitions, company, RESERVED);
    if ActiveThreshold(k.store, company).Some? {
      AlertMatchesIff(ops, reserved[0], company, ActiveThreshold(k.store, company).value, t);
      OneDefinitionLogs(fires, reserved);
    }
  }

  lemma OneDefinitionLogs(fires: Definition -> bool, defs: seq<Definition>)
    requires |defs| == 1
    ensures |Logged(fires, defs, TRANSACTION_RECORDED)| == if fires(defs[0]) then 1 else 0
  {
    assert defs[..0] == [];
  }

  // ---------- runs ----------

  datatype Step =
    | DoPublish(owner: bool, company: string, user: string, payload: Payload)
    | DoRestore(owner: bool, company: string, user: string, version: Option<int>)
    | DoCreate(company: string, name: string, trigger: string, condition: Condition, action: Action)
    | DoRecord(company: string, transaction: Transaction)
    | DoLoad(company: string)
    | DoSignup(company: string, user: string, payload: Payload)

  datatype World = World(env: Env, ops: Ops, show: real -> string)

  function Take(w: World, k: Kernel, s: Step): Kernel {
    match s
    case DoPublish(owner, company, user, payload) => HandlePublish(w.env, w.show, k, owner, company, user, payload).0
    case DoRestore(owner, company, user, version) => HandleRestore(w.env, w.show, k, owner, company, user, version).0
    case DoCreate(company, name, trigger, condition, action) =>
      HandleCreate(k, company, name, trigger, condition, action)
    case DoRecord(company, transaction) => HandleRecord(w.ops, k, company, transaction)
    case DoLoad(company) => HandleLoad(k, company).0
    case DoSignup(company, user, payload) => HandleSignup(w.env, k, company, user, payload)
  }

  function Run(w: World, k: Kernel, steps: seq<Step>): Kernel {
    if steps == [] then k else Take(w, Run(w, k, steps[..|steps| - 1]), steps[|steps| - 1])
  }

  /** No one signs up as this company, and no one makes a definition of its reserved name. */
  predicate LeavesAlone(s: Step, company: string) {
    match s
    case DoCreate(c, name, _, _, _) => c != company || name != RESERVED
    case DoSignup(c, _, _) => c != company
    case _ => true
  }

  lemma HandlerSyncs(k: Kernel, st: Store, company: string, c: Content, show: real -> string, event: string,
                     other: string)
    requires company in st.active && st.active[company].content == c
    requires other != company ==> (other in st.active <==> other in k.store.active)
    requires other != company && other in st.active ==> st.active[other] == k.store.active[other]
    ensures other == company || InSync(k, other) ==> InSync(AfterCommit(k, st, company, c, show, event), other)
  {
    SyncSyncs(Uncache(k.(store := st), company), company, c, show, other, RESERVED);
  }

  /** A successful publish brings its company into step from any state at all. */
  lemma PublishSyncs(w: World, k: Kernel, company: string, user: string, payload: Payload)
    ensures var (k', r) := HandlePublish(w.env, w.show, k, true, company, user, payload); r.Ok? ==> InSync(k', company)
  {
    var (st, r) := Publish(w.env, k.store, company, user, payload);
    if r.Ok? {
      HandlerSyncs(k, st, company, r.value.content, w.show, "blueprint.published", company);
    }
  }

  /** Signup publishes without syncing: a new company starts in step exactly when its
      first Blueprint asks for no alert. */
  lemma SignupInSyncIff(w: World, k: Kernel, company: string, user: string, payload: Payload)
    requires company !in k.store.active && Only(k.definitions, company, RESERVED) == []
    ensures InSync(HandleSignup(w.env, k, company, user, payload), company) <==>
              Validate(w.env, payload).Err? || Wanted(Validate(w.env, payload).value).None?
  {
  }

  /** The default Blueprint of the Kenya country package. */
  const KENYA_DEFAULT := Payload(
    Some(JStr("other")), Some(JArr([JStr("cash_flow_visibility"), JStr("fraud_and_risk_alerts")])),
    Some(JNum(100000.0)), Some(JBool(true)), Some(JBool(true)), None, None)

  lemma KenyaPrioritiesValidate()
    ensures
      var priorities := ["cash_flow_visibility", "fraud_and_risk_alerts"];
      CleanPriorities(ORBIT.priorities, OrNull(KENYA_DEFAULT.priorities)) == Ok(priorities)
  {
    var priorities := [JStr("cash_flow_visibility"), JStr("fraud_and_risk_alerts")];
    assert Texts(priorities) == ["cash_flow_visibility", "fraud_and_risk_alerts"];
  }

  lemma KenyaBusinessTypeValidates()
    ensures CleanBusinessType(ORBIT.businessTypes, OrNull(KENYA_DEFAULT.businessType)) == Ok("other")
  {
  }

  lemma FieldsValidate(env: Env, priorities: seq<string>)
    requires CleanBusinessType(env.words.businessTypes, OrNull(KENYA_DEFAULT.businessType)) == Ok("other")
    requires CleanPriorities(env.words.priorities, OrNull(KENYA_DEFAULT.priorities)) == Ok(priorities)
    ensures Validate(env, KENYA_DEFAULT)
         == Ok(Content("other", priorities, Some(100000.0), true, true, env.words.capabilities, None))
  {
  }

  lemma KenyaDefaultValidates(env: Env)
    requires env.words == ORBIT
    ensures Validate(env, KENYA_DEFAULT)
         == Ok(Content("other", ["cash_flow_visibility", "fraud_and_risk_alerts"], Some(100000.0), true, true,
                       ORBIT.capabilities, None))
  {
    KenyaBusinessTypeValidates();
    KenyaPrioritiesValidate();
    FieldsValidate(env, ["cash_flow_visibility", "fraud_and_risk_alerts"]);
  }

  /** Every company that signs up in Kenya starts out of step: its Blueprint asks to be told
      about a transaction of 100000, and none is there to tell. */
  lemma KenyaSignupIsNotAlerted(w: World, k: Kernel, company: string, user: string, t: Transaction)
    requires w.env.words == ORBIT
    requires company !in k.store.active && Only(k.definitions, company, RESERVED) == []
    ensures
      var k' := HandleSignup(w.env, k, company, user, KENYA_DEFAULT);
      && ActiveThreshold(k'.store, company) == Some(100000.0) && !InSync(k', company)
      && CountNamed(Triggered(w.ops, k'.definitions, company, TRANSACTION_RECORDED, t), company, RESERVED) == 0
  {
    KenyaDefaultValidates(w.env);
    SignupInSyncIff(w, k, company, user, KENYA_DEFAULT);
    CountLogged(Firing(w.ops, company, TRANSACTION_RECORDED, t), k.definitions, company, RESERVED,
                TRANSACTION_RECORDED);
  }

  // ---------- answers ----------

  lemma AfterCommitTells(k: Kernel, st: Store, company: string, c: Content, show: real -> string, event: string)
    requires Tables(k)
    ensures
      var k' := AfterCommit(k, st, company, c, show, event);
      && k'.store == st
      && k'.events == k.events + [Intelligence.Event(event, Some(company))]
      && k'.cache == k.cache - {company}
      && k'.runs == LoggedForOthers(k.runs, company, RESERVED)
  {
    DeleteLosesTheAlertsRuns(Uncache(k.(store := st), company), company);
  }

  /** What signing up leaves: nothing if the default is refused, else its content as the next version,
      with nothing dropped from the cache, no definition, no logged run and no event. */
  lemma SignupAnswer(w: World, k: Kernel, company: string, user: string, payload: Payload)
    ensures
      var k' := HandleSignup(w.env, k, company, user, payload);
      var clean := Validate(w.env, payload);
      if clean.Err? then k' == k
      else
        var row := Row(clean.value, VT.CurrentVersion(k.store, company) + 1, user);
        && k' == k.(store := k'.store)
        && k'.store.active == k.store.active[company := row]
        && k'.store.history == k.store.history + [HistoryRow(company, row.version, Snapshot(row.content), user)]
  {
  }

  /** The answer to a publish request: refused and unchanged, or the validated content as
      version n+1, one event, the company's cache entry gone, and of the logged runs
      all but the old alert's. */
  lemma PublishAnswer(w: World, k: Kernel, owner: bool, company: string, user: string, payload: Payload)
    requires Tables(k)
    ensures
      var (k', r) := HandlePublish(w.env, w.show, k, owner, company, user, payload);
      var clean := Validate(w.env, payload);
      if !owner then (k', r) == (k, Err(Forbidden))
      else if clean.Err? then k' == k && r == Err(if clean.error == Crash then Internal else Unprocessable)
      else
        && r == Ok(Row(clean.value, VT.CurrentVersion(k.store, company) + 1, user))
        && k'.store.active == k.store.active[company := r.value]
        && k'.store.history == k.store.history + [HistoryRow(company, r.value.version, Snapshot(clean.value), user)]
        && k'.events == k.events + [Intelligence.Event("blueprint.published", Some(company))]
        && k'.cache == k.cache - {company}
        && k'.runs == LoggedForOthers(k.runs, company, RESERVED)
  {
    var (st, r) := Publish(w.env, k.store, company, user, payload);
    if owner && r.Ok? {
      AfterCommitTells(k, st, company, r.value.content, w.show, "blueprint.published");
    }
  }

  /** The answer to a restore request, for a store whose snapshots the current publish wrote:
      refused and unchanged, or version n+1 with what version v said, one event, the
      company's cache entry gone, and of the logged runs all but the old alert's. */
  lemma RestoreAnswer(w: World, k: Kernel, owner: bool, company: string, user: string, version: Option<int>)
    requires Tables(k) && Versions.Valid(k.store) && VT.AllWritten(w.env.words, k.store.history)
    requires Sensible(w.env.words)
    ensures
      var (k', r) := HandleRestore(w.env, w.show, k, owner, company, user, version);
      var n := VT.CurrentVersion(k.store, company);
      if !owner then (k', r) == (k, Err(Forbidden))
      else if version.None? then (k', r) == (k, Err(Unprocessable))
      else if !(1 <= version.value <= n) then (k', r) == (k, Err(NotFound))
      else
        && r.Ok? && r.value.version == n + 1
        && GetVersion(k.store.history, company, version.value) == Some(Snapshot(r.value.content))
        && k'.events == k.events + [Intelligence.Event("blueprint.version_restored", Some(company))]
        && k'.cache == k.cache - {company}
        && k'.runs == LoggedForOthers(k.runs, company, RESERVED)
  {
    if owner && version.Some? {
      VT.RestoreIsDecided(w.env, k.store, company, user, version.value);
      var (st, r) := Restore(w.env, k.store, company, user, version.value);
      if r.Ok? {
        AfterCommitTells(k, st, company, r.value.content, w.show, "blueprint.version_restored");
      }
    }
  }

  lemma {:induction false} OthersAreNotCounted(rows: seq<RunRow>, company: string, name: string)
    ensures CountNamed(LoggedForOthers(rows, company, name), company, name) == 0
  {
    if rows != [] {
      var rest := LoggedForOthers(rows[1..], company, name);
      OthersAreNotCounted(rows[1..], company, name);
      assert ([rows[0]] + rest)[1..] == rest && [] + rest == rest;
    }
  }

  lemma {:induction false} CountOfConcat(a: seq<RunRow>, b: seq<RunRow>, company: string, name: string)
    ensures CountNamed(a + b, company, name) == CountNamed(a, company, name) + CountNamed(b, company, name)
  {
    if a == [] {
      assert a + b == b;
    } else {
      assert (a + b)[1..] == a[1..] + b;
      CountOfConcat(a[1..], b, company, name);
    }
  }

  lemma PublishForgetsTheAlert(w: World, k: Kernel, company: string, user: string, payload: Payload)
    requires Tables(k) && Validate(w.env, payload).Ok?
    ensures
      var k' := HandlePublish(w.env, w.show, k, true, company, user, payload).0;
      Tables(k') && InSync(k', company) && CountNamed(k'.runs, company, RESERVED) == 0
  {
    PublishSyncs(w, k, company, user, payload);
    PublishAnswer(w, k, true, company, user, payload);
    OthersAreNotCounted(k.runs, company, RESERVED);
    var st := Publish(w.env, k.store, company, user, payload).0;
    var c := Validate(w.env, payload).value;
    DeleteKeepsTables(Uncache(k.(store := st), company), company);
    InsertKeepsTables(DeleteReserved(Uncache(k.(store := st), company), company), company, c, w.show);
  }

  /** Publish, record a transaction that reaches the threshold, publish again: the run the
      transaction logged is gone, whatever the second Blueprint says. */
  lemma LoggedAlertIsLost(w: World, k: Kernel, company: string, user: string, first: Payload, second: Payload,
                          t: Transaction)
    requires Tables(k) && Validate(w.env, first).Ok? && Validate(w.env, second).Ok?
    requires Wanted(Validate(w.env, first).value).Some? && t.amount >= Wanted(Validate(w.env, first).value).value
    ensures
      var published := HandlePublish(w.env, w.show, k, true, company, user, first).0;
      var recorded := HandleRecord(w.ops, published, company, t);
      var again := HandlePublish(w.env, w.show, recorded, true, company, user, second).0;
      CountNamed(recorded.runs, company, RESERVED) == 1 && CountNamed(again.runs, company, RESERVED) == 0
  {
    PublishForgetsTheAlert(w, k, company, user, first);
    var published := HandlePublish(w.env, w.show, k, true, company, user, first).0;
    AlertRunsIff(w.ops, published, company, t);
    CountOfConcat(published.runs, Triggered(w.ops, published.definitions, company, TRANSACTION_RECORDED, t),
                  company, RESERVED);
    RecordKeepsTables(w.ops, published, company, t);
    PublishForgetsTheAlert(w, HandleRecord(w.ops, published, company, t), company, user, second);
  }

  // ---------- the loader's cache ----------

  /** Whatever is cached is the active row. */
  predicate Coherent(k: Kernel) {
    forall company :: company in k.cache ==>
      company in k.store.active && k.cache[company] == k.store.active[company]
  }

  /** Signup is for a company that has no Blueprint yet. */
  predicate FreshSignup(k: Kernel, s: Step) {
    s.DoSignup? ==> s.company !in k.store.active
  }

  lemma CommittedCoherent(k: Kernel, st: Store, company: string, c: Content, show: real -> string, event: string)
    requires Coherent(k) && k.store.active.Keys <= st.active.Keys
    requires forall other :: other in k.store.active && other != company ==> st.active[other] == k.store.active[other]
    ensures Coherent(AfterCommit(k, st, company, c, show, event))
  {
  }

  lemma PublishKeepsCoherent(w: World, k: Kernel, owner: bool, c: string, user: string, payload: Payload)
    requires Coherent(k)
    ensures Coherent(HandlePublish(w.env, w.show, k, owner, c, user, payload).0)
  {
    var (st, r) := Publish(w.env, k.store, c, user, payload);
    if owner && r.Ok? {
      CommittedCoherent(k, st, c, r.value.content, w.show, "blueprint.published");
    }
  }

  lemma RestoreKeepsCoherent(w: World, k: Kernel, owner: bool, c: string, user: string, version: Option<int>)
    requires Coherent(k)
    ensures Coherent(HandleRestore(w.env, w.show, k, owner, c, user, version).0)
  {
    if owner && version.Some? {
      var (st, r) := Restore(w.env, k.store, c, user, version.value);
      if r.Ok? {
        CommittedCoherent(k, st, c, r.value.content, w.show, "blueprint.version_restored");
      }
    }
  }

  lemma StepKeepsCoherent(w: World, k: Kernel, s: Step)
    requires Coherent(k) && FreshSignup(k, s)
    ensures Coherent(Take(w, k, s))
  {
    match s
    case DoPublish(owner, c, user, payload) => PublishKeepsCoherent(w, k, owner, c, user, payload);
    case DoRestore(owner, c, user, version) => RestoreKeepsCoherent(w, k, owner, c, user, version);
    case DoCreate(_, _, _, _, _) =>
    case DoRecord(_, _) =>
    case DoLoad(_) =>
    case DoSignup(_, _, _) =>
  }

  /** A load caches what it returns and nothing else, so the next load returns it again. */
  lemma LoadCaches(k: Kernel, company: string)
    ensures
      var (k', row) := HandleLoad(k, company);
      && k' == k.(cache := k'.cache)
      && (if row.Some? then company in k'.cache && k'.cache[company] == row.value else company !in k'.cache)
      && k'.cache - {company} == k.cache - {company}
      && HandleLoad(k', company) == (k', row)
  {
  }

  lemma {:induction false} RunKeepsCoherent(w: World, k: Kernel, steps: seq<Step>)
    requires Coherent(k)
    requires forall i :: 0 <= i < |steps| ==> FreshSignup(Run(w, k, steps[..i]), steps[i])
    ensures Coherent(Run(w, k, steps))
  {
    if steps != [] {
      var n := |steps| - 1;
      assert forall i :: 0 <= i < n ==> steps[..n][..i] == steps[..i];
      RunKeepsCoherent(w, k, steps[..n]);
      StepKeepsCoherent(w, Run(w, k, steps[..n]), steps[n]);
    }
  }

  /** With handlers run one at a time, every load at any point of any run returns the
      active row, or nothing when there is none. */
  lemma LoadReturnsActive(w: World, k: Kernel, steps: seq<Step>, company: string)
    requires Coherent(k)
    requires forall i :: 0 <= i < |steps| ==> FreshSignup(Run(w, k, steps[..i]), steps[i])
    ensures
      var now := Run(w, k, steps);
      HandleLoad(now, company).1
      == if company in now.store.active then Some(now.store.active[company]) else None
  {
    RunKeepsCoherent(w, k, steps);
  }
}
