/** Blueprint versioning (kernel/company_blueprint/version_manager.py): the active
    row of each company and the append-only history beside it. */
module Versions {
  import opened Common
  import opened Json
  import opened Blueprint

  datatype Row = Row(content: Content, version: nat, publishedBy: string)

  datatype HistoryRow = HistoryRow(company: string, version: nat, snapshot: Payload, publishedBy: string)

  datatype Store = Store(active: map<string, Row>, history: seq<HistoryRow>)

  // ---------- the operations on values ----------

  /** One publish transaction on clean content: upsert the row, append the snapshot. */
  function Commit(st: Store, company: string, user: string, c: Content): Store {
    var v := if company in st.active then st.active[company].version + 1 else 1;
    Store(st.active[company := Row(c, v, user)], st.history + [HistoryRow(company, v, Snapshot(c), user)])
  }

  function Publish(env: Env, st: Store, company: string, user: string, p: Payload)
    : (Store, Result<Row, BlueprintError>)
  {
    match Validate(env, p)
    case Err(e) => (st, Err(e))
    case Ok(c) => (Commit(st, company, user, c), Ok(Commit(st, company, user, c).active[company]))
  }

  /** The company's rows of the history, oldest first. */
  function VersionsOf(history: seq<HistoryRow>, company: string): seq<HistoryRow> {
    if history == [] then []
    else
      var last := history[|history| - 1];
      VersionsOf(history[..|history| - 1], company) + if last.company == company then [last] else []
  }

  /** The first row of that company and version, if any. */
  function GetVersion(history: seq<HistoryRow>, company: string, version: int): Option<Payload> {
    if history == [] then None
    else if history[0].company == company && history[0].version == version then Some(history[0].snapshot)
    else GetVersion(history[1..], company, version)
  }

  /** The keys `restore` indexes rather than gets. */
  predicate HasRestoreKeys(s: Payload) {
    s.businessType.Some? && s.priorities.Some? && s.threshold.Some? && s.notify.Some? && s.digest.Some?
  }

  function RestorePayload(s: Payload): Payload {
    s.(capabilities := Some(OrNull(s.capabilities)), categories := Some(OrNull(s.categories)))
  }

  function Restore(env: Env, st: Store, company: string, user: string, version: int)
    : (Store, Result<Row, BlueprintError>)
  {
    match GetVersion(st.history, company, version)
    case None => (st, Err(NoSuchVersion))
    case Some(s) =>
      if !HasRestoreKeys(s) then (st, Err(Crash)) else Publish(env, st, company, user, RestorePayload(s))
  }

  // ---------- the invariant ----------

  /** The snapshot says of the row whatever it says at all; a snapshot written before
      Blueprint Governance lacks the last two keys. */
  predicate Agrees(c: Content, s: Payload) {
    var full := Snapshot(c);
    && s.businessType == full.businessType && s.priorities == full.priorities && s.threshold == full.threshold
    && s.notify == full.notify && s.digest == full.digest
    && (s.capabilities.Some? ==> s.capabilities == full.capabilities)
    && (s.categories.Some? ==> s.categories == full.categories)
  }

  ghost predicate CompanyValid(st: Store, company: string) {
    var vs := VersionsOf(st.history, company);
    && |vs| == (if company in st.active then st.active[company].version else 0)
    && (forall i :: 0 <= i < |vs| ==> vs[i].company == company && vs[i].version == i + 1)
    && (company in st.active ==> vs != [] && Agrees(st.active[company].content, vs[|vs| - 1].snapshot))
  }

  /** Each company's history is exactly versions 1..n, and its active row is snapshot n. */
  ghost predicate Valid(st: Store) {
    forall company: string :: CompanyValid(st, company)
  }

  lemma CommitKeepsValid(st: Store, company: string, user: string, c: Content)
    requires Valid(st)
    ensures Valid(Commit(st, company, user, c))
  {
    var st' := Commit(st, company, user, c);
    assert st'.history[..|st.history|] == st.history;
    forall other: string
      ensures CompanyValid(st', other)
    {
      assert CompanyValid(st, other);
      assert VersionsOf(st'.history, other)
          == VersionsOf(st.history, other) + if other == company then [st'.history[|st.history|]] else [];
    }
  }

  // ---------- the store as the object the kernel holds ----------

  class VersionManager {
    var active: map<string, Row>
    var history: seq<HistoryRow>

    function State(): Store
      reads this
    {
      Store(active, history)
    }

    constructor ()
      ensures Valid(State()) && active == map[] && history == []
    {
      active, history := map[], [];
    }

    method PublishBlueprint(env: Env, company: string, user: string, p: Payload)
      returns (r: Result<Row, BlueprintError>)
      requires Valid(State())
      modifies this
      ensures Valid(State())
      ensures (State(), r) == Publish(env, old(State()), company, user, p)
      ensures old(history) <= history
    {
      var clean := Validate(env, p);
      if clean.Err? {
        return Err(clean.error);
      }
      CommitKeepsValid(State(), company, user, clean.value);
      var version := if company in active then active[company].version + 1 else 1;
      active := active[company := Row(clean.value, version, user)];
      history := history + [HistoryRow(company, version, Snapshot(clean.value), user)];
      return Ok(active[company]);
    }

    method RestoreVersion(env: Env, company: string, user: string, version: int)
      returns (r: Result<Row, BlueprintError>)
      requires Valid(State())
      modifies this
      ensures Valid(State())
      ensures (State(), r) == Restore(env, old(State()), company, user, version)
      ensures old(history) <= history
    {
      var snapshot := GetVersion(history, company, version);
      if snapshot.None? {
        return Err(NoSuchVersion);
      }
      if !HasRestoreKeys(snapshot.value) {
        return Err(Crash);
      }
      r := PublishBlueprint(env, company, user, RestorePayload(snapshot.value));
    }

    /** `compare`: each of the five fields that differs, with its value in either version, in the
        order of COMPARED; None when a version is missing. */
    method CompareVersions(company: string, a: int, b: int) returns (changed: Option<seq<Difference>>)
      ensures changed.None? <==> GetVersion(history, company, a).None? || GetVersion(history, company, b).None?
      ensures changed.Some? ==>
                changed.value == Differences(GetVersion(history, company, a).value,
                                             GetVersion(history, company, b).value, COMPARED)
      ensures changed.Some? ==>
                Compares(GetVersion(history, company, a).value, GetVersion(history, company, b).value, changed.value)
    {
      var sa, sb := GetVersion(history, company, a), GetVersion(history, company, b);
      if sa.None? || sb.None? {
        return None;
      }
      var diff: seq<Difference> := [];
      var i := 0;
      while i < |COMPARED|
        invariant 0 <= i <= |COMPARED|
        invariant diff == Differences(sa.value, sb.value, COMPARED[..i])
      {
        var before, after := ValueOf(sa.value, COMPARED[i]), ValueOf(sb.value, COMPARED[i]);
        if before != after {
          diff := diff + [Difference(COMPARED[i], before, after)];
        }
        assert COMPARED[..i + 1][..i] == COMPARED[..i];
        i := i + 1;
      }
      assert COMPARED[..i] == COMPARED;
      DifferencesCompare(sa.value, sb.value);
      return Some(diff);
    }
  }

  /** The field is listed with these values exactly when they are its values in the two versions, the
      older one first, and differ; an absent key counts as null. */
  predicate Lists(changed: seq<Difference>, field: ComparedField, older: Option<Json>, newer: Option<Json>) {
    var before, after := if older.Some? then older.value else JNull, if newer.Some? then newer.value else JNull;
    && (Difference(field, before, after) in changed <==> before != after)
    && forall i :: 0 <= i < |changed| && changed[i].field == field ==> changed[i] == Difference(field, before, after)
  }

  function Place(field: ComparedField): nat {
    match field case BusinessType => 0 case Priorities => 1 case Threshold => 2 case Notify => 3 case Digest => 4
  }

  /** The five fields that are compared, in their order, each at most once. */
  predicate Compares(a: Payload, b: Payload, changed: seq<Difference>) {
    && Lists(changed, BusinessType, a.businessType, b.businessType)
    && Lists(changed, Priorities, a.priorities, b.priorities)
    && Lists(changed, Threshold, a.threshold, b.threshold)
    && Lists(changed, Notify, a.notify, b.notify)
    && Lists(changed, Digest, a.digest, b.digest)
    && forall i, j :: 0 <= i < j < |changed| ==> Place(changed[i].field) < Place(changed[j].field)
  }

  lemma {:induction false} DifferenceIff(a: Payload, b: Payload, fields: seq<ComparedField>, d: Difference)
    ensures d in Differences(a, b, fields) <==>
              && d.field in fields && d.before == ValueOf(a, d.field) && d.after == ValueOf(b, d.field)
              && d.before != d.after
  {
    if fields != [] {
      var n := |fields| - 1;
      DifferenceIff(a, b, fields[..n], d);
      assert fields == fields[..n] + [fields[n]];
    }
  }

  predicate InPlace(fields: seq<ComparedField>) {
    forall i, j :: 0 <= i < j < |fields| ==> Place(fields[i]) < Place(fields[j])
  }

  lemma {:induction false} DifferencesInPlace(a: Payload, b: Payload, fields: seq<ComparedField>)
    requires InPlace(fields)
    ensures var changed := Differences(a, b, fields);
            forall i, j :: 0 <= i < j < |changed| ==> Place(changed[i].field) < Place(changed[j].field)
  {
    if fields != [] {
      var n := |fields| - 1;
      var before := Differences(a, b, fields[..n]);
      DifferencesInPlace(a, b, fields[..n]);
      forall i | 0 <= i < |before|
        ensures Place(before[i].field) < Place(fields[n])
      {
        DifferenceIff(a, b, fields[..n], before[i]);
        var k :| 0 <= k < n && fields[..n][k] == before[i].field;
      }
    }
  }

  lemma DifferencesList(a: Payload, b: Payload, field: ComparedField, older: Option<Json>, newer: Option<Json>)
    requires field in COMPARED && ValueOf(a, field) == OrNull(older) && ValueOf(b, field) == OrNull(newer)
    ensures Lists(Differences(a, b, COMPARED), field, older, newer)
  {
    var changed := Differences(a, b, COMPARED);
    var before, after := OrNull(older), OrNull(newer);
    DifferenceIff(a, b, COMPARED, Difference(field, before, after));
    forall i | 0 <= i < |changed| && changed[i].field == field
      ensures changed[i] == Difference(field, before, after)
    {
      DifferenceIff(a, b, COMPARED, changed[i]);
    }
  }

  lemma DifferencesCompare(a: Payload, b: Payload)
    ensures Compares(a, b, Differences(a, b, COMPARED))
  {
    assert COMPARED[0] == BusinessType && COMPARED[1] == Priorities && COMPARED[2] == Threshold
           && COMPARED[3] == Notify && COMPARED[4] == Digest;
    DifferencesInPlace(a, b, COMPARED);
    DifferencesList(a, b, BusinessType, a.businessType, b.businessType);
    DifferencesList(a, b, Priorities, a.priorities, b.priorities);
    DifferencesList(a, b, Threshold, a.threshold, b.threshold);
    DifferencesList(a, b, Notify, a.notify, b.notify);
    DifferencesList(a, b, Digest, a.digest, b.digest);
  }

  datatype ComparedField = BusinessType | Priorities | Threshold | Notify | Digest

  datatype Difference = Difference(field: ComparedField, before: Json, after: Json)

  const COMPARED := [BusinessType, Priorities, Threshold, Notify, Digest]

  function ValueOf(s: Payload, f: ComparedField): Json {
    match f
    case BusinessType => OrNull(s.businessType)
    case Priorities => OrNull(s.priorities)
    case Threshold => OrNull(s.threshold)
    case Notify => OrNull(s.notify)
    case Digest => OrNull(s.digest)
  }

  function Differences(a: Payload, b: Payload, fields: seq<ComparedField>): seq<Difference> {
    if fields == [] then []
    else
      var last := fields[|fields| - 1];
      var before, after := ValueOf(a, last), ValueOf(b, last);
      Differences(a, b, fields[..|fields| - 1]) + if before != after then [Difference(last, before, after)] else []
  }
}
