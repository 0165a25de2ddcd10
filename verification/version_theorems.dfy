/** What holds over every run of publishes and restores. */
module VersionTheorems {
  import opened Common
  import opened Json
  import opened Blueprint
  import opened Versions

  datatype Action =
    | DoPublish(company: string, user: string, payload: Payload)
    | DoRestore(company: string, user: string, version: int)

  function Step(env: Env, st: Store, a: Action): Store {
    match a
    case DoPublish(company, user, payload) => Publish(env, st, company, user, payload).0
    case DoRestore(company, user, version) => Restore(env, st, company, user, version).0
  }

  function Run(env: Env, st: Store, actions: seq<Action>): Store {
    if actions == [] then st
    else Step(env, Run(env, st, actions[..|actions| - 1]), actions[|actions| - 1])
  }

  /** Every snapshot is one the current publish writes. */
  ghost predicate AllWritten(words: Vocabulary, history: seq<HistoryRow>) {
    forall i :: 0 <= i < |history| ==> Written(words, history[i].snapshot)
  }

  ghost predicate Written(words: Vocabulary, s: Payload) {
    exists c :: WellFormed(words, c) && s == Snapshot(c)
  }

  lemma StepKeeps(env: Env, st: Store, a: Action)
    requires Valid(st) && Sensible(env.words)
    ensures Valid(Step(env, st, a))
    ensures st.history <= Step(env, st, a).history
    ensures |Step(env, st, a).history| <= |st.history| + 1
    ensures AllWritten(env.words, st.history) ==> AllWritten(env.words, Step(env, st, a).history)
  {
    match a
    case DoPublish(company, user, payload) =>
      PublishKeeps(env, st, company, user, payload);
    case DoRestore(company, user, version) =>
      var s := GetVersion(st.history, company, version);
      if s.Some? && HasRestoreKeys(s.value) {
        PublishKeeps(env, st, company, user, RestorePayload(s.value));
      }
  }

  lemma PublishKeeps(env: Env, st: Store, company: string, user: string, p: Payload)
    requires Valid(st) && Sensible(env.words)
    ensures var st' := Publish(env, st, company, user, p).0;
            && Valid(st') && st.history <= st'.history && |st'.history| <= |st.history| + 1
            && (AllWritten(env.words, st.history) ==> AllWritten(env.words, st'.history))
  {
    var r := Validate(env, p);
    if r.Ok? {
      CommitKeepsValid(st, company, user, r.value);
      ValidateIsWellFormed(env, p);
      assert Written(env.words, Snapshot(r.value));
    }
  }

  /** Over every run from every valid store: the invariant holds throughout, and the
      history only grows at its end, so no earlier snapshot ever changes. */
  lemma {:induction false} RunKeepsHistory(env: Env, st: Store, actions: seq<Action>, n: nat)
    requires Valid(st) && Sensible(env.words) && n <= |actions|
    ensures Valid(Run(env, st, actions))
    ensures Run(env, st, actions[..n]).history <= Run(env, st, actions).history
    ensures AllWritten(env.words, st.history) ==> AllWritten(env.words, Run(env, st, actions).history)
  {
    if |actions| == 0 {
      assert actions[..n] == actions;
    } else {
      var front := actions[..|actions| - 1];
      if n == |actions| {
        RunKeepsHistory(env, st, front, n - 1);
        assert actions[..n] == actions;
      } else {
        RunKeepsHistory(env, st, front, n);
        assert front[..n] == actions[..n];
      }
      StepKeeps(env, Run(env, st, front), actions[|actions| - 1]);
    }
  }

  // ---------- reading a version back ----------

  lemma {:induction false} GetVersionIsVersionsOf(history: seq<HistoryRow>, company: string, version: int)
    requires forall i :: 0 <= i < |VersionsOf(history, company)| ==> VersionsOf(history, company)[i].version == i + 1
    ensures
      var vs := VersionsOf(history, company);
      GetVersion(history, company, version)
      == if 1 <= version <= |vs| then Some(vs[version - 1].snapshot) else None
  {
    if history == [] {
    } else {
      var n := |history| - 1;
      var front, last := history[..n], history[n];
      var vs := VersionsOf(front, company);
      assert forall i :: 0 <= i < |vs| ==> vs[i] == VersionsOf(history, company)[i];
      if last.company == company {
        assert VersionsOf(history, company)[|vs|] == last;
      }
      GetVersionIsVersionsOf(front, company, version);
      GetVersionOfAppend(front, last, company, version);
      assert front + [last] == history;
    }
  }

  lemma {:induction false} GetVersionOfAppend(history: seq<HistoryRow>, row: HistoryRow, company: string, version: int)
    ensures GetVersion(history + [row], company, version)
         == if GetVersion(history, company, version).Some? then GetVersion(history, company, version)
            else if row.company == company && row.version == version then Some(row.snapshot) else None
  {
    if history == [] {
      assert history + [row] == [row];
      assert [row][1..] == [];
    } else {
      GetVersionOfAppend(history[1..], row, company, version);
      assert (history + [row])[1..] == history[1..] + [row];
    }
  }

  lemma {:induction false} VersionsAreRows(history: seq<HistoryRow>, company: string, i: nat)
    requires i < |VersionsOf(history, company)|
    ensures VersionsOf(history, company)[i] in history
  {
    var n := |history| - 1;
    if i < |VersionsOf(history[..n], company)| {
      VersionsAreRows(history[..n], company, i);
    }
  }

  /** A version once readable reads the same after any further run. */
  lemma VersionNeverChanges(env: Env, st: Store, actions: seq<Action>, company: string, version: int)
    requires Valid(st) && Sensible(env.words)
    requires GetVersion(st.history, company, version).Some?
    ensures GetVersion(Run(env, st, actions).history, company, version) == GetVersion(st.history, company, version)
  {
    RunKeepsHistory(env, st, actions, 0);
    var later := Run(env, st, actions).history;
    assert later == st.history + later[|st.history|..];
    GetVersionOfExtension(st.history, later[|st.history|..], company, version);
  }

  lemma {:induction false} GetVersionOfExtension(history: seq<HistoryRow>, more: seq<HistoryRow>, company: string,
                                                 version: int)
    requires GetVersion(history, company, version).Some?
    ensures GetVersion(history + more, company, version) == GetVersion(history, company, version)
  {
    assert (history + more)[0] == history[0];
    if !(history[0].company == company && history[0].version == version) {
      assert (history + more)[1..] == history[1..] + more;
      GetVersionOfExtension(history[1..], more, company, version);
    }
  }

  // ---------- restore ----------

  function CurrentVersion(st: Store, company: string): nat {
    if company in st.active then st.active[company].version else 0
  }

  /** Restoring what the current publish wrote gives version n+1 with the same seven fields. */
  lemma RestoreRoundTrip(env: Env, st: Store, company: string, user: string, version: int, c: Content)
    requires Sensible(env.words) && WellFormed(env.words, c)
    requires GetVersion(st.history, company, version) == Some(Snapshot(c))
    ensures Restore(env, st, company, user, version)
         == (Commit(st, company, user, c), Ok(Row(c, CurrentVersion(st, company) + 1, user)))
  {
    SnapshotValidates(env, c);
    assert RestorePayload(Snapshot(c)) == Snapshot(c);
  }

  lemma WrittenVersion(env: Env, st: Store, company: string, version: int) returns (c: Content)
    requires CompanyValid(st, company) && AllWritten(env.words, st.history)
    requires 1 <= version <= CurrentVersion(st, company)
    ensures WellFormed(env.words, c) && GetVersion(st.history, company, version) == Some(Snapshot(c))
  {
    GetVersionIsVersionsOf(st.history, company, version);
    VersionsAreRows(st.history, company, version - 1);
    var s := VersionsOf(st.history, company)[version - 1].snapshot;
    assert Written(env.words, s);
    c :| WellFormed(env.words, c) && s == Snapshot(c);
  }

  lemma NewestVersionReads(st: Store, company: string, user: string, c: Content)
    requires CompanyValid(st, company)
    ensures
      var n := CurrentVersion(st, company);
      GetVersion(Commit(st, company, user, c).history, company, n + 1) == Some(Snapshot(c))
  {
    var n := CurrentVersion(st, company);
    GetVersionIsVersionsOf(st.history, company, n + 1);
    GetVersionOfAppend(st.history, HistoryRow(company, n + 1, Snapshot(c), user), company, n + 1);
  }

  /** What restoring version v of a company at version n does to a store. */
  ghost predicate RestoreOutcome(env: Env, st: Store, company: string, user: string, version: int) {
    var n := CurrentVersion(st, company);
    var (st', r) := Restore(env, st, company, user, version);
    if 1 <= version <= n then
      && r.Ok? && r.value.version == n + 1
      && GetVersion(st.history, company, version) == Some(Snapshot(r.value.content))
      && GetVersion(st'.history, company, n + 1) == GetVersion(st.history, company, version)
      && st'.active == st.active[company := r.value]
    else
      r == Err(NoSuchVersion) && st' == st
  }

  lemma RestoreIsDecided(env: Env, st: Store, company: string, user: string, version: int)
    requires Valid(st) && AllWritten(env.words, st.history) && Sensible(env.words)
    ensures RestoreOutcome(env, st, company, user, version)
  {
    assert CompanyValid(st, company);
    if 1 <= version <= CurrentVersion(st, company) {
      var c := WrittenVersion(env, st, company, version);
      RestoreRoundTrip(env, st, company, user, version, c);
      NewestVersionReads(st, company, user, c);
    } else {
      GetVersionIsVersionsOf(st.history, company, version);
    }
  }

  lemma EmptyIsValid()
    ensures Valid(Store(map[], []))
  {
    forall company: string
      ensures CompanyValid(Store(map[], []), company)
    {
    }
  }

  /** In every run from the empty store, restore succeeds exactly on versions 1..n,
      and then makes version n+1 say what that version said. */
  lemma RestoreSucceedsExactly(env: Env, actions: seq<Action>, company: string, user: string, version: int)
    requires Sensible(env.words)
    ensures RestoreOutcome(env, Run(env, Store(map[], []), actions), company, user, version)
  {
    var empty := Store(map[], []);
    EmptyIsValid();
    RunKeepsHistory(env, empty, actions, 0);
    RestoreIsDecided(env, Run(env, empty, actions), company, user, version);
  }

  /** In every run from the empty store a company's active row is its newest snapshot,
      and it has one exactly when it has a history. */
  lemma ActiveIsNewestSnapshot(env: Env, actions: seq<Action>, company: string)
    requires Sensible(env.words)
    ensures
      var st := Run(env, Store(map[], []), actions);
      && (company in st.active <==> VersionsOf(st.history, company) != [])
      && (company in st.active ==>
            GetVersion(st.history, company, st.active[company].version) == Some(Snapshot(st.active[company].content)))
  {
    EmptyIsValid();
    RunKeepsHistory(env, Store(map[], []), actions, 0);
    var st := Run(env, Store(map[], []), actions);
    assert CompanyValid(st, company);
    if company in st.active {
      var n := st.active[company].version;
      var c := WrittenVersion(env, st, company, n);
      GetVersionIsVersionsOf(st.history, company, n);
    }
  }

  lemma AbsentCapabilitiesMeanAll(words: Vocabulary)
    requires Sensible(words)
    ensures CleanCapabilities(words.capabilities, JNull) == Ok(words.capabilities)
  {
  }

  /** A snapshot from before Blueprint Governance restores with every capability and no
      category limit, its other five fields as they were, whatever the row had become. */
  lemma LegacyRestore(env: Env, st: Store, company: string, user: string, version: int, c: Content)
    requires Sensible(env.words) && WellFormed(env.words, c)
    requires GetVersion(st.history, company, version)
          == Some(Snapshot(c).(capabilities := None, categories := None))
    ensures
      var restored := c.(capabilities := env.words.capabilities, categories := None);
      Restore(env, st, company, user, version).1 == Ok(Row(restored, CurrentVersion(st, company) + 1, user))
  {
    BusinessTypeRoundTrip(env.words.businessTypes, c.businessType);
    PrioritiesRoundTrip(env.words.priorities, c.priorities);
    AbsentCapabilitiesMeanAll(env.words);
    LegacyValidates(env, c);
  }

  lemma LegacyValidates(env: Env, c: Content)
    requires CleanBusinessType(env.words.businessTypes, JStr(c.businessType)) == Ok(c.businessType)
    requires CleanPriorities(env.words.priorities, JArr(FromTexts(c.priorities))) == Ok(c.priorities)
    requires CleanCapabilities(env.words.capabilities, JNull) == Ok(env.words.capabilities)
    requires c.threshold.Some? ==> c.threshold.value >= 0.0
    ensures Validate(env, RestorePayload(Snapshot(c).(capabilities := None, categories := None)))
         == Ok(c.(capabilities := env.words.capabilities, categories := None))
  {
  }

  /** Restoring any snapshot whatever, written by this code or not: it must have the five keys, and
      then is what the validator makes of it, absent governance keys counting as null. */
  lemma RestoreMeans(env: Env, st: Store, company: string, user: string, version: int)
    ensures
      var (st', r) := Restore(env, st, company, user, version);
      match GetVersion(st.history, company, version)
      case None => st' == st && r == Err(NoSuchVersion)
      case Some(s) =>
        if s.businessType.None? || s.priorities.None? || s.threshold.None? || s.notify.None? || s.digest.None?
        then st' == st && r == Err(Crash)
        else
          var sent := s.(capabilities := if s.capabilities.Some? then s.capabilities else Some(JNull),
                         categories := if s.categories.Some? then s.categories else Some(JNull));
          && (r.Err? ==> st' == st)
          && (r.Ok? ==> AcceptedAs(env, sent, r.value.content) && st' == Commit(st, company, user, r.value.content)
                        && r.value == Row(r.value.content, CurrentVersion(st, company) + 1, user))
          && (r.Ok? <==> exists c :: AcceptedAs(env, sent, c))
  {
    var found := GetVersion(st.history, company, version);
    if found.Some? {
      PublishMeans(env, st, company, user, RestorePayload(found.value));
    }
  }

  lemma PublishMeans(env: Env, st: Store, company: string, user: string, p: Payload)
    ensures
      var (st', r) := Publish(env, st, company, user, p);
      && (r.Err? ==> st' == st)
      && (r.Ok? ==> AcceptedAs(env, p, r.value.content) && st' == Commit(st, company, user, r.value.content)
                    && r.value == Row(r.value.content, CurrentVersion(st, company) + 1, user))
      && (r.Ok? <==> exists c :: AcceptedAs(env, p, c))
  {
    var clean := Validate(env, p);
    if clean.Ok? {
      ValidateMeans(env, p, clean.value);
    } else if c :| AcceptedAs(env, p, c) {
      ValidateMeans(env, p, c);
    }
  }

  // ---------- compare ----------

  lemma {:induction false} NoDifferencesIff(a: Payload, b: Payload, fields: seq<ComparedField>)
    ensures Differences(a, b, fields) == [] <==> forall f :: f in fields ==> ValueOf(a, f) == ValueOf(b, f)
  {
    if fields != [] {
      NoDifferencesIff(a, b, fields[..|fields| - 1]);
      assert fields == fields[..|fields| - 1] + [fields[|fields| - 1]];
    }
  }

  lemma SnapshotInjective(c: Content, d: Content)
    requires Snapshot(c) == Snapshot(d)
    ensures c == d
  {
    TextsRoundTrip(c.priorities);
    TextsRoundTrip(d.priorities);
    TextsRoundTrip(c.capabilities);
    TextsRoundTrip(d.capabilities);
    if c.categories.Some? && d.categories.Some? {
      TextsRoundTrip(c.categories.value);
      TextsRoundTrip(d.categories.value);
    }
  }

  /** Two written versions that `compare` calls identical are the same Blueprint exactly
      when they also agree on the two governance fields, which it does not look at. */
  lemma IdenticalMeansSameIff(c: Content, d: Content)
    ensures Differences(Snapshot(c), Snapshot(d), COMPARED) == [] <==>
              d.(capabilities := c.capabilities, categories := c.categories) == c
    ensures Differences(Snapshot(c), Snapshot(d), COMPARED) == [] ==>
              (c == d <==> c.capabilities == d.capabilities && c.categories == d.categories)
  {
    NoDifferencesIff(Snapshot(c), Snapshot(d), COMPARED);
    var aligned := d.(capabilities := c.capabilities, categories := c.categories);
    assert COMPARED[0] in COMPARED && COMPARED[1] in COMPARED && COMPARED[2] in COMPARED
           && COMPARED[3] in COMPARED && COMPARED[4] in COMPARED;
    if Differences(Snapshot(c), Snapshot(d), COMPARED) == [] {
      assert Snapshot(c) == Snapshot(aligned);
      SnapshotInjective(c, aligned);
    }
  }

  /** Two publishes that differ in their capabilities alone compare as identical. */
  lemma CompareMissesCapabilities(env: Env, company: string, user: string, c: Content, d: Content)
    requires Sensible(env.words) && WellFormed(env.words, c) && WellFormed(env.words, d)
    requires d == c.(capabilities := d.capabilities)
    ensures
      var actions := [DoPublish(company, user, Snapshot(c)), DoPublish(company, user, Snapshot(d))];
      var st := Run(env, Store(map[], []), actions);
      && GetVersion(st.history, company, 1) == Some(Snapshot(c))
      && GetVersion(st.history, company, 2) == Some(Snapshot(d))
      && Differences(Snapshot(c), Snapshot(d), COMPARED) == []
  {
    SnapshotValidates(env, c);
    SnapshotValidates(env, d);
    var first := DoPublish(company, user, Snapshot(c));
    var empty := Store(map[], []);
    assert [first, DoPublish(company, user, Snapshot(d))][..1] == [first] && [first][..0] == [];
    assert Run(env, empty, [first]) == Commit(empty, company, user, c);
    IdenticalMeansSameIff(c, d);
  }

  /** One publish allows only "health", the next only "spend", and `compare` calls them identical. */
  lemma IdenticalButDifferent(env: Env, company: string, user: string)
    requires env.words == ORBIT
    ensures
      var c := Content("other", [], None, true, true, ["health"], None);
      var d := c.(capabilities := ["spend"]);
      var actions := [DoPublish(company, user, Snapshot(c)), DoPublish(company, user, Snapshot(d))];
      var st := Run(env, Store(map[], []), actions);
      && GetVersion(st.history, company, 1) == Some(Snapshot(c))
      && GetVersion(st.history, company, 2) == Some(Snapshot(d))
      && Differences(Snapshot(c), Snapshot(d), COMPARED) == [] && Snapshot(c) != Snapshot(d)
  {
    var c := Content("other", [], None, true, true, ["health"], None);
    var d := c.(capabilities := ["spend"]);
    OrbitIsSensible();
    assert ORBIT.capabilities[3] == "health" && ORBIT.capabilities[4] == "spend";
    assert WellFormed(ORBIT, c) && WellFormed(ORBIT, d);
    CompareMissesCapabilities(env, company, user, c, d);
    assert c.capabilities[0] != d.capabilities[0];
    if Snapshot(c) == Snapshot(d) {
      SnapshotInjective(c, d);
    }
  }
}
