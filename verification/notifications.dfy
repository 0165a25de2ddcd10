/** The notification engine (kernel/intelligence_engine/notification_engine.py), one call
    at a time. Each statement reads the clock; reading n is clock(n), in microseconds. */
module Notifications {
  import opened Common
  import opened Spacing
  import opened Selection

  const DEDUP_WINDOW := 6 * 3_600_000_000

  datatype Finding = Finding(id: string, kind: string, severity: string, title: string, message: string)

  datatype Notification = Notification(company: string, category: string, severity: string,
                                       title: string, message: string, createdAt: int)

  datatype NotifyError = UnknownMinimum  // the preference holds a word with no rank: a KeyError

  function Rank(severity: string): Option<nat> {
    if severity == "info" then Some(0)
    else if severity == "warning" then Some(1)
    else if severity == "critical" then Some(2)
    else None
  }

  /** A missing or empty preference means "info". */
  function MinSeverity(preferences: map<string, string>, company: string): string {
    if company in preferences && preferences[company] != "" then preferences[company] else "info"
  }

  /** A finding whose severity has no rank counts as the lowest. */
  predicate AtOrAbove(f: Finding, threshold: nat) {
    match Rank(f.severity) case Some(r) => r >= threshold case None => threshold == 0
  }

  predicate Recent(rows: seq<Notification>, company: string, kind: string, now: int) {
    exists i :: 0 <= i < |rows| && rows[i].company == company && rows[i].category == kind
                && rows[i].createdAt >= now - DEDUP_WINDOW
  }

  function RowFor(company: string, f: Finding, at: int): Notification {
    Notification(company, f.kind, f.severity, f.title, f.message, at)
  }

  /** The table, the readings taken, and the findings stored so far in this call. */
  datatype State = State(rows: seq<Notification>, readings: nat, stored: seq<Finding>)

  /** One finding: skip it below the threshold; otherwise look for a recent row, and
      insert one if there is none. */
  function Consider(s: State, company: string, threshold: nat, f: Finding, clock: Clock): State {
    if !AtOrAbove(f, threshold) then s
    else if Recent(s.rows, company, f.kind, clock(s.readings)) then s.(readings := s.readings + 1)
    else State(s.rows + [RowFor(company, f, clock(s.readings + 1))], s.readings + 2, s.stored + [f])
  }

  function ConsiderAll(s: State, company: string, threshold: nat, findings: seq<Finding>, clock: Clock): State {
    if findings == [] then s
    else
      var n := |findings| - 1;
      Consider(ConsiderAll(s, company, threshold, findings[..n], clock), company, threshold, findings[n], clock)
  }

  lemma NextConsidered(before: State, company: string, threshold: nat, findings: seq<Finding>, i: nat, clock: Clock)
    requires i < |findings|
    ensures ConsiderAll(before, company, threshold, findings[..i + 1], clock)
         == Consider(ConsiderAll(before, company, threshold, findings[..i], clock), company, threshold, findings[i],
                     clock)
  {
    assert findings[..i + 1][..i] == findings[..i];
  }

  class NotificationEngine {
    var rows: seq<Notification>
    var preferences: map<string, string>
    var readings: nat

    constructor (preferences: map<string, string>)
      ensures rows == [] && readings == 0 && this.preferences == preferences
    {
      rows, readings := [], 0;
      this.preferences := preferences;
    }

    /** One turn of the loop; `created` holds the findings stored so far. */
    method NotifyOne(company: string, threshold: nat, f: Finding, clock: Clock, ghost created: seq<Finding>)
      returns (stored: bool)
      modifies this`rows, this`readings
      ensures State(rows, readings, if stored then created + [f] else created)
           == Consider(State(old(rows), old(readings), created), company, threshold, f, clock)
    {
      if !AtOrAbove(f, threshold) {
        return false;
      }
      var recent := Recent(rows, company, f.kind, clock(readings));
      readings := readings + 1;
      if recent {
        return false;
      }
      rows := rows + [RowFor(company, f, clock(readings))];
      readings := readings + 1;
      return true;
    }

    method Notify(company: string, findings: seq<Finding>, clock: Clock) returns (r: Result<seq<Finding>, NotifyError>)
      modifies this`rows, this`readings
      ensures r.Err? <==> Rank(MinSeverity(preferences, company)).None?
      ensures r.Err? ==> rows == old(rows) && readings == old(readings)
      ensures r.Ok? ==>
                State(rows, readings, r.value)
                == ConsiderAll(State(old(rows), old(readings), []), company,
                               Rank(MinSeverity(preferences, company)).value, findings, clock)
    {
      var minimum := Rank(MinSeverity(preferences, company));
      if minimum.None? {
        return Err(UnknownMinimum);
      }
      var threshold := minimum.value;
      ghost var before := State(rows, readings, []);
      var created: seq<Finding> := [];
      var i := 0;
      while i < |findings|
        invariant 0 <= i <= |findings|
        invariant State(rows, readings, created) == ConsiderAll(before, company, threshold, findings[..i], clock)
      {
        NextConsidered(before, company, threshold, findings, i, clock);
        var stored := NotifyOne(company, threshold, findings[i], clock, created);
        if stored {
          created := created + [findings[i]];
        }
        i := i + 1;
      }
      assert findings[..i] == findings;
      return Ok(created);
    }
  }

  // ---------- spacing over all runs ----------

  /** Rows of one company and category are more than the window apart, none after `now`. */
  ghost predicate Deduplicated(rows: seq<Notification>, now: int) {
    && (forall i :: 0 <= i < |rows| ==> rows[i].createdAt <= now)
    && (forall i, j ::
          0 <= i < j < |rows| && rows[i].company == rows[j].company && rows[i].category == rows[j].category ==>
          rows[i].createdAt + DEDUP_WINDOW < rows[j].createdAt)
  }

  lemma ConsiderKeeps(s: State, company: string, threshold: nat, f: Finding, clock: Clock)
    requires Monotone(clock) && Deduplicated(s.rows, clock(s.readings))
    ensures var s' := Consider(s, company, threshold, f, clock);
            Deduplicated(s'.rows, clock(s'.readings)) && s.readings <= s'.readings
  {
    assert clock(s.readings) <= clock(s.readings + 1) <= clock(s.readings + 2);
  }

  lemma {:induction false} ConsiderAllKeeps(s: State, company: string, threshold: nat, findings: seq<Finding>,
                                            clock: Clock)
    requires Monotone(clock) && Deduplicated(s.rows, clock(s.readings))
    ensures var s' := ConsiderAll(s, company, threshold, findings, clock);
            Deduplicated(s'.rows, clock(s'.readings)) && s.readings <= s'.readings
  {
    if findings != [] {
      var n := |findings| - 1;
      ConsiderAllKeeps(s, company, threshold, findings[..n], clock);
      ConsiderKeeps(ConsiderAll(s, company, threshold, findings[..n], clock), company, threshold, findings[n], clock);
    }
  }

  datatype Call = Call(company: string, threshold: nat, findings: seq<Finding>)

  function RunCalls(calls: seq<Call>, s: State, clock: Clock): State {
    if calls == [] then s
    else
      var n := |calls| - 1;
      ConsiderAll(RunCalls(calls[..n], s, clock), calls[n].company, calls[n].threshold, calls[n].findings, clock)
  }

  lemma {:induction false} RunCallsKeeps(calls: seq<Call>, s: State, clock: Clock)
    requires Monotone(clock) && Deduplicated(s.rows, clock(s.readings))
    ensures var s' := RunCalls(calls, s, clock); Deduplicated(s'.rows, clock(s'.readings))
  {
    if calls != [] {
      var n := |calls| - 1;
      RunCallsKeeps(calls[..n], s, clock);
      ConsiderAllKeeps(RunCalls(calls[..n], s, clock), calls[n].company, calls[n].threshold, calls[n].findings, clock);
    }
  }

  /** Whether a row is of that company and category. */
  function IsOf(company: string, category: string): Notification -> bool {
    (row: Notification) => row.company == company && row.category == category
  }

  /** When notifications of one company and category were stored. */
  function TimesOf(rows: seq<Notification>, company: string, category: string): (times: seq<int>)
    ensures |times| == |Selected(IsOf(company, category), rows)|
  {
    var own := Selected(IsOf(company, category), rows);
    seq(|own|, i requires 0 <= i < |own| => own[i].createdAt)
  }

  lemma TimesSpaced(rows: seq<Notification>, company: string, category: string, now: int)
    requires Deduplicated(rows, now)
    ensures SpacedBy(TimesOf(rows, company, category), DEDUP_WINDOW + 1)
  {
    var ks := SelectedInOrder(IsOf(company, category), rows);
    var times := TimesOf(rows, company, category);
    forall i, j | 0 <= i < j < |times|
      ensures times[i] + (DEDUP_WINDOW + 1) <= times[j]
    {
      assert times[i] == rows[ks[i]].createdAt && times[j] == rows[ks[j]].createdAt;
    }
  }

  /** Over every run of calls, notifications of one company and category are more than six
      hours apart, so a window of length L stores at most L / (six hours and a tick) + 1. */
  lemma StoredInWindow(calls: seq<Call>, clock: Clock, company: string, category: string, begin: int, length: nat)
    requires Monotone(clock)
    ensures var times := TimesOf(RunCalls(calls, State([], 0, []), clock).rows, company, category);
            && SpacedBy(times, DEDUP_WINDOW + 1)
            && |During(times, begin, length)| <= length / (DEDUP_WINDOW + 1) + 1
  {
    var empty := State([], 0, []);
    RunCallsKeeps(calls, empty, clock);
    var last := RunCalls(calls, empty, clock);
    TimesSpaced(last.rows, company, category, clock(last.readings));
    WindowBound(TimesOf(last.rows, company, category), DEDUP_WINDOW + 1, begin, length);
  }

  // ---------- what one call stores ----------

  /** The reading at which finding i looks for a recent row, when `stored` tells which findings
      get a row: one below the threshold reads no clock, one that is silenced reads it once,
      one that is stored twice. */
  function Check(readings: nat, c: Call, stored: seq<bool>, i: nat): nat
    requires i <= |stored| <= |c.findings|
  {
    if i == 0 then readings
    else
      Check(readings, c, stored, i - 1)
      + if !AtOrAbove(c.findings[i - 1], c.threshold) then 0 else if stored[i - 1] then 2 else 1
  }

  /** At or above the threshold, and its own check finds no row from before the call. */
  predicate Free(s: State, c: Call, clock: Clock, stored: seq<bool>, i: nat)
    requires i < |c.findings| && i <= |stored| <= |c.findings|
  {
    && AtOrAbove(c.findings[i], c.threshold)
    && !Recent(s.rows, c.company, c.findings[i].kind, clock(Check(s.readings, c, stored, i)))
  }

  /** Finding j got a row of this kind that is still inside the window. */
  predicate Silences(readings: nat, c: Call, clock: Clock, stored: seq<bool>, j: nat, kind: string, now: int)
    requires j < |stored| <= |c.findings|
  {
    stored[j] && c.findings[j].kind == kind && clock(Check(readings, c, stored, j) + 1) >= now - DEDUP_WINDOW
  }

  /** Finding i is free, and no earlier finding of the call silences it. */
  predicate Accepts(s: State, c: Call, clock: Clock, stored: seq<bool>, i: nat)
    requires i < |c.findings| && i <= |stored| <= |c.findings|
  {
    && Free(s, c, clock, stored, i)
    && forall j :: 0 <= j < i ==>
         !Silences(s.readings, c, clock, stored, j, c.findings[i].kind, clock(Check(s.readings, c, stored, i)))
  }

  ghost predicate Decided(s: State, c: Call, clock: Clock, stored: seq<bool>) {
    |stored| <= |c.findings| && forall i :: 0 <= i < |stored| ==> stored[i] == Accepts(s, c, clock, stored, i)
  }

  function FindingsStored(c: Call, stored: seq<bool>, n: nat): seq<Finding>
    requires n <= |stored| <= |c.findings|
  {
    if n == 0 then [] else FindingsStored(c, stored, n - 1) + if stored[n - 1] then [c.findings[n - 1]] else []
  }

  /** Their rows, each stamped with the reading after its own check. */
  function RowsStored(readings: nat, c: Call, clock: Clock, stored: seq<bool>, n: nat): seq<Notification>
    requires n <= |stored| <= |c.findings|
  {
    if n == 0 then []
    else RowsStored(readings, c, clock, stored, n - 1) + RowOf(readings, c, clock, stored, n - 1)
  }

  function RowOf(readings: nat, c: Call, clock: Clock, stored: seq<bool>, i: nat): seq<Notification>
    requires i < |stored| <= |c.findings|
  {
    if stored[i] then [RowFor(c.company, c.findings[i], clock(Check(readings, c, stored, i) + 1))] else []
  }

  lemma RecentOfConcat(rows: seq<Notification>, more: seq<Notification>, company: string, kind: string, now: int)
    ensures Recent(rows + more, company, kind, now) <==>
              Recent(rows, company, kind, now) || Recent(more, company, kind, now)
  {
    var all := rows + more;
    assert forall i :: 0 <= i < |rows| ==> all[i] == rows[i];
    assert forall i :: 0 <= i < |more| ==> all[|rows| + i] == more[i];
  }

  lemma RowOfRecentIff(readings: nat, c: Call, clock: Clock, stored: seq<bool>, i: nat, kind: string, now: int)
    requires i < |stored| <= |c.findings|
    ensures Recent(RowOf(readings, c, clock, stored, i), c.company, kind, now) <==>
              Silences(readings, c, clock, stored, i, kind, now)
  {
    var rows := RowOf(readings, c, clock, stored, i);
    if stored[i] {
      assert rows[0].category == c.findings[i].kind;
    }
  }

  lemma {:induction false} StoredRecentIff(readings: nat, c: Call, clock: Clock, stored: seq<bool>, n: nat,
                                           kind: string, now: int)
    requires n <= |stored| <= |c.findings|
    ensures Recent(RowsStored(readings, c, clock, stored, n), c.company, kind, now) <==>
              exists j :: 0 <= j < n && Silences(readings, c, clock, stored, j, kind, now)
  {
    if n > 0 {
      assert RowsStored(readings, c, clock, stored, n)
          == RowsStored(readings, c, clock, stored, n - 1) + RowOf(readings, c, clock, stored, n - 1);
      StoredRecentIff(readings, c, clock, stored, n - 1, kind, now);
      RowOfRecentIff(readings, c, clock, stored, n - 1, kind, now);
      RecentOfConcat(RowsStored(readings, c, clock, stored, n - 1), RowOf(readings, c, clock, stored, n - 1),
                     c.company, kind, now);
    }
  }

  /** The table when finding i looks. */
  function TableAt(s: State, c: Call, clock: Clock, stored: seq<bool>, i: nat): seq<Notification>
    requires i <= |stored| <= |c.findings|
  {
    s.rows + RowsStored(s.readings, c, clock, stored, i)
  }

  lemma AcceptsIff(s: State, c: Call, clock: Clock, stored: seq<bool>, i: nat)
    requires i < |stored| <= |c.findings|
    ensures Accepts(s, c, clock, stored, i) <==>
              AtOrAbove(c.findings[i], c.threshold)
              && !Recent(TableAt(s, c, clock, stored, i), c.company, c.findings[i].kind,
                         clock(Check(s.readings, c, stored, i)))
  {
    var now, kind := clock(Check(s.readings, c, stored, i)), c.findings[i].kind;
    StoredRecentIff(s.readings, c, clock, stored, i, kind, now);
    RecentOfConcat(s.rows, RowsStored(s.readings, c, clock, stored, i), c.company, kind, now);
  }

  lemma NextTable(s: State, c: Call, clock: Clock, stored: seq<bool>, i: nat)
    requires i < |stored| <= |c.findings|
    ensures TableAt(s, c, clock, stored, i + 1)
         == TableAt(s, c, clock, stored, i) + RowOf(s.readings, c, clock, stored, i)
  {
  }

  lemma NextFindings(already: seq<Finding>, c: Call, stored: seq<bool>, i: nat)
    requires i < |stored| <= |c.findings|
    ensures already + FindingsStored(c, stored, i + 1)
         == already + FindingsStored(c, stored, i) + if stored[i] then [c.findings[i]] else []
  {
  }

  lemma AcceptedStep(s: State, c: Call, clock: Clock, stored: seq<bool>, i: nat, before: State)
    requires Decided(s, c, clock, stored) && i < |stored|
    requires before.rows == TableAt(s, c, clock, stored, i) && before.readings == Check(s.readings, c, stored, i)
    ensures
      var after := Consider(before, c.company, c.threshold, c.findings[i], clock);
      && after.rows == before.rows + RowOf(s.readings, c, clock, stored, i)
      && after.readings == Check(s.readings, c, stored, i + 1)
      && after.stored == before.stored + if stored[i] then [c.findings[i]] else []
  {
    AcceptsIff(s, c, clock, stored, i);
    assert stored[i] == Accepts(s, c, clock, stored, i);
  }

  /** A call of any length stores exactly the accepted findings, in order, each with its row. */
  lemma {:induction false} StoresExactlyAccepted(s: State, c: Call, clock: Clock, stored: seq<bool>, n: nat)
    requires Decided(s, c, clock, stored) && n <= |stored|
    ensures ConsiderAll(s, c.company, c.threshold, c.findings[..n], clock)
         == State(TableAt(s, c, clock, stored, n), Check(s.readings, c, stored, n),
                  s.stored + FindingsStored(c, stored, n))
  {
    if n > 0 {
      StoresExactlyAccepted(s, c, clock, stored, n - 1);
      assert c.findings[..n][..n - 1] == c.findings[..n - 1];
      NextTable(s, c, clock, stored, n - 1);
      NextFindings(s.stored, c, stored, n - 1);
      AcceptedStep(s, c, clock, stored, n - 1,
                   ConsiderAll(s, c.company, c.threshold, c.findings[..n - 1], clock));
    }
  }

  /** Which findings are accepted is decided by the call itself. */
  function Decision(s: State, c: Call, clock: Clock, n: nat): (stored: seq<bool>)
    requires n <= |c.findings|
    ensures |stored| == n
  {
    if n == 0 then []
    else Decision(s, c, clock, n - 1) + [Accepts(s, c, clock, Decision(s, c, clock, n - 1), n - 1)]
  }

  lemma {:induction false} CheckOfPrefix(readings: nat, c: Call, stored: seq<bool>, more: seq<bool>, i: nat)
    requires i <= |stored| && |stored + more| <= |c.findings|
    ensures Check(readings, c, stored + more, i) == Check(readings, c, stored, i)
  {
    if i > 0 {
      CheckOfPrefix(readings, c, stored, more, i - 1);
    }
  }

  lemma AcceptsOfPrefix(s: State, c: Call, clock: Clock, stored: seq<bool>, more: seq<bool>, i: nat)
    requires i < |c.findings| && i <= |stored| && |stored + more| <= |c.findings|
    ensures Accepts(s, c, clock, stored + more, i) == Accepts(s, c, clock, stored, i)
  {
    var now, kind := clock(Check(s.readings, c, stored, i)), c.findings[i].kind;
    CheckOfPrefix(s.readings, c, stored, more, i);
    forall j | 0 <= j < i
      ensures Silences(s.readings, c, clock, stored + more, j, kind, now)
           == Silences(s.readings, c, clock, stored, j, kind, now)
    {
      CheckOfPrefix(s.readings, c, stored, more, j);
    }
  }

  lemma {:induction false} DecisionDecides(s: State, c: Call, clock: Clock, n: nat)
    requires n <= |c.findings|
    ensures Decided(s, c, clock, Decision(s, c, clock, n))
  {
    if n > 0 {
      var before := Decision(s, c, clock, n - 1);
      var last := [Accepts(s, c, clock, before, n - 1)];
      DecisionDecides(s, c, clock, n - 1);
      forall i | 0 <= i < n
        ensures Accepts(s, c, clock, before + last, i) == Accepts(s, c, clock, before, i)
      {
        AcceptsOfPrefix(s, c, clock, before, last, i);
      }
    }
  }

  // ---------- a call shorter than the window ----------

  lemma {:induction false} ChecksRise(readings: nat, c: Call, stored: seq<bool>, i: nat, j: nat)
    requires i <= j <= |stored| <= |c.findings|
    ensures Check(readings, c, stored, i) <= Check(readings, c, stored, j)
    ensures i < j && stored[i] && AtOrAbove(c.findings[i], c.threshold) ==>
              Check(readings, c, stored, i) + 2 <= Check(readings, c, stored, j)
  {
    if i < j {
      ChecksRise(readings, c, stored, i, j - 1);
    }
  }

  predicate SameKindFree(s: State, c: Call, clock: Clock, stored: seq<bool>, k: nat, j: nat)
    requires k < j < |stored| <= |c.findings|
  {
    c.findings[k].kind == c.findings[j].kind && Free(s, c, clock, stored, k)
  }

  /** The first finding of its kind at or above the threshold whose own check finds no row from
      before the call. */
  predicate FirstFree(s: State, c: Call, clock: Clock, stored: seq<bool>, i: nat)
    requires i < |stored| <= |c.findings|
  {
    Free(s, c, clock, stored, i) && forall k: nat :: k < i ==> !SameKindFree(s, c, clock, stored, k, i)
  }

  lemma {:induction false} SomeFirstFree(s: State, c: Call, clock: Clock, stored: seq<bool>, j: nat) returns (m: nat)
    requires j < |stored| <= |c.findings| && Free(s, c, clock, stored, j)
    ensures m <= j && c.findings[m].kind == c.findings[j].kind && FirstFree(s, c, clock, stored, m)
  {
    if k: nat :| k < j && SameKindFree(s, c, clock, stored, k, j) {
      m := SomeFirstFree(s, c, clock, stored, k);
    } else {
      m := j;
    }
  }

  lemma FirstFreeIsAccepted(s: State, c: Call, clock: Clock, stored: seq<bool>, i: nat)
    requires Decided(s, c, clock, stored) && i < |stored| && FirstFree(s, c, clock, stored, i)
    ensures stored[i]
  {
    forall j | 0 <= j < i
      ensures !Silences(s.readings, c, clock, stored, j, c.findings[i].kind, clock(Check(s.readings, c, stored, i)))
    {
      assert stored[j] == Accepts(s, c, clock, stored, j);
      assert !SameKindFree(s, c, clock, stored, j, i);
    }
  }

  /** A call no longer than the window stores exactly the first free finding of each kind. */
  lemma ShortCallStoresFirstFree(s: State, c: Call, clock: Clock, stored: seq<bool>, i: nat)
    requires Decided(s, c, clock, stored) && i < |stored| && Monotone(clock)
    requires clock(Check(s.readings, c, stored, |stored|)) - clock(s.readings) <= DEDUP_WINDOW
    ensures stored[i] <==> FirstFree(s, c, clock, stored, i)
  {
    if FirstFree(s, c, clock, stored, i) {
      FirstFreeIsAccepted(s, c, clock, stored, i);
    } else if Free(s, c, clock, stored, i) {
      var m := SomeFirstFree(s, c, clock, stored, i);
      FirstFreeIsAccepted(s, c, clock, stored, m);
      ChecksRise(s.readings, c, stored, 0, m);
      ChecksRise(s.readings, c, stored, m, i);
      ChecksRise(s.readings, c, stored, i, |stored|);
      assert clock(s.readings) <= clock(Check(s.readings, c, stored, m) + 1);
      assert Silences(s.readings, c, clock, stored, m, c.findings[i].kind, clock(Check(s.readings, c, stored, i)));
    }
  }

  // ---------- dedup whatever the severity ----------

  lemma {:induction false} TablesGrow(s: State, c: Call, clock: Clock, stored: seq<bool>, i: nat, n: nat)
    requires i <= n <= |stored| <= |c.findings|
    ensures TableAt(s, c, clock, stored, i) <= TableAt(s, c, clock, stored, n)
    ensures i < n ==> TableAt(s, c, clock, stored, i) + RowOf(s.readings, c, clock, stored, i)
                      <= TableAt(s, c, clock, stored, n)
  {
    if i < n {
      TablesGrow(s, c, clock, stored, i, n - 1);
      NextTable(s, c, clock, stored, n - 1);
    }
  }

  /** Of the findings at or above the threshold, critical ones included, exactly those get no
      row for which the table holds, at their check, a row of their kind inside the window;
      so each leaves the table with a row of its kind no older than that. */
  ghost predicate SilencedIff(s: State, c: Call, clock: Clock, i: nat, after: State)
    requires i < |c.findings|
  {
    var stored := Decision(s, c, clock, |c.findings|);
    var check := Check(s.readings, c, stored, i);
    var table := TableAt(s, c, clock, stored, i);
    && after.stored == s.stored + FindingsStored(c, stored, |c.findings|)
    && table + RowOf(s.readings, c, clock, stored, i) <= after.rows
    && (!stored[i] <==> Recent(table, c.company, c.findings[i].kind, clock(check)))
    && Recent(after.rows, c.company, c.findings[i].kind, if stored[i] then clock(check + 1) else clock(check))
  }

  lemma CallSilences(s: State, c: Call, clock: Clock, i: nat)
    requires i < |c.findings| && AtOrAbove(c.findings[i], c.threshold)
    ensures SilencedIff(s, c, clock, i, ConsiderAll(s, c.company, c.threshold, c.findings, clock))
  {
    var n := |c.findings|;
    var stored := Decision(s, c, clock, n);
    DecisionDecides(s, c, clock, n);
    assert c.findings[..n] == c.findings;
    StoresExactlyAccepted(s, c, clock, stored, n);
    assert stored[i] == Accepts(s, c, clock, stored, i);
    AcceptsIff(s, c, clock, stored, i);
    TablesGrow(s, c, clock, stored, i, n);
    StaysRecent(s, c, clock, stored, i);
  }

  /** Over every run of calls. */
  lemma SilencedIffKindIsRecent(calls: seq<Call>, c: Call, clock: Clock, i: nat)
    requires i < |c.findings| && AtOrAbove(c.findings[i], c.threshold)
    ensures SilencedIff(RunCalls(calls, State([], 0, []), clock), c, clock, i,
                        RunCalls(calls + [c], State([], 0, []), clock))
  {
    assert (calls + [c])[..|calls|] == calls;
    CallSilences(RunCalls(calls, State([], 0, []), clock), c, clock, i);
  }

  lemma StaysRecent(s: State, c: Call, clock: Clock, stored: seq<bool>, i: nat)
    requires i < |stored| == |c.findings|
    ensures
      var check := Check(s.readings, c, stored, i);
      var table, after := TableAt(s, c, clock, stored, i), TableAt(s, c, clock, stored, |stored|);
      var kind := c.findings[i].kind;
      && (stored[i] ==> Recent(after, c.company, kind, clock(check + 1)))
      && (Recent(table, c.company, kind, clock(check)) ==> Recent(after, c.company, kind, clock(check)))
  {
    var check, kind := Check(s.readings, c, stored, i), c.findings[i].kind;
    var table, after := TableAt(s, c, clock, stored, i), TableAt(s, c, clock, stored, |stored|);
    TablesGrow(s, c, clock, stored, i, |stored|);
    RecentOfConcat(table, after[|table|..], c.company, kind, clock(check));
    assert after == table + after[|table|..];
    assert stored[i] ==> after[|table|] == RowFor(c.company, c.findings[i], clock(check + 1));
  }

  lemma ConsiderOne(s: State, company: string, threshold: nat, f: Finding, clock: Clock)
    ensures ConsiderAll(s, company, threshold, [f], clock) == Consider(s, company, threshold, f, clock)
  {
    assert [f][..0] == [];
  }

  // ---------- apart from how it is computed ----------

  /** The row is of the company and kind and no more than six hours old. */
  predicate HoldsBack(row: Notification, company: string, kind: string, now: int) {
    row.company == company && row.category == kind && now - row.createdAt <= 6 * 60 * 60 * 1_000_000
  }

  /** At least as severe as the minimum: anything for "info", all but "info" for "warning". */
  predicate SevereEnough(severity: string, minimum: string) {
    match minimum
    case "info" => true
    case "warning" => severity == "warning" || severity == "critical"
    case "critical" => severity == "critical"
    case _ => false
  }

  ghost predicate HeldBack(rows: seq<Notification>, company: string, kind: string, now: int) {
    exists row :: row in rows && HoldsBack(row, company, kind, now)
  }

  lemma RecentIffHeldBack(rows: seq<Notification>, company: string, kind: string, now: int)
    ensures Recent(rows, company, kind, now) <==> HeldBack(rows, company, kind, now)
  {
    if Recent(rows, company, kind, now) {
      var i :| 0 <= i < |rows| && rows[i].company == company && rows[i].category == kind
               && rows[i].createdAt >= now - DEDUP_WINDOW;
      assert rows[i] in rows && HoldsBack(rows[i], company, kind, now);
    }
  }

  /** What becomes of one finding: stored with all it says at the next reading, unless it is not
      severe enough or a row holds it back. */
  lemma ConsiderDecides(s: State, company: string, minimum: string, f: Finding, clock: Clock)
    requires Rank(minimum).Some?
    ensures
      var after := Consider(s, company, Rank(minimum).value, f, clock);
      var row := Notification(company, f.kind, f.severity, f.title, f.message, clock(s.readings + 1));
      if !SevereEnough(f.severity, minimum) then after == s
      else if HeldBack(s.rows, company, f.kind, clock(s.readings)) then after == State(s.rows, s.readings + 1, s.stored)
      else after == State(s.rows + [row], s.readings + 2, s.stored + [f])
  {
    RecentIffHeldBack(s.rows, company, f.kind, clock(s.readings));
  }

  /** A minimum has a rank exactly when it is one of the three words, and an absent or empty
      preference is "info". */
  lemma MinimumIs(preferences: map<string, string>, company: string)
    ensures
      var minimum := MinSeverity(preferences, company);
      && (Rank(minimum).Some? <==> minimum in {"info", "warning", "critical"})
      && (company !in preferences ==> minimum == "info")
      && (company in preferences ==> minimum == if preferences[company] == "" then "info" else preferences[company])
  {
  }

  /** Over every run, for finding i of the next call: it is stored exactly when it is severe enough
      and the table then has no row of the company's name, its kind and the last six hours. */
  lemma StoredIffNotHeldBack(calls: seq<Call>, c: Call, minimum: string, clock: Clock, i: nat)
    requires Rank(minimum) == Some(c.threshold) && i < |c.findings|
    ensures
      var start := RunCalls(calls, State([], 0, []), clock);
      var before := ConsiderAll(start, c.company, c.threshold, c.findings[..i], clock);
      var after := ConsiderAll(start, c.company, c.threshold, c.findings[..i + 1], clock);
      var f := c.findings[i];
      var stores := SevereEnough(f.severity, minimum)
                    && !HeldBack(before.rows, c.company, f.kind, clock(before.readings));
      && after.stored == before.stored + (if stores then [f] else [])
      && after.rows == before.rows
                       + (if stores
                          then [Notification(c.company, f.kind, f.severity, f.title, f.message,
                                             clock(before.readings + 1))]
                          else [])
      && RunCalls(calls + [c], State([], 0, []), clock)
         == ConsiderAll(start, c.company, c.threshold, c.findings, clock)
  {
    var start := RunCalls(calls, State([], 0, []), clock);
    var before := ConsiderAll(start, c.company, c.threshold, c.findings[..i], clock);
    NextConsidered(start, c.company, c.threshold, c.findings, i, clock);
    ConsiderDecides(before, c.company, minimum, c.findings[i], clock);
    assert (calls + [c])[..|calls|] == calls;
    assert before.rows + [] == before.rows && before.stored + [] == before.stored;
  }

  /** The company's rows, in their order. */
  function RowsOf(rows: seq<Notification>, company: string): seq<Notification> {
    Selected((row: Notification) => row.company == company, rows)
  }

  lemma RowsOfAppend(rows: seq<Notification>, row: Notification, company: string)
    ensures RowsOf(rows + [row], company) == RowsOf(rows, company) + if row.company == company then [row] else []
  {
    SelectedOfAppend((row: Notification) => row.company == company, rows, row);
  }

  lemma HeldBackByOwn(rows: seq<Notification>, company: string, kind: string, now: int)
    ensures HeldBack(rows, company, kind, now) <==> HeldBack(RowsOf(rows, company), company, kind, now)
  {
    forall row: Notification
      ensures row in RowsOf(rows, company) <==> row in rows && row.company == company
    {
      SelectedHas((row: Notification) => row.company == company, rows, row);
    }
  }

  /** The same for the company: its rows, the clock and what the call has stored. */
  predicate SameTo(s: State, t: State, company: string) {
    RowsOf(s.rows, company) == RowsOf(t.rows, company) && s.readings == t.readings && s.stored == t.stored
  }

  lemma ConsiderSame(s: State, t: State, company: string, threshold: nat, f: Finding, clock: Clock)
    requires SameTo(s, t, company)
    ensures SameTo(Consider(s, company, threshold, f, clock), Consider(t, company, threshold, f, clock), company)
  {
    var now := clock(s.readings);
    RecentIffHeldBack(s.rows, company, f.kind, now);
    RecentIffHeldBack(t.rows, company, f.kind, now);
    HeldBackByOwn(s.rows, company, f.kind, now);
    HeldBackByOwn(t.rows, company, f.kind, now);
    var row := RowFor(company, f, clock(s.readings + 1));
    RowsOfAppend(s.rows, row, company);
    RowsOfAppend(t.rows, row, company);
  }

  /** Tenants do not interfere: whatever rows other companies have, a call stores the same findings
      and leaves the company the same rows. */
  lemma {:induction false} OthersRowsDoNotMatter(s: State, t: State, company: string, threshold: nat,
                                                 findings: seq<Finding>, clock: Clock)
    requires SameTo(s, t, company)
    ensures SameTo(ConsiderAll(s, company, threshold, findings, clock),
                   ConsiderAll(t, company, threshold, findings, clock), company)
  {
    if findings != [] {
      var n := |findings| - 1;
      OthersRowsDoNotMatter(s, t, company, threshold, findings[..n], clock);
      ConsiderSame(ConsiderAll(s, company, threshold, findings[..n], clock),
                   ConsiderAll(t, company, threshold, findings[..n], clock), company, threshold, findings[n], clock);
    }
  }

  lemma ConsiderSpares(s: State, company: string, threshold: nat, f: Finding, clock: Clock, other: string)
    requires other != company
    ensures RowsOf(Consider(s, company, threshold, f, clock).rows, other) == RowsOf(s.rows, other)
  {
    var row := RowFor(company, f, clock(s.readings + 1));
    RowsOfAppend(s.rows, row, other);
  }

  /** And a call adds no row of any other company. */
  lemma {:induction false} OthersAreSpared(s: State, company: string, threshold: nat, findings: seq<Finding>,
                                           clock: Clock, other: string)
    requires other != company
    ensures RowsOf(ConsiderAll(s, company, threshold, findings, clock).rows, other) == RowsOf(s.rows, other)
  {
    if findings != [] {
      var n := |findings| - 1;
      OthersAreSpared(s, company, threshold, findings[..n], clock, other);
      ConsiderSpares(ConsiderAll(s, company, threshold, findings[..n], clock), company, threshold, findings[n], clock,
                     other);
    }
  }

  // ---------- it happens ----------

  /** An "info" notification silences a critical finding of its kind for six hours. */
  lemma InfoSilencesCritical(company: string, mild: Finding, grave: Finding, clock: Clock)
    requires mild.severity == "info" && grave.severity == "critical" && mild.kind == grave.kind
    requires clock(2) - clock(1) <= DEDUP_WINDOW
    ensures RunCalls([Call(company, 0, [mild]), Call(company, 0, [grave])], State([], 0, []), clock).rows
         == [RowFor(company, mild, clock(1))]
  {
    var first, second := Call(company, 0, [mild]), Call(company, 0, [grave]);
    var empty := State([], 0, []);
    assert [first, second][..1] == [first] && [first][..0] == [];
    assert RunCalls([], empty, clock) == empty;
    var s := RunCalls([first], empty, clock);
    ConsiderOne(empty, company, 0, mild, clock);
    ConsiderOne(s, company, 0, grave, clock);
    assert !Recent([], company, mild.kind, clock(0));
    assert s == State([RowFor(company, mild, clock(1))], 2, [mild]);
    assert Recent(s.rows, company, grave.kind, clock(2)) by {
      assert s.rows[0].category == grave.kind;
    }
  }
}
