/** Spacing and progress of the scheduler, over every run of ticks. */
module SchedulerTheorems {
  import opened Spacing
  import opened Selection
  import opened Scheduler

  // ---------- spacing ----------

  /** Starts of one pair are its interval apart, and each is covered by the pair's stamp. */
  ghost predicate WellSpaced(s: State) {
    && (forall i, j :: 0 <= i < j < |s.starts| && s.starts[i].pair == s.starts[j].pair ==>
          s.starts[i].at + Interval(s.starts[i].pair.job) <= s.starts[j].at)
    && (forall i :: 0 <= i < |s.starts| ==>
          s.starts[i].pair in s.runs && s.starts[i].at <= s.runs[s.starts[i].pair])
  }

  lemma RunJobSpaced(s: State, pair: Pair, clock: Clock)
    requires Monotone(clock) && WellSpaced(s) && Due(s.runs, pair, clock(s.readings))
    ensures WellSpaced(RunJob(s, pair, clock))
  {
    assert clock(s.readings) <= clock(s.readings + 1) <= clock(s.readings + 2);
  }

  lemma {:induction false} SweepSpaced(pairs: seq<Pair>, s: State, fails: set<Pair>, clock: Clock)
    requires Monotone(clock) && WellSpaced(s)
    ensures WellSpaced(Sweep(pairs, s, fails, clock).0)
  {
    if pairs == [] {
    } else if !Due(s.runs, pairs[0], clock(s.readings)) {
      SweepSpaced(pairs[1..], Skip(s), fails, clock);
    } else {
      RunJobSpaced(s, pairs[0], clock);
      if pairs[0] !in fails {
        SweepSpaced(pairs[1..], RunJob(s, pairs[0], clock), fails, clock);
      }
    }
  }

  lemma {:induction false} TicksSpaced(ticks: seq<Tick>, s: State, clock: Clock)
    requires Monotone(clock) && WellSpaced(s)
    ensures WellSpaced(RunTicks(ticks, s, clock))
  {
    if ticks != [] {
      SweepSpaced(Grid(ticks[0].active), s, ticks[0].fails, clock);
      TicksSpaced(ticks[1..], Sweep(Grid(ticks[0].active), s, ticks[0].fails, clock).0, clock);
    }
  }

  function IsOf(pair: Pair): Start -> bool {
    (start: Start) => start.pair == pair
  }

  /** When one pair was started. */
  function TimesOf(starts: seq<Start>, pair: Pair): (times: seq<int>)
    ensures |times| == |Selected(IsOf(pair), starts)|
  {
    var own := Selected(IsOf(pair), starts);
    seq(|own|, i requires 0 <= i < |own| => own[i].at)
  }

  lemma TimesSpaced(starts: seq<Start>, pair: Pair)
    requires forall i, j :: 0 <= i < j < |starts| && starts[i].pair == starts[j].pair ==>
               starts[i].at + Interval(starts[i].pair.job) <= starts[j].at
    ensures SpacedBy(TimesOf(starts, pair), Interval(pair.job))
  {
    var ks := SelectedInOrder(IsOf(pair), starts);
    var times := TimesOf(starts, pair);
    forall i, j | 0 <= i < j < |times|
      ensures times[i] + Interval(pair.job) <= times[j]
    {
      assert times[i] == starts[ks[i]].at && times[j] == starts[ks[j]].at;
    }
  }

  /** Whatever fails, and whoever is activated or deactivated between ticks, a job starts
      for a company at most length / interval + 1 times in any window. */
  lemma StartsInWindow(ticks: seq<Tick>, clock: Clock, pair: Pair, begin: int, length: nat)
    requires Monotone(clock)
    ensures var starts := TimesOf(RunTicks(ticks, State(map[], 0, []), clock).starts, pair);
            && SpacedBy(starts, Interval(pair.job))
            && |During(starts, begin, length)| <= length / Interval(pair.job) + 1
  {
    var empty := State(map[], 0, []);
    TicksSpaced(ticks, empty, clock);
    TimesSpaced(RunTicks(ticks, empty, clock).starts, pair);
    WindowBound(TimesOf(RunTicks(ticks, empty, clock).starts, pair), Interval(pair.job), begin, length);
  }

  // ---------- exactly what is started ----------

  /** Some start added since then is the pair's. */
  ghost predicate StartedSince(starts: seq<Start>, since: nat, p: Pair) {
    exists m :: since <= m < |starts| && starts[m].pair == p
  }

  lemma {:induction false} StartsIff(pairs: seq<Pair>, s: State, clock: Clock, n: nat, p: Pair)
    requires n <= |pairs|
    ensures (exists m :: 0 <= m < |Starts(pairs, s, clock, n)| && Starts(pairs, s, clock, n)[m].pair == p) <==>
              exists i :: 0 <= i < n && pairs[i] == p && IsLapsed(pairs, s, clock, i)
  {
    if n > 0 {
      StartsIff(pairs, s, clock, n - 1, p);
      var before, after := Starts(pairs, s, clock, n - 1), Starts(pairs, s, clock, n);
      assert forall m :: 0 <= m < |before| ==> after[m] == before[m];
      if IsLapsed(pairs, s, clock, n - 1) {
        assert after[|before|].pair == pairs[n - 1];
      }
    }
  }

  lemma {:induction false} StartsDiffer(pairs: seq<Pair>, s: State, clock: Clock, n: nat)
    requires n <= |pairs| && AllDiffer(pairs)
    ensures forall i, j :: 0 <= i < j < |Starts(pairs, s, clock, n)| ==>
              Starts(pairs, s, clock, n)[i].pair != Starts(pairs, s, clock, n)[j].pair
  {
    if n > 0 {
      StartsDiffer(pairs, s, clock, n - 1);
      StartsIff(pairs, s, clock, n - 1, pairs[n - 1]);
      var before, after := Starts(pairs, s, clock, n - 1), Starts(pairs, s, clock, n);
      assert forall i :: 0 <= i < n - 1 ==> pairs[i] != pairs[n - 1];
      forall i | 0 <= i < |before|
        ensures before[i].pair != pairs[n - 1] && after[i] == before[i]
      {
      }
    }
  }

  /** A tick starts each pair at most once, and starts pair i of its grid exactly when it gets that far
      and the table has no stamp for the pair, or one at least the interval older than the reading
      at the pair's own check. */
  ghost predicate StartsExactlyLapsed(pairs: seq<Pair>, s: State, clock: Clock, s': State, n: nat) {
    && n <= |pairs| && s.starts <= s'.starts
    && StartsDifferFrom(s'.starts, |s.starts|)
    && (forall i :: 0 <= i < |pairs| ==>
          var now := clock(Check(pairs, s, clock, i));
          StartedSince(s'.starts, |s.starts|, pairs[i]) <==>
            i < n && (pairs[i] in s.runs ==> now - s.runs[pairs[i]] >= Interval(pairs[i].job)))
  }

  lemma StartedInAdded(starts: seq<Start>, more: seq<Start>, p: Pair)
    ensures StartedSince(starts + more, |starts|, p) <==> exists m :: 0 <= m < |more| && more[m].pair == p
  {
    var all := starts + more;
    assert forall m :: 0 <= m < |more| ==> all[|starts| + m] == more[m];
    assert forall m :: |starts| <= m < |all| ==> all[m] == more[m - |starts|];
  }

  lemma AddedDiffer(starts: seq<Start>, more: seq<Start>)
    requires forall i, j :: 0 <= i < j < |more| ==> more[i].pair != more[j].pair
    ensures StartsDifferFrom(starts + more, |starts|)
  {
    assert forall m :: |starts| <= m < |starts + more| ==> (starts + more)[m] == more[m - |starts|];
  }

  lemma PairIsUnique(pairs: seq<Pair>, s: State, clock: Clock, n: nat, i: nat)
    requires n <= |pairs| && i < |pairs| && AllDiffer(pairs)
    ensures (exists k :: 0 <= k < n && pairs[k] == pairs[i] && IsLapsed(pairs, s, clock, k)) <==>
              i < n && IsLapsed(pairs, s, clock, i)
  {
  }

  lemma VisitedStartsLapsed(pairs: seq<Pair>, s: State, clock: Clock, n: nat)
    requires n <= |pairs| && AllDiffer(pairs)
    ensures StartsExactlyLapsed(pairs, s, clock, Visited(pairs, s, clock, n), n)
  {
    StartsDiffer(pairs, s, clock, n);
    AddedDiffer(s.starts, Starts(pairs, s, clock, n));
    forall i | 0 <= i < |pairs|
      ensures StartedSince(s.starts + Starts(pairs, s, clock, n), |s.starts|, pairs[i]) <==>
                i < n && IsLapsed(pairs, s, clock, i)
    {
      StartsIff(pairs, s, clock, n, pairs[i]);
      StartedInAdded(s.starts, Starts(pairs, s, clock, n), pairs[i]);
      PairIsUnique(pairs, s, clock, n, i);
    }
  }

  /** The sweep stops after the first pair that is started and raises, if there is one. */
  ghost predicate StopsAtFirstFailure(pairs: seq<Pair>, s: State, s': State, fails: set<Pair>, n: nat) {
    && n <= |pairs|
    && (n < |pairs| ==> n > 0 && pairs[n - 1] in fails && StartedSince(s'.starts, |s.starts|, pairs[n - 1]))
    && forall i :: 0 <= i < n - 1 && StartedSince(s'.starts, |s.starts|, pairs[i]) ==> pairs[i] !in fails
  }

  lemma SweepStops(pairs: seq<Pair>, s: State, s': State, fails: set<Pair>, clock: Clock, aborted: bool, n: nat)
    requires Sweeps(pairs, s, fails, clock, s', aborted, n) && StartsExactlyLapsed(pairs, s, clock, s', n)
    ensures StopsAtFirstFailure(pairs, s, s', fails, n)
  {
    forall i | 0 <= i < n - 1 && StartedSince(s'.starts, |s.starts|, pairs[i])
      ensures pairs[i] !in fails
    {
      assert !Breaks(pairs, s, fails, clock, i);
    }
  }

  /** Over every run of ticks the next tick, of companies that differ as the table's key makes them,
      starts exactly the pairs that have lapsed, up to the first whose job raises. */
  lemma TickStartsLapsed(ticks: seq<Tick>, tick: Tick, start: State, clock: Clock) returns (n: nat)
    requires AllDiffer(tick.active)
    ensures
      var s, s' := RunTicks(ticks, start, clock), RunTicks(ticks + [tick], start, clock);
      && StartsExactlyLapsed(Grid(tick.active), s, clock, s', n)
      && StopsAtFirstFailure(Grid(tick.active), s, s', tick.fails, n)
  {
    var s := RunTicks(ticks, start, clock);
    var pairs := Grid(tick.active);
    RunOneMore(ticks, tick, start, clock);
    GridDiffers(tick.active);
    n := SweepSweeps(pairs, s, tick.fails, clock);
    VisitedStartsLapsed(pairs, s, clock, n);
    var (s', aborted) := Sweep(pairs, s, tick.fails, clock);
    SweepStops(pairs, s, s', tick.fails, clock, aborted, n);
  }

  lemma {:induction false} RunOneMore(ticks: seq<Tick>, tick: Tick, s: State, clock: Clock)
    ensures RunTicks(ticks + [tick], s, clock)
         == Sweep(Grid(tick.active), RunTicks(ticks, s, clock), tick.fails, clock).0
  {
    if ticks == [] {
      assert [tick][1..] == [];
      assert [] + [tick] == [tick];
    } else {
      assert (ticks + [tick])[1..] == ticks[1..] + [tick];
      RunOneMore(ticks[1..], tick, Sweep(Grid(ticks[0].active), s, ticks[0].fails, clock).0, clock);
    }
  }

  predicate StartsDifferFrom(starts: seq<Start>, since: nat) {
    forall i, j :: since <= i < j < |starts| ==> starts[i].pair != starts[j].pair
  }

  ghost predicate StartedOnce(starts: seq<Start>, p: Pair) {
    exists m :: 0 <= m < |starts| && starts[m].pair == p
                && forall j :: 0 <= j < |starts| && j != m ==> starts[j].pair != p
  }

  lemma OnceOnly(starts: seq<Start>, p: Pair)
    requires StartsDifferFrom(starts, 0) && StartedSince(starts, 0, p)
    ensures StartedOnce(starts, p)
  {
    var m :| 0 <= m < |starts| && starts[m].pair == p;
    forall j | 0 <= j < |starts| && j != m
      ensures starts[j].pair != p
    {
      assert j < m ==> starts[j].pair != starts[m].pair;
    }
  }

  /** From an empty table a tick in which nothing fails starts every job of every active company, once. */
  lemma FirstTickStartsAll(active: seq<string>, readings: nat, clock: Clock, p: Pair)
    requires AllDiffer(active) && p.company in active
    ensures StartedOnce(RunTicks([Tick(active, {})], State(map[], readings, []), clock).starts, p)
  {
    var s := State(map[], readings, []);
    var tick := Tick(active, {});
    var n := TickStartsLapsed([], tick, s, clock);
    assert [] + [tick] == [tick];
    EveryJobIsListed(p.job);
    GridMembers(active, p);
    var i :| 0 <= i < |Grid(active)| && Grid(active)[i] == p;
    assert n == |Grid(active)|;
    OnceOnly(RunTicks([tick], s, clock).starts, p);
  }

  lemma EveryJobIsListed(job: Job)
    ensures job in JOBS
  {
    assert JOBS[0] == HealthHourly && JOBS[1] == DailySummary && JOBS[2] == WeeklyExecutive
           && JOBS[3] == MonthlyForecast && JOBS[4] == QuarterlyTrend;
  }

  /** How long after its stamp each job lapses. */
  lemma LapsesAfter(company: string, runs: map<Pair, int>, stamp: int, now: int)
    ensures
      var hour := 60 * 60 * 1_000_000;
      var hours := (job: Job, n: int) =>
        (Lapsed(runs[Pair(company, job) := stamp], Pair(company, job), now) <==> now - stamp >= n * hour);
      && hours(HealthHourly, 1) && hours(DailySummary, 24) && hours(WeeklyExecutive, 7 * 24)
      && hours(MonthlyForecast, 30 * 24) && hours(QuarterlyTrend, 90 * 24)
  {
  }

  // ---------- progress ----------

  predicate Stamped(runs: map<Pair, int>, pair: Pair, since: int) {
    pair in runs && since <= runs[pair]
  }

  /** Between the two instants no pair becomes due: neither one that was not due at the
      first, nor one that is run in between. */
  ghost predicate Calm(pairs: set<Pair>, runs: map<Pair, int>, since: int, until: int) {
    forall p :: p in pairs ==>
      until - since < Interval(p.job) && (!Due(runs, p, since) ==> !Due(runs, p, until))
  }

  /** Nothing but stamps since that instant separates the two tables. */
  ghost predicate OnlyStamped(runs: map<Pair, int>, runs': map<Pair, int>, since: int) {
    forall p {:trigger Stamped(runs', p, since)} ::
      Stamped(runs', p, since) || ((p in runs <==> p in runs') && (p in runs ==> runs[p] == runs'[p]))
  }

  /** The pairs that were due at the start and have not been attempted since. */
  function Waiting(pairs: set<Pair>, runs: map<Pair, int>, since: int, runs': map<Pair, int>): set<Pair> {
    set p | p in pairs && Due(runs, p, since) && !Stamped(runs', p, since)
  }

  lemma DueIffWaiting(pairs: set<Pair>, runs: map<Pair, int>, since: int, until: int, runs': map<Pair, int>, p: Pair,
                      now: int)
    requires Calm(pairs, runs, since, until) && OnlyStamped(runs, runs', since)
    requires p in pairs && since <= now <= until
    ensures Due(runs', p, now) <==> p in Waiting(pairs, runs, since, runs')
  {
    if Stamped(runs', p, since) {
      assert now - runs'[p] < Interval(p.job);
    }
  }

  lemma RunJobStamps(runs: map<Pair, int>, s: State, pair: Pair, clock: Clock, pairs: set<Pair>, since: int)
    requires Monotone(clock) && since <= clock(s.readings) && OnlyStamped(runs, s.runs, since)
    ensures OnlyStamped(runs, RunJob(s, pair, clock).runs, since)
    ensures Waiting(pairs, runs, since, RunJob(s, pair, clock).runs) == Waiting(pairs, runs, since, s.runs) - {pair}
  {
    var s' := RunJob(s, pair, clock);
    assert clock(s.readings) <= clock(s.readings + 2);
    forall p
      ensures Stamped(s'.runs, p, since) || ((p in runs <==> p in s'.runs) && (p in runs ==> runs[p] == s'.runs[p]))
    {
      assert p != pair ==> (Stamped(s'.runs, p, since) <==> Stamped(s.runs, p, since));
      assert p == pair ==> Stamped(s'.runs, p, since);
    }
    assert forall p :: p != pair ==> (Stamped(s'.runs, p, since) <==> Stamped(s.runs, p, since));
    assert Stamped(s'.runs, pair, since);
  }

  lemma {:induction false} SweepReadsOn(pairs: seq<Pair>, s: State, fails: set<Pair>, clock: Clock)
    ensures s.readings <= Sweep(pairs, s, fails, clock).0.readings
  {
    if pairs != [] {
      SweepReadsOn(pairs[1..], Skip(s), fails, clock);
      SweepReadsOn(pairs[1..], RunJob(s, pairs[0], clock), fails, clock);
    }
  }

  /** A sweep attempts every waiting pair it visits, or stops having attempted one. */
  lemma {:induction false} SweepProgress(all: set<Pair>, runs: map<Pair, int>, since: int, until: int,
                                         pairs: seq<Pair>, s: State, fails: set<Pair>, clock: Clock)
    requires Monotone(clock) && Calm(all, runs, since, until) && OnlyStamped(runs, s.runs, since)
    requires since <= clock(s.readings) && clock(Sweep(pairs, s, fails, clock).0.readings) <= until
    requires forall p :: p in pairs ==> p in all
    ensures var (s', aborted) := Sweep(pairs, s, fails, clock);
            && OnlyStamped(runs, s'.runs, since)
            && Waiting(all, runs, since, s'.runs) <= Waiting(all, runs, since, s.runs)
            && (!aborted ==> forall p :: p in pairs ==> p !in Waiting(all, runs, since, s'.runs))
            && (aborted ==> Waiting(all, runs, since, s'.runs) < Waiting(all, runs, since, s.runs))
  {
    if pairs != [] {
      var p, rest := pairs[0], pairs[1..];
      SweepReadsOn(pairs, s, fails, clock);
      assert clock(s.readings) <= clock(s.readings + 1) <= clock(s.readings + 3);
      assert clock(s.readings) <= clock(Sweep(pairs, s, fails, clock).0.readings);
      assert pairs == [p] + rest;
      DueIffWaiting(all, runs, since, until, s.runs, p, clock(s.readings));
      if !Due(s.runs, p, clock(s.readings)) {
        SweepProgress(all, runs, since, until, rest, Skip(s), fails, clock);
      } else {
        RunJobStamps(runs, s, p, clock, all, since);
        if p !in fails {
          SweepProgress(all, runs, since, until, rest, RunJob(s, p, clock), fails, clock);
        }
      }
    }
  }

  function SameCompanies(active: seq<string>, fails: seq<set<Pair>>): (ticks: seq<Tick>)
    ensures |ticks| == |fails|
    ensures forall i :: 0 <= i < |fails| ==> ticks[i] == Tick(active, fails[i])
  {
    seq(|fails|, i requires 0 <= i < |fails| => Tick(active, fails[i]))
  }

  lemma {:induction false} TicksReadOn(ticks: seq<Tick>, s: State, clock: Clock)
    ensures s.readings <= RunTicks(ticks, s, clock).readings
  {
    if ticks != [] {
      SweepReadsOn(Grid(ticks[0].active), s, ticks[0].fails, clock);
      TicksReadOn(ticks[1..], Sweep(Grid(ticks[0].active), s, ticks[0].fails, clock).0, clock);
    }
  }

  /** Each tick takes at least one pair off the waiting list, until it is empty. */
  lemma {:induction false} TicksProgress(all: set<Pair>, runs: map<Pair, int>, since: int, until: int,
                                         active: seq<string>, fails: seq<set<Pair>>, s: State, clock: Clock)
    requires Monotone(clock) && Calm(all, runs, since, until) && OnlyStamped(runs, s.runs, since)
    requires since <= clock(s.readings)
    requires clock(RunTicks(SameCompanies(active, fails), s, clock).readings) <= until
    requires forall p :: p in Grid(active) <==> p in all
    ensures var left := Waiting(all, runs, since, RunTicks(SameCompanies(active, fails), s, clock).runs);
            left == {} || |left| + |fails| <= |Waiting(all, runs, since, s.runs)|
  {
    if fails != [] {
      var ticks := SameCompanies(active, fails);
      assert ticks[1..] == SameCompanies(active, fails[1..]);
      var s' := Sweep(Grid(active), s, fails[0], clock).0;
      SweepReadsOn(Grid(active), s, fails[0], clock);
      TicksReadOn(ticks[1..], s', clock);
      assert clock(s.readings) <= clock(s'.readings) <= clock(RunTicks(ticks, s, clock).readings);
      SweepProgress(all, runs, since, until, Grid(active), s, fails[0], clock);
      TicksProgress(all, runs, since, until, active, fails[1..], s', clock);
      ShrinkOrEmpty(Waiting(all, runs, since, s'.runs), Waiting(all, runs, since, s.runs));
    }
  }

  lemma ShrinkOrEmpty<T>(a: set<T>, b: set<T>)
    requires a <= b
    ensures a == {} || a == b || |a| + 1 <= |b|
  {
    if a != b {
      var x :| x in b && x !in a;
      assert a + {x} <= b;
      SubsetSize(a + {x}, b);
    }
  }

  lemma {:induction false} SubsetSize<T>(a: set<T>, b: set<T>)
    requires a <= b
    ensures |a| <= |b|
  {
    if a != {} {
      var x :| x in a;
      SubsetSize(a - {x}, b - {x});
    }
  }

  /** The pairs due at an instant. */
  function DuePairs(pairs: set<Pair>, runs: map<Pair, int>, now: int): set<Pair> {
    set p | p in pairs && Due(runs, p, now)
  }

  /** From D due pairs with none becoming due meanwhile, D ticks attempt them all,
      whichever pairs fail in whichever ticks. */
  lemma AllDueAttempted(s: State, active: seq<string>, fails: seq<set<Pair>>, clock: Clock, all: set<Pair>, last: State)
    requires Monotone(clock)
    requires forall p :: p in Grid(active) <==> p in all
    requires last == RunTicks(SameCompanies(active, fails), s, clock)
    requires Calm(all, s.runs, clock(s.readings), clock(last.readings))
    requires |DuePairs(all, s.runs, clock(s.readings))| <= |fails|
    ensures forall p :: p in DuePairs(all, s.runs, clock(s.readings)) ==> Stamped(last.runs, p, clock(s.readings))
  {
    var since := clock(s.readings);
    TicksProgress(all, s.runs, since, clock(last.readings), active, fails, s, clock);
    var left := Waiting(all, s.runs, since, last.runs);
    SubsetSize(Waiting(all, s.runs, since, s.runs), DuePairs(all, s.runs, since));
    assert |left| == 0;
    forall p | p in DuePairs(all, s.runs, since)
      ensures Stamped(last.runs, p, since)
    {
      assert p !in left;
    }
  }
}
