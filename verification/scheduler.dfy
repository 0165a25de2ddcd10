/** The intelligence scheduler (kernel/intelligence_engine/scheduler.py). Time is read
    from one clock that never runs backwards; reading n is clock(n), in microseconds. */
module Scheduler {
  import opened Spacing

  datatype Job = HealthHourly | DailySummary | WeeklyExecutive | MonthlyForecast | QuarterlyTrend

  const JOBS := [HealthHourly, DailySummary, WeeklyExecutive, MonthlyForecast, QuarterlyTrend]

  const HOUR := 3_600_000_000

  function Interval(job: Job): nat {
    match job
    case HealthHourly => HOUR
    case DailySummary => 24 * HOUR
    case WeeklyExecutive => 7 * 24 * HOUR
    case MonthlyForecast => 30 * 24 * HOUR
    case QuarterlyTrend => 90 * 24 * HOUR
  }

  datatype Pair = Pair(company: string, job: Job)

  datatype Start = Start(pair: Pair, at: int)

  /** intelligence_job_runs, how many clock readings were taken, and every start so far. */
  datatype State = State(runs: map<Pair, int>, readings: nat, starts: seq<Start>)

  predicate Due(runs: map<Pair, int>, pair: Pair, now: int) {
    pair !in runs || now - runs[pair] >= Interval(pair.job)
  }

  /** The due check is one reading, the start of the job the next, its stamp the one after. */
  function Skip(s: State): State {
    s.(readings := s.readings + 1)
  }

  function RunJob(s: State, pair: Pair, clock: Clock): State {
    State(s.runs[pair := clock(s.readings + 2)], s.readings + 3, s.starts + [Start(pair, clock(s.readings + 1))])
  }

  /** Visit the pairs in order; `fails` are those whose job raises, which stamps and aborts. */
  function Sweep(pairs: seq<Pair>, s: State, fails: set<Pair>, clock: Clock): (State, bool) {
    if pairs == [] then (s, false)
    else if !Due(s.runs, pairs[0], clock(s.readings)) then Sweep(pairs[1..], Skip(s), fails, clock)
    else if pairs[0] in fails then (RunJob(s, pairs[0], clock), true)
    else Sweep(pairs[1..], RunJob(s, pairs[0], clock), fails, clock)
  }

  lemma {:induction false} SweepConcat(a: seq<Pair>, b: seq<Pair>, s: State, fails: set<Pair>, clock: Clock)
    ensures var (s', aborted) := Sweep(a, s, fails, clock);
            Sweep(a + b, s, fails, clock) == if aborted then (s', true) else Sweep(b, s', fails, clock)
  {
    if a == [] {
      assert a + b == b;
    } else {
      assert (a + b)[0] == a[0] && (a + b)[1..] == a[1..] + b;
      if !Due(s.runs, a[0], clock(s.readings)) {
        SweepConcat(a[1..], b, Skip(s), fails, clock);
      } else if a[0] !in fails {
        SweepConcat(a[1..], b, RunJob(s, a[0], clock), fails, clock);
      }
    }
  }

  function JobsOf(company: string, jobs: seq<Job>): (r: seq<Pair>)
    ensures |r| == |jobs| && forall i :: 0 <= i < |r| ==> r[i] == Pair(company, jobs[i])
  {
    seq(|jobs|, i requires 0 <= i < |jobs| => Pair(company, jobs[i]))
  }

  function Grid(companies: seq<string>): seq<Pair> {
    if companies == [] then [] else JobsOf(companies[0], JOBS) + Grid(companies[1..])
  }

  // ---------- what a sweep promises, apart from how it is computed ----------

  predicate AllDiffer<T(==)>(s: seq<T>) {
    forall i, j :: 0 <= i < j < |s| ==> s[i] != s[j]
  }

  /** The table has no stamp for the pair, or one at least the interval old. */
  predicate Lapsed(runs: map<Pair, int>, pair: Pair, now: int) {
    pair in runs ==> runs[pair] + Interval(pair.job) <= now
  }

  /** The reading at which pair i is checked: a check is one reading, a start and its stamp two more. */
  function Check(pairs: seq<Pair>, s: State, clock: Clock, i: nat): nat
    requires i <= |pairs|
  {
    if i == 0 then s.readings
    else
      var before := Check(pairs, s, clock, i - 1);
      before + if Lapsed(s.runs, pairs[i - 1], clock(before)) then 3 else 1
  }

  /** At its own check pair i has lapsed. */
  predicate IsLapsed(pairs: seq<Pair>, s: State, clock: Clock, i: nat)
    requires i < |pairs|
  {
    Lapsed(s.runs, pairs[i], clock(Check(pairs, s, clock, i)))
  }

  /** What has been started of the first n pairs. */
  function Starts(pairs: seq<Pair>, s: State, clock: Clock, n: nat): seq<Start>
    requires n <= |pairs|
  {
    if n == 0 then []
    else
      Starts(pairs, s, clock, n - 1)
      + if IsLapsed(pairs, s, clock, n - 1)
        then [Start(pairs[n - 1], clock(Check(pairs, s, clock, n - 1) + 1))] else []
  }

  function Stamps(pairs: seq<Pair>, s: State, clock: Clock, n: nat): map<Pair, int>
    requires n <= |pairs|
  {
    if n == 0 then s.runs
    else if IsLapsed(pairs, s, clock, n - 1)
    then Stamps(pairs, s, clock, n - 1)[pairs[n - 1] := clock(Check(pairs, s, clock, n - 1) + 2)]
    else Stamps(pairs, s, clock, n - 1)
  }

  function Visited(pairs: seq<Pair>, s: State, clock: Clock, n: nat): State
    requires n <= |pairs|
  {
    State(Stamps(pairs, s, clock, n), Check(pairs, s, clock, n), s.starts + Starts(pairs, s, clock, n))
  }

  /** Pair i is started and its job raises. */
  predicate Breaks(pairs: seq<Pair>, s: State, fails: set<Pair>, clock: Clock, i: nat)
    requires i < |pairs|
  {
    IsLapsed(pairs, s, clock, i) && pairs[i] in fails
  }

  /** The sweep got through the first n pairs: to the end, or to the first whose job raises. */
  ghost predicate Sweeps(pairs: seq<Pair>, s: State, fails: set<Pair>, clock: Clock, s': State, aborted: bool, n: nat) {
    && n <= |pairs| && s' == Visited(pairs, s, clock, n)
    && (if aborted then n > 0 && Breaks(pairs, s, fails, clock, n - 1) else n == |pairs|)
    && forall i :: 0 <= i < (if aborted then n - 1 else n) ==> !Breaks(pairs, s, fails, clock, i)
  }

  lemma {:induction false} StampOfLater(pairs: seq<Pair>, s: State, clock: Clock, n: nat)
    requires n < |pairs| && AllDiffer(pairs)
    ensures pairs[n] in Stamps(pairs, s, clock, n) <==> pairs[n] in s.runs
    ensures pairs[n] in s.runs ==> Stamps(pairs, s, clock, n)[pairs[n]] == s.runs[pairs[n]]
  {
    StampElsewhere(pairs, s, clock, n, pairs[n]);
  }

  lemma {:induction false} StampElsewhere(pairs: seq<Pair>, s: State, clock: Clock, n: nat, p: Pair)
    requires n <= |pairs| && forall i :: 0 <= i < n ==> pairs[i] != p
    ensures p in Stamps(pairs, s, clock, n) <==> p in s.runs
    ensures p in s.runs ==> Stamps(pairs, s, clock, n)[p] == s.runs[p]
  {
    if n > 0 {
      StampElsewhere(pairs, s, clock, n - 1, p);
    }
  }

  lemma SweepOne(p: Pair, s: State, fails: set<Pair>, clock: Clock)
    ensures Sweep([p], s, fails, clock)
         == if !Lapsed(s.runs, p, clock(s.readings)) then (Skip(s), false)
            else (RunJob(s, p, clock), p in fails)
  {
    assert [p][1..] == [];
  }

  lemma VisitNext(pairs: seq<Pair>, s: State, fails: set<Pair>, clock: Clock, n: nat)
    requires n < |pairs| && AllDiffer(pairs)
    ensures Sweep([pairs[n]], Visited(pairs, s, clock, n), fails, clock)
         == (Visited(pairs, s, clock, n + 1), Breaks(pairs, s, fails, clock, n))
  {
    var before := Visited(pairs, s, clock, n);
    StampOfLater(pairs, s, clock, n);
    SweepOne(pairs[n], before, fails, clock);
    assert s.starts + Starts(pairs, s, clock, n) + [Start(pairs[n], clock(before.readings + 1))]
        == s.starts + (Starts(pairs, s, clock, n) + [Start(pairs[n], clock(before.readings + 1))]);
    assert Starts(pairs, s, clock, n) + [] == Starts(pairs, s, clock, n);
  }

  lemma {:induction false} SweepGetsTo(pairs: seq<Pair>, s: State, fails: set<Pair>, clock: Clock, n: nat)
    requires n <= |pairs| && AllDiffer(pairs)
    requires forall i :: 0 <= i < n ==> !Breaks(pairs, s, fails, clock, i)
    ensures Sweep(pairs[..n], s, fails, clock) == (Visited(pairs, s, clock, n), false)
  {
    if n == 0 {
      assert pairs[..0] == [] && s.starts + [] == s.starts;
    } else {
      SweepGetsTo(pairs, s, fails, clock, n - 1);
      SweepConcat(pairs[..n - 1], [pairs[n - 1]], s, fails, clock);
      assert pairs[..n] == pairs[..n - 1] + [pairs[n - 1]];
      VisitNext(pairs, s, fails, clock, n - 1);
    }
  }

  lemma {:induction false} FirstBreak(pairs: seq<Pair>, s: State, fails: set<Pair>, clock: Clock, n: nat)
    returns (k: nat)
    requires n <= |pairs|
    ensures k <= n && forall i :: 0 <= i < k ==> !Breaks(pairs, s, fails, clock, i)
    ensures k < n ==> Breaks(pairs, s, fails, clock, k)
  {
    if n == 0 {
      k := 0;
    } else {
      k := FirstBreak(pairs, s, fails, clock, n - 1);
      if k == n - 1 && !Breaks(pairs, s, fails, clock, n - 1) {
        k := n;
      }
    }
  }

  /** A sweep of pairs that differ. */
  lemma SweepSweeps(pairs: seq<Pair>, s: State, fails: set<Pair>, clock: Clock) returns (n: nat)
    requires AllDiffer(pairs)
    ensures Sweeps(pairs, s, fails, clock, Sweep(pairs, s, fails, clock).0, Sweep(pairs, s, fails, clock).1, n)
  {
    var k := FirstBreak(pairs, s, fails, clock, |pairs|);
    SweepGetsTo(pairs, s, fails, clock, k);
    if k == |pairs| {
      n := k;
      assert pairs[..k] == pairs;
    } else {
      n := k + 1;
      VisitNext(pairs, s, fails, clock, k);
      SweepConcat(pairs[..k], [pairs[k]], s, fails, clock);
      SweepConcat(pairs[..k + 1], pairs[k + 1..], s, fails, clock);
      assert pairs[..k + 1] == pairs[..k] + [pairs[k]];
      assert pairs == pairs[..k + 1] + pairs[k + 1..];
    }
  }

  lemma {:induction false} GridMembers(companies: seq<string>, p: Pair)
    ensures p in Grid(companies) <==> p.company in companies && p.job in JOBS
  {
    if companies != [] {
      GridMembers(companies[1..], p);
      assert companies == [companies[0]] + companies[1..];
      var row := JobsOf(companies[0], JOBS);
      if p.company == companies[0] && p.job in JOBS {
        var i :| 0 <= i < |JOBS| && JOBS[i] == p.job;
        assert row[i] == p;
      }
    }
  }

  lemma JobsDiffer(company: string)
    ensures AllDiffer(JobsOf(company, JOBS))
  {
    assert AllDiffer(JOBS);
  }

  /** Of companies that differ, the grid has each pair once. */
  lemma {:induction false} GridDiffers(companies: seq<string>)
    requires AllDiffer(companies)
    ensures AllDiffer(Grid(companies))
  {
    if companies != [] {
      var row, rest := JobsOf(companies[0], JOBS), Grid(companies[1..]);
      GridDiffers(companies[1..]);
      JobsDiffer(companies[0]);
      forall i, j | 0 <= i < |row| && 0 <= j < |rest|
        ensures row[i] != rest[j]
      {
        GridMembers(companies[1..], rest[j]);
        assert rest[j] in rest;
      }
    }
  }

  /** The outcome is that of getting through some first n pairs. */
  ghost predicate SweepsSome(pairs: seq<Pair>, s: State, fails: set<Pair>, clock: Clock, s': State, aborted: bool) {
    exists n :: Sweeps(pairs, s, fails, clock, s', aborted, n)
  }

  lemma GridSweeps(active: seq<string>, s: State, fails: set<Pair>, clock: Clock)
    ensures
      var outcome := Sweep(Grid(active), s, fails, clock);
      AllDiffer(active) ==> SweepsSome(Grid(active), s, fails, clock, outcome.0, outcome.1)
  {
    if AllDiffer(active) {
      GridDiffers(active);
      var n := SweepSweeps(Grid(active), s, fails, clock);
      assert Sweeps(Grid(active), s, fails, clock, Sweep(Grid(active), s, fails, clock).0,
                    Sweep(Grid(active), s, fails, clock).1, n);
    }
  }

  datatype Tick = Tick(active: seq<string>, fails: set<Pair>)

  function RunTicks(ticks: seq<Tick>, s: State, clock: Clock): State {
    if ticks == [] then s
    else RunTicks(ticks[1..], Sweep(Grid(ticks[0].active), s, ticks[0].fails, clock).0, clock)
  }

  class IntelligenceScheduler {
    var jobRuns: map<Pair, int>
    var readings: nat
    ghost var starts: seq<Start>

    ghost function Now(): State
      reads this
    {
      State(jobRuns, readings, starts)
    }

    constructor ()
      ensures Now() == State(map[], 0, [])
    {
      jobRuns, readings, starts := map[], 0, [];
    }

    method IsDue(pair: Pair, clock: Clock) returns (due: bool)
      modifies this`readings
      ensures due <==> Lapsed(jobRuns, pair, clock(old(readings)))
      ensures readings == old(readings) + 1
    {
      var now := clock(readings);
      readings := readings + 1;
      return pair !in jobRuns || now - jobRuns[pair] >= Interval(pair.job);
    }

    /** The job's own work is outside the model but for whether it raises; either way
        the `finally` stamps the pair. */
    method RunDueJob(pair: Pair, raises: bool, clock: Clock) returns (raised: bool)
      requires readings > 0
      modifies this
      ensures Now() == RunJob(old(Now()).(readings := old(readings) - 1), pair, clock)
      ensures raised == raises
    {
      starts := starts + [Start(pair, clock(readings))];
      readings := readings + 1;
      raised := raises;
      jobRuns := jobRuns[pair := clock(readings)];
      readings := readings + 1;
    }

    /** The inner loop of `_tick`: the jobs of one company in order. */
    method VisitCompany(company: string, fails: set<Pair>, clock: Clock) returns (aborted: bool)
      modifies this
      ensures (Now(), aborted) == Sweep(JobsOf(company, JOBS), old(Now()), fails, clock)
    {
      ghost var todo := JobsOf(company, JOBS);
      var j := 0;
      assert todo[j..] == todo;
      while j < |JOBS|
        invariant 0 <= j <= |JOBS|
        invariant Sweep(todo[j..], Now(), fails, clock) == Sweep(todo, old(Now()), fails, clock)
      {
        var pair := Pair(company, JOBS[j]);
        assert todo[j..][0] == pair && todo[j..][1..] == todo[j + 1..];
        var due := IsDue(pair, clock);
        if due {
          var raised := RunDueJob(pair, pair in fails, clock);
          if raised {
            return true;
          }
        }
        j := j + 1;
      }
      return false;
    }

    /** `_tick`: every job of every active company in order; an exception ends the tick. */
    method RunTick(active: seq<string>, fails: set<Pair>, clock: Clock) returns (aborted: bool)
      modifies this
      ensures (Now(), aborted) == Sweep(Grid(active), old(Now()), fails, clock)
      ensures AllDiffer(active) ==> SweepsSome(Grid(active), old(Now()), fails, clock, Now(), aborted)
    {
      GridSweeps(active, Now(), fails, clock);
      var i := 0;
      assert active[i..] == active;
      while i < |active|
        invariant 0 <= i <= |active|
        invariant Sweep(Grid(active[i..]), Now(), fails, clock) == Sweep(Grid(active), old(Now()), fails, clock)
      {
        assert active[i..][0] == active[i] && active[i..][1..] == active[i + 1..];
        SweepConcat(JobsOf(active[i], JOBS), Grid(active[i + 1..]), Now(), fails, clock);
        aborted := VisitCompany(active[i], fails, clock);
        if aborted {
          return true;
        }
        i := i + 1;
      }
      return false;
    }

    /** The ticks of `_loop`: one that aborts never ends the loop. */
    method Loop(ticks: seq<Tick>, clock: Clock)
      modifies this
      ensures Now() == RunTicks(ticks, old(Now()), clock)
    {
      var i := 0;
      assert ticks[i..] == ticks;
      while i < |ticks|
        invariant 0 <= i <= |ticks|
        invariant RunTicks(ticks[i..], Now(), clock) == RunTicks(ticks, old(Now()), clock)
      {
        assert ticks[i..][0] == ticks[i] && ticks[i..][1..] == ticks[i + 1..];
        var _ := RunTick(ticks[i].active, ticks[i].fails, clock);
        i := i + 1;
      }
    }
  }
}
