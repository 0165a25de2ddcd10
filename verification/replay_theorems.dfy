/** What every report of the digital twin satisfies. */
module ReplayTheorems {
  import opened Common
  import opened Exact
  import opened Replay

  // ---------- reordering scenarios ----------

  lemma {:induction false} AppliedConcat(a: seq<Scenario>, b: seq<Scenario>, d: nat)
    ensures Applied(a + b, d) == Applied(a, d) + Applied(b, d)
  {
    if b == [] {
      assert a + b == a;
    } else {
      AppliedConcat(a, b[..|b| - 1], d);
      assert (a + b)[..|a + b| - 1] == a + b[..|b| - 1];
    }
  }

  lemma AppliedSingle(s: Scenario, d: nat)
    ensures Applied([s], d) == Contribution(s, d)
  {
    assert [s][..0] == [];
  }

  lemma RemoveOne<T>(a: seq<T>, front: seq<T>, x: T, back: seq<T>)
    requires multiset(a + [x]) == multiset(front + ([x] + back))
    ensures multiset(a) == multiset(front + back)
  {
    assert multiset(a) == multiset(a + [x]) - multiset{x};
    assert multiset(front + ([x] + back)) == multiset(front) + multiset{x} + multiset(back);
  }

  lemma {:induction false} AppliedReordered(a: seq<Scenario>, b: seq<Scenario>, d: nat)
    requires multiset(a) == multiset(b)
    ensures Applied(a, d) == Applied(b, d)
  {
    if a == [] {
      assert |multiset(b)| == 0;
    } else {
      var s := a[|a| - 1];
      var a' := a[..|a| - 1];
      assert a == a' + [s];
      assert s in multiset(b);
      var i :| 0 <= i < |b| && b[i] == s;
      var front, back := b[..i], b[i + 1..];
      assert b == front + ([s] + back);
      RemoveOne(a', front, s, back);
      AppliedReordered(a', front + back, d);
      AppliedConcat(front, back, d);
      AppliedConcat([s], back, d);
      AppliedConcat(front, [s] + back, d);
      AppliedSingle(s, d);
    }
  }

  /** The order in which scenarios are listed never changes any day of any run. */
  lemma ReorderingChangesNoDay(summary: Summary, a: seq<Scenario>, b: seq<Scenario>, h: nat, r: Report)
    requires multiset(a) == multiset(b)
    ensures forall d: nat :: BalanceOn(summary, a, d) == BalanceOn(summary, b, d)
    ensures IsReport(summary, Projection(summary, a), h, r) <==> IsReport(summary, Projection(summary, b), h, r)
  {
    forall d: nat
      ensures BalanceOn(summary, a, d) == BalanceOn(summary, b, d)
    {
      AppliedReordered(a, b, d);
    }
    var p, q := Projection(summary, a), Projection(summary, b);
    forall d: nat
      ensures p(d) == q(d)
    {
    }
    if IsReport(summary, p, h, r) {
      SameCourse(summary, p, q, h, r);
    }
    if IsReport(summary, q, h, r) {
      SameCourse(summary, q, p, h, r);
    }
  }

  lemma SameCourse(summary: Summary, p: Course, q: Course, h: nat, r: Report)
    requires forall d: nat :: p(d) == q(d)
    requires IsReport(summary, p, h, r)
    ensures IsReport(summary, q, h, r)
  {
  }

  // ---------- the firing rule against its comment ----------

  /** What simulator.py's comments say: a one-time scenario lands on its day,
      a recurring one on its offset and every frequency days after, day 0 included. */
  function Announced(s: Scenario, d: nat): nat {
    |DueDays(s, d)|
  }

  function DueDays(s: Scenario, d: nat): set<nat> {
    set day: nat | day <= d && FiresOn(s, day)
  }

  lemma DueDaysStep(s: Scenario, d: nat)
    ensures |DueDays(s, d + 1)| == |DueDays(s, d)| + if FiresOn(s, d + 1) then 1 else 0
  {
    assert DueDays(s, d + 1) == DueDays(s, d) + if FiresOn(s, d + 1) then {d + 1} else {};
  }

  lemma {:induction false} AnnouncedIsFiresAndDayZero(s: Scenario, d: nat)
    ensures Announced(s, d) == Fires(s, d) + if FiresOn(s, 0) then 1 else 0
  {
    if d == 0 {
      assert DueDays(s, d) == if FiresOn(s, 0) then {0} else {};
    } else {
      AnnouncedIsFiresAndDayZero(s, d - 1);
      FiresStep(s, d - 1);
      DueDaysStep(s, d - 1);
    }
  }

  /** The loop applies a scenario as often as announced exactly when nothing is due on
      day 0, which the loop skips; `day_offset` 0, the default, is such a case. */
  lemma AppliedAsAnnouncedIffNotDueOnDayZero(s: Scenario, d: nat)
    ensures Fires(s, d) == Announced(s, d) <==> !FiresOn(s, 0)
    ensures s.dayOffset == 0 ==> FiresOn(s, 0)
    ensures s.kind.OneTime? && s.dayOffset == 0 ==> Fires(s, d) == 0
  {
    AnnouncedIsFiresAndDayZero(s, d);
  }

  // ---------- the shape of a report ----------

  lemma NegativeIffMinimumNegative(bal: Course, upTo: nat, m: nat, g: Option<nat>)
    requires IsFirstMinimum(bal, upTo, m) && IsFirstNegative(bal, upTo, g)
    ensures g.Some? <==> bal(m) < 0.0
    ensures g.Some? ==> g.value <= m
  {
    assert g.Some? && m < g.value ==> bal(m) >= 0.0;
  }

  lemma {:induction false} SeriesPrefixesAgree(bal: Course, h: nat, a: seq<Point>, b: seq<Point>, n: nat)
    requires IsSeries(bal, h, h + 1, a) && IsSeries(bal, h, h + 1, b)
    requires n <= |a| && n <= |b|
    ensures forall i :: 0 <= i < n ==> a[i] == b[i]
  {
    if n > 0 {
      SeriesPrefixesAgree(bal, h, a, b, n - 1);
      NextPointSame(bal, h, a, b, n - 1);
    }
  }

  lemma NextPointSame(bal: Course, h: nat, a: seq<Point>, b: seq<Point>, n: nat)
    requires IsSeries(bal, h, h + 1, a) && IsSeries(bal, h, h + 1, b)
    requires n < |a| && n < |b|
    requires forall i :: 0 <= i < n ==> a[i] == b[i]
    ensures a[n] == b[n]
  {
    NextPointNotLater(bal, h, a, b, n);
    NextPointNotLater(bal, h, b, a, n);
  }

  lemma NextPointNotLater(bal: Course, h: nat, a: seq<Point>, b: seq<Point>, n: nat)
    requires IsSeries(bal, h, h + 1, a) && IsSeries(bal, h, h + 1, b)
    requires n < |a| && n <= |b|
    requires forall i :: 0 <= i < n ==> a[i] == b[i]
    ensures n < |b| && b[n].day <= a[n].day
  {
    assert Shown(b, a[n].day);
    var j :| 0 <= j < |b| && b[j].day == a[n].day;
    var earlier, here := a[if j < n then j else n].day, a[n].day;
    assert j < n ==> earlier < here;
    if n < j {
      assert b[n].day < b[j].day;
    }
  }

  lemma FirstNegativeUnique(bal: Course, upTo: nat, g: Option<nat>, e: Option<nat>)
    requires IsFirstNegative(bal, upTo, g) && IsFirstNegative(bal, upTo, e)
    ensures g == e
  {
    var n := Default(g, 0);
    var k := Default(e, 0);
    assert g.Some? && e.None? ==> bal(n) >= 0.0;
    assert e.Some? && g.None? ==> bal(k) >= 0.0;
    assert g.Some? && e.Some? && n < k ==> bal(n) >= 0.0;
    assert g.Some? && e.Some? && k < n ==> bal(k) >= 0.0;
  }

  lemma SeriesUnique(bal: Course, h: nat, a: seq<Point>, b: seq<Point>)
    requires IsSeries(bal, h, h + 1, a) && IsSeries(bal, h, h + 1, b)
    ensures a == b
  {
    if |a| < |b| {
      SeriesPrefixesAgree(bal, h, a, b, |a|);
      NextPointNotLater(bal, h, b, a, |a|);
    } else if |b| < |a| {
      SeriesPrefixesAgree(bal, h, a, b, |b|);
      NextPointNotLater(bal, h, a, b, |b|);
    } else {
      SeriesPrefixesAgree(bal, h, a, b, |a|);
    }
  }

  /** The specification leaves no freedom: a run has one report. */
  lemma ReportUnique(summary: Summary, bal: Course, h: nat, r: Report, s: Report)
    requires IsReport(summary, bal, h, r) && IsReport(summary, bal, h, s)
    ensures r == s
  {
    var m, k := r.minBalanceDay, s.minBalanceDay;
    assert m < k ==> bal(k) < bal(m);
    assert k < m ==> bal(m) < bal(k);
    FirstNegativeUnique(bal, h + 1, r.goesNegativeOn, s.goesNegativeOn);
    SeriesUnique(bal, h, r.series, s.series);
  }

  /** Point i lies on or after day i * stride, unless it is the last one. */
  lemma {:induction false} PointsAreStridesApart(bal: Course, h: nat, series: seq<Point>, i: nat)
    requires IsSeries(bal, h, h + 1, series) && i < |series|
    requires i + 1 < |series|
    ensures series[i].day >= i * Stride(h)
  {
    if i > 0 {
      PointsAreStridesApart(bal, h, series, i - 1);
      var k := Stride(h);
      var p, q := series[i - 1].day, series[i].day;
      assert p < q && q < series[i + 1].day <= h;
      assert p % k == 0 && q % k == 0;
      MultiplesApart(p, q, k);
      assert i * k == (i - 1) * k + k;
    }
  }

  lemma MultiplesApart(p: nat, q: nat, k: nat)
    requires 1 <= k && p < q && p % k == 0 && q % k == 0
    ensures p + k <= q
  {
    var a, b := p / k, q / k;
    assert p == a * k && q == b * k;
    assert (b - a) * k == q - p;
    MulAtLeast(b - a, k);
  }

  /** The sampled series starts on day 0, ends on the horizon and holds at most sixty points. */
  lemma SeriesShape(bal: Course, h: nat, series: seq<Point>)
    requires 1 <= h && IsSeries(bal, h, h + 1, series)
    ensures 2 <= |series| <= 60
    ensures series[0].day == 0 && series[|series| - 1].day == h
  {
    assert Shown(series, 0) && Shown(series, h);
    var i :| 0 <= i < |series| && series[i].day == 0;
    var j :| 0 <= j < |series| && series[j].day == h;
    var n := |series|;
    var first, last, atI, atJ := series[0].day, series[n - 1].day, series[i].day, series[j].day;
    assert j < n - 1 ==> atJ < last;
    assert 0 < i ==> first < atI;
    assert Sampled(h, last) && last < h + 1;
    PointsAreStridesApart(bal, h, series, n - 2);
    assert series[n - 2].day < h;
    StrideBound(h, n - 2);
  }

  lemma StrideBound(h: nat, i: nat)
    ensures 59 <= i ==> h <= i * Stride(h)
  {
    var k := Stride(h);
    if 59 <= i {
      assert i * k == 59 * k + (i - 59) * k;
      assert (i - 59) * k >= 0;
    }
  }

  ghost predicate SomeMultiple(day: nat, step: nat) {
    exists n: nat :: IsMultiple(day, step, n)
  }

  predicate IsMultiple(day: nat, step: nat, n: nat) {
    n * step == day
  }

  /** The days shown are the last, and of the others every day for a horizon below sixty and every
      thirtieth part of it, rounded down, for a longer one. */
  lemma SampledIff(h: nat, day: nat)
    ensures Sampled(h, day) <==>
              day <= h && (day == h || SomeMultiple(day, if h < 60 then 1 else h / 30))
  {
    var stride := if h < 60 then 1 else h / 30;
    assert Stride(h) == stride;
    if day % stride == 0 {
      assert IsMultiple(day, stride, day / stride);
    }
    if n: nat :| IsMultiple(day, stride, n) {
      DivUnique(day, stride, n, 0);
    }
  }
}
