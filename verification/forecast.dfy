/** The forecasting engine (kernel/intelligence_engine/forecasting_engine.py) and its
    agreement with the digital twin. */
module Forecasting {
  import opened Exact
  import Ledger
  import opened Replay

  datatype Forecast = Forecast(dailyNetAvg: int, projected30: int, projected90: int)

  function ProjectDays(summary: Summary, days: nat): int {
    RoundHalfEven(summary.balance as real + DailyNet(summary) * days as real)
  }

  function Project(summary: Summary): Forecast {
    Forecast(RoundHalfEven(DailyNet(summary)), ProjectDays(summary, 30), ProjectDays(summary, 90))
  }

  function FindingSeverity(f: Forecast): string {
    if f.projected30 < 0 then "critical" else "info"
  }

  lemma StraightLine(summary: Summary, d: nat)
    ensures BalanceOn(summary, [], d) == summary.balance as real + DailyNet(summary) * d as real
  {
  }

  lemma StraightLineWhole(summary: Summary, months: nat)
    ensures BalanceOn(summary, [], 30 * months) == (summary.balance + months * summary.net30) as real
  {
    var n := DailyNet(summary);
    assert n * 30.0 == summary.net30 as real;
    StraightLine(summary, 30 * months);
    assert n * (30 * months) as real == n * 30.0 * months as real;
    assert summary.net30 as real * months as real == (months * summary.net30) as real;
  }

  lemma ProjectWhole(summary: Summary, months: nat)
    ensures ProjectDays(summary, 30 * months) == summary.balance + months * summary.net30
  {
    StraightLineWhole(summary, months);
    StraightLine(summary, 30 * months);
    RoundWhole(summary.balance + months * summary.net30);
  }

  /** Both projections are whole cents: the average is taken over thirty days and projected
      over one or three times thirty, so nothing is ever rounded. */
  lemma ProjectionsAreWhole(summary: Summary)
    ensures Project(summary).projected30 == summary.balance + summary.net30
    ensures Project(summary).projected90 == summary.balance + 3 * summary.net30
  {
    ProjectWhole(summary, 1);
    ProjectWhole(summary, 3);
  }

  lemma EndsWhole(summary: Summary, months: nat, r: Report)
    ensures IsReport(summary, Projection(summary, []), 30 * months, r) ==>
              r.endingBalance == summary.balance + months * summary.net30
  {
    StraightLineWhole(summary, months);
    RoundWhole(summary.balance + months * summary.net30);
  }

  /** Without scenarios the replay ends on the forecast, whatever the summary. */
  lemma ReplayEndsOnForecast(summary: Summary, r30: Report, r90: Report)
    ensures IsReport(summary, Projection(summary, []), 30, r30) ==>
              r30.endingBalance == Project(summary).projected30 && r30.dailyNet == Project(summary).dailyNetAvg
    ensures IsReport(summary, Projection(summary, []), 90, r90) ==>
              r90.endingBalance == Project(summary).projected90 && r90.dailyNet == Project(summary).dailyNetAvg
  {
    ProjectionsAreWhole(summary);
    EndsWhole(summary, 1, r30);
    EndsWhole(summary, 3, r90);
  }

  lemma FallingLine(summary: Summary, d: nat)
    requires summary.balance >= 0 && d <= 30 && BalanceOn(summary, [], d) < 0.0
    ensures BalanceOn(summary, [], 30) < 0.0
  {
    var n := DailyNet(summary);
    StraightLine(summary, d);
    StraightLine(summary, 30);
    assert n >= 0.0 ==> n * d as real >= 0.0;
    assert n < 0.0 ==> n * (30 - d) as real <= 0.0;
    assert n * 30 as real == n * d as real + n * (30 - d) as real;
  }

  /** The thirty-day replay goes negative on some day exactly when the forecast finding is
      critical, unless the account is overdrawn and recovers within the month. */
  lemma NegativeIffForecastCritical(summary: Summary, r: Report)
    ensures IsReport(summary, Projection(summary, []), 30, r) ==>
              ((r.goesNegativeOn.Some? <==> FindingSeverity(Project(summary)) == "critical")
               <==> summary.balance >= 0 || summary.balance + summary.net30 < 0)
  {
    var bal := Projection(summary, []);
    ProjectionsAreWhole(summary);
    StraightLineWhole(summary, 1);
    StraightLine(summary, 0);
    if IsFirstNegative(bal, 31, r.goesNegativeOn) {
      if r.goesNegativeOn.Some? && summary.balance >= 0 {
        assert bal(r.goesNegativeOn.value) < 0.0;
        FallingLine(summary, r.goesNegativeOn.value);
      } else if r.goesNegativeOn.None? {
        assert bal(30) >= 0.0 && bal(0) >= 0.0;
      }
    }
  }

  /** There the two differ: an overdrawn account that recovers is negative on day 0
      while its forecast is not critical. */
  lemma OverdrawnRecovery()
    ensures var summary := Ledger.Summary(-100, 200, 0, 200, 0, 1);
            && BalanceOn(summary, [], 0) < 0.0
            && FindingSeverity(Project(summary)) == "info"
  {
    var summary := Ledger.Summary(-100, 200, 0, 200, 0, 1);
    StraightLine(summary, 0);
    ProjectionsAreWhole(summary);
  }
}
