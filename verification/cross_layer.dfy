/** From one recorded row through the summary to every projected day. */
module CrossLayer {
  import opened Common
  import Ledger
  import opened Replay
  import Forecasting

  lemma LineMonotone(a: real, b: real, m: real, n: real, d: real)
    requires a <= b && m <= n && d >= 0.0
    ensures a + m * d <= b + n * d
  {
    assert (n - m) * d >= 0.0;
    assert (n - m) * d == n * d - m * d;
  }

  lemma DailyNetMonotone(s: Summary, t: Summary)
    requires s.net30 <= t.net30
    ensures DailyNet(s) <= DailyNet(t)
  {
  }

  lemma BalanceMonotone(s: Summary, t: Summary, ss: seq<Scenario>, d: nat)
    requires s.balance <= t.balance && s.net30 <= t.net30
    ensures BalanceOn(s, ss, d) <= BalanceOn(t, ss, d)
  {
    DailyNetMonotone(s, t);
    LineMonotone(s.balance as real, t.balance as real, DailyNet(s), DailyNet(t), d as real);
  }

  /** At one instant, recording an inflow lowers no day of any simulation of its company,
      whatever the scenarios, and neither projection of its forecast. */
  lemma InflowLowersNoProjectedDay(rows: seq<Ledger.Txn>, company: string, account: string, amount: int,
                                   category: string, occurredAt: Option<int>, now: int, ss: seq<Scenario>)
    ensures
      var r := Ledger.NewRow(rows, company, account, "inflow", amount, category, occurredAt, now);
      r.Ok? ==>
        var before := Ledger.BalanceSummary(rows, company, now);
        var after := Ledger.BalanceSummary(rows + [r.value], company, now);
        && (forall d: nat :: BalanceOn(before, ss, d) <= BalanceOn(after, ss, d))
        && Forecasting.Project(before).projected30 <= Forecasting.Project(after).projected30
        && Forecasting.Project(before).projected90 <= Forecasting.Project(after).projected90
  {
    var r := Ledger.NewRow(rows, company, account, "inflow", amount, category, occurredAt, now);
    if r.Ok? {
      Ledger.SummaryOfAppend(rows, r.value, company, now);
      var before := Ledger.BalanceSummary(rows, company, now);
      var after := Ledger.BalanceSummary(rows + [r.value], company, now);
      forall d: nat
        ensures BalanceOn(before, ss, d) <= BalanceOn(after, ss, d)
      {
        BalanceMonotone(before, after, ss, d);
      }
      Forecasting.ProjectionsAreWhole(before);
      Forecasting.ProjectionsAreWhole(after);
    }
  }
}
