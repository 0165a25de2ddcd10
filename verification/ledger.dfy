/** The append-only ledger and the health score computed from it
    (financial_graph/graph.py, kernel/rule_engine/engine.py). Amounts are in
    cents, instants in microseconds, averages and ratios exact rationals. */
module Ledger {
  import opened Common
  import opened Exact

  const THIRTY_DAYS := 30 * 24 * 3600 * 1_000_000

  datatype Direction = Inflow | Outflow

  datatype Txn = Txn(company: string, account: string, direction: Direction, amount: int,
                     category: string, isAnomaly: bool, occurredAt: int)

  datatype RecordError = UnknownDirection | AmountNotPositive

  datatype Summary = Summary(balance: int, inflow30: int, outflow30: int, net30: int,
                             anomalies30: nat, transactions30: nat)

  datatype Label = AtRisk | Watch | Strong

  datatype Health = Health(score: int, lbl: Label)

  type Selector = Txn -> bool

  // ---------- aggregates over the rows ----------

  function Sum(rows: seq<Txn>, sel: Selector): int {
    if rows == [] then 0
    else Sum(rows[..|rows| - 1], sel) + if sel(rows[|rows| - 1]) then rows[|rows| - 1].amount else 0
  }

  function Count(rows: seq<Txn>, sel: Selector): nat {
    if rows == [] then 0
    else Count(rows[..|rows| - 1], sel) + if sel(rows[|rows| - 1]) then 1 else 0
  }

  function Of(company: string, direction: Direction): Selector {
    (t: Txn) => t.company == company && t.direction == direction
  }

  function Recent(company: string, now: int): Selector {
    (t: Txn) => t.company == company && t.occurredAt >= now - THIRTY_DAYS
  }

  function RecentOf(company: string, direction: Direction, now: int): Selector {
    (t: Txn) => Of(company, direction)(t) && t.occurredAt >= now - THIRTY_DAYS
  }

  function RecentAnomalies(company: string, now: int): Selector {
    (t: Txn) => Recent(company, now)(t) && t.isAnomaly
  }

  function BalanceSummary(rows: seq<Txn>, company: string, now: int): Summary {
    var in30, out30 := Sum(rows, RecentOf(company, Inflow, now)), Sum(rows, RecentOf(company, Outflow, now));
    Summary(Sum(rows, Of(company, Inflow)) - Sum(rows, Of(company, Outflow)), in30, out30, in30 - out30,
            Count(rows, RecentAnomalies(company, now)), Count(rows, Recent(company, now)))
  }

  function RecentAverageOutflow(rows: seq<Txn>, company: string, now: int): real {
    var n := Count(rows, RecentOf(company, Outflow, now));
    if n == 0 then 0.0 else Sum(rows, RecentOf(company, Outflow, now)) as real / n as real
  }

  // ---------- the anomaly rule and the append ----------

  predicate IsAnomaly(amount: real, recentAverage: real) {
    recentAverage > 0.0 && amount > recentAverage * 3.0
  }

  function ParseDirection(direction: string): Option<Direction> {
    if direction == "inflow" then Some(Inflow)
    else if direction == "outflow" then Some(Outflow)
    else None
  }

  /** The row `record_transaction` inserts at instant `now`. */
  function NewRow(rows: seq<Txn>, company: string, account: string, direction: string, amount: int,
                  category: string, occurredAt: Option<int>, now: int): Result<Txn, RecordError>
  {
    match ParseDirection(direction)
    case None => Err(UnknownDirection)
    case Some(d) =>
      if amount <= 0 then Err(AmountNotPositive)
      else
        var flagged := if d == Outflow
                       then IsAnomaly(amount as real, RecentAverageOutflow(rows, company, now))
                       else IsAnomaly(0.0, 0.0);
        Ok(Txn(company, account, d, amount, category, flagged,
               Default(occurredAt, now)))
  }

  /** An outflow of the company in the thirty days before `now`. */
  predicate InWindow(t: Txn, company: string, now: int) {
    t.company == company && t.direction == Outflow && now - t.occurredAt <= 30 * 24 * 60 * 60 * 1_000_000
  }

  /** How many outflows the window holds and what they come to. */
  function Window(rows: seq<Txn>, company: string, now: int): (nat, int) {
    if rows == [] then (0, 0)
    else
      var n := |rows| - 1;
      var (count, total) := Window(rows[..n], company, now);
      if InWindow(rows[n], company, now) then (count + 1, total + rows[n].amount) else (count, total)
  }

  /** Refused for its direction, else for its amount; else a row of just what was asked for, at the
      given instant or now, flagged when it is an outflow more than three times the average one. */
  predicate Records(rows: seq<Txn>, company: string, account: string, direction: string, amount: int, category: string,
                    occurredAt: Option<int>, now: int, r: Result<Txn, RecordError>)
  {
    if direction != "inflow" && direction != "outflow" then r == Err(UnknownDirection)
    else if amount <= 0 then r == Err(AmountNotPositive)
    else
      var (count, total) := Window(rows, company, now);
      && r.Ok? && r.value.company == company && r.value.account == account && r.value.amount == amount
      && r.value.category == category
      && r.value.direction == (if direction == "inflow" then Inflow else Outflow)
      && r.value.occurredAt == (if occurredAt.Some? then occurredAt.value else now)
      && (r.value.isAnomaly <==> direction == "outflow" && total > 0 && amount * count > 3 * total)
  }

  lemma {:induction false} WindowIs(rows: seq<Txn>, company: string, now: int)
    ensures Window(rows, company, now)
         == (Count(rows, RecentOf(company, Outflow, now)), Sum(rows, RecentOf(company, Outflow, now)))
  {
    if rows != [] {
      var n := |rows| - 1;
      WindowIs(rows[..n], company, now);
      assert Of(company, Outflow)(rows[n]) <==> rows[n].company == company && rows[n].direction == Outflow;
      assert RecentOf(company, Outflow, now)(rows[n]) <==> InWindow(rows[n], company, now);
    }
  }

  lemma AverageExceeded(amount: int, count: nat, total: int)
    requires count > 0
    ensures IsAnomaly(amount as real, total as real / count as real) <==> total > 0 && amount * count > 3 * total
  {
    var average := total as real / count as real;
    assert average * count as real == total as real;
    assert average > 0.0 <==> total > 0 by {
      assert average > 0.0 ==> average * count as real > 0.0;
      assert average <= 0.0 ==> average * count as real <= 0.0;
    }
    assert amount as real > average * 3.0 <==> amount as real * count as real > average * 3.0 * count as real by {
      assert amount as real > average * 3.0 ==> (amount as real - average * 3.0) * count as real > 0.0;
      assert amount as real <= average * 3.0 ==> (amount as real - average * 3.0) * count as real <= 0.0;
    }
    assert average * 3.0 * count as real == 3.0 * total as real;
    assert amount as real * count as real == (amount * count) as real;
  }

  lemma {:induction false} EmptyWindow(rows: seq<Txn>, sel: Selector)
    ensures Count(rows, sel) == 0 ==> Sum(rows, sel) == 0
  {
    if rows != [] {
      EmptyWindow(rows[..|rows| - 1], sel);
    }
  }

  lemma NewRowRecords(rows: seq<Txn>, company: string, account: string, direction: string, amount: int,
                      category: string, occurredAt: Option<int>, now: int)
    ensures Records(rows, company, account, direction, amount, category, occurredAt, now,
                    NewRow(rows, company, account, direction, amount, category, occurredAt, now))
  {
    WindowIs(rows, company, now);
    var (count, total) := Window(rows, company, now);
    EmptyWindow(rows, RecentOf(company, Outflow, now));
    if count > 0 {
      AverageExceeded(amount, count, total);
    }
  }

  // ---------- the score ----------

  function TrendPart(net: int): real {
    if net > 0 then 34.0 else if net == 0 then 17.0 else 0.0
  }

  function Clamp(lo: real, hi: real, x: real): real {
    if x < lo then lo else if x > hi then hi else x
  }

  function RunwayMonths(balance: int, burn: int): real {
    if burn > 0 then balance as real / burn as real else 12.0
  }

  function RunwayPart(balance: int, burn: int): real {
    Clamp(0.0, 33.0, RunwayMonths(balance, burn) * 33.0 / 6.0)
  }

  function Volume(transactions: nat): nat {
    if transactions < 1 then 1 else transactions
  }

  function StabilityPart(anomalies: nat, transactions: nat): real {
    var points := 33.0 - anomalies as real / Volume(transactions) as real * 100.0;
    if points < 0.0 then 0.0 else points
  }

  function Points(s: Summary): real {
    TrendPart(s.net30) + RunwayPart(s.balance, s.outflow30) + StabilityPart(s.anomalies30, s.transactions30)
  }

  function LabelFor(score: int): Label {
    if score >= 70 then Strong else if score >= 40 then Watch else AtRisk
  }

  function HealthOf(s: Summary): Health {
    var score := RoundHalfEven(Points(s));
    Health(score, LabelFor(score))
  }

  function LabelRank(l: Label): nat {
    match l case AtRisk => 0 case Watch => 1 case Strong => 2
  }

  /** Each part keeps to its share, so the final clamp to 0..100 never binds. */
  lemma PartsStayInRange(s: Summary)
    ensures 0.0 <= TrendPart(s.net30) <= 34.0
    ensures 0.0 <= RunwayPart(s.balance, s.outflow30) <= 33.0
    ensures 0.0 <= StabilityPart(s.anomalies30, s.transactions30) <= 33.0
    ensures Clamp(0.0, 100.0, Points(s)) == Points(s)
    ensures 0 <= HealthOf(s).score <= 100
  {
    var ratio := s.anomalies30 as real / Volume(s.transactions30) as real;
    assert ratio >= 0.0;
    RoundMonotone(0.0, Points(s));
    RoundMonotone(Points(s), 100.0);
    RoundWhole(0);
    RoundWhole(100);
  }

  // ---------- the score, apart from how it is computed ----------

  /** Full runway without a burn or from six months' burn up, none from an empty account down, and in
      between thirty-three sixths of a point a month. */
  predicate IsRunway(balance: int, burn: int, points: real) {
    if burn <= 0 || balance >= 6 * burn then points == 33.0
    else if balance <= 0 then points == 0.0
    else points * (6 * burn) as real == (33 * balance) as real
  }

  /** A point off for each percent of the transactions, or of one, that is an anomaly. */
  predicate IsStability(anomalies: nat, transactions: nat, points: real) {
    var volume := if transactions == 0 then 1 else transactions;
    if 100 * anomalies >= 33 * volume then points == 0.0
    else points * volume as real == (33 * volume - 100 * anomalies) as real
  }

  /** The score is the nearest whole number to the sum of its three parts, ties to even, and the
      label is that of its band. */
  ghost predicate ScoredAs(s: Summary, h: Health) {
    && (exists runway, stability ::
          && IsRunway(s.balance, s.outflow30, runway) && IsStability(s.anomalies30, s.transactions30, stability)
          && var trend := if s.net30 > 0 then 34.0 else if s.net30 == 0 then 17.0 else 0.0;
             IsNearest(h.score, trend + runway + stability))
    && (h.lbl == Strong <==> h.score >= 70)
    && (h.lbl == Watch <==> 40 <= h.score < 70)
    && (h.lbl == AtRisk <==> h.score < 40)
  }

  lemma QuotientAgainst(b: real, u: real, months: real, bound: real)
    requires u > 0.0 && months * u == b
    ensures months >= bound <==> b >= bound * u
    ensures months <= bound <==> b <= bound * u
  {
    assert (months - bound) * u == b - bound * u;
    assert months > bound ==> (months - bound) * u > 0.0;
    assert months < bound ==> (months - bound) * u < 0.0;
  }

  lemma BetweenBounds(b: real, u: real, months: real)
    requires months * u == b
    ensures (months * 33.0 / 6.0) * (6.0 * u) == 33.0 * b
  {
    var sixth := months * 33.0 / 6.0;
    assert sixth * 6.0 == months * 33.0;
    assert sixth * (6.0 * u) == (sixth * 6.0) * u;
    assert (months * 33.0) * u == 33.0 * (months * u);
  }

  lemma RunwayIs(balance: int, burn: int)
    ensures IsRunway(balance, burn, RunwayPart(balance, burn))
  {
    if burn > 0 {
      var months := RunwayMonths(balance, burn);
      assert months * burn as real == balance as real;
      QuotientAgainst(balance as real, burn as real, months, 6.0);
      QuotientAgainst(balance as real, burn as real, months, 0.0);
      BetweenBounds(balance as real, burn as real, months);
      assert 6.0 * burn as real == (6 * burn) as real && 33.0 * balance as real == (33 * balance) as real;
    }
  }

  lemma StabilityIs(anomalies: nat, transactions: nat)
    ensures IsStability(anomalies, transactions, StabilityPart(anomalies, transactions))
  {
    var v := Volume(transactions);
    var a, u := anomalies as real, v as real;
    var ratio := a / u;
    assert ratio * u == a;
    var points := 33.0 - ratio * 100.0;
    assert points * u == 33.0 * u - 100.0 * a;
    if 100 * anomalies >= 33 * v {
      assert points > 0.0 ==> points * u > 0.0;
    } else {
      assert points <= 0.0 ==> points * u <= 0.0;
    }
  }

  lemma ScoreIsExact(s: Summary)
    ensures ScoredAs(s, HealthOf(s))
  {
    RunwayIs(s.balance, s.outflow30);
    StabilityIs(s.anomalies30, s.transactions30);
    RoundIsNearest(Points(s), RoundHalfEven(Points(s)));
  }

  // ---------- the graph ----------

  datatype Account = Account(id: string, company: string)

  class FinancialGraph {
    var ledger: seq<Txn>
    var accounts: seq<Account>

    constructor ()
      ensures ledger == [] && accounts == []
    {
      ledger, accounts := [], [];
    }

    /** Get-or-create: the company's oldest account, made only when there is none. */
    method EnsureDefaultAccount(company: string, freshId: string) returns (id: string)
      modifies this`accounts
      ensures old(HasAccount(accounts, company)) ==> accounts == old(accounts)
      ensures !old(HasAccount(accounts, company)) ==> accounts == old(accounts) + [Account(freshId, company)]
      ensures IsDefaultAccount(accounts, company, id)
    {
      var i := 0;
      while i < |accounts|
        invariant 0 <= i <= |accounts|
        invariant forall j :: 0 <= j < i ==> accounts[j].company != company
      {
        if accounts[i].company == company {
          return accounts[i].id;
        }
        i := i + 1;
      }
      accounts := accounts + [Account(freshId, company)];
      assert accounts[i] == Account(freshId, company);
      return freshId;
    }

    /** Nothing already in the ledger is ever changed; at most one row is added. */
    method RecordTransaction(company: string, account: string, direction: string, amount: int,
                             category: string, occurredAt: Option<int>, now: int)
      returns (r: Result<Txn, RecordError>)
      modifies this`ledger
      ensures r == NewRow(old(ledger), company, account, direction, amount, category, occurredAt, now)
      ensures ledger == if r.Ok? then old(ledger) + [r.value] else old(ledger)
      ensures Records(old(ledger), company, account, direction, amount, category, occurredAt, now, r)
    {
      NewRowRecords(ledger, company, account, direction, amount, category, occurredAt, now);
      var d := ParseDirection(direction);
      if d.None? {
        return Err(UnknownDirection);
      }
      var recentAverage := RecentAverageOutflow(ledger, company, now);
      var flagged := if d.value == Outflow then IsAnomaly(amount as real, recentAverage) else IsAnomaly(0.0, 0.0);
      if amount <= 0 {
        return Err(AmountNotPositive);
      }
      var t := Txn(company, account, d.value, amount, category, flagged, Default(occurredAt, now));
      ledger := ledger + [t];
      return Ok(t);
    }

    /** The score, summed part by part as graph.py does. */
    method HealthScore(company: string, now: int) returns (h: Health)
      ensures h == HealthOf(BalanceSummary(ledger, company, now))
      ensures 0 <= h.score <= 100
      ensures ScoredAs(BalanceSummary(ledger, company, now), h)
    {
      var summary := BalanceSummary(ledger, company, now);
      PartsStayInRange(summary);
      var score := 0.0;
      if summary.net30 > 0 {
        score := score + 34.0;
      } else if summary.net30 == 0 {
        score := score + 17.0;
      }
      var months := if summary.outflow30 > 0 then summary.balance as real / summary.outflow30 as real else 12.0;
      score := score + Clamp(0.0, 33.0, months * 33.0 / 6.0);
      var volume := if summary.transactions30 < 1 then 1 else summary.transactions30;
      var stability := 33.0 - summary.anomalies30 as real / volume as real * 100.0;
      score := score + if stability < 0.0 then 0.0 else stability;
      var rounded := RoundHalfEven(Clamp(0.0, 100.0, score));
      ScoreIsExact(summary);
      return Health(rounded, LabelFor(rounded));
    }
  }

  predicate HasAccount(accounts: seq<Account>, company: string) {
    exists i :: 0 <= i < |accounts| && accounts[i].company == company
  }

  ghost predicate IsDefaultAccount(accounts: seq<Account>, company: string, id: string) {
    exists i :: 0 <= i < |accounts| && accounts[i] == Account(id, company)
                && forall j :: 0 <= j < i ==> accounts[j].company != company
  }

  // ---------- theorems ----------

  /** The table's check constraint. */
  predicate PositiveAmounts(rows: seq<Txn>) {
    forall i :: 0 <= i < |rows| ==> rows[i].amount > 0
  }

  lemma {:induction false} SumNotNegative(rows: seq<Txn>, sel: Selector)
    requires PositiveAmounts(rows)
    ensures 0 <= Sum(rows, sel)
    ensures Count(rows, sel) > 0 ==> 0 < Sum(rows, sel)
  {
    if rows != [] {
      SumNotNegative(rows[..|rows| - 1], sel);
    }
  }

  /** Cross-multiplied, an outflow is flagged exactly when the window already holds
      outflows and the amount is more than three times their average. Inflows never are. */
  lemma FlaggedIff(rows: seq<Txn>, company: string, account: string, direction: string, amount: int,
                   category: string, occurredAt: Option<int>, now: int)
    requires PositiveAmounts(rows)
    ensures var r := NewRow(rows, company, account, direction, amount, category, occurredAt, now);
            r.Ok? ==>
              var n := Count(rows, RecentOf(company, Outflow, now));
              var total := Sum(rows, RecentOf(company, Outflow, now));
              r.value.isAnomaly <==> direction == "outflow" && n > 0 && amount * n > 3 * total
  {
    var n := Count(rows, RecentOf(company, Outflow, now));
    var total := Sum(rows, RecentOf(company, Outflow, now));
    SumNotNegative(rows, RecentOf(company, Outflow, now));
    if n > 0 {
      CrossMultiply(amount, total, n);
    }
  }

  lemma CrossMultiply(amount: int, total: int, n: int)
    requires n > 0 && total > 0
    ensures total as real / n as real > 0.0
    ensures amount as real > total as real / n as real * 3.0 <==> amount * n > 3 * total
  {
    var avg := total as real / n as real;
    var k := n as real;
    assert avg * k == total as real;
    ScaleCompare(amount as real, avg * 3.0, k);
    assert avg * 3.0 * k == 3.0 * (avg * k);
    assert amount as real * k == (amount * n) as real;
  }

  lemma ScaleCompare(x: real, y: real, k: real)
    requires k > 0.0
    ensures x > y <==> x * k > y * k
  {
    assert x * k - y * k == (x - y) * k;
  }

  lemma QuotientAtLeast(a: int, b: int, n: nat)
    requires b > 0
    ensures a as real / b as real >= n as real <==> a >= n * b
    ensures a as real / b as real <= n as real <==> a <= n * b
  {
    var q, k := a as real / b as real, b as real;
    assert q * k == a as real;
    ScaleCompare(q, n as real, k);
    ScaleCompare(n as real, q, k);
    assert n as real * k == (n * b) as real;
  }

  /** A hundred points mean a positive month, half a year of runway and no anomaly. */
  lemma FullMarksIff(s: Summary)
    ensures Points(s) == 100.0 <==>
              s.net30 > 0 && (s.outflow30 > 0 ==> s.balance >= 6 * s.outflow30) && s.anomalies30 == 0
  {
    PartsStayInRange(s);
    FullRunwayIff(s.balance, s.outflow30);
    FullStabilityIff(s.anomalies30, s.transactions30);
  }

  lemma FullRunwayIff(balance: int, burn: int)
    ensures RunwayPart(balance, burn) == 33.0 <==> (burn > 0 ==> balance >= 6 * burn)
    ensures RunwayPart(balance, burn) == 0.0 <==> burn > 0 && balance <= 0
  {
    if burn > 0 {
      QuotientAtLeast(balance, burn, 6);
      QuotientAtLeast(balance, burn, 0);
    }
  }

  lemma FullStabilityIff(anomalies: nat, transactions: nat)
    ensures StabilityPart(anomalies, transactions) == 33.0 <==> anomalies == 0
    ensures StabilityPart(anomalies, transactions) == 0.0 <==> 100 * anomalies >= 33 * Volume(transactions)
  {
    PercentAtLeast(anomalies, Volume(transactions));
  }

  lemma PercentAtLeast(part: nat, whole: nat)
    requires whole > 0
    ensures part as real / whole as real * 100.0 >= 33.0 <==> 100 * part >= 33 * whole
    ensures part as real / whole as real * 100.0 > 0.0 <==> part > 0
    ensures part as real / whole as real * 100.0 >= 0.0
  {
    var q, k := part as real / whole as real, whole as real;
    assert q * k == part as real;
    var excess := q * 100.0 - 33.0;
    assert excess * k == (100 * part - 33 * whole) as real by {
      assert excess * k == q * 100.0 * k - 33.0 * k;
      assert q * 100.0 * k == 100.0 * (q * k);
    }
    SameSign(excess, k);
    SameSign(q, k);
  }

  lemma SameSign(x: real, k: real)
    requires k > 0.0
    ensures x * k >= 0.0 <==> x >= 0.0
    ensures x * k > 0.0 <==> x > 0.0
  {
  }

  /** No points mean a losing month, nothing left against a burn, and at least 33
      anomalies to every 100 transactions. */
  lemma NoPointsIff(s: Summary)
    ensures Points(s) == 0.0 <==>
              s.net30 < 0 && s.outflow30 > 0 && s.balance <= 0 && 100 * s.anomalies30 >= 33 * Volume(s.transactions30)
  {
    PartsStayInRange(s);
    FullRunwayIff(s.balance, s.outflow30);
    FullStabilityIff(s.anomalies30, s.transactions30);
  }

  lemma QuotientMonotone(a: real, b: real, k: real)
    requires a <= b && k > 0.0
    ensures a / k <= b / k
  {
    assert (b - a) / k >= 0.0;
    assert b / k - a / k == (b - a) / k;
  }

  lemma QuotientAntitone(a: real, k: real, l: real)
    requires 0.0 <= a && 0.0 < k <= l
    ensures a / l <= a / k
  {
    var q := a / k;
    assert a == q * k;
    assert q >= 0.0;
    assert q * k <= q * l;
    QuotientMonotone(a, q * l, l);
    assert q * l / l == q;
  }

  lemma RunwayMonotone(balance: int, balance': int, burn: int)
    requires balance <= balance'
    ensures RunwayPart(balance, burn) <= RunwayPart(balance', burn)
  {
    if burn > 0 {
      QuotientMonotone(balance as real, balance' as real, burn as real);
    }
  }

  lemma StabilityMonotone(anomalies: nat, volume: nat, volume': nat)
    requires volume <= volume'
    ensures StabilityPart(anomalies, volume) <= StabilityPart(anomalies, volume')
  {
    QuotientAntitone(anomalies as real, Volume(volume) as real, Volume(volume') as real);
  }

  lemma ScoreMonotone(s: Summary, s': Summary)
    requires Points(s) <= Points(s')
    ensures HealthOf(s).score <= HealthOf(s').score
    ensures LabelRank(HealthOf(s).lbl) <= LabelRank(HealthOf(s').lbl)
  {
    RoundMonotone(Points(s), Points(s'));
  }

  /** An empty ledger has nothing in any figure, and a row adds to them as it says: */
  lemma SummaryOfNothing(company: string, now: int)
    ensures BalanceSummary([], company, now) == Summary(0, 0, 0, 0, 0, 0)
  {
  }

  lemma SummaryOfAppend(rows: seq<Txn>, t: Txn, company: string, now: int)
    ensures
      var s, s' := BalanceSummary(rows, company, now), BalanceSummary(rows + [t], company, now);
      var signed := if t.company != company then 0 else if t.direction == Inflow then t.amount else -t.amount;
      var recent := t.occurredAt >= now - THIRTY_DAYS;
      && s'.balance == s.balance + signed
      && s'.net30 == s.net30 + (if recent then signed else 0)
      && s'.inflow30 == s.inflow30 + (if recent && signed != 0 && t.direction == Inflow then t.amount else 0)
      && s'.outflow30 == s.outflow30 + (if recent && signed != 0 && t.direction == Outflow then t.amount else 0)
      && s'.transactions30 == s.transactions30 + (if recent && t.company == company then 1 else 0)
      && s'.anomalies30 == s.anomalies30 + (if recent && t.company == company && t.isAnomaly then 1 else 0)
  {
    assert (rows + [t])[..|rows|] == rows;
  }

  /** The headline: at one instant, an inflow never lowers the score or the label of
      its company, whatever the ledger holds, and leaves every other company's alone. */
  lemma InflowNeverLowersHealth(rows: seq<Txn>, company: string, account: string, amount: int,
                                category: string, occurredAt: Option<int>, now: int, other: string)
    ensures
      var r := NewRow(rows, company, account, "inflow", amount, category, occurredAt, now);
      r.Ok? ==>
        var before, after := BalanceSummary(rows, company, now), BalanceSummary(rows + [r.value], company, now);
        && HealthOf(before).score <= HealthOf(after).score
        && LabelRank(HealthOf(before).lbl) <= LabelRank(HealthOf(after).lbl)
        && (other != company ==>
              BalanceSummary(rows + [r.value], other, now) == BalanceSummary(rows, other, now))
  {
    var r := NewRow(rows, company, account, "inflow", amount, category, occurredAt, now);
    if r.Ok? {
      var s, s' := BalanceSummary(rows, company, now), BalanceSummary(rows + [r.value], company, now);
      SummaryOfAppend(rows, r.value, company, now);
      RunwayMonotone(s.balance, s'.balance, s.outflow30);
      StabilityMonotone(s.anomalies30, s.transactions30, s'.transactions30);
      ScoreMonotone(s, s');
      if other != company {
        SummaryOfAppend(rows, r.value, other, now);
      }
    }
  }

  /** The converse does not hold of outflows: once both the balance and the month are
      in the red, an outflow that is not flagged never lowers the score either,
      because it only dilutes the anomaly ratio. */
  lemma OutflowInTheRedNeverLowersHealth(rows: seq<Txn>, company: string, account: string, amount: int,
                                         category: string, occurredAt: Option<int>, now: int)
    requires PositiveAmounts(rows)
    ensures
      var r := NewRow(rows, company, account, "outflow", amount, category, occurredAt, now);
      var before := BalanceSummary(rows, company, now);
      r.Ok? && !r.value.isAnomaly && before.balance <= 0 && before.net30 < 0 ==>
        HealthOf(before).score <= HealthOf(BalanceSummary(rows + [r.value], company, now)).score
  {
    var r := NewRow(rows, company, account, "outflow", amount, category, occurredAt, now);
    var s := BalanceSummary(rows, company, now);
    if r.Ok? && !r.value.isAnomaly && s.balance <= 0 && s.net30 < 0 {
      var s' := BalanceSummary(rows + [r.value], company, now);
      SummaryOfAppend(rows, r.value, company, now);
      SumNotNegative(rows, RecentOf(company, Inflow, now));
      NoRunway(s.balance, s.outflow30);
      NoRunway(s'.balance, s'.outflow30);
      StabilityMonotone(s.anomalies30, s.transactions30, s'.transactions30);
      ScoreMonotone(s, s');
    }
  }

  lemma NoRunway(balance: int, burn: int)
    requires balance <= 0 && burn > 0
    ensures RunwayPart(balance, burn) == 0.0
  {
    QuotientMonotone(balance as real, 0.0, burn as real);
  }
}
