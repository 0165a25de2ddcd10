/** The digital twin (replay/simulator.py) and the forecast it must agree with
    (kernel/intelligence_engine/forecasting_engine.py).
    Amounts are in cents; the thirty-day average is an exact rational. */
module Replay {
  import opened Common
  import opened Exact
  import Ledger

  const MAX_HORIZON_DAYS := 365

  datatype Kind = OneTime | Recurring

  type Frequency = f: int | 1 <= f witness 1

  datatype Scenario = Scenario(title: string, kind: Kind, amount: real, dayOffset: int, frequency: Frequency)

  /** A scenario as the caller sends it: every key may be absent. */
  datatype RawScenario = RawScenario(title: Option<string>, kind: Option<string>, amount: Option<real>,
                                     dayOffset: Option<int>, frequency: Option<int>)

  datatype ParseError = UnknownKind | MissingAmount

  /** The balance summary, of which the projection reads the balance and the month's net. */
  type Summary = Ledger.Summary

  datatype Point = Point(day: nat, balance: int)

  datatype Report = Report(startingBalance: int, dailyNet: int, horizon: nat, endingBalance: int,
                           minBalance: int, minBalanceDay: nat, goesNegativeOn: Option<nat>, series: seq<Point>)

  // ---------- parsing ----------

  function ParseScenario(raw: RawScenario): Result<Scenario, ParseError> {
    var kind := Default(raw.kind, "one_time");
    if kind != "one_time" && kind != "recurring" then Err(UnknownKind)
    else if raw.amount.None? then Err(MissingAmount)
    else
      var frequency := Default(raw.frequency, 30);
      Ok(Scenario(Default(raw.title, "Scenario"),
                  if kind == "one_time" then OneTime else Recurring,
                  raw.amount.value,
                  Default(raw.dayOffset, 0),
                  if frequency < 1 then 1 else frequency))
  }

  /** The list comprehension over the scenarios: the first that fails decides. */
  function ParseAll(raws: seq<RawScenario>): Result<seq<Scenario>, ParseError> {
    if raws == [] then Ok([])
    else
      match ParseScenario(raws[0])
      case Err(e) => Err(e)
      case Ok(s) =>
        match ParseAll(raws[1..])
        case Err(e) => Err(e)
        case Ok(ss) => Ok([s] + ss)
  }

  /** All scenarios parse, each to its own, exactly when each parses. */
  lemma {:induction false} ParseAllOkIff(raws: seq<RawScenario>)
    ensures ParseAll(raws).Ok? <==> forall i :: 0 <= i < |raws| ==> ParseScenario(raws[i]).Ok?
    ensures ParseAll(raws).Ok? ==>
              |ParseAll(raws).value| == |raws|
              && forall i :: 0 <= i < |raws| ==> ParseScenario(raws[i]) == Ok(ParseAll(raws).value[i])
  {
    if raws != [] {
      ParseAllOkIff(raws[1..]);
      assert raws == [raws[0]] + raws[1..];
    }
  }

  /** Otherwise the first that does not parse decides the error. */
  lemma {:induction false} FirstFailureDecides(raws: seq<RawScenario>, k: nat)
    requires k < |raws| && ParseScenario(raws[k]).Err?
    requires forall j :: 0 <= j < k ==> ParseScenario(raws[j]).Ok?
    ensures ParseAll(raws) == Err(ParseScenario(raws[k]).error)
  {
    if k > 0 {
      FirstFailureDecides(raws[1..], k - 1);
    }
  }

  function ClampHorizon(days: int): (h: nat)
    ensures 1 <= h <= MAX_HORIZON_DAYS
    ensures 1 <= days <= MAX_HORIZON_DAYS ==> h == days
    ensures days < 1 ==> h == 1
    ensures days > MAX_HORIZON_DAYS ==> h == MAX_HORIZON_DAYS
  {
    if days < 1 then 1 else if days > MAX_HORIZON_DAYS then MAX_HORIZON_DAYS else days
  }

  // ---------- the firing rule, day by day ----------

  predicate FiresOn(s: Scenario, day: nat) {
    match s.kind
    case OneTime => day == s.dayOffset
    case Recurring => s.dayOffset <= day && (day - s.dayOffset) % s.frequency == 0
  }

  function DeltaForDay(s: Scenario, day: nat): real {
    if FiresOn(s, day) then s.amount else 0.0
  }

  function DayDelta(ss: seq<Scenario>, day: nat): real {
    if ss == [] then 0.0
    else DayDelta(ss[..|ss| - 1], day) + DeltaForDay(ss[|ss| - 1], day)
  }

  // ---------- the closed form ----------

  /** Occurrences of a recurring scenario on days up to x. */
  function Occurrences(offset: int, frequency: Frequency, x: int): int {
    if x < offset then 0 else (x - offset) / frequency + 1
  }

  /** How often a scenario has been applied once day d is done. */
  function Fires(s: Scenario, d: nat): int {
    match s.kind
    case OneTime => if 1 <= s.dayOffset <= d then 1 else 0
    case Recurring => Occurrences(s.dayOffset, s.frequency, d) - Occurrences(s.dayOffset, s.frequency, 0)
  }

  function Contribution(s: Scenario, d: nat): real {
    s.amount * Fires(s, d) as real
  }

  function Applied(ss: seq<Scenario>, d: nat): real {
    if ss == [] then 0.0
    else Applied(ss[..|ss| - 1], d) + Contribution(ss[|ss| - 1], d)
  }

  function DailyNet(summary: Summary): real {
    if summary.net30 != 0 then summary.net30 as real / 30.0 else 0.0
  }

  function BalanceOn(summary: Summary, ss: seq<Scenario>, d: nat): real {
    summary.balance as real + d as real * DailyNet(summary) + Applied(ss, d)
  }

  lemma DivUnique(y: int, f: Frequency, q: int, r: int)
    requires y == q * f + r && 0 <= r < f
    ensures y / f == q && y % f == r
  {
    var q', r' := y / f, y % f;
    var k := q - q';
    assert k * f == r' - r by {
      assert y == q' * f + r';
      assert k * f == q * f - q' * f;
    }
    MulAtLeast(k, f);
  }

  lemma DivStep(y: nat, f: Frequency)
    ensures (y + 1) / f == y / f + if (y + 1) % f == 0 then 1 else 0
  {
    var q, r := y / f, y % f;
    assert y == q * f + r;
    if r + 1 == f {
      assert (q + 1) * f == q * f + f;
      DivUnique(y + 1, f, q + 1, 0);
    } else {
      DivUnique(y + 1, f, q, r + 1);
    }
  }

  lemma FiresStep(s: Scenario, d: nat)
    ensures Fires(s, d + 1) == Fires(s, d) + if FiresOn(s, d + 1) then 1 else 0
  {
    if s.kind.Recurring? {
      if s.dayOffset <= d {
        DivStep(d - s.dayOffset, s.frequency);
      }
    }
  }

  lemma ContributionStep(s: Scenario, d: nat)
    ensures Contribution(s, d + 1) == Contribution(s, d) + DeltaForDay(s, d + 1)
  {
    FiresStep(s, d);
    var n := Fires(s, d);
    assert s.amount * (n + 1) as real == s.amount * n as real + s.amount;
  }

  lemma {:induction false} AppliedStep(ss: seq<Scenario>, d: nat)
    ensures Applied(ss, d + 1) == Applied(ss, d) + DayDelta(ss, d + 1)
  {
    if ss == [] {
    } else {
      AppliedStep(ss[..|ss| - 1], d);
      ContributionStep(ss[|ss| - 1], d);
    }
  }

  /** One day of the loop advances the closed form by one day. */
  lemma BalanceStep(summary: Summary, ss: seq<Scenario>, d: nat)
    ensures BalanceOn(summary, ss, d + 1) == BalanceOn(summary, ss, d) + DailyNet(summary) + DayDelta(ss, d + 1)
  {
    AppliedStep(ss, d);
    NetStep(DailyNet(summary), d);
  }

  lemma NetStep(net: real, d: nat)
    ensures (d + 1) as real * net == d as real * net + net
  {
  }

  lemma {:induction false} AppliedAtZero(ss: seq<Scenario>)
    ensures Applied(ss, 0) == 0.0
  {
    if ss == [] {
    } else {
      AppliedAtZero(ss[..|ss| - 1]);
    }
  }

  // ---------- the report, stated for any course of daily balances ----------

  type Course = nat -> real

  function Projection(summary: Summary, ss: seq<Scenario>): Course {
    (d: nat) => BalanceOn(summary, ss, d)
  }

  function Stride(h: nat): nat {
    if h / 30 < 1 then 1 else h / 30
  }

  predicate Sampled(h: nat, day: nat) {
    day <= h && (day % Stride(h) == 0 || day == h)
  }

  ghost predicate Shown(series: seq<Point>, day: nat) {
    exists i :: 0 <= i < |series| && series[i].day == day
  }

  /** The points are the sampled days of 0..h, in order, each with its rounded balance. */
  ghost predicate IsSeries(bal: Course, h: nat, upTo: nat, series: seq<Point>) {
    && (forall i, j :: 0 <= i < j < |series| ==> series[i].day < series[j].day)
    && (forall i :: 0 <= i < |series| ==>
          series[i].day < upTo && Sampled(h, series[i].day) && series[i].balance == RoundHalfEven(bal(series[i].day)))
    && (forall d: nat {:trigger Shown(series, d)} :: d < upTo && Sampled(h, d) ==> Shown(series, d))
  }

  /** Day m is the first of the days before upTo on which their least balance is seen. */
  ghost predicate IsFirstMinimum(bal: Course, upTo: nat, m: nat) {
    && m < upTo
    && (forall d: nat :: d < upTo ==> bal(m) <= bal(d))
    && (forall d: nat :: d < m ==> bal(m) < bal(d))
  }

  ghost predicate IsFirstNegative(bal: Course, upTo: nat, g: Option<nat>) {
    match g
    case None => forall d: nat :: d < upTo ==> bal(d) >= 0.0
    case Some(n) => n < upTo && bal(n) < 0.0 && forall d: nat :: d < n ==> bal(d) >= 0.0
  }

  ghost predicate IsReport(summary: Summary, bal: Course, h: nat, r: Report) {
    && r.startingBalance == summary.balance
    && r.dailyNet == RoundHalfEven(DailyNet(summary))
    && r.horizon == h
    && r.endingBalance == RoundHalfEven(bal(h))
    && IsFirstMinimum(bal, h + 1, r.minBalanceDay)
    && r.minBalance == RoundHalfEven(bal(r.minBalanceDay))
    && IsFirstNegative(bal, h + 1, r.goesNegativeOn)
    && IsSeries(bal, h, h + 1, r.series)
  }

  // ---------- simulate ----------

  ghost predicate IsDayStep(bal: Course, net: real, ss: seq<Scenario>, d: nat) {
    bal(d + 1) == bal(d) + net + DayDelta(ss, d + 1)
  }

  lemma ProjectionSteps(summary: Summary, ss: seq<Scenario>)
    ensures Projection(summary, ss)(0) == summary.balance as real
    ensures forall d: nat :: IsDayStep(Projection(summary, ss), DailyNet(summary), ss, d)
  {
    AppliedAtZero(ss);
    forall d: nat
      ensures IsDayStep(Projection(summary, ss), DailyNet(summary), ss, d)
    {
      BalanceStep(summary, ss, d);
    }
  }

  lemma SampleAdded(bal: Course, h: nat, day: nat, series: seq<Point>, series': seq<Point>)
    requires day <= h && IsSeries(bal, h, day, series)
    requires series' == if Sampled(h, day) then series + [Point(day, RoundHalfEven(bal(day)))] else series
    ensures IsSeries(bal, h, day + 1, series')
  {
    forall d: nat | d < day + 1 && Sampled(h, d)
      ensures Shown(series', d)
    {
      if d < day {
        assert Shown(series, d);
        var i :| 0 <= i < |series| && series[i].day == d;
        assert series'[i].day == d;
      } else {
        assert series'[|series|].day == d;
      }
    }
  }

  /** The scenarios of one day, applied one after the other. */
  method ApplyDay(start: real, ss: seq<Scenario>, day: nat) returns (balance: real)
    ensures balance == start + DayDelta(ss, day)
  {
    balance := start;
    var i := 0;
    while i < |ss|
      invariant 0 <= i <= |ss|
      invariant balance == start + DayDelta(ss[..i], day)
    {
      balance := balance + DeltaForDay(ss[i], day);
      assert ss[..i + 1][..i] == ss[..i];
      i := i + 1;
    }
    assert ss[..i] == ss;
  }

  /** The projection loop, for whatever course of balances its daily step describes. */
  method Walk(summary: Summary, ss: seq<Scenario>, h: nat, ghost bal: Course) returns (r: Report)
    requires bal(0) == summary.balance as real
    requires forall d: nat :: IsDayStep(bal, DailyNet(summary), ss, d)
    ensures IsReport(summary, bal, h, r)
  {
    var net := DailyNet(summary);
    var balance := summary.balance as real;
    var series: seq<Point> := [];
    var minBalance, minDay := balance, 0;
    var negativeOn: Option<nat> := None;

    var day := 0;
    while day <= h
      invariant 0 <= day <= h + 1
      invariant balance == bal(if day == 0 then 0 else day - 1)
      invariant if day == 0 then minDay == 0 else IsFirstMinimum(bal, day, minDay)
      invariant minBalance == bal(minDay)
      invariant IsFirstNegative(bal, day, negativeOn)
      invariant IsSeries(bal, h, day, series)
    {
      if day > 0 {
        assert IsDayStep(bal, net, ss, day - 1);
        balance := ApplyDay(balance + net, ss, day);
      }
      if balance < minBalance {
        minBalance, minDay := balance, day;
      }
      if balance < 0.0 && negativeOn.None? {
        negativeOn := Some(day);
      }
      ghost var before := series;
      if day % Stride(h) == 0 || day == h {
        series := series + [Point(day, RoundHalfEven(balance))];
      }
      SampleAdded(bal, h, day, before, series);
      day := day + 1;
    }
    return Report(summary.balance, RoundHalfEven(net), h, RoundHalfEven(balance),
                  RoundHalfEven(minBalance), minDay, negativeOn, series);
  }

  // ---------- straight from what the caller sends ----------

  /** The first thing wrong with a scenario as sent, if anything is. */
  function WrongWith(raw: RawScenario): Option<ParseError> {
    if raw.kind.Some? && raw.kind.value != "one_time" && raw.kind.value != "recurring" then Some(UnknownKind)
    else if raw.amount.None? then Some(MissingAmount)
    else None
  }

  /** A scenario that repeats is due on its offset and every frequency days from there, any other on
      its offset alone; what is absent is day 0 and thirty days, and no frequency is below one. */
  predicate DueOn(raw: RawScenario, day: nat) {
    var offset := if raw.dayOffset.Some? then raw.dayOffset.value else 0;
    if raw.kind == Some("recurring")
    then
      var asked := if raw.frequency.Some? then raw.frequency.value else 30;
      day >= offset && (day - offset) % (if asked < 1 then 1 else asked) == 0
    else day == offset
  }

  function AmountDue(raws: seq<RawScenario>, day: nat): real {
    if raws == [] then 0.0
    else
      var raw := raws[|raws| - 1];
      AmountDue(raws[..|raws| - 1], day) + if DueOn(raw, day) && raw.amount.Some? then raw.amount.value else 0.0
  }

  /** The balance of the ledger on day 0; every later day adds a thirtieth of the month's net and
      what is due. */
  function DayByDay(summary: Summary, raws: seq<RawScenario>, day: nat): real {
    if day == 0 then summary.balance as real
    else DayByDay(summary, raws, day - 1) + summary.net30 as real / 30.0 + AmountDue(raws, day)
  }

  function Days(summary: Summary, raws: seq<RawScenario>): Course {
    (d: nat) => DayByDay(summary, raws, d)
  }

  /** Something is wrong with scenario k and nothing with those before it. */
  predicate FirstWrong(raws: seq<RawScenario>, k: nat) {
    k < |raws| && WrongWith(raws[k]).Some? && forall j :: 0 <= j < k ==> WrongWith(raws[j]).None?
  }

  /** The error is that of the first scenario with something wrong. */
  ghost predicate FailsWith(raws: seq<RawScenario>, e: ParseError) {
    exists k: nat :: FirstWrong(raws, k) && WrongWith(raws[k]) == Some(e)
  }

  predicate NothingWrong(raws: seq<RawScenario>) {
    forall i :: 0 <= i < |raws| ==> WrongWith(raws[i]).None?
  }

  lemma ParsedIsDue(raw: RawScenario, day: nat)
    ensures ParseScenario(raw).Err? <==> WrongWith(raw).Some?
    ensures ParseScenario(raw).Err? ==> ParseScenario(raw).error == WrongWith(raw).value
    ensures ParseScenario(raw).Ok? ==>
              DeltaForDay(ParseScenario(raw).value, day)
              == if DueOn(raw, day) && raw.amount.Some? then raw.amount.value else 0.0
  {
  }

  lemma {:induction false} ParsedAmountDue(raws: seq<RawScenario>, ss: seq<Scenario>, day: nat)
    requires |ss| == |raws| && forall i :: 0 <= i < |raws| ==> ParseScenario(raws[i]) == Ok(ss[i])
    ensures DayDelta(ss, day) == AmountDue(raws, day)
  {
    if raws != [] {
      var n := |raws| - 1;
      ParsedAmountDue(raws[..n], ss[..n], day);
      ParsedIsDue(raws[n], day);
    }
  }

  lemma {:induction false} ParsedDays(summary: Summary, raws: seq<RawScenario>, ss: seq<Scenario>, day: nat)
    requires ParseAll(raws) == Ok(ss)
    ensures DayByDay(summary, raws, day) == BalanceOn(summary, ss, day)
  {
    ParseAllOkIff(raws);
    if day == 0 {
      AppliedAtZero(ss);
    } else {
      ParsedDays(summary, raws, ss, day - 1);
      ParsedAmountDue(raws, ss, day);
      BalanceStep(summary, ss, day - 1);
    }
  }

  lemma {:induction false} SomeFirstWrong(raws: seq<RawScenario>) returns (k: nat)
    ensures k <= |raws| && forall j :: 0 <= j < k ==> WrongWith(raws[j]).None?
    ensures k < |raws| ==> FirstWrong(raws, k)
  {
    k := 0;
    if raws != [] && WrongWith(raws[0]).None? {
      k := SomeFirstWrong(raws[1..]);
      assert forall j :: 0 <= j < k ==> raws[1..][j] == raws[j + 1];
      assert forall j :: 0 < j < k + 1 ==> raws[j] == raws[1..][j - 1];
      k := k + 1;
    }
  }

  /** The parse fails exactly when something is wrong with some scenario, and says what is wrong
      with the first such. */
  lemma ParseFailsAtFirstWrong(raws: seq<RawScenario>)
    ensures ParseAll(raws).Ok? ==> NothingWrong(raws)
    ensures ParseAll(raws).Err? ==> FailsWith(raws, ParseAll(raws).error)
  {
    forall i | 0 <= i < |raws|
      ensures ParseScenario(raws[i]).Err? <==> WrongWith(raws[i]).Some?
      ensures ParseScenario(raws[i]).Err? ==> ParseScenario(raws[i]).error == WrongWith(raws[i]).value
    {
      ParsedIsDue(raws[i], 0);
    }
    var first := SomeFirstWrong(raws);
    ParseAllOkIff(raws);
    if first < |raws| {
      FirstFailureDecides(raws, first);
    }
  }

  lemma SameCourseSameReport(summary: Summary, a: Course, b: Course, h: nat, r: Report)
    requires (forall d: nat :: a(d) == b(d)) && IsReport(summary, a, h, r)
    ensures IsReport(summary, b, h, r)
  {
  }

  method Simulate(summary: Summary, raws: seq<RawScenario>, horizonDays: int)
    returns (r: Result<Report, ParseError>)
    ensures r.Err? <==> ParseAll(raws).Err?
    ensures r.Err? ==> r.error == ParseAll(raws).error
    ensures r.Ok? ==>
              var ss := ParseAll(raws).value;
              IsReport(summary, Projection(summary, ss), ClampHorizon(horizonDays), r.value)
    ensures r.Ok? ==> NothingWrong(raws)
    ensures r.Err? ==> FailsWith(raws, r.error)
    ensures r.Ok? ==> IsReport(summary, Days(summary, raws), ClampHorizon(horizonDays), r.value)
  {
    var parsed := ParseAll(raws);
    ParseFailsAtFirstWrong(raws);
    if parsed.Err? {
      return Err(parsed.error);
    }
    ProjectionSteps(summary, parsed.value);
    var report := Walk(summary, parsed.value, ClampHorizon(horizonDays), Projection(summary, parsed.value));
    forall d: nat
      ensures Days(summary, raws)(d) == Projection(summary, parsed.value)(d)
    {
      ParsedDays(summary, raws, parsed.value, d);
    }
    SameCourseSameReport(summary, Projection(summary, parsed.value), Days(summary, raws), ClampHorizon(horizonDays),
                         report);
    return Ok(report);
  }
}
