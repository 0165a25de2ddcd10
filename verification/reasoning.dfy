/** The reasoning engine's findings (kernel/intelligence_engine/reasoning_engine.py), the
    same ordering of `ai.list` (kernel/workflow_engine/engine.py), and what recommendations
    are drawn from them (kernel/intelligence_engine/recommendation_engine.py). */
module Reasoning {
  import opened Common
  import opened Sorting
  import opened Selection
  import opened Notifications
  import Forecasting
  import Ledger

  const HEADLINE := "health-score"

  // ---------- recommendations.py ----------

  function PriorityInsightIds(priority: string): set<string> {
    if priority == "cash_flow_visibility" then {"flow-trend", "forecast-30d"}
    else if priority == "expense_control" then {"top-category"}
    else if priority == "fraud_and_risk_alerts" then {"anomalies"}
    else if priority == "growth_forecasting" then {"forecast-30d"}
    else {}
  }

  ghost predicate IsRelevant(priorities: seq<string>, id: string) {
    exists p :: p in priorities && id in PriorityInsightIds(p)
  }

  /** Which priorities each insight is relevant to. */
  lemma RelevantIff(priorities: seq<string>, id: string)
    ensures IsRelevant(priorities, id) <==>
              || (id == "flow-trend" && "cash_flow_visibility" in priorities)
              || (id == "forecast-30d" && ("cash_flow_visibility" in priorities || "growth_forecasting" in priorities))
              || (id == "top-category" && "expense_control" in priorities)
              || (id == "anomalies" && "fraud_and_risk_alerts" in priorities)
  {
  }

  method RelevantInsightIds(priorities: seq<string>) returns (ids: set<string>)
    ensures forall id :: id in ids <==> IsRelevant(priorities, id)
    ensures HEADLINE !in ids
  {
    ids := {};
    var i := 0;
    while i < |priorities|
      invariant 0 <= i <= |priorities|
      invariant forall id :: id in ids <==> IsRelevant(priorities[..i], id)
      invariant HEADLINE !in ids
    {
      assert priorities[..i + 1] == priorities[..i] + [priorities[i]];
      HeadlineNeverListed(priorities[i]);
      ids := ids + PriorityInsightIds(priorities[i]);
      i := i + 1;
    }
    assert priorities[..i] == priorities;
  }

  lemma HeadlineNeverListed(priority: string)
    ensures HEADLINE !in PriorityInsightIds(priority)
  {
  }

  // ---------- the sort key ----------

  /** The pair (not the headline, not relevant), false before true, as a number. */
  function KeyRank(id: string, relevant: set<string>): nat {
    (if id != HEADLINE then 2 else 0) + (if id !in relevant then 1 else 0)
  }

  function ByRank<T>(rank: T -> nat): (T, T) -> bool {
    (a: T, b: T) => rank(a) <= rank(b)
  }

  function Ranked<T>(rank: T -> nat, s: seq<T>, k: nat): seq<T> {
    if s == [] then [] else (if rank(s[0]) == k then [s[0]] else []) + Ranked(rank, s[1..], k)
  }

  lemma ByRankIsPreorder<T(!new)>(rank: T -> nat)
    ensures TotalPreorder(ByRank(rank))
  {
  }

  lemma {:induction false} ClassIsRanked<T>(rank: T -> nat, s: seq<T>, e: T)
    ensures Class(ByRank(rank), s, e) == Ranked(rank, s, rank(e))
  {
    if s != [] {
      ClassIsRanked(rank, s[1..], e);
    }
  }

  lemma RankedOfCons<T>(rank: T -> nat, x: T, s: seq<T>, k: nat)
    ensures Ranked(rank, [x] + s, k) == (if rank(x) == k then [x] else []) + Ranked(rank, s, k)
  {
    assert ([x] + s)[1..] == s;
  }

  lemma {:induction false} RankedConcat<T>(rank: T -> nat, a: seq<T>, b: seq<T>, k: nat)
    ensures Ranked(rank, a + b, k) == Ranked(rank, a, k) + Ranked(rank, b, k)
  {
    if a == [] {
      assert a + b == b;
    } else {
      assert a + b == [a[0]] + (a[1..] + b);
      RankedOfCons(rank, a[0], a[1..] + b, k);
      RankedConcat(rank, a[1..], b, k);
      var head, tail, end := if rank(a[0]) == k then [a[0]] else [], Ranked(rank, a[1..], k), Ranked(rank, b, k);
      assert head + (tail + end) == head + tail + end;
    }
  }

  lemma {:induction false} RankedMembers<T>(rank: T -> nat, s: seq<T>, k: nat)
    ensures forall i :: 0 <= i < |Ranked(rank, s, k)| ==> rank(Ranked(rank, s, k)[i]) == k
  {
    if s != [] {
      RankedMembers(rank, s[1..], k);
    }
  }

  lemma {:induction false} RankedTwice<T>(rank: T -> nat, s: seq<T>, j: nat, k: nat)
    ensures Ranked(rank, Ranked(rank, s, j), k) == if j == k then Ranked(rank, s, k) else []
  {
    if s != [] {
      RankedTwice(rank, s[1..], j, k);
      if rank(s[0]) == j {
        assert ([s[0]] + Ranked(rank, s[1..], j))[1..] == Ranked(rank, s[1..], j);
      } else {
        assert [] + Ranked(rank, s[1..], j) == Ranked(rank, s[1..], j);
      }
    }
  }

  /** Three classes laid end to end. */
  function InClasses<T>(rank: T -> nat, s: seq<T>): seq<T> {
    Ranked(rank, s, 1) + (Ranked(rank, s, 2) + Ranked(rank, s, 3))
  }

  lemma InClassesSorted<T>(rank: T -> nat, s: seq<T>)
    ensures Sorted(ByRank(rank), InClasses(rank, s))
  {
    RankedMembers(rank, s, 1);
    RankedMembers(rank, s, 2);
    RankedMembers(rank, s, 3);
  }

  lemma RankedInClasses<T>(rank: T -> nat, s: seq<T>, k: nat)
    requires 1 <= k <= 3
    ensures Ranked(rank, InClasses(rank, s), k) == Ranked(rank, s, k)
  {
    RankedConcat(rank, Ranked(rank, s, 1), Ranked(rank, s, 2) + Ranked(rank, s, 3), k);
    RankedConcat(rank, Ranked(rank, s, 2), Ranked(rank, s, 3), k);
    RankedTwice(rank, s, 1, k);
    RankedTwice(rank, s, 2, k);
    RankedTwice(rank, s, 3, k);
  }

  /** Whatever stable sort is used, three ranks come out as their three classes in turn. */
  lemma StableSortIsClasses<T(!new)>(rank: T -> nat, before: seq<T>, after: seq<T>)
    requires forall x :: 1 <= rank(x) <= 3
    requires IsStableSort(ByRank(rank), before, after)
    ensures after == InClasses(rank, before)
    ensures multiset(after) == multiset(before)
  {
    var le := ByRank(rank);
    ByRankIsPreorder(rank);
    InClassesSorted(rank, before);
    forall e
      ensures Class(le, InClasses(rank, before), e) == Class(le, after, e)
    {
      ClassIsRanked(rank, InClasses(rank, before), e);
      ClassIsRanked(rank, before, e);
      RankedInClasses(rank, before, rank(e));
      assert Class(le, after, e) == Class(le, before, e);
    }
    StableSortUnique(le, InClasses(rank, before), after);
    StableSortPermutes(le, before, after);
  }

  // ---------- the ordering, for findings and for insights alike ----------

  /** The headline, then what the priorities ask for, then the rest, each in its old order. */
  ghost predicate Prioritized<T>(idOf: T -> string, priorities: seq<string>, before: seq<T>, after: seq<T>) {
    var isHeadline := (x: T) => idOf(x) == HEADLINE;
    var isRelevant := (x: T) => idOf(x) != HEADLINE && IsRelevant(priorities, idOf(x));
    var isRest := (x: T) => idOf(x) != HEADLINE && !IsRelevant(priorities, idOf(x));
    after == Selected(isHeadline, before) + (Selected(isRelevant, before) + Selected(isRest, before))
  }

  lemma {:induction false} SelectedIsRanked<T>(keep: T -> bool, rank: T -> nat, k: nat, s: seq<T>)
    requires forall i :: 0 <= i < |s| ==> (keep(s[i]) <==> rank(s[i]) == k)
    ensures Selected(keep, s) == Ranked(rank, s, k)
  {
    if s != [] {
      SelectedIsRanked(keep, rank, k, s[1..]);
    }
  }

  function RankOf<T>(idOf: T -> string, relevant: set<string>): T -> nat {
    (x: T) => KeyRank(idOf(x), relevant)
  }

  /** Any stable sort by the code's key is the prioritized order, and loses nothing. */
  lemma AnyStableSortPrioritizes<T(!new)>(idOf: T -> string, priorities: seq<string>, relevant: set<string>,
                                          before: seq<T>, after: seq<T>)
    requires forall id :: id in relevant <==> IsRelevant(priorities, id)
    requires HEADLINE !in relevant
    requires IsStableSort(ByRank(RankOf(idOf, relevant)), before, after)
    ensures Prioritized(idOf, priorities, before, after)
    ensures multiset(after) == multiset(before)
  {
    var rank := RankOf(idOf, relevant);
    StableSortIsClasses(rank, before, after);
    SelectedIsRanked((x: T) => idOf(x) == HEADLINE, rank, 1, before);
    SelectedIsRanked((x: T) => idOf(x) != HEADLINE && IsRelevant(priorities, idOf(x)), rank, 2, before);
    SelectedIsRanked((x: T) => idOf(x) != HEADLINE && !IsRelevant(priorities, idOf(x)), rank, 3, before);
  }

  /** The statement both places share: sort in place when there are priorities. */
  method SortByPriorities<T(!new)>(idOf: T -> string, priorities: seq<string>, items: seq<T>) returns (ordered: seq<T>)
    ensures priorities == [] ==> ordered == items
    ensures priorities != [] ==> Prioritized(idOf, priorities, items, ordered)
    ensures multiset(ordered) == multiset(items)
  {
    if priorities == [] {
      return items;
    }
    var relevant := RelevantInsightIds(priorities);
    var rank := RankOf(idOf, relevant);
    ordered := StableSort(ByRank(rank), items);
    ByRankIsPreorder(rank);
    StableSortIsStable(ByRank(rank), items);
    AnyStableSortPrioritizes(idOf, priorities, relevant, items, ordered);
  }

  /** An entry of `ai.list`. */
  datatype Insight = Insight(id: string, title: string)

  /** `ai.list`: the generated insights, in order of the Blueprint's priorities if it has any. */
  method AiInsights(priorities: Option<seq<string>>, generated: seq<Insight>) returns (insights: seq<Insight>)
    ensures multiset(insights) == multiset(generated)
    ensures if priorities.Some? && priorities.value != []
            then Prioritized((i: Insight) => i.id, priorities.value, generated, insights)
            else insights == generated
  {
    insights := generated;
    if priorities.Some? {
      insights := SortByPriorities((i: Insight) => i.id, priorities.value, generated);
    }
  }

  // ---------- run ----------

  /** What the active Blueprint governs here. */
  datatype Governance = Governance(priorities: seq<string>, capabilities: seq<string>)

  /** A Blueprint without capabilities, or none at all, enables every one. */
  predicate Enabled(governance: Option<Governance>, capability: string) {
    governance.None? || governance.value.capabilities == [] || capability in governance.value.capabilities
  }

  function Allows(governance: Option<Governance>): Finding -> bool {
    (f: Finding) =>
      match governance
      case Some(g) => g.capabilities == [] || f.kind in g.capabilities
      case None => true
  }

  ghost predicate GatedInOrder(governance: Option<Governance>, gathered: seq<Finding>, kept: seq<Finding>,
                               ks: seq<nat>)
  {
    KeptInOrder((f: Finding) => Enabled(governance, f.kind), gathered, kept, ks)
  }

  /** The findings kept are those of enabled kinds, in the order they were gathered. */
  ghost predicate Gates(governance: Option<Governance>, gathered: seq<Finding>, kept: seq<Finding>) {
    exists ks :: GatedInOrder(governance, gathered, kept, ks)
  }

  predicate CountsAs(governance: Option<Governance>, gathered: seq<Finding>, kept: seq<Finding>, f: Finding) {
    multiset(kept)[f] == if Enabled(governance, f.kind) then multiset(gathered)[f] else 0
  }

  /** Each finding of an enabled kind is kept as often as it was gathered, and no other. */
  ghost predicate KeepsExactlyEnabled(governance: Option<Governance>, gathered: seq<Finding>, kept: seq<Finding>) {
    forall f :: CountsAs(governance, gathered, kept, f)
  }

  lemma AllowedIsGated(governance: Option<Governance>, gathered: seq<Finding>)
    ensures Gates(governance, gathered, Selected(Allows(governance), gathered))
  {
    var ks := SelectedInOrder(Allows(governance), gathered);
    assert GatedInOrder(governance, gathered, Selected(Allows(governance), gathered), ks);
  }

  lemma AllowedCounts(governance: Option<Governance>, gathered: seq<Finding>, kept: seq<Finding>)
    requires multiset(kept) == multiset(Selected(Allows(governance), gathered))
    ensures KeepsExactlyEnabled(governance, gathered, kept)
  {
    forall f
      ensures CountsAs(governance, gathered, kept, f)
    {
      SelectedCounts(Allows(governance), gathered, f);
    }
  }

  /** Gather in source order, keep the allowed kinds, then order by priorities. */
  method RunReasoning(governance: Option<Governance>, health: Finding, analysis: seq<Finding>, forecast: Finding,
                      connector: seq<Finding>)
    returns (findings: seq<Finding>)
    ensures
      var allowed := Selected(Allows(governance), [health] + analysis + [forecast] + connector);
      && multiset(findings) == multiset(allowed)
      && if governance.Some? && governance.value.priorities != []
         then Prioritized((f: Finding) => f.id, governance.value.priorities, allowed, findings)
         else findings == allowed
    ensures KeepsExactlyEnabled(governance, [health] + analysis + [forecast] + connector, findings)
    ensures governance.None? || governance.value.priorities == [] ==>
              Gates(governance, [health] + analysis + [forecast] + connector, findings)
  {
    findings := [health] + analysis;
    findings := findings + [forecast];
    findings := findings + connector;
    ghost var gathered := findings;
    if governance.Some? && governance.value.capabilities != [] {
      var kept: seq<Finding> := [];
      var i := 0;
      while i < |findings|
        invariant 0 <= i <= |findings| && findings == gathered
        invariant kept == Selected(Allows(governance), findings[..i])
      {
        SelectedOfAppend(Allows(governance), findings[..i], findings[i]);
        assert findings[..i + 1] == findings[..i] + [findings[i]];
        if findings[i].kind in governance.value.capabilities {
          kept := kept + [findings[i]];
        }
        i := i + 1;
      }
      assert findings[..i] == findings;
      findings := kept;
    } else {
      AllSelected(Allows(governance), findings);
    }
    if governance.Some? {
      findings := SortByPriorities((f: Finding) => f.id, governance.value.priorities, findings);
    }
    AllowedIsGated(governance, gathered);
    AllowedCounts(governance, gathered, findings);
  }

  // ---------- recommendations drawn from the result ----------

  datatype Recommendation = ReduceTopOutflow | ReviewAnomalies | AddressShortfall

  predicate HasId(findings: seq<Finding>, id: string) {
    exists i :: 0 <= i < |findings| && findings[i].id == id
  }

  function Derive(net30: int, findings: seq<Finding>, projected30: int): seq<Recommendation> {
    (if net30 < 0 && HasId(findings, "top-category") then [ReduceTopOutflow] else [])
    + (if HasId(findings, "anomalies") then [ReviewAnomalies] else [])
    + (if projected30 < 0 then [AddressShortfall] else [])
  }

  /** The capability a recommendation speaks for. */
  function CapabilityOf(r: Recommendation): string {
    match r case ReduceTopOutflow => "spend" case ReviewAnomalies => "anomaly" case AddressShortfall => "forecast"
  }

  /** The engines give these two ids one kind each. */
  predicate KindsMatch(findings: seq<Finding>) {
    forall i :: 0 <= i < |findings| ==>
      (findings[i].id == "top-category" ==> findings[i].kind == "spend")
      && (findings[i].id == "anomalies" ==> findings[i].kind == "anomaly")
  }

  lemma DerivedIff(net30: int, findings: seq<Finding>, projected30: int)
    ensures ReduceTopOutflow in Derive(net30, findings, projected30) <==> net30 < 0 && HasId(findings, "top-category")
    ensures ReviewAnomalies in Derive(net30, findings, projected30) <==> HasId(findings, "anomalies")
    ensures AddressShortfall in Derive(net30, findings, projected30) <==> projected30 < 0
    ensures forall i, j :: 0 <= i < j < |Derive(net30, findings, projected30)| ==>
              Place(Derive(net30, findings, projected30)[i]) < Place(Derive(net30, findings, projected30)[j])
  {
  }

  /** Outflow first, then anomalies, then the shortfall. */
  function Place(r: Recommendation): nat {
    match r case ReduceTopOutflow => 0 case ReviewAnomalies => 1 case AddressShortfall => 2
  }

  lemma HasIdOfPermutation(a: seq<Finding>, b: seq<Finding>, id: string)
    requires multiset(a) == multiset(b)
    ensures HasId(a, id) ==> HasId(b, id)
  {
    if i :| 0 <= i < |a| && a[i].id == id {
      assert a[i] in multiset(b);
      var j :| 0 <= j < |b| && b[j] == a[i];
    }
  }

  lemma FoundIsEnabled(governance: Option<Governance>, gathered: seq<Finding>, findings: seq<Finding>, id: string,
                       kind: string)
    requires multiset(findings) == multiset(Selected(Allows(governance), gathered))
    requires forall i :: 0 <= i < |gathered| ==> gathered[i].id == id ==> gathered[i].kind == kind
    ensures HasId(findings, id) ==> Enabled(governance, kind)
  {
    var allowed := Selected(Allows(governance), gathered);
    HasIdOfPermutation(findings, allowed, id);
    if i :| 0 <= i < |allowed| && allowed[i].id == id {
      SelectedMembers(Allows(governance), gathered, i);
    }
  }

  lemma DerivedAreEnabledIff(governance: Option<Governance>, net30: int, findings: seq<Finding>, projected30: int)
    requires HasId(findings, "top-category") ==> Enabled(governance, "spend")
    requires HasId(findings, "anomalies") ==> Enabled(governance, "anomaly")
    ensures
      (forall r :: r in Derive(net30, findings, projected30) ==> Enabled(governance, CapabilityOf(r)))
      <==> Enabled(governance, "forecast") || projected30 >= 0
  {
    DerivedIff(net30, findings, projected30);
    var recommended := Derive(net30, findings, projected30);
    assert forall r :: r in recommended ==>
      r == AddressShortfall || (r in recommended && Enabled(governance, CapabilityOf(r)));
  }

  /** reasoning_engine.py says a capability outside the list never gets recommended. Of the
      gated findings that is so; but the shortfall is read off the forecast itself, so it
      holds exactly unless "forecast" is disabled while the projection is negative. */
  lemma DisabledNeverRecommendedIff(governance: Option<Governance>, gathered: seq<Finding>, findings: seq<Finding>,
                                    s: Ledger.Summary)
    requires KindsMatch(gathered) && multiset(findings) == multiset(Selected(Allows(governance), gathered))
    ensures
      (forall r :: r in Derive(s.net30, findings, Forecasting.Project(s).projected30) ==>
         Enabled(governance, CapabilityOf(r)))
      <==> Enabled(governance, "forecast") || s.balance + s.net30 >= 0
  {
    Forecasting.ProjectionsAreWhole(s);
    FoundIsEnabled(governance, gathered, findings, "top-category", "spend");
    FoundIsEnabled(governance, gathered, findings, "anomalies", "anomaly");
    DerivedAreEnabledIff(governance, s.net30, findings, Forecasting.Project(s).projected30);
  }

  /** One cycle's recommendations: reason, then derive them from the findings, the summary and
      the forecast. */
  method Recommend(governance: Option<Governance>, s: Ledger.Summary, health: Finding, analysis: seq<Finding>,
                   forecast: Finding, connector: seq<Finding>)
    returns (recommended: seq<Recommendation>)
    requires KindsMatch([health] + analysis + [forecast] + connector)
    ensures (forall r :: r in recommended ==> Enabled(governance, CapabilityOf(r)))
       <==> Enabled(governance, "forecast") || s.balance + s.net30 >= 0
    ensures AddressShortfall in recommended <==> s.balance + s.net30 < 0
  {
    var findings := RunReasoning(governance, health, analysis, forecast, connector);
    recommended := Derive(s.net30, findings, Forecasting.Project(s).projected30);
    RecommendedIff(governance, [health] + analysis + [forecast] + connector, findings, s);
  }

  lemma RecommendedIff(governance: Option<Governance>, gathered: seq<Finding>, findings: seq<Finding>,
                       s: Ledger.Summary)
    requires KindsMatch(gathered) && multiset(findings) == multiset(Selected(Allows(governance), gathered))
    ensures
      var recommended := Derive(s.net30, findings, Forecasting.Project(s).projected30);
      && ((forall r :: r in recommended ==> Enabled(governance, CapabilityOf(r)))
          <==> Enabled(governance, "forecast") || s.balance + s.net30 >= 0)
      && (AddressShortfall in recommended <==> s.balance + s.net30 < 0)
  {
    DisabledNeverRecommendedIff(governance, gathered, findings, s);
    Forecasting.ProjectionsAreWhole(s);
    DerivedIff(s.net30, findings, Forecasting.Project(s).projected30);
  }

  /** Only "health" is enabled, a hundred cents flow out of an empty account, and the shortfall
      is recommended all the same, with no other finding to speak for it. */
  lemma DisabledForecastIsRecommended(gathered: seq<Finding>)
    requires KindsMatch(gathered)
    ensures
      var governance := Some(Governance([], ["health"]));
      var s := Ledger.Summary(0, 0, 100, -100, 0, 1);
      var recommended := Derive(s.net30, Selected(Allows(governance), gathered), Forecasting.Project(s).projected30);
      AddressShortfall in recommended && !Enabled(governance, CapabilityOf(AddressShortfall))
  {
    Forecasting.ProjectionsAreWhole(Ledger.Summary(0, 0, 100, -100, 0, 1));
  }
}
