/** What is stored of the derived recommendations
    (kernel/intelligence_engine/recommendation_engine.py), one call at a time. Nothing in the
    kernel ever dismisses a row. Each statement reads the clock; reading n is clock(n). */
module Recommendations {
  import opened Notifications
  import opened Reasoning
  import opened Spacing
  import opened Selection

  const REPEAT_AFTER := 24 * 3_600_000_000

  datatype Row = Row(company: string, kind: Recommendation, createdAt: int)

  /** The table, the readings taken, and what this call has stored so far. */
  datatype Store = Store(rows: seq<Row>, readings: nat, stored: seq<Recommendation>)

  predicate Standing(rows: seq<Row>, company: string, kind: Recommendation, now: int) {
    exists i :: 0 <= i < |rows| && rows[i].company == company && rows[i].kind == kind
                && rows[i].createdAt >= now - REPEAT_AFTER
  }

  function Offer(s: Store, company: string, kind: Recommendation, clock: Clock): Store {
    if Standing(s.rows, company, kind, clock(s.readings)) then s.(readings := s.readings + 1)
    else Store(s.rows + [Row(company, kind, clock(s.readings + 1))], s.readings + 2, s.stored + [kind])
  }

  function OfferAll(s: Store, company: string, kinds: seq<Recommendation>, clock: Clock): Store {
    if kinds == [] then s
    else Offer(OfferAll(s, company, kinds[..|kinds| - 1], clock), company, kinds[|kinds| - 1], clock)
  }

  lemma OfferedNext(s: Store, company: string, kinds: seq<Recommendation>, i: nat, clock: Clock)
    requires i < |kinds|
    ensures OfferAll(s, company, kinds[..i + 1], clock)
         == Offer(OfferAll(s, company, kinds[..i], clock), company, kinds[i], clock)
  {
    assert kinds[..i + 1][..i] == kinds[..i];
  }

  class RecommendationEngine {
    var rows: seq<Row>
    var readings: nat

    constructor ()
      ensures rows == [] && readings == 0
    {
      rows, readings := [], 0;
    }

    /** One turn of the loop; `stored` holds what the call has stored so far. */
    method StoreUnlessStanding(company: string, kind: Recommendation, clock: Clock, ghost stored: seq<Recommendation>)
      returns (isNew: bool)
      modifies this
      ensures Store(rows, readings, if isNew then stored + [kind] else stored)
           == Offer(Store(old(rows), old(readings), stored), company, kind, clock)
    {
      var existing := Standing(rows, company, kind, clock(readings));
      readings := readings + 1;
      if existing {
        return false;
      }
      rows := rows + [Row(company, kind, clock(readings))];
      readings := readings + 1;
      return true;
    }

    /** `generate_and_store`, from the summary, the findings and the forecast of a cycle. */
    method GenerateAndStore(company: string, net30: int, findings: seq<Finding>, projected30: int, clock: Clock)
      returns (stored: seq<Recommendation>)
      modifies this
      ensures Store(rows, readings, stored)
           == OfferAll(Store(old(rows), old(readings), []), company, Derive(net30, findings, projected30), clock)
    {
      var candidates := Derive(net30, findings, projected30);
      ghost var before := Store(rows, readings, []);
      stored := [];
      var i := 0;
      while i < |candidates|
        invariant 0 <= i <= |candidates|
        invariant Store(rows, readings, stored) == OfferAll(before, company, candidates[..i], clock)
      {
        OfferedNext(before, company, candidates, i, clock);
        var isNew := StoreUnlessStanding(company, candidates[i], clock, stored);
        if isNew {
          stored := stored + [candidates[i]];
        }
        i := i + 1;
      }
      assert candidates[..i] == candidates;
    }
  }

  // ---------- one call ----------

  predicate AllDiffer(kinds: seq<Recommendation>) {
    forall i, j :: 0 <= i < j < |kinds| ==> kinds[i] != kinds[j]
  }

  lemma DerivedDiffer(net30: int, findings: seq<Finding>, projected30: int)
    ensures AllDiffer(Derive(net30, findings, projected30))
  {
  }

  lemma OfferAnother(s: Store, company: string, kind: Recommendation, clock: Clock, other: Recommendation, now: int)
    requires other != kind
    ensures Standing(Offer(s, company, kind, clock).rows, company, other, now) <==>
              Standing(s.rows, company, other, now)
    ensures other in Offer(s, company, kind, clock).stored <==> other in s.stored
  {
    var rows' := Offer(s, company, kind, clock).rows;
    assert forall i :: 0 <= i < |s.rows| ==> rows'[i] == s.rows[i];
  }

  lemma {:induction false} OthersOffered(s: Store, company: string, kinds: seq<Recommendation>, clock: Clock,
                                         kind: Recommendation, now: int)
    requires kind !in kinds
    ensures Standing(OfferAll(s, company, kinds, clock).rows, company, kind, now) <==>
              Standing(s.rows, company, kind, now)
    ensures kind in OfferAll(s, company, kinds, clock).stored <==> kind in s.stored
  {
    if kinds != [] {
      var n := |kinds| - 1;
      assert kinds == kinds[..n] + [kinds[n]];
      OthersOffered(s, company, kinds[..n], clock, kind, now);
      OfferAnother(OfferAll(s, company, kinds[..n], clock), company, kinds[n], clock, kind, now);
    }
  }

  /** The reading at which recommendation i of a call is looked up. */
  function CheckOf(s: Store, company: string, kinds: seq<Recommendation>, clock: Clock, i: nat): nat
    requires i < |kinds|
  {
    OfferAll(s, company, kinds[..i], clock).readings
  }

  /** Of recommendations that differ, each is stored exactly when the table held none of its kind
      for the company within the last day when it was looked up. */
  lemma {:induction false} StoredIffNotStanding(s: Store, company: string, kinds: seq<Recommendation>, clock: Clock,
                                                i: nat)
    requires AllDiffer(kinds) && i < |kinds| && s.stored == []
    ensures kinds[i] in OfferAll(s, company, kinds, clock).stored <==>
              !Standing(s.rows, company, kinds[i], clock(CheckOf(s, company, kinds, clock, i)))
  {
    var n := |kinds| - 1;
    var front := kinds[..n];
    var before := OfferAll(s, company, front, clock);
    if i < n {
      StoredIffNotStanding(s, company, front, clock, i);
      assert front[..i] == kinds[..i] && front[i] == kinds[i];
      OfferAnother(before, company, kinds[n], clock, kinds[i], 0);
    } else {
      OthersOffered(s, company, front, clock, kinds[n], clock(before.readings));
    }
  }

  // ---------- all runs ----------

  /** Rows of one company and kind are more than a day apart, none after `now`. */
  ghost predicate Spaced(rows: seq<Row>, now: int) {
    && (forall i :: 0 <= i < |rows| ==> rows[i].createdAt <= now)
    && (forall i, j :: 0 <= i < j < |rows| && rows[i].company == rows[j].company && rows[i].kind == rows[j].kind ==>
          rows[i].createdAt + REPEAT_AFTER < rows[j].createdAt)
  }

  lemma OfferKeepsSpaced(s: Store, company: string, kind: Recommendation, clock: Clock)
    requires Monotone(clock) && Spaced(s.rows, clock(s.readings))
    ensures var s' := Offer(s, company, kind, clock); Spaced(s'.rows, clock(s'.readings))
  {
    assert clock(s.readings) <= clock(s.readings + 1) <= clock(s.readings + 2);
  }

  lemma {:induction false} OfferAllKeepsSpaced(s: Store, company: string, kinds: seq<Recommendation>, clock: Clock)
    requires Monotone(clock) && Spaced(s.rows, clock(s.readings))
    ensures var s' := OfferAll(s, company, kinds, clock); Spaced(s'.rows, clock(s'.readings))
  {
    if kinds != [] {
      OfferAllKeepsSpaced(s, company, kinds[..|kinds| - 1], clock);
      OfferKeepsSpaced(OfferAll(s, company, kinds[..|kinds| - 1], clock), company, kinds[|kinds| - 1], clock);
    }
  }

  /** One cycle's call: its company, summary, findings and projection. */
  datatype Call = Call(company: string, net30: int, findings: seq<Finding>, projected30: int)

  function RunCalls(calls: seq<Call>, s: Store, clock: Clock): Store {
    if calls == [] then s
    else
      var c := calls[|calls| - 1];
      OfferAll(RunCalls(calls[..|calls| - 1], s, clock).(stored := []), c.company,
               Derive(c.net30, c.findings, c.projected30), clock)
  }

  /** Over every run of calls no recommendation of one kind is repeated to a company within a day, */
  lemma {:induction false} RunKeepsSpaced(calls: seq<Call>, s: Store, clock: Clock)
    requires Monotone(clock) && Spaced(s.rows, clock(s.readings))
    ensures var s' := RunCalls(calls, s, clock); Spaced(s'.rows, clock(s'.readings))
  {
    if calls != [] {
      var c := calls[|calls| - 1];
      RunKeepsSpaced(calls[..|calls| - 1], s, clock);
      OfferAllKeepsSpaced(RunCalls(calls[..|calls| - 1], s, clock).(stored := []), c.company,
                          Derive(c.net30, c.findings, c.projected30), clock);
    }
  }

  /** and after any such run the next call stores exactly the derived ones not already standing. */
  lemma NextCallStores(calls: seq<Call>, c: Call, s: Store, clock: Clock, i: nat)
    requires i < |Derive(c.net30, c.findings, c.projected30)|
    ensures
      var kinds := Derive(c.net30, c.findings, c.projected30);
      var before := RunCalls(calls, s, clock).(stored := []);
      kinds[i] in RunCalls(calls + [c], s, clock).stored <==>
        !StandsAlready(before.rows, c.company, kinds[i], clock(CheckOf(before, c.company, kinds, clock, i)))
  {
    var kinds := Derive(c.net30, c.findings, c.projected30);
    var before := RunCalls(calls, s, clock).(stored := []);
    StandingIffStands(before.rows, c.company, kinds[i], clock(CheckOf(before, c.company, kinds, clock, i)));
    assert (calls + [c])[..|calls|] == calls;
    DerivedDiffer(c.net30, c.findings, c.projected30);
    StoredIffNotStanding(RunCalls(calls, s, clock).(stored := []), c.company,
                         Derive(c.net30, c.findings, c.projected30), clock, i);
  }

  // ---------- apart from how it is computed ----------

  /** A row of the company and kind no more than a day old. */
  ghost predicate StandsAlready(rows: seq<Row>, company: string, kind: Recommendation, now: int) {
    exists row :: row in rows && row.company == company && row.kind == kind
                  && now - row.createdAt <= 24 * 60 * 60 * 1_000_000
  }

  lemma StandingIffStands(rows: seq<Row>, company: string, kind: Recommendation, now: int)
    ensures Standing(rows, company, kind, now) <==> StandsAlready(rows, company, kind, now)
  {
    if Standing(rows, company, kind, now) {
      var i :| 0 <= i < |rows| && rows[i].company == company && rows[i].kind == kind
               && rows[i].createdAt >= now - REPEAT_AFTER;
      assert rows[i] in rows;
    }
  }

  /** What becomes of one derived recommendation. */
  lemma OfferDecides(s: Store, company: string, kind: Recommendation, clock: Clock)
    ensures
      var after := Offer(s, company, kind, clock);
      if StandsAlready(s.rows, company, kind, clock(s.readings)) then after == Store(s.rows, s.readings + 1, s.stored)
      else after == Store(s.rows + [Row(company, kind, clock(s.readings + 1))], s.readings + 2, s.stored + [kind])
  {
    StandingIffStands(s.rows, company, kind, clock(s.readings));
  }

  /** The company's rows, in their order. */
  function OwnRows(rows: seq<Row>, company: string): seq<Row> {
    Selected((row: Row) => row.company == company, rows)
  }

  lemma StandsByOwn(rows: seq<Row>, company: string, kind: Recommendation, now: int)
    ensures StandsAlready(rows, company, kind, now) <==> StandsAlready(OwnRows(rows, company), company, kind, now)
  {
    forall row: Row
      ensures row in OwnRows(rows, company) <==> row in rows && row.company == company
    {
      SelectedHas((row: Row) => row.company == company, rows, row);
    }
  }

  predicate SameFor(s: Store, t: Store, company: string) {
    OwnRows(s.rows, company) == OwnRows(t.rows, company) && s.readings == t.readings && s.stored == t.stored
  }

  lemma OfferSame(s: Store, t: Store, company: string, kind: Recommendation, clock: Clock)
    requires SameFor(s, t, company)
    ensures SameFor(Offer(s, company, kind, clock), Offer(t, company, kind, clock), company)
  {
    OfferDecides(s, company, kind, clock);
    OfferDecides(t, company, kind, clock);
    StandsByOwn(s.rows, company, kind, clock(s.readings));
    StandsByOwn(t.rows, company, kind, clock(s.readings));
    var row := Row(company, kind, clock(s.readings + 1));
    SelectedOfAppend((row: Row) => row.company == company, s.rows, row);
    SelectedOfAppend((row: Row) => row.company == company, t.rows, row);
  }

  /** Tenants do not interfere: whatever other companies have been recommended, a call stores the same. */
  lemma {:induction false} OthersDoNotMatter(s: Store, t: Store, company: string, kinds: seq<Recommendation>,
                                             clock: Clock)
    requires SameFor(s, t, company)
    ensures SameFor(OfferAll(s, company, kinds, clock), OfferAll(t, company, kinds, clock), company)
  {
    if kinds != [] {
      var n := |kinds| - 1;
      OthersDoNotMatter(s, t, company, kinds[..n], clock);
      OfferSame(OfferAll(s, company, kinds[..n], clock), OfferAll(t, company, kinds[..n], clock), company, kinds[n],
                clock);
    }
  }
}
