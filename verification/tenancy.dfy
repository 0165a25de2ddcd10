/** Subscriptions and company resolution (kernel/admin/subscriptions.py,
    kernel/admin/usage_tracker.py, kernel/company_resolver/resolver.py). */
module Tenancy {
  import opened Common

  // ---------- the table of periods ----------

  datatype SubRow = SubRow(id: nat, company: string, cancelled: bool, startedAt: int, endsAt: int, createdAt: int)

  datatype SubStatus = Active | Expired | Cancelled

  datatype GrantError = CompanyNotFound | CompanyInactive

  /** The instant a month after another; all that is known of it is that it is later. */
  type MonthLater = int -> int

  ghost predicate Later(month: MonthLater) {
    forall t :: t < month(t)
  }

  /** `ORDER BY created_at DESC LIMIT 1` among the company's rows. */
  function Latest(rows: seq<SubRow>, company: string): Option<SubRow> {
    if rows == [] then None
    else
      var last := rows[|rows| - 1];
      var before := Latest(rows[..|rows| - 1], company);
      if last.company == company && (before.None? || before.value.createdAt <= last.createdAt)
      then Some(last)
      else before
  }

  function CancelRow(rows: seq<SubRow>, id: nat): (r: seq<SubRow>)
    ensures |r| == |rows|
    ensures forall i :: 0 <= i < |r| ==> r[i] == if rows[i].id == id then rows[i].(cancelled := true) else rows[i]
  {
    seq(|rows|, i requires 0 <= i < |rows| => if rows[i].id == id then rows[i].(cancelled := true) else rows[i])
  }

  // ---------- the three copies of the status rule ----------

  /** `SubscriptionManager._row` */
  function EffectiveStatus(row: SubRow, now: int): SubStatus {
    if row.cancelled then Cancelled else if row.endsAt < now then Expired else Active
  }

  /** `SubscriptionManager.is_blocked` */
  predicate IsBlocked(row: Option<SubRow>, now: int) {
    match row
    case None => false
    case Some(r) => r.cancelled || r.endsAt < now
  }

  /** `subscription_status` inside `UsageTracker.summary`; None is "none". */
  function SummaryStatus(cancelled: Option<bool>, endsAt: int, now: int): Option<SubStatus> {
    match cancelled
    case None => None
    case Some(true) => Some(Cancelled)
    case Some(false) => if endsAt < now then Some(Expired) else Some(Active)
  }

  // ---------- the one-record machine ----------

  /** What there is to know of a company: never granted, or the end of its current period. */
  datatype Period = Never | Current(endsAt: int, cancelled: bool)

  function PeriodOf(rows: seq<SubRow>, company: string): Period {
    match Latest(rows, company)
    case None => Never
    case Some(r) => Current(r.endsAt, r.cancelled)
  }

  function StatusOf(p: Period, now: int): Option<SubStatus> {
    match p
    case Never => None
    case Current(endsAt, cancelled) =>
      Some(if cancelled then Cancelled else if now <= endsAt then Active else Expired)
  }

  /** All three copies say what the record says: a company is blocked exactly when its
      period is cancelled or over, never when it was never granted one. */
  lemma StatusCopiesAgree(rows: seq<SubRow>, company: string, now: int)
    ensures
      var row := Latest(rows, company);
      var status := StatusOf(PeriodOf(rows, company), now);
      && (row.Some? ==> status == Some(EffectiveStatus(row.value, now)))
      && (IsBlocked(row, now) <==> status == Some(Cancelled) || status == Some(Expired))
      && SummaryStatus(if row.Some? then Some(row.value.cancelled) else None,
                       if row.Some? then row.value.endsAt else 0, now) == status
  {
  }

  // ---------- histories ----------

  datatype Books = Books(rows: seq<SubRow>, companies: map<string, bool>)

  datatype Op =
    | DoGrant(company: string, at: int)
    | DoCancel(company: string)
    | DoSwitch(company: string, on: bool)

  function Grant(b: Books, company: string, at: int, month: MonthLater): Result<SubRow, GrantError> {
    if company !in b.companies then Err(CompanyNotFound)
    else if !b.companies[company] then Err(CompanyInactive)
    else Ok(SubRow(|b.rows|, company, false, at, month(at), at))
  }

  function Do(b: Books, op: Op, month: MonthLater): Books {
    match op
    case DoGrant(company, at) =>
      (match Grant(b, company, at, month)
       case Ok(row) => b.(rows := b.rows + [row])
       case Err(_) => b)
    case DoCancel(company) =>
      (match Latest(b.rows, company)
       case Some(row) => b.(rows := CancelRow(b.rows, row.id))
       case None => b)
    case DoSwitch(company, on) => b.(companies := b.companies[company := on])
  }

  /** The same operation on one company's record. */
  function DoPeriod(p: Period, on: bool, op: Op, company: string, month: MonthLater): Period {
    match op
    case DoGrant(c, at) => if c == company && on then Current(month(at), false) else p
    case DoCancel(c) => if c == company && p.Current? then p.(cancelled := true) else p
    case DoSwitch(_, _) => p
  }

  function Run(b: Books, ops: seq<Op>, month: MonthLater): Books {
    if ops == [] then b else Do(Run(b, ops[..|ops| - 1], month), ops[|ops| - 1], month)
  }

  predicate IsOn(b: Books, company: string) {
    company in b.companies && b.companies[company]
  }

  function RunPeriod(b: Books, ops: seq<Op>, company: string, month: MonthLater): Period {
    if ops == [] then PeriodOf(b.rows, company)
    else
      var n := |ops| - 1;
      DoPeriod(RunPeriod(b, ops[..n], company, month), IsOn(Run(b, ops[..n], month), company), ops[n], company, month)
  }

  /** Row ids are positions, and no row was created after `now`. */
  predicate Ordered(rows: seq<SubRow>, now: int) {
    forall i :: 0 <= i < |rows| ==> rows[i].id == i && rows[i].createdAt <= now
  }

  lemma {:induction false} LatestIsRow(rows: seq<SubRow>, company: string)
    ensures
      var latest := Latest(rows, company);
      latest.Some? ==> latest.value in rows && latest.value.company == company
  {
    if rows != [] {
      LatestIsRow(rows[..|rows| - 1], company);
    }
  }

  /** Cancelling a row changes no other company's latest row, and only the flag of its own. */
  lemma {:induction false} LatestOfCancel(rows: seq<SubRow>, id: nat, company: string)
    ensures Latest(CancelRow(rows, id), company)
         == match Latest(rows, company)
            case None => None
            case Some(r) => Some(if r.id == id then r.(cancelled := true) else r)
  {
    if rows != [] {
      var n := |rows| - 1;
      LatestOfCancel(rows[..n], id, company);
      assert CancelRow(rows, id)[..n] == CancelRow(rows[..n], id);
    }
  }

  lemma OpRefines(b: Books, op: Op, company: string, month: MonthLater, now: int)
    requires Ordered(b.rows, now) && (op.DoGrant? ==> now < op.at)
    ensures PeriodOf(Do(b, op, month).rows, company)
         == DoPeriod(PeriodOf(b.rows, company), IsOn(b, company), op, company, month)
    ensures Ordered(Do(b, op, month).rows, if op.DoGrant? then op.at else now)
  {
    match op
    case DoGrant(c, at) =>
      var rows' := Do(b, op, month).rows;
      if IsOn(b, c) {
        assert rows'[..|b.rows|] == b.rows;
        LatestIsRow(b.rows, company);
      }
    case DoCancel(c) =>
      LatestIsRow(b.rows, c);
      LatestIsRow(b.rows, company);
      if Latest(b.rows, c).Some? {
        LatestOfCancel(b.rows, Latest(b.rows, c).value.id, company);
      }
    case DoSwitch(_, _) =>
  }

  /** Each grant is recorded later than everything before it. */
  predicate ClockAdvances(ops: seq<Op>, now: int) {
    if ops == [] then true
    else
      var last := ops[|ops| - 1];
      ClockAdvances(ops[..|ops| - 1], now)
      && (last.DoGrant? ==> LastGrant(ops[..|ops| - 1], now) < last.at)
  }

  function LastGrant(ops: seq<Op>, now: int): int {
    if ops == [] then now
    else if ops[|ops| - 1].DoGrant? then ops[|ops| - 1].at
    else LastGrant(ops[..|ops| - 1], now)
  }

  /** Over every history of grants, cancels and activations, the growing table says of each
      company exactly what its single record says. */
  lemma {:induction false} TableRefinesRecord(b: Books, ops: seq<Op>, company: string, month: MonthLater, now: int)
    requires Ordered(b.rows, now) && ClockAdvances(ops, now)
    ensures PeriodOf(Run(b, ops, month).rows, company) == RunPeriod(b, ops, company, month)
    ensures Ordered(Run(b, ops, month).rows, LastGrant(ops, now))
  {
    if ops != [] {
      var n := |ops| - 1;
      TableRefinesRecord(b, ops[..n], company, month, now);
      OpRefines(Run(b, ops[..n], month), ops[n], company, month, LastGrant(ops[..n], now));
    }
  }

  class SubscriptionManager {
    var rows: seq<SubRow>
    var companies: map<string, bool>

    function Now(): Books
      reads this
    {
      Books(rows, companies)
    }

    constructor (companies: map<string, bool>)
      ensures Now() == Books([], companies)
    {
      rows := [];
      this.companies := companies;
    }

    method GrantMonth(company: string, at: int, month: MonthLater) returns (r: Result<SubRow, GrantError>)
      modifies this`rows
      ensures r == Grant(old(Now()), company, at, month)
      ensures company !in companies ==> r == Err(CompanyNotFound)
      ensures company in companies && !companies[company] ==> r == Err(CompanyInactive)
      ensures IsOn(old(Now()), company) ==>
                && r.Ok? && r.value.company == company && !r.value.cancelled
                && r.value.startedAt == at == r.value.createdAt && r.value.endsAt == month(at)
                && rows == old(rows) + [r.value]
      ensures Now() == Do(old(Now()), DoGrant(company, at), month)
    {
      if company !in companies {
        return Err(CompanyNotFound);
      }
      if !companies[company] {
        return Err(CompanyInactive);
      }
      var row := SubRow(|rows|, company, false, at, month(at), at);
      rows := rows + [row];
      return Ok(row);
    }

    method Cancel(company: string, ghost month: MonthLater)
      modifies this`rows
      ensures Now() == Do(old(Now()), DoCancel(company), month)
    {
      var latest := Latest(rows, company);
      if latest.Some? {
        rows := CancelRow(rows, latest.value.id);
      }
    }
  }

  // ---------- resolution ----------

  datatype Company = Company(name: string, country: string, active: bool)

  datatype Member = Member(user: string, company: string)

  /** Users' and companies' switches, and memberships, oldest first. */
  datatype Directory = Directory(users: map<string, bool>, companies: map<string, Company>, members: seq<Member>)

  datatype Resolved = Resolved(id: string, name: string, country: string)

  datatype ResolveError = UserDeactivated | NotAMember | CompanyDeactivated | NoCompany | Ambiguous | Lapsed

  datatype Alert = Alert(about: ResolveError, user: string, company: Option<string>)

  /** Foreign keys hold, and a user is a member of a company once. */
  predicate Consistent(d: Directory) {
    && (forall i :: 0 <= i < |d.members| ==> d.members[i].company in d.companies)
    && (forall i, j :: 0 <= i < j < |d.members| ==> d.members[i] != d.members[j])
  }

  function CompaniesOf(members: seq<Member>, user: string): seq<string> {
    if members == [] then []
    else (if members[0].user == user then [members[0].company] else []) + CompaniesOf(members[1..], user)
  }

  lemma {:induction false} CompaniesOfIff(members: seq<Member>, user: string, company: string)
    ensures company in CompaniesOf(members, user) <==> Member(user, company) in members
  {
    if members != [] {
      CompaniesOfIff(members[1..], user, company);
      assert members == [members[0]] + members[1..];
    }
  }

  function ActiveOnly(d: Directory, ids: seq<string>): seq<string> {
    if ids == [] then []
    else (if ids[0] in d.companies && d.companies[ids[0]].active then [ids[0]] else []) + ActiveOnly(d, ids[1..])
  }

  lemma {:induction false} ActiveOnlyIff(d: Directory, ids: seq<string>, id: string)
    ensures id in ActiveOnly(d, ids) <==> id in ids && id in d.companies && d.companies[id].active
  {
    if ids != [] {
      ActiveOnlyIff(d, ids[1..], id);
      assert ids == [ids[0]] + ids[1..];
    }
  }

  /** The subscription check, then the answer; the alert goes with the refusal. */
  function Enforce(d: Directory, rows: seq<SubRow>, user: string, id: string, now: int)
    : (Result<Resolved, ResolveError>, seq<Alert>)
    requires id in d.companies
  {
    if IsBlocked(Latest(rows, id), now) then (Err(Lapsed), [Alert(Lapsed, user, Some(id))])
    else (Ok(Resolved(id, d.companies[id].name, d.companies[id].country)), [])
  }

  function Resolve(d: Directory, rows: seq<SubRow>, user: string, company: Option<string>, now: int)
    : (Result<Resolved, ResolveError>, seq<Alert>)
    requires Consistent(d)
  {
    if user in d.users && !d.users[user] then (Err(UserDeactivated), [Alert(UserDeactivated, user, None)])
    else if company.Some? && company.value != "" then
      var id := company.value;
      if Member(user, id) !in d.members then (Err(NotAMember), [])
      else if !d.companies[id].active then (Err(CompanyDeactivated), [Alert(CompanyDeactivated, user, Some(id))])
      else Enforce(d, rows, user, id, now)
    else
      var ids := CompaniesOf(d.members, user);
      var active := ActiveOnly(d, ids);
      if active == [] then
        if ids != [] then (Err(CompanyDeactivated), [Alert(CompanyDeactivated, user, Some(ids[0]))])
        else (Err(NoCompany), [])
      else if |active| > 1 then (Err(Ambiguous), [])
      else
        ActiveOnlyIff(d, ids, active[0]);
        Enforce(d, rows, user, active[0], now)
  }

  class CompanyResolver {
    var alerts: seq<Alert>

    constructor ()
      ensures alerts == []
    {
      alerts := [];
    }

    /** Storing an alert may fail, which the answer does not show: `alerting` tells whether it works. */
    method ResolveRequest(d: Directory, rows: seq<SubRow>, user: string, company: Option<string>, now: int,
                          alerting: bool)
      returns (r: Result<Resolved, ResolveError>)
      requires Consistent(d)
      modifies this
      ensures r == Resolve(d, rows, user, company, now).0
      ensures alerts == old(alerts) + if alerting then Resolve(d, rows, user, company, now).1 else []
    {
      if user in d.users && !d.users[user] {
        AlertDeactivatedAccess(Alert(UserDeactivated, user, None), alerting);
        return Err(UserDeactivated);
      }
      if company.Some? && company.value != "" {
        if Member(user, company.value) !in d.members {
          return Err(NotAMember);
        }
        if !d.companies[company.value].active {
          AlertDeactivatedAccess(Alert(CompanyDeactivated, user, Some(company.value)), alerting);
          return Err(CompanyDeactivated);
        }
        r := EnforceSubscription(d, rows, user, company.value, now, alerting);
        return;
      }
      var ids := CompaniesOf(d.members, user);
      var active := ActiveOnly(d, ids);
      if active == [] {
        if ids != [] {
          AlertDeactivatedAccess(Alert(CompanyDeactivated, user, Some(ids[0])), alerting);
          return Err(CompanyDeactivated);
        }
        return Err(NoCompany);
      }
      if |active| > 1 {
        return Err(Ambiguous);
      }
      ActiveOnlyIff(d, ids, active[0]);
      r := EnforceSubscription(d, rows, user, active[0], now, alerting);
    }

    /** An exception while storing goes no further. */
    method AlertDeactivatedAccess(alert: Alert, alerting: bool)
      modifies this
      ensures alerts == old(alerts) + if alerting then [alert] else []
    {
      if alerting {
        alerts := alerts + [alert];
      }
    }

    method EnforceSubscription(d: Directory, rows: seq<SubRow>, user: string, id: string, now: int, alerting: bool)
      returns (r: Result<Resolved, ResolveError>)
      requires id in d.companies
      modifies this
      ensures r == Enforce(d, rows, user, id, now).0
      ensures alerts == old(alerts) + if alerting then Enforce(d, rows, user, id, now).1 else []
    {
      if IsBlocked(Latest(rows, id), now) {
        AlertDeactivatedAccess(Alert(Lapsed, user, Some(id)), alerting);
        return Err(Lapsed);
      }
      return Ok(Resolved(id, d.companies[id].name, d.companies[id].country));
    }
  }

  /** Leaving the company out resolves to c exactly when c is the user's only active
      membership and naming it resolves to c as well. */
  lemma OmittedIffOnlyActive(d: Directory, rows: seq<SubRow>, user: string, c: Resolved, now: int)
    requires Consistent(d) && c.id != ""
    ensures Resolve(d, rows, user, None, now).0 == Ok(c) <==>
              ActiveOnly(d, CompaniesOf(d.members, user)) == [c.id]
              && Resolve(d, rows, user, Some(c.id), now).0 == Ok(c)
  {
    var ids := CompaniesOf(d.members, user);
    CompaniesOfIff(d.members, user, c.id);
    ActiveOnlyIff(d, ids, c.id);
    if |ActiveOnly(d, ids)| == 1 {
      ActiveOnlyIff(d, ids, ActiveOnly(d, ids)[0]);
      CompaniesOfIff(d.members, user, ActiveOnly(d, ids)[0]);
    }
  }

  lemma NamedResolvesWhen(d: Directory, rows: seq<SubRow>, user: string, id: string, now: int)
    requires Consistent(d) && id != ""
    ensures Resolve(d, rows, user, Some(id), now).0.Ok? <==>
              && (user in d.users ==> d.users[user])
              && Member(user, id) in d.members
              && d.companies[id].active
              && StatusOf(PeriodOf(rows, id), now) in {None, Some(Active)}
  {
    StatusCopiesAgree(rows, id, now);
  }

  /** After any history of grants and cancels, a request for a named company goes through exactly
      when the user is not switched off, is a member, the company is on, and the one period that
      history leaves it, if any, is running. */
  lemma NamedResolvesIff(d: Directory, b: Books, ops: seq<Op>, month: MonthLater, granted: int, user: string,
                         id: string, now: int)
    requires Consistent(d) && id != "" && Ordered(b.rows, granted) && ClockAdvances(ops, granted)
    ensures Resolve(d, Run(b, ops, month).rows, user, Some(id), now).0.Ok? <==>
              && (user in d.users ==> d.users[user])
              && Member(user, id) in d.members
              && d.companies[id].active
              && StatusOf(RunPeriod(b, ops, id, month), now) in {None, Some(Active)}
  {
    TableRefinesRecord(b, ops, id, month, granted);
    NamedResolvesWhen(d, Run(b, ops, month).rows, user, id, now);
  }

  /** Whatever came before, cancelled or lapsed, a grant lets the company's members in from its
      instant to a month later and not after, unless something follows. */
  lemma GrantUnblocks(d: Directory, b: Books, ops: seq<Op>, month: MonthLater, granted: int, at: int, user: string,
                      id: string, now: int)
    requires Consistent(d) && id != "" && Later(month)
    requires Ordered(b.rows, granted) && ClockAdvances(ops + [DoGrant(id, at)], granted)
    requires IsOn(Run(b, ops, month), id) && Member(user, id) in d.members && d.companies[id].active
    requires user in d.users ==> d.users[user]
    ensures
      var rows := Run(b, ops + [DoGrant(id, at)], month).rows;
      && (Resolve(d, rows, user, Some(id), now).0.Ok? <==> now <= month(at))
      && Resolve(d, rows, user, Some(id), at).0.Ok?
  {
    var all := ops + [DoGrant(id, at)];
    assert all[..|ops|] == ops;
    NamedResolvesIff(d, b, all, month, granted, user, id, now);
    NamedResolvesIff(d, b, all, month, granted, user, id, at);
  }

  // ---------- which answer ----------

  predicate IsMember(d: Directory, user: string, id: string) {
    Member(user, id) in d.members
  }

  predicate IsActiveMember(d: Directory, user: string, id: string) {
    IsMember(d, user, id) && id in d.companies && d.companies[id].active
  }

  lemma ListedAsMember(d: Directory, user: string, id: string)
    ensures id in CompaniesOf(d.members, user) <==> IsMember(d, user, id)
    ensures id in ActiveOnly(d, CompaniesOf(d.members, user)) <==> IsActiveMember(d, user, id)
  {
    CompaniesOfIff(d.members, user, id);
    ActiveOnlyIff(d, CompaniesOf(d.members, user), id);
  }

  predicate NoneTwice(ids: seq<string>) {
    forall i, j :: 0 <= i < j < |ids| ==> ids[i] != ids[j]
  }

  lemma {:induction false} CompaniesOnce(members: seq<Member>, user: string)
    requires forall i, j :: 0 <= i < j < |members| ==> members[i] != members[j]
    ensures NoneTwice(CompaniesOf(members, user))
  {
    if members != [] {
      var rest := CompaniesOf(members[1..], user);
      CompaniesOnce(members[1..], user);
      CompaniesOfIff(members[1..], user, members[0].company);
      assert members[0] !in members[1..];
      assert members[0].user == user ==> members[0].company !in rest;
    }
  }

  lemma {:induction false} ActiveOnce(d: Directory, ids: seq<string>)
    requires NoneTwice(ids)
    ensures NoneTwice(ActiveOnly(d, ids))
  {
    if ids != [] {
      ActiveOnce(d, ids[1..]);
      ActiveOnlyIff(d, ids[1..], ids[0]);
      assert ids[0] !in ids[1..];
    }
  }

  /** Two companies the user is an active member of. */
  ghost predicate SeveralActive(d: Directory, user: string) {
    exists a, b :: a != b && IsActiveMember(d, user, a) && IsActiveMember(d, user, b)
  }

  lemma ActiveCount(d: Directory, user: string)
    requires Consistent(d)
    ensures
      var active := ActiveOnly(d, CompaniesOf(d.members, user));
      && (active == [] <==> forall id :: !IsActiveMember(d, user, id))
      && (|active| > 1 <==> SeveralActive(d, user))
      && (active != [] ==> IsActiveMember(d, user, active[0]))
  {
    var ids := CompaniesOf(d.members, user);
    var active := ActiveOnly(d, ids);
    CompaniesOnce(d.members, user);
    ActiveOnce(d, ids);
    forall id: string
      ensures id in active <==> IsActiveMember(d, user, id)
    {
      ListedAsMember(d, user, id);
    }
    if active != [] {
      assert active[0] in active;
    }
    if |active| > 1 {
      assert active[0] != active[1] && active[1] in active;
    }
    if a, b :| a != b && IsActiveMember(d, user, a) && IsActiveMember(d, user, b) {
      assert a in active && b in active;
    }
  }

  /** What a request about a company comes to once the user is let in: itself, by its own name and
      country, unless its period is over or cancelled. */
  predicate Admits(d: Directory, rows: seq<SubRow>, id: string, now: int, r: Result<Resolved, ResolveError>) {
    if StatusOf(PeriodOf(rows, id), now) in {Some(Expired), Some(Cancelled)} then r == Err(Lapsed)
    else id in d.companies && r == Ok(Resolved(id, d.companies[id].name, d.companies[id].country))
  }

  lemma EnforceAdmits(d: Directory, rows: seq<SubRow>, user: string, id: string, now: int)
    requires id in d.companies
    ensures Admits(d, rows, id, now, Enforce(d, rows, user, id, now).0)
  {
    StatusCopiesAgree(rows, id, now);
  }

  /** The answer to a request that names a company. */
  lemma NamedAnswer(d: Directory, rows: seq<SubRow>, user: string, id: string, now: int)
    requires Consistent(d) && id != ""
    ensures
      var r := Resolve(d, rows, user, Some(id), now).0;
      if user in d.users && !d.users[user] then r == Err(UserDeactivated)
      else if !IsMember(d, user, id) then r == Err(NotAMember)
      else if !d.companies[id].active then r == Err(CompanyDeactivated)
      else Admits(d, rows, id, now, r)
  {
    if IsMember(d, user, id) {
      EnforceAdmits(d, rows, user, id, now);
    }
  }

  /** The answer to one that names none, as an empty name does not. */
  lemma UnnamedAnswer(d: Directory, rows: seq<SubRow>, user: string, company: Option<string>, now: int)
    requires Consistent(d) && company in {None, Some("")}
    ensures
      var r := Resolve(d, rows, user, company, now).0;
      if user in d.users && !d.users[user] then r == Err(UserDeactivated)
      else if forall id :: !IsMember(d, user, id) then r == Err(NoCompany)
      else if forall id :: !IsActiveMember(d, user, id) then r == Err(CompanyDeactivated)
      else if SeveralActive(d, user) then r == Err(Ambiguous)
      else exists id :: IsActiveMember(d, user, id) && Admits(d, rows, id, now, r)
  {
    var ids := CompaniesOf(d.members, user);
    var active := ActiveOnly(d, ids);
    ActiveCount(d, user);
    NoMembershipIff(d, user);
    if |active| == 1 {
      EnforceAdmits(d, rows, user, active[0], now);
    }
  }

  lemma NoMembershipIff(d: Directory, user: string)
    ensures CompaniesOf(d.members, user) == [] <==> forall id :: !IsMember(d, user, id)
  {
    var ids := CompaniesOf(d.members, user);
    forall id: string
      ensures id in ids <==> IsMember(d, user, id)
    {
      CompaniesOfIff(d.members, user, id);
    }
    if ids != [] {
      assert ids[0] in ids;
    }
  }

  /** Whatever came before, a cancel shuts the company's members out at every instant, until something
      follows; a company never granted a period has none to cancel. */
  lemma CancelBlocks(d: Directory, b: Books, ops: seq<Op>, month: MonthLater, granted: int, user: string, id: string,
                     now: int)
    requires Consistent(d) && id != "" && Ordered(b.rows, granted) && ClockAdvances(ops, granted)
    ensures
      var cancelled := Run(b, ops + [DoCancel(id)], month).rows;
      if RunPeriod(b, ops, id, month).Never?
      then Resolve(d, cancelled, user, Some(id), now) == Resolve(d, Run(b, ops, month).rows, user, Some(id), now)
      else Resolve(d, cancelled, user, Some(id), now).0.Err?
  {
    var all := ops + [DoCancel(id)];
    assert all[..|ops|] == ops;
    TableRefinesRecord(b, ops, id, month, granted);
    NamedResolvesIff(d, b, all, month, granted, user, id, now);
  }

  /** The user's oldest membership. */
  ghost predicate OldestMembership(d: Directory, user: string, id: string) {
    exists i :: 0 <= i < |d.members| && d.members[i] == Member(user, id)
                && forall j :: 0 <= j < i ==> d.members[j].user != user
  }

  lemma {:induction false} FirstCompanyIsOldest(members: seq<Member>, user: string)
    requires CompaniesOf(members, user) != []
    ensures exists i :: 0 <= i < |members| && members[i] == Member(user, CompaniesOf(members, user)[0])
                        && forall j :: 0 <= j < i ==> members[j].user != user
  {
    if members[0].user != user {
      FirstCompanyIsOldest(members[1..], user);
      var i :| 0 <= i < |members[1..]| && members[1..][i] == Member(user, CompaniesOf(members[1..], user)[0])
               && forall j :: 0 <= j < i ==> members[1..][j].user != user;
      assert members[i + 1] == members[1..][i];
      assert forall j :: 0 < j < i + 1 ==> members[j] == members[1..][j - 1];
    } else {
      assert members[0] == Member(user, CompaniesOf(members, user)[0]);
    }
  }

  /** What an alert says of the company: nothing when it is the user who is switched off; the one named;
      without a name the oldest membership if none is active, and the active one if its period is over. */
  ghost predicate AlertsAbout(d: Directory, user: string, company: Option<string>, about: ResolveError,
                              alerted: Option<string>)
  {
    if about == UserDeactivated then alerted.None?
    else if company.Some? && company.value != "" then alerted == company
    else if about == CompanyDeactivated then alerted.Some? && OldestMembership(d, user, alerted.value)
    else alerted.Some? && IsActiveMember(d, user, alerted.value)
  }

  /** One alert is sent with every refusal for something switched off or lapsed, about the user and the
      company concerned, and none with any other answer. */
  lemma AlertsMatchRefusals(d: Directory, rows: seq<SubRow>, user: string, company: Option<string>, now: int)
    requires Consistent(d)
    ensures
      var (r, alerts) := Resolve(d, rows, user, company, now);
      if r.Err? && r.error in {UserDeactivated, CompanyDeactivated, Lapsed}
      then
        && |alerts| == 1 && alerts[0].about == r.error && alerts[0].user == user
        && AlertsAbout(d, user, company, r.error, alerts[0].company)
      else alerts == []
  {
    ActiveCount(d, user);
    if CompaniesOf(d.members, user) != [] {
      FirstCompanyIsOldest(d.members, user);
    }
  }
}
