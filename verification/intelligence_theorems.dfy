/** The gate, the two-row rule and tenant isolation, over every run of the engine. */
module IntelligenceTheorems {
  import opened Common
  import opened Intelligence
  import opened Selection

  const OBSERVED := [
    "transaction.recorded", "ledger.csv_imported", "provider.connected", "provider.disconnected",
    "integration.connected", "integration.disconnected", "blueprint.published", "blueprint.version_restored",
    "workflow.created", "mapping.saved", "schema.saved", "replay.simulated", "payment.received",
    "invoice.created", "invoice.paid", "inventory.updated", "payroll.completed", "expense.recorded",
    "supplier.updated", "customer.registered", "order.completed", "purchase.created", "tax.filed", "refund.issued"]

  lemma CycleIsNotObserved()
    ensures CYCLE_COMPLETED !in OBSERVED
  {
  }

  lemma ObservedDiffer()
    ensures forall i, j :: 0 <= i < j < |OBSERVED| ==> OBSERVED[i] != OBSERVED[j]
  {
  }

  lemma ObservedIsSound()
    ensures Sound(OBSERVED) && BLUEPRINT_PUBLISHED in OBSERVED
  {
    CycleIsNotObserved();
    ObservedDiffer();
    assert OBSERVED[6] == BLUEPRINT_PUBLISHED;
  }

  // ---------- one event ----------

  /** An observed event of an active company whose cycle succeeds adds exactly two rows in
      order, every stage once and both stamps; of an inactive one, the event row and
      nothing else. A cycle that fails adds no second row and never switches anyone off. */
  lemma ObservedEvent(observed: seq<string>, s: State, name: string, company: string, version: Option<int>,
                      fault: Fault, now: int)
    requires Sound(observed) && name in observed && name != BLUEPRINT_PUBLISHED && name != "scheduled"
    ensures
      var s' := Publish(observed, s, name, Some(company), version, fault, now);
      if !IsActive(s, company) then s' == s.(log := s.log + [Event(name, Some(company))])
      else if fault.None? then
        && s'.log == s.log + [Event(name, Some(company)), Event(CYCLE_COMPLETED, Some(company))]
        && s'.writes == s.writes + WritesOf(company, STAGES)
        && s'.status == s.status[company := s.status[company].(lastCycleAt := Some(now), lastEventAt := Some(now))]
        && s'.preferences == s.preferences
      else
        && s'.log == s.log + [Event(name, Some(company))]
        && s.writes <= s'.writes
        && IsActive(s', company)
  {
    assert STAGES[..|STAGES|] == STAGES;
  }

  // ---------- runs ----------

  datatype Op =
    | DoPublish(name: string, company: Option<string>, version: Option<int>, fault: Fault, now: int)
    | DoSchedule(tenant: string, fault: Fault, now: int)
    | DoDeactivate(tenant: string, now: int)

  function Do(observed: seq<string>, s: State, op: Op): State {
    match op
    case DoPublish(name, company, version, fault, now) => Publish(observed, s, name, company, version, fault, now)
    case DoSchedule(company, fault, now) => Cycle(s, company, "scheduled", fault, now)
    case DoDeactivate(company, now) => Deactivate(s, company, now)
  }

  function Run(observed: seq<string>, s: State, ops: seq<Op>): State {
    if ops == [] then s else Do(observed, Run(observed, s, ops[..|ops| - 1]), ops[|ops| - 1])
  }

  // ---------- the gate ----------

  predicate Activates(op: Op, company: string) {
    op.DoPublish? && op.name == BLUEPRINT_PUBLISHED && op.company == Some(company)
  }

  predicate Deactivates(op: Op, company: string) {
    op.DoDeactivate? && op.tenant == company
  }

  /** Whether the last operation that switches the company on or off switched it on. */
  predicate LastSwitchedOn(ops: seq<Op>, company: string) {
    if ops == [] then false
    else
      var last := ops[|ops| - 1];
      Activates(last, company) || (!Deactivates(last, company) && LastSwitchedOn(ops[..|ops| - 1], company))
  }

  const EMPTY := State([], map[], {}, [])

  lemma {:induction false} ActiveIffLastSwitchedOn(observed: seq<string>, ops: seq<Op>, company: string)
    requires BLUEPRINT_PUBLISHED in observed
    ensures IsActive(Run(observed, EMPTY, ops), company) <==> LastSwitchedOn(ops, company)
  {
    if ops != [] {
      var n := |ops| - 1;
      ActiveIffLastSwitchedOn(observed, ops[..n], company);
      StatusKept(observed, Run(observed, EMPTY, ops[..n]), ops[n], company);
    }
  }

  lemma StatusKept(observed: seq<string>, s: State, op: Op, company: string)
    requires BLUEPRINT_PUBLISHED in observed
    ensures Activates(op, company) ==> IsActive(Do(observed, s, op), company)
    ensures Deactivates(op, company) ==> !IsActive(Do(observed, s, op), company)
    ensures !Activates(op, company) && !Deactivates(op, company) ==>
              (IsActive(Do(observed, s, op), company) <==> IsActive(s, company))
  {
  }

  /** The trigger of the cycle an operation asks for on the company's behalf, if it does. */
  function CycleTrigger(observed: seq<string>, op: Op, company: string): Option<string> {
    match op
    case DoPublish(name, actor, _, _, _) =>
      if name in observed && name != BLUEPRINT_PUBLISHED && actor == Some(company) then Some(name) else None
    case DoSchedule(tenant, _, _) => if tenant == company then Some("scheduled") else None
    case DoDeactivate(_, _) => None
  }

  /** The cycle gets as far as its stamp. */
  predicate ReachesStamp(op: Op) {
    !op.DoDeactivate? && (op.fault.None? || op.fault.value > |STAGES|)
  }

  /** The instant of the last cycle that reached its stamp while the company was switched on;
      scheduled cycles count only if `scheduled`. */
  function LastStamp(observed: seq<string>, ops: seq<Op>, company: string, scheduled: bool): Option<int> {
    if ops == [] then None
    else
      var before, last := ops[..|ops| - 1], ops[|ops| - 1];
      var trigger := CycleTrigger(observed, last, company);
      if trigger.Some? && ReachesStamp(last) && LastSwitchedOn(before, company)
         && (scheduled || trigger.value != "scheduled")
      then Some(last.now)
      else LastStamp(observed, before, company, scheduled)
  }

  predicate Stamped(s: State, company: string, lastCycle: Option<int>, lastEvent: Option<int>) {
    if company in s.status
    then s.status[company].lastCycleAt == lastCycle && s.status[company].lastEventAt == lastEvent
    else lastCycle.None? && lastEvent.None?
  }

  lemma OpStamps(observed: seq<string>, s: State, op: Op, company: string, lastCycle: Option<int>,
                 lastEvent: Option<int>)
    requires Stamped(s, company, lastCycle, lastEvent)
    ensures
      var trigger := CycleTrigger(observed, op, company);
      var stamps := trigger.Some? && ReachesStamp(op) && IsActive(s, company);
      Stamped(Do(observed, s, op), company, if stamps then Some(op.now) else lastCycle,
              if stamps && trigger.value != "scheduled" then Some(op.now) else lastEvent)
  {
  }

  /** Over every run the two stamps tell the last cycle, and the last cycle not asked for by the
      schedule, that was completed while the company was on: switching off and on keeps both. */
  lemma {:induction false} StampsTellLastCycles(observed: seq<string>, ops: seq<Op>, company: string)
    requires BLUEPRINT_PUBLISHED in observed
    ensures Stamped(Run(observed, EMPTY, ops), company, LastStamp(observed, ops, company, true),
                    LastStamp(observed, ops, company, false))
  {
    if ops != [] {
      var before := ops[..|ops| - 1];
      StampsTellLastCycles(observed, before, company);
      ActiveIffLastSwitchedOn(observed, before, company);
      OpStamps(observed, Run(observed, EMPTY, before), ops[|ops| - 1], company,
               LastStamp(observed, before, company, true), LastStamp(observed, before, company, false));
    }
  }

  /** When the company was first switched on. */
  function FirstOn(ops: seq<Op>, company: string): Option<int> {
    if ops == [] then None
    else
      var before, last := FirstOn(ops[..|ops| - 1], company), ops[|ops| - 1];
      if before.None? && Activates(last, company) then Some(last.now) else before
  }

  /** The version with which it was last switched on. */
  function LastVersion(ops: seq<Op>, company: string): Option<int> {
    if ops == [] then None
    else if Activates(ops[|ops| - 1], company) then ops[|ops| - 1].version
    else LastVersion(ops[..|ops| - 1], company)
  }

  /** When it was last switched off, unless it has been on since or never was before. */
  function OffSince(ops: seq<Op>, company: string): Option<int> {
    if ops == [] then None
    else
      var before, last := ops[..|ops| - 1], ops[|ops| - 1];
      if Activates(last, company) then None
      else if Deactivates(last, company) && FirstOn(before, company).Some? then Some(last.now)
      else OffSince(before, company)
  }

  /** The row and the preferences say when and how the company was switched. */
  predicate Switched(s: State, company: string, firstOn: Option<int>, version: Option<int>, offSince: Option<int>) {
    && (company in s.status <==> firstOn.Some?)
    && (company in s.preferences <==> firstOn.Some?)
    && (company in s.status ==>
          && s.status[company].activatedAt == firstOn
          && s.status[company].blueprintVersion == version
          && s.status[company].deactivatedAt == offSince)
  }

  lemma OpSwitches(observed: seq<string>, s: State, op: Op, company: string, firstOn: Option<int>,
                   version: Option<int>, offSince: Option<int>)
    requires BLUEPRINT_PUBLISHED in observed && Switched(s, company, firstOn, version, offSince)
    ensures Switched(Do(observed, s, op), company,
                     if firstOn.None? && Activates(op, company) then Some(op.now) else firstOn,
                     if Activates(op, company) then op.version else version,
                     if Activates(op, company) then None
                     else if Deactivates(op, company) && firstOn.Some? then Some(op.now) else offSince)
  {
  }

  /** Over every run the company has a row and preferences exactly when it has ever been switched on,
      and the row tells when it first was, with which version it last was, and since when it is off. */
  lemma {:induction false} StatusTellsSwitches(observed: seq<string>, ops: seq<Op>, company: string)
    requires BLUEPRINT_PUBLISHED in observed
    ensures Switched(Run(observed, EMPTY, ops), company, FirstOn(ops, company), LastVersion(ops, company),
                     OffSince(ops, company))
  {
    if ops != [] {
      var before := ops[..|ops| - 1];
      StatusTellsSwitches(observed, before, company);
      OpSwitches(observed, Run(observed, EMPTY, before), ops[|ops| - 1], company, FirstOn(before, company),
                 LastVersion(before, company), OffSince(before, company));
    }
  }

  function WritesFor(writes: seq<Write>, company: string): seq<Stage> {
    if writes == [] then []
    else
      var n := |writes| - 1;
      WritesFor(writes[..n], company) + if writes[n].company == company then [writes[n].stage] else []
  }

  lemma {:induction false} WritesForConcat(a: seq<Write>, b: seq<Write>, company: string)
    ensures WritesFor(a + b, company) == WritesFor(a, company) + WritesFor(b, company)
  {
    if b == [] {
      assert a + b == a;
    } else {
      WritesForConcat(a, b[..|b| - 1], company);
      assert (a + b)[..|a + b| - 1] == a + b[..|b| - 1];
    }
  }

  lemma {:induction false} WritesForOne(company: string, stages: seq<Stage>, other: string)
    ensures WritesFor(WritesOf(company, stages), other) == if other == company then stages else []
  {
    if stages != [] {
      var n := |stages| - 1;
      WritesForOne(company, stages[..n], other);
      assert WritesOf(company, stages)[..n] == WritesOf(company, stages[..n]);
      assert stages == stages[..n] + [stages[n]];
    }
  }

  /** No cycle leaves a trace for a company between switches off: the operation writes
      something for it only if it was active just before. */
  lemma WritesOnlyWhileActive(observed: seq<string>, s: State, op: Op, company: string)
    ensures WritesFor(Do(observed, s, op).writes, company) != WritesFor(s.writes, company) ==> IsActive(s, company)
  {
    var s' := Do(observed, s, op);
    if s'.writes != s.writes {
      var actor := if op.DoPublish? then op.company.value else op.tenant;
      var stages := STAGES[..Reached(op.fault)];
      assert s'.writes == s.writes + WritesOf(actor, stages);
      WritesForConcat(s.writes, WritesOf(actor, stages), company);
      WritesForOne(actor, stages, company);
    }
  }

  // ---------- tenants do not interfere ----------

  function EventsFor(log: seq<Event>, company: string): seq<string> {
    if log == [] then []
    else
      var n := |log| - 1;
      EventsFor(log[..n], company) + if log[n].company == Some(company) then [log[n].name] else []
  }

  /** All that a company can see of the engine. */
  datatype View = View(events: seq<string>, status: Option<Status>, hasPreferences: bool, writes: seq<Stage>)

  function ViewOf(s: State, company: string): View {
    View(EventsFor(s.log, company), if company in s.status then Some(s.status[company]) else None,
         company in s.preferences, WritesFor(s.writes, company))
  }

  function Actor(op: Op): Option<string> {
    if op.DoPublish? then op.company else Some(op.tenant)
  }

  function OpsOf(ops: seq<Op>, company: string): seq<Op> {
    Selected((op: Op) => Actor(op) == Some(company), ops)
  }

  lemma LogForAppend(log: seq<Event>, e: Event, company: string)
    ensures EventsFor(log + [e], company)
         == EventsFor(log, company) + if e.company == Some(company) then [e.name] else []
  {
    assert (log + [e])[..|log|] == log;
  }

  /** A cycle's effect on a view, from the view alone. */
  function ViewAfterCycle(v: View, trigger: string, fault: Fault, now: int): View {
    if v.status.None? || !v.status.value.active then v
    else
      var worked := v.(writes := v.writes + STAGES[..Reached(fault)]);
      if fault.Some? && fault.value <= |STAGES| then worked
      else
        var stamped := worked.(status := Some(Stamp(v.status.value, trigger, now)));
        if fault.Some? then stamped else stamped.(events := v.events + [CYCLE_COMPLETED])
  }

  lemma CycleWrites(s: State, actor: string, trigger: string, fault: Fault, now: int, company: string)
    ensures WritesFor(Cycle(s, actor, trigger, fault, now).writes, company)
         == if actor == company && IsActive(s, actor) then WritesFor(s.writes, company) + STAGES[..Reached(fault)]
            else WritesFor(s.writes, company)
  {
    var stages := STAGES[..Reached(fault)];
    if IsActive(s, actor) {
      assert Cycle(s, actor, trigger, fault, now).writes == s.writes + WritesOf(actor, stages);
      WritesForConcat(s.writes, WritesOf(actor, stages), company);
      WritesForOne(actor, stages, company);
      assert WritesFor(s.writes, company) + [] == WritesFor(s.writes, company);
    }
  }

  lemma CycleEvents(s: State, actor: string, trigger: string, fault: Fault, now: int, company: string)
    ensures EventsFor(Cycle(s, actor, trigger, fault, now).log, company)
         == if actor == company && IsActive(s, actor) && fault.None? then EventsFor(s.log, company) + [CYCLE_COMPLETED]
            else EventsFor(s.log, company)
  {
    LogForAppend(s.log, Event(CYCLE_COMPLETED, Some(actor)), company);
    assert EventsFor(s.log, company) + [] == EventsFor(s.log, company);
  }

  lemma CycleStatus(s: State, actor: string, trigger: string, fault: Fault, now: int)
    ensures var s' := Cycle(s, actor, trigger, fault, now);
            && s'.preferences == s.preferences
            && s'.status == if IsActive(s, actor) && (fault.None? || fault.value > |STAGES|)
                            then s.status[actor := Stamp(s.status[actor], trigger, now)] else s.status
  {
  }

  lemma CycleView(s: State, actor: string, trigger: string, fault: Fault, now: int, company: string)
    ensures ViewOf(Cycle(s, actor, trigger, fault, now), company)
         == if actor == company then ViewAfterCycle(ViewOf(s, company), trigger, fault, now) else ViewOf(s, company)
  {
    var s' := Cycle(s, actor, trigger, fault, now);
    CycleWrites(s, actor, trigger, fault, now, company);
    CycleEvents(s, actor, trigger, fault, now, company);
    CycleStatus(s, actor, trigger, fault, now);
    ViewFromParts(ViewOf(s, company), ViewOf(s', company), s, s', actor, trigger, fault, now, company);
  }

  lemma ViewFromParts(v: View, v': View, s: State, s': State, actor: string, trigger: string, fault: Fault, now: int,
                      company: string)
    requires v == ViewOf(s, company) && v' == ViewOf(s', company)
    requires v'.writes
          == if actor == company && IsActive(s, actor) then v.writes + STAGES[..Reached(fault)] else v.writes
    requires v'.events
          == if actor == company && IsActive(s, actor) && fault.None? then v.events + [CYCLE_COMPLETED] else v.events
    requires s'.preferences == s.preferences
    requires s'.status == if IsActive(s, actor) && (fault.None? || fault.value > |STAGES|)
                          then s.status[actor := Stamp(s.status[actor], trigger, now)] else s.status
    ensures v' == if actor == company then ViewAfterCycle(v, trigger, fault, now) else v
  {
  }

  function ViewAfterActivate(v: View, version: Option<int>, now: int): View {
    var kept := if v.status.Some? then v.status.value else Status(true, None, None, None, None, None);
    v.(hasPreferences := true,
       status := Some(kept.(active := true, deactivatedAt := None, blueprintVersion := version,
                            activatedAt := if kept.activatedAt.Some? then kept.activatedAt else Some(now))))
  }

  /** Publishing's effect on the view of its own company, from the view alone. */
  function ViewAfterPublish(observed: seq<string>, v: View, name: string, version: Option<int>, fault: Fault, now: int)
    : View
  {
    var logged := v.(events := v.events + [name]);
    if name !in observed then logged
    else if name == BLUEPRINT_PUBLISHED then ViewAfterActivate(logged, version, now)
    else ViewAfterCycle(logged, name, fault, now)
  }

  lemma LoggedView(s: State, name: string, actor: Option<string>, company: string)
    ensures var v := ViewOf(s, company);
            ViewOf(s.(log := s.log + [Event(name, actor)]), company)
            == if actor == Some(company) then v.(events := v.events + [name]) else v
  {
    LogForAppend(s.log, Event(name, actor), company);
    assert EventsFor(s.log, company) + [] == EventsFor(s.log, company);
  }

  lemma ActivateView(s: State, actor: string, version: Option<int>, now: int, company: string)
    ensures ViewOf(Activate(s, actor, version, now), company)
         == if actor == company then ViewAfterActivate(ViewOf(s, company), version, now) else ViewOf(s, company)
  {
  }

  lemma PublishView(observed: seq<string>, s: State, name: string, actor: Option<string>, version: Option<int>,
                    fault: Fault, now: int, company: string)
    ensures ViewOf(Publish(observed, s, name, actor, version, fault, now), company)
         == if actor == Some(company) then ViewAfterPublish(observed, ViewOf(s, company), name, version, fault, now)
            else ViewOf(s, company)
  {
    var logged := s.(log := s.log + [Event(name, actor)]);
    LoggedView(s, name, actor, company);
    if actor.Some? {
      CycleView(logged, actor.value, name, fault, now, company);
      ActivateView(logged, actor.value, version, now, company);
    }
  }

  lemma OpView(observed: seq<string>, s: State, t: State, op: Op, company: string)
    ensures Actor(op) != Some(company) ==> ViewOf(Do(observed, s, op), company) == ViewOf(s, company)
    ensures Actor(op) == Some(company) && ViewOf(s, company) == ViewOf(t, company) ==>
              ViewOf(Do(observed, s, op), company) == ViewOf(Do(observed, t, op), company)
  {
    match op
    case DoPublish(name, actor, version, fault, now) =>
      PublishView(observed, s, name, actor, version, fault, now, company);
      PublishView(observed, t, name, actor, version, fault, now, company);
    case DoSchedule(actor, fault, now) =>
      CycleView(s, actor, "scheduled", fault, now, company);
      CycleView(t, actor, "scheduled", fault, now, company);
    case DoDeactivate(_, _) =>
  }

  /** Noninterference: after any run a company sees exactly what it would see had only its
      own operations taken place, whatever the other companies did and however it failed. */
  lemma {:induction false} TenantsDoNotInterfere(observed: seq<string>, ops: seq<Op>, company: string)
    ensures ViewOf(Run(observed, EMPTY, ops), company) == ViewOf(Run(observed, EMPTY, OpsOf(ops, company)), company)
  {
    if ops != [] {
      var n := |ops| - 1;
      TenantsDoNotInterfere(observed, ops[..n], company);
      var own := OpsOf(ops[..n], company);
      SelectedSplit((op: Op) => Actor(op) == Some(company), ops);
      OpView(observed, Run(observed, EMPTY, ops[..n]), Run(observed, EMPTY, own), ops[n], company);
      if Actor(ops[n]) == Some(company) {
        assert (own + [ops[n]])[..|own|] == own;
      } else {
        assert own + [] == own;
      }
    }
  }

  /** The first activation instant is never rewritten, through any later run. */
  lemma {:induction false} ActivatedAtIsKept(observed: seq<string>, s: State, ops: seq<Op>, company: string)
    requires company in s.status && s.status[company].activatedAt.Some?
    ensures company in Run(observed, s, ops).status
    ensures Run(observed, s, ops).status[company].activatedAt == s.status[company].activatedAt
  {
    if ops != [] {
      ActivatedAtIsKept(observed, s, ops[..|ops| - 1], company);
    }
  }
}
