/** The event bus, the observer and the intelligence manager
    (kernel/event_bus/bus.py, kernel/intelligence_engine/observer.py, manager.py). */
module Intelligence {
  import opened Common

  const BLUEPRINT_PUBLISHED := "blueprint.published"
  const CYCLE_COMPLETED := "intelligence.cycle_completed"

  datatype Event = Event(name: string, company: Option<string>)

  datatype Status = Status(active: bool, activatedAt: Option<int>, deactivatedAt: Option<int>,
                           blueprintVersion: Option<int>, lastEventAt: Option<int>, lastCycleAt: Option<int>)

  /** What a cycle writes, in order, before it stamps the status row. */
  datatype Stage = Knowledge | HealthMetric | NetFlowMetric | BalanceMetric | Recommendations | Notifications

  const STAGES := [Knowledge, HealthMetric, NetFlowMetric, BalanceMetric, Recommendations, Notifications]

  datatype Write = Write(company: string, stage: Stage)

  datatype State = State(log: seq<Event>, status: map<string, Status>, preferences: set<string>, writes: seq<Write>)

  /** How a cycle ends: done, or with an exception after that many of its writes, the
      status stamp being the write after the stages. */
  type Fault = Option<nat>

  // ---------- the manager on values ----------

  function Activate(s: State, company: string, version: Option<int>, now: int): State {
    var row := if company in s.status
               then var was := s.status[company];
                    was.(active := true, deactivatedAt := None, blueprintVersion := version,
                         activatedAt := if was.activatedAt.Some? then was.activatedAt else Some(now))
               else Status(true, Some(now), None, version, None, None);
    s.(status := s.status[company := row], preferences := s.preferences + {company})
  }

  function Deactivate(s: State, company: string, now: int): State {
    if company in s.status
    then s.(status := s.status[company := s.status[company].(active := false, deactivatedAt := Some(now))])
    else s
  }

  predicate IsActive(s: State, company: string) {
    company in s.status && s.status[company].active
  }

  function WritesOf(company: string, stages: seq<Stage>): (r: seq<Write>)
    ensures |r| == |stages| && forall i :: 0 <= i < |r| ==> r[i] == Write(company, stages[i])
  {
    seq(|stages|, i requires 0 <= i < |stages| => Write(company, stages[i]))
  }

  function Reached(fault: Fault): nat {
    match fault case Some(n) => if n < |STAGES| then n else |STAGES| case None => |STAGES|
  }

  function Stamp(status: Status, trigger: string, now: int): Status {
    status.(lastCycleAt := Some(now), lastEventAt := if trigger != "scheduled" then Some(now) else status.lastEventAt)
  }

  /** `run_cycle` in one piece: the gate, the stages reached, the stamp, the one event. */
  function Cycle(s: State, company: string, trigger: string, fault: Fault, now: int): State {
    if !IsActive(s, company) then s
    else
      var worked := s.(writes := s.writes + WritesOf(company, STAGES[..Reached(fault)]));
      if fault.Some? && fault.value <= |STAGES| then worked
      else
        var stamped := worked.(status := worked.status[company := Stamp(worked.status[company], trigger, now)]);
        if fault.Some? then stamped
        else stamped.(log := stamped.log + [Event(CYCLE_COMPLETED, Some(company))])
  }

  /** All that publishing an event does, with no recursion: one row, and then for an
      observed event of a company either its activation or one gated cycle. */
  function Publish(observed: seq<string>, s: State, name: string, company: Option<string>, version: Option<int>,
                   fault: Fault, now: int): State
  {
    var logged := s.(log := s.log + [Event(name, company)]);
    if name !in observed || company.None? then logged
    else if name == BLUEPRINT_PUBLISHED then Activate(logged, company.value, version, now)
    else Cycle(logged, company.value, name, fault, now)
  }

  // ---------- the re-entrant objects ----------

  predicate Sound(observed: seq<string>) {
    CYCLE_COMPLETED !in observed && forall i, j :: 0 <= i < j < |observed| ==> observed[i] != observed[j]
  }

  class Kernel {
    const observed: seq<string>
    /** Event name to handlers; a handler is known by the event name it closed over. */
    var subscribers: map<string, seq<string>>
    var log: seq<Event>
    var status: map<string, Status>
    var preferences: set<string>
    var writes: seq<Write>

    function Now(): State
      reads this
    {
      State(log, status, preferences, writes)
    }

    /** The observer is subscribed once to each observed event and nothing else is. */
    ghost predicate Wired()
      reads this
    {
      && Sound(observed)
      && (forall e :: e in subscribers <==> e in observed)
      && (forall e :: e in subscribers ==> subscribers[e] == [e])
    }

    constructor (observed: seq<string>)
      requires Sound(observed)
      ensures Wired() && this.observed == observed
      ensures Now() == State([], map[], {}, [])
    {
      this.observed := observed;
      subscribers, log, status, preferences, writes := map[], [], map[], {}, [];
      new;
      SubscribeObserver();
    }

    method Subscribe(name: string, handler: string)
      modifies this`subscribers
      ensures
        var already := if name in old(subscribers) then old(subscribers)[name] else [];
        subscribers == old(subscribers)[name := already + [handler]]
    {
      var handlers := if name in subscribers then subscribers[name] else [];
      subscribers := subscribers[name := handlers + [handler]];
    }

    method SubscribeObserver()
      requires Sound(observed) && subscribers == map[]
      modifies this`subscribers
      ensures Wired()
    {
      var i := 0;
      while i < |observed|
        invariant 0 <= i <= |observed|
        invariant forall e :: e in subscribers <==> exists j :: 0 <= j < i && observed[j] == e
        invariant forall e :: e in subscribers ==> subscribers[e] == [e]
      {
        Subscribe(observed[i], observed[i]);
        i := i + 1;
      }
    }

    /** Persist, then call each handler; `depth` is how deep the publishes nest. */
    method PublishEvent(name: string, company: Option<string>, version: Option<int>, fault: Fault, now: int)
      returns (ghost depth: nat)
      requires Wired()
      modifies this`log, this`status, this`preferences, this`writes
      ensures Wired()
      ensures Now() == Publish(observed, old(Now()), name, company, version, fault, now)
      ensures depth <= if name in observed then 2 else 1
      decreases if name in observed then 4 else 0
    {
      log := log + [Event(name, company)];
      depth := 1;
      var handlers := if name in subscribers then subscribers[name] else [];
      ghost var logged := Now();
      var i := 0;
      while i < |handlers|
        invariant 0 <= i <= |handlers| && handlers == (if name in observed then [name] else [])
        invariant Wired()
        invariant i == 0 ==> Now() == logged && depth == 1
        invariant i == 1 ==> Now() == Publish(observed, old(Now()), name, company, version, fault, now)
        invariant depth <= 2
      {
        ghost var nested := Handle(handlers[i], company, version, fault, now);
        depth := if nested + 1 > depth then nested + 1 else depth;
        i := i + 1;
      }
    }

    /** The observer's handler: an exception in the engine goes no further. */
    method Handle(name: string, company: Option<string>, version: Option<int>, fault: Fault, now: int)
      returns (ghost depth: nat)
      requires Wired()
      modifies this`log, this`status, this`preferences, this`writes
      ensures Wired() && depth <= 1
      ensures Now() == if company.None? then old(Now())
                       else if name == BLUEPRINT_PUBLISHED then Activate(old(Now()), company.value, version, now)
                       else Cycle(old(Now()), company.value, name, fault, now)
      decreases 3
    {
      if company.None? {
        return 0;
      }
      var raised;
      raised, depth := OnEvent(name, company.value, version, fault, now);
    }

    method OnEvent(name: string, company: string, version: Option<int>, fault: Fault, now: int)
      returns (raised: bool, ghost depth: nat)
      requires Wired()
      modifies this`log, this`status, this`preferences, this`writes
      ensures Wired() && depth <= 1
      ensures Now() == if name == BLUEPRINT_PUBLISHED then Activate(old(Now()), company, version, now)
                       else Cycle(old(Now()), company, name, fault, now)
      decreases 2
    {
      if name == BLUEPRINT_PUBLISHED {
        ActivateCompany(company, version, now);
        return false, 0;
      }
      raised, depth := RunCycle(company, name, fault, now);
    }

    method ActivateCompany(company: string, version: Option<int>, now: int)
      modifies this`status, this`preferences
      ensures Now() == Activate(old(Now()), company, version, now)
    {
      if company in status {
        var row := status[company];
        status := status[company := row.(active := true, deactivatedAt := None, blueprintVersion := version,
                                         activatedAt := if row.activatedAt.Some? then row.activatedAt else Some(now))];
      } else {
        status := status[company := Status(true, Some(now), None, version, None, None)];
      }
      preferences := preferences + {company};
    }

    method DeactivateCompany(company: string, now: int)
      modifies this`status
      ensures Now() == Deactivate(old(Now()), company, now)
    {
      if company in status {
        status := status[company := status[company].(active := false, deactivatedAt := Some(now))];
      }
    }

    /** The gate, then stage by stage, then the stamp, then the nested publish. */
    method RunCycle(company: string, trigger: string, fault: Fault, now: int)
      returns (raised: bool, ghost depth: nat)
      requires Wired()
      modifies this`log, this`status, this`preferences, this`writes
      ensures Wired() && depth <= 1
      ensures Now() == Cycle(old(Now()), company, trigger, fault, now)
      ensures raised <==> old(IsActive(Now(), company)) && fault.Some?
      decreases 1
    {
      depth := 0;
      if !(company in status && status[company].active) {
        return false, 0;
      }
      var i := 0;
      while i < |STAGES|
        invariant 0 <= i <= |STAGES| && (fault.Some? ==> i <= fault.value)
        invariant Now() == old(Now()).(writes := old(writes) + WritesOf(company, STAGES[..i]))
      {
        if fault == Some(i) {
          return true, 0;
        }
        writes := writes + [Write(company, STAGES[i])];
        assert WritesOf(company, STAGES[..i + 1]) == WritesOf(company, STAGES[..i]) + [Write(company, STAGES[i])];
        i := i + 1;
      }
      if fault == Some(i) {
        return true, 0;
      }
      status := status[company := Stamp(status[company], trigger, now)];
      if fault.Some? {
        return true, 0;
      }
      depth := PublishEvent(CYCLE_COMPLETED, Some(company), None, None, now);
      raised := false;
    }
  }
}
