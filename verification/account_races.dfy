/** Get-or-create of the default account (financial_graph/graph.py) cut between its SELECT and
    its INSERT: calls for any companies may run in between. */
module AccountRaces {
  import opened Ledger

  /** The accounts, oldest first, and the calls that have found none and are about to insert. */
  datatype State = State(accounts: seq<Account>, missing: map<nat, string>)

  datatype Step = Look(task: nat, company: string) | Create(task: nat, freshId: string)

  function Taken(s: State, step: Step): State {
    match step
    case Look(task, company) =>
      if task in s.missing || HasAccount(s.accounts, company) then s else s.(missing := s.missing[task := company])
    case Create(task, freshId) =>
      if task !in s.missing then s
      else State(s.accounts + [Account(freshId, s.missing[task])], s.missing - {task})
  }

  function Run(s: State, steps: seq<Step>): State {
    if steps == [] then s else Taken(Run(s, steps[..|steps| - 1]), steps[|steps| - 1])
  }

  /** The two steps of a call in a row are the whole of `FinancialGraph.EnsureDefaultAccount`. */
  lemma UninterruptedIsEnsure(s: State, task: nat, company: string, freshId: string)
    requires task !in s.missing
    ensures
      var s' := Run(s, [Look(task, company), Create(task, freshId)]);
      && s'.missing == s.missing
      && s'.accounts == if HasAccount(s.accounts, company) then s.accounts
                        else s.accounts + [Account(freshId, company)]
  {
    var look, create := Look(task, company), Create(task, freshId);
    assert [look, create][..1] == [look] && [look][..0] == [];
    assert Run(s, [look]) == Taken(s, look);
    assert s.missing[task := company] - {task} == s.missing;
  }

  function CountFor(accounts: seq<Account>, company: string): nat {
    if accounts == [] then 0
    else
      var n := |accounts| - 1;
      CountFor(accounts[..n], company) + if accounts[n].company == company then 1 else 0
  }

  predicate Misses(s: State, task: nat, company: string) {
    task in s.missing && s.missing[task] == company
  }

  /** Step i inserts an account of the company. */
  predicate Creates(s: State, steps: seq<Step>, i: nat, company: string)
    requires i < |steps|
  {
    steps[i].Create? && Misses(Run(s, steps[..i]), steps[i].task, company)
  }

  lemma {:induction false} CountIffHas(accounts: seq<Account>, company: string)
    ensures CountFor(accounts, company) > 0 <==> HasAccount(accounts, company)
  {
    if accounts != [] {
      var n := |accounts| - 1;
      CountIffHas(accounts[..n], company);
      assert accounts == accounts[..n] + [accounts[n]];
    }
  }

  lemma StepCounts(s: State, step: Step, company: string)
    ensures
      var creates := step.Create? && Misses(s, step.task, company);
      CountFor(Taken(s, step).accounts, company) == CountFor(s.accounts, company) + if creates then 1 else 0
  {
    if step.Create? && step.task in s.missing {
      var made := Account(step.freshId, s.missing[step.task]);
      assert (s.accounts + [made])[..|s.accounts|] == s.accounts;
    }
  }

  /** Once the company has an account no further call misses one. */
  lemma StepMisses(s: State, step: Step, task: nat, company: string)
    requires HasAccount(s.accounts, company) && Misses(Taken(s, step), task, company)
    ensures Misses(s, task, company)
  {
  }

  lemma {:induction false} MissedBefore(s: State, steps: seq<Step>, j: nat, k: nat, task: nat, company: string)
    requires j <= k <= |steps| && HasAccount(Run(s, steps[..j]).accounts, company)
    requires Misses(Run(s, steps[..k]), task, company)
    ensures Misses(Run(s, steps[..j]), task, company)
  {
    if j < k {
      StillHas(s, steps, j, k - 1, company);
      assert steps[..k][..k - 1] == steps[..k - 1];
      StepMisses(Run(s, steps[..k - 1]), steps[k - 1], task, company);
      MissedBefore(s, steps, j, k - 1, task, company);
    }
  }

  lemma {:induction false} StillHas(s: State, steps: seq<Step>, j: nat, k: nat, company: string)
    requires j <= k <= |steps| && HasAccount(Run(s, steps[..j]).accounts, company)
    ensures HasAccount(Run(s, steps[..k]).accounts, company)
  {
    if j < k {
      StillHas(s, steps, j, k - 1, company);
      assert steps[..k][..k - 1] == steps[..k - 1];
      var before := Run(s, steps[..k - 1]);
      CountIffHas(before.accounts, company);
      StepCounts(before, steps[k - 1], company);
      CountIffHas(Taken(before, steps[k - 1]).accounts, company);
    }
  }

  /** A second account goes to a call that had looked before the first was inserted. */
  predicate Overlap(s: State, steps: seq<Step>, i: nat, k: nat, company: string)
    requires i < k < |steps|
  {
    && Creates(s, steps, i, company) && Creates(s, steps, k, company)
    && Misses(Run(s, steps[..i]), steps[k].task, company)
  }

  lemma {:induction false} SomeCreate(s: State, steps: seq<Step>, n: nat, company: string) returns (i: nat)
    requires n <= |steps| && CountFor(s.accounts, company) == 0
    requires CountFor(Run(s, steps[..n]).accounts, company) > 0
    ensures i < n && Creates(s, steps, i, company)
  {
    assert n > 0;
    assert steps[..n][..n - 1] == steps[..n - 1];
    StepCounts(Run(s, steps[..n - 1]), steps[n - 1], company);
    if Creates(s, steps, n - 1, company) {
      i := n - 1;
    } else {
      i := SomeCreate(s, steps, n - 1, company);
    }
  }

  lemma {:induction false} SecondCreate(s: State, steps: seq<Step>, n: nat, company: string) returns (i: nat, k: nat)
    requires n <= |steps| && CountFor(s.accounts, company) == 0
    requires CountFor(Run(s, steps[..n]).accounts, company) > 1
    ensures i < k < n && Creates(s, steps, i, company) && Creates(s, steps, k, company)
  {
    assert n > 0;
    assert steps[..n][..n - 1] == steps[..n - 1];
    StepCounts(Run(s, steps[..n - 1]), steps[n - 1], company);
    if Creates(s, steps, n - 1, company) {
      i := SomeCreate(s, steps, n - 1, company);
      k := n - 1;
    } else {
      i, k := SecondCreate(s, steps, n - 1, company);
    }
  }

  lemma CreatesOverlap(s: State, steps: seq<Step>, i: nat, k: nat, company: string)
    requires i < k < |steps| && Creates(s, steps, i, company) && Creates(s, steps, k, company)
    ensures Overlap(s, steps, i, k, company)
  {
    StepGrows(s, steps, i, company);
    CountIffHas(Run(s, steps[..i + 1]).accounts, company);
    MissedBefore(s, steps, i + 1, k, steps[k].task, company);
    assert steps[..i + 1][..i] == steps[..i];
  }

  predicate NeverFalls(counts: seq<nat>) {
    forall j :: 0 <= j < |counts| - 1 ==> counts[j] <= counts[j + 1]
  }

  lemma {:induction false} CountsGrow(counts: seq<nat>, j: nat, n: nat)
    requires NeverFalls(counts) && j <= n < |counts|
    ensures counts[j] <= counts[n]
  {
    if j < n {
      CountsGrow(counts, j, n - 1);
    }
  }

  lemma TwoRises(counts: seq<nat>, i: nat, k: nat, n: nat)
    requires NeverFalls(counts) && i < k < n < |counts|
    requires counts[i] < counts[i + 1] && counts[k] < counts[k + 1]
    ensures counts[n] > 1
  {
    CountsGrow(counts, i + 1, k);
    CountsGrow(counts, k + 1, n);
  }

  /** How many accounts the company has before each step, and at the end. */
  lemma CountsOf(s: State, steps: seq<Step>, company: string) returns (counts: seq<nat>)
    ensures |counts| == |steps| + 1 && NeverFalls(counts)
    ensures counts[|steps|] == CountFor(Run(s, steps).accounts, company)
    ensures forall i :: 0 <= i < |steps| && Creates(s, steps, i, company) ==> counts[i] < counts[i + 1]
  {
    counts := seq(|steps| + 1, n requires 0 <= n <= |steps| => CountFor(Run(s, steps[..n]).accounts, company));
    forall j | 0 <= j < |steps|
      ensures counts[j] <= counts[j + 1]
      ensures Creates(s, steps, j, company) ==> counts[j] < counts[j + 1]
    {
      StepGrows(s, steps, j, company);
    }
    assert steps[..|steps|] == steps;
  }

  lemma TwoCreatesCount(s: State, steps: seq<Step>, i: nat, k: nat, company: string)
    requires i < k < |steps| && Creates(s, steps, i, company) && Creates(s, steps, k, company)
    ensures CountFor(Run(s, steps).accounts, company) > 1
  {
    var counts := CountsOf(s, steps, company);
    TwoRises(counts, i, k, |steps|);
  }

  lemma StepGrows(s: State, steps: seq<Step>, j: nat, company: string)
    requires j < |steps|
    ensures
      var before, after := Run(s, steps[..j]).accounts, Run(s, steps[..j + 1]).accounts;
      CountFor(after, company) == CountFor(before, company) + if Creates(s, steps, j, company) then 1 else 0
  {
    assert steps[..j + 1][..j] == steps[..j];
    StepCounts(Run(s, steps[..j]), steps[j], company);
  }

  /** Over every interleaving: a company without an account ends with more than one exactly when
      a call that had found none inserts after another call has, as `Overlap` says. */
  lemma DuplicatesIffOverlap(s: State, steps: seq<Step>, company: string)
    requires !HasAccount(s.accounts, company)
    ensures CountFor(Run(s, steps).accounts, company) > 1 <==>
              exists i, k :: 0 <= i < k < |steps| && Overlap(s, steps, i, k, company)
  {
    CountIffHas(s.accounts, company);
    if CountFor(Run(s, steps).accounts, company) > 1 {
      assert steps[..|steps|] == steps;
      var i, k := SecondCreate(s, steps, |steps|, company);
      CreatesOverlap(s, steps, i, k, company);
    } else if i, k :| 0 <= i < k < |steps| && Overlap(s, steps, i, k, company) {
      TwoCreatesCount(s, steps, i, k, company);
    }
  }

  /** Look, look, insert, insert. */
  lemma TwoAccounts(company: string, id: string, otherId: string)
    ensures Run(State([], map[]), [Look(0, company), Look(1, company), Create(0, id), Create(1, otherId)]).accounts
         == [Account(id, company), Account(otherId, company)]
  {
    var s := State([], map[]);
    var a, b, c, d := Look(0, company), Look(1, company), Create(0, id), Create(1, otherId);
    assert [a, b, c, d][..3] == [a, b, c] && [a, b, c][..2] == [a, b] && [a, b][..1] == [a] && [a][..0] == [];
    assert Run(s, [a]) == Taken(s, a);
    assert Run(s, [a, b]) == Taken(Taken(s, a), b);
    assert Run(s, [a, b, c]) == Taken(Taken(Taken(s, a), b), c);
  }
}
