/** The rules of a mapping (kernel/company_blueprint/mapping_engine.py): how they are
    validated, what applying them yields, and when rules drawn from the picker all map. */
module MappingRules {
  import opened Common
  import opened Json
  import opened Text
  import opened Mapping
  import opened Picker

  // ---------- validate_field_rules ----------

  const CANONICAL_FIELDS := ["reference", "customer", "amount", "direction", "currency",
                             "description", "counterparty", "category", "occurred_at"]

  datatype Rule = Rule(source: string, target: string)

  datatype RuleError = NotAList | MissingField | NotCanonical | MappedTwice | NotText

  /** `(rule.get(key) or "").strip()`; a truthy value that is not text has no `strip`. */
  function TextOf(rule: Json, key: string): Result<string, RuleError> {
    if !rule.JObj? then Ok("")
    else
      match Get(rule.fields, key)
      case Some(JStr(s)) => Ok(Strip(s))
      case Some(v) => if Truthy(v) then Err(NotText) else Ok("")
      case None => Ok("")
  }

  function CleanRule(rule: Json): Result<Rule, RuleError> {
    match TextOf(rule, "source")
    case Err(e) => Err(e)
    case Ok(source) =>
      match TextOf(rule, "target")
      case Err(e) => Err(e)
      case Ok(target) =>
        if source == "" || target == "" then Err(MissingField)
        else if target !in CANONICAL_FIELDS then Err(NotCanonical)
        else Ok(Rule(source, target))
  }

  /** What a rule may be: text under both keys that says something apart from whitespace, the target
      naming a canonical field. */
  predicate AcceptedAs(raw: Json, rule: Rule) {
    && raw.JObj? && Get(raw.fields, "source").Some? && Get(raw.fields, "target").Some?
    && var source, target := Get(raw.fields, "source").value, Get(raw.fields, "target").value;
       && source.JStr? && target.JStr?
       && rule == Rule(Strip(source.s), Strip(target.s)) && rule.source != ""
       && rule.target in ["reference", "customer", "amount", "direction", "currency", "description", "counterparty",
                          "category", "occurred_at"]
  }

  /** Something under the key that is neither text nor one of Python's falsy values. */
  predicate NotTextual(raw: Json, key: string) {
    && raw.JObj? && Get(raw.fields, key).Some?
    && !Get(raw.fields, key).value.JStr? && !Falsy(Get(raw.fields, key).value)
  }

  /** No text under the key, or only whitespace. */
  predicate SaysNothing(raw: Json, key: string) {
    raw.JObj? && Get(raw.fields, key).Some? && Get(raw.fields, key).value.JStr? ==>
      Strip(Get(raw.fields, key).value.s) == ""
  }

  /** Which rules are accepted, as what, and what is said of the others. */
  lemma CleanRuleIs(raw: Json)
    ensures forall rule :: CleanRule(raw) == Ok(rule) <==> AcceptedAs(raw, rule)
    ensures CleanRule(raw).Err? ==>
              CleanRule(raw).error
              == if NotTextual(raw, "source") || NotTextual(raw, "target") then NotText
                 else if SaysNothing(raw, "source") || SaysNothing(raw, "target") then MissingField
                 else NotCanonical
  {
    assert Strip("") == "";
    if raw.JObj? && Get(raw.fields, "source").Some? {
      TruthyUnlessFalsy(Get(raw.fields, "source").value);
    }
    if raw.JObj? && Get(raw.fields, "target").Some? {
      TruthyUnlessFalsy(Get(raw.fields, "target").value);
    }
  }

  predicate TargetsDistinct(rules: seq<Rule>) {
    forall i, j :: 0 <= i < j < |rules| ==> rules[i].target != rules[j].target
  }

  ghost predicate CleansTo(raws: seq<Json>, rules: seq<Rule>) {
    && |raws| == |rules|
    && TargetsDistinct(rules)
    && forall i :: 0 <= i < |raws| ==> CleanRule(raws[i]) == Ok(rules[i])
  }

  /** Rule k is the first that fails, on its own or against an earlier target. */
  ghost predicate FailsFirstAt(raws: seq<Json>, k: nat, clean: seq<Rule>, e: RuleError) {
    && k < |raws| && CleansTo(raws[..k], clean)
    && match CleanRule(raws[k])
       case Err(own) => e == own
       case Ok(rule) => e == MappedTwice && exists i :: 0 <= i < k && clean[i].target == rule.target
  }

  function Targets(rules: seq<Rule>): set<string> {
    set rule | rule in rules :: rule.target
  }

  lemma FailsOwnAt(raws: seq<Json>, i: nat, clean: seq<Rule>, e: RuleError)
    requires i < |raws| && CleansTo(raws[..i], clean) && CleanRule(raws[i]) == Err(e)
    ensures exists k, c :: FailsFirstAt(raws, k, c, e)
  {
    assert FailsFirstAt(raws, i, clean, e);
  }

  lemma MappedTwiceAt(raws: seq<Json>, i: nat, clean: seq<Rule>, rule: Rule)
    ensures i < |raws| && CleansTo(raws[..i], clean) && CleanRule(raws[i]) == Ok(rule)
            && rule.target in Targets(clean) ==>
              exists k, c :: FailsFirstAt(raws, k, c, MappedTwice)
  {
    if i < |raws| && CleansTo(raws[..i], clean) && CleanRule(raws[i]) == Ok(rule) && rule.target in Targets(clean) {
      var earlier :| earlier in clean && earlier.target == rule.target;
      var j :| 0 <= j < |clean| && clean[j] == earlier;
      assert FailsFirstAt(raws, i, clean, MappedTwice);
    }
  }

  lemma TargetsExtend(clean: seq<Rule>, rule: Rule)
    requires TargetsDistinct(clean) && rule.target !in Targets(clean)
    ensures TargetsDistinct(clean + [rule])
    ensures Targets(clean + [rule]) == Targets(clean) + {rule.target}
  {
    assert forall j :: 0 <= j < |clean| ==> clean[j] in clean;
    assert forall r :: r in clean + [rule] <==> r in clean || r == rule;
  }

  lemma CleansToExtend(raws: seq<Json>, i: nat, clean: seq<Rule>, rule: Rule)
    requires i < |raws| && CleansTo(raws[..i], clean) && CleanRule(raws[i]) == Ok(rule)
    requires TargetsDistinct(clean + [rule])
    ensures CleansTo(raws[..i + 1], clean + [rule])
  {
    forall j | 0 <= j < i + 1
      ensures CleanRule(raws[..i + 1][j]) == Ok((clean + [rule])[j])
    {
      if j < i {
        assert raws[..i + 1][j] == raws[..i][j];
      }
    }
  }

  method ValidateFieldRules(fieldRules: Json) returns (r: Result<seq<Rule>, RuleError>)
    ensures r.Ok? ==> fieldRules.JArr? && CleansTo(fieldRules.items, r.value)
    ensures r.Err? ==> if fieldRules.JArr? then exists k, clean :: FailsFirstAt(fieldRules.items, k, clean, r.error)
                       else r.error == NotAList
  {
    if !fieldRules.JArr? {
      return Err(NotAList);
    }
    var raws := fieldRules.items;
    var clean: seq<Rule> := [];
    var seen: set<string> := {};
    var i := 0;
    while i < |raws|
      invariant 0 <= i <= |raws|
      invariant CleansTo(raws[..i], clean)
      invariant seen == Targets(clean)
    {
      var one := CleanRule(raws[i]);
      if one.Err? {
        FailsOwnAt(raws, i, clean, one.error);
        return Err(one.error);
      }
      if one.value.target in seen {
        MappedTwiceAt(raws, i, clean, one.value);
        return Err(MappedTwice);
      }
      seen := seen + {one.value.target};
      TargetsExtend(clean, one.value);
      CleansToExtend(raws, i, clean, one.value);
      clean := clean + [one.value];
      i := i + 1;
    }
    assert raws[..i] == raws;
    return Ok(clean);
  }

  // ---------- apply_mapping ----------

  /** What a source path finds in the payload at hand. */
  type Finder = string -> Option<Json>

  function In(payload: Json): Finder {
    (path: string) => Resolve(payload, Split(path))
  }

  /** Later rules for one target win, as in a Python dictionary. */
  function Canonical(find: Finder, rules: seq<Rule>): map<string, Json> {
    if rules == [] then map[]
    else
      var last := rules[|rules| - 1];
      match find(last.source)
      case Some(v) => Canonical(find, rules[..|rules| - 1])[last.target := v]
      case None => Canonical(find, rules[..|rules| - 1])
  }

  /** The sources warned about, in rule order. */
  function Missing(find: Finder, rules: seq<Rule>): seq<string> {
    if rules == [] then []
    else
      var last := rules[|rules| - 1];
      Missing(find, rules[..|rules| - 1]) + if find(last.source).None? then [last.source] else []
  }

  method ApplyMapping(payload: Json, rules: seq<Rule>) returns (canonical: map<string, Json>, warnings: seq<string>)
    ensures canonical == Canonical(In(payload), rules)
    ensures warnings == Missing(In(payload), rules)
  {
    canonical, warnings := map[], [];
    var i := 0;
    while i < |rules|
      invariant 0 <= i <= |rules|
      invariant canonical == Canonical(In(payload), rules[..i])
      invariant warnings == Missing(In(payload), rules[..i])
    {
      var value := GetNested(payload, rules[i].source);
      if value.Some? {
        canonical := canonical[rules[i].target := value.value];
      } else {
        warnings := warnings + [rules[i].source];
      }
      assert rules[..i + 1][..i] == rules[..i];
      i := i + 1;
    }
    assert rules[..i] == rules;
  }

  /** The last rule for the target whose source is found. */
  predicate Decides(find: Finder, rules: seq<Rule>, i: nat, target: string) {
    && i < |rules| && rules[i].target == target && find(rules[i].source).Some?
    && forall j :: i < j < |rules| && rules[j].target == target ==> find(rules[j].source).None?
  }

  /** A canonical field is there exactly when some rule decides it, and holds what its source found. */
  lemma {:induction false} LastFoundDecides(find: Finder, rules: seq<Rule>, target: string)
    ensures target in Canonical(find, rules) <==> exists i: nat :: Decides(find, rules, i, target)
    ensures forall i: nat :: Decides(find, rules, i, target) && target in Canonical(find, rules) ==>
              Canonical(find, rules)[target] == find(rules[i].source).value
  {
    if rules != [] {
      var n := |rules| - 1;
      LastFoundDecides(find, rules[..n], target);
      if rules[n].target == target && find(rules[n].source).Some? {
        assert Decides(find, rules, n, target);
      } else {
        DecidesWithout(find, rules, target);
        if i: nat :| Decides(find, rules[..n], i, target) {
          assert Decides(find, rules, i, target);
        }
      }
    }
  }

  lemma DecidesWithout(find: Finder, rules: seq<Rule>, target: string)
    requires rules != []
    requires !(rules[|rules| - 1].target == target && find(rules[|rules| - 1].source).Some?)
    ensures forall i: nat :: Decides(find, rules, i, target) <==> Decides(find, rules[..|rules| - 1], i, target)
  {
    var n := |rules| - 1;
    assert forall j :: 0 <= j < n ==> rules[..n][j] == rules[j];
  }

  /** The warnings name the sources that are not found, one for each such rule, in rule order: warning
      i for the rule at ks[i]. */
  ghost predicate WarnsInOrder(find: Finder, rules: seq<Rule>, warnings: seq<string>, ks: seq<nat>) {
    && |ks| == |warnings|
    && (forall i, j :: 0 <= i < j < |ks| ==> ks[i] < ks[j])
    && (forall i :: 0 <= i < |ks| ==>
          ks[i] < |rules| && find(rules[ks[i]].source).None? && warnings[i] == rules[ks[i]].source)
    && (forall k :: 0 <= k < |rules| && find(rules[k].source).None? ==> k in ks)
  }

  lemma WarnsOfMore(find: Finder, rules: seq<Rule>, warnings: seq<string>, ks: seq<nat>)
    requires rules != [] && WarnsInOrder(find, rules[..|rules| - 1], warnings, ks)
    ensures forall i :: 0 <= i < |ks| ==>
              ks[i] < |rules| - 1 && find(rules[ks[i]].source).None? && warnings[i] == rules[ks[i]].source
    ensures forall k :: 0 <= k < |rules| - 1 && find(rules[k].source).None? ==> k in ks
  {
    var front := rules[..|rules| - 1];
    assert forall k :: 0 <= k < |front| ==> front[k] == rules[k];
  }

  lemma WarnsOnceMore(find: Finder, rules: seq<Rule>, warnings: seq<string>, ks: seq<nat>)
    requires rules != [] && WarnsInOrder(find, rules[..|rules| - 1], warnings, ks)
    requires find(rules[|rules| - 1].source).None?
    ensures WarnsInOrder(find, rules, warnings + [rules[|rules| - 1].source], ks + [|rules| - 1])
  {
    WarnsOfMore(find, rules, warnings, ks);
    var n := |rules| - 1;
    var ks' := ks + [n];
    forall k | 0 <= k < |rules| && find(rules[k].source).None?
      ensures k in ks'
    {
      if k < n {
        assert k in ks;
      } else {
        assert ks'[|ks|] == k;
      }
    }
  }

  lemma {:induction false} MissingInOrder(find: Finder, rules: seq<Rule>) returns (ks: seq<nat>)
    ensures WarnsInOrder(find, rules, Missing(find, rules), ks)
  {
    if rules == [] {
      ks := [];
    } else {
      var n := |rules| - 1;
      var before := Missing(find, rules[..n]);
      ks := MissingInOrder(find, rules[..n]);
      if find(rules[n].source).None? {
        WarnsOnceMore(find, rules, before, ks);
        ks := ks + [n];
      } else {
        WarnsOfMore(find, rules, before, ks);
        assert Missing(find, rules) == before + [] == before;
      }
    }
  }

  /** No warning is given exactly when every source resolves. */
  lemma {:induction false} NoWarningIff(find: Finder, rules: seq<Rule>)
    ensures Missing(find, rules) == [] <==> forall i :: 0 <= i < |rules| ==> find(rules[i].source).Some?
  {
    if rules != [] {
      var front := rules[..|rules| - 1];
      NoWarningIff(find, front);
      assert rules == front + [rules[|rules| - 1]];
    }
  }

  lemma {:induction false} FieldsComeFromRules(find: Finder, rules: seq<Rule>, t: string)
    requires t in Canonical(find, rules)
    ensures exists i :: 0 <= i < |rules| && rules[i].target == t && find(rules[i].source).Some?
  {
    var n := |rules| - 1;
    if !(rules[n].target == t && find(rules[n].source).Some?) {
      FieldsComeFromRules(find, rules[..n], t);
      var i :| 0 <= i < n && rules[..n][i].target == t && find(rules[..n][i].source).Some?;
      assert rules[i] == rules[..n][i];
    }
  }

  /** With distinct targets nothing is overwritten: one field or one warning a rule. */
  lemma {:induction false} OneFieldOrWarningEach(find: Finder, rules: seq<Rule>)
    requires TargetsDistinct(rules)
    ensures |Canonical(find, rules)| + |Missing(find, rules)| == |rules|
  {
    if rules != [] {
      var n := |rules| - 1;
      OneFieldOrWarningEach(find, rules[..n]);
      LastTargetIsNew(find, rules);
    }
  }

  lemma LastTargetIsNew(find: Finder, rules: seq<Rule>)
    requires TargetsDistinct(rules) && rules != []
    ensures TargetsDistinct(rules[..|rules| - 1])
    ensures rules[|rules| - 1].target !in Canonical(find, rules[..|rules| - 1])
  {
    var n := |rules| - 1;
    if rules[n].target in Canonical(find, rules[..n]) {
      FieldsComeFromRules(find, rules[..n], rules[n].target);
    }
  }

  lemma {:induction false} RuleKeepsItsField(find: Finder, rules: seq<Rule>, i: nat)
    requires TargetsDistinct(rules) && i < |rules| && find(rules[i].source).Some?
    ensures rules[i].target in Canonical(find, rules)
    ensures Canonical(find, rules)[rules[i].target] == find(rules[i].source).value
  {
    var n := |rules| - 1;
    if i < n {
      assert rules[..n][i] == rules[i];
      RuleKeepsItsField(find, rules[..n], i);
      LastTargetIsNew(find, rules);
    }
  }

  // ---------- rules drawn from the picker ----------

  /** The rule's source is the path listed for this leaf. */
  ghost predicate PickedFrom(fields: seq<Field>, raw: Json, leaf: Leaf) {
    && leaf.keys != [] && raw.JObj?
    && exists path :: ListedAs(fields, leaf, path) && Get(raw.fields, "source") == Some(JStr(path))
  }

  ghost predicate ListedAs(fields: seq<Field>, leaf: Leaf, path: string) {
    var paths := FlattenKeys(fields, "");
    exists i :: 0 <= i < |paths| == |Leaves(fields)| && paths[i] == path && Leaves(fields)[i] == leaf
  }

  /** What the path of a leaf finds in the payload once the validator has stripped it. */
  function Found(fields: seq<Field>, leaf: Leaf): Option<Json> {
    Resolve(JObj(fields), StripEnds(leaf.keys))
  }

  lemma ListedPath(fields: seq<Field>, leaf: Leaf, path: string)
    requires UniqueKeys(fields) && CleanKeys(fields) && ListedAs(fields, leaf, path)
    ensures CleanPlace(leaf.keys) && leaf.keys != [] && path == Join(leaf.keys)
    ensures Resolve(JObj(fields), leaf.keys) == Some(leaf.value)
  {
    FlattenPrintsTheLeaves(fields, "");
    TopKeyOfLeaf(fields);
    LeavesAreSound(fields, fields, 0);
    var i :| 0 <= i < |Leaves(fields)| && Leaves(fields)[i] == leaf && FlattenKeys(fields, "")[i] == path;
    assert IsLeaf(Leaves(fields)[i].keys, Leaves(fields)[i].value, fields);
    RenderFromTop(leaf.keys);
  }

  /** A validated rule picked from clean keys looks for the leaf's keys with the two ends
      stripped: its own leaf exactly when neither end has whitespace to lose. */
  lemma PickedRule(fields: seq<Field>, raw: Json, rule: Rule, leaf: Leaf)
    requires UniqueKeys(fields) && CleanKeys(fields) && PickedFrom(fields, raw, leaf) && CleanRule(raw) == Ok(rule)
    ensures Split(rule.source) == StripEnds(leaf.keys)
    ensures Split(rule.source) == leaf.keys <==> EndsClean(leaf.keys)
    ensures In(JObj(fields))(rule.source) == Found(fields, leaf)
    ensures EndsClean(leaf.keys) ==> Found(fields, leaf) == Some(leaf.value)
  {
    var path :| ListedAs(fields, leaf, path) && Get(raw.fields, "source") == Some(JStr(path));
    ListedPath(fields, leaf, path);
    SourceIsStripped(raw, rule, path);
    StrippedPathSplits(leaf.keys);
  }

  lemma SourceIsStripped(raw: Json, rule: Rule, path: string)
    requires raw.JObj? && Get(raw.fields, "source") == Some(JStr(path)) && CleanRule(raw) == Ok(rule)
    ensures rule.source == Strip(path)
  {
  }

  /** The canonical field of a rule holds what its picked path finds once stripped; finding
      nothing, the rule leaves the field out and is warned about. */
  ghost predicate TellsFound(fields: seq<Field>, rules: seq<Rule>, rule: Rule, leaf: Leaf) {
    var find := In(JObj(fields));
    var canonical := Canonical(find, rules);
    match Found(fields, leaf)
    case Some(v) => rule.target in canonical && canonical[rule.target] == v
    case None => rule.target !in canonical && rule.source in Missing(find, rules)
  }

  lemma {:induction false} UnfoundRuleIsMissing(find: Finder, rules: seq<Rule>, i: nat)
    requires TargetsDistinct(rules) && i < |rules| && find(rules[i].source).None?
    ensures rules[i].target !in Canonical(find, rules) && rules[i].source in Missing(find, rules)
  {
    if rules[i].target in Canonical(find, rules) {
      FieldsComeFromRules(find, rules, rules[i].target);
    }
    SourceIsMissing(find, rules, i);
  }

  lemma {:induction false} SourceIsMissing(find: Finder, rules: seq<Rule>, i: nat)
    requires i < |rules| && find(rules[i].source).None?
    ensures rules[i].source in Missing(find, rules)
  {
    var n := |rules| - 1;
    if i < n {
      assert rules[..n][i] == rules[i];
      SourceIsMissing(find, rules[..n], i);
    }
  }

  lemma PickedRuleTells(fields: seq<Field>, raw: Json, rules: seq<Rule>, i: nat, leaf: Leaf)
    requires UniqueKeys(fields) && CleanKeys(fields) && PickedFrom(fields, raw, leaf)
    requires i < |rules| && TargetsDistinct(rules) && CleanRule(raw) == Ok(rules[i])
    ensures TellsFound(fields, rules, rules[i], leaf)
    ensures In(JObj(fields))(rules[i].source) == Found(fields, leaf)
  {
    var find := In(JObj(fields));
    PickedRule(fields, raw, rules[i], leaf);
    if find(rules[i].source).Some? {
      RuleKeepsItsField(find, rules, i);
    } else {
      UnfoundRuleIsMissing(find, rules, i);
    }
  }

  /** Validated rules drawn from the picker of a payload with clean keys: each tells what its
      stripped path finds, and no warning is given exactly when all find something. */
  lemma PickedRulesMap(fields: seq<Field>, raws: seq<Json>, rules: seq<Rule>, picked: seq<Leaf>)
    requires UniqueKeys(fields) && CleanKeys(fields) && CleansTo(raws, rules)
    requires |picked| == |rules| && forall i :: 0 <= i < |picked| ==> PickedFrom(fields, raws[i], picked[i])
    ensures forall i :: 0 <= i < |rules| ==> TellsFound(fields, rules, rules[i], picked[i])
    ensures Missing(In(JObj(fields)), rules) == [] <==>
              forall i :: 0 <= i < |rules| ==> Found(fields, picked[i]).Some?
  {
    var find := In(JObj(fields));
    forall i | 0 <= i < |rules|
      ensures TellsFound(fields, rules, rules[i], picked[i]) && find(rules[i].source) == Found(fields, picked[i])
    {
      PickedRuleTells(fields, raws[i], rules, i, picked[i]);
    }
    NoWarningIff(find, rules);
  }

  /** When every picked path has clean ends: no warning, one canonical field a rule, each
      holding its own leaf. */
  lemma CleanPicksMap(fields: seq<Field>, raws: seq<Json>, rules: seq<Rule>, picked: seq<Leaf>)
    requires UniqueKeys(fields) && CleanKeys(fields) && CleansTo(raws, rules)
    requires |picked| == |rules|
    requires forall i :: 0 <= i < |picked| ==> PickedFrom(fields, raws[i], picked[i]) && EndsClean(picked[i].keys)
    ensures
      var canonical := Canonical(In(JObj(fields)), rules);
      && Missing(In(JObj(fields)), rules) == [] && |canonical| == |rules|
      && forall i :: 0 <= i < |rules| ==>
           rules[i].target in canonical && canonical[rules[i].target] == picked[i].value
  {
    PickedRulesMap(fields, raws, rules, picked);
    forall i | 0 <= i < |rules|
      ensures Found(fields, picked[i]) == Some(picked[i].value)
    {
      PickedRule(fields, raws[i], rules[i], picked[i]);
    }
    OneFieldOrWarningEach(In(JObj(fields)), rules);
  }

  lemma LeavesOfTwo(f: Field, g: Field)
    requires !Nested(f.value) && !Nested(g.value)
    ensures Leaves([f, g]) == [Leaf([f.key], f.value), Leaf([g.key], g.value)]
  {
    assert [f, g][1..] == [g] && [g][1..] == [];
    assert Leaves([g]) == LeavesAt(g) + Leaves([]);
  }

  /** Two keys that differ by a leading space: the rule picked for the first finds the second. */
  lemma StrippedPathMisleads(v: Json, other: Json)
    requires !Nested(v) && !Nested(other)
    ensures
      var fields := [Field(" a", v), Field("a", other)];
      && CleanKeys(fields) && UniqueKeys(fields)
      && Leaves(fields) == [Leaf([" a"], v), Leaf(["a"], other)] && Found(fields, Leaf([" a"], v)) == Some(other)
  {
    var fields := [Field(" a", v), Field("a", other)];
    LeavesOfTwo(fields[0], fields[1]);
    assert " a"[1..] == "a" && ["a"][1..] == [];
    assert StripEnds([" a"]) == ["a"];
    assert fields[1..] == [Field("a", other)];
    assert Get(fields, "a") == Some(other);
    assert Resolve(JObj(fields), ["a"]) == Resolve(other, []);
  }

  /** A key with a leading space alone: its rule is stripped and then warns. */
  lemma StrippedPathIsLost(v: Json)
    requires !Nested(v)
    ensures
      var fields := [Field(" a", v)];
      && CleanKeys(fields) && UniqueKeys(fields)
      && Leaves(fields) == [Leaf([" a"], v)] && Found(fields, Leaf([" a"], v)).None?
  {
    var fields := [Field(" a", v)];
    assert fields[1..] == [];
    assert " a"[1..] == "a";
    assert StripEnds([" a"]) == ["a"];
  }
}
