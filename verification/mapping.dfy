/** The JSON mapper (kernel/company_blueprint/mapping_engine.py): `flatten_keys`
    prints the paths of a payload, `get_nested` resolves one. */
module Mapping {
  import opened Common
  import opened Json
  import opened Text

  // ---------- flatten_keys ----------

  predicate Nested(j: Json) {
    j.JObj? && j.fields != []
  }

  /** An empty prefix is Python's falsy one: it adds no dot. */
  function Extend(prefix: string, key: string): string {
    if prefix != "" then prefix + "." + key else key
  }

  function FlattenKeys(fields: seq<Field>, prefix: string): seq<string> {
    if fields == [] then []
    else
      var f := fields[0];
      var path := Extend(prefix, f.key);
      (if Nested(f.value) then FlattenKeys(f.value.fields, path) else [path]) + FlattenKeys(fields[1..], prefix)
  }

  // ---------- get_nested ----------

  /** Following a list of keys, from any value. */
  function Resolve(j: Json, parts: seq<string>): Option<Json> {
    if parts == [] then Some(j)
    else if !j.JObj? then None
    else
      match Get(j.fields, parts[0])
      case Some(v) => Resolve(v, parts[1..])
      case None => None
  }

  /** The values met on the way: each but the last is an object whose first field of that key holds the next. */
  ghost predicate Leads(j: Json, parts: seq<string>, v: Json, met: seq<Json>) {
    && |met| == |parts| + 1 && met[0] == j && met[|parts|] == v
    && forall i :: 0 <= i < |parts| ==> met[i].JObj? && FirstIs(met[i].fields, parts[i], met[i + 1])
  }

  ghost predicate Reaches(j: Json, parts: seq<string>, v: Json) {
    exists met :: Leads(j, parts, v, met)
  }

  lemma {:induction false} ResolvedLeads(j: Json, parts: seq<string>, v: Json) returns (met: seq<Json>)
    requires Resolve(j, parts) == Some(v)
    ensures Leads(j, parts, v, met)
  {
    if parts == [] {
      met := [j];
    } else {
      var next := Get(j.fields, parts[0]).value;
      GetIsFirst(j.fields, parts[0], next);
      var rest := ResolvedLeads(next, parts[1..], v);
      met := [j] + rest;
      forall i | 0 <= i < |parts|
        ensures met[i].JObj? && FirstIs(met[i].fields, parts[i], met[i + 1])
      {
        if i > 0 {
          assert met[i] == rest[i - 1] && met[i + 1] == rest[i] && parts[i] == parts[1..][i - 1];
        }
      }
    }
  }

  lemma {:induction false} LeadingResolves(j: Json, parts: seq<string>, v: Json, met: seq<Json>)
    requires Leads(j, parts, v, met)
    ensures Resolve(j, parts) == Some(v)
  {
    if parts != [] {
      GetIsFirst(j.fields, parts[0], met[1]);
      LeadingResolves(met[1], parts[1..], v, met[1..]);
    }
  }

  /** A value is found exactly when the parts lead to it. */
  lemma ResolvesIffReaches(j: Json, parts: seq<string>, v: Json)
    ensures Resolve(j, parts) == Some(v) <==> Reaches(j, parts, v)
  {
    if Resolve(j, parts) == Some(v) {
      var met := ResolvedLeads(j, parts, v);
    }
    if met :| Leads(j, parts, v, met) {
      LeadingResolves(j, parts, v, met);
    }
  }

  method GetNested(payload: Json, path: string) returns (value: Option<Json>)
    ensures value == Resolve(payload, Split(path))
    ensures value.Some? ==> Reaches(payload, Split(path), value.value)
    ensures value.None? ==> forall v :: !Reaches(payload, Split(path), v)
  {
    forall v
      ensures Resolve(payload, Split(path)) == Some(v) <==> Reaches(payload, Split(path), v)
    {
      ResolvesIffReaches(payload, Split(path), v);
    }
    var current := payload;
    var parts := Split(path);
    var i := 0;
    while i < |parts|
      invariant 0 <= i <= |parts|
      invariant Resolve(payload, parts) == Resolve(current, parts[i..])
    {
      if !current.JObj? {
        return None;
      }
      var next := Get(current.fields, parts[i]);
      if next.None? {
        return None;
      }
      current := next.value;
      assert parts[i..][1..] == parts[i + 1..];
      i := i + 1;
    }
    return Some(current);
  }

  // ---------- the leaves, as places in the tree ----------

  datatype Leaf = Leaf(keys: seq<string>, value: Json)

  function Under(key: string, leaves: seq<Leaf>): (r: seq<Leaf>)
    ensures |r| == |leaves|
    ensures forall i :: 0 <= i < |r| ==> r[i] == Leaf([key] + leaves[i].keys, leaves[i].value)
  {
    seq(|leaves|, i requires 0 <= i < |leaves| => Leaf([key] + leaves[i].keys, leaves[i].value))
  }

  function LeavesAt(f: Field): (r: seq<Leaf>)
    ensures forall i :: 0 <= i < |r| ==> r[i].keys != [] && r[i].keys[0] == f.key
    decreases f
  {
    if Nested(f.value) then Under(f.key, Leaves(f.value.fields)) else [Leaf([f.key], f.value)]
  }

  function Leaves(fields: seq<Field>): (r: seq<Leaf>)
    ensures forall i :: 0 <= i < |r| ==> r[i].keys != []
    ensures fields != [] ==> r != []
    decreases fields
  {
    if fields == [] then [] else LeavesAt(fields[0]) + Leaves(fields[1..])
  }

  /** The string flatten_keys prints for a place. */
  function Render(prefix: string, keys: seq<string>): string
    decreases keys
  {
    if keys == [] then prefix else Render(Extend(prefix, keys[0]), keys[1..])
  }

  function RenderAll(prefix: string, leaves: seq<Leaf>): (r: seq<string>)
    ensures |r| == |leaves|
    ensures forall i :: 0 <= i < |r| ==> r[i] == Render(prefix, leaves[i].keys)
  {
    seq(|leaves|, i requires 0 <= i < |leaves| => Render(prefix, leaves[i].keys))
  }

  lemma RenderAllConcat(prefix: string, a: seq<Leaf>, b: seq<Leaf>)
    ensures RenderAll(prefix, a + b) == RenderAll(prefix, a) + RenderAll(prefix, b)
  {
  }

  lemma RenderUnder(prefix: string, key: string, leaves: seq<Leaf>)
    ensures RenderAll(prefix, Under(key, leaves)) == RenderAll(Extend(prefix, key), leaves)
  {
    forall i | 0 <= i < |leaves|
      ensures Render(prefix, Under(key, leaves)[i].keys) == Render(Extend(prefix, key), leaves[i].keys)
    {
      assert ([key] + leaves[i].keys)[1..] == leaves[i].keys;
    }
  }

  lemma RenderSingle(prefix: string, key: string, value: Json)
    ensures RenderAll(prefix, [Leaf([key], value)]) == [Extend(prefix, key)]
  {
    assert [key][1..] == [];
    assert Render(prefix, [key]) == Render(Extend(prefix, key), []);
  }

  /** flatten_keys prints every leaf once, in tree order: no condition on the keys. */
  lemma {:induction false} FlattenPrintsTheLeaves(fields: seq<Field>, prefix: string)
    ensures FlattenKeys(fields, prefix) == RenderAll(prefix, Leaves(fields))
    decreases fields
  {
    if fields == [] {
    } else {
      var f := fields[0];
      FlattenPrintsTheLeaves(fields[1..], prefix);
      RenderAllConcat(prefix, LeavesAt(f), Leaves(fields[1..]));
      if Nested(f.value) {
        FlattenPrintsTheLeaves(f.value.fields, Extend(prefix, f.key));
        RenderUnder(prefix, f.key, Leaves(f.value.fields));
      } else {
        RenderSingle(prefix, f.key, f.value);
      }
    }
  }

  // ---------- leaves and places are the same thing ----------

  /** A place in the tree holds anything but an object with something in it. */
  predicate IsLeaf(keys: seq<string>, v: Json, fields: seq<Field>) {
    keys != [] && (v.JObj? ==> v.fields == []) && Resolve(JObj(fields), keys) == Some(v)
  }

  lemma {:induction false} LeavesAreSound(fields: seq<Field>, all: seq<Field>, from: nat)
    requires UniqueKeys(all) && from <= |all| && fields == all[from..]
    ensures forall i :: 0 <= i < |Leaves(fields)| ==> IsLeaf(Leaves(fields)[i].keys, Leaves(fields)[i].value, all)
    decreases all, fields
  {
    if fields == [] {
    } else {
      var f := fields[0];
      assert f == all[from];
      assert fields[1..] == all[from + 1..];
      LeavesAreSound(fields[1..], all, from + 1);
      GetUnique(all, from);
      var here := LeavesAt(f);
      if Nested(f.value) {
        var sub := f.value.fields;
        assert sub == sub[0..];
        LeavesAreSound(sub, sub, 0);
        forall i | 0 <= i < |here|
          ensures IsLeaf(here[i].keys, here[i].value, all)
        {
          var inner := Leaves(sub)[i];
          assert IsLeaf(inner.keys, inner.value, sub);
          assert here[i].keys[1..] == inner.keys;
        }
      } else {
        assert [f.key][1..] == [];
        assert IsLeaf([f.key], f.value, all);
      }
      assert forall i :: 0 <= i < |here| ==> IsLeaf(here[i].keys, here[i].value, all);
    }
  }

  lemma {:induction false} LeavesAreComplete(fields: seq<Field>, keys: seq<string>, v: Json)
    requires IsLeaf(keys, v, fields)
    ensures Leaf(keys, v) in Leaves(fields)
    decreases fields
  {
    var f := fields[0];
    if f.key == keys[0] {
      assert Resolve(f.value, keys[1..]) == Some(v);
      if Nested(f.value) {
        assert keys[1..] != [];
        LeavesAreComplete(f.value.fields, keys[1..], v);
        var inner := Leaves(f.value.fields);
        var i :| 0 <= i < |inner| && inner[i] == Leaf(keys[1..], v);
        assert [f.key] + keys[1..] == keys;
        assert LeavesAt(f)[i] == Leaf(keys, v);
      } else {
        StuckOnLeaf(f.value, keys[1..], v);
        assert keys == [f.key];
        assert LeavesAt(f)[0] == Leaf(keys, v);
      }
    } else {
      assert Resolve(JObj(fields), keys) == Resolve(JObj(fields[1..]), keys);
      LeavesAreComplete(fields[1..], keys, v);
    }
  }

  lemma StuckOnLeaf(j: Json, parts: seq<string>, v: Json)
    requires !Nested(j) && Resolve(j, parts) == Some(v)
    ensures parts == [] && v == j
  {
  }

  predicate PlacesDistinct(leaves: seq<Leaf>) {
    forall i, j :: 0 <= i < j < |leaves| ==> leaves[i].keys != leaves[j].keys
  }

  lemma {:induction false} LeavesAreDistinct(fields: seq<Field>)
    requires UniqueKeys(fields)
    ensures PlacesDistinct(Leaves(fields))
    decreases fields
  {
    if fields == [] {
    } else {
      var f := fields[0];
      LeavesAreDistinct(fields[1..]);
      var here, rest := LeavesAt(f), Leaves(fields[1..]);
      if Nested(f.value) {
        LeavesAreDistinct(f.value.fields);
        var inner := Leaves(f.value.fields);
        forall i, j | 0 <= i < j < |here|
          ensures here[i].keys != here[j].keys
        {
          assert here[i].keys[1..] == inner[i].keys && here[j].keys[1..] == inner[j].keys;
        }
      }
      LeavesAreSound(fields[1..], fields[1..], 0);
      forall j | 0 <= j < |rest|
        ensures rest[j].keys[0] != f.key
      {
        assert IsLeaf(rest[j].keys, rest[j].value, fields[1..]);
      }
      assert Leaves(fields) == here + rest;
    }
  }

  // ---------- when the printed paths can be resolved again ----------

  predicate DotFreeKeys(fields: seq<Field>) {
    forall i :: 0 <= i < |fields| ==>
      DotFree(fields[i].key) && (fields[i].value.JObj? ==> DotFreeKeys(fields[i].value.fields))
  }

  /** No key holds a dot, and no nested object sits under an empty top-level key. */
  predicate CleanKeys(fields: seq<Field>) {
    DotFreeKeys(fields) && forall i :: 0 <= i < |fields| ==> fields[i].key == "" ==> !Nested(fields[i].value)
  }

  predicate DotFreePlace(keys: seq<string>) {
    forall i :: 0 <= i < |keys| ==> DotFree(keys[i])
  }

  predicate CleanPlace(keys: seq<string>) {
    DotFreePlace(keys) && !(|keys| >= 2 && keys[0] == "")
  }

  lemma {:induction false} DotFreeKeysIff(fields: seq<Field>)
    ensures DotFreeKeys(fields) <==> forall i :: 0 <= i < |Leaves(fields)| ==> DotFreePlace(Leaves(fields)[i].keys)
    decreases fields
  {
    if fields == [] {
    } else {
      var f, rest := fields[0], fields[1..];
      DotFreeKeysIff(rest);
      DotFreeSplit(fields);
      assert Leaves(fields) == LeavesAt(f) + Leaves(rest);
      if Nested(f.value) {
        DotFreeKeysIff(f.value.fields);
        DotFreeUnder(f.key, Leaves(f.value.fields));
      } else {
        assert LeavesAt(f)[0].keys == [f.key];
      }
      AllOfConcat(LeavesAt(f), Leaves(rest));
    }
  }

  lemma DotFreeSplit(fields: seq<Field>)
    requires fields != []
    ensures DotFreeKeys(fields) <==>
              && DotFree(fields[0].key)
              && (fields[0].value.JObj? ==> DotFreeKeys(fields[0].value.fields))
              && DotFreeKeys(fields[1..])
  {
    assert fields == [fields[0]] + fields[1..];
  }

  predicate AllDotFree(leaves: seq<Leaf>) {
    forall i :: 0 <= i < |leaves| ==> DotFreePlace(leaves[i].keys)
  }

  lemma DotFreeUnder(key: string, leaves: seq<Leaf>)
    requires leaves != []
    ensures AllDotFree(Under(key, leaves)) <==> DotFree(key) && AllDotFree(leaves)
  {
    var u := Under(key, leaves);
    forall i | 0 <= i < |leaves|
      ensures DotFreePlace(u[i].keys) <==> DotFree(key) && DotFreePlace(leaves[i].keys)
    {
      assert u[i].keys[0] == key;
      assert forall k :: 0 <= k < |leaves[i].keys| ==> leaves[i].keys[k] == u[i].keys[k + 1];
    }
    assert AllDotFree(u) ==> DotFreePlace(u[0].keys);
  }

  lemma AllOfConcat(a: seq<Leaf>, b: seq<Leaf>)
    ensures AllDotFree(a + b) <==> AllDotFree(a) && AllDotFree(b)
  {
    assert forall i :: 0 <= i < |a| ==> (a + b)[i] == a[i];
    assert forall i :: 0 <= i < |b| ==> (a + b)[|a| + i] == b[i];
  }
}
