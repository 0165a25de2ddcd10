/** Exactly when the paths of `flatten_keys` lead back to their leaves. */
module Picker {
  import opened Common
  import opened Json
  import opened Text
  import opened Mapping

  predicate NoDuplicates(paths: seq<string>) {
    forall i, j :: 0 <= i < j < |paths| ==> paths[i] != paths[j]
  }

  /** Every leaf is listed under a path of its own, and the path leads back to it. */
  predicate PickerFaithful(fields: seq<Field>) {
    var paths, leaves := FlattenKeys(fields, ""), Leaves(fields);
    && |paths| == |leaves|
    && NoDuplicates(paths)
    && forall i :: 0 <= i < |paths| ==> Resolve(JObj(fields), Split(paths[i])) == Some(leaves[i].value)
  }

  // ---------- rendering against joining ----------

  lemma {:induction false} RenderAfterPrefix(prefix: string, keys: seq<string>)
    requires prefix != "" && keys != []
    ensures Render(prefix, keys) == prefix + "." + Join(keys)
    decreases keys
  {
    var path := Extend(prefix, keys[0]);
    if |keys| > 1 {
      RenderAfterPrefix(path, keys[1..]);
      assert prefix + "." + keys[0] + "." + Join(keys[1..]) == prefix + "." + (keys[0] + "." + Join(keys[1..]));
    }
  }

  lemma RenderFromTop(keys: seq<string>)
    requires keys != []
    ensures |keys| == 1 || keys[0] != "" ==> Render("", keys) == Join(keys)
    ensures |keys| >= 2 && keys[0] == "" ==> Render("", keys) == Render("", keys[1..])
  {
    if |keys| > 1 && keys[0] != "" {
      RenderAfterPrefix(keys[0], keys[1..]);
    }
  }

  lemma {:induction false} RenderNotLonger(keys: seq<string>)
    requires keys != []
    ensures |Render("", keys)| <= |Join(keys)|
    decreases keys
  {
    RenderFromTop(keys);
    if |keys| >= 2 && keys[0] == "" {
      RenderNotLonger(keys[1..]);
    }
  }

  // ---------- clean keys are enough ----------

  lemma PlaceFromPath(keys: seq<string>)
    requires keys != [] && CleanPlace(keys)
    ensures Split(Render("", keys)) == keys
  {
    RenderFromTop(keys);
    SplitJoin(keys);
  }

  lemma {:induction false} TopKeyOfLeaf(fields: seq<Field>)
    ensures CleanKeys(fields) <==> forall i :: 0 <= i < |Leaves(fields)| ==> CleanPlace(Leaves(fields)[i].keys)
  {
    DotFreeKeysIff(fields);
    NoEmptyTopIff(fields);
  }

  predicate EmptyTop(keys: seq<string>) {
    |keys| >= 2 && keys[0] == ""
  }

  lemma {:induction false} NoEmptyTopIff(fields: seq<Field>)
    ensures (forall i :: 0 <= i < |fields| ==> fields[i].key == "" ==> !Nested(fields[i].value))
       <==> (forall i :: 0 <= i < |Leaves(fields)| ==> !EmptyTop(Leaves(fields)[i].keys))
  {
    if fields == [] {
    } else {
      var f, rest := fields[0], fields[1..];
      var here := LeavesAt(f);
      NoEmptyTopIff(rest);
      assert fields == [f] + rest;
      assert Leaves(fields) == here + Leaves(rest);
      assert (forall i :: 0 <= i < |here| ==> !EmptyTop(here[i].keys)) <==> (f.key == "" ==> !Nested(f.value)) by {
        if Nested(f.value) {
          assert here[0].keys == [f.key] + Leaves(f.value.fields)[0].keys;
        }
      }
      assert forall i :: 0 <= i < |here| ==> (here + Leaves(rest))[i] == here[i];
      assert forall i :: 0 <= i < |Leaves(rest)| ==> (here + Leaves(rest))[|here| + i] == Leaves(rest)[i];
    }
  }

  lemma CleanIsFaithful(fields: seq<Field>)
    requires UniqueKeys(fields) && CleanKeys(fields)
    ensures PickerFaithful(fields)
  {
    var paths, leaves := FlattenKeys(fields, ""), Leaves(fields);
    FlattenPrintsTheLeaves(fields, "");
    TopKeyOfLeaf(fields);
    LeavesAreSound(fields, fields, 0);
    LeavesAreDistinct(fields);
    forall i | 0 <= i < |paths|
      ensures Split(paths[i]) == leaves[i].keys
      ensures Resolve(JObj(fields), Split(paths[i])) == Some(leaves[i].value)
    {
      PlaceFromPath(leaves[i].keys);
      assert IsLeaf(leaves[i].keys, leaves[i].value, fields);
    }
    forall i, j | 0 <= i < j < |paths|
      ensures paths[i] != paths[j]
    {
      assert Split(paths[i]) != Split(paths[j]);
    }
  }

  // ---------- and nothing less is ----------

  /** The place a faithful path splits into is itself a listed leaf. */
  lemma SplitPlaceIsListed(fields: seq<Field>, i: nat) returns (j: nat)
    requires UniqueKeys(fields) && PickerFaithful(fields) && i < |Leaves(fields)|
    ensures j < |Leaves(fields)| && Leaves(fields)[j].keys == Split(FlattenKeys(fields, "")[i])
  {
    var q, v := Split(FlattenKeys(fields, "")[i]), Leaves(fields)[i].value;
    LeavesAreSound(fields, fields, 0);
    assert IsLeaf(Leaves(fields)[i].keys, v, fields);
    LeavesAreComplete(fields, q, v);
    j :| 0 <= j < |Leaves(fields)| && Leaves(fields)[j] == Leaf(q, v);
  }

  lemma {:induction false} FaithfulPlaceIsClean(fields: seq<Field>, i: nat)
    requires UniqueKeys(fields) && PickerFaithful(fields) && i < |Leaves(fields)|
    ensures CleanPlace(Leaves(fields)[i].keys)
    decreases |FlattenKeys(fields, "")[i]|
  {
    var paths, leaves := FlattenKeys(fields, ""), Leaves(fields);
    FlattenPrintsTheLeaves(fields, "");
    var j := SplitPlaceIsListed(fields, i);
    var q := leaves[j].keys;
    JoinSplit(paths[i]);
    RenderFromTop(q);
    if EmptyTop(q) {
      RenderNotLonger(q[1..]);
      FaithfulPlaceIsClean(fields, j);
    } else {
      assert paths[j] == paths[i];
      assert i == j;
    }
  }

  /** The picker is faithful to a payload exactly when its keys are clean. */
  lemma FaithfulIffClean(fields: seq<Field>)
    requires UniqueKeys(fields)
    ensures PickerFaithful(fields) <==> CleanKeys(fields)
  {
    if CleanKeys(fields) {
      CleanIsFaithful(fields);
    }
    if PickerFaithful(fields) {
      forall i | 0 <= i < |Leaves(fields)|
        ensures CleanPlace(Leaves(fields)[i].keys)
      {
        FaithfulPlaceIsClean(fields, i);
      }
      TopKeyOfLeaf(fields);
    }
  }

  // ---------- payloads the picker fails on ----------

  lemma OneLeaf(key: string, v: Json)
    requires !Nested(v)
    ensures FlattenKeys([Field(key, v)], "") == [key] && Leaves([Field(key, v)]) == [Leaf([key], v)]
  {
    assert [Field(key, v)][1..] == [];
  }

  /** A key with a dot is listed as it is, and its path then looks for a key inside "a". */
  lemma DottedKeyIsLost(v: Json)
    requires !Nested(v)
    ensures
      var fields := [Field("a.b", v)];
      && FlattenKeys(fields, "") == ["a.b"] && Split("a.b") == ["a", "b"]
      && Resolve(JObj(fields), Split("a.b")).None? && !PickerFaithful(fields)
  {
    var fields := [Field("a.b", v)];
    OneLeaf("a.b", v);
    SplitJoin(["a", "b"]);
    assert ["a", "b"][1..] == ["b"];
    assert Join(["a", "b"]) == "a.b";
    assert Get(fields, "a").None?;
    assert FlattenKeys(fields, "")[0] == "a.b";
  }

  /** Under an empty top-level key the prefix is dropped, and the path looks at the top. */
  lemma EmptyTopIsLost(v: Json)
    requires !Nested(v)
    ensures
      var fields := [Field("", JObj([Field("b", v)]))];
      FlattenKeys(fields, "") == ["b"] && Resolve(JObj(fields), Split("b")).None? && !PickerFaithful(fields)
  {
    var fields := [Field("", JObj([Field("b", v)]))];
    OneLeaf("b", v);
    assert fields[1..] == [];
    SplitJoin(["b"]);
    assert Get(fields, "b").None?;
    assert Leaves(fields) == LeavesAt(fields[0]) + [];
  }
}
