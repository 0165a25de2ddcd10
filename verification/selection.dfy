/** Keeping some of a sequence in its order. */
module Selection {
  function Selected<T>(keep: T -> bool, s: seq<T>): seq<T> {
    if s == [] then [] else (if keep(s[0]) then [s[0]] else []) + Selected(keep, s[1..])
  }

  /** What is kept is exactly what qualifies, in its old order: item i is the one from ks[i]. */
  ghost predicate KeptInOrder<T>(qualifies: T -> bool, before: seq<T>, after: seq<T>, ks: seq<nat>) {
    && |ks| == |after|
    && (forall i, j :: 0 <= i < j < |ks| ==> ks[i] < ks[j])
    && (forall i :: 0 <= i < |ks| ==> ks[i] < |before| && after[i] == before[ks[i]] && qualifies(after[i]))
    && (forall k :: 0 <= k < |before| && qualifies(before[k]) ==> k in ks)
  }

  function Later(ks: seq<nat>): (later: seq<nat>)
    ensures |later| == |ks| && forall i :: 0 <= i < |ks| ==> later[i] == ks[i] + 1
  {
    seq(|ks|, i requires 0 <= i < |ks| => ks[i] + 1)
  }

  /** The places of what is kept of all but the first, in the whole. */
  ghost predicate KeptButFirst<T>(qualifies: T -> bool, s: seq<T>, kept: seq<T>, ks: seq<nat>) {
    && |ks| == |kept|
    && (forall i, j :: 0 <= i < j < |ks| ==> ks[i] < ks[j])
    && (forall i :: 0 <= i < |ks| ==> 0 < ks[i] < |s| && kept[i] == s[ks[i]] && qualifies(kept[i]))
    && (forall k :: 0 < k < |s| && qualifies(s[k]) ==> k in ks)
  }

  lemma LaterInOrder<T>(keep: T -> bool, s: seq<T>, kept: seq<T>, rest: seq<nat>, later: seq<nat>)
    requires s != [] && KeptInOrder(keep, s[1..], kept, rest) && later == Later(rest)
    ensures KeptButFirst(keep, s, kept, later)
  {
    forall k | 0 < k < |s| && keep(s[k])
      ensures k in later
    {
      assert s[1..][k - 1] == s[k];
      var i :| 0 <= i < |rest| && rest[i] == k - 1;
      assert later[i] == k;
    }
  }

  lemma FirstInOrder<T>(keep: T -> bool, s: seq<T>, kept: seq<T>, later: seq<nat>)
    requires s != [] && keep(s[0]) && KeptButFirst(keep, s, kept, later)
    ensures KeptInOrder(keep, s, [s[0]] + kept, [0] + later)
  {
    var ks, all := [0] + later, [s[0]] + kept;
    forall i | 0 <= i < |ks|
      ensures ks[i] < |s| && all[i] == s[ks[i]] && keep(all[i])
      ensures forall j :: 0 <= j < i ==> ks[j] < ks[i]
    {
      if i > 0 {
        assert ks[i] == later[i - 1] && all[i] == kept[i - 1];
      }
    }
    forall k | 0 <= k < |s| && keep(s[k])
      ensures k in ks
    {
      if k > 0 {
        assert k in later;
      }
    }
  }

  lemma {:induction false} AllSelected<T>(keep: T -> bool, s: seq<T>)
    requires forall i :: 0 <= i < |s| ==> keep(s[i])
    ensures Selected(keep, s) == s
  {
    if s != [] {
      AllSelected(keep, s[1..]);
    }
  }

  lemma {:induction false} SelectedOfAppend<T>(keep: T -> bool, s: seq<T>, x: T)
    ensures Selected(keep, s + [x]) == Selected(keep, s) + if keep(x) then [x] else []
  {
    if s == [] {
      assert s + [x] == [x] && [x][1..] == [];
    } else {
      assert (s + [x])[0] == s[0] && (s + [x])[1..] == s[1..] + [x];
      SelectedOfAppend(keep, s[1..], x);
      var head, tail, end := if keep(s[0]) then [s[0]] else [], Selected(keep, s[1..]), if keep(x) then [x] else [];
      assert head + (tail + end) == head + tail + end;
    }
  }

  lemma {:induction false} SelectedInOrder<T>(keep: T -> bool, s: seq<T>) returns (ks: seq<nat>)
    ensures KeptInOrder(keep, s, Selected(keep, s), ks)
  {
    if s == [] {
      ks := [];
    } else {
      var kept := Selected(keep, s[1..]);
      var rest := SelectedInOrder(keep, s[1..]);
      var later := Later(rest);
      LaterInOrder(keep, s, kept, rest, later);
      if keep(s[0]) {
        FirstInOrder(keep, s, kept, later);
        ks := [0] + later;
      } else {
        ks := later;
        assert Selected(keep, s) == [] + kept == kept;
      }
    }
  }

  lemma {:induction false} SelectedCounts<T>(keep: T -> bool, s: seq<T>, x: T)
    ensures multiset(Selected(keep, s))[x] == if keep(x) then multiset(s)[x] else 0
  {
    if s != [] {
      SelectedCounts(keep, s[1..], x);
      assert s == [s[0]] + s[1..];
    }
  }

  lemma {:induction false} SelectedMembers<T>(keep: T -> bool, s: seq<T>, i: nat)
    requires i < |Selected(keep, s)|
    ensures Selected(keep, s)[i] in s && keep(Selected(keep, s)[i])
  {
    if !(keep(s[0]) && i == 0) {
      var j := if keep(s[0]) then i - 1 else i;
      assert Selected(keep, s)[i] == Selected(keep, s[1..])[j];
      SelectedMembers(keep, s[1..], j);
    }
  }

  lemma SelectedHas<T>(keep: T -> bool, s: seq<T>, x: T)
    ensures x in Selected(keep, s) <==> x in s && keep(x)
  {
    SelectedCounts(keep, s, x);
    assert x in multiset(Selected(keep, s)) <==> x in Selected(keep, s);
    assert x in multiset(s) <==> x in s;
  }

  lemma SelectedSplit<T>(keep: T -> bool, s: seq<T>)
    requires s != []
    ensures
      var n := |s| - 1;
      Selected(keep, s) == Selected(keep, s[..n]) + if keep(s[n]) then [s[n]] else []
  {
    var n := |s| - 1;
    assert s == s[..n] + [s[n]];
    SelectedOfAppend(keep, s[..n], s[n]);
  }
}
