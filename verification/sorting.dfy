/** Stable sorting as `list.sort` and `sorted` promise it: the specification, that it
    has one answer, and an implementation. */
module Sorting {
  ghost predicate TotalPreorder<T(!new)>(le: (T, T) -> bool) {
    && (forall a, b :: le(a, b) || le(b, a))
    && (forall a, b, c :: le(a, b) && le(b, c) ==> le(a, c))
  }

  predicate Tied<T>(le: (T, T) -> bool, a: T, b: T) {
    le(a, b) && le(b, a)
  }

  /** The elements tied with e, in the order they come in. */
  function Class<T>(le: (T, T) -> bool, s: seq<T>, e: T): seq<T> {
    if s == [] then []
    else (if Tied(le, s[0], e) then [s[0]] else []) + Class(le, s[1..], e)
  }

  predicate Sorted<T>(le: (T, T) -> bool, s: seq<T>) {
    forall i, j :: 0 <= i < j < |s| ==> le(s[i], s[j])
  }

  /** Sorted, and each class of tied elements as it was. */
  ghost predicate IsStableSort<T(!new)>(le: (T, T) -> bool, before: seq<T>, after: seq<T>) {
    Sorted(le, after) && forall e :: Class(le, after, e) == Class(le, before, e)
  }

  // ---------- one answer ----------

  lemma {:induction false} ClassMember<T>(le: (T, T) -> bool, s: seq<T>, e: T, i: nat)
    requires i < |Class(le, s, e)|
    ensures Class(le, s, e)[i] in s && Tied(le, Class(le, s, e)[i], e)
  {
    var rest := Class(le, s[1..], e);
    var skipped := |Class(le, s, e)| - |rest|;
    if skipped <= i {
      assert Class(le, s, e)[i] == rest[i - skipped];
      ClassMember(le, s[1..], e, i - skipped);
    }
  }

  lemma HeadsTied<T(!new)>(le: (T, T) -> bool, x: seq<T>, y: seq<T>)
    requires TotalPreorder(le) && x != [] && Sorted(le, y)
    requires Class(le, x, x[0]) == Class(le, y, x[0])
    ensures y != [] && le(y[0], x[0])
  {
    assert Tied(le, x[0], x[0]);
    assert Class(le, y, x[0]) != [];
    ClassMember(le, y, x[0], 0);
    var first := Class(le, y, x[0])[0];
    var i :| 0 <= i < |y| && y[i] == first;
    assert le(y[0], y[i]);
  }

  lemma {:induction false} StableSortUnique<T(!new)>(le: (T, T) -> bool, x: seq<T>, y: seq<T>)
    requires TotalPreorder(le) && Sorted(le, x) && Sorted(le, y)
    requires forall e :: Class(le, x, e) == Class(le, y, e)
    ensures x == y
  {
    if x == [] {
      if y != [] {
        HeadsTied(le, y, x);
      }
    } else {
      HeadsTied(le, x, y);
      HeadsTied(le, y, x);
      assert Class(le, x, x[0])[0] == x[0] && Class(le, y, x[0])[0] == y[0];
      forall e
        ensures Class(le, x[1..], e) == Class(le, y[1..], e)
      {
        assert Class(le, x, e) == Class(le, y, e);
        var here := if Tied(le, x[0], e) then [x[0]] else [];
        assert Class(le, x[1..], e) == Class(le, x, e)[|here|..];
        assert Class(le, y[1..], e) == Class(le, y, e)[|here|..];
      }
      StableSortUnique(le, x[1..], y[1..]);
      assert x == [x[0]] + x[1..] && y == [y[0]] + y[1..];
    }
  }

  // ---------- a permutation ----------

  lemma {:induction false} ClassCounts<T>(le: (T, T) -> bool, s: seq<T>, v: T)
    requires le(v, v)
    ensures multiset(Class(le, s, v))[v] == multiset(s)[v]
  {
    if s != [] {
      ClassCounts(le, s[1..], v);
      assert s == [s[0]] + s[1..];
    }
  }

  lemma StableSortPermutes<T(!new)>(le: (T, T) -> bool, before: seq<T>, after: seq<T>)
    requires TotalPreorder(le) && IsStableSort(le, before, after)
    ensures multiset(after) == multiset(before)
  {
    forall v
      ensures multiset(after)[v] == multiset(before)[v]
    {
      ClassCounts(le, before, v);
      ClassCounts(le, after, v);
      assert Class(le, after, v) == Class(le, before, v);
    }
  }

  // ---------- an implementation ----------

  /** x goes after everything it is not below. */
  function Insert<T>(le: (T, T) -> bool, s: seq<T>, x: T): seq<T> {
    if s == [] || !le(s[0], x) then [x] + s else [s[0]] + Insert(le, s[1..], x)
  }

  function StableSort<T>(le: (T, T) -> bool, s: seq<T>): seq<T> {
    if s == [] then [] else Insert(le, StableSort(le, s[..|s| - 1]), s[|s| - 1])
  }

  lemma {:induction false} InsertMembers<T>(le: (T, T) -> bool, s: seq<T>, x: T)
    ensures forall y :: y in Insert(le, s, x) <==> y == x || y in s
  {
    if s != [] && le(s[0], x) {
      InsertMembers(le, s[1..], x);
    }
  }

  lemma {:induction false} InsertSorts<T(!new)>(le: (T, T) -> bool, s: seq<T>, x: T)
    requires TotalPreorder(le) && Sorted(le, s)
    ensures Sorted(le, Insert(le, s, x))
  {
    if s == [] {
    } else if le(s[0], x) {
      InsertSorts(le, s[1..], x);
      InsertMembers(le, s[1..], x);
      var rest := Insert(le, s[1..], x);
      forall j | 0 <= j < |rest|
        ensures le(s[0], rest[j])
      {
        assert rest[j] in rest;
      }
    } else {
      assert forall j :: 0 <= j < |s| ==> le(s[0], s[j]);
      assert forall j :: 0 <= j < |s| ==> le(x, s[j]);
    }
  }

  lemma ClassOfCons<T>(le: (T, T) -> bool, x: T, s: seq<T>, e: T)
    ensures Class(le, [x] + s, e) == (if Tied(le, x, e) then [x] else []) + Class(le, s, e)
  {
    assert ([x] + s)[1..] == s;
  }

  lemma {:induction false} InsertClass<T(!new)>(le: (T, T) -> bool, s: seq<T>, x: T, e: T)
    requires TotalPreorder(le) && Sorted(le, s)
    ensures Class(le, Insert(le, s, x), e) == Class(le, s, e) + if Tied(le, x, e) then [x] else []
  {
    if s == [] {
      ClassOfCons(le, x, s, e);
    } else if le(s[0], x) {
      ClassOfCons(le, s[0], Insert(le, s[1..], x), e);
      InsertClass(le, s[1..], x, e);
    } else {
      ClassOfCons(le, x, s, e);
      if Tied(le, x, e) {
        BelowTied(le, s[0], x, e);
        NoneTied(le, s, e);
      }
    }
  }

  lemma BelowTied<T(!new)>(le: (T, T) -> bool, a: T, x: T, e: T)
    requires TotalPreorder(le) && !le(a, x) && Tied(le, x, e)
    ensures !le(a, e)
  {
  }

  lemma {:induction false} NoneTied<T(!new)>(le: (T, T) -> bool, s: seq<T>, e: T)
    requires TotalPreorder(le) && Sorted(le, s) && s != [] && !le(s[0], e)
    ensures Class(le, s, e) == []
  {
    if |s| > 1 {
      assert le(s[0], s[1]);
      NoneTied(le, s[1..], e);
    }
  }

  lemma {:induction false} ClassOfAppend<T>(le: (T, T) -> bool, s: seq<T>, x: T, e: T)
    ensures Class(le, s + [x], e) == Class(le, s, e) + if Tied(le, x, e) then [x] else []
  {
    if s == [] {
      assert s + [x] == [x] + [];
      ClassOfCons(le, x, [], e);
    } else {
      assert s + [x] == [s[0]] + (s[1..] + [x]);
      ClassOfCons(le, s[0], s[1..] + [x], e);
      ClassOfAppend(le, s[1..], x, e);
      var head, tail := if Tied(le, s[0], e) then [s[0]] else [], Class(le, s[1..], e);
      var end := if Tied(le, x, e) then [x] else [];
      assert head + (tail + end) == head + tail + end;
    }
  }

  lemma {:induction false} StableSortIsStable<T(!new)>(le: (T, T) -> bool, s: seq<T>)
    requires TotalPreorder(le)
    ensures IsStableSort(le, s, StableSort(le, s))
  {
    if s != [] {
      var front, x := s[..|s| - 1], s[|s| - 1];
      StableSortIsStable(le, front);
      InsertSorts(le, StableSort(le, front), x);
      assert s == front + [x];
      forall e
        ensures Class(le, StableSort(le, s), e) == Class(le, s, e)
      {
        assert Class(le, StableSort(le, front), e) == Class(le, front, e);
        InsertClass(le, StableSort(le, front), x, e);
        ClassOfAppend(le, front, x, e);
      }
    }
  }
}
