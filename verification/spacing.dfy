/** Readings of a clock, events kept a gap apart, and how many of them a window can hold. */
module Spacing {
  import opened Exact
  import opened Selection

  /** Reading n of the clock. */
  type Clock = nat -> int

  ghost predicate Monotone(clock: Clock) {
    forall m: nat, n: nat :: m <= n ==> clock(m) <= clock(n)
  }

  predicate SpacedBy(ts: seq<int>, gap: nat) {
    forall i, j :: 0 <= i < j < |ts| ==> ts[i] + gap <= ts[j]
  }

  /** The events of the closed window from `start` that lasts `length`. */
  function During(ts: seq<int>, start: int, length: nat): seq<int> {
    Selected((t: int) => start <= t <= start + length, ts)
  }

  lemma DuringSpaced(ts: seq<int>, gap: nat, start: int, length: nat)
    requires SpacedBy(ts, gap)
    ensures SpacedBy(During(ts, start, length), gap)
    ensures forall i :: 0 <= i < |During(ts, start, length)| ==> start <= During(ts, start, length)[i] <= start + length
  {
    var ks := SelectedInOrder((t: int) => start <= t <= start + length, ts);
  }

  lemma {:induction false} SpacedGrows(ts: seq<int>, gap: nat, i: nat)
    requires SpacedBy(ts, gap) && i < |ts|
    ensures ts[0] + i * gap <= ts[i]
  {
    if i > 0 {
      SpacedGrows(ts, gap, i - 1);
      assert ts[i - 1] + gap <= ts[i];
      assert i * gap == (i - 1) * gap + gap;
    }
  }

  lemma MultipleFits(n: nat, gap: nat, length: nat)
    requires 1 <= gap && n * gap <= length
    ensures n <= length / gap
  {
    var q, r := length / gap, length % gap;
    assert length == q * gap + r;
    MulAtLeast(n - q, gap);
    assert (n - q) * gap == n * gap - q * gap;
  }

  /** Events a gap apart: any window of length L holds at most L / gap + 1 of them. */
  lemma WindowBound(ts: seq<int>, gap: nat, start: int, length: nat)
    requires 1 <= gap && SpacedBy(ts, gap)
    ensures |During(ts, start, length)| <= length / gap + 1
  {
    DuringSpaced(ts, gap, start, length);
    var inside := During(ts, start, length);
    if inside != [] {
      var n := |inside| - 1;
      SpacedGrows(inside, gap, n);
      MultipleFits(n, gap, length);
    }
  }
}
