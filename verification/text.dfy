/** The string operations the kernel leans on: `str.strip`, `str.split(".")` and joining with dots. */
module Text {
  /** Characters `str.strip` removes. */
  predicate IsSpace(c: char) {
    var n := c as int;
    9 <= n <= 13 || 28 <= n <= 32 || n == 0x85 || n == 0xA0 || n == 0x1680 || 0x2000 <= n <= 0x200A
    || n == 0x2028 || n == 0x2029 || n == 0x202F || n == 0x205F || n == 0x3000
  }

  function StripLeft(s: string): (r: string)
    ensures r != "" ==> !IsSpace(r[0])
    ensures |r| <= |s|
  {
    if s != "" && IsSpace(s[0]) then StripLeft(s[1..]) else s
  }

  function StripRight(s: string): (r: string)
    ensures r != "" ==> !IsSpace(r[|r| - 1])
    ensures |r| <= |s| && r == s[..|r|]
  {
    if s != "" && IsSpace(s[|s| - 1]) then StripRight(s[..|s| - 1]) else s
  }

  function Strip(s: string): string {
    StripRight(StripLeft(s))
  }

  /** Stripping twice is stripping once. */
  lemma StripIdempotent(s: string)
    ensures Strip(Strip(s)) == Strip(s)
  {
    var l := StripLeft(s);
    var r := StripRight(l);
    if r != "" {
      assert r[0] == l[0];
    }
  }

  predicate AllSpace(s: string) {
    forall i :: 0 <= i < |s| ==> IsSpace(s[i])
  }

  /** Stripping cuts whitespace off both ends and leaves none there. */
  ghost predicate IsStripped(s: string, r: string) {
    && (exists left, right :: AllSpace(left) && AllSpace(right) && s == left + r + right)
    && (r != "" ==> !IsSpace(r[0]) && !IsSpace(r[|r| - 1]))
  }

  lemma {:induction false} LeftIsSpace(s: string) returns (left: string)
    ensures AllSpace(left) && s == left + StripLeft(s)
  {
    if s != "" && IsSpace(s[0]) {
      var rest := LeftIsSpace(s[1..]);
      left := [s[0]] + rest;
      assert s == [s[0]] + s[1..];
    } else {
      left := "";
    }
  }

  lemma {:induction false} RightIsSpace(s: string) returns (right: string)
    ensures AllSpace(right) && s == StripRight(s) + right
  {
    if s != "" && IsSpace(s[|s| - 1]) {
      var rest := RightIsSpace(s[..|s| - 1]);
      right := rest + [s[|s| - 1]];
      assert s == s[..|s| - 1] + [s[|s| - 1]];
    } else {
      right := "";
    }
  }

  lemma StripStrips(s: string)
    ensures IsStripped(s, Strip(s))
  {
    var left := LeftIsSpace(s);
    var right := RightIsSpace(StripLeft(s));
    assert s == left + Strip(s) + right;
    if Strip(s) != "" {
      assert Strip(s)[0] == StripLeft(s)[0];
    }
  }

  predicate DotFree(s: string) {
    '.' !in s
  }

  function Split(s: string): (parts: seq<string>)
    ensures parts != []
    ensures forall i :: 0 <= i < |parts| ==> DotFree(parts[i])
  {
    if s == "" then [""]
    else if s[0] == '.' then [""] + Split(s[1..])
    else
      var rest := Split(s[1..]);
      [[s[0]] + rest[0]] + rest[1..]
  }

  function Join(parts: seq<string>): string
    requires parts != []
  {
    if |parts| == 1 then parts[0] else parts[0] + "." + Join(parts[1..])
  }

  lemma {:induction false} SplitPrepend(a: string, s: string)
    requires DotFree(a)
    ensures Split(a + s) == [a + Split(s)[0]] + Split(s)[1..]
  {
    if a == "" {
      assert a + s == s;
      assert a + Split(s)[0] == Split(s)[0];
    } else {
      assert (a + s)[1..] == a[1..] + s;
      SplitPrepend(a[1..], s);
      assert a == [a[0]] + a[1..];
      assert [a[0]] + (a[1..] + Split(s)[0]) == a + Split(s)[0];
    }
  }

  lemma {:induction false} SplitJoin(parts: seq<string>)
    requires parts != [] && forall i :: 0 <= i < |parts| ==> DotFree(parts[i])
    ensures Split(Join(parts)) == parts
  {
    if |parts| == 1 {
      SplitPrepend(parts[0], "");
      assert parts[0] + "" == parts[0];
    } else {
      var rest := Join(parts[1..]);
      SplitJoin(parts[1..]);
      assert ("." + rest)[1..] == rest;
      assert Split("." + rest) == [""] + parts[1..];
      SplitPrepend(parts[0], "." + rest);
      assert ([""] + parts[1..])[1..] == parts[1..];
      assert parts[0] + "" == parts[0];
      assert parts[0] + ("." + rest) == Join(parts);
    }
  }

  lemma {:induction false} JoinSplit(s: string)
    ensures Join(Split(s)) == s
  {
    if s == "" {
    } else {
      JoinSplit(s[1..]);
      var rest := Split(s[1..]);
      if s[0] == '.' {
        assert ([""] + rest)[1..] == rest;
      } else {
        JoinPrepend(s[0], rest);
      }
    }
  }

  lemma JoinPrepend(c: char, parts: seq<string>)
    requires parts != []
    ensures Join([[c] + parts[0]] + parts[1..]) == [c] + Join(parts)
  {
    var longer := [[c] + parts[0]] + parts[1..];
    assert longer[1..] == parts[1..];
    if |parts| > 1 {
      assert ([c] + parts[0]) + "." + Join(parts[1..]) == [c] + (parts[0] + "." + Join(parts[1..]));
    }
  }

  // ---------- stripping a joined path ----------

  /** The parts of a stripped path: only its two ends can lose anything. */
  function StripEnds(parts: seq<string>): (r: seq<string>)
    ensures |r| == |parts|
  {
    var n := |parts| - 1;
    if parts == [] then []
    else if n == 0 then [Strip(parts[0])]
    else [StripLeft(parts[0])] + parts[1..n] + [StripRight(parts[n])]
  }

  predicate EndsClean(parts: seq<string>)
    requires parts != []
  {
    var first, last := parts[0], parts[|parts| - 1];
    (first != "" ==> !IsSpace(first[0])) && (last != "" ==> !IsSpace(last[|last| - 1]))
  }

  lemma {:induction false} StripLeftStops(a: string, b: string)
    requires b != "" && !IsSpace(b[0])
    ensures StripLeft(a + b) == StripLeft(a) + b
  {
    if a == "" {
      assert a + b == b;
    } else {
      assert (a + b)[1..] == a[1..] + b;
      StripLeftStops(a[1..], b);
    }
  }

  lemma {:induction false} StripRightStops(a: string, b: string)
    requires a != "" && !IsSpace(a[|a| - 1])
    ensures StripRight(a + b) == a + StripRight(b)
  {
    if b == "" {
      assert a + b == a;
    } else {
      assert (a + b)[..|a + b| - 1] == a + b[..|b| - 1];
      StripRightStops(a, b[..|b| - 1]);
    }
  }

  lemma {:induction false} JoinFromTheRight(parts: seq<string>)
    requires |parts| >= 2
    ensures Join(parts) == Join(parts[..|parts| - 1]) + "." + parts[|parts| - 1]
  {
    var n := |parts| - 1;
    if n > 1 {
      JoinFromTheRight(parts[1..]);
      assert parts[1..][..n - 1] == parts[..n][1..];
      var middle := Join(parts[..n][1..]);
      assert parts[0] + "." + (middle + "." + parts[n]) == (parts[0] + "." + middle) + "." + parts[n];
    }
  }

  lemma ConcatAssociates(a: string, b: string, c: string)
    ensures a + b + c == a + (b + c)
  {
  }

  lemma StripLeftJoin(parts: seq<string>)
    requires |parts| >= 2
    ensures StripLeft(Join(parts)) == Join([StripLeft(parts[0])] + parts[1..])
  {
    var left, tail := StripLeft(parts[0]), Join(parts[1..]);
    assert ([left] + parts[1..])[1..] == parts[1..];
    ConcatAssociates(parts[0], ".", tail);
    ConcatAssociates(left, ".", tail);
    StripLeftStops(parts[0], "." + tail);
  }

  lemma StripRightJoin(parts: seq<string>)
    requires |parts| >= 2
    ensures StripRight(Join(parts)) == Join(parts[..|parts| - 1] + [StripRight(parts[|parts| - 1])])
  {
    var n := |parts| - 1;
    JoinFromTheRight(parts);
    StripRightStops(Join(parts[..n]) + ".", parts[n]);
    var stripped := parts[..n] + [StripRight(parts[n])];
    JoinFromTheRight(stripped);
    assert stripped[..n] == parts[..n];
  }

  /** Stripping a joined path strips the left of its first part and the right of its last. */
  lemma StripJoin(parts: seq<string>)
    requires parts != []
    ensures Strip(Join(parts)) == Join(StripEnds(parts))
  {
    if |parts| >= 2 {
      var left := [StripLeft(parts[0])] + parts[1..];
      StripLeftJoin(parts);
      StripRightJoin(left);
      StripBothEnds(parts);
    }
  }

  lemma StripBothEnds(parts: seq<string>)
    requires |parts| >= 2
    ensures
      var n, left := |parts| - 1, [StripLeft(parts[0])] + parts[1..];
      StripEnds(parts) == left[..n] + [StripRight(left[n])]
  {
    var n, left := |parts| - 1, [StripLeft(parts[0])] + parts[1..];
    assert left[n] == parts[n] && left[..n] == [StripLeft(parts[0])] + parts[1..n];
  }

  lemma StrippingIff(s: string)
    ensures StripLeft(s) == s <==> s == "" || !IsSpace(s[0])
    ensures StripRight(s) == s <==> s == "" || !IsSpace(s[|s| - 1])
  {
  }

  lemma StripBothIff(s: string)
    ensures Strip(s) == s <==> StripLeft(s) == s && StripRight(s) == s
  {
    assert |StripRight(StripLeft(s))| <= |StripLeft(s)| <= |s|;
  }

  lemma {:induction false} LeftIsSuffix(s: string)
    ensures StripLeft(s) == s[|s| - |StripLeft(s)|..]
  {
    if s != "" && IsSpace(s[0]) {
      LeftIsSuffix(s[1..]);
      assert s[1..][|s| - 1 - |StripLeft(s)|..] == s[|s| - |StripLeft(s)|..];
    }
  }

  lemma StrippedIsDotFree(s: string)
    requires DotFree(s)
    ensures DotFree(StripLeft(s)) && DotFree(StripRight(s)) && DotFree(Strip(s))
  {
    LeftIsSuffix(s);
    assert forall c :: c in StripLeft(s) ==> c in s;
    var l := StripLeft(s);
    assert StripRight(l) == l[..|StripRight(l)|] && StripRight(s) == s[..|StripRight(s)|];
  }

  lemma StripEndsAt(parts: seq<string>, i: nat)
    requires i < |parts|
    ensures StripEnds(parts)[i] in [parts[i], Strip(parts[i]), StripLeft(parts[i]), StripRight(parts[i])]
  {
  }

  lemma StripEndsDotFree(parts: seq<string>)
    requires forall i :: 0 <= i < |parts| ==> DotFree(parts[i])
    ensures forall i :: 0 <= i < |parts| ==> DotFree(StripEnds(parts)[i])
  {
    forall i | 0 <= i < |parts|
      ensures DotFree(StripEnds(parts)[i])
    {
      StrippedIsDotFree(parts[i]);
      StripEndsAt(parts, i);
    }
  }

  lemma SameEndsIff(parts: seq<string>)
    requires parts != []
    ensures StripEnds(parts) == parts <==> EndsClean(parts)
  {
    var n, r := |parts| - 1, StripEnds(parts);
    StrippingIff(parts[0]);
    StrippingIff(parts[n]);
    if n == 0 {
      StripBothIff(parts[0]);
      assert r == parts <==> r[0] == parts[0];
    } else {
      assert forall i :: 0 < i < n ==> r[i] == parts[i];
      assert r == parts <==> r[0] == parts[0] && r[n] == parts[n];
    }
  }

  /** Exactly when the two ends are clean does a path of dot-free parts split, once
      stripped, into the parts it was joined from. */
  lemma StrippedPathSplits(parts: seq<string>)
    requires parts != [] && forall i :: 0 <= i < |parts| ==> DotFree(parts[i])
    ensures Split(Strip(Join(parts))) == StripEnds(parts)
    ensures StripEnds(parts) == parts <==> EndsClean(parts)
  {
    StripEndsDotFree(parts);
    SameEndsIff(parts);
    StripJoin(parts);
    SplitJoin(StripEnds(parts));
  }
}
