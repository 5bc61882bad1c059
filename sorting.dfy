/** `sorted(...)`, `np.sort(...)` and `sorted(set(...))` on real samples.
    The scripts sort a private copy; here the copy is simply a new value. */
module Sorting {

  predicate Sorted(s: seq<real>)
  {
    forall i, j :: 0 <= i < j < |s| ==> s[i] <= s[j]
  }

  predicate StrictlyIncreasing(s: seq<real>)
  {
    forall i, j :: 0 <= i < j < |s| ==> s[i] < s[j]
  }

  function Insert(x: real, s: seq<real>): (r: seq<real>)
    requires Sorted(s)
    ensures Sorted(r)
    ensures multiset(r) == multiset(s) + multiset{x}
  {
    if |s| == 0 then [x]
    else if x <= s[0] then [x] + s
    else
      var rest := Insert(x, s[1..]);
      assert s == [s[0]] + s[1..];
      LowerBoundKept(s[0], s[1..], x, rest);
      SortedCons(s[0], rest);
      [s[0]] + rest
  }

  /** A lower bound of `t` and of `x` bounds any arrangement of `t` plus `x`. */
  lemma LowerBoundKept(h: real, t: seq<real>, x: real, rest: seq<real>)
    requires forall i :: 0 <= i < |t| ==> h <= t[i]
    requires h <= x
    requires multiset(rest) == multiset(t) + multiset{x}
    ensures forall i :: 0 <= i < |rest| ==> h <= rest[i]
  {
    forall i | 0 <= i < |rest|
      ensures h <= rest[i]
    {
      assert rest[i] in multiset(rest);
      if rest[i] != x {
        assert rest[i] in multiset(t);
      }
    }
  }

  lemma SortedCons(h: real, t: seq<real>)
    requires Sorted(t)
    requires forall i :: 0 <= i < |t| ==> h <= t[i]
    ensures Sorted([h] + t)
  {
  }

  /** Ascending copy of a sample. */
  function Sort(s: seq<real>): (r: seq<real>)
    ensures Sorted(r)
    ensures |r| == |s|
    ensures multiset(r) == multiset(s)
  {
    if |s| == 0 then []
    else
      assert s == s[..|s| - 1] + [s[|s| - 1]];
      var r := Insert(s[|s| - 1], Sort(s[..|s| - 1]));
      assert |r| == |multiset(r)| == |multiset(s)| == |s|;
      r
  }

  /** Two sorted arrangements of the same multiset are the same sequence. */
  lemma {:induction false} SortedPermutationsEqual(a: seq<real>, b: seq<real>)
    requires Sorted(a) && Sorted(b)
    requires multiset(a) == multiset(b)
    ensures a == b
  {
    if |a| == 0 {
      assert |multiset(b)| == 0;
    } else {
      SameHead(a, b);
      DropHead(a);
      DropHead(b);
      SortedPermutationsEqual(a[1..], b[1..]);
      assert a == [a[0]] + a[1..];
      assert b == [b[0]] + b[1..];
    }
  }

  /** Sorted arrangements of the same non-empty multiset share their
      smallest element. */
  lemma SameHead(a: seq<real>, b: seq<real>)
    requires Sorted(a) && Sorted(b) && |a| > 0
    requires multiset(a) == multiset(b)
    ensures |b| > 0 && a[0] == b[0]
  {
    assert a[0] in multiset(b);
    var i :| 0 <= i < |b| && b[i] == a[0];
    assert b[0] in multiset(a);
    var j :| 0 <= j < |a| && a[j] == b[0];
    assert b[0] <= b[i] && a[0] <= a[j];
  }

  /** Dropping the head removes one copy of it from the multiset. */
  lemma DropHead(a: seq<real>)
    requires |a| > 0
    ensures multiset(a[1..]) == multiset(a) - multiset{a[0]}
  {
    assert a == [a[0]] + a[1..];
  }

  /** Sorting forgets the order of its input. */
  lemma SortIgnoresOrder(a: seq<real>, b: seq<real>)
    requires multiset(a) == multiset(b)
    ensures Sort(a) == Sort(b)
  {
    SortedPermutationsEqual(Sort(a), Sort(b));
  }

  /** Drops the repeats of a sorted sequence. */
  function Dedup(s: seq<real>): (r: seq<real>)
    requires Sorted(s)
    ensures StrictlyIncreasing(r)
    ensures forall x :: x in r <==> x in s
    ensures |s| > 0 ==> |r| > 0 && r[0] == s[0]
  {
    if |s| <= 1 then s
    else if s[0] == s[1] then Dedup(s[1..])
    else
      var rest := Dedup(s[1..]);
      assert forall y :: y in rest ==> s[1] <= y;
      [s[0]] + rest
  }

  /** `sorted(set(s))`: the distinct values of `s`, ascending. */
  function SortedSet(s: seq<real>): (r: seq<real>)
    ensures StrictlyIncreasing(r)
    ensures forall x :: x in r <==> x in s
  {
    var sorted := Sort(s);
    assert forall x :: x in sorted <==> x in multiset(s);
    Dedup(sorted)
  }
}
