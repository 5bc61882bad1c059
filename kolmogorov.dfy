/** The Kolmogorov goodness-of-fit statistic against the Pareto law: the
    two-sided `D_n = max(D+, D-)` computed over the sorted sample, the
    one-sided running maximum of `|i/n - F(x_(i))|`, and the corrected
    statistic `S = (6 n D + 1) / (6 sqrt n)` compared with 1.358. */
module Kolmogorov {
  import opened Common
  import opened Analysis
  import opened Sorting

  /** The critical value of the corrected statistic at level 0.05. */
  const Critical: real := 1.358

  /** `|i/n - F(x_(i))|` at the `i`-th order statistic (`i = j + 1`). */
  function PlusAt(pow: (real, real) -> real, x: seq<real>, theta: real, j: nat): (r: real)
    requires j < |x|
    ensures r >= 0.0
  {
    Abs((j + 1) as real / |x| as real - ParetoCdf(pow, x[j], theta))
  }

  /** `|F(x_(i)) - (i-1)/n|` at the `i`-th order statistic (`i = j + 1`). */
  function MinusAt(pow: (real, real) -> real, x: seq<real>, theta: real, j: nat): (r: real)
    requires j < |x|
    ensures r >= 0.0
  {
    Abs(ParetoCdf(pow, x[j], theta) - j as real / |x| as real)
  }

  function PlusDeviations(pow: (real, real) -> real, x: seq<real>, theta: real): (r: seq<real>)
    ensures |r| == |x|
    ensures forall j :: 0 <= j < |x| ==> r[j] == PlusAt(pow, x, theta, j)
  {
    seq(|x|, j requires 0 <= j < |x| => PlusAt(pow, x, theta, j))
  }

  function MinusDeviations(pow: (real, real) -> real, x: seq<real>, theta: real): (r: seq<real>)
    ensures |r| == |x|
    ensures forall j :: 0 <= j < |x| ==> r[j] == MinusAt(pow, x, theta, j)
  {
    seq(|x|, j requires 0 <= j < |x| => MinusAt(pow, x, theta, j))
  }

  /** The two-sided statistic of a non-empty sample over its sorted copy
      `x`: `max(D+, D-)` with `D+ = max |i/n - F(x_(i))|` and
      `D- = max |F(x_(i)) - (i-1)/n|`. */
  function TwoSidedD(pow: (real, real) -> real, sample: seq<real>, theta: real): real
    requires |sample| > 0
  {
    TwoSidedOf(pow, Sort(sample), theta)
  }

  function TwoSidedOf(pow: (real, real) -> real, x: seq<real>, theta: real): (d: real)
    requires |x| > 0
  {
    Max(MaxReal(PlusDeviations(pow, x, theta)), MaxReal(MinusDeviations(pow, x, theta)))
  }

  /** `D_n` bounds each of the `n` upper and `n` lower deviations (so it is
      at least `D+` and `D-`), is one of them, and is not negative. */
  lemma TwoSidedDominates(pow: (real, real) -> real, sample: seq<real>, theta: real)
    requires |sample| > 0
    ensures forall j :: 0 <= j < |sample| ==>
      TwoSidedD(pow, sample, theta) >= PlusAt(pow, Sort(sample), theta, j) &&
      TwoSidedD(pow, sample, theta) >= MinusAt(pow, Sort(sample), theta, j)
    ensures TwoSidedD(pow, sample, theta) >= MaxReal(PlusDeviations(pow, Sort(sample), theta))
    ensures TwoSidedD(pow, sample, theta) >= MaxReal(MinusDeviations(pow, Sort(sample), theta))
    ensures TwoSidedD(pow, sample, theta) in PlusDeviations(pow, Sort(sample), theta) + MinusDeviations(pow, Sort(sample), theta)
    ensures TwoSidedD(pow, sample, theta) >= 0.0
  {
    OfDominates(pow, Sort(sample), theta);
  }

  lemma OfDominates(pow: (real, real) -> real, x: seq<real>, theta: real)
    requires |x| > 0
    ensures forall j :: 0 <= j < |x| ==>
      TwoSidedOf(pow, x, theta) >= PlusAt(pow, x, theta, j) && TwoSidedOf(pow, x, theta) >= MinusAt(pow, x, theta, j)
    ensures TwoSidedOf(pow, x, theta) >= MaxReal(PlusDeviations(pow, x, theta))
    ensures TwoSidedOf(pow, x, theta) >= MaxReal(MinusDeviations(pow, x, theta))
    ensures TwoSidedOf(pow, x, theta) in PlusDeviations(pow, x, theta) + MinusDeviations(pow, x, theta)
    ensures TwoSidedOf(pow, x, theta) >= 0.0
  {
    var plus := PlusDeviations(pow, x, theta);
    var minus := MinusDeviations(pow, x, theta);
    assert plus[0] >= 0.0;
    var d := TwoSidedOf(pow, x, theta);
    assert d == MaxReal(plus) || d == MaxReal(minus);
    assert d in plus + minus by {
      assert forall v :: v in plus ==> v in plus + minus;
      assert forall v :: v in minus ==> v in plus + minus;
    }
  }

  /** `i/n` for `0 <= i <= n` lies in `[0, 1]`. */
  lemma RankFraction(i: nat, n: nat)
    requires 0 < n && i <= n
    ensures 0.0 <= i as real / n as real <= 1.0
  {
    QuotientSign(i as real, n as real);
    QuotientMonotone(i as real, n as real, n as real);
  }

  /** When every CDF value lies in `[0, 1]`, so does `D_n`. */
  lemma TwoSidedAtMostOne(pow: (real, real) -> real, sample: seq<real>, theta: real)
    requires |sample| > 0
    requires forall i :: 0 <= i < |sample| ==> 0.0 <= ParetoCdf(pow, sample[i], theta) <= 1.0
    ensures TwoSidedD(pow, sample, theta) <= 1.0
  {
    var x := Sort(sample);
    assert forall j :: 0 <= j < |x| ==> 0.0 <= ParetoCdf(pow, x[j], theta) <= 1.0 by {
      forall j | 0 <= j < |x|
        ensures 0.0 <= ParetoCdf(pow, x[j], theta) <= 1.0
      {
        assert x[j] in multiset(sample);
      }
    }
    OfAtMostOne(pow, x, theta);
  }

  lemma OfAtMostOne(pow: (real, real) -> real, x: seq<real>, theta: real)
    requires |x| > 0
    requires forall j :: 0 <= j < |x| ==> 0.0 <= ParetoCdf(pow, x[j], theta) <= 1.0
    ensures TwoSidedOf(pow, x, theta) <= 1.0
  {
    var n := |x|;
    var plus := PlusDeviations(pow, x, theta);
    var minus := MinusDeviations(pow, x, theta);
    forall j | 0 <= j < n
      ensures plus[j] <= 1.0 && minus[j] <= 1.0
    {
      RankFraction(j + 1, n);
      RankFraction(j, n);
    }
  }

  /** `D_n` depends on the values only, not on their order. */
  lemma TwoSidedIgnoresOrder(pow: (real, real) -> real, a: seq<real>, b: seq<real>, theta: real)
    requires |a| > 0 && multiset(a) == multiset(b)
    ensures |b| > 0
    ensures TwoSidedD(pow, a, theta) == TwoSidedD(pow, b, theta)
  {
    assert |b| == |multiset(b)| == |multiset(a)| == |a|;
    SortIgnoresOrder(a, b);
  }

  // ---------------------------------------------------------------------
  // The corrected statistic and the verdict

  /** `S = (6 n D + 1) / (6 sqrt n)`; for `D >= 0` it is positive. */
  function Corrected(sqrt: real -> real, n: nat, d: real): (s: real)
    requires IsSqrt(sqrt) && n > 0
    ensures d >= 0.0 ==> s > 0.0
  {
    var num := 6.0 * n as real * d + 1.0;
    var den := 6.0 * sqrt(n as real);
    QuotientSign(num, den);
    num / den
  }

  /** The verdict: reject when `S > 1.358`, that is, when
      `6 n D + 1 > 1.358 * 6 sqrt n`. */
  function Reject(sqrt: real -> real, n: nat, d: real): (r: bool)
    requires IsSqrt(sqrt) && n > 0
    ensures r <==> Corrected(sqrt, n, d) > Critical
    ensures r <==> 6.0 * n as real * d + 1.0 > Critical * (6.0 * sqrt(n as real))
  {
    QuotientCompare(6.0 * n as real * d + 1.0, 6.0 * sqrt(n as real), Critical);
    Corrected(sqrt, n, d) > Critical
  }

  /** The corrected statistic grows with `D`, so a larger deviation never
      turns a rejection into an acceptance. */
  lemma RejectMonotone(sqrt: real -> real, n: nat, d1: real, d2: real)
    requires IsSqrt(sqrt) && n > 0 && d1 <= d2
    ensures Reject(sqrt, n, d1) ==> Reject(sqrt, n, d2)
  {
    var k := 6.0 * n as real;
    assert k * d1 <= k * d2 by {
      assert k * (d2 - d1) >= 0.0;
    }
  }

  // ---------------------------------------------------------------------
  // The one-sided running maximum

  /** One-sided statistic of the second script: the loop over the sorted
      copy keeps the largest `|i/n - F(x_(i))|` seen so far, starting from
      0, and `S` is computed from it. */
  method OneSidedStatistic(pow: (real, real) -> real, sqrt: real -> real, sample: seq<real>, theta: real)
    returns (dn: real, s: real)
    requires IsSqrt(sqrt) && |sample| > 0
    ensures dn == RunningMax(PlusDeviations(pow, Sort(sample), theta))
    ensures s == Corrected(sqrt, |sample|, dn)
  {
    var n := |sample|;
    var x := Sort(sample);
    ghost var devs := PlusDeviations(pow, x, theta);
    dn := 0.0;
    for i := 0 to n
      invariant dn == RunningMax(devs[..i])
    {
      var fn := (i + 1) as real / n as real;
      var fTheory := 1.0 - pow(x[i], -theta);
      var diff := Abs(fn - fTheory);
      if diff > dn {
        dn := diff;
      }
      assert devs[..i + 1][..i] == devs[..i];
    }
    assert devs[..n] == devs;
    s := Corrected(sqrt, n, dn);
  }

  /** On non-negative entries the running maximum from 0 is the ordinary
      maximum. */
  lemma {:induction false} RunningMaxOfNonNegative(s: seq<real>)
    requires |s| > 0
    requires forall i :: 0 <= i < |s| ==> s[i] >= 0.0
    ensures RunningMax(s) == MaxReal(s)
  {
    if |s| > 1 {
      var m := |s| - 1;
      RunningMaxOfNonNegative(s[..m]);
    }
  }

  /** The one-sided statistic is `D+` of the two-sided script, hence never
      larger than its `D_n`. */
  lemma OneSidedIsDPlus(pow: (real, real) -> real, sample: seq<real>, theta: real)
    requires |sample| > 0
    ensures RunningMax(PlusDeviations(pow, Sort(sample), theta)) == MaxReal(PlusDeviations(pow, Sort(sample), theta))
    ensures RunningMax(PlusDeviations(pow, Sort(sample), theta)) <= TwoSidedD(pow, sample, theta)
  {
    RunningMaxOfNonNegative(PlusDeviations(pow, Sort(sample), theta));
    TwoSidedDominates(pow, sample, theta);
  }

  /** The one-sided statistic, too, depends only on the values. */
  lemma OneSidedIgnoresOrder(pow: (real, real) -> real, a: seq<real>, b: seq<real>, theta: real)
    requires multiset(a) == multiset(b)
    ensures RunningMax(PlusDeviations(pow, Sort(a), theta)) == RunningMax(PlusDeviations(pow, Sort(b), theta))
  {
    SortIgnoresOrder(a, b);
  }
}
