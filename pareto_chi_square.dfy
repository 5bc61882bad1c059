/** Pearson's test of a Pareto law with shape `theta`: boundaries at the
    inverse-CDF points, half-open first-match counting with an overflow rule
    for the last bin, expected counts from CDF differences; the known-theta
    test (`df = k - 1`) and the composite test with the in-sample
    maximum-likelihood shape (`df = k - 2`). */
module ParetoChiSquare {
  import opened Common
  import opened Analysis
  import opened Sorting
  import opened Sturges
  import opened Pearson

  /** The bin boundaries for a sample whose maximum is `top`: 1.0, the
      quantiles at `j / k` for `j = 1..k-1`, and `1.01 * top`. */
  function Boundaries(pow: (real, real) -> real, top: real, k: nat, theta: real): (b: seq<real>)
    requires k >= 1
    requires k >= 2 ==> theta != 0.0
    ensures |b| == k + 1
  {
    seq(k + 1, j requires 0 <= j <= k => BoundaryAt(pow, top, k, theta, j))
  }

  /** Boundary `j` of `k + 1`. */
  function BoundaryAt(pow: (real, real) -> real, top: real, k: nat, theta: real, j: nat): real
    requires j <= k
    requires k >= 2 ==> theta != 0.0
  {
    if j == 0 then 1.0
    else if j == k then top * 1.01
    else ParetoQuantile(pow, j as real / k as real, theta)
  }

  /** The last element of the sorted copy is the maximum. */
  lemma SortedLast(s: seq<real>)
    requires |s| > 0
    ensures Sort(s)[|s| - 1] == MaxReal(s)
  {
    var t := Sort(s);
    var last := t[|s| - 1];
    assert last in multiset(t);
    assert last in s;
    assert MaxReal(s) in multiset(t);
    var i :| 0 <= i < |t| && t[i] == MaxReal(s);
    assert t[i] <= last;
  }

  /** `create_intervals_pareto`: sorts a copy for the maximum and appends the
      quantile boundaries in order. */
  method CreateBoundaries(pow: (real, real) -> real, sample: seq<real>, k: nat, theta: real) returns (boundaries: seq<real>)
    requires |sample| > 0 && k >= 1
    requires k >= 2 ==> theta != 0.0
    ensures boundaries == Boundaries(pow, MaxReal(sample), k, theta)
  {
    var sorted := Sort(sample);
    var minVal := 1.0;
    var maxVal := sorted[|sorted| - 1] * 1.01;
    assert maxVal == MaxReal(sample) * 1.01 by {
      SortedLast(sample);
    }
    boundaries := [minVal];
    for j := 1 to k
      invariant |boundaries| == j
      invariant boundaries[0] == 1.0
      invariant forall i :: 1 <= i < j ==> boundaries[i] == ParetoQuantile(pow, i as real / k as real, theta)
    {
      var p := j as real / k as real;
      var boundary := ParetoQuantile(pow, p, theta);
      boundaries := boundaries + [boundary];
    }
    boundaries := boundaries + [maxVal];
    BoundariesDetermined(pow, MaxReal(sample), k, theta, boundaries);
  }

  /** What the builder promises: `k + 1` boundaries, 1.0 first, the
      quantile at `j / k` in place `j`, `1.01 * top` last. */
  lemma BoundariesShape(pow: (real, real) -> real, top: real, k: nat, theta: real)
    requires k >= 1
    requires k >= 2 ==> theta != 0.0
    ensures Boundaries(pow, top, k, theta)[0] == 1.0
    ensures forall j :: 0 < j < k ==> Boundaries(pow, top, k, theta)[j] == ParetoQuantile(pow, j as real / k as real, theta)
    ensures Boundaries(pow, top, k, theta)[k] == top * 1.01
  {
  }

  /** Conversely, a list with that shape is the boundary list. */
  lemma BoundariesDetermined(pow: (real, real) -> real, top: real, k: nat, theta: real, b: seq<real>)
    requires k >= 1
    requires k >= 2 ==> theta != 0.0
    requires |b| == k + 1 && b[0] == 1.0 && b[k] == top * 1.01
    requires forall j :: 0 < j < k ==> b[j] == ParetoQuantile(pow, j as real / k as real, theta)
    ensures b == Boundaries(pow, top, k, theta)
  {
    BoundariesShape(pow, top, k, theta);
  }

  /** For a positive shape the boundaries before the last one rise strictly
      from 1.0: each is the quantile of a larger probability. */
  lemma BoundariesInteriorIncreasing(pow: (real, real) -> real, top: real, k: nat, theta: real)
    requires IsPower(pow) && k >= 1 && theta > 0.0
    ensures forall i, j :: 0 <= i < j < k ==> Boundaries(pow, top, k, theta)[i] < Boundaries(pow, top, k, theta)[j]
  {
    var b := Boundaries(pow, top, k, theta);
    BoundariesShape(pow, top, k, theta);
    forall i, j | 0 <= i < j < k
      ensures b[i] < b[j]
    {
      var pj := j as real / k as real;
      Fraction(j, k);
      if i == 0 {
        QuantileRange(pow, pj, theta);
      } else {
        FractionIncreasing(i, j, k);
        QuantileIncreasing(pow, theta, i as real / k as real, pj);
      }
    }
  }

  lemma Fraction(j: nat, k: nat)
    requires 0 < j < k
    ensures 0.0 < j as real / k as real < 1.0
  {
    var q := j as real / k as real;
    assert q * k as real == j as real;
  }

  lemma FractionIncreasing(i: nat, j: nat, k: nat)
    requires i < j && k > 0
    ensures i as real / k as real < j as real / k as real
  {
    var d := j as real / k as real - i as real / k as real;
    assert d == (j - i) as real / k as real;
    assert d * k as real == (j - i) as real;
  }

  /** Bin `i` is the half-open `[b[i], b[i+1])`. */
  predicate InBin(b: seq<real>, i: nat, v: real)
    requires i + 1 < |b|
  {
    b[i] <= v < b[i + 1]
  }

  /** Index of the first bin that holds `v`, or `|b| - 1` (the number of
      bins) when none does. */
  function FirstBin(b: seq<real>, v: real): (i: nat)
    requires |b| >= 1
    ensures i <= |b| - 1
    ensures i < |b| - 1 ==> InBin(b, i, v)
    ensures forall j :: 0 <= j < i ==> !InBin(b, j, v)
  {
    if |b| == 1 then 0
    else if b[0] <= v < b[1] then 0
    else
      var r := FirstBin(b[1..], v);
      assert forall j :: 1 <= j < |b| - 1 ==> (InBin(b, j, v) <==> InBin(b[1..], j - 1, v));
      1 + r
  }

  /** The first-match step: the first bin holding `v` gains one. */
  function FirstMatch(counts: seq<nat>, b: seq<real>, v: real): (r: seq<nat>)
    requires |b| >= 2 && |counts| == |b| - 1
    ensures |r| == |counts|
  {
    var i := FirstBin(b, v);
    if i < |counts| then counts[i := counts[i] + 1] else counts
  }

  /** Counting one value: first match, then, independently, the last bin
      gains one more when `v >= b[k]`. */
  function TallyPareto(counts: seq<nat>, b: seq<real>, v: real): (r: seq<nat>)
    requires |b| >= 2 && |counts| == |b| - 1
    ensures |r| == |counts|
  {
    var c := FirstMatch(counts, b, v);
    if v >= b[|b| - 1] then c[|c| - 1 := c[|c| - 1] + 1] else c
  }

  /** The observed counts of a sample, values taken in order. */
  function ObservedPareto(sample: seq<real>, b: seq<real>): (r: seq<nat>)
    requires |b| >= 2
    ensures |r| == |b| - 1
  {
    if |sample| == 0 then Zeros(|b| - 1)
    else TallyPareto(ObservedPareto(sample[..|sample| - 1], b), b, sample[|sample| - 1])
  }

  /** The counting loop of `chi2_statistic_pareto`. */
  method CountObservedPareto(sample: seq<real>, boundaries: seq<real>) returns (observed: seq<nat>)
    requires |boundaries| >= 2
    ensures observed == ObservedPareto(sample, boundaries)
  {
    var k := |boundaries| - 1;
    observed := Zeros(k);
    for s := 0 to |sample|
      invariant observed == ObservedPareto(sample[..s], boundaries)
    {
      var value := sample[s];
      assert sample[..s + 1][..s] == sample[..s];
      observed := AddFirstMatch(observed, boundaries, value);
      if value >= boundaries[k] {
        observed := observed[k - 1 := observed[k - 1] + 1];
      }
    }
    assert sample[..|sample|] == sample;
  }

  /** The inner loop: scan the bins in order and add one to the first that
      holds `value`. */
  method AddFirstMatch(counts: seq<nat>, boundaries: seq<real>, value: real) returns (observed: seq<nat>)
    requires |boundaries| >= 2 && |counts| == |boundaries| - 1
    ensures observed == FirstMatch(counts, boundaries, value)
  {
    observed := counts;
    for i := 0 to |counts|
      invariant observed == counts
      invariant forall j :: 0 <= j < i ==> !InBin(boundaries, j, value)
    {
      if boundaries[i] <= value < boundaries[i + 1] {
        assert InBin(boundaries, i, value);
        assert FirstBin(boundaries, value) == i;
        observed := observed[i := observed[i] + 1];
        return;
      }
    }
  }

  /** `n * (F(b[i+1]) - F(b[i]))` for each bin. */
  function ExpectedPareto(pow: (real, real) -> real, b: seq<real>, n: nat, theta: real): (r: seq<real>)
    requires |b| >= 2
    ensures |r| == |b| - 1
  {
    seq(|b| - 1, i requires 0 <= i < |b| - 1 => n as real * (ParetoCdf(pow, b[i + 1], theta) - ParetoCdf(pow, b[i], theta)))
  }

  /** The loop that fills the expected counts. */
  method ExpectedListPareto(pow: (real, real) -> real, boundaries: seq<real>, n: nat, theta: real) returns (expected: seq<real>)
    requires |boundaries| >= 2
    ensures expected == ExpectedPareto(pow, boundaries, n, theta)
  {
    var k := |boundaries| - 1;
    expected := [];
    for i := 0 to k
      invariant expected == ExpectedPareto(pow, boundaries, n, theta)[..i]
    {
      var prob := ParetoCdf(pow, boundaries[i + 1], theta) - ParetoCdf(pow, boundaries[i], theta);
      assert ExpectedPareto(pow, boundaries, n, theta)[i] == n as real * prob;
      expected := expected + [n as real * prob];
    }
    assert ExpectedPareto(pow, boundaries, n, theta)[..k] == ExpectedPareto(pow, boundaries, n, theta);
  }

  /** `chi2_statistic_pareto` for any boundary list of at least two entries;
      `n` is the sample length. */
  method Chi2StatisticPareto(pow: (real, real) -> real, sample: seq<real>, boundaries: seq<real>, theta: real) returns (chi2: real)
    requires |boundaries| >= 2
    ensures chi2 == Chi2(ObservedPareto(sample, boundaries), ExpectedPareto(pow, boundaries, |sample|, theta))
    ensures chi2 >= 0.0
  {
    var observed := CountObservedPareto(sample, boundaries);
    var expected := ExpectedListPareto(pow, boundaries, |sample|, theta);
    chi2 := PearsonSum(observed, expected);
  }

  /** Pearson's statistic of a sample over the builder's `k + 1`
      boundaries for shape `theta`. */
  function BinnedChi2(pow: (real, real) -> real, sample: seq<real>, k: nat, theta: real): (chi2: real)
    requires |sample| > 0 && k >= 1
    requires k >= 2 ==> theta != 0.0
    ensures chi2 >= 0.0
  {
    var b := Boundaries(pow, MaxReal(sample), k, theta);
    Chi2(ObservedPareto(sample, b), ExpectedPareto(pow, b, |sample|, theta))
  }

  /** `create_intervals_pareto` followed by `chi2_statistic_pareto`. */
  method BinnedStatistic(pow: (real, real) -> real, sample: seq<real>, k: nat, theta: real) returns (chi2: real)
    requires |sample| > 0 && k >= 1
    requires k >= 2 ==> theta != 0.0
    ensures chi2 == BinnedChi2(pow, sample, k, theta)
  {
    var boundaries := CreateBoundaries(pow, sample, k, theta);
    chi2 := Chi2StatisticPareto(pow, sample, boundaries, theta);
  }

  /** Counting one value adds one for the first match, if any, and one more
      for the overflow rule. */
  lemma TallyParetoTotal(counts: seq<nat>, b: seq<real>, v: real)
    requires |b| >= 2 && |counts| == |b| - 1
    ensures Total(TallyPareto(counts, b, v)) ==
      Total(counts) + (if FirstBin(b, v) < |b| - 1 then 1 else 0) + (if v >= b[|b| - 1] then 1 else 0)
  {
    var c := FirstMatch(counts, b, v);
    if FirstBin(b, v) < |b| - 1 {
      TotalIncrement(counts, FirstBin(b, v));
    }
    if v >= b[|b| - 1] {
      TotalIncrement(c, |c| - 1);
    }
  }

  /** A value between the first and the last boundary lies in some bin,
      whatever the order of the boundaries in between. */
  lemma {:induction false} Crossing(b: seq<real>, v: real)
    requires |b| >= 2 && b[0] <= v < b[|b| - 1]
    ensures FirstBin(b, v) < |b| - 1
  {
    if !(v < b[1]) {
      Crossing(b[1..], v);
    }
  }

  /** With strictly increasing boundaries a value is counted exactly once
      when it is at least `b[0]` and not at all below it. */
  lemma CountedOnceWhenIncreasing(counts: seq<nat>, b: seq<real>, v: real)
    requires |b| >= 2 && |counts| == |b| - 1
    requires StrictlyIncreasing(b)
    ensures Total(TallyPareto(counts, b, v)) == Total(counts) + (if v >= b[0] then 1 else 0)
  {
    var k := |b| - 1;
    TallyParetoTotal(counts, b, v);
    if v >= b[k] {
      assert forall j :: 1 <= j <= k ==> b[j] <= b[k];
      assert FirstBin(b, v) == k;
    } else if v >= b[0] {
      Crossing(b, v);
    } else {
      assert forall j :: 0 <= j < k ==> b[0] <= b[j];
    }
  }

  /** Number of sample values at least `lo`. */
  function CountAtLeast(sample: seq<real>, lo: real): (c: nat)
    ensures c <= |sample|
  {
    if |sample| == 0 then 0
    else CountAtLeast(sample[..|sample| - 1], lo) + (if sample[|sample| - 1] >= lo then 1 else 0)
  }

  /** With strictly increasing boundaries the observed counts add up to the
      number of values at least `b[0]`. */
  lemma {:induction false} ObservedTotalWhenIncreasing(sample: seq<real>, b: seq<real>)
    requires |b| >= 2 && StrictlyIncreasing(b)
    ensures Total(ObservedPareto(sample, b)) == CountAtLeast(sample, b[0])
  {
    if |sample| > 0 {
      var m := |sample| - 1;
      ObservedTotalWhenIncreasing(sample[..m], b);
      CountedOnceWhenIncreasing(ObservedPareto(sample[..m], b), b, sample[m]);
    }
  }

  /** With boundaries that are not increasing the overflow rule counts a
      value twice: `[1, 3, 2]` and the value 2.5 fill both bins. */
  lemma DoubleCountExample()
    ensures TallyPareto([0, 0], [1.0, 3.0, 2.0], 2.5) == [1, 1]
    ensures Total(ObservedPareto([2.5], [1.0, 3.0, 2.0])) == 2
  {
    assert FirstBin([1.0, 3.0, 2.0], 2.5) == 0;
    assert [2.5][..0] == [];
    assert Total([1, 1]) == 2 by {
      assert [1, 1][..1] == [1];
      assert [1][..0] == [];
    }
  }

  /** Every value between the first and the last boundary is counted
      exactly once, whatever the order of the boundaries in between, so the
      observed counts add up to `n`. */
  lemma {:induction false} ObservedTotalWithinRange(sample: seq<real>, b: seq<real>)
    requires |b| >= 2
    requires forall i :: 0 <= i < |sample| ==> b[0] <= sample[i] < b[|b| - 1]
    ensures Total(ObservedPareto(sample, b)) == |sample|
  {
    if |sample| > 0 {
      var m := |sample| - 1;
      ObservedTotalWithinRange(sample[..m], b);
      Crossing(b, sample[m]);
      TallyParetoTotal(ObservedPareto(sample[..m], b), b, sample[m]);
    }
  }

  /** The ends the builder gives: 1.0 first and `1.01 * top` last. */
  predicate FromOneTo(b: seq<real>, last: real)
  {
    |b| >= 2 && b[0] == 1.0 && b[|b| - 1] == last
  }

  lemma BoundariesFromOneTo(pow: (real, real) -> real, top: real, k: nat, theta: real)
    requires k >= 1
    requires k >= 2 ==> theta != 0.0
    ensures FromOneTo(Boundaries(pow, top, k, theta), top * 1.01)
  {
    BoundariesShape(pow, top, k, theta);
  }

  /** Boundaries of the builder's shape never trigger the overflow rule for
      a sample of values in `[1, top]` with `top` positive: every value is
      counted exactly once. */
  lemma BuilderCountsEachValueOnce(sample: seq<real>, b: seq<real>, top: real)
    requires FromOneTo(b, top * 1.01) && top > 0.0
    requires forall i :: 0 <= i < |sample| ==> 1.0 <= sample[i] <= top
    ensures Total(ObservedPareto(sample, b)) == |sample|
  {
    ObservedTotalWithinRange(sample, b);
  }

  lemma Telescope(x: real, a: real, b: real, c: real)
    ensures x * (b - a) + x * (c - b) == x * (c - a)
  {
  }

  /** The expected counts of the first `i` bins telescope to
      `n * (F(b[i]) - F(b[0]))`. */
  lemma {:induction false} ExpectedPrefixTelescopes(pow: (real, real) -> real, b: seq<real>, n: nat, theta: real, i: nat)
    requires |b| >= 2 && i <= |b| - 1
    ensures Sum(ExpectedPareto(pow, b, n, theta)[..i]) ==
      n as real * (ParetoCdf(pow, b[i], theta) - ParetoCdf(pow, b[0], theta))
  {
    var e := ExpectedPareto(pow, b, n, theta);
    if i == 0 {
      assert e[..0] == [];
    } else {
      ExpectedPrefixTelescopes(pow, b, n, theta, i - 1);
      SumPrefix(e, i);
      Telescope(n as real, ParetoCdf(pow, b[0], theta), ParetoCdf(pow, b[i - 1], theta), ParetoCdf(pow, b[i], theta));
    }
  }

  /** The expected counts add up to `n * (F(b[k]) - F(b[0]))`. */
  lemma ExpectedTelescopes(pow: (real, real) -> real, b: seq<real>, n: nat, theta: real)
    requires |b| >= 2
    ensures Sum(ExpectedPareto(pow, b, n, theta)) ==
      n as real * (ParetoCdf(pow, b[|b| - 1], theta) - ParetoCdf(pow, b[0], theta))
  {
    var e := ExpectedPareto(pow, b, n, theta);
    ExpectedPrefixTelescopes(pow, b, n, theta, |b| - 1);
    assert e[..|b| - 1] == e;
  }

  /** When the first boundary is 1 the expected counts add up to `n` times
      the CDF at the last boundary. */
  lemma TelescopeFromOne(pow: (real, real) -> real, b: seq<real>, n: nat, theta: real, last: real)
    requires IsPower(pow) && |b| >= 2 && b[0] == 1.0 && b[|b| - 1] == last
    ensures Sum(ExpectedPareto(pow, b, n, theta)) == n as real * ParetoCdf(pow, last, theta)
  {
    ExpectedTelescopes(pow, b, n, theta);
    CdfAtOne(pow, theta);
    MinusZero(n as real, ParetoCdf(pow, last, theta), ParetoCdf(pow, b[0], theta));
  }

  lemma MinusZero(x: real, a: real, z: real)
    requires z == 0.0
    ensures x * (a - z) == x * a
  {
  }

  /** With boundaries of the builder's shape, a positive shape and a
      maximum of at least 1, the expected counts add up to
      `n * F(1.01 * top)`, which falls short of `n`. */
  lemma BuilderExpectedShort(pow: (real, real) -> real, b: seq<real>, top: real, n: nat, theta: real)
    requires IsPower(pow) && FromOneTo(b, top * 1.01)
    requires n > 0 && theta > 0.0 && top >= 1.0
    ensures Sum(ExpectedPareto(pow, b, n, theta)) == n as real * ParetoCdf(pow, top * 1.01, theta)
    ensures Sum(ExpectedPareto(pow, b, n, theta)) < n as real
  {
    var f := ParetoCdf(pow, top * 1.01, theta);
    assert f < 1.0 by {
      CdfRange(pow, top * 1.01, theta);
    }
    TelescopeFromOne(pow, b, n, theta, top * 1.01);
    ShortOfOne(Sum(ExpectedPareto(pow, b, n, theta)), n as real, f);
  }

  lemma ShortOfOne(s: real, n: real, f: real)
    requires n > 0.0 && f < 1.0 && s == n * f
    ensures s < n
  {
    assert n * (1.0 - f) > 0.0;
  }

  /** The known-theta test of one series: its own boundaries, Sturges' `k`
      from the nominal size, `df = k - 1`. */
  function KnownThetaVerdict(pow: (real, real) -> real, sample: seq<real>, size: nat, theta: real, ppf: int -> real): (v: Verdict)
    requires size >= 1 && |sample| > 0 && theta != 0.0
    ensures v.df == SturgesK(size) - 1 && v.critical == ppf(SturgesK(size) - 1)
    ensures v.statistic >= 0.0
    ensures v.reject <==> v.statistic > v.critical
  {
    var k := SturgesK(size);
    Decide(BinnedChi2(pow, sample, k, theta), ppf(k - 1), k - 1)
  }

  /** The known-theta driver for one sample size. */
  method KnownThetaTests(pow: (real, real) -> real, series: seq<seq<real>>, size: nat, theta: real, ppf: int -> real)
    returns (verdicts: seq<Verdict>)
    requires size >= 1 && theta != 0.0
    requires forall i :: 0 <= i < |series| ==> |series[i]| > 0
    ensures |verdicts| == |series|
    ensures forall i :: 0 <= i < |series| ==> verdicts[i] == KnownThetaVerdict(pow, series[i], size, theta, ppf)
  {
    var k := SturgesK(size);
    var df := k - 1;
    var criticalValue := ppf(df);
    verdicts := [];
    for i := 0 to |series|
      invariant |verdicts| == i
      invariant forall j :: 0 <= j < i ==> verdicts[j] == KnownThetaVerdict(pow, series[j], size, theta, ppf)
    {
      var v := KnownThetaSeries(pow, series[i], size, theta, ppf);
      verdicts := verdicts + [v];
    }
  }

  /** One series of the known-theta driver. */
  method KnownThetaSeries(pow: (real, real) -> real, sample: seq<real>, size: nat, theta: real, ppf: int -> real)
    returns (v: Verdict)
    requires size >= 1 && |sample| > 0 && theta != 0.0
    ensures v == KnownThetaVerdict(pow, sample, size, theta, ppf)
  {
    var k := SturgesK(size);
    var chi2 := BinnedStatistic(pow, sample, k, theta);
    v := Decide(chi2, ppf(k - 1), k - 1);
  }

  /** What `chi2_complex_pareto` returns. */
  datatype ParetoFit = ParetoFit(chi2: real, critical: real, k: nat, thetaEst: real)

  /** Python's `math.log` needs positive values and the estimate needs a
      non-zero log-sum. */
  predicate CompositeDefined(ln: real -> real, sample: seq<real>)
  {
    && |sample| > 0
    && (forall i :: 0 <= i < |sample| ==> sample[i] > 0.0)
    && LogSum(ln, sample) != 0.0
  }

  /** The composite test as a value. */
  function CompositeFit(ln: real -> real, pow: (real, real) -> real, sample: seq<real>, ppf: int -> real): (r: ParetoFit)
    requires CompositeDefined(ln, sample)
    ensures r.thetaEst == ParetoMle(ln, sample) && r.thetaEst != 0.0
    ensures r.k == SturgesK(|sample|) && r.critical == ppf(r.k - 2)
    ensures r.chi2 >= 0.0
  {
    MleSolves(ln, sample);
    var theta := ParetoMle(ln, sample);
    var k := SturgesK(|sample|);
    ParetoFit(BinnedChi2(pow, sample, k, theta), ppf(k - 2), k, theta)
  }

  /** `chi2_complex_pareto`: estimate the shape in-sample, then count,
      fill the expected list and sum as `chi2_statistic_pareto` does, with
      `df = k - 2`. */
  method Chi2ComplexPareto(ln: real -> real, pow: (real, real) -> real, sample: seq<real>, ppf: int -> real) returns (r: ParetoFit)
    requires CompositeDefined(ln, sample)
    ensures r == CompositeFit(ln, pow, sample, ppf)
  {
    var n := |sample|;
    var thetaEst := ParetoMle(ln, sample);
    assert thetaEst != 0.0 by {
      MleSolves(ln, sample);
    }
    var k := SturgesK(n);
    var chi2 := BinnedStatistic(pow, sample, k, thetaEst);
    var df := k - 2;
    r := ParetoFit(chi2, ppf(df), k, thetaEst);
  }

  /** On a Pareto sample (values `>= 1`, not all 1) the estimate is
      positive, and with boundaries of the builder's shape every value is
      counted once while the expected counts fall short of `n`. */
  lemma CompositeOnParetoSample(ln: real -> real, pow: (real, real) -> real, sample: seq<real>, b: seq<real>)
    requires IsLog(ln) && IsPower(pow)
    requires |sample| > 0
    requires forall i :: 0 <= i < |sample| ==> sample[i] >= 1.0
    requires exists i :: 0 <= i < |sample| && sample[i] > 1.0
    requires FromOneTo(b, MaxReal(sample) * 1.01)
    ensures CompositeDefined(ln, sample)
    ensures ParetoMle(ln, sample) > 0.0
    ensures Total(ObservedPareto(sample, b)) == |sample|
    ensures Sum(ExpectedPareto(pow, b, |sample|, ParetoMle(ln, sample))) < |sample| as real
  {
    LogSumOfParetoSample(ln, sample);
    MleSolves(ln, sample);
    var top := MaxReal(sample);
    assert top >= sample[0];
    BuilderCountsEachValueOnce(sample, b, top);
    BuilderExpectedShort(pow, b, top, |sample|, ParetoMle(ln, sample));
  }

  /** The verdict of the composite test of one series, at `df = k - 2`. */
  function CompositeVerdict(ln: real -> real, pow: (real, real) -> real, sample: seq<real>, ppf: int -> real): (v: Verdict)
    requires CompositeDefined(ln, sample)
    ensures v.df == SturgesK(|sample|) - 2 && v.critical == ppf(v.df)
    ensures v.statistic >= 0.0
    ensures v.reject <==> v.statistic > v.critical
  {
    var f := CompositeFit(ln, pow, sample, ppf);
    Decide(f.chi2, f.critical, f.k - 2)
  }

  /** One series of the composite driver: test it, decide, keep the estimate. */
  method CompositeSeries(ln: real -> real, pow: (real, real) -> real, sample: seq<real>, ppf: int -> real)
    returns (v: Verdict, thetaEst: real)
    requires CompositeDefined(ln, sample)
    ensures v == CompositeVerdict(ln, pow, sample, ppf)
    ensures thetaEst == ParetoMle(ln, sample)
  {
    var r := Chi2ComplexPareto(ln, pow, sample, ppf);
    v := Decide(r.chi2, r.critical, r.k - 2);
    thetaEst := r.thetaEst;
  }

  /** The verdicts of the composite test over a list of series. */
  function CompositeVerdicts(ln: real -> real, pow: (real, real) -> real, series: seq<seq<real>>, ppf: int -> real): (r: seq<Verdict>)
    requires forall i :: 0 <= i < |series| ==> CompositeDefined(ln, series[i])
    ensures |r| == |series|
    ensures forall i :: 0 <= i < |series| ==> r[i] == CompositeVerdict(ln, pow, series[i], ppf)
  {
    seq(|series|, i requires 0 <= i < |series| && CompositeDefined(ln, series[i]) => CompositeVerdict(ln, pow, series[i], ppf))
  }

  /** The composite driver for one sample size: one verdict per series and
      the mean shape estimate (none without series). */
  method CompositeTests(ln: real -> real, pow: (real, real) -> real, series: seq<seq<real>>, ppf: int -> real)
    returns (verdicts: seq<Verdict>, thetaMean: Option<real>)
    requires forall i :: 0 <= i < |series| ==> CompositeDefined(ln, series[i])
    ensures verdicts == CompositeVerdicts(ln, pow, series, ppf)
    ensures thetaMean.None? <==> |series| == 0
    ensures thetaMean.Some? ==> thetaMean.value == Mean(MleList(ln, series))
  {
    ghost var all := CompositeVerdicts(ln, pow, series, ppf);
    ghost var mles := MleList(ln, series);
    verdicts := [];
    var estimates: seq<real> := [];
    for i := 0 to |series|
      invariant verdicts == all[..i]
      invariant estimates == mles[..i]
    {
      var v, thetaEst := CompositeSeries(ln, pow, series[i], ppf);
      PrefixExtend(all, i);
      PrefixExtend(mles, i);
      verdicts := verdicts + [v];
      estimates := estimates + [thetaEst];
    }
    assert all[..|series|] == all;
    assert mles[..|series|] == mles;
    if |series| == 0 {
      thetaMean := None;
    } else {
      thetaMean := Some(Mean(estimates));
    }
  }

  /** The in-sample shape estimates of a list of samples. */
  function MleList(ln: real -> real, series: seq<seq<real>>): (r: seq<real>)
    requires forall i :: 0 <= i < |series| ==> CompositeDefined(ln, series[i])
    ensures |r| == |series|
    ensures forall i :: 0 <= i < |series| && CompositeDefined(ln, series[i]) ==> r[i] == ParetoMle(ln, series[i])
  {
    seq(|series|, i requires 0 <= i < |series| && CompositeDefined(ln, series[i]) => ParetoMle(ln, series[i]))
  }
}
