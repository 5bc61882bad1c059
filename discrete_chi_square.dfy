/** Pearson's test of a discrete uniform law on `1..theta`: first-match bin
    counting, expected counts `n * len / theta`, the known-theta test
    (`df = k - 1`) and the composite test that estimates theta by the sample
    maximum (`df = k - 2`). */
module DiscreteChiSquare {
  import opened Common
  import opened Sturges
  import opened DiscreteIntervals
  import opened Pearson

  /** Index of the first interval that contains `v`, or `|iv|` when none does
      (the inner `for ... break` of the counting loop). */
  function FirstRun(iv: seq<Interval>, v: int): (i: nat)
    ensures i <= |iv|
    ensures i < |iv| ==> iv[i].Contains(v)
    ensures forall j :: 0 <= j < i ==> !iv[j].Contains(v)
  {
    if |iv| == 0 then 0
    else if iv[0].Contains(v) then 0
    else 1 + FirstRun(iv[1..], v)
  }

  /** Counting one value: the first interval containing it gains one. */
  function Tally(counts: seq<nat>, iv: seq<Interval>, v: int): (r: seq<nat>)
    requires |counts| == |iv|
    ensures |r| == |iv|
  {
    var i := FirstRun(iv, v);
    if i < |iv| then counts[i := counts[i] + 1] else counts
  }

  /** The observed counts of a sample, values taken in order. */
  function Observed(sample: seq<int>, iv: seq<Interval>): (r: seq<nat>)
    ensures |r| == |iv|
  {
    if |sample| == 0 then Zeros(|iv|)
    else Tally(Observed(sample[..|sample| - 1], iv), iv, sample[|sample| - 1])
  }

  /** `n * (len / theta)` for each interval. */
  function ExpectedCounts(iv: seq<Interval>, n: int, theta: int): (r: seq<real>)
    requires theta != 0
    ensures |r| == |iv|
    ensures forall i :: 0 <= i < |iv| ==> r[i] == n as real * (iv[i].Length() as real / theta as real)
  {
    seq(|iv|, i requires 0 <= i < |iv| => n as real * (iv[i].Length() as real / theta as real))
  }

  /** Number of sample values in `lo..hi`. */
  function CountBetween(sample: seq<int>, lo: int, hi: int): (c: nat)
    ensures c <= |sample|
  {
    if |sample| == 0 then 0
    else CountBetween(sample[..|sample| - 1], lo, hi) + (if lo <= sample[|sample| - 1] <= hi then 1 else 0)
  }

  /** The counting loop: for each value, scan the intervals in order and
      increment the first that contains it. */
  method CountObserved(sample: seq<int>, intervals: seq<Interval>) returns (observed: seq<nat>)
    ensures observed == Observed(sample, intervals)
  {
    observed := Zeros(|intervals|);
    for s := 0 to |sample|
      invariant observed == Observed(sample[..s], intervals)
    {
      var value := sample[s];
      assert sample[..s + 1][..s] == sample[..s];
      observed := AddFirstRun(observed, intervals, value);
    }
    assert sample[..|sample|] == sample;
  }

  /** The inner loop: scan the intervals in order and add one to the first
      that contains `value`. */
  method AddFirstRun(counts: seq<nat>, intervals: seq<Interval>, value: int) returns (observed: seq<nat>)
    requires |counts| == |intervals|
    ensures observed == Tally(counts, intervals, value)
  {
    observed := counts;
    for idx := 0 to |intervals|
      invariant observed == counts
      invariant forall j :: 0 <= j < idx ==> !intervals[j].Contains(value)
    {
      if intervals[idx].low <= value <= intervals[idx].high {
        assert FirstRun(intervals, value) == idx;
        observed := observed[idx := observed[idx] + 1];
        return;
      }
    }
  }

  /** The loop that appends one expected count per interval. */
  method ExpectedList(intervals: seq<Interval>, n: int, theta: int) returns (expected: seq<real>)
    requires theta != 0
    ensures expected == ExpectedCounts(intervals, n, theta)
  {
    expected := [];
    for i := 0 to |intervals|
      invariant |expected| == i
      invariant forall j :: 0 <= j < i ==> expected[j] == n as real * (intervals[j].Length() as real / theta as real)
    {
      var length := intervals[i].high - intervals[i].low + 1;
      var prob := length as real / theta as real;
      expected := expected + [n as real * prob];
    }
  }

  /** `chi2_statistic`: count, compute the expected counts, sum Pearson's
      terms over the bins with a positive expectation. */
  method Chi2Statistic(sample: seq<int>, intervals: seq<Interval>, n: int, theta: int) returns (chi2: real)
    requires theta != 0
    ensures chi2 == Chi2(Observed(sample, intervals), ExpectedCounts(intervals, n, theta))
    ensures chi2 >= 0.0
  {
    var observed := CountObserved(sample, intervals);
    var expected := ExpectedList(intervals, n, theta);
    chi2 := PearsonSum(observed, expected);
  }

  /** Pearson's statistic of a sample of nominal size `n` over the `k`
      runs of `1..theta`. */
  function RunsChi2(sample: seq<int>, n: nat, k: nat, theta: int): (chi2: real)
    requires k >= 1 && theta != 0
    ensures chi2 >= 0.0
  {
    Chi2(Observed(sample, Runs(k, theta)), ExpectedCounts(Runs(k, theta), n, theta))
  }

  /** Counting a value raises exactly the bins whose run contains it, when
      the bins are the runs of `1..theta`: so a value in `1..theta` raises
      exactly one bin and any other value none. */
  lemma TallyRuns(k: nat, theta: int, counts: seq<nat>, v: int)
    requires k >= 1 && theta >= 0 && |counts| == k
    ensures forall j :: 0 <= j < k ==>
      Tally(counts, Runs(k, theta), v)[j] == counts[j] + (if Runs(k, theta)[j].Contains(v) then 1 else 0)
  {
    RunsPartition(k, theta, v);
  }

  /** Counting a value adds one to the total exactly when some interval
      contains it. */
  lemma TallyTotal(counts: seq<nat>, iv: seq<Interval>, v: int)
    requires |counts| == |iv|
    ensures Total(Tally(counts, iv, v)) == Total(counts) + (if FirstRun(iv, v) < |iv| then 1 else 0)
  {
    if FirstRun(iv, v) < |iv| {
      TotalIncrement(counts, FirstRun(iv, v));
    }
  }

  /** With the runs of `1..theta` as bins, the observed counts add up to the
      number of sample values in `1..theta`. */
  lemma {:induction false} ObservedTotal(sample: seq<int>, k: nat, theta: int)
    requires k >= 1 && theta >= 0
    ensures Total(Observed(sample, Runs(k, theta))) == CountBetween(sample, 1, theta)
  {
    if |sample| > 0 {
      var v := sample[|sample| - 1];
      ObservedTotal(sample[..|sample| - 1], k, theta);
      TallyTotal(Observed(sample[..|sample| - 1], Runs(k, theta)), Runs(k, theta), v);
      RunsPartition(k, theta, v);
    }
  }

  lemma {:induction false} CountBetweenAll(sample: seq<int>, lo: int, hi: int)
    requires forall i :: 0 <= i < |sample| ==> lo <= sample[i] <= hi
    ensures CountBetween(sample, lo, hi) == |sample|
  {
    if |sample| > 0 {
      CountBetweenAll(sample[..|sample| - 1], lo, hi);
    }
  }

  lemma ScaledSum(x: real, a: real, b: real, t: real)
    requires t != 0.0
    ensures x * (a / t) + x * (b / t) == x * ((a + b) / t)
  {
    assert a / t + b / t == (a + b) / t;
  }

  lemma ScaleByOne(x: real, t: real)
    requires t != 0.0
    ensures x * (t / t) == x
  {
    assert t / t == 1.0;
  }

  /** The interval lengths, as reals. */
  function Lengths(iv: seq<Interval>): (r: seq<real>)
    ensures |r| == |iv|
    ensures forall i :: 0 <= i < |iv| ==> r[i] == iv[i].Length() as real
  {
    seq(|iv|, i requires 0 <= i < |iv| => iv[i].Length() as real)
  }

  /** Scaling every length by `x / t` scales their sum the same way. */
  lemma {:induction false} SumScaled(e: seq<real>, lens: seq<real>, x: real, t: real)
    requires t != 0.0 && |e| == |lens|
    requires forall i :: 0 <= i < |e| ==> e[i] == x * (lens[i] / t)
    ensures Sum(e) == x * (Sum(lens) / t)
  {
    if |e| > 0 {
      var m := |e| - 1;
      SumScaled(e[..m], lens[..m], x, t);
      ScaledSum(x, Sum(lens[..m]), lens[m], t);
    }
  }

  /** The first `i` runs cover `RunStart(i) - 1` values. */
  lemma {:induction false} RunLengthsPrefix(k: nat, theta: int, i: nat)
    requires k >= 1 && i <= k
    ensures Sum(Lengths(Runs(k, theta))[..i]) == (RunStart(k, theta, i) - 1) as real
  {
    var l := Lengths(Runs(k, theta));
    if i == 0 {
      assert l[..0] == [];
    } else {
      RunLengthsPrefix(k, theta, i - 1);
      SumPrefix(l, i);
      StartStep(k, theta, i - 1);
    }
  }

  /** The run lengths add up to `theta`. */
  lemma RunLengthsTotal(k: nat, theta: int)
    requires k >= 1
    ensures Sum(Lengths(Runs(k, theta))) == theta as real
  {
    var l := Lengths(Runs(k, theta));
    RunLengthsPrefix(k, theta, k);
    StartAfterLast(k, theta);
    assert l[..k] == l;
  }

  /** Intervals whose lengths add up to `theta` get expected counts that
      add up to `n`. */
  lemma ExpectedSum(iv: seq<Interval>, n: int, theta: int)
    requires theta != 0 && Sum(Lengths(iv)) == theta as real
    ensures Sum(ExpectedCounts(iv, n, theta)) == n as real
  {
    var l := Lengths(iv);
    var e := ExpectedCounts(iv, n, theta);
    var t := theta as real;
    assert forall i :: 0 <= i < |e| ==> e[i] == n as real * (l[i] / t);
    SumScaled(e, l, n as real, t);
    ScaleByOne(n as real, t);
  }

  /** With the runs of `1..theta` as bins the expected counts add up to `n`:
      the run lengths add up to `theta`. */
  lemma ExpectedTotal(k: nat, theta: int, n: int)
    requires k >= 1 && theta != 0
    ensures Sum(ExpectedCounts(Runs(k, theta), n, theta)) == n as real
  {
    RunLengthsTotal(k, theta);
    ExpectedSum(Runs(k, theta), n, theta);
  }

  /** The sample sizes the chi-square drivers test: all but size 5. */
  function TestedSizes(sizes: seq<nat>): (r: seq<nat>)
    ensures forall x :: x in r <==> x in sizes && x != 5
    ensures |r| <= |sizes|
  {
    if |sizes| == 0 then []
    else
      var rest := TestedSizes(sizes[..|sizes| - 1]);
      assert sizes == sizes[..|sizes| - 1] + [sizes[|sizes| - 1]];
      if sizes[|sizes| - 1] == 5 then rest else rest + [sizes[|sizes| - 1]]
  }

  /** The known-theta test of one series of size `n`. */
  function KnownThetaVerdict(sample: seq<int>, n: nat, theta: int, ppf: int -> real): (v: Verdict)
    requires n >= 1 && theta != 0
    ensures v.df == SturgesK(n) - 1 && v.critical == ppf(SturgesK(n) - 1)
    ensures v.statistic >= 0.0
    ensures v.reject <==> v.statistic > v.critical
  {
    var k := SturgesK(n);
    Decide(RunsChi2(sample, n, k, theta), ppf(k - 1), k - 1)
  }

  /** The known-theta driver for one sample size: one interval split, one
      critical value at `df = k - 1`, one verdict per series. */
  method KnownThetaTests(series: seq<seq<int>>, size: nat, theta: int, ppf: int -> real) returns (verdicts: seq<Verdict>)
    requires size >= 1 && theta != 0
    ensures |verdicts| == |series|
    ensures forall i :: 0 <= i < |series| ==> verdicts[i] == KnownThetaVerdict(series[i], size, theta, ppf)
  {
    var k := SturgesK(size);
    var intervals := CreateIntervals(k, theta);
    var df := k - 1;
    var criticalValue := ppf(df);
    verdicts := [];
    for i := 0 to |series|
      invariant |verdicts| == i
      invariant forall j :: 0 <= j < i ==> verdicts[j] == KnownThetaVerdict(series[j], size, theta, ppf)
    {
      var v := KnownThetaSeries(series[i], intervals, size, theta, criticalValue);
      verdicts := verdicts + [v];
    }
  }

  /** One series of the known-theta driver, over the shared intervals and
      critical value. */
  method KnownThetaSeries(sample: seq<int>, intervals: seq<Interval>, size: nat, theta: int, criticalValue: real)
    returns (v: Verdict)
    requires size >= 1 && theta != 0
    requires intervals == Runs(SturgesK(size), theta)
    ensures v == Decide(RunsChi2(sample, size, SturgesK(size), theta), criticalValue, SturgesK(size) - 1)
  {
    var chi2 := Chi2Statistic(sample, intervals, size, theta);
    v := Decide(chi2, criticalValue, SturgesK(size) - 1);
  }

  /** What `chi2_complex_discrete` returns. */
  datatype CompositeResult = CompositeResult(chi2: real, critical: real, k: nat, thetaEst: int, df: int)

  /** `estimate_theta_discrete`: the sample maximum. */
  function EstimateThetaDiscrete(sample: seq<int>): (t: int)
    requires |sample| > 0
    ensures t in sample
    ensures forall i :: 0 <= i < |sample| ==> sample[i] <= t
  {
    MaxOf(sample)
  }

  /** The composite test as a value: theta replaced by the sample maximum,
      Sturges' `k` from the sample length, `df = k - 2`. */
  function Composite(sample: seq<int>, ppf: int -> real): (r: CompositeResult)
    requires |sample| > 0 && EstimateThetaDiscrete(sample) != 0
    ensures r.thetaEst == EstimateThetaDiscrete(sample)
    ensures r.k == SturgesK(|sample|) && r.df == r.k - 2 && r.critical == ppf(r.df)
    ensures r.chi2 >= 0.0
  {
    var theta := EstimateThetaDiscrete(sample);
    var k := SturgesK(|sample|);
    CompositeResult(RunsChi2(sample, |sample|, k, theta), ppf(k - 2), k, theta, k - 2)
  }

  /** `chi2_complex_discrete`. Python fails on an empty sample (`max`) and on
      a maximum of 0 (division by `theta_est`); those are the preconditions. */
  method Chi2ComplexDiscrete(sample: seq<int>, ppf: int -> real) returns (r: CompositeResult)
    requires |sample| > 0 && EstimateThetaDiscrete(sample) != 0
    ensures r == Composite(sample, ppf)
  {
    var n := |sample|;
    var thetaEst := EstimateThetaDiscrete(sample);
    var k := SturgesK(n);
    var intervals := CreateIntervals(k, thetaEst);
    var chi2 := Chi2Statistic(sample, intervals, n, thetaEst);
    var df := k - 2;
    r := CompositeResult(chi2, ppf(df), k, thetaEst, df);
  }

  /** On a sample of values `>= 1` every value falls in exactly one bin of the
      composite test, so the observed counts add up to `n`, and the expected
      counts add up to `n` as well. */
  lemma CompositeTotals(sample: seq<int>)
    requires |sample| > 0
    requires forall i :: 0 <= i < |sample| ==> sample[i] >= 1
    ensures var theta := EstimateThetaDiscrete(sample);
      var iv := Runs(SturgesK(|sample|), theta);
      Total(Observed(sample, iv)) == |sample| && Sum(ExpectedCounts(iv, |sample|, theta)) == |sample| as real
  {
    var theta := EstimateThetaDiscrete(sample);
    var k := SturgesK(|sample|);
    ObservedTotal(sample, k, theta);
    CountBetweenAll(sample, 1, theta);
    ExpectedTotal(k, theta, |sample|);
  }

  /** A run that contains some sample value has a positive observed count. */
  lemma {:induction false} ObservedHit(sample: seq<int>, k: nat, theta: int, j: nat, i: nat, v: int)
    requires k >= 1 && theta >= 0 && j < k && i < |sample|
    requires sample[i] == v && Runs(k, theta)[j].Contains(v)
    ensures Observed(sample, Runs(k, theta))[j] >= 1
  {
    var m := |sample| - 1;
    var prev := Observed(sample[..m], Runs(k, theta));
    TallyRuns(k, theta, prev, sample[m]);
    if i < m {
      ObservedHit(sample[..m], k, theta, j, i, v);
    }
  }

  lemma QuotientAtLeastOne(a: int, b: int)
    requires 1 <= b <= a
    ensures a / b >= 1
  {
    assert b * (a / b) + a % b == a;
  }

  /** When the estimate `theta` (a sample value, the maximum in the
      composite test) is at least the bin count `k`, the last run is not
      empty and ends at `theta`, so the last bin counts at least one value. */
  lemma LastBinHit(sample: seq<int>, k: nat, theta: int)
    requires 1 <= k <= theta && theta in sample
    ensures Observed(sample, Runs(k, theta))[k - 1] >= 1
  {
    LastRunHoldsTheta(k, theta);
    var i :| 0 <= i < |sample| && sample[i] == theta;
    ObservedHit(sample, k, theta, k - 1, i, theta);
  }

  /** For `theta >= k` the last run is `theta / k` values or more long and
      ends at `theta`, so it holds `theta`. */
  lemma LastRunHoldsTheta(k: nat, theta: int)
    requires 1 <= k <= theta
    ensures Runs(k, theta)[k - 1].Contains(theta)
  {
    RunsShape(k, theta);
    QuotientAtLeastOne(theta, k);
  }

  /** The verdict of the composite test of one series. */
  function CompositeVerdict(sample: seq<int>, ppf: int -> real): (v: Verdict)
    requires |sample| > 0 && EstimateThetaDiscrete(sample) != 0
    ensures v.df == SturgesK(|sample|) - 2 && v.critical == ppf(v.df)
    ensures v.statistic >= 0.0
    ensures v.reject <==> v.statistic > v.critical
  {
    var c := Composite(sample, ppf);
    Decide(c.chi2, c.critical, c.df)
  }

  /** The verdicts of the composite test over a list of series. */
  function CompositeVerdicts(series: seq<seq<int>>, ppf: int -> real): (r: seq<Verdict>)
    requires forall i :: 0 <= i < |series| ==> |series[i]| > 0 && EstimateThetaDiscrete(series[i]) != 0
    ensures |r| == |series|
    ensures forall i :: 0 <= i < |series| && |series[i]| > 0 && EstimateThetaDiscrete(series[i]) != 0 ==>
      r[i] == CompositeVerdict(series[i], ppf)
  {
    seq(|series|, i requires 0 <= i < |series| && |series[i]| > 0 && EstimateThetaDiscrete(series[i]) != 0 =>
      CompositeVerdict(series[i], ppf))
  }

  /** One series of the composite driver: test it, decide, keep the estimate. */
  method CompositeSeries(sample: seq<int>, ppf: int -> real) returns (v: Verdict, thetaEst: int)
    requires |sample| > 0 && EstimateThetaDiscrete(sample) != 0
    ensures v == CompositeVerdict(sample, ppf)
    ensures thetaEst == EstimateThetaDiscrete(sample)
  {
    var r := Chi2ComplexDiscrete(sample, ppf);
    v := Decide(r.chi2, r.critical, r.df);
    thetaEst := r.thetaEst;
  }

  /** The composite driver for one sample size: one verdict per series and
      the mean estimate of theta (none without series). */
  method CompositeTests(series: seq<seq<int>>, ppf: int -> real) returns (verdicts: seq<Verdict>, thetaMean: Option<real>)
    requires forall i :: 0 <= i < |series| ==> |series[i]| > 0 && EstimateThetaDiscrete(series[i]) != 0
    ensures verdicts == CompositeVerdicts(series, ppf)
    ensures thetaMean.None? <==> |series| == 0
    ensures thetaMean.Some? ==> thetaMean.value == Mean(EstimateList(series))
  {
    ghost var all := CompositeVerdicts(series, ppf);
    ghost var thetas := EstimateList(series);
    verdicts := [];
    var estimates: seq<real> := [];
    for i := 0 to |series|
      invariant verdicts == all[..i]
      invariant estimates == thetas[..i]
    {
      var v, thetaEst := CompositeSeries(series[i], ppf);
      PrefixExtend(all, i);
      PrefixExtend(thetas, i);
      verdicts := verdicts + [v];
      estimates := estimates + [thetaEst as real];
    }
    assert all[..|series|] == all;
    assert thetas[..|series|] == thetas;
    if |series| == 0 {
      thetaMean := None;
    } else {
      thetaMean := Some(Mean(estimates));
    }
  }

  /** The theta estimates of a list of samples, as reals. */
  function EstimateList(series: seq<seq<int>>): (r: seq<real>)
    requires forall i :: 0 <= i < |series| ==> |series[i]| > 0
    ensures |r| == |series|
    ensures forall i :: 0 <= i < |series| && |series[i]| > 0 ==> r[i] == EstimateThetaDiscrete(series[i]) as real
  {
    seq(|series|, i requires 0 <= i < |series| && |series[i]| > 0 => EstimateThetaDiscrete(series[i]) as real)
  }

  /** The mean estimate is at least 1 for samples of values `>= 1`: each
      estimate is a sample maximum, hence at least the sample's first value. */
  lemma ThetaMeanAtLeastOne(series: seq<seq<int>>)
    requires |series| > 0
    requires forall i :: 0 <= i < |series| ==> |series[i]| > 0
    requires forall i, j :: 0 <= i < |series| && 0 <= j < |series[i]| ==> series[i][j] >= 1
    ensures Mean(EstimateList(series)) >= 1.0
  {
    var e := EstimateList(series);
    forall i | 0 <= i < |series|
      ensures e[i] >= 1.0
    {
      assert series[i][0] <= EstimateThetaDiscrete(series[i]);
    }
    MeanBounds(e, 1.0, MaxReal(e));
  }
}
