/** Point estimates of the parameter of the discrete uniform law on `1..theta`
    and of the Pareto shape: method of moments, maximum likelihood and the
    "optimal" (unbiased) variants, with the undefined outcomes of the scripts
    (`inf`, `nan`) as `None`, and the per-size averaging policies. */
module Estimators {
  import opened Common
  import opened Analysis

  // ---------------------------------------------------------------------
  // Discrete uniform: method of moments and maximum likelihood

  /** `estimate_discrete_uniform`: `(2 * mean - 1, max)`. */
  datatype UniformEstimates = UniformEstimates(mm: real, mle: int)

  function DiscreteUniformEstimates(s: seq<int>): (e: UniformEstimates)
    requires |s| > 0
    ensures e.mle in s && forall i :: 0 <= i < |s| ==> s[i] <= e.mle
  {
    UniformEstimates(2.0 * Mean(ToReals(s)) - 1.0, MaxOf(s))
  }

  /** For values in `1..m` the moment estimate lies in `[1, 2m - 1]`. */
  lemma DiscreteUniformRange(s: seq<int>, m: int)
    requires |s| > 0
    requires forall i :: 0 <= i < |s| ==> 1 <= s[i] <= m
    ensures 1.0 <= DiscreteUniformEstimates(s).mm <= 2.0 * m as real - 1.0
  {
    MeanBounds(ToReals(s), 1.0, m as real);
  }

  /** Whatever the values, the moment estimate never exceeds
      `2 * mle - 1`: the mean is at most the maximum. */
  lemma MomentBelowMle(s: seq<int>)
    requires |s| > 0
    ensures DiscreteUniformEstimates(s).mm <= 2.0 * DiscreteUniformEstimates(s).mle as real - 1.0
  {
    var x := ToReals(s);
    MeanBounds(x, MinReal(x), MaxOf(s) as real);
  }

  // ---------------------------------------------------------------------
  // Pareto: method of moments and maximum likelihood, `inf` when undefined

  /** Every value is in the domain of the logarithm. NumPy turns a
      non-positive value into `-inf` or `nan`, and either makes the
      log-sum comparisons of the scripts fail. */
  predicate AllPositive(s: seq<real>)
  {
    forall i :: 0 <= i < |s| ==> s[i] > 0.0
  }

  /** `estimate_pareto`: the moment estimate `mean / (mean - 1)` exists iff
      `mean > 1`; the likelihood estimate `n / sum(ln x)` exists iff the
      log-sum is positive. The `inf` sentinel is `None`. */
  datatype ParetoEstimates = ParetoEstimates(mm: Option<real>, mle: Option<real>)

  function ParetoMm(s: seq<real>): (r: Option<real>)
    ensures r.Some? <==> |s| > 0 && Mean(s) > 1.0
    ensures r.Some? ==> r.value == Mean(s) / (Mean(s) - 1.0)
  {
    if |s| > 0 && Mean(s) > 1.0 then Some(Mean(s) / (Mean(s) - 1.0)) else None
  }

  function ParetoMleOption(ln: real -> real, s: seq<real>): (r: Option<real>)
    ensures r.Some? <==> AllPositive(s) && LogSum(ln, s) > 0.0
  {
    if AllPositive(s) && LogSum(ln, s) > 0.0 then Some(ParetoMle(ln, s)) else None
  }

  function EstimatePareto(ln: real -> real, s: seq<real>): (e: ParetoEstimates)
  {
    ParetoEstimates(ParetoMm(s), ParetoMleOption(ln, s))
  }

  /** A defined moment estimate exceeds 1, and a defined likelihood
      estimate solves `theta * sum(ln x) = n` and is positive. */
  lemma ParetoEstimatesRange(ln: real -> real, s: seq<real>)
    ensures EstimatePareto(ln, s).mm.Some? ==> EstimatePareto(ln, s).mm.value > 1.0
    ensures EstimatePareto(ln, s).mle.Some? ==>
      EstimatePareto(ln, s).mle.value * LogSum(ln, s) == |s| as real && EstimatePareto(ln, s).mle.value > 0.0
  {
    if |s| > 0 && Mean(s) > 1.0 {
      var m := Mean(s);
      QuotientAboveOne(m);
    }
    if AllPositive(s) && LogSum(ln, s) > 0.0 {
      MleSolves(ln, s);
    }
  }

  lemma QuotientAboveOne(m: real)
    requires m > 1.0
    ensures m / (m - 1.0) > 1.0
  {
    var d := m - 1.0;
    SplitQuotient(1.0, 1.0, d);
    assert 1.0 * d + 1.0 == m;
    QuotientSign(1.0, d);
  }

  /** On a Pareto sample (values `>= 1`, not all 1) the likelihood estimate
      is always defined. */
  lemma ParetoMleDefinedOnParetoSample(ln: real -> real, s: seq<real>)
    requires IsLog(ln)
    requires forall i :: 0 <= i < |s| ==> s[i] >= 1.0
    requires exists i :: 0 <= i < |s| && s[i] > 1.0
    ensures ParetoMleOption(ln, s).Some?
  {
    LogSumOfParetoSample(ln, s);
  }

  // ---------------------------------------------------------------------
  // Averages of task 3.1

  /** The moment and likelihood estimates of every series of one size. */
  function MmList(series: seq<seq<int>>): (r: seq<real>)
    requires forall i :: 0 <= i < |series| ==> |series[i]| > 0
    ensures |r| == |series|
  {
    seq(|series|, i requires 0 <= i < |series| && |series[i]| > 0 => DiscreteUniformEstimates(series[i]).mm)
  }

  function MaxList(series: seq<seq<int>>): (r: seq<real>)
    requires forall i :: 0 <= i < |series| ==> |series[i]| > 0
    ensures |r| == |series|
  {
    seq(|series|, i requires 0 <= i < |series| && |series[i]| > 0 => DiscreteUniformEstimates(series[i]).mle as real)
  }

  /** The discrete-uniform averages: every series counts. */
  method DiscreteAverages(series: seq<seq<int>>) returns (avgMm: real, avgMle: real)
    requires |series| > 0
    requires forall i :: 0 <= i < |series| ==> |series[i]| > 0
    ensures avgMm == Mean(MmList(series)) && avgMle == Mean(MaxList(series))
  {
    var mmVals: seq<real> := [];
    var mleVals: seq<real> := [];
    for i := 0 to |series|
      invariant mmVals == MmList(series)[..i]
      invariant mleVals == MaxList(series)[..i]
    {
      var e := DiscreteUniformEstimates(series[i]);
      mmVals := mmVals + [e.mm];
      mleVals := mleVals + [e.mle as real];
    }
    assert MmList(series)[..|series|] == MmList(series);
    assert MaxList(series)[..|series|] == MaxList(series);
    avgMm := Mean(mmVals);
    avgMle := Mean(mleVals);
  }

  /** Averaged over the series, the moment estimate stays at most twice the
      averaged maximum minus one. */
  lemma DiscreteAveragesOrdered(series: seq<seq<int>>)
    requires |series| > 0
    requires forall i :: 0 <= i < |series| ==> |series[i]| > 0
    ensures Mean(MmList(series)) <= 2.0 * Mean(MaxList(series)) - 1.0
  {
    var a := MmList(series);
    var b := MaxList(series);
    forall i | 0 <= i < |series|
      ensures a[i] <= 2.0 * b[i] - 1.0
    {
      MomentBelowMle(series[i]);
    }
    SumAffineBound(a, b);
    var n := |series| as real;
    QuotientMonotone(Sum(a), 2.0 * Sum(b) - n, n);
    SplitQuotient(-1.0, 2.0 * Sum(b), n);
    ScaleQuotient(2.0, Sum(b), n);
  }

  /** If `a[i] <= 2 b[i] - 1` pointwise, then `sum a <= 2 sum b - n`. */
  lemma {:induction false} SumAffineBound(a: seq<real>, b: seq<real>)
    requires |a| == |b|
    requires forall i :: 0 <= i < |a| ==> a[i] <= 2.0 * b[i] - 1.0
    ensures Sum(a) <= 2.0 * Sum(b) - |a| as real
  {
    if |a| > 0 {
      var m := |a| - 1;
      SumAffineBound(a[..m], b[..m]);
    }
  }

  /** A Pareto series takes part in the averages only when both its
      estimates are defined. */
  predicate BothDefined(ln: real -> real, s: seq<real>)
  {
    EstimatePareto(ln, s).mm.Some? && EstimatePareto(ln, s).mle.Some?
  }

  /** The moment and likelihood estimates of the series that take part, in
      series order. */
  function DefinedMm(ln: real -> real, series: seq<seq<real>>): (r: seq<real>)
  {
    if |series| == 0 then []
    else
      var s := series[|series| - 1];
      DefinedMm(ln, series[..|series| - 1]) + (if BothDefined(ln, s) then [EstimatePareto(ln, s).mm.value] else [])
  }

  function DefinedMle(ln: real -> real, series: seq<seq<real>>): (r: seq<real>)
  {
    if |series| == 0 then []
    else
      var s := series[|series| - 1];
      DefinedMle(ln, series[..|series| - 1]) + (if BothDefined(ln, s) then [EstimatePareto(ln, s).mle.value] else [])
  }

  /** The two lists have one entry per series that takes part: they have
      the same length, and they are empty exactly when no series does. */
  lemma {:induction false} DefinedListsAgree(ln: real -> real, series: seq<seq<real>>)
    ensures |DefinedMm(ln, series)| == |DefinedMle(ln, series)|
    ensures |DefinedMm(ln, series)| == 0 <==> forall i :: 0 <= i < |series| ==> !BothDefined(ln, series[i])
  {
    if |series| > 0 {
      var m := |series| - 1;
      DefinedListsAgree(ln, series[..m]);
      if forall i :: 0 <= i < |series| ==> !BothDefined(ln, series[i]) {
        assert forall i :: 0 <= i < m ==> !BothDefined(ln, series[..m][i]) by {
          assert forall i :: 0 <= i < m ==> series[..m][i] == series[i];
        }
      } else {
        var i :| 0 <= i < |series| && BothDefined(ln, series[i]);
        if i < m {
          assert series[..m][i] == series[i];
        }
      }
    }
  }

  /** Every averaged moment estimate exceeds 1 and every averaged likelihood
      estimate is positive. */
  lemma {:induction false} DefinedValuesRange(ln: real -> real, series: seq<seq<real>>)
    ensures forall i :: 0 <= i < |DefinedMm(ln, series)| ==> DefinedMm(ln, series)[i] > 1.0
    ensures forall i :: 0 <= i < |DefinedMle(ln, series)| ==> DefinedMle(ln, series)[i] > 0.0
  {
    if |series| > 0 {
      var m := |series| - 1;
      DefinedValuesRange(ln, series[..m]);
      ParetoEstimatesRange(ln, series[m]);
    }
  }

  /** The Pareto averages of one size: `None` (the "no estimate for some
      series" line) when no series has both estimates, otherwise the means
      over the series that do. */
  method ParetoAverages(ln: real -> real, series: seq<seq<real>>) returns (avg: Option<(real, real)>)
    ensures avg.None? <==> forall i :: 0 <= i < |series| ==> !BothDefined(ln, series[i])
    ensures avg.Some? ==>
      && |DefinedMm(ln, series)| > 0 && |DefinedMle(ln, series)| > 0
      && avg.value == (Mean(DefinedMm(ln, series)), Mean(DefinedMle(ln, series)))
  {
    var mmVals: seq<real> := [];
    var mleVals: seq<real> := [];
    for i := 0 to |series|
      invariant mmVals == DefinedMm(ln, series[..i])
      invariant mleVals == DefinedMle(ln, series[..i])
    {
      assert series[..i + 1][..i] == series[..i];
      var e := EstimatePareto(ln, series[i]);
      if e.mm.Some? && e.mle.Some? {
        mmVals := mmVals + [e.mm.value];
        mleVals := mleVals + [e.mle.value];
      }
    }
    assert series[..|series|] == series;
    DefinedListsAgree(ln, series);
    if |mmVals| > 0 && |mleVals| > 0 {
      avg := Some((Mean(mmVals), Mean(mleVals)));
    } else {
      avg := None;
    }
  }

  /** A defined average moment estimate exceeds 1 and a defined average
      likelihood estimate is positive. */
  lemma ParetoAveragesRange(ln: real -> real, series: seq<seq<real>>)
    requires |DefinedMm(ln, series)| > 0 && |DefinedMle(ln, series)| > 0
    ensures Mean(DefinedMm(ln, series)) > 1.0
    ensures Mean(DefinedMle(ln, series)) > 0.0
  {
    DefinedListsAgree(ln, series);
    DefinedValuesRange(ln, series);
    MeanAbove(DefinedMm(ln, series), 1.0);
    MeanAbove(DefinedMle(ln, series), 0.0);
  }

  /** The mean of values above `lo` is above `lo`. */
  lemma MeanAbove(s: seq<real>, lo: real)
    requires |s| > 0
    requires forall i :: 0 <= i < |s| ==> s[i] > lo
    ensures Mean(s) > lo
  {
    SumAbove(s, lo);
    var n := |s| as real;
    SplitQuotient(lo, Sum(s) - n * lo, n);
    assert lo * n + (Sum(s) - n * lo) == Sum(s);
    QuotientSign(Sum(s) - n * lo, n);
  }

  lemma {:induction false} SumAbove(s: seq<real>, lo: real)
    requires |s| > 0
    requires forall i :: 0 <= i < |s| ==> s[i] > lo
    ensures Sum(s) > |s| as real * lo
  {
    var m := |s| - 1;
    if m > 0 {
      SumAbove(s[..m], lo);
    } else {
      assert s[..m] == [];
    }
  }

  // ---------------------------------------------------------------------
  // The "optimal" estimates of task 3.2

  function Power(b: int, e: nat): int
  {
    if e == 0 then 1 else b * Power(b, e - 1)
  }

  /** `estimate_theta_uniform_optimal`: 1 for a maximum of 1, the shortcut
      `(n+1)/n * max` from ten values on, and otherwise the exact quotient
      `(M^(n+1) - (M-1)^(n+1)) / (M^n - (M-1)^n)`, with the shortcut as the
      fallback when the quotient is undefined. */
  function OptimalUniform(s: seq<int>): real
    requires |s| > 0
  {
    OptimalFromMax(|s|, MaxOf(s))
  }

  /** The same estimate from the sample size `n` and the maximum `m`. */
  function OptimalFromMax(n: nat, m: int): real
    requires n > 0
  {
    if m == 1 then 1.0
    else if n >= 10 then ((n + 1) as real / n as real) * m as real
    else
      var num := Power(m, n + 1) - Power(m - 1, n + 1);
      var den := Power(m, n) - Power(m - 1, n);
      if den != 0 then num as real / den as real else ((n + 1) as real / n as real) * m as real
  }

  lemma {:induction false} PowerPositive(b: int, e: nat)
    requires b >= 1
    ensures Power(b, e) >= 1
  {
    if e > 0 {
      PowerPositive(b, e - 1);
      MultiplyAtLeast(b, Power(b, e - 1));
    }
  }

  lemma MultiplyAtLeast(b: int, x: int)
    requires b >= 1 && x >= 1
    ensures b * x >= x
  {
    assert b * x - x == (b - 1) * x;
  }

  /** For `m >= 2` the powers of `m` outgrow those of `m - 1`. */
  lemma {:induction false} PowerGap(m: int, e: nat)
    requires m >= 2 && e >= 1
    ensures Power(m, e) > Power(m - 1, e)
  {
    if e > 1 {
      PowerGap(m, e - 1);
      PowerPositive(m - 1, e - 1);
      StepGap(m, Power(m, e - 1), Power(m - 1, e - 1));
    }
  }

  lemma StepGap(m: int, a: int, c: int)
    requires m >= 2 && a > c >= 1
    ensures m * a > (m - 1) * c
  {
    assert m * a - m * c == m * (a - c);
    assert m * (a - c) >= a - c;
  }

  /** The numerator is `m` times the denominator plus `(m-1)^n`. */
  lemma NumeratorSplits(m: int, n: nat)
    ensures Power(m, n + 1) - Power(m - 1, n + 1) == m * (Power(m, n) - Power(m - 1, n)) + Power(m - 1, n)
  {
    var a := Power(m, n);
    var c := Power(m - 1, n);
    assert Power(m - 1, n + 1) == (m - 1) * c;
    assert (m - 1) * c == m * c - c;
    assert m * (a - c) == m * a - m * c;
  }

  /** In the exact branch the denominator is positive, so the fallback is
      never taken, and the estimate is `M + (M-1)^n / (M^n - (M-1)^n)`, at
      least the maximum. */
  lemma OptimalUniformExact(n: nat, m: int)
    requires 0 < n < 10 && m >= 2
    ensures Power(m, n) - Power(m - 1, n) > 0
    ensures OptimalFromMax(n, m) == m as real + Power(m - 1, n) as real / (Power(m, n) - Power(m - 1, n)) as real
    ensures OptimalFromMax(n, m) >= m as real
  {
    var num := Power(m, n + 1) - Power(m - 1, n + 1);
    var den := Power(m, n) - Power(m - 1, n);
    var p := Power(m - 1, n);
    assert den > 0 && p >= 1 by {
      PowerGap(m, n);
      PowerPositive(m - 1, n);
    }
    assert num == m * den + p by {
      NumeratorSplits(m, n);
    }
    assert OptimalFromMax(n, m) == num as real / den as real;
    ExactQuotient(m, den, p, num);
  }

  /** `(m d + p) / d == m + p / d >= m` for integers with `d, p > 0`. */
  lemma ExactQuotient(m: int, den: int, p: int, num: int)
    requires den > 0 && p > 0 && num == m * den + p
    ensures num as real / den as real == m as real + p as real / den as real
    ensures num as real / den as real >= m as real
  {
    assert num as real == m as real * den as real + p as real;
    SplitQuotient(m as real, p as real, den as real);
    QuotientSign(p as real, den as real);
  }

  /** Whatever the branch, the estimate is at least the sample maximum when
      that maximum is positive. */
  lemma OptimalUniformAtLeastMax(s: seq<int>)
    requires |s| > 0 && MaxOf(s) >= 1
    ensures OptimalUniform(s) >= MaxOf(s) as real
  {
    OptimalFromMaxAtLeast(|s|, MaxOf(s));
  }

  lemma OptimalFromMaxAtLeast(n: nat, m: int)
    requires n > 0 && m >= 1
    ensures OptimalFromMax(n, m) >= m as real
  {
    if m == 1 {
    } else if n >= 10 {
      ShortcutAtLeastMax(n, m);
    } else {
      OptimalUniformExact(n, m);
    }
  }

  /** `(n+1)/n * m >= m` for positive `m`. */
  lemma ShortcutAtLeastMax(n: nat, m: int)
    requires n > 0 && m >= 1
    ensures ((n + 1) as real / n as real) * m as real >= m as real
  {
    var f := (n + 1) as real / n as real;
    SplitQuotient(1.0, 1.0, n as real);
    assert 1.0 * n as real + 1.0 == (n + 1) as real;
    QuotientSign(1.0, n as real);
    assert f * m as real - m as real == (f - 1.0) * m as real;
  }

  /** `estimate_theta_pareto_optimal`: `(n - 1) / sum(ln x)`, `nan` (here
      `None`) for fewer than two values or a log-sum that is not positive. */
  function OptimalPareto(ln: real -> real, s: seq<real>): (r: Option<real>)
    ensures r.Some? <==> |s| > 1 && AllPositive(s) && LogSum(ln, s) > 0.0
  {
    if |s| <= 1 then None
    else if !AllPositive(s) || LogSum(ln, s) <= 0.0 then None
    else Some((|s| - 1) as real / LogSum(ln, s))
  }

  /** When defined, the optimal estimate is positive and equals
      `(n - 1) / n` times the likelihood estimate of task 3.1. */
  lemma OptimalParetoIsScaledMle(ln: real -> real, s: seq<real>)
    requires OptimalPareto(ln, s).Some?
    ensures ParetoMleOption(ln, s).Some?
    ensures OptimalPareto(ln, s).value == ((|s| - 1) as real / |s| as real) * ParetoMleOption(ln, s).value
    ensures OptimalPareto(ln, s).value > 0.0
  {
    var n := |s| as real;
    var l := LogSum(ln, s);
    ChainQuotient(n - 1.0, n, l);
    QuotientSign(n - 1.0, l);
  }

  /** `(a / n) * (n / l) == a / l`. */
  lemma ChainQuotient(a: real, n: real, l: real)
    requires n > 0.0 && l > 0.0
    ensures (a / n) * (n / l) == a / l
  {
    var x := a / n;
    var y := n / l;
    assert x * n == a;
    assert y * l == n;
    assert (x * y) * l == x * n;
  }

  /** `np.mean` over estimates that may be `nan`: undefined as soon as one
      is, and for an empty list. */
  function NanMean(xs: seq<Option<real>>): (r: Option<real>)
    ensures r.None? <==> |xs| == 0 || exists i :: 0 <= i < |xs| && xs[i].None?
  {
    if |xs| == 0 || exists i :: 0 <= i < |xs| && xs[i].None? then None
    else Some(Mean(Values(xs)))
  }

  function Values(xs: seq<Option<real>>): (r: seq<real>)
    requires forall i :: 0 <= i < |xs| ==> xs[i].Some?
    ensures |r| == |xs|
  {
    seq(|xs|, i requires 0 <= i < |xs| && xs[i].Some? => xs[i].value)
  }

  function OptimalUniformList(series: seq<seq<int>>): (r: seq<real>)
    requires forall i :: 0 <= i < |series| ==> |series[i]| > 0
    ensures |r| == |series|
  {
    seq(|series|, i requires 0 <= i < |series| && |series[i]| > 0 => OptimalUniform(series[i]))
  }

  function OptimalParetoList(ln: real -> real, series: seq<seq<real>>): (r: seq<Option<real>>)
    ensures |r| == |series|
  {
    seq(|series|, i requires 0 <= i < |series| => OptimalPareto(ln, series[i]))
  }

  /** One row of `compute_optimal_estimates`: the per-series estimates and
      their means. Both means are `nan` (`None`) for an empty list of
      series, and the Pareto mean also as soon as one series' estimate is. */
  method OptimalRow(ln: real -> real, uniform: seq<seq<int>>, pareto: seq<seq<real>>)
    returns (uniformEstimates: seq<real>, paretoEstimates: seq<Option<real>>, uniformMean: Option<real>, paretoMean: Option<real>)
    requires |uniform| == |pareto|
    requires forall i :: 0 <= i < |uniform| ==> |uniform[i]| > 0
    ensures uniformEstimates == OptimalUniformList(uniform)
    ensures paretoEstimates == OptimalParetoList(ln, pareto)
    ensures uniformMean.None? <==> |uniform| == 0
    ensures uniformMean.Some? ==> uniformMean.value == Mean(uniformEstimates)
    ensures paretoMean == NanMean(paretoEstimates)
  {
    uniformEstimates := [];
    paretoEstimates := [];
    for i := 0 to |uniform|
      invariant uniformEstimates == OptimalUniformList(uniform)[..i]
      invariant paretoEstimates == OptimalParetoList(ln, pareto)[..i]
    {
      uniformEstimates := uniformEstimates + [OptimalUniform(uniform[i])];
      paretoEstimates := paretoEstimates + [OptimalPareto(ln, pareto[i])];
    }
    assert OptimalUniformList(uniform)[..|uniform|] == OptimalUniformList(uniform);
    assert OptimalParetoList(ln, pareto)[..|pareto|] == OptimalParetoList(ln, pareto);
    uniformMean := if |uniformEstimates| == 0 then None else Some(Mean(uniformEstimates));
    paretoMean := NanMean(paretoEstimates);
  }

  /** The Pareto mean of a row is undefined exactly when some series has
      fewer than two values or a log-sum that is not positive. */
  lemma OptimalRowUndefined(ln: real -> real, pareto: seq<seq<real>>)
    ensures NanMean(OptimalParetoList(ln, pareto)).None? <==>
      |pareto| == 0 || exists i :: 0 <= i < |pareto| && !(|pareto[i]| > 1 && AllPositive(pareto[i]) && LogSum(ln, pareto[i]) > 0.0)
  {
    var xs := OptimalParetoList(ln, pareto);
    if exists i :: 0 <= i < |pareto| && !(|pareto[i]| > 1 && AllPositive(pareto[i]) && LogSum(ln, pareto[i]) > 0.0) {
      var i :| 0 <= i < |pareto| && !(|pareto[i]| > 1 && AllPositive(pareto[i]) && LogSum(ln, pareto[i]) > 0.0);
      assert xs[i].None?;
    }
  }

  // ---------------------------------------------------------------------
  // Task 4.1.4: the likelihood estimate with a fallback

  /** `estimate_theta` of the one-sided Kolmogorov script: `n / sum(ln x)`
      when the log-sum is positive, and 1.0 otherwise. `math.log` rejects
      non-positive values, hence the precondition. */
  function EstimateThetaWithFallback(ln: real -> real, s: seq<real>): real
    requires AllPositive(s)
  {
    if LogSum(ln, s) > 0.0 then ParetoMle(ln, s) else 1.0
  }

  /** It is the likelihood estimate of task 3.1 with the undefined case
      replaced by 1.0, and it is always positive on a non-empty sample. */
  lemma FallbackAgreesWithMle(ln: real -> real, s: seq<real>)
    requires AllPositive(s)
    ensures ParetoMleOption(ln, s).Some? ==> EstimateThetaWithFallback(ln, s) == ParetoMleOption(ln, s).value
    ensures ParetoMleOption(ln, s).None? ==> EstimateThetaWithFallback(ln, s) == 1.0
    ensures |s| > 0 ==> EstimateThetaWithFallback(ln, s) > 0.0
  {
    if LogSum(ln, s) > 0.0 {
      MleSolves(ln, s);
    }
  }
}
