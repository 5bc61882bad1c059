/** The transcendental functions the scripts call (`x ** y`, `log`, `sqrt`)
    enter the model as function-valued parameters. The predicates below state
    the only properties of them that the model relies on; each holds of the
    real power, natural logarithm and square root. */
module Analysis {
  import opened Common

  /** `pow(x, y)` is `x ** y` for a positive base. */
  ghost predicate IsPower(pow: (real, real) -> real)
  {
    && (forall y :: pow(1.0, y) == 1.0)
    && (forall x, y :: x > 0.0 ==> pow(x, y) > 0.0)
    && (forall x1, x2, y :: 0.0 < x1 < x2 && y < 0.0 ==> pow(x2, y) < pow(x1, y))
  }

  /** `ln` is the natural logarithm on the positive reals. */
  ghost predicate IsLog(ln: real -> real)
  {
    && ln(1.0) == 0.0
    && (forall x1, x2 :: 0.0 < x1 < x2 ==> ln(x1) < ln(x2))
  }

  /** `sqrt` is the square root on the non-negative reals: it is not
      negative there, and positive on the positive reals. */
  ghost predicate IsSqrt(sqrt: real -> real)
  {
    forall x :: x >= 0.0 ==> sqrt(x) >= 0.0 && (x > 0.0 ==> sqrt(x) > 0.0)
  }

  /** `pareto_cdf(x, theta) = 1 - x ** (-theta)`. */
  function ParetoCdf(pow: (real, real) -> real, x: real, theta: real): real
  {
    1.0 - pow(x, -theta)
  }

  /** The inverse CDF `(1 - p) ** (-1 / theta)`, the boundary for probability `p`. */
  function ParetoQuantile(pow: (real, real) -> real, p: real, theta: real): real
    requires theta != 0.0
  {
    pow(1.0 - p, -1.0 / theta)
  }

  /** The CDF vanishes at the left end of the support. */
  lemma CdfAtOne(pow: (real, real) -> real, theta: real)
    requires IsPower(pow)
    ensures ParetoCdf(pow, 1.0, theta) == 0.0
  {
  }

  /** On the support, for a positive shape, the CDF lies in `[0, 1)`. */
  lemma CdfRange(pow: (real, real) -> real, x: real, theta: real)
    requires IsPower(pow) && x >= 1.0 && theta > 0.0
    ensures 0.0 <= ParetoCdf(pow, x, theta) < 1.0
  {
    if x > 1.0 {
      assert pow(x, -theta) < pow(1.0, -theta);
    }
  }

  /** The quantile of probability 0 is 1, and every probability strictly
      between 0 and 1 has a quantile above 1. */
  lemma QuantileRange(pow: (real, real) -> real, p: real, theta: real)
    requires IsPower(pow) && theta > 0.0 && 0.0 <= p < 1.0
    ensures p == 0.0 ==> ParetoQuantile(pow, p, theta) == 1.0
    ensures p > 0.0 ==> ParetoQuantile(pow, p, theta) > 1.0
  {
    assert -1.0 / theta < 0.0;
    if p > 0.0 {
      assert pow(1.0 - p, -1.0 / theta) > pow(1.0, -1.0 / theta);
    }
  }

  /** The Pareto CDF is strictly increasing on the support. */
  lemma CdfIncreasing(pow: (real, real) -> real, theta: real, x1: real, x2: real)
    requires IsPower(pow) && theta > 0.0
    requires 0.0 < x1 < x2
    ensures ParetoCdf(pow, x1, theta) < ParetoCdf(pow, x2, theta)
  {
  }

  /** The inverse CDF is strictly increasing in the probability. */
  lemma QuantileIncreasing(pow: (real, real) -> real, theta: real, p1: real, p2: real)
    requires IsPower(pow) && theta > 0.0
    requires p1 < p2 < 1.0
    ensures ParetoQuantile(pow, p1, theta) < ParetoQuantile(pow, p2, theta)
  {
    assert -1.0 / theta < 0.0;
  }

  /** `sum(log(x) for x in sample)`. */
  function LogSum(ln: real -> real, s: seq<real>): real
  {
    if |s| == 0 then 0.0 else LogSum(ln, s[..|s| - 1]) + ln(s[|s| - 1])
  }

  /** On a sample of values `>= 1` the log-sum is non-negative, and it is
      zero exactly when every value is 1. */
  lemma {:induction false} LogSumOfParetoSample(ln: real -> real, s: seq<real>)
    requires IsLog(ln)
    requires forall i :: 0 <= i < |s| ==> s[i] >= 1.0
    ensures LogSum(ln, s) >= 0.0
    ensures LogSum(ln, s) == 0.0 <==> forall i :: 0 <= i < |s| ==> s[i] == 1.0
  {
    if |s| > 0 {
      var p := s[..|s| - 1];
      LogSumOfParetoSample(ln, p);
      assert forall i :: 0 <= i < |p| ==> p[i] == s[i];
      var x := s[|s| - 1];
      if x > 1.0 {
        assert ln(x) > 0.0;
      } else {
        assert ln(x) == 0.0;
      }
    }
  }

  /** `n / sum(log(x) for x in sample)`, the maximum-likelihood estimate of
      the Pareto shape; Python fails when the log-sum is 0. */
  function ParetoMle(ln: real -> real, s: seq<real>): (theta: real)
    requires LogSum(ln, s) != 0.0
  {
    |s| as real / LogSum(ln, s)
  }

  /** The estimate solves `theta * sum(log x) = n`; it is non-zero on a
      non-empty sample and positive when the log-sum is. */
  lemma MleSolves(ln: real -> real, s: seq<real>)
    requires LogSum(ln, s) != 0.0
    ensures ParetoMle(ln, s) * LogSum(ln, s) == |s| as real
    ensures |s| > 0 ==> ParetoMle(ln, s) != 0.0
    ensures LogSum(ln, s) > 0.0 && |s| > 0 ==> ParetoMle(ln, s) > 0.0
  {
    if LogSum(ln, s) > 0.0 {
      QuotientSign(|s| as real, LogSum(ln, s));
    }
  }
}
