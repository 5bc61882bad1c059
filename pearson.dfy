/** Pearson's statistic, the reject rule and the per-size summary, common to
    the four chi-square scripts. */
module Pearson {
  import opened Common

  /** One bin's share `(obs - exp)^2 / exp`; bins with non-positive expected
      count are skipped and add nothing. */
  function Term(obs: nat, exp: real): (r: real)
    ensures r >= 0.0
    ensures r == 0.0 <==> exp <= 0.0 || obs as real == exp
  {
    if exp > 0.0 then
      SquareSign(obs as real - exp);
      QuotientSign(Square(obs as real - exp), exp);
      Square(obs as real - exp) / exp
    else 0.0
  }

  /** The statistic over all bins, summed in bin order. */
  function Chi2(obs: seq<nat>, exp: seq<real>): (r: real)
    requires |obs| == |exp|
    ensures r >= 0.0
  {
    if |obs| == 0 then 0.0
    else Chi2(obs[..|obs| - 1], exp[..|exp| - 1]) + Term(obs[|obs| - 1], exp[|exp| - 1])
  }

  /** The accumulation loop of the scripts computes the statistic. */
  method PearsonSum(observed: seq<nat>, expected: seq<real>) returns (chi2: real)
    requires |observed| == |expected|
    ensures chi2 == Chi2(observed, expected)
  {
    chi2 := 0.0;
    for i := 0 to |observed|
      invariant chi2 == Chi2(observed[..i], expected[..i])
    {
      assert observed[..i + 1][..i] == observed[..i];
      assert expected[..i + 1][..i] == expected[..i];
      if expected[i] > 0.0 {
        chi2 := chi2 + Square(observed[i] as real - expected[i]) / expected[i];
      }
    }
    assert observed[..|observed|] == observed;
    assert expected[..|expected|] == expected;
  }

  /** The statistic is zero exactly when every bin with a positive expected
      count is matched by its observed count. */
  lemma {:induction false} Chi2ZeroIffFit(obs: seq<nat>, exp: seq<real>)
    requires |obs| == |exp|
    ensures Chi2(obs, exp) == 0.0 <==>
      forall i :: 0 <= i < |obs| && exp[i] > 0.0 ==> obs[i] as real == exp[i]
  {
    if |obs| > 0 {
      var m := |obs| - 1;
      Chi2ZeroIffFit(obs[..m], exp[..m]);
      assert forall i :: 0 <= i < m ==> obs[..m][i] == obs[i] && exp[..m][i] == exp[i];
    }
  }

  /** Changing the observed count of a bin whose expected count is not
      positive leaves the statistic unchanged. */
  lemma {:induction false} Chi2IgnoresEmptyBins(obs: seq<nat>, exp: seq<real>, i: nat, x: nat)
    requires |obs| == |exp| && i < |obs|
    requires exp[i] <= 0.0
    ensures Chi2(obs[i := x], exp) == Chi2(obs, exp)
  {
    var m := |obs| - 1;
    var changed := obs[i := x];
    if i < m {
      assert changed[..m] == obs[..m][i := x];
      Chi2IgnoresEmptyBins(obs[..m], exp[..m], i, x);
    } else {
      assert changed[..m] == obs[..m];
    }
  }

  /** One test's outcome: the statistic, the critical value, the degrees of
      freedom and whether the hypothesis is rejected. */
  datatype Verdict = Verdict(statistic: real, critical: real, df: int, reject: bool)

  /** The reject rule shared by every test: reject iff statistic > critical. */
  function Decide(statistic: real, critical: real, df: int): (v: Verdict)
    ensures v.statistic == statistic && v.critical == critical && v.df == df
    ensures v.reject <==> statistic > critical
  {
    Verdict(statistic, critical, df, statistic > critical)
  }

  function Indicators(rejects: seq<bool>): (r: seq<real>)
    ensures |r| == |rejects|
  {
    seq(|rejects|, i requires 0 <= i < |rejects| => if rejects[i] then 1.0 else 0.0)
  }

  lemma {:induction false} IndicatorSum(rejects: seq<bool>)
    ensures 0.0 <= Sum(Indicators(rejects)) <= |rejects| as real
    ensures Sum(Indicators(rejects)) == 0.0 <==> forall i :: 0 <= i < |rejects| ==> !rejects[i]
    ensures Sum(Indicators(rejects)) == |rejects| as real <==> forall i :: 0 <= i < |rejects| ==> rejects[i]
  {
    if |rejects| > 0 {
      var m := |rejects| - 1;
      assert Indicators(rejects)[..m] == Indicators(rejects[..m]);
      IndicatorSum(rejects[..m]);
      assert forall i :: 0 <= i < m ==> rejects[..m][i] == rejects[i];
    }
  }

  /** `np.mean([1 if rejected else 0 ...]) * 100`: the percentage of series
      whose hypothesis is rejected. `np.mean` of an empty list is `nan`
      (`None`); otherwise the percentage is 0 exactly when none is rejected
      and 100 exactly when all are. */
  function RejectionPercent(rejects: seq<bool>): (r: Option<real>)
    ensures r.None? <==> |rejects| == 0
    ensures r.Some? ==> 0.0 <= r.value <= 100.0
    ensures r.Some? ==> (r.value == 0.0 <==> forall i :: 0 <= i < |rejects| ==> !rejects[i])
    ensures r.Some? ==> (r.value == 100.0 <==> forall i :: 0 <= i < |rejects| ==> rejects[i])
  {
    if |rejects| == 0 then None
    else
      IndicatorSum(rejects);
      var q := Mean(Indicators(rejects));
      assert q * |rejects| as real == Sum(Indicators(rejects));
      assert q * 100.0 == 100.0 <==> q == 1.0;
      Some(q * 100.0)
  }

  function Rejections(vs: seq<Verdict>): (r: seq<bool>)
    ensures |r| == |vs| && forall i :: 0 <= i < |vs| ==> r[i] == vs[i].reject
  {
    seq(|vs|, i requires 0 <= i < |vs| => vs[i].reject)
  }

  function Statistics(vs: seq<Verdict>): (r: seq<real>)
    ensures |r| == |vs| && forall i :: 0 <= i < |vs| ==> r[i] == vs[i].statistic
  {
    seq(|vs|, i requires 0 <= i < |vs| => vs[i].statistic)
  }

  /** Per-size summary: the mean statistic and the rejection percentage over
      the series of one sample size; both are `nan` (`None`) when the size
      has no series. */
  function Summary(vs: seq<Verdict>): (r: (Option<real>, Option<real>))
    ensures r.0.None? <==> |vs| == 0
    ensures r.1.None? <==> |vs| == 0
    ensures r.1.Some? ==> 0.0 <= r.1.value <= 100.0
    ensures r.1.Some? ==> (r.1.value == 0.0 <==> forall i :: 0 <= i < |vs| ==> !vs[i].reject)
  {
    (if |vs| == 0 then None else Some(Mean(Statistics(vs))), RejectionPercent(Rejections(vs)))
  }

  /** The mean statistic of chi-square verdicts, when defined, is
      non-negative. */
  lemma SummaryMeanNonNegative(vs: seq<Verdict>)
    requires forall i :: 0 <= i < |vs| ==> vs[i].statistic >= 0.0
    ensures Summary(vs).0.Some? ==> Summary(vs).0.value >= 0.0
  {
    if |vs| > 0 {
      var stats := Statistics(vs);
      MeanBounds(stats, 0.0, MaxReal(stats));
    }
  }
}
