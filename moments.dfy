/** Sample moments of the discrete uniform series: per series the mean
    `x_bar = sum(x) / n` and the biased variance `s^2 = sum((x - x_bar)^2) / n`,
    recorded one per series, then averaged over the series. */
module Moments {
  import opened Common

  /** The squared deviations `(x - c)^2` of a sample from `c`. */
  function SquaredDeviations(s: seq<real>, c: real): (r: seq<real>)
    ensures |r| == |s|
    ensures forall i :: 0 <= i < |s| ==> r[i] == Square(s[i] - c)
  {
    seq(|s|, i requires 0 <= i < |s| => Square(s[i] - c))
  }

  /** `s^2`: the mean squared deviation from the sample mean, dividing by
      `n`. */
  function Variance(s: seq<real>): real
    requires |s| > 0
  {
    Sum(SquaredDeviations(s, Mean(s))) / |s| as real
  }

  /** The mean lies between the smallest and the largest value. */
  lemma MeanBetween(s: seq<real>)
    requires |s| > 0
    ensures MinReal(s) <= Mean(s) <= MaxReal(s)
  {
    MeanBounds(s, MinReal(s), MaxReal(s));
  }

  /** The squared deviations from any centre add up to a non-negative sum. */
  lemma DeviationsNonNegative(s: seq<real>, c: real)
    ensures Sum(SquaredDeviations(s, c)) >= 0.0
  {
    var d := SquaredDeviations(s, c);
    var z := seq(|s|, _ => 0.0);
    forall i | 0 <= i < |d|
      ensures z[i] <= d[i]
    {
      SquareSign(s[i] - c);
    }
    SumMonotone(z, d);
    SumConstant(z, 0.0);
  }

  /** `s^2 >= 0`. */
  lemma VarianceNonNegative(s: seq<real>)
    requires |s| > 0
    ensures Variance(s) >= 0.0
  {
    DeviationsNonNegative(s, Mean(s));
    QuotientSign(Sum(SquaredDeviations(s, Mean(s))), |s| as real);
  }

  /** A sample of equal values has variance 0 ... */
  lemma VarianceOfConstant(s: seq<real>)
    requires |s| > 0
    requires forall i :: 0 <= i < |s| ==> s[i] == s[0]
    ensures Variance(s) == 0.0
  {
    MeanConstant(s, s[0]);
    var d := SquaredDeviations(s, Mean(s));
    forall i | 0 <= i < |d|
      ensures d[i] == 0.0
    {
      SquareSign(s[i] - Mean(s));
    }
    SumConstant(d, 0.0);
    QuotientSign(Sum(d), |s| as real);
  }

  /** ... and only such a sample: a value away from the mean makes a
      positive squared deviation, hence a positive sum. */
  lemma ConstantOfZeroVariance(s: seq<real>)
    requires |s| > 0 && Variance(s) == 0.0
    ensures forall i :: 0 <= i < |s| ==> s[i] == s[0]
  {
    var m := Mean(s);
    forall i | 0 <= i < |s|
      ensures s[i] == m
    {
      if s[i] != m {
        var d := SquaredDeviations(s, m);
        var z := seq(|s|, _ => 0.0);
        forall j | 0 <= j < |s|
          ensures z[j] <= d[j]
        {
          SquareSign(s[j] - m);
        }
        SquareSign(s[i] - m);
        SumStrict(z, d, i);
        SumConstant(z, 0.0);
        QuotientSign(Sum(d), |s| as real);
        assert false;
      }
    }
  }

  /** `s^2 = 0` exactly when all values are equal. */
  lemma VarianceZeroIff(s: seq<real>)
    requires |s| > 0
    ensures Variance(s) == 0.0 <==> forall i :: 0 <= i < |s| ==> s[i] == s[0]
  {
    if forall i :: 0 <= i < |s| ==> s[i] == s[0] {
      VarianceOfConstant(s);
    }
    if Variance(s) == 0.0 {
      ConstantOfZeroVariance(s);
    }
  }

  /** `x_bar` of every series, each converted to reals. */
  function Means(series: seq<seq<int>>): (r: seq<real>)
    requires forall j :: 0 <= j < |series| ==> |series[j]| > 0
    ensures |r| == |series|
    ensures forall j :: 0 <= j < |series| ==> r[j] == Mean(ToReals(series[j]))
  {
    seq(|series|, j requires 0 <= j < |series| && |series[j]| > 0 => Mean(ToReals(series[j])))
  }

  /** `s^2` of every series. */
  function Variances(series: seq<seq<int>>): (r: seq<real>)
    requires forall j :: 0 <= j < |series| ==> |series[j]| > 0
    ensures |r| == |series|
    ensures forall j :: 0 <= j < |series| ==> r[j] == Variance(ToReals(series[j]))
  {
    seq(|series|, j requires 0 <= j < |series| && |series[j]| > 0 => Variance(ToReals(series[j])))
  }

  /** The body of the loop over series: `x_bar` and `s^2` of one sample. */
  method SeriesMoments(series: seq<int>) returns (xBar: real, sSquared: real)
    requires |series| > 0
    ensures xBar == Mean(ToReals(series))
    ensures sSquared == Variance(ToReals(series))
  {
    var sample := ToReals(series);
    var n := |sample|;
    xBar := Sum(sample) / n as real;
    var squaredDeviations := Sum(SquaredDeviations(sample, xBar));
    sSquared := squaredDeviations / n as real;
  }

  /** The loop over the series of one sample size: one `x_bar` and one
      `s^2` per series, then their arithmetic means. Python fails on an
      empty sample and on an empty list of series; those are the
      preconditions. */
  method SizeMoments(series: seq<seq<int>>) returns (xBars: seq<real>, sSquares: seq<real>, avgXBar: real, avgSSquared: real)
    requires |series| > 0
    requires forall j :: 0 <= j < |series| ==> |series[j]| > 0
    ensures xBars == Means(series) && sSquares == Variances(series)
    ensures avgXBar == Mean(xBars) && avgSSquared == Mean(sSquares)
  {
    ghost var means := Means(series);
    ghost var variances := Variances(series);
    xBars := [];
    sSquares := [];
    for i := 0 to |series|
      invariant xBars == means[..i]
      invariant sSquares == variances[..i]
    {
      var xBar, sSquared := SeriesMoments(series[i]);
      PrefixExtend(means, i);
      PrefixExtend(variances, i);
      xBars := xBars + [xBar];
      sSquares := sSquares + [sSquared];
    }
    assert means[..|series|] == means;
    assert variances[..|series|] == variances;
    avgXBar := Sum(xBars) / |xBars| as real;
    avgSSquared := Sum(sSquares) / |sSquares| as real;
  }

  /** The averaged `s^2` is not negative, and for values in `[lo, hi]` the
      averaged `x_bar` lies in `[lo, hi]`. */
  lemma AveragesRange(series: seq<seq<int>>, lo: int, hi: int)
    requires |series| > 0
    requires forall j :: 0 <= j < |series| ==> |series[j]| > 0
    requires forall j, i :: 0 <= j < |series| && 0 <= i < |series[j]| ==> lo <= series[j][i] <= hi
    ensures Mean(Variances(series)) >= 0.0
    ensures lo as real <= Mean(Means(series)) <= hi as real
  {
    var v := Variances(series);
    var m := Means(series);
    forall j | 0 <= j < |series|
      ensures v[j] >= 0.0 && lo as real <= m[j] <= hi as real
    {
      VarianceNonNegative(ToReals(series[j]));
      MeanBounds(ToReals(series[j]), lo as real, hi as real);
    }
    MeanBounds(v, 0.0, MaxReal(v));
    MeanBounds(m, lo as real, hi as real);
  }
}
