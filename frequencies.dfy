/** The averaged frequency polygon of a discrete uniform law on `1..theta`:
    per series the relative frequency `count(t) / n` of each `t`, summed
    across series into `frequency_sum`, then divided by the declared number
    of series; and the theoretical density `1 / theta`. The dictionaries
    keyed by `t = 1..theta` are sequences with `t` at index `t - 1`. */
module Frequencies {
  import opened Common

  /** `sample.count(t)`. */
  function Count(s: seq<int>, t: int): (c: nat)
    ensures c <= |s|
  {
    if |s| == 0 then 0
    else Count(s[..|s| - 1], t) + (if s[|s| - 1] == t then 1 else 0)
  }

  /** Number of values of `s` in `1..t`. */
  function CountUpTo(s: seq<int>, t: int): (c: nat)
    ensures c <= |s|
  {
    if |s| == 0 then 0
    else CountUpTo(s[..|s| - 1], t) + (if 1 <= s[|s| - 1] <= t then 1 else 0)
  }

  /** Widening the range by `t + 1` adds the occurrences of `t + 1`. */
  lemma {:induction false} CountUpToStep(s: seq<int>, t: nat)
    ensures CountUpTo(s, t + 1) == CountUpTo(s, t) + Count(s, t + 1)
  {
    if |s| > 0 {
      CountUpToStep(s[..|s| - 1], t);
    }
  }

  lemma {:induction false} CountUpToAll(s: seq<int>, theta: int)
    requires forall i :: 0 <= i < |s| ==> 1 <= s[i] <= theta
    ensures CountUpTo(s, theta) == |s|
  {
    if |s| > 0 {
      CountUpToAll(s[..|s| - 1], theta);
    }
  }

  /** `count / len(sample)`: the relative frequency of `t`, in `[0, 1]`. */
  function RelFreq(s: seq<int>, t: int): (f: real)
    requires |s| > 0
    ensures 0.0 <= f <= 1.0
  {
    var n := |s| as real;
    QuotientSign(Count(s, t) as real, n);
    QuotientMonotone(Count(s, t) as real, n, n);
    Count(s, t) as real / n
  }

  /** `sample_freq`: the relative frequencies of `1..theta`. A sample is
      only divided by when the range is not empty. */
  function SampleFreqs(s: seq<int>, theta: nat): (r: seq<real>)
    requires theta == 0 || |s| > 0
    ensures |r| == theta
    ensures forall i :: 0 <= i < theta ==> r[i] == RelFreq(s, i + 1)
  {
    seq(theta, i requires 0 <= i < theta => RelFreq(s, i + 1))
  }

  /** The inner loop over `t`, one relative frequency per value. */
  method SampleFrequencies(sample: seq<int>, theta: nat) returns (freq: seq<real>)
    requires theta == 0 || |sample| > 0
    ensures freq == SampleFreqs(sample, theta)
  {
    freq := [];
    for t := 1 to theta + 1
      invariant freq == SampleFreqs(sample, theta)[..t - 1]
    {
      var count := Count(sample, t);
      PrefixExtend(SampleFreqs(sample, theta), t - 1);
      freq := freq + [count as real / |sample| as real];
    }
    assert SampleFreqs(sample, theta)[..theta] == SampleFreqs(sample, theta);
  }

  /** The relative frequencies of a sample over `1..theta` add up to the
      share of its values that lie in `1..theta`. */
  lemma {:induction false} SampleFreqsTotal(s: seq<int>, theta: nat)
    requires |s| > 0
    ensures Sum(SampleFreqs(s, theta)) == CountUpTo(s, theta) as real / |s| as real
  {
    var n := |s| as real;
    if theta == 0 {
      assert CountUpTo(s, 0) == 0 by {
        CountUpToNone(s);
      }
    } else {
      var f := SampleFreqs(s, theta);
      SampleFreqsTotal(s, theta - 1);
      assert f[..theta - 1] == SampleFreqs(s, theta - 1);
      CountUpToStep(s, theta - 1);
      assert Sum(f) == Sum(f[..theta - 1]) + f[theta - 1] by {
        assert f == f[..theta - 1] + [f[theta - 1]];
        SumSnoc(f[..theta - 1], f[theta - 1]);
      }
      AddQuotients(CountUpTo(s, theta - 1) as real, Count(s, theta) as real, n);
    }
  }

  lemma {:induction false} CountUpToNone(s: seq<int>)
    ensures CountUpTo(s, 0) == 0
  {
    if |s| > 0 {
      CountUpToNone(s[..|s| - 1]);
    }
  }

  lemma AddQuotients(a: real, b: real, d: real)
    requires d != 0.0
    ensures a / d + b / d == (a + b) / d
  {
    var p, q := a / d, b / d;
    assert p * d == a && q * d == b;
    assert (p + q) * d == a + b;
  }

  lemma WholeQuotient(n: real)
    requires n != 0.0
    ensures n / n == 1.0
  {
  }

  /** When every value lies in `1..theta` the frequencies add up to 1. */
  lemma SampleFreqsSumToOne(s: seq<int>, theta: nat)
    requires |s| > 0
    requires forall i :: 0 <= i < |s| ==> 1 <= s[i] <= theta
    ensures Sum(SampleFreqs(s, theta)) == 1.0
  {
    SampleFreqsTotal(s, theta);
    CountUpToAll(s, theta);
    WholeQuotient(|s| as real);
  }

  /** Pointwise sum of two lists of the same length. */
  function Plus(a: seq<real>, b: seq<real>): (r: seq<real>)
    requires |a| == |b|
    ensures |r| == |a|
    ensures forall i :: 0 <= i < |a| ==> r[i] == a[i] + b[i]
  {
    seq(|a|, i requires 0 <= i < |a| => a[i] + b[i])
  }

  /** The sum of a pointwise sum is the sum of the sums. */
  lemma {:induction false} SumPlus(a: seq<real>, b: seq<real>)
    requires |a| == |b|
    ensures Sum(Plus(a, b)) == Sum(a) + Sum(b)
  {
    if |a| > 0 {
      var m := |a| - 1;
      SumPlus(a[..m], b[..m]);
      assert Plus(a, b)[..m] == Plus(a[..m], b[..m]);
    }
  }

  /** The second inner loop: `frequency_sum[t] += sample_freq[t]` for
      every `t`, in place. */
  method AddFrequencies(sums: seq<real>, freq: seq<real>) returns (r: seq<real>)
    requires |sums| == |freq|
    ensures r == Plus(sums, freq)
  {
    r := sums;
    for i := 0 to |sums|
      invariant |r| == |sums|
      invariant forall j :: 0 <= j < i ==> r[j] == sums[j] + freq[j]
      invariant forall j :: i <= j < |sums| ==> r[j] == sums[j]
    {
      r := r[i := r[i] + freq[i]];
    }
  }

  /** The series may be divided by: every sample is non-empty and the
      declared count is non-zero, unless the range `1..theta` is empty and
      nothing is divided at all. */
  predicate Computable(series: seq<seq<int>>, theta: nat, numSeries: int)
  {
    theta == 0 || (numSeries != 0 && forall j :: 0 <= j < |series| ==> |series[j]| > 0)
  }

  /** `frequency_sum` after the series seen so far, series taken in order. */
  function FreqSum(series: seq<seq<int>>, theta: nat): (r: seq<real>)
    requires theta == 0 || forall j :: 0 <= j < |series| ==> |series[j]| > 0
    ensures |r| == theta
  {
    if |series| == 0 then seq(theta, _ => 0.0)
    else
      var m := |series| - 1;
      assert forall j :: 0 <= j < m ==> series[..m][j] == series[j];
      Plus(FreqSum(series[..m], theta), SampleFreqs(series[m], theta))
  }

  /** `averaged_frequencies`: each summed frequency over the declared
      number of series. */
  function Averaged(series: seq<seq<int>>, theta: nat, numSeries: int): (r: seq<real>)
    requires Computable(series, theta, numSeries)
    ensures |r| == theta
  {
    var sums := FreqSum(series, theta);
    seq(theta, i requires 0 <= i < theta => sums[i] / numSeries as real)
  }

  /** `calculate_averaged_frequencies` for the series of one sample size. */
  method CalculateAveragedFrequencies(series: seq<seq<int>>, theta: nat, numSeries: int) returns (averaged: seq<real>)
    requires Computable(series, theta, numSeries)
    ensures averaged == Averaged(series, theta, numSeries)
  {
    var frequencySum := seq(theta, _ => 0.0);
    for j := 0 to |series|
      invariant frequencySum == FreqSum(series[..j], theta)
    {
      var sample := series[j];
      var sampleFreq := SampleFrequencies(sample, theta);
      assert series[..j + 1][..j] == series[..j];
      frequencySum := AddFrequencies(frequencySum, sampleFreq);
    }
    assert series[..|series|] == series;
    averaged := seq(theta, i requires 0 <= i < theta => frequencySum[i] / numSeries as real);
  }

  /** The relative frequencies of `t` across the series. */
  function Column(series: seq<seq<int>>, t: int): (r: seq<real>)
    requires forall j :: 0 <= j < |series| ==> |series[j]| > 0
    ensures |r| == |series|
    ensures forall j :: 0 <= j < |series| ==> r[j] == RelFreq(series[j], t)
  {
    seq(|series|, j requires 0 <= j < |series| => RelFreq(series[j], t))
  }

  /** `frequency_sum[t]` is the sum over all series of their relative
      frequency of `t`. */
  lemma {:induction false} FreqSumIsColumnSum(series: seq<seq<int>>, theta: nat, i: nat)
    requires forall j :: 0 <= j < |series| ==> |series[j]| > 0
    requires i < theta
    ensures FreqSum(series, theta)[i] == Sum(Column(series, i + 1))
  {
    if |series| > 0 {
      var m := |series| - 1;
      FreqSumIsColumnSum(series[..m], theta, i);
      assert Column(series, i + 1)[..m] == Column(series[..m], i + 1);
    }
  }

  /** Each summed frequency lies between 0 and the number of series. */
  lemma FreqSumRange(series: seq<seq<int>>, theta: nat, i: nat)
    requires forall j :: 0 <= j < |series| ==> |series[j]| > 0
    requires i < theta
    ensures 0.0 <= FreqSum(series, theta)[i] <= |series| as real
  {
    FreqSumIsColumnSum(series, theta, i);
    SumBounds(Column(series, i + 1), 0.0, 1.0);
  }

  /** With every value in `1..theta` the summed frequencies add up to the
      number of series. */
  lemma {:induction false} FreqSumTotal(series: seq<seq<int>>, theta: nat)
    requires forall j :: 0 <= j < |series| ==> |series[j]| > 0
    requires forall j, i :: 0 <= j < |series| && 0 <= i < |series[j]| ==> 1 <= series[j][i] <= theta
    ensures Sum(FreqSum(series, theta)) == |series| as real
  {
    if |series| == 0 {
      SumConstant(seq(theta, _ => 0.0), 0.0);
    } else {
      var m := |series| - 1;
      FreqSumTotal(series[..m], theta);
      SumPlus(FreqSum(series[..m], theta), SampleFreqs(series[m], theta));
      SampleFreqsSumToOne(series[m], theta);
    }
  }

  /** Dividing every entry by `d` divides the sum by `d`. */
  lemma {:induction false} SumDivided(e: seq<real>, a: seq<real>, d: real)
    requires d != 0.0 && |e| == |a|
    requires forall i :: 0 <= i < |e| ==> e[i] == a[i] / d
    ensures Sum(e) == Sum(a) / d
  {
    if |e| > 0 {
      var m := |e| - 1;
      SumDivided(e[..m], a[..m], d);
      AddQuotients(Sum(a[..m]), a[m], d);
    }
  }

  /** The averaged frequencies add up to the number of series over the
      declared count, so to 1 when the two agree. */
  lemma AveragedSum(series: seq<seq<int>>, theta: nat, numSeries: int)
    requires theta > 0 && Computable(series, theta, numSeries)
    requires forall j, i :: 0 <= j < |series| && 0 <= i < |series[j]| ==> 1 <= series[j][i] <= theta
    ensures Sum(Averaged(series, theta, numSeries)) == |series| as real / numSeries as real
    ensures numSeries == |series| ==> Sum(Averaged(series, theta, numSeries)) == 1.0
  {
    FreqSumTotal(series, theta);
    SumDivided(Averaged(series, theta, numSeries), FreqSum(series, theta), numSeries as real);
    if numSeries == |series| {
      WholeQuotient(numSeries as real);
    }
  }

  /** With as many series as declared, each averaged frequency lies in `[0, 1]`. */
  lemma AveragedRange(series: seq<seq<int>>, theta: nat, i: nat)
    requires |series| > 0 && Computable(series, theta, |series|)
    requires i < theta
    ensures 0.0 <= Averaged(series, theta, |series|)[i] <= 1.0
  {
    var n := |series| as real;
    FreqSumRange(series, theta, i);
    QuotientSign(FreqSum(series, theta)[i], n);
    QuotientMonotone(FreqSum(series, theta)[i], n, n);
  }

  /** With as many series as declared, the averaged frequency of `t` is the
      arithmetic mean of the per-series relative frequencies of `t`. */
  lemma AveragedIsColumnMean(series: seq<seq<int>>, theta: nat, i: nat)
    requires |series| > 0 && Computable(series, theta, |series|)
    requires i < theta
    ensures Averaged(series, theta, |series|)[i] == Mean(Column(series, i + 1))
  {
    FreqSumIsColumnSum(series, theta, i);
  }

  /** `theoretical_density`: `1 / theta` at every `t` in `1..theta`. */
  function Theoretical(theta: nat): (r: seq<real>)
    ensures |r| == theta
  {
    seq(theta, _ requires theta > 0 => 1.0 / theta as real)
  }

  /** The theoretical density adds up to 1. */
  lemma TheoreticalSumsToOne(theta: nat)
    requires theta > 0
    ensures Sum(Theoretical(theta)) == 1.0
  {
    SumConstant(Theoretical(theta), 1.0 / theta as real);
  }
}
