/** The empirical distribution function `F(t) = #{x : x < t} / n` (strict
    inequality), its average over the series of one sample size on a grid of
    points, and the two-sample statistic `sqrt(nm/(n+m)) * sup |F_n - F_m|`
    stored in an upper-triangular matrix. */
module Empirical {
  import opened Common
  import opened Analysis
  import opened Sorting

  // ---------------------------------------------------------------------
  // One sample

  /** `#{x in s : x < t}`. */
  function CountBelow(s: seq<real>, t: real): (c: nat)
    ensures c <= |s|
  {
    if |s| == 0 then 0
    else CountBelow(s[..|s| - 1], t) + (if s[|s| - 1] < t then 1 else 0)
  }

  /** No value is counted exactly when `t` is at most every value. */
  lemma {:induction false} CountBelowNone(s: seq<real>, t: real)
    ensures CountBelow(s, t) == 0 <==> forall i :: 0 <= i < |s| ==> t <= s[i]
  {
    if |s| > 0 {
      var m := |s| - 1;
      CountBelowNone(s[..m], t);
      assert forall i :: 0 <= i < m ==> s[..m][i] == s[i];
    }
  }

  /** Every value is counted exactly when `t` exceeds every value. */
  lemma {:induction false} CountBelowAll(s: seq<real>, t: real)
    ensures CountBelow(s, t) == |s| <==> forall i :: 0 <= i < |s| ==> s[i] < t
  {
    if |s| > 0 {
      var m := |s| - 1;
      CountBelowAll(s[..m], t);
      assert forall i :: 0 <= i < m ==> s[..m][i] == s[i];
    }
  }

  lemma {:induction false} CountBelowMonotone(s: seq<real>, t1: real, t2: real)
    requires t1 <= t2
    ensures CountBelow(s, t1) <= CountBelow(s, t2)
  {
    if |s| > 0 {
      CountBelowMonotone(s[..|s| - 1], t1, t2);
    }
  }

  /** `c / n` is in `[0, 1]` for `c <= n`, and below 1 for `c < n`. */
  lemma Fraction(c: nat, n: nat)
    requires 0 < n && c <= n
    ensures 0.0 <= c as real / n as real <= 1.0
    ensures c as real / n as real == 0.0 <==> c == 0
    ensures c as real / n as real == 1.0 <==> c == n
  {
    var x := c as real;
    var d := n as real;
    QuotientSign(x, d);
    QuotientMonotone(x, d, d);
    SplitQuotient(1.0, -x, d);
    assert 1.0 * d + -x == d - x;
    ScaleQuotient(-1.0, x, d);
    assert -1.0 * x == -x;
    QuotientSign(d - x, d);
  }

  /** `empirical_cdf(sample, t)`, in `[0, 1]`. */
  function EmpiricalCdf(s: seq<real>, t: real): (f: real)
    requires |s| > 0
    ensures 0.0 <= f <= 1.0
  {
    Fraction(CountBelow(s, t), |s|);
    CountBelow(s, t) as real / |s| as real
  }

  /** The empirical CDF is non-decreasing in `t`. */
  lemma EmpiricalMonotone(s: seq<real>, t1: real, t2: real)
    requires |s| > 0 && t1 <= t2
    ensures EmpiricalCdf(s, t1) <= EmpiricalCdf(s, t2)
  {
    CountBelowMonotone(s, t1, t2);
    QuotientMonotone(CountBelow(s, t1) as real, CountBelow(s, t2) as real, |s| as real);
  }

  /** It is 0 exactly when `t` is at most every value, and 1 exactly when
      `t` exceeds every value; in particular `F(min) = 0` and `F(max) < 1`. */
  lemma EmpiricalEnds(s: seq<real>, t: real)
    requires |s| > 0
    ensures EmpiricalCdf(s, t) == 0.0 <==> forall i :: 0 <= i < |s| ==> t <= s[i]
    ensures EmpiricalCdf(s, t) == 1.0 <==> forall i :: 0 <= i < |s| ==> s[i] < t
  {
    CountBelowNone(s, t);
    CountBelowAll(s, t);
    Fraction(CountBelow(s, t), |s|);
  }

  // ---------------------------------------------------------------------
  // Averages over the series of one size

  /** The series of one size: at least one, none empty. */
  predicate Series(samples: seq<seq<real>>)
  {
    |samples| > 0 && forall i :: 0 <= i < |samples| ==> |samples[i]| > 0
  }

  /** `f_values`: the empirical CDF of every series at `t`. */
  function CdfValues(samples: seq<seq<real>>, t: real): (r: seq<real>)
    requires Series(samples)
    ensures |r| == |samples|
    ensures forall i :: 0 <= i < |samples| ==> r[i] == EmpiricalCdf(samples[i], t)
  {
    seq(|samples|, i requires 0 <= i < |samples| => EmpiricalCdf(samples[i], t))
  }

  /** `sum(f_values) / len(f_values)`, in `[0, 1]`. */
  function AveragedCdf(samples: seq<seq<real>>, t: real): (a: real)
    requires Series(samples)
    ensures 0.0 <= a <= 1.0
  {
    MeanBounds(CdfValues(samples, t), 0.0, 1.0);
    Mean(CdfValues(samples, t))
  }

  /** The loop that collects `f_values` for one `t` and averages them. */
  method AverageAt(samples: seq<seq<real>>, t: real) returns (avg: real)
    requires Series(samples)
    ensures avg == AveragedCdf(samples, t)
  {
    var fValues: seq<real> := [];
    for k := 0 to |samples|
      invariant fValues == CdfValues(samples, t)[..k]
    {
      fValues := fValues + [EmpiricalCdf(samples[k], t)];
    }
    assert CdfValues(samples, t)[..|samples|] == CdfValues(samples, t);
    avg := Sum(fValues) / |fValues| as real;
  }

  /** The average is non-decreasing in `t`. */
  lemma AveragedMonotone(samples: seq<seq<real>>, t1: real, t2: real)
    requires Series(samples) && t1 <= t2
    ensures AveragedCdf(samples, t1) <= AveragedCdf(samples, t2)
  {
    var a := CdfValues(samples, t1);
    var b := CdfValues(samples, t2);
    forall i | 0 <= i < |samples|
      ensures a[i] <= b[i]
    {
      EmpiricalMonotone(samples[i], t1, t2);
    }
    SumMonotone(a, b);
    QuotientMonotone(Sum(a), Sum(b), |samples| as real);
  }

  /** The average is 0 exactly when `t` is at most every value of every
      series. */
  lemma AveragedZero(samples: seq<seq<real>>, t: real)
    requires Series(samples)
    ensures AveragedCdf(samples, t) == 0.0 <==>
      forall i, j :: 0 <= i < |samples| && 0 <= j < |samples[i]| ==> t <= samples[i][j]
  {
    if forall i, j :: 0 <= i < |samples| && 0 <= j < |samples[i]| ==> t <= samples[i][j] {
      AveragedZeroBelowAll(samples, t);
    } else {
      var i, j :| 0 <= i < |samples| && 0 <= j < |samples[i]| && samples[i][j] < t;
      AveragedPositive(samples, t, i, j);
    }
  }

  lemma AveragedZeroBelowAll(samples: seq<seq<real>>, t: real)
    requires Series(samples)
    requires forall i, j :: 0 <= i < |samples| && 0 <= j < |samples[i]| ==> t <= samples[i][j]
    ensures AveragedCdf(samples, t) == 0.0
  {
    var f := CdfValues(samples, t);
    forall i | 0 <= i < |samples|
      ensures f[i] == 0.0
    {
      EmpiricalEnds(samples[i], t);
    }
    SumConstant(f, 0.0);
    QuotientSign(0.0, |samples| as real);
  }

  lemma AveragedPositive(samples: seq<seq<real>>, t: real, i: nat, j: nat)
    requires Series(samples)
    requires i < |samples| && j < |samples[i]| && samples[i][j] < t
    ensures AveragedCdf(samples, t) > 0.0
  {
    var f := CdfValues(samples, t);
    var zeros := seq(|samples|, _ => 0.0);
    SumConstant(zeros, 0.0);
    EmpiricalEnds(samples[i], t);
    SumStrict(zeros, f, i);
    QuotientSign(Sum(f), |samples| as real);
  }

  /** When some series has a value at or above `t`, the average is below 1:
      that series does not count the value. */
  lemma AveragedBelowOne(samples: seq<seq<real>>, t: real, i: nat, j: nat)
    requires Series(samples)
    requires i < |samples| && j < |samples[i]| && t <= samples[i][j]
    ensures AveragedCdf(samples, t) < 1.0
  {
    var f := CdfValues(samples, t);
    var ones := seq(|samples|, _ => 1.0);
    SumConstant(ones, 1.0);
    EmpiricalEnds(samples[i], t);
    SumStrict(f, ones, i);
    var n := |samples| as real;
    QuotientCompare(Sum(f), n, 1.0);
  }

  // ---------------------------------------------------------------------
  // Averages on a grid of points

  /** `averaged_results[size][t]` for every `t` of the grid, in grid order. */
  function AveragedList(samples: seq<seq<real>>, grid: seq<real>): (r: seq<real>)
    requires Series(samples)
    ensures |r| == |grid|
    ensures forall k :: 0 <= k < |grid| ==> r[k] == AveragedCdf(samples, grid[k])
  {
    seq(|grid|, k requires 0 <= k < |grid| => AveragedCdf(samples, grid[k]))
  }

  /** The loop over the grid points. */
  method AveragedOnGrid(samples: seq<seq<real>>, grid: seq<real>) returns (avgs: seq<real>)
    requires Series(samples)
    ensures avgs == AveragedList(samples, grid)
  {
    avgs := [];
    for k := 0 to |grid|
      invariant avgs == AveragedList(samples, grid)[..k]
    {
      var a := AverageAt(samples, grid[k]);
      avgs := avgs + [a];
    }
    assert AveragedList(samples, grid)[..|grid|] == AveragedList(samples, grid);
  }

  /** Along an ascending grid the averages are ascending too. */
  lemma AveragedListSorted(samples: seq<seq<real>>, grid: seq<real>)
    requires Series(samples) && Sorted(grid)
    ensures Sorted(AveragedList(samples, grid))
  {
    var r := AveragedList(samples, grid);
    forall i, j | 0 <= i < j < |r|
      ensures r[i] <= r[j]
    {
      AveragedMonotone(samples, grid[i], grid[j]);
    }
  }

  /** The integer grid `1..theta` of the discrete scripts. */
  function IntGrid(theta: nat): (g: seq<real>)
    ensures |g| == theta
    ensures forall k :: 0 <= k < theta ==> g[k] == (k + 1) as real
    ensures StrictlyIncreasing(g)
  {
    seq(theta, k requires 0 <= k < theta => (k + 1) as real)
  }

  /** The averages for every sample size on a common grid. */
  function Table(bySize: seq<seq<seq<real>>>, grid: seq<real>): (r: seq<seq<real>>)
    requires forall k :: 0 <= k < |bySize| ==> Series(bySize[k])
    ensures |r| == |bySize|
    ensures forall k :: 0 <= k < |bySize| ==> r[k] == AveragedList(bySize[k], grid)
  {
    seq(|bySize|, k requires 0 <= k < |bySize| && Series(bySize[k]) => AveragedList(bySize[k], grid))
  }

  /** The nested loops over sizes and grid points of the discrete and
      pooled-grid scripts. */
  method AveragedTable(bySize: seq<seq<seq<real>>>, grid: seq<real>) returns (table: seq<seq<real>>)
    requires forall k :: 0 <= k < |bySize| ==> Series(bySize[k])
    ensures table == Table(bySize, grid)
  {
    table := [];
    for k := 0 to |bySize|
      invariant table == Table(bySize, grid)[..k]
    {
      var row := AveragedOnGrid(bySize[k], grid);
      table := table + [row];
    }
    assert Table(bySize, grid)[..|bySize|] == Table(bySize, grid);
  }

  /** On the grid `1..theta`, series drawn from `{1..theta}` average to 0
      at `t = 1`, and every entry of the table lies in `[0, 1]`. */
  lemma DiscreteTableStartsAtZero(bySize: seq<seq<seq<real>>>, theta: nat)
    requires theta > 0
    requires forall k :: 0 <= k < |bySize| ==> Series(bySize[k])
    requires forall k, i, j :: 0 <= k < |bySize| && 0 <= i < |bySize[k]| && 0 <= j < |bySize[k][i]| ==> bySize[k][i][j] >= 1.0
    ensures forall k :: 0 <= k < |bySize| ==> Table(bySize, IntGrid(theta))[k][0] == 0.0
    ensures forall k, l :: 0 <= k < |bySize| && 0 <= l < theta ==> 0.0 <= Table(bySize, IntGrid(theta))[k][l] <= 1.0
  {
    forall k | 0 <= k < |bySize|
      ensures Table(bySize, IntGrid(theta))[k][0] == 0.0
    {
      AveragedZero(bySize[k], 1.0);
    }
  }

  // ---------------------------------------------------------------------
  // Pooled grids

  /** The values of all series, series after series (`extend`). */
  function Pool(samples: seq<seq<real>>): (r: seq<real>)
    ensures forall i, j :: 0 <= i < |samples| && 0 <= j < |samples[i]| ==> samples[i][j] in r
    ensures forall x :: x in r ==> exists i :: 0 <= i < |samples| && x in samples[i]
  {
    if |samples| == 0 then []
    else
      var m := |samples| - 1;
      var r := Pool(samples[..m]) + samples[m];
      assert forall i :: 0 <= i < m ==> samples[..m][i] == samples[i];
      r
  }

  /** `sorted(set(all_values))` for the series of one size. */
  function PooledGrid(samples: seq<seq<real>>): (g: seq<real>)
    ensures StrictlyIncreasing(g)
    ensures forall x :: x in g <==> x in Pool(samples)
  {
    SortedSet(Pool(samples))
  }

  /** The pooled-grid loop: gather the values of every series, sort their
      distinct values, and average at each of them. */
  method PooledAverages(samples: seq<seq<real>>) returns (grid: seq<real>, avgs: seq<real>)
    requires Series(samples)
    ensures grid == PooledGrid(samples)
    ensures avgs == AveragedList(samples, grid)
  {
    var allValues: seq<real> := [];
    for k := 0 to |samples|
      invariant allValues == Pool(samples[..k])
    {
      assert samples[..k + 1][..k] == samples[..k];
      allValues := allValues + samples[k];
    }
    assert samples[..|samples|] == samples;
    grid := SortedSet(allValues);
    avgs := AveragedOnGrid(samples, grid);
  }

  /** The smallest point of a strictly increasing grid that holds every
      value of every series is at most each of those values. */
  lemma FirstPointIsMin(samples: seq<seq<real>>, grid: seq<real>)
    requires |grid| > 0 && StrictlyIncreasing(grid)
    requires forall i, j :: 0 <= i < |samples| && 0 <= j < |samples[i]| ==> samples[i][j] in grid
    ensures forall i, j :: 0 <= i < |samples| && 0 <= j < |samples[i]| ==> grid[0] <= samples[i][j]
  {
    forall i, j | 0 <= i < |samples| && 0 <= j < |samples[i]|
      ensures grid[0] <= samples[i][j]
    {
      var k :| 0 <= k < |grid| && grid[k] == samples[i][j];
    }
  }

  /** On an ascending grid that holds every value, the averages ascend and
      start at 0. */
  lemma GridStartsAtZero(samples: seq<seq<real>>, g: seq<real>)
    requires Series(samples) && |g| > 0 && StrictlyIncreasing(g)
    requires forall i, j :: 0 <= i < |samples| && 0 <= j < |samples[i]| ==> samples[i][j] in g
    ensures Sorted(AveragedList(samples, g))
    ensures AveragedList(samples, g)[0] == 0.0
  {
    AveragedListSorted(samples, g);
    FirstPointIsMin(samples, g);
    AveragedZero(samples, g[0]);
  }

  /** The pooled grid of one size is not empty, holds every value, and its
      largest point is a value of some series. */
  lemma PooledGridFacts(samples: seq<seq<real>>) returns (i: nat, j: nat)
    requires Series(samples)
    ensures |PooledGrid(samples)| > 0
    ensures forall a, b :: 0 <= a < |samples| && 0 <= b < |samples[a]| ==> samples[a][b] in PooledGrid(samples)
    ensures i < |samples| && j < |samples[i]| && samples[i][j] == PooledGrid(samples)[|PooledGrid(samples)| - 1]
  {
    var g := PooledGrid(samples);
    assert samples[0][0] in Pool(samples);
    var last := g[|g| - 1];
    assert last in Pool(samples);
    i :| 0 <= i < |samples| && last in samples[i];
    j :| 0 <= j < |samples[i]| && samples[i][j] == last;
  }

  /** On the pooled grid of one size the averages ascend, start at 0 and
      stay below 1 at the largest pooled value. */
  lemma PooledAveragesShape(samples: seq<seq<real>>)
    requires Series(samples)
    ensures |PooledGrid(samples)| > 0
    ensures Sorted(AveragedList(samples, PooledGrid(samples)))
    ensures AveragedList(samples, PooledGrid(samples))[0] == 0.0
    ensures AveragedList(samples, PooledGrid(samples))[|PooledGrid(samples)| - 1] < 1.0
  {
    var i, j := PooledGridFacts(samples);
    var g := PooledGrid(samples);
    GridStartsAtZero(samples, g);
    GridEndsBelowOne(samples, g, i, j);
  }

  /** When the last grid point is a value of some series, the average there
      is below 1. */
  lemma GridEndsBelowOne(samples: seq<seq<real>>, g: seq<real>, i: nat, j: nat)
    requires Series(samples) && |g| > 0
    requires i < |samples| && j < |samples[i]| && samples[i][j] == g[|g| - 1]
    ensures AveragedList(samples, g)[|g| - 1] < 1.0
  {
    AveragedBelowOne(samples, g[|g| - 1], i, j);
  }

  /** The values of every series at every size, size after size. */
  function PoolAll(bySize: seq<seq<seq<real>>>): (r: seq<real>)
    ensures forall k, i, j :: 0 <= k < |bySize| && 0 <= i < |bySize[k]| && 0 <= j < |bySize[k][i]| ==> bySize[k][i][j] in r
    ensures forall x :: x in r ==> exists k, i :: 0 <= k < |bySize| && 0 <= i < |bySize[k]| && x in bySize[k][i]
  {
    if |bySize| == 0 then []
    else
      var m := |bySize| - 1;
      assert forall k :: 0 <= k < m ==> bySize[..m][k] == bySize[k];
      PoolAll(bySize[..m]) + Pool(bySize[m])
  }

  /** `all_points`: the nested loops that gather every value of every
      series of every size; their distinct values, ascending. */
  method AllPoints(bySize: seq<seq<seq<real>>>) returns (points: seq<real>)
    ensures points == SortedSet(PoolAll(bySize))
    ensures StrictlyIncreasing(points)
    ensures forall x :: x in points <==> exists k, i :: 0 <= k < |bySize| && 0 <= i < |bySize[k]| && x in bySize[k][i]
  {
    var pool: seq<real> := [];
    for k := 0 to |bySize|
      invariant pool == PoolAll(bySize[..k])
    {
      assert bySize[..k + 1][..k] == bySize[..k];
      pool := AppendSeries(pool, bySize[k]);
    }
    assert bySize[..|bySize|] == bySize;
    points := SortedSet(pool);
  }

  /** The inner loop of `all_points`: append every series of one size. */
  method AppendSeries(pool: seq<real>, samples: seq<seq<real>>) returns (r: seq<real>)
    ensures r == pool + Pool(samples)
  {
    r := pool;
    for i := 0 to |samples|
      invariant r == pool + Pool(samples[..i])
    {
      assert samples[..i + 1][..i] == samples[..i];
      r := r + samples[i];
    }
    assert samples[..|samples|] == samples;
  }

  /** At the smallest point of `all_points` the average of every size is 0,
      and along `all_points` every size's averages ascend within `[0, 1]`. */
  lemma AllPointsShape(bySize: seq<seq<seq<real>>>, k: nat)
    requires k < |bySize| && Series(bySize[k])
    ensures |SortedSet(PoolAll(bySize))| > 0
    ensures AveragedList(bySize[k], SortedSet(PoolAll(bySize)))[0] == 0.0
    ensures Sorted(AveragedList(bySize[k], SortedSet(PoolAll(bySize))))
  {
    var g := SortedSet(PoolAll(bySize));
    assert |g| > 0 && forall i, j :: 0 <= i < |bySize[k]| && 0 <= j < |bySize[k][i]| ==> bySize[k][i][j] in g by {
      assert bySize[k][0][0] in PoolAll(bySize);
    }
    GridStartsAtZero(bySize[k], g);
  }

  // ---------------------------------------------------------------------
  // Two-sample statistics

  /** `|F_n(t) - F_m(t)|` at every grid point. */
  function Diffs(fa: seq<real>, fb: seq<real>): (r: seq<real>)
    requires |fa| == |fb|
    ensures |r| == |fa|
    ensures forall k :: 0 <= k < |fa| ==> r[k] == Abs(fa[k] - fb[k])
  {
    seq(|fa|, k requires 0 <= k < |fa| => Abs(fa[k] - fb[k]))
  }

  /** The `sup_diff` loop: the running maximum of the differences. */
  method SupDifference(fa: seq<real>, fb: seq<real>) returns (sup: real)
    requires |fa| == |fb|
    ensures sup == RunningMax(Diffs(fa, fb))
  {
    ghost var d := Diffs(fa, fb);
    sup := 0.0;
    for k := 0 to |fa|
      invariant sup == RunningMax(d[..k])
    {
      var diff := Abs(fa[k] - fb[k]);
      if diff > sup {
        sup := diff;
      }
      assert d[..k + 1][..k] == d[..k];
    }
    assert d[..|fa|] == d;
  }

  /** For two lists of values in `[0, 1]` the supremum lies in `[0, 1]`. */
  lemma SupInUnit(fa: seq<real>, fb: seq<real>)
    requires |fa| == |fb|
    requires forall k :: 0 <= k < |fa| ==> 0.0 <= fa[k] <= 1.0 && 0.0 <= fb[k] <= 1.0
    ensures 0.0 <= RunningMax(Diffs(fa, fb)) <= 1.0
  {
    var d := Diffs(fa, fb);
    var m := RunningMax(d);
    if m != 0.0 {
      var k :| 0 <= k < |d| && d[k] == m;
    }
  }

  /** The scale `sqrt(n m / (m + n))` of a pair of sizes `n < m`. */
  function Scale(sqrt: real -> real, n: nat, m: nat): (c: real)
    requires IsSqrt(sqrt) && n < m
    ensures c >= 0.0
  {
    QuotientSign(n as real * m as real, m as real + n as real);
    sqrt((n as real * m as real) / (m as real + n as real))
  }

  /** `D_mn = sqrt(n m / (m + n)) * sup_diff` for sizes `n < m`; it is not
      negative for a non-negative `sup_diff`. */
  function Statistic(sqrt: real -> real, n: nat, m: nat, supDiff: real): (e: real)
    requires IsSqrt(sqrt) && n < m && supDiff >= 0.0
    ensures e >= 0.0
  {
    Scale(sqrt, n, m) * supDiff
  }

  /** The statistic of one pair: the `sup_diff` loop, then the scaling. */
  method PairStatistic(sqrt: real -> real, n: nat, m: nat, fa: seq<real>, fb: seq<real>) returns (dmn: real)
    requires IsSqrt(sqrt) && n < m && |fa| == |fb|
    ensures dmn == Statistic(sqrt, n, m, RunningMax(Diffs(fa, fb)))
  {
    var supDiff := SupDifference(fa, fb);
    dmn := Statistic(sqrt, n, m, supDiff);
  }

  /** Equal grid lengths for every row of the table. */
  predicate Rectangular(table: seq<seq<real>>)
  {
    forall a, b :: 0 <= a < |table| && 0 <= b < |table| ==> |table[a]| == |table[b]|
  }

  /** Entry `(i, j)` of `D_matrix`: the statistic for `sizes[i] < sizes[j]`,
      and otherwise 0, the untouched `np.zeros` entry (so the diagonal and
      every pair with the larger size first stay 0). */
  function Entry(sqrt: real -> real, sizes: seq<nat>, table: seq<seq<real>>, i: nat, j: nat): (e: real)
    requires IsSqrt(sqrt) && |table| == |sizes| && Rectangular(table)
    requires i < |sizes| && j < |sizes|
    ensures e >= 0.0
    ensures sizes[i] >= sizes[j] ==> e == 0.0
    ensures sizes[i] < sizes[j] ==> e == Statistic(sqrt, sizes[i], sizes[j], RunningMax(Diffs(table[i], table[j])))
  {
    if sizes[i] < sizes[j] then Statistic(sqrt, sizes[i], sizes[j], RunningMax(Diffs(table[i], table[j]))) else 0.0
  }

  /** The matrix loop: a zero `len(sizes) x len(sizes)` matrix whose entry
      `(i, j)` is written only for `sizes[i] < sizes[j]`. */
  method TwoSampleMatrix(sqrt: real -> real, sizes: seq<nat>, table: seq<seq<real>>) returns (d: array2<real>)
    requires IsSqrt(sqrt)
    requires |table| == |sizes| && Rectangular(table)
    ensures fresh(d) && d.Length0 == |sizes| && d.Length1 == |sizes|
    ensures forall i, j :: 0 <= i < |sizes| && 0 <= j < |sizes| ==> d[i, j] == Entry(sqrt, sizes, table, i, j)
  {
    var count := |sizes|;
    d := new real[count, count]((_, _) => 0.0);
    for i := 0 to count
      invariant forall a, b :: 0 <= a < i && 0 <= b < count ==> d[a, b] == Entry(sqrt, sizes, table, a, b)
      invariant forall a, b :: i <= a < count && 0 <= b < count ==> d[a, b] == 0.0
    {
      FillRow(sqrt, sizes, table, d, i);
    }
  }

  /** The inner loop over `j` for one row `i` of the matrix. */
  method FillRow(sqrt: real -> real, sizes: seq<nat>, table: seq<seq<real>>, d: array2<real>, i: nat)
    requires IsSqrt(sqrt)
    requires |table| == |sizes| && Rectangular(table)
    requires d.Length0 == |sizes| && d.Length1 == |sizes| && i < |sizes|
    requires forall b :: 0 <= b < |sizes| ==> d[i, b] == 0.0
    modifies d
    ensures forall b :: 0 <= b < |sizes| ==> d[i, b] == Entry(sqrt, sizes, table, i, b)
    ensures forall a, b :: 0 <= a < |sizes| && 0 <= b < |sizes| && a != i ==> d[a, b] == old(d[a, b])
  {
    for j := 0 to |sizes|
      invariant forall b :: 0 <= b < j ==> d[i, b] == Entry(sqrt, sizes, table, i, b)
      invariant forall b :: j <= b < |sizes| ==> d[i, b] == 0.0
      invariant forall a, b :: 0 <= a < |sizes| && 0 <= b < |sizes| && a != i ==> d[a, b] == old(d[a, b])
    {
      WriteEntry(sqrt, sizes, table, d, i, j);
    }
  }

  /** One step of the inner loop: write `D_mn` at `(i, j)` when
      `sizes[i] < sizes[j]`, and nothing otherwise. */
  method WriteEntry(sqrt: real -> real, sizes: seq<nat>, table: seq<seq<real>>, d: array2<real>, i: nat, j: nat)
    requires IsSqrt(sqrt)
    requires |table| == |sizes| && Rectangular(table)
    requires d.Length0 == |sizes| && d.Length1 == |sizes| && i < |sizes| && j < |sizes|
    requires d[i, j] == 0.0
    modifies d
    ensures d[i, j] == Entry(sqrt, sizes, table, i, j)
    ensures forall a, b :: 0 <= a < |sizes| && 0 <= b < |sizes| && (a != i || b != j) ==> d[a, b] == old(d[a, b])
  {
    if sizes[i] < sizes[j] {
      var dmn := PairStatistic(sqrt, sizes[i], sizes[j], table[i], table[j]);
      d[i, j] := dmn;
    }
  }
}
