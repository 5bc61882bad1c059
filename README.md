# Verified model of the mathematical-statistics homework scripts

The repository is a set of Python scripts for a course in mathematical
statistics. They work on two families of samples. The first is a discrete
uniform law on `1..theta`. The second is a Pareto law with density
`theta * x^(-theta-1)` on `x >= 1`. The scripts:

- estimate the parameter (method of moments, maximum likelihood, the
  "optimal" unbiased variants);
- run Pearson's chi-square test, with the parameter known or estimated
  from the same sample;
- run Kolmogorov's test, two-sided and one-sided;
- average empirical distribution functions over series and compare sample
  sizes with the two-sample Smirnov statistic;
- average relative frequencies;
- compute sample means and biased variances.

This project restates the deterministic core of those scripts in Dafny and
proves what the scripts rely on. Each module follows one concern of the
scripts:

| module | file | scripts |
|---|---|---|
| `Common` | common.dfy | sums, means, maxima, `Option`, the running maximum |
| `Sorting` | sorting.dfy | `sorted(...)`, `np.sort`, `sorted(set(...))` |
| `Analysis` | analysis.dfy | `pareto_cdf`, the quantile `(1-p)^(-1/theta)`, the log-sum and `n / sum(ln x)` |
| `Sturges` | sturges.dfy | `sturges_k` |
| `DiscreteIntervals` | discrete_intervals.dfy | `create_intervals`, `create_intervals_discrete` |
| `Pearson` | pearson.dfy | the chi-square sum, the reject rule, the per-size summary |
| `DiscreteChiSquare` | discrete_chi_square.dfy | hw2-4/task4.1.2 and hw2-4/task4.1.6 |
| `ParetoChiSquare` | pareto_chi_square.dfy | hw2-4/task4.1.3 and hw2-4/4.1.5 |
| `Estimators` | estimators.dfy | hw2-4/task3.1, hw2-4/task3.2, `estimate_theta` of hw2-4/task4.1.4 |
| `Kolmogorov` | kolmogorov.dfy | hw2-4/task4.1.1 and hw2-4/task4.1.4 |
| `Empirical` | empirical.dfy | hw2/task2.2.1, hw2-4/task2.2.2, hw2-4/task2.2.3, hw2/task2.2.4 |
| `Frequencies` | frequencies.dfy | hw2/task2.3.1 |
| `Moments` | moments.dfy | hw2/task2.4.1 |

Routines that appear in several scripts are modelled once and shared:
`sturges_k`, the two interval builders, `pareto_cdf`, `empirical_cdf` and
the chi-square accumulation.

**Numbers.** Python floats become exact `real`s. Counts are `nat`. Integer
samples stay `int`.

**Transcendental functions.** `x ** (-theta)`, `math.log`/`np.log` and
`sqrt` are passed in as function parameters (`pow`, `ln`, `sqrt`). The
predicates `IsPower`, `IsLog` and `IsSqrt` state the facts the proofs use:

- `1^y = 1`, `x^y > 0` for `x > 0`, and `x^y` decreasing in `x` for `y < 0`;
- `ln 1 = 0`, and `ln` strictly increasing on the positive reals;
- `sqrt` positive on positive arguments.

The critical value `chi2.ppf(0.95, df)` is a parameter `ppf: int -> real`.

**Loops.** Each loop of the scripts is a `method` whose `ensures` ties its
result to a specification function. Lemmas then prove the promised
properties about that function. Examples:

- `frequency_sum` becomes `FreqSum`;
- the bin counters become `Observed` / `ObservedPareto`;
- the running maxima become `RunningMax`;
- the `D_matrix` fill becomes a method over a two-dimensional array.

Where a script fails (division by zero, `max` of an empty list), the model
has a precondition. Where a script returns `inf` or `nan` as a value, the
model returns `None`.

## Model

| member | source | states |
|---|---|---|
| Common.RunningMax | hw2-4/task4.1.4.mathstat.py:32-38 | the maximum kept by "start at 0, replace when strictly larger" is non-negative, bounds every entry, and is 0 or one of the entries |
| Common.MaxOf | hw2-4/task4.1.6.mathstat.py:17 | `max(sample)` is one of the values and at least every value |
| Sorting.Sort | hw2-4/task4.1.1.mathstat.py:17 | the sorted copy is sorted and a permutation of the input (same multiset, same length) |
| Sorting.Insert | hw2-4/task4.1.1.mathstat.py:17 | inserting into a sorted list keeps it sorted and adds exactly the new value |
| Sorting.SortIgnoresOrder | hw2-4/task4.1.4.mathstat.py:30 | two inputs with the same multiset of values have the same sorted copy |
| Sorting.SortedPermutationsEqual | hw2-4/task4.1.1.mathstat.py:17 | a sorted sequence is determined by its multiset: two sorted permutations of each other are equal |
| Sorting.Dedup | hw2-4/task2.2.2.mathstat.py:25 | removing repeats from a sorted list gives a strictly increasing list with the same values and the same first element |
| Sorting.SortedSet | hw2/task2.2.4.mathstat.py:21 | `sorted(set(xs))` is strictly increasing and holds exactly the values of `xs` |
| Analysis.CdfAtOne | hw2-4/task4.1.3.mathstat.py:16-17 | `pareto_cdf(1, theta) = 0` for every theta |
| Analysis.ParetoCdf | hw2-4/task4.1.3.mathstat.py:16-17 | `pareto_cdf(x, theta) = 1 - x^(-theta)` (the same inner function is in hw2-4/task4.1.1.mathstat.py:14-15); characterised by CdfAtOne, CdfRange and CdfIncreasing |
| Analysis.CdfRange | hw2-4/task4.1.3.mathstat.py:16-17 | for `x >= 1` and `theta > 0` the CDF lies in `[0, 1)` |
| Analysis.CdfIncreasing | hw2-4/task4.1.3.mathstat.py:16-17 | for `theta > 0` the CDF is strictly increasing on positive `x` |
| Analysis.QuantileRange | hw2-4/task4.1.3.mathstat.py:28 | the quantile `(1-p)^(-1/theta)` is 1 at `p = 0` and above 1 for `0 < p < 1` |
| Analysis.ParetoQuantile | hw2-4/task4.1.3.mathstat.py:28 | the boundary `(1-p)^(-1/theta)` for probability `p`, the inverse of `pareto_cdf`; characterised by QuantileRange and QuantileIncreasing |
| Analysis.QuantileIncreasing | hw2-4/task4.1.3.mathstat.py:27-29 | the quantile is strictly increasing in `p` |
| Analysis.LogSumOfParetoSample | hw2-4/task3.1.mathstat.py:33 | on values `>= 1` the log-sum is `>= 0`, and it is 0 exactly when every value is 1 |
| Analysis.LogSum | hw2-4/4.1.5.mathstat.py:39 | `sum(log(x) for x in sample)`, accumulated left to right; characterised by LogSumOfParetoSample (non-negative on values `>= 1`, zero iff all values are 1) |
| Analysis.ParetoMle | hw2-4/task3.1.mathstat.py:33-35 | `n / log_sum`, the likelihood estimate, defined when the log-sum is non-zero; characterised by MleSolves (it solves `theta * log_sum = n`) |
| Analysis.MleSolves | hw2-4/4.1.5.mathstat.py:39 | `theta_est = n / sum(ln x)` solves `theta_est * sum(ln x) = n`; it is non-zero on a non-empty sample and positive when the log-sum is positive |
| Sturges.Log2Floor | hw2-4/task4.1.2.mathstat.py:13 | `int(log2 n)` is the exponent `r` with `2^r <= n < 2^(r+1)` |
| Sturges.SturgesK | hw2-4/task4.1.2.mathstat.py:12-13 | the bin count is at least 2; for `n >= 2` it is the `k` with `2^(k-1) <= n < 2^k`, i.e. `1 + floor(log2 n)`; for `n = 1` it is 2 |
| Sturges.SturgesForTen | hw2-4/task4.1.2.mathstat.py:12-13 | a sample of 10 gets 4 bins |
| DiscreteIntervals.Runs | hw2-4/task4.1.2.mathstat.py:16-26 | the closed form of the partition has exactly `k` runs |
| DiscreteIntervals.RunStart | hw2-4/task4.1.2.mathstat.py:19-25 | the value of `start` before iteration `i`: `1 + i*(theta//k) + min(i, theta%k)`; CreateIntervals proves the loop's `start` equals it, and StartStep, StartAfterLast and StartMonotone characterise it |
| DiscreteIntervals.CreateIntervals | hw2-4/task4.1.2.mathstat.py:16-26 | the builder loop returns exactly the closed-form partition `Runs(k, theta)` (the same loop is `create_intervals_discrete`, hw2-4/task4.1.6.mathstat.py:20-30) |
| DiscreteIntervals.StartStep | hw2-4/task4.1.2.mathstat.py:22-25 | each run starts `theta // k` values after the previous one, plus one more for the first `theta % k` runs |
| DiscreteIntervals.StartAfterLast | hw2-4/task4.1.2.mathstat.py:17-25 | the lengths add up to theta: one past the last run is `theta + 1` |
| DiscreteIntervals.RunsShape | hw2-4/task4.1.2.mathstat.py:19-26 | the first run starts at 1, each later run starts one past the previous end, run `i` has length `theta // k + (1 if i < theta % k)`, and the last run ends at theta |
| DiscreteIntervals.StartMonotone | hw2-4/task4.1.2.mathstat.py:20-25 | for `theta >= 0` the run starts never decrease |
| DiscreteIntervals.RunsPartition | hw2-4/task4.1.2.mathstat.py:20-25 | for `theta >= 0` a value lies in some run iff it is in `1..theta`, and it never lies in two runs |
| Pearson.Term | hw2-4/task4.1.2.mathstat.py:45-46 | one bin adds a non-negative amount, zero exactly when the expected count is not positive or the observed count equals it |
| Pearson.Chi2 | hw2-4/task4.1.2.mathstat.py:43-47 | the statistic is non-negative |
| Pearson.PearsonSum | hw2-4/task4.1.2.mathstat.py:43-47 | the accumulation loop computes `Chi2` |
| Pearson.Chi2ZeroIffFit | hw2-4/task4.1.2.mathstat.py:43-47 | the statistic is 0 exactly when observed equals expected in every bin with positive expected count |
| Pearson.Chi2IgnoresEmptyBins | hw2-4/task4.1.2.mathstat.py:45 | changing the observed count of a bin with non-positive expected count leaves the statistic unchanged |
| Pearson.Decide | hw2-4/task4.1.2.mathstat.py:70 | the verdict keeps statistic, critical value and df, and rejects iff statistic > critical value |
| Pearson.Rejections | hw2-4/task4.1.6.mathstat.py:118 | the reject flags, verdict by verdict |
| Pearson.Statistics | hw2-4/task4.1.6.mathstat.py:117 | the chi-square statistics, verdict by verdict |
| Pearson.IndicatorSum | hw2-4/task4.1.6.mathstat.py:118 | the 0/1 indicators sum to a value in `[0, n]`, 0 iff nothing is rejected, `n` iff everything is |
| Pearson.Indicators | hw2-4/task4.1.6.mathstat.py:118 | the list `[1 if rejected else 0 ...]`, one entry per verdict; characterised by IndicatorSum (sum in `[0, n]`, 0 iff none rejected, `n` iff all rejected) |
| Pearson.RejectionPercent | hw2-4/task4.1.6.mathstat.py:118-121 | `np.mean` of no indicators is `nan` (`None`); otherwise the rejection percentage lies in `[0, 100]`, is 0 iff no series is rejected and 100 iff every series is |
| Pearson.Summary | hw2-4/task4.1.6.mathstat.py:116-121 | both the mean statistic and the percentage are `nan` (`None`) exactly when the size has no series; a defined percentage lies in `[0, 100]` and is 0 iff no verdict rejects |
| Pearson.SummaryMeanNonNegative | hw2-4/task4.1.6.mathstat.py:117 | a defined mean chi-square statistic of a size is non-negative |
| DiscreteChiSquare.FirstRun | hw2-4/task4.1.2.mathstat.py:32-35 | the scan stops at the first interval containing the value, or finds none |
| DiscreteChiSquare.Tally | hw2-4/task4.1.2.mathstat.py:31-35 | counting one value keeps the number of bins |
| DiscreteChiSquare.AddFirstRun | hw2-4/task4.1.2.mathstat.py:32-35 | the inner scan with `break` adds one to the first containing interval only (`Tally`) |
| DiscreteChiSquare.Observed | hw2-4/task4.1.2.mathstat.py:30-35 | there is one observed count per interval |
| DiscreteChiSquare.CountBetween | hw2-4/task4.1.2.mathstat.py:32-33 | the number of values in `[start, end]` is at most the sample size |
| DiscreteChiSquare.CountObserved | hw2-4/task4.1.2.mathstat.py:30-35 | the counting loop computes `Observed(sample, intervals)` |
| DiscreteChiSquare.TallyRuns | hw2-4/task4.1.2.mathstat.py:31-35 | over the runs of `1..theta`, a value raises exactly the bin whose run contains it |
| DiscreteChiSquare.TallyTotal | hw2-4/task4.1.2.mathstat.py:31-35 | counting a value adds one to the total iff some interval contains it |
| DiscreteChiSquare.ObservedTotal | hw2-4/task4.1.2.mathstat.py:30-35 | the observed counts add up to the number of values in `1..theta`; values outside count nowhere |
| DiscreteChiSquare.ExpectedCounts | hw2-4/task4.1.2.mathstat.py:37-41 | bin `i` expects `n * (len_i / theta)` |
| DiscreteChiSquare.ExpectedList | hw2-4/task4.1.2.mathstat.py:37-41 | the append loop computes `ExpectedCounts` |
| DiscreteChiSquare.RunLengthsTotal | hw2-4/task4.1.2.mathstat.py:17-25 | the run lengths add up to theta |
| DiscreteChiSquare.ExpectedSum | hw2-4/task4.1.2.mathstat.py:37-41 | intervals whose lengths add up to theta get expected counts that add up to `n` |
| DiscreteChiSquare.ExpectedTotal | hw2-4/task4.1.2.mathstat.py:37-41 | over the runs of `1..theta` the expected counts add up to `n` |
| DiscreteChiSquare.Chi2Statistic | hw2-4/task4.1.2.mathstat.py:29-47 | `chi2_statistic` is Pearson's sum over the observed and expected counts, hence non-negative |
| DiscreteChiSquare.RunsChi2 | hw2-4/task4.1.2.mathstat.py:62-69 | the statistic over Sturges' runs is non-negative |
| DiscreteChiSquare.TestedSizes | hw2-4/task4.1.2.mathstat.py:58-60 | the tested sizes are exactly the given sizes other than 5 |
| DiscreteChiSquare.KnownThetaVerdict | hw2-4/task4.1.2.mathstat.py:62-70 | with theta known, df = k - 1, the critical value is `ppf(k - 1)`, the statistic is non-negative, and the test rejects iff statistic > critical value |
| DiscreteChiSquare.KnownThetaSeries | hw2-4/task4.1.2.mathstat.py:68-70 | one series over the shared intervals gives the decision on its statistic |
| DiscreteChiSquare.KnownThetaTests | hw2-4/task4.1.2.mathstat.py:58-70 | the driver builds the intervals once per size and returns one `KnownThetaVerdict` per series |
| DiscreteChiSquare.EstimateThetaDiscrete | hw2-4/task4.1.6.mathstat.py:16-17 | the estimate is one of the sample values and at least every value |
| DiscreteChiSquare.Composite | hw2-4/task4.1.6.mathstat.py:33-63 | the composite test uses `theta_est = max`, `k = sturges_k(n)`, `df = k - 2`, `critical = ppf(k - 2)`, and its statistic is non-negative |
| DiscreteChiSquare.Chi2ComplexDiscrete | hw2-4/task4.1.6.mathstat.py:33-63 | `chi2_complex_discrete` returns exactly `Composite(sample)` |
| DiscreteChiSquare.CompositeTotals | hw2-4/task4.1.6.mathstat.py:42-53 | on values `>= 1` every value lands in exactly one bin, so the observed counts add up to `n`, and so do the expected counts |
| DiscreteChiSquare.ObservedHit | hw2-4/task4.1.6.mathstat.py:42-47 | a run that contains some sample value has a positive observed count |
| DiscreteChiSquare.LastRunHoldsTheta | hw2-4/task4.1.6.mathstat.py:20-30 | for `theta >= k` the last run contains theta |
| DiscreteChiSquare.LastBinHit | hw2-4/task4.1.6.mathstat.py:20-30 | when `theta >= k` is a sample value (as the maximum is), the last bin's observed count is at least 1 |
| DiscreteChiSquare.CompositeVerdict | hw2-4/task4.1.6.mathstat.py:82-84 | df = k - 2, the critical value is `ppf(df)`, the statistic is non-negative, and the test rejects iff statistic > critical value |
| DiscreteChiSquare.CompositeVerdicts | hw2-4/task4.1.6.mathstat.py:79-84 | one composite verdict per series, in order |
| DiscreteChiSquare.CompositeSeries | hw2-4/task4.1.6.mathstat.py:80-97 | one series yields its composite verdict and its estimate `max(sample)` |
| DiscreteChiSquare.CompositeTests | hw2-4/task4.1.6.mathstat.py:74-99 | the per-size driver returns the verdict list and the mean estimate, which is undefined exactly when there are no series |
| DiscreteChiSquare.EstimateList | hw2-4/task4.1.6.mathstat.py:97 | the recorded estimates are the sample maxima, series by series |
| DiscreteChiSquare.ThetaMeanAtLeastOne | hw2-4/task4.1.6.mathstat.py:99 | on values `>= 1` the mean estimate is at least 1 |
| ParetoChiSquare.Boundaries | hw2-4/task4.1.3.mathstat.py:20-32 | the boundary list has `k + 1` entries |
| ParetoChiSquare.CreateBoundaries | hw2-4/task4.1.3.mathstat.py:20-32 | the builder loop returns `Boundaries(max(sample), k, theta)` (the same builder is hw2-4/4.1.5.mathstat.py:21-33) |
| ParetoChiSquare.SortedLast | hw2-4/task4.1.3.mathstat.py:21-23 | the last element of the sorted sample is the maximum |
| ParetoChiSquare.BoundariesShape | hw2-4/task4.1.3.mathstat.py:22-31 | the first boundary is 1.0, boundary `j` for `0 < j < k` is the quantile at `j / k`, and the last is `1.01 * max` |
| ParetoChiSquare.BoundariesDetermined | hw2-4/task4.1.3.mathstat.py:22-31 | any list with that shape is the builder's list |
| ParetoChiSquare.BoundariesInteriorIncreasing | hw2-4/task4.1.3.mathstat.py:25-29 | for `theta > 0` the boundaries before the last one are strictly increasing |
| ParetoChiSquare.FirstBin | hw2-4/task4.1.3.mathstat.py:40-43 | the scan stops at the first `i` with `b[i] <= v < b[i+1]`, or finds none |
| ParetoChiSquare.FirstMatch | hw2-4/task4.1.3.mathstat.py:40-43 | counting one value by the scan keeps the number of bins |
| ParetoChiSquare.AddFirstMatch | hw2-4/task4.1.3.mathstat.py:40-43 | the inner scan with `break` adds one to the first matching half-open bin only |
| ParetoChiSquare.TallyPareto | hw2-4/task4.1.3.mathstat.py:39-45 | counting one value keeps the number of bins |
| ParetoChiSquare.ObservedPareto | hw2-4/task4.1.3.mathstat.py:37-45 | there is one observed count per bin, `len(boundaries) - 1` of them |
| ParetoChiSquare.CountObservedPareto | hw2-4/task4.1.3.mathstat.py:37-45 | the counting loop, with the overflow increment, computes `ObservedPareto` |
| ParetoChiSquare.TallyParetoTotal | hw2-4/task4.1.3.mathstat.py:39-45 | a value adds one for its first matching bin and one more when it is `>= b[-1]` |
| ParetoChiSquare.CountedOnceWhenIncreasing | hw2-4/task4.1.3.mathstat.py:39-45 | with strictly increasing boundaries, a value adds one iff it is `>= b[0]` |
| ParetoChiSquare.Crossing | hw2-4/task4.1.3.mathstat.py:40-43 | a value in `[b[0], b[-1])` is caught by some bin of the scan |
| ParetoChiSquare.ObservedTotalWhenIncreasing | hw2-4/task4.1.3.mathstat.py:39-45 | with strictly increasing boundaries the counts add up to the number of values `>= b[0]`; values below 1 count nowhere |
| ParetoChiSquare.DoubleCountExample | hw2-4/task4.1.3.mathstat.py:44-45 | with boundaries `[1, 3, 2]` the value 2.5 is counted twice, once by the scan and once by the overflow check |
| ParetoChiSquare.ObservedTotalWithinRange | hw2-4/task4.1.3.mathstat.py:39-45 | values in `[b[0], b[-1])` are each counted exactly once, whatever the order of the boundaries |
| ParetoChiSquare.BoundariesFromOneTo | hw2-4/task4.1.3.mathstat.py:22-31 | the builder's list runs from 1.0 to `1.01 * max` |
| ParetoChiSquare.BuilderCountsEachValueOnce | hw2-4/task4.1.3.mathstat.py:23-45 | for any boundaries running from 1.0 to `1.01 * top` (as the builder's do, by `BoundariesFromOneTo`), every value in `[1, top]` is counted exactly once, so the counts add up to `n` |
| ParetoChiSquare.ExpectedPareto | hw2-4/task4.1.3.mathstat.py:47-51 | there is one expected count per bin |
| ParetoChiSquare.ExpectedListPareto | hw2-4/task4.1.3.mathstat.py:48-51 | the loop computes `ExpectedPareto` |
| ParetoChiSquare.ExpectedPrefixTelescopes | hw2-4/task4.1.3.mathstat.py:49-51 | the first `i` expected counts add up to `n * (F(b[i]) - F(b[0]))` |
| ParetoChiSquare.ExpectedTelescopes | hw2-4/task4.1.3.mathstat.py:47-51 | the expected counts add up to `n * (F(b[k]) - F(b[0]))` |
| ParetoChiSquare.TelescopeFromOne | hw2-4/task4.1.3.mathstat.py:47-51 | with `b[0] = 1` the expected counts add up to `n * F(b[k])` |
| ParetoChiSquare.BuilderExpectedShort | hw2-4/task4.1.3.mathstat.py:47-51 | for boundaries running from 1.0 to `1.01 * top`, with `top >= 1` and `theta > 0`, the expected counts add up to `n * F(1.01 * top)`, which is strictly less than `n` |
| ParetoChiSquare.Chi2StatisticPareto | hw2-4/task4.1.3.mathstat.py:35-57 | `chi2_statistic_pareto` is Pearson's sum over `ObservedPareto` and `ExpectedPareto`, hence non-negative |
| ParetoChiSquare.BinnedChi2 | hw2-4/task4.1.3.mathstat.py:75-76 | the statistic over the built boundaries is non-negative |
| ParetoChiSquare.BinnedStatistic | hw2-4/task4.1.3.mathstat.py:75-76 | building the boundaries and then computing the statistic gives `BinnedChi2` |
| ParetoChiSquare.KnownThetaVerdict | hw2-4/task4.1.3.mathstat.py:69-77 | with theta known, df = k - 1, the critical value is `ppf(k - 1)`, the statistic is non-negative, and the test rejects iff statistic > critical value |
| ParetoChiSquare.KnownThetaSeries | hw2-4/task4.1.3.mathstat.py:74-77 | one series yields its known-theta verdict |
| ParetoChiSquare.KnownThetaTests | hw2-4/task4.1.3.mathstat.py:68-77 | the driver returns one `KnownThetaVerdict` per series |
| ParetoChiSquare.CompositeFit | hw2-4/4.1.5.mathstat.py:36-67 | the in-sample test uses `theta_est = n / sum(ln x)` (non-zero), `k = sturges_k(n)`, `critical = ppf(k - 2)`, and a non-negative statistic |
| ParetoChiSquare.Chi2ComplexPareto | hw2-4/4.1.5.mathstat.py:36-67 | `chi2_complex_pareto` returns exactly `CompositeFit(sample)` |
| ParetoChiSquare.CompositeOnParetoSample | hw2-4/4.1.5.mathstat.py:39-57 | on values `>= 1`, not all equal to 1, the estimate is defined and positive, every value is counted once, and the expected counts add up to less than `n` |
| ParetoChiSquare.CompositeVerdict | hw2-4/4.1.5.mathstat.py:83-85 | df = k - 2 (as recorded at line 94), the critical value is `ppf(df)`, the statistic is non-negative, and the test rejects iff statistic > critical value |
| ParetoChiSquare.CompositeVerdicts | hw2-4/4.1.5.mathstat.py:80-85 | one composite verdict per series, in order |
| ParetoChiSquare.CompositeSeries | hw2-4/4.1.5.mathstat.py:81-98 | one series yields its composite verdict and its estimate |
| ParetoChiSquare.CompositeTests | hw2-4/4.1.5.mathstat.py:78-100 | the per-size driver returns the verdict list and the mean estimate, undefined exactly when there are no series |
| ParetoChiSquare.MleList | hw2-4/4.1.5.mathstat.py:98 | the recorded estimates are the in-sample estimates, series by series |
| Estimators.DiscreteUniformEstimates | hw2-4/task3.1.mathstat.py:12-20 | the likelihood estimate is a sample value and at least every value |
| Estimators.MmList | hw2-4/task3.1.mathstat.py:134-138 | one moment estimate per series |
| Estimators.MaxList | hw2-4/task3.1.mathstat.py:134-138 | one likelihood estimate per series |
| Estimators.DiscreteUniformRange | hw2-4/task3.1.mathstat.py:16-17 | for values in `[1, M]` the moment estimate `2 * mean - 1` lies in `[1, 2M - 1]` |
| Estimators.MomentBelowMle | hw2-4/task3.1.mathstat.py:16-18 | the moment estimate is at most `2 * max - 1` |
| Estimators.ParetoMm | hw2-4/task3.1.mathstat.py:27-31 | the moment estimate is defined iff the mean exceeds 1, and then equals `mean / (mean - 1)` |
| Estimators.ParetoMleOption | hw2-4/task3.1.mathstat.py:33-37 | the likelihood estimate is defined iff every value is positive and the log-sum is positive |
| Estimators.EstimatePareto | hw2-4/task3.1.mathstat.py:23-39 | `estimate_pareto`: the pair (moment estimate, likelihood estimate), each `None` where the script yields `inf`; characterised by ParetoEstimatesRange and ParetoMleDefinedOnParetoSample |
| Estimators.ParetoEstimatesRange | hw2-4/task3.1.mathstat.py:28-37 | a defined moment estimate is above 1; a defined likelihood estimate solves `theta * sum(ln x) = n` and is positive |
| Estimators.ParetoMleDefinedOnParetoSample | hw2-4/task3.1.mathstat.py:33-35 | on values `>= 1`, not all equal to 1, the likelihood estimate is defined |
| Estimators.DiscreteAverages | hw2-4/task3.1.mathstat.py:130-141 | the per-size loop averages every series' moment and likelihood estimates |
| Estimators.DiscreteAveragesOrdered | hw2-4/task3.1.mathstat.py:140-141 | the average moment estimate is at most `2 * (average maximum) - 1` |
| Estimators.DefinedListsAgree | hw2-4/task3.1.mathstat.py:151-159 | the two filtered lists have equal length, empty exactly when no series has both estimates |
| Estimators.DefinedValuesRange | hw2-4/task3.1.mathstat.py:155-157 | the kept moment estimates are above 1 and the kept likelihood estimates are positive |
| Estimators.ParetoAverages | hw2-4/task3.1.mathstat.py:147-163 | no average when no series has both estimates; otherwise the means of the filtered lists |
| Estimators.ParetoAveragesRange | hw2-4/task3.1.mathstat.py:159-161 | the averaged moment estimate is above 1 and the averaged likelihood estimate is positive |
| Estimators.OptimalUniform | hw2-4/task3.2.mathstat.py:5-21 | `estimate_theta_uniform_optimal`: the estimate computed from `n` and `max(sample)`; characterised by OptimalUniformAtLeastMax (at least the maximum) and, through OptimalFromMax, by OptimalUniformExact and ShortcutAtLeastMax |
| Estimators.OptimalFromMax | hw2-4/task3.2.mathstat.py:9-21 | the branches of `estimate_theta_uniform_optimal`: 1 for a maximum of 1, `(n+1)/n * max` from ten values on, otherwise the exact quotient with the shortcut as fallback; characterised by OptimalFromMaxAtLeast and OptimalUniformExact |
| Estimators.OptimalUniformExact | hw2-4/task3.2.mathstat.py:15-18 | for `n < 10` and `max >= 2` the denominator is positive, the estimate is `max + (max-1)^n / (max^n - (max-1)^n)`, and it is at least `max` |
| Estimators.OptimalFromMaxAtLeast | hw2-4/task3.2.mathstat.py:9-21 | for `max >= 1` the optimal uniform estimate is at least `max` in every branch |
| Estimators.OptimalUniformAtLeastMax | hw2-4/task3.2.mathstat.py:5-21 | `estimate_theta_uniform_optimal(sample)` is at least `max(sample)` |
| Estimators.ShortcutAtLeastMax | hw2-4/task3.2.mathstat.py:12-13 | `((n + 1) / n) * max` is at least `max` |
| Estimators.OptimalPareto | hw2-4/task3.2.mathstat.py:24-31 | the optimal Pareto estimate is defined iff `n > 1`, every value is positive, and the log-sum is positive |
| Estimators.OptimalParetoIsScaledMle | hw2-4/task3.2.mathstat.py:31 | when defined it is `(n - 1) / n` times the likelihood estimate, and positive |
| Estimators.NanMean | hw2-4/task3.2.mathstat.py:71 | the mean is undefined iff the list is empty or holds an undefined value |
| Estimators.OptimalUniformList | hw2-4/task3.2.mathstat.py:57-65 | one optimal uniform estimate per series |
| Estimators.OptimalParetoList | hw2-4/task3.2.mathstat.py:57-65 | one optimal Pareto estimate, possibly undefined, per series |
| Estimators.OptimalRow | hw2-4/task3.2.mathstat.py:54-71 | the per-size loop records every estimate, series by series, and their means: the uniform mean is `nan` (`None`) iff there are no series, the Pareto mean propagates `nan` |
| Estimators.OptimalRowUndefined | hw2-4/task3.2.mathstat.py:62-71 | the Pareto mean of a size is undefined iff there are no series or some series has an undefined estimate |
| Estimators.EstimateThetaWithFallback | hw2-4/task4.1.4.mathstat.py:22-25 | `estimate_theta`: `n / sum(ln x)` when the log-sum is positive, else 1.0; characterised by FallbackAgreesWithMle |
| Estimators.FallbackAgreesWithMle | hw2-4/task4.1.4.mathstat.py:22-25 | `estimate_theta` is the likelihood estimate when that is defined and 1.0 otherwise, and is positive on a non-empty sample |
| Kolmogorov.PlusDeviations | hw2-4/task4.1.1.mathstat.py:18-22 | one deviation `abs(i/n - F(x_(i)))` per order statistic |
| Kolmogorov.MinusDeviations | hw2-4/task4.1.1.mathstat.py:18-23 | one deviation `abs(F(x_(i)) - (i-1)/n)` per order statistic |
| Kolmogorov.PlusAt | hw2-4/task4.1.1.mathstat.py:18-22 | one entry of `np.abs(F_n - F)`: `abs(i/n - F(x_(i)))`, which is non-negative |
| Kolmogorov.MinusAt | hw2-4/task4.1.1.mathstat.py:18-23 | one entry of `np.abs(F - (i-1)/n)`: `abs(F(x_(i)) - (i-1)/n)`, which is non-negative |
| Kolmogorov.TwoSidedD | hw2-4/task4.1.1.mathstat.py:11-26 | `kolmogorov_statistic`: `max(max D+, max D-)` over `Sort(sample)`; characterised by TwoSidedDominates, TwoSidedAtMostOne and TwoSidedIgnoresOrder |
| Kolmogorov.TwoSidedOf | hw2-4/task4.1.1.mathstat.py:18-24 | `max(D_plus, D_minus)` over a given sorted list; characterised by OfDominates and OfAtMostOne |
| Kolmogorov.TwoSidedDominates | hw2-4/task4.1.1.mathstat.py:22-24 | `D_n` bounds every `i/n` and `(i-1)/n` deviation, so it is at least `D+` and `D-`; it is one of the deviations and non-negative |
| Kolmogorov.OfDominates | hw2-4/task4.1.1.mathstat.py:17-24 | the same bounds for the statistic over a given list `x` (the sorted copy): it bounds every deviation of `x`, is one of them, and is non-negative |
| Kolmogorov.TwoSidedAtMostOne | hw2-4/task4.1.1.mathstat.py:19-24 | when every CDF value lies in `[0, 1]`, `D_n <= 1` |
| Kolmogorov.OfAtMostOne | hw2-4/task4.1.1.mathstat.py:17-24 | the same bound over a given list `x` (the sorted copy): when every CDF value lies in `[0, 1]`, the statistic is at most 1 |
| Kolmogorov.TwoSidedIgnoresOrder | hw2-4/task4.1.1.mathstat.py:17 | `D_n` depends only on the multiset of values |
| Kolmogorov.Corrected | hw2-4/task4.1.1.mathstat.py:46 | `S = (6nD + 1) / (6 sqrt(n))` is positive for `D >= 0` |
| Kolmogorov.Reject | hw2-4/task4.1.1.mathstat.py:46-47 | the test rejects iff `S > 1.358`, i.e. iff `6nD + 1 > 1.358 * 6 sqrt(n)` |
| Kolmogorov.RejectMonotone | hw2-4/task4.1.4.mathstat.py:58 | a larger statistic never turns a rejection into an acceptance |
| Kolmogorov.OneSidedStatistic | hw2-4/task4.1.4.mathstat.py:28-41 | the loop computes the running maximum of the `i/n` deviations over the sorted copy, and `S` from it |
| Kolmogorov.RunningMaxOfNonNegative | hw2-4/task4.1.4.mathstat.py:32-38 | over non-negative values the running maximum from 0 is the maximum |
| Kolmogorov.OneSidedIsDPlus | hw2-4/task4.1.4.mathstat.py:33-38 | the one-sided `Dn` equals `D+` and is at most the two-sided `D_n` on the same inputs |
| Kolmogorov.OneSidedIgnoresOrder | hw2-4/task4.1.4.mathstat.py:30 | the one-sided `Dn` depends only on the multiset of values |
| Empirical.CountBelow | hw2/task2.2.1.mathstat.py:13 | `#{x < t}` is at most the sample size |
| Empirical.CountBelowNone | hw2/task2.2.1.mathstat.py:13 | no value is counted iff `t` is at most every value |
| Empirical.CountBelowAll | hw2/task2.2.1.mathstat.py:13 | every value is counted iff every value is below `t` |
| Empirical.CountBelowMonotone | hw2/task2.2.1.mathstat.py:13 | the count is non-decreasing in `t` |
| Empirical.EmpiricalCdf | hw2/task2.2.1.mathstat.py:12-14 | `empirical_cdf` lies in `[0, 1]` |
| Empirical.EmpiricalMonotone | hw2/task2.2.1.mathstat.py:12-14 | `empirical_cdf` is non-decreasing in `t` |
| Empirical.EmpiricalEnds | hw2/task2.2.1.mathstat.py:12-14 | it is 0 iff `t` is at most every value and 1 iff every value is below `t` |
| Empirical.CdfValues | hw2/task2.2.1.mathstat.py:28-31 | `f_values` holds each series' value at `t`, in order |
| Empirical.AveragedCdf | hw2/task2.2.1.mathstat.py:32 | the averaged value lies in `[0, 1]` |
| Empirical.AverageAt | hw2/task2.2.1.mathstat.py:26-32 | the inner loop computes `AveragedCdf` |
| Empirical.AveragedMonotone | hw2/task2.2.1.mathstat.py:25-33 | the averaged value is non-decreasing in `t` |
| Empirical.AveragedZero | hw2/task2.2.1.mathstat.py:25-33 | the averaged value is 0 iff `t` is at most every value of every series |
| Empirical.AveragedZeroBelowAll | hw2-4/task2.2.3.mathstat.py:21-27 | at `t` no larger than every value, the average is 0 |
| Empirical.AveragedPositive | hw2/task2.2.1.mathstat.py:25-33 | a value below `t` in any series makes the average positive |
| Empirical.AveragedBelowOne | hw2-4/task2.2.2.mathstat.py:27-34 | a value at or above `t` in any series keeps the average below 1 |
| Empirical.AveragedList | hw2/task2.2.1.mathstat.py:25-33 | one averaged value per grid point, in order |
| Empirical.AveragedOnGrid | hw2/task2.2.1.mathstat.py:25-33 | the loop over `t` computes `AveragedList` |
| Empirical.AveragedListSorted | hw2-4/task2.2.2.mathstat.py:27-34 | along a sorted grid the averages are non-decreasing |
| Empirical.IntGrid | hw2-4/task2.2.3.mathstat.py:21 | `range(1, theta + 1)` is the strictly increasing list `1..theta` |
| Empirical.Table | hw2-4/task2.2.3.mathstat.py:19-28 | one averaged list per sample size |
| Empirical.AveragedTable | hw2-4/task2.2.3.mathstat.py:19-28 | the loop over sizes computes `Table` |
| Empirical.DiscreteTableStartsAtZero | hw2-4/task2.2.3.mathstat.py:19-28 | for values `>= 1` every size's average at `t = 1` is 0, and every entry lies in `[0, 1]` |
| Empirical.Pool | hw2-4/task2.2.2.mathstat.py:21-24 | the pooled list holds every value of every series and nothing else |
| Empirical.PooledGrid | hw2-4/task2.2.2.mathstat.py:25 | `unique_values` is strictly increasing and holds exactly the pooled values |
| Empirical.PooledAverages | hw2-4/task2.2.2.mathstat.py:21-34 | the loop pools, sorts, deduplicates and averages on that grid |
| Empirical.FirstPointIsMin | hw2-4/task2.2.2.mathstat.py:25 | the first grid point is no larger than any pooled value |
| Empirical.GridStartsAtZero | hw2-4/task2.2.2.mathstat.py:25-34 | on such a grid the averages are non-decreasing and start at 0 |
| Empirical.PooledGridFacts | hw2-4/task2.2.2.mathstat.py:21-25 | the grid is non-empty, holds every value, and its last point is a sample value |
| Empirical.GridEndsBelowOne | hw2-4/task2.2.2.mathstat.py:27-34 | at a grid point that is itself a sample value the average is below 1 |
| Empirical.PooledAveragesShape | hw2-4/task2.2.2.mathstat.py:25-34 | the averages on the pooled grid are non-decreasing, 0 at the smallest point and below 1 at the largest |
| Empirical.PoolAll | hw2/task2.2.4.mathstat.py:16-20 | the pool holds every value of every series at every size, and nothing else |
| Empirical.AppendSeries | hw2/task2.2.4.mathstat.py:18-20 | the inner loop appends the pool of one size |
| Empirical.AllPoints | hw2/task2.2.4.mathstat.py:16-21 | `all_points` is strictly increasing and holds exactly the values of all series at all sizes |
| Empirical.AllPointsShape | hw2/task2.2.4.mathstat.py:21-37 | on `all_points` each size's averages are non-decreasing and start at 0 |
| Empirical.Diffs | hw2-4/task2.2.3.mathstat.py:40 | one `abs(F_n(t) - F_m(t))` per grid point |
| Empirical.SupDifference | hw2-4/task2.2.3.mathstat.py:38-42 | the loop computes the running maximum of the differences |
| Empirical.SupInUnit | hw2-4/task2.2.3.mathstat.py:38-42 | for averages in `[0, 1]`, `sup_diff` lies in `[0, 1]` |
| Empirical.Scale | hw2-4/task2.2.3.mathstat.py:43 | `sqrt(nm / (m + n))` is non-negative |
| Empirical.Statistic | hw2-4/task2.2.3.mathstat.py:43 | `D_mn` is non-negative |
| Empirical.PairStatistic | hw2-4/task2.2.3.mathstat.py:38-43 | one pair `n < m` yields `D_mn` over the running maximum |
| Empirical.Entry | hw2-4/task2.2.3.mathstat.py:35-44 | an entry is `D_mn` when `n < m` and 0 otherwise, always non-negative |
| Empirical.TwoSampleMatrix | hw2-4/task2.2.3.mathstat.py:33-44 | the fresh matrix holds `Entry(i, j)` at every position: only `n < m` entries are written, the rest stay 0 (the same loop is hw2/task2.2.4.mathstat.py:40-54) |
| Empirical.FillRow | hw2-4/task2.2.3.mathstat.py:36-44 | one row is filled and every other row is unchanged |
| Empirical.WriteEntry | hw2-4/task2.2.3.mathstat.py:37-44 | one entry is written and every other entry is unchanged |
| Frequencies.Count | hw2/task2.3.1.mathstat.py:18 | `sample.count(t)` is at most the sample size |
| Frequencies.CountUpTo | hw2/task2.3.1.mathstat.py:17-18 | the number of values in `1..t` is at most the sample size |
| Frequencies.CountUpToNone | hw2/task2.3.1.mathstat.py:17 | no value lies in `1..0` |
| Frequencies.CountUpToStep | hw2/task2.3.1.mathstat.py:17-18 | counting the values in `1..t+1` adds the count of `t + 1` to the count in `1..t` |
| Frequencies.CountUpToAll | hw2/task2.3.1.mathstat.py:17-18 | when every value is in `1..theta`, the values in `1..theta` are all of them |
| Frequencies.RelFreq | hw2/task2.3.1.mathstat.py:18-19 | the relative frequency lies in `[0, 1]` |
| Frequencies.SampleFreqs | hw2/task2.3.1.mathstat.py:16-19 | `sample_freq` holds the relative frequency of each `t` in `1..theta` |
| Frequencies.SampleFrequencies | hw2/task2.3.1.mathstat.py:16-19 | the loop over `t` computes `SampleFreqs` |
| Frequencies.SampleFreqsTotal | hw2/task2.3.1.mathstat.py:17-19 | the frequencies over `1..theta` add up to `#{values in 1..theta} / len` |
| Frequencies.SampleFreqsSumToOne | hw2/task2.3.1.mathstat.py:17-19 | they add up to 1 when every value is in range |
| Frequencies.Plus | hw2/task2.3.1.mathstat.py:20-21 | adding a series' frequencies works entry by entry |
| Frequencies.SumPlus | hw2/task2.3.1.mathstat.py:20-21 | the total after adding is the sum of the two totals |
| Frequencies.AddFrequencies | hw2/task2.3.1.mathstat.py:20-21 | the in-place adding loop computes `Plus(frequency_sum, sample_freq)` |
| Frequencies.FreqSum | hw2/task2.3.1.mathstat.py:13-21 | `frequency_sum` has one entry per `t` in `1..theta` |
| Frequencies.Column | hw2/task2.3.1.mathstat.py:18-19 | the relative frequency of `t` in each series, in order |
| Frequencies.CalculateAveragedFrequencies | hw2/task2.3.1.mathstat.py:12-24 | the function computes `Averaged(series, theta, num_series)` |
| Frequencies.Averaged | hw2/task2.3.1.mathstat.py:23 | there is one averaged frequency per `t` in `1..theta` |
| Frequencies.FreqSumIsColumnSum | hw2/task2.3.1.mathstat.py:13-21 | `frequency_sum[t]` is the sum over all series of their relative frequency of `t` |
| Frequencies.FreqSumRange | hw2/task2.3.1.mathstat.py:13-21 | each summed frequency lies between 0 and the number of series |
| Frequencies.FreqSumTotal | hw2/task2.3.1.mathstat.py:13-21 | with all values in range, the summed frequencies add up to the number of series |
| Frequencies.AveragedSum | hw2/task2.3.1.mathstat.py:23 | the averages add up to `len(series) / num_series`, hence to 1 when the declared count matches |
| Frequencies.AveragedRange | hw2/task2.3.1.mathstat.py:23 | with as many series as declared, each average lies in `[0, 1]` |
| Frequencies.AveragedIsColumnMean | hw2/task2.3.1.mathstat.py:23 | with as many series as declared, the averaged frequency of `t` is the mean of the per-series frequencies of `t` |
| Frequencies.Theoretical | hw2/task2.3.1.mathstat.py:26 | one density value per `t` in `1..theta` |
| Frequencies.TheoreticalSumsToOne | hw2/task2.3.1.mathstat.py:26 | the density `1 / theta` adds up to 1 over `1..theta` |
| Moments.SquaredDeviations | hw2/task2.4.1.mathstat.py:19 | entry `i` is `(x_i - c)^2` |
| Moments.Variance | hw2/task2.4.1.mathstat.py:18-20 | the biased `s^2 = sum((x - x_bar)^2) / n`; characterised by VarianceNonNegative and VarianceZeroIff |
| Moments.MeanBetween | hw2/task2.4.1.mathstat.py:18 | `min(sample) <= x_bar <= max(sample)` |
| Moments.DeviationsNonNegative | hw2/task2.4.1.mathstat.py:19 | the sum of squared deviations from any centre is non-negative |
| Moments.VarianceNonNegative | hw2/task2.4.1.mathstat.py:19-20 | `s^2 >= 0` |
| Moments.VarianceOfConstant | hw2/task2.4.1.mathstat.py:19-20 | a sample of equal values has `s^2 = 0` |
| Moments.ConstantOfZeroVariance | hw2/task2.4.1.mathstat.py:19-20 | `s^2 = 0` forces all values to be equal |
| Moments.VarianceZeroIff | hw2/task2.4.1.mathstat.py:19-20 | `s^2 = 0` iff all values are equal |
| Moments.Means | hw2/task2.4.1.mathstat.py:18 | one `x_bar` per series |
| Moments.Variances | hw2/task2.4.1.mathstat.py:19-20 | one `s^2` per series |
| Moments.SeriesMoments | hw2/task2.4.1.mathstat.py:16-20 | one series yields its mean `sum / n` and its biased variance |
| Moments.SizeMoments | hw2/task2.4.1.mathstat.py:12-26 | the loop records one `x_bar` and one `s^2` per series, in order, and returns their arithmetic means |
| Moments.AveragesRange | hw2/task2.4.1.mathstat.py:25-26 | the averaged `s^2` is non-negative, and for values in `[lo, hi]` the averaged `x_bar` lies in `[lo, hi]` |

## Left out

- JSON loading and writing, console tables and plots, and `input()` are
  not modelled. They are I/O. The drivers take the series of one sample
  size as a parameter.
- `round(...)` applied before averaging or reporting is not modelled. It is
  presentation; the model averages the unrounded values.
- Floating point is not modelled: all arithmetic is on exact reals. NaN is
  `None` wherever the scripts let it arise.
- `chi2.ppf` is a foreign call. The model takes it as the parameter `ppf`.
- Numeric values of `x ** (-theta)`, `ln` and `sqrt` are not modelled.
  They are parameters with the stated facts only.
- Analysis.IsSqrt: states only that `sqrt` is positive on positive
  arguments, not that it squares back. The results about `S` and `D_mn`
  need no more.
- Random sample generation is not modelled (the hw1 and hw2/task2.1.x
  scripts, and `generate_pareto_sample` with the 10000-value estimate of
  hw2-4/task4.1.4.mathstat.py:7-13, 49-50). It is random.
- hw2-4/task2.3.2.mathstat.py is not part of this model. It is
  `np.histogram` plus plotting.
- `np.zeros` float counters are modelled as `nat` counts.
- The per-size loops that only print are not modelled. They print means
  of χ², rejection rates and estimates (hw2/task2.4.1.mathstat.py:10, 23,
  27; the report loops of the Kolmogorov scripts). Their values are the
  ones the modelled drivers return.
- Per-size averaging of Kolmogorov results is not modelled; it is
  reporting only.
- Estimators.OptimalUniform: uses unbounded integers. With numpy `int64`,
  `X_max ** (n + 1)` wraps around once it exceeds `2^63 - 1`
  (for `n = 9` from `X_max = 79` on). Only sizes below 10 take that branch.
- Estimators.OptimalFromMax: models the fallback of
  hw2-4/task3.2.mathstat.py:19-21 only as a `den == 0` branch. The script
  falls back on a `nan` quotient or on any exception, and numpy gives
  `inf`, not `nan`, for a non-zero numerator over 0. For an integer maximum
  and `n >= 1`, `max^n == (max-1)^n` never holds, so the branch is never
  taken; `OptimalUniformExact` proves this for `max >= 2` and `n < 10`.
- ParetoChiSquare.CreateBoundaries: requires `k >= 1`. Every caller passes
  a Sturges count, which is at least 2. It also requires `theta != 0` when
  there are interior points, where Python raises `ZeroDivisionError`, and
  a non-empty sample, where `sorted_sample[-1]` raises `IndexError`.
- DiscreteChiSquare.Chi2Statistic: requires `theta != 0`, where Python
  raises `ZeroDivisionError`.
- DiscreteChiSquare.Chi2ComplexDiscrete: requires a non-empty sample
  (`max` raises) and a maximum other than 0 (`ZeroDivisionError`).
- ParetoChiSquare.Chi2ComplexPareto: requires `CompositeDefined`, i.e. a
  non-empty sample of positive values with a non-zero log-sum. Python
  raises there (`math.log` domain error, `ZeroDivisionError`).
- The inline counting and expected-count loops of `chi2_complex_pareto`
  (hw2-4/4.1.5.mathstat.py:45-57) repeat those of `chi2_statistic_pareto`.
  They are modelled by calling the same methods.
- The `all_points` set of hw2/task2.2.4.mathstat.py:16-21 is not a set in
  the model. It is accumulated as a sequence and deduplicated by
  `SortedSet` once. Only the resulting list corresponds to the script's
  `all_points`.
- Dictionaries keyed by `t` (`frequency_sum`, `averaged_results`) are
  sequences indexed by `t - 1`.
- Every empty input on which Python raises is a precondition:
  `ZeroDivisionError` for `count / len(sample)`, `sum(...) / n` and
  `sum(f_values) / len(f_values)`, and the errors named below.
- Sturges.SturgesK: requires `n >= 1`; `int(np.log2(0))` raises
  `OverflowError`.
- Kolmogorov.TwoSidedD: requires a non-empty sample; `np.max` of an empty
  array raises `ValueError` (hw2-4/task4.1.1.mathstat.py:22-23).
- Estimators.DiscreteUniformEstimates: requires a non-empty sample;
  `np.max` raises `ValueError` (hw2-4/task3.1.mathstat.py:18).
- Estimators.OptimalUniform: requires a non-empty sample; `np.max` raises
  `ValueError` (hw2-4/task3.2.mathstat.py:7).
- Estimators.DiscreteAverages: requires a non-empty list of series. The
  script always averages its five series (`range(1, 6)`,
  hw2-4/task3.1.mathstat.py:134), so `np.mean` of an empty list, which
  gives `nan`, does not arise there.
- Moments: the identity `s^2 = mean(x^2) - x_bar^2` is not stated. The
  model relates `s^2` to the sample only through its sign and its zero
  case.
