/** `create_intervals` / `create_intervals_discrete`: the split of the integer
    support `1..theta` into `k` contiguous runs of near-equal length. The two
    scripts carry the same code; it is modelled once. */
module DiscreteIntervals {

  /** The closed integer run `low..high`; empty when `high == low - 1`. */
  datatype Interval = Interval(low: int, high: int)
  {
    function Length(): int
    {
      high - low + 1
    }

    predicate Contains(v: int)
    {
      low <= v <= high
    }
  }

  function Min(a: int, b: int): int
  {
    if a < b then a else b
  }

  /** Where run `i` starts: every earlier run has `theta / k` values, and the
      first `theta % k` runs one more. */
  function RunStart(k: nat, theta: int, i: nat): int
    requires k >= 1
  {
    1 + i * (theta / k) + Min(i, theta % k)
  }

  /** Closed form of the partition: run `i` ends just before run `i + 1` starts. */
  function Runs(k: nat, theta: int): (r: seq<Interval>)
    requires k >= 1
    ensures |r| == k
  {
    seq(k, i requires 0 <= i < k => Interval(RunStart(k, theta, i), RunStart(k, theta, i + 1) - 1))
  }

  lemma StartStep(k: nat, theta: int, i: nat)
    requires k >= 1
    ensures RunStart(k, theta, i + 1) == RunStart(k, theta, i) + theta / k + (if i < theta % k then 1 else 0)
  {
    assert (i + 1) * (theta / k) == i * (theta / k) + theta / k;
  }

  /** One past the last run is one past `theta`. */
  lemma StartAfterLast(k: nat, theta: int)
    requires k >= 1
    ensures RunStart(k, theta, k) == theta + 1
  {
    assert Min(k, theta % k) == theta % k;
    assert k * (theta / k) + theta % k == theta;
  }

  /** The loop of `create_intervals`, which advances `start` past each run it
      appends, produces exactly the closed-form partition. */
  method CreateIntervals(k: nat, theta: int) returns (intervals: seq<Interval>)
    requires k >= 1
    ensures intervals == Runs(k, theta)
  {
    var baseLen := theta / k;
    var remainder := theta % k;
    intervals := [];
    var start := 1;
    for i := 0 to k
      invariant |intervals| == i
      invariant start == RunStart(k, theta, i)
      invariant forall j :: 0 <= j < i ==> intervals[j] == Runs(k, theta)[j]
    {
      var length := baseLen + (if i < remainder then 1 else 0);
      var end := start + length - 1;
      StartStep(k, theta, i);
      intervals := intervals + [Interval(start, end)];
      start := end + 1;
    }
  }

  /** The shape promised by the builder: `k` runs, the first starting at 1,
      each later one starting one past the previous end, the first
      `theta % k` of length `theta / k + 1` and the rest of length
      `theta / k`, the last ending at `theta`. */
  lemma RunsShape(k: nat, theta: int)
    requires k >= 1
    ensures Runs(k, theta)[0].low == 1
    ensures forall i :: 0 < i < k ==> Runs(k, theta)[i].low == Runs(k, theta)[i - 1].high + 1
    ensures forall i :: 0 <= i < k ==>
      Runs(k, theta)[i].Length() == theta / k + (if i < theta % k then 1 else 0)
    ensures Runs(k, theta)[k - 1].high == theta
  {
    forall i | 0 <= i < k
      ensures Runs(k, theta)[i].Length() == theta / k + (if i < theta % k then 1 else 0)
    {
      StartStep(k, theta, i);
    }
    StartAfterLast(k, theta);
  }

  lemma {:induction false} StartMonotone(k: nat, theta: int, i: nat, j: nat)
    requires k >= 1 && theta >= 0
    requires i <= j
    ensures RunStart(k, theta, i) <= RunStart(k, theta, j)
  {
    if i < j {
      StartMonotone(k, theta, i, j - 1);
      StartStep(k, theta, j - 1);
    }
  }

  /** For `theta >= 0` the runs partition `1..theta`: a value lies in some run
      exactly when it is in `1..theta`, and never in two runs. */
  lemma RunsPartition(k: nat, theta: int, v: int)
    requires k >= 1 && theta >= 0
    ensures (exists i :: 0 <= i < k && Runs(k, theta)[i].Contains(v)) <==> 1 <= v <= theta
    ensures forall i, j ::
      0 <= i < k && 0 <= j < k && Runs(k, theta)[i].Contains(v) && Runs(k, theta)[j].Contains(v) ==> i == j
  {
    var r := Runs(k, theta);
    StartAfterLast(k, theta);
    forall i | 0 <= i < k && r[i].Contains(v)
      ensures 1 <= v <= theta
    {
      StartMonotone(k, theta, 0, i);
      StartMonotone(k, theta, i + 1, k);
    }
    if 1 <= v <= theta {
      var i := 0;
      while RunStart(k, theta, i + 1) <= v
        invariant 0 <= i < k
        invariant RunStart(k, theta, i) <= v
        decreases k - i
      {
        i := i + 1;
      }
      assert r[i].Contains(v);
    }
    forall i, j | 0 <= i < k && 0 <= j < k && r[i].Contains(v) && r[j].Contains(v)
      ensures i == j
    {
      if i < j {
        StartMonotone(k, theta, i + 1, j);
      } else if j < i {
        StartMonotone(k, theta, j + 1, i);
      }
    }
  }
}
