/** Shared vocabulary of the statistics scripts: optional estimates, sums,
    extrema and counts over finite samples. */
module Common {

  /** An estimate that may be undefined (the scripts' `inf`, `nan` or
      "not defined" marker). */
  datatype Option<+T> = None | Some(value: T)

  function Abs(x: real): (r: real)
    ensures r >= 0.0 && (r == x || r == -x)
  {
    if x < 0.0 then -x else x
  }

  /** The larger of two reals; on a tie, the first (a running maximum that
      is only replaced by a strictly larger value). */
  function Max(a: real, b: real): (r: real)
    ensures r >= a && r >= b && (r == a || r == b)
  {
    if b > a then b else a
  }

  /** Sum of reals, accumulated left to right. */
  function Sum(s: seq<real>): real
  {
    if |s| == 0 then 0.0 else Sum(s[..|s| - 1]) + s[|s| - 1]
  }

  /** Sum of counts. */
  function Total(s: seq<nat>): nat
  {
    if |s| == 0 then 0 else Total(s[..|s| - 1]) + s[|s| - 1]
  }

  /** Arithmetic mean, as `sum(xs) / len(xs)`. */
  function Mean(s: seq<real>): real
    requires |s| > 0
  {
    Sum(s) / |s| as real
  }

  function ToReals(s: seq<int>): (r: seq<real>)
    ensures |r| == |s|
    ensures forall i :: 0 <= i < |s| ==> r[i] == s[i] as real
  {
    seq(|s|, i requires 0 <= i < |s| => s[i] as real)
  }

  function Zeros(k: nat): (r: seq<nat>)
    ensures |r| == k && Total(r) == 0
    ensures forall i :: 0 <= i < k ==> r[i] == 0
  {
    if k == 0 then [] else Zeros(k - 1) + [0]
  }

  /** Largest element of a non-empty integer sample. */
  function MaxOf(s: seq<int>): (m: int)
    requires |s| > 0
    ensures m in s
    ensures forall i :: 0 <= i < |s| ==> s[i] <= m
  {
    if |s| == 1 then s[0]
    else
      var m := MaxOf(s[..|s| - 1]);
      assert forall i :: 0 <= i < |s| - 1 ==> s[..|s| - 1][i] == s[i];
      if s[|s| - 1] > m then s[|s| - 1] else m
  }

  /** Largest element of a non-empty real sample. Kept beside `MaxOf`
      because the discrete scripts need the maximum as an integer (it is
      `theta_est` and the base of integer powers), while the Pareto and
      Kolmogorov scripts take it over real samples. */
  function MaxReal(s: seq<real>): (m: real)
    requires |s| > 0
    ensures m in s
    ensures forall i :: 0 <= i < |s| ==> s[i] <= m
  {
    if |s| == 1 then s[0]
    else
      var m := MaxReal(s[..|s| - 1]);
      assert forall i :: 0 <= i < |s| - 1 ==> s[..|s| - 1][i] == s[i];
      if s[|s| - 1] > m then s[|s| - 1] else m
  }

  /** Smallest element of a non-empty real sample. */
  function MinReal(s: seq<real>): (m: real)
    requires |s| > 0
    ensures m in s
    ensures forall i :: 0 <= i < |s| ==> m <= s[i]
  {
    if |s| == 1 then s[0]
    else
      var m := MinReal(s[..|s| - 1]);
      assert forall i :: 0 <= i < |s| - 1 ==> s[..|s| - 1][i] == s[i];
      if s[|s| - 1] < m then s[|s| - 1] else m
  }

  /** The sign of a quotient by a positive divisor is the sign of the dividend. */
  lemma QuotientSign(a: real, b: real)
    requires b > 0.0
    ensures a > 0.0 ==> a / b > 0.0
    ensures a >= 0.0 ==> a / b >= 0.0
    ensures a == 0.0 ==> a / b == 0.0
  {
    var q := a / b;
    assert q * b == a;
    if q < 0.0 {
      assert (-q) * b > 0.0;
    } else if q > 0.0 {
      assert q * b > 0.0;
    }
  }

  /** `(m * d + p) / d == m + p / d`. */
  lemma SplitQuotient(m: real, p: real, d: real)
    requires d > 0.0
    ensures (m * d + p) / d == m + p / d
  {
    var q := p / d;
    assert q * d == p;
    assert (m + q) * d == m * d + p;
  }

  /** Division by a positive number keeps the order. */
  lemma QuotientMonotone(x: real, y: real, d: real)
    requires d > 0.0 && x <= y
    ensures x / d <= y / d
  {
    SplitQuotient(x / d, y - x, d);
    assert (x / d) * d == x;
    QuotientSign(y - x, d);
  }

  /** For a positive divisor, comparing `a / b` with `c` is comparing `a`
      with `c * b`. */
  lemma QuotientCompare(a: real, b: real, c: real)
    requires b > 0.0
    ensures a / b > c <==> a > c * b
    ensures a / b < c <==> a < c * b
  {
    SplitQuotient(c, a - c * b, b);
    assert c * b + (a - c * b) == a;
    ScaleQuotient(-1.0, c * b - a, b);
    assert -1.0 * (c * b - a) == a - c * b;
    QuotientSign(c * b - a, b);
    QuotientSign(a - c * b, b);
  }

  /** `(c * x) / d == c * (x / d)`. */
  lemma ScaleQuotient(c: real, x: real, d: real)
    requires d > 0.0
    ensures (c * x) / d == c * (x / d)
  {
    var q := x / d;
    assert q * d == x;
    assert (c * q) * d == c * x;
  }

  /** `d * d`, the squared deviation of Pearson's statistic. */
  function Square(d: real): real
  {
    d * d
  }

  lemma SquarePositive(d: real)
    requires d > 0.0
    ensures Square(d) > 0.0
  {
    if d >= 1.0 {
      assert d * d >= d;
    } else {
      var e := 1.0 / d;
      assert d * e == 1.0;
      assert Square(d) * e == d;
    }
  }

  /** A square is non-negative, and zero exactly at zero. */
  lemma SquareSign(d: real)
    ensures Square(d) >= 0.0
    ensures Square(d) == 0.0 <==> d == 0.0
  {
    if d > 0.0 {
      SquarePositive(d);
    } else if d < 0.0 {
      SquarePositive(-d);
      assert Square(d) == Square(-d);
    }
  }

  lemma SumSnoc(s: seq<real>, x: real)
    ensures Sum(s + [x]) == Sum(s) + x
  {
    assert (s + [x])[..|s|] == s;
  }

  lemma TotalSnoc(s: seq<nat>, x: nat)
    ensures Total(s + [x]) == Total(s) + x
  {
    assert (s + [x])[..|s|] == s;
  }

  lemma SumPrefix(s: seq<real>, m: nat)
    requires 0 < m <= |s|
    ensures Sum(s[..m]) == Sum(s[..m - 1]) + s[m - 1]
  {
    assert s[..m][..m - 1] == s[..m - 1];
  }

  /** Incrementing one count raises the total by exactly one. */
  lemma {:induction false} TotalIncrement(s: seq<nat>, i: nat)
    requires i < |s|
    ensures Total(s[i := s[i] + 1]) == Total(s) + 1
  {
    var t := s[i := s[i] + 1];
    if i == |s| - 1 {
      assert t[..|t| - 1] == s[..|s| - 1];
    } else {
      assert t[..|t| - 1] == s[..|s| - 1][i := s[i] + 1];
      TotalIncrement(s[..|s| - 1], i);
    }
  }

  /** Every element bounded by `lo` and `hi` bounds the sum by `n*lo` and `n*hi`. */
  lemma {:induction false} SumBounds(s: seq<real>, lo: real, hi: real)
    requires forall i :: 0 <= i < |s| ==> lo <= s[i] <= hi
    ensures |s| as real * lo <= Sum(s) <= |s| as real * hi
  {
    if |s| > 0 {
      SumBounds(s[..|s| - 1], lo, hi);
    }
  }

  /** The mean of values in `[lo, hi]` is in `[lo, hi]`. */
  lemma MeanBounds(s: seq<real>, lo: real, hi: real)
    requires |s| > 0
    requires forall i :: 0 <= i < |s| ==> lo <= s[i] <= hi
    ensures lo <= Mean(s) <= hi
  {
    SumBounds(s, lo, hi);
    var n := |s| as real;
    assert Sum(s) / n >= lo by { assert Sum(s) >= n * lo; }
    assert Sum(s) / n <= hi by { assert Sum(s) <= n * hi; }
  }

  /** A sum of constants. */
  lemma {:induction false} SumConstant(s: seq<real>, c: real)
    requires forall i :: 0 <= i < |s| ==> s[i] == c
    ensures Sum(s) == |s| as real * c
  {
    if |s| > 0 {
      SumConstant(s[..|s| - 1], c);
    }
  }

  lemma MeanConstant(s: seq<real>, c: real)
    requires |s| > 0
    requires forall i :: 0 <= i < |s| ==> s[i] == c
    ensures Mean(s) == c
  {
    SumConstant(s, c);
  }

  /** The running maximum of a sequence from a start of 0, replaced only
      by a strictly larger value. It is not negative, bounds every entry,
      and is 0 or one of the entries. */
  function RunningMax(s: seq<real>): (m: real)
    ensures m >= 0.0
    ensures forall i :: 0 <= i < |s| ==> s[i] <= m
    ensures m == 0.0 || m in s
  {
    if |s| == 0 then 0.0
    else
      var prev := RunningMax(s[..|s| - 1]);
      assert forall i :: 0 <= i < |s| - 1 ==> s[..|s| - 1][i] == s[i];
      Max(prev, s[|s| - 1])
  }

  /** The prefix one longer is the prefix plus the next element. */
  lemma PrefixExtend<T>(s: seq<T>, i: nat)
    requires i < |s|
    ensures s[..i + 1] == s[..i] + [s[i]]
  {
  }

  /** Pointwise order carries over to the sums. */
  lemma {:induction false} SumMonotone(a: seq<real>, b: seq<real>)
    requires |a| == |b|
    requires forall i :: 0 <= i < |a| ==> a[i] <= b[i]
    ensures Sum(a) <= Sum(b)
  {
    if |a| > 0 {
      SumMonotone(a[..|a| - 1], b[..|b| - 1]);
    }
  }

  /** ... and a strict gap at one position makes the sums differ strictly. */
  lemma {:induction false} SumStrict(a: seq<real>, b: seq<real>, k: nat)
    requires |a| == |b| && k < |a|
    requires forall i :: 0 <= i < |a| ==> a[i] <= b[i]
    requires a[k] < b[k]
    ensures Sum(a) < Sum(b)
  {
    var m := |a| - 1;
    if k == m {
      SumMonotone(a[..m], b[..m]);
    } else {
      SumStrict(a[..m], b[..m], k);
    }
  }
}
