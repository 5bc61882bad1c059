/** Sturges' rule for the number of chi-square bins, `max(2, 1 + int(log2(n)))`,
    shared by every chi-square script. */
module Sturges {

  function Pow2(e: nat): (r: nat)
    ensures r >= 1
  {
    if e == 0 then 1 else 2 * Pow2(e - 1)
  }

  /** `int(log2(n))` for `n >= 1`: the exponent of the largest power of two
      not above `n`. */
  function Log2Floor(n: nat): (r: nat)
    requires n >= 1
    ensures Pow2(r) <= n < Pow2(r + 1)
  {
    if n == 1 then 0 else 1 + Log2Floor(n / 2)
  }

  /** The bin count for a sample of size `n`. For `n >= 2` it is the `k` with
      `2^(k-1) <= n < 2^k`; for a single observation the floor of two applies. */
  function SturgesK(n: nat): (k: nat)
    requires n >= 1
    ensures k >= 2
    ensures n >= 2 ==> Pow2(k - 1) <= n < Pow2(k)
    ensures n == 1 ==> k == 2
  {
    var l := 1 + Log2Floor(n);
    if l < 2 then 2 else l
  }

  lemma SturgesForTen()
    ensures SturgesK(10) == 4
  {
    assert Log2Floor(10) == 1 + Log2Floor(5) == 2 + Log2Floor(2) == 3;
  }
}
