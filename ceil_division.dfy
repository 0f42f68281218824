/** ceil_division: the ceiling of an unsigned integer quotient. */
module Ceiling {
  import opened Bytes

  /** ceil(numerator / denominator), as ((numerator - 1) / denominator) + 1 for a non-zero numerator. */
  function CeilDivision(numerator: uint32, denominator: uint32): (r: uint32)
    requires denominator > 0
    ensures r <= numerator
    ensures r == 0 <==> numerator == 0
  {
    if numerator == 0 then 0
    else
      var q := (numerator - 1) / denominator;
      assert q <= numerator - 1 by {
        assert numerator - 1 == q * denominator + (numerator - 1) % denominator;
        MulMono(q, denominator);
      }
      q + 1
  }

  /** The result is the ceiling: r * d covers n, and (r - 1) * d falls short of it. */
  lemma CeilBounds(n: uint32, d: uint32)
    requires d > 0
    ensures CeilDivision(n, d) * d >= n
    ensures (CeilDivision(n, d) - 1) * d < n
  {
    if n > 0 {
      var q := (n - 1) / d;
      var rem := (n - 1) % d;
      assert n - 1 == q * d + rem;
      assert (q + 1) * d == q * d + d;
    }
  }

  lemma MulMono(q: nat, d: nat)
    requires d >= 1
    ensures q <= q * d
  {
    assert q * d == q + q * (d - 1);
  }

  lemma MulLe(a: int, b: int, d: nat)
    requires a <= b
    ensures a * d <= b * d
  {
    assert b * d == a * d + (b - a) * d;
  }

  /** Any k whose multiple covers the numerator is at least the ceiling. */
  lemma CeilIsLeast(n: uint32, d: uint32, k: nat)
    requires d > 0 && k * d >= n
    ensures CeilDivision(n, d) <= k
  {
    var r := CeilDivision(n, d);
    CeilBounds(n, d);
    if k < r {
      MulLe(k, r - 1, d);
    }
  }

  /** The two contract bounds pin the result down: it is the exact ceiling. */
  lemma CeilUnique(n: uint32, d: uint32, r: nat)
    requires d > 0 && r * d >= n && (r - 1) * d < n
    ensures r == CeilDivision(n, d)
  {
    var c := CeilDivision(n, d);
    CeilBounds(n, d);
    CeilIsLeast(n, d, r);
    if c < r {
      MulLe(c, r - 1, d);
    }
  }

  /** The cases the library's tests check: (numerator, denominator) gives r. */
  lemma TestCases(n: uint32, d: uint32, r: nat)
    requires (n, d, r) in {(0, 1, 0), (1, 1, 1), (1, 2, 1), (2, 1, 2), (10, 3, 4), (3, 10, 1)}
    ensures CeilDivision(n, d) == r
  {
    CeilUnique(n, d, r);
  }
}
