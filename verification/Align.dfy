/** Multiples and rounding, without division. */
module Align {

  /** x is a multiple of m. */
  predicate Aligned(x: nat, m: nat)
    requires m >= 1
    decreases x
  {
    x == 0 || (x >= m && Aligned(x - m, m))
  }

  /** round_down(x, m) */
  function RoundDown(x: nat, m: nat): (r: nat)
    requires m >= 1
    ensures r <= x < r + m && Aligned(r, m)
    decreases x
  {
    if x < m then 0 else RoundDown(x - m, m) + m
  }

  /** round_up(x, m) */
  function RoundUp(x: nat, m: nat): (r: nat)
    requires m >= 1
    ensures x <= r < x + m && Aligned(r, m)
  {
    RoundDown(x + m - 1, m)
  }

  /** Two different multiples are at least m apart. */
  lemma {:induction false} AlignedApart(a: nat, b: nat, m: nat)
    requires m >= 1 && Aligned(a, m) && Aligned(b, m) && a < b
    ensures a + m <= b
    decreases a
  {
    if a > 0 {
      AlignedApart(a - m, b - m, m);
    }
  }

  lemma {:induction false} AlignedSum(a: nat, b: nat, m: nat)
    requires m >= 1 && Aligned(a, m) && Aligned(b, m)
    ensures Aligned(a + b, m)
    decreases a
  {
    if a > 0 {
      AlignedSum(a - m, b, m);
    }
  }

  lemma {:induction false} AlignedDifference(a: nat, b: nat, m: nat)
    requires m >= 1 && Aligned(a, m) && Aligned(b, m) && b <= a
    ensures Aligned(a - b, m)
    decreases b
  {
    if b > 0 {
      AlignedApart(0, b, m);
      if a > 0 { AlignedDifference(a - m, b - m, m); }
    }
  }

  /** A multiple of a multiple. */
  lemma {:induction false} AlignedTwice(x: nat, n: nat, m: nat)
    requires m >= 1 && n >= 1 && Aligned(n, m) && Aligned(x, n)
    ensures Aligned(x, m)
    decreases x
  {
    if x > 0 {
      AlignedTwice(x - n, n, m);
      AlignedSum(x - n, n, m);
    }
  }

  /** The only multiple within reach below x is round_down(x). */
  lemma {:induction false} RoundDownIs(x: nat, r: nat, m: nat)
    requires m >= 1 && Aligned(r, m)
    ensures RoundDown(x, m) == r <==> r <= x < r + m
  {
    var d := RoundDown(x, m);
    if d < r {
      AlignedApart(d, r, m);
    } else if r < d {
      AlignedApart(r, d, m);
    }
  }
}
