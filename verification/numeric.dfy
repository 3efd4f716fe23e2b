/**
 * Exact arithmetic shared by the model: sums of real sequences (Python's `sum`
 * and `np.sum`, without floating-point rounding), complex amplitudes and powers
 * of two.
 */
module Numeric {

  /** Sum of a sequence, accumulated from left to right. */
  function Sum(xs: seq<real>): real
  {
    if xs == [] then 0.0 else Sum(xs[..|xs| - 1]) + xs[|xs| - 1]
  }

  predicate AllNonNegative(xs: seq<real>)
  {
    forall i :: 0 <= i < |xs| ==> 0.0 <= xs[i]
  }

  lemma {:induction false} SumAppend(a: seq<real>, b: seq<real>)
    ensures Sum(a + b) == Sum(a) + Sum(b)
    decreases |b|
  {
    if b == [] {
      assert a + b == a;
    } else {
      var b' := b[..|b| - 1];
      assert (a + b)[..|a + b| - 1] == a + b';
      SumAppend(a, b');
    }
  }

  lemma {:induction false} SumNonNegative(xs: seq<real>)
    requires AllNonNegative(xs)
    ensures 0.0 <= Sum(xs)
  {
    if xs != [] {
      SumNonNegative(xs[..|xs| - 1]);
    }
  }

  /** Each entry of a non-negative sequence is at most the whole sum. */
  lemma {:induction false} EntryAtMostSum(xs: seq<real>, i: nat)
    requires AllNonNegative(xs) && i < |xs|
    ensures xs[i] <= Sum(xs)
  {
    var init := xs[..|xs| - 1];
    SumNonNegative(init);
    if i < |xs| - 1 {
      EntryAtMostSum(init, i);
    }
  }

  /** A sequence of zeros sums to zero. */
  lemma {:induction false} SumOfZeros(xs: seq<real>)
    requires forall i :: 0 <= i < |xs| ==> xs[i] == 0.0
    ensures Sum(xs) == 0.0
  {
    if xs != [] {
      SumOfZeros(xs[..|xs| - 1]);
    }
  }

  /** Dividing every entry by `t` divides the sum by `t`. */
  lemma {:induction false} SumDivided(xs: seq<real>, ys: seq<real>, t: real)
    requires t != 0.0 && |ys| == |xs|
    requires forall i :: 0 <= i < |xs| ==> ys[i] == xs[i] / t
    ensures Sum(ys) == Sum(xs) / t
  {
    if xs != [] {
      var n := |xs| - 1;
      SumDivided(xs[..n], ys[..n], t);
      assert Sum(ys) == Sum(xs[..n]) / t + xs[n] / t;
    }
  }

  /** A sum of `n` values between `lo` and `hi` lies between `n * lo` and `n * hi`. */
  lemma {:induction false} SumBetween(xs: seq<real>, lo: real, hi: real)
    requires forall i :: 0 <= i < |xs| ==> lo <= xs[i] <= hi
    ensures (|xs| as real) * lo <= Sum(xs) <= (|xs| as real) * hi
  {
    if xs != [] {
      SumBetween(xs[..|xs| - 1], lo, hi);
    }
  }

  /** A part of a positive whole is a share in [0, 1]. */
  lemma ShareInUnit(part: real, whole: real)
    requires 0.0 <= part <= whole && 0.0 < whole
    ensures 0.0 <= part / whole <= 1.0
  {
    var q := part / whole;
    assert q * whole == part;
    assert (1.0 - q) * whole == whole - part;
  }

  /** A count out of a positive total is a ratio in [0, 1], positive for a positive count. */
  lemma RatioBetweenZeroAndOne(part: nat, whole: nat)
    requires 0 < whole && part <= whole
    ensures 0.0 <= (part as real) / (whole as real) <= 1.0
    ensures 0 < part ==> 0.0 < (part as real) / (whole as real)
  {
    ShareInUnit(part as real, whole as real);
    var q := (part as real) / (whole as real);
    assert q * (whole as real) == part as real;
  }

  /** A complex amplitude of a state vector. */
  datatype Complex = Complex(re: real, im: real)

  const Zero: Complex := Complex(0.0, 0.0)
  const One: Complex := Complex(1.0, 0.0)

  /** `|z|**2`, the probability weight of an amplitude. */
  function NormSquared(z: Complex): (r: real)
    ensures 0.0 <= r
  {
    z.re * z.re + z.im * z.im
  }

  /** `2 ** n` for a natural exponent. */
  function Pow2(n: nat): (r: nat)
    ensures 1 <= r
    ensures 0 < n ==> r % 2 == 0
  {
    if n == 0 then 1 else 2 * Pow2(n - 1)
  }
}
