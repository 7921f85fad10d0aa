/**
  Column statistics shared by `standardize` (lib/pca.ts) and `standardize2D`
  (app/demo/page.tsx): the mean, the sample standard deviation with Bessel's
  correction, the `|| 1` guard that replaces a zero (or NaN) deviation, and the
  centred-and-scaled column.  Everything is stated for one column, a `Vector`.
 */
module Stats {
  import opened LinAlg

  function Mean(s: Vector): real
    requires |s| > 0
  {
    Sum(s) / |s| as real
  }

  /** `Math.pow(x, 2)`. */
  function Square(x: real): real
  {
    x * x
  }

  /**
    The product `x * y` as a term of its own.  The scaling lemmas below state
    their products with it, so that equal factors give equal products by
    substitution alone.
   */
  function Times(x: real, y: real): real
  {
    x * y
  }

  /** Sum of squared deviations of the entries of `s` from `c`. */
  function SqDev(s: Vector, c: real): real
  {
    if |s| == 0 then 0.0 else SqDev(s[..|s| - 1], c) + Square(s[|s| - 1] - c)
  }

  /**
    JavaScript's `x || 1` on a number: 0 and NaN are falsy and become 1,
    every other value is kept.  Reals have no NaN, so only 0 is replaced here;
    the one place where the code produces NaN (a single row, 0 / 0) is handled
    in `Std`.
   */
  function OrOne(x: real): (r: real)
    ensures r != 0.0
    ensures x != 0.0 ==> r == x
    ensures x == 0.0 ==> r == 1.0
  {
    if x == 0.0 then 1.0 else x
  }

  /**
    `Math.sqrt(ss / (n - 1)) || 1` for a sum of squared deviations `ss` over
    `n` rows.  With one row `ss` is 0 and `0 / 0` is NaN, which the guard
    turns into 1; with more rows the quotient is a finite real.
   */
  function GuardedStd(ss: real, n: nat, sqrt: real -> real): (d: real)
    requires n > 0
    ensures d != 0.0
  {
    if n == 1 then 1.0 else OrOne(sqrt(ss / (n - 1) as real))
  }

  /** The guarded sample standard deviation of a column. */
  function Std(s: Vector, sqrt: real -> real): real
    requires |s| > 0
  {
    GuardedStd(SqDev(s, Mean(s)), |s|, sqrt)
  }

  /** `s.map(x => (x - c) / d)`. */
  function Shifted(s: Vector, c: real, d: real): (r: Vector)
    requires d != 0.0
    ensures |r| == |s|
    ensures forall i :: 0 <= i < |s| ==> r[i] == (s[i] - c) / d
  {
    seq(|s|, i requires 0 <= i < |s| => (s[i] - c) / d)
  }

  /** The column centred on its mean and divided by its guarded deviation. */
  function Standardized(s: Vector, sqrt: real -> real): (r: Vector)
    requires |s| > 0
    ensures |r| == |s|
  {
    StdNonZero(s, sqrt);
    Shifted(s, Mean(s), Std(s, sqrt))
  }

  /** The divisor is never zero, whatever `Math.sqrt` returns. */
  lemma StdNonZero(s: Vector, sqrt: real -> real)
    requires |s| > 0
    ensures Std(s, sqrt) != 0.0
    ensures |s| == 1 ==> Std(s, sqrt) == 1.0
  {
  }

  // ---------------------------------------------------------------------------

  /** Summing a shifted column, stated without division. */
  lemma {:induction false} SumShifted(s: Vector, c: real, d: real)
    requires d != 0.0
    ensures Times(Sum(Shifted(s, c, d)), d) == Sum(s) - Times(|s| as real, c)
  {
    var t := Shifted(s, c, d);
    ShiftedTimesDivisor(s, c, d);
    SumScaledUpTo(t, s, c, d, |s|);
    SumFull(t, |s|);
    SumFull(s, |s|);
  }

  /** `SumShifted` on the first `k` entries, for any `t` with `t[i] * d == s[i] - c`. */
  lemma {:induction false} SumScaledUpTo(t: Vector, s: Vector, c: real, d: real, k: nat)
    requires |t| == |s| && k <= |s|
    requires forall i :: 0 <= i < |s| ==> Times(t[i], d) == s[i] - c
    ensures Times(Sum(t[..k]), d) == Sum(s[..k]) - Times(k as real, c)
  {
    if k > 0 {
      var j := k - 1;
      var b, e := t[j], s[j];
      assert Times(b, d) == e - c;
      SumScaledUpTo(t, s, c, d, j);
      SumSnoc(t, j);
      SumSnoc(s, j);
      ShiftStep(Sum(t[..k]), Sum(t[..j]), b, Sum(s[..k]), Sum(s[..j]), e, j as real, k as real, c, d);
    }
  }

  /** The last step of `SumScaledUpTo`, on the numbers alone. */
  lemma ShiftStep(st: real, sa: real, tk: real, ss: real, sp: real, sk: real, j: real, k: real, c: real, d: real)
    requires Times(tk, d) == sk - c && k == j + 1.0
    requires st == sa + tk && ss == sp + sk && Times(sa, d) == sp - Times(j, c)
    ensures Times(st, d) == ss - Times(k, c)
  {
  }

  /** Each standardized column sums to zero (exact arithmetic). */
  lemma CentredSumZero(s: Vector, sqrt: real -> real)
    requires |s| > 0
    ensures Sum(Standardized(s, sqrt)) == 0.0
  {
    var d := Std(s, sqrt);
    StdNonZero(s, sqrt);
    SumShifted(s, Mean(s), d);
    MeanTimesLength(s);
    ZeroFactor(Sum(Standardized(s, sqrt)), d);
  }

  /** `n` times the mean is the sum. */
  lemma MeanTimesLength(s: Vector)
    requires |s| > 0
    ensures Times(|s| as real, Mean(s)) == Sum(s)
  {
  }

  lemma ZeroFactor(x: real, d: real)
    requires d != 0.0 && Times(x, d) == 0.0
    ensures x == 0.0
  {
  }

  lemma {:induction false} SumConstant(s: Vector, c: real)
    requires forall i :: 0 <= i < |s| ==> s[i] == c
    ensures Sum(s) == |s| as real * c
  {
    if |s| > 0 {
      SumConstant(s[..|s| - 1], c);
    }
  }

  /** A constant column standardizes to all zeros, never to NaN. */
  lemma ConstantColumnToZeros(s: Vector, sqrt: real -> real)
    requires |s| > 0
    requires forall i :: 0 <= i < |s| ==> s[i] == s[0]
    ensures forall i :: 0 <= i < |s| ==> Standardized(s, sqrt)[i] == 0.0
  {
    SumConstant(s, s[0]);
    assert Mean(s) == s[0];
  }

  lemma ProductSquare(q: real, d: real, x: real)
    requires Times(q, d) == x
    ensures Times(Square(q), Times(d, d)) == Square(x)
  {
    calc {
      Square(q) * (d * d);
      (q * d) * (q * d);
      Square(x);
    }
  }

  /**
    Squared deviations of a column `t` with `t[i] * d == s[i] - c`, that is, of
    `s` shifted by `c` and divided by `d`; stated without division.
   */
  lemma SqDevScaled(t: Vector, s: Vector, c: real, d: real)
    requires |t| == |s|
    requires forall i :: 0 <= i < |s| ==> Times(t[i], d) == s[i] - c
    ensures Times(SqDev(t, 0.0), Times(d, d)) == SqDev(s, c)
  {
    SquaresScaled(t, s, c, d);
    SumTimes(Squares(t, 0.0), Squares(s, c), Times(d, d));
    SqDevAsSum(t, 0.0);
    SqDevAsSum(s, c);
  }

  /** Scaling each entry by `d` scales its square by `d * d`. */
  lemma SquaresScaled(t: Vector, s: Vector, c: real, d: real)
    requires |t| == |s|
    requires forall i :: 0 <= i < |s| ==> Times(t[i], d) == s[i] - c
    ensures forall i :: 0 <= i < |s| ==> Times(Squares(t, 0.0)[i], Times(d, d)) == Squares(s, c)[i]
  {
    forall i | 0 <= i < |s|
      ensures Times(Squares(t, 0.0)[i], Times(d, d)) == Squares(s, c)[i]
    {
      assert t[i] - 0.0 == t[i];
      ProductSquare(t[i], d, s[i] - c);
    }
  }

  /** Entries scaled one by one by `dd` give a sum scaled by `dd`. */
  lemma SumTimes(u: Vector, w: Vector, dd: real)
    requires |u| == |w|
    requires forall i :: 0 <= i < |w| ==> Times(u[i], dd) == w[i]
    ensures Times(Sum(u), dd) == Sum(w)
  {
    SumTimesUpTo(u, w, dd, |w|);
    SumFull(u, |w|);
    SumFull(w, |w|);
  }

  /** `SumTimes` on the first `k` entries. */
  lemma {:induction false} SumTimesUpTo(u: Vector, w: Vector, dd: real, k: nat)
    requires |u| == |w| && k <= |w|
    requires forall i :: 0 <= i < |w| ==> Times(u[i], dd) == w[i]
    ensures Times(Sum(u[..k]), dd) == Sum(w[..k])
  {
    if k > 0 {
      var j := k - 1;
      var b, e := u[j], w[j];
      assert Times(b, dd) == e;
      SumTimesUpTo(u, w, dd, j);
      SumSnoc(u, j);
      SumSnoc(w, j);
      TimesStep(Sum(u[..k]), Sum(u[..j]), b, Sum(w[..k]), Sum(w[..j]), e, dd);
    }
  }

  /** The last step of `SumTimesUpTo`, on the numbers alone. */
  lemma TimesStep(st: real, sa: real, b: real, ss: real, sp: real, e: real, dd: real)
    requires Times(b, dd) == e && st == sa + b && ss == sp + e && Times(sa, dd) == sp
    ensures Times(st, dd) == ss
  {
  }

  /** The whole of a sequence as its longest prefix. */
  lemma SumFull(u: Vector, n: nat)
    requires n == |u|
    ensures Sum(u[..n]) == Sum(u)
  {
    assert u[..n] == u;
  }

  /** `SqDev` is the sum of `Squares`. */
  lemma SqDevAsSum(s: Vector, c: real)
    ensures SqDev(s, c) == Sum(Squares(s, c))
  {
    SqDevIsSum(s, c, |s|);
    assert s[..|s|] == s && Squares(s, c)[..|s|] == Squares(s, c);
  }

  /** The squared deviations of the entries of `s` from `c`, one by one. */
  function Squares(s: Vector, c: real): (r: Vector)
    ensures |r| == |s|
  {
    seq(|s|, i requires 0 <= i < |s| => Square(s[i] - c))
  }

  /** `SqDev` is the sum of `Squares`, on the first `k` entries. */
  lemma {:induction false} SqDevIsSum(s: Vector, c: real, k: nat)
    requires k <= |s|
    ensures SqDev(s[..k], c) == Sum(Squares(s, c)[..k])
  {
    if k > 0 {
      var j := k - 1;
      SqDevIsSum(s, c, j);
      SqDevSnoc(s, c, j);
      SumSnoc(Squares(s, c), j);
    }
  }

  lemma SqDevSnoc(s: Vector, c: real, j: nat)
    requires j < |s|
    ensures SqDev(s[..j + 1], c) == SqDev(s[..j], c) + Square(s[j] - c)
  {
    assert s[..j + 1][..j] == s[..j];
  }

  lemma ShiftedTimesDivisor(s: Vector, c: real, d: real)
    requires d != 0.0
    ensures forall i :: 0 <= i < |s| ==> Times(Shifted(s, c, d)[i], d) == s[i] - c
  {
    forall i | 0 <= i < |s|
      ensures Times(Shifted(s, c, d)[i], d) == s[i] - c
    {
      DivTimes(s[i] - c, d);
    }
  }

  lemma DivTimes(x: real, d: real)
    requires d != 0.0
    ensures (x / d) * d == x
  {
  }

  /** The last step of `UnitVariance`, on the numbers alone. */
  lemma CancelVariance(z: real, ss: real, n1: real, dd: real)
    requires ss > 0.0
    requires Times(z, dd) == ss && Times(dd, n1) == ss
    ensures z == n1
  {
    assert dd != 0.0;
    assert z * dd == n1 * dd;
  }

  /** With an exact square root and a column that is not constant, `Std` is that root. */
  lemma StdIsRoot(s: Vector, sqrt: real -> real, d: real)
    requires |s| >= 2 && ExactSqrt(sqrt)
    requires SqDev(s, Mean(s)) > 0.0
    requires d == Std(s, sqrt)
    ensures d != 0.0 && Times(Times(d, d), (|s| - 1) as real) == SqDev(s, Mean(s))
  {
    var v := SqDev(s, Mean(s)) / (|s| - 1) as real;
    assert v > 0.0;
    assert sqrt(v) * sqrt(v) == v;
  }

  /**
    With an exact square root, a column that is not constant standardizes to
    sample variance 1: its squared deviations from 0 (its mean, by
    CentredSumZero) add up to n - 1.
   */
  lemma UnitVariance(s: Vector, sqrt: real -> real)
    requires |s| >= 2 && ExactSqrt(sqrt)
    requires SqDev(s, Mean(s)) > 0.0
    ensures SqDev(Standardized(s, sqrt), 0.0) == (|s| - 1) as real
  {
    var d := Std(s, sqrt);
    StdIsRoot(s, sqrt, d);
    ShiftedTimesDivisor(s, Mean(s), d);
    SqDevScaled(Shifted(s, Mean(s), d), s, Mean(s), d);
    assert Standardized(s, sqrt) == Shifted(s, Mean(s), d);
    CancelVariance(SqDev(Standardized(s, sqrt), 0.0), SqDev(s, Mean(s)), (|s| - 1) as real, Times(d, d));
  }
}
