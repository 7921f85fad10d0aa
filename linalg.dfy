/**
  Vectors and matrices of exact reals, the way the PCA engine and its callers
  see JavaScript `number[]` and `number[][]` values.  Sums are written as
  left folds over prefixes, matching both the `reduce((sum, v) => ...)` calls
  and the accumulating `for` loops of the code.
 */
module LinAlg {

  type Vector = seq<real>
  type Matrix = seq<seq<real>>

  datatype Option<T> = None | Some(value: T)

  /** Every row of `a` has exactly `cols` entries. */
  predicate IsRect(a: Matrix, cols: nat)
  {
    forall i :: 0 <= i < |a| ==> |a[i]| == cols
  }

  function Min(a: nat, b: nat): nat { if a <= b then a else b }

  function Abs(x: real): real { if x < 0.0 then -x else x }

  /** Sum of the entries of `s`, from the left. */
  function Sum(s: Vector): real
  {
    if |s| == 0 then 0.0 else Sum(s[..|s| - 1]) + s[|s| - 1]
  }

  /** Dot product, accumulated from index 0 upwards. */
  function Dot(u: Vector, v: Vector): real
    requires |u| == |v|
  {
    if |u| == 0 then 0.0 else Dot(u[..|u| - 1], v[..|v| - 1]) + u[|u| - 1] * v[|v| - 1]
  }

  /** `u.map(x => x / d)`. */
  function DivBy(u: Vector, d: real): (r: Vector)
    requires d != 0.0
    ensures |r| == |u|
    ensures forall i :: 0 <= i < |u| ==> r[i] == u[i] / d
  {
    seq(|u|, i requires 0 <= i < |u| => u[i] / d)
  }

  /** `u[i] -= a * c[i]` for every i. */
  function SubScaled(u: Vector, a: real, c: Vector): (r: Vector)
    requires |u| == |c|
    ensures |r| == |u|
    ensures forall i :: 0 <= i < |u| ==> r[i] == u[i] - a * c[i]
  {
    seq(|u|, i requires 0 <= i < |u| => u[i] - a * c[i])
  }

  /** Column `j` of the matrix `a`. */
  function Column(a: Matrix, j: nat): (col: Vector)
    requires forall i :: 0 <= i < |a| ==> j < |a[i]|
    ensures |col| == |a|
    ensures forall i :: 0 <= i < |a| ==> col[i] == a[i][j]
  {
    seq(|a|, i requires 0 <= i < |a| => a[i][j])
  }

  /** `A · v`, row by row. */
  function MatVec(a: Matrix, v: Vector): (r: Vector)
    requires IsRect(a, |v|)
    ensures |r| == |a|
    ensures forall i :: 0 <= i < |a| ==> r[i] == Dot(a[i], v)
  {
    seq(|a|, i requires 0 <= i < |a| => Dot(a[i], v))
  }

  /** The rows of `c` are unit vectors and pairwise orthogonal. */
  predicate Orthonormal(c: Matrix, m: nat)
    requires IsRect(c, m)
  {
    forall p, q :: 0 <= p < |c| && 0 <= q < |c| ==> Dot(c[p], c[q]) == (if p == q then 1.0 else 0.0)
  }

  /** A unit vector orthogonal to every row extends an orthonormal family. */
  lemma OrthonormalSnoc(c: Matrix, v: Vector, m: nat)
    requires IsRect(c, m) && |v| == m && Orthonormal(c, m)
    requires Dot(v, v) == 1.0 && forall q :: 0 <= q < |c| ==> Dot(v, c[q]) == 0.0
    ensures IsRect(c + [v], m) && Orthonormal(c + [v], m)
  {
    var d := c + [v];
    forall p, q | 0 <= p < |d| && 0 <= q < |d|
      ensures Dot(d[p], d[q]) == if p == q then 1.0 else 0.0
    {
      if p < |c| && q < |c| {
        assert d[p] == c[p] && d[q] == c[q];
      } else if p == |c| && q < |c| {
        assert d[p] == v && d[q] == c[q];
      } else if p < |c| {
        assert d[p] == c[p] && d[q] == v;
        DotSymmetric(v, c[p]);
      }
    }
  }

  /** `sqrt` is the exact real square root on the non-negative reals. */
  ghost predicate ExactSqrt(sqrt: real -> real)
  {
    forall x :: x >= 0.0 ==> sqrt(x) >= 0.0 && sqrt(x) * sqrt(x) == x
  }

  // ---------------------------------------------------------------------------
  // Prefix steps, used by every accumulating loop.

  lemma SumSnoc(s: Vector, i: nat)
    requires i < |s|
    ensures Sum(s[..i + 1]) == Sum(s[..i]) + s[i]
  {
    assert s[..i + 1][..i] == s[..i];
  }

  lemma DotSnoc(u: Vector, v: Vector, i: nat)
    requires |u| == |v| && i < |u|
    ensures Dot(u[..i + 1], v[..i + 1]) == Dot(u[..i], v[..i]) + u[i] * v[i]
  {
    assert u[..i + 1][..i] == u[..i];
    assert v[..i + 1][..i] == v[..i];
  }

  /** The last step of a dot product. */
  lemma DotLast(u: Vector, v: Vector)
    requires |u| == |v| > 0
    ensures Dot(u, v) == Dot(u[..|u| - 1], v[..|v| - 1]) + u[|u| - 1] * v[|v| - 1]
  {
  }

  lemma ColumnSnoc(a: Matrix, i: nat, j: nat)
    requires i < |a| && forall k :: 0 <= k < |a| ==> j < |a[k]|
    ensures Sum(Column(a[..i + 1], j)) == Sum(Column(a[..i], j)) + a[i][j]
  {
    var c := Column(a[..i + 1], j);
    assert c[..i] == Column(a[..i], j);
  }

  // ---------------------------------------------------------------------------
  // Algebra of the dot product.

  lemma {:induction false} DotSymmetric(u: Vector, v: Vector)
    requires |u| == |v|
    ensures Dot(u, v) == Dot(v, u)
  {
    if |u| > 0 {
      DotSymmetric(u[..|u| - 1], v[..|v| - 1]);
    }
  }

  /** Dot product of a vector divided by `d`. */
  lemma {:induction false} DotDivBy(u: Vector, d: real, w: Vector)
    requires d != 0.0 && |u| == |w|
    ensures Dot(DivBy(u, d), w) == Dot(u, w) / d
  {
    if |u| > 0 {
      var k := |u| - 1;
      var dv := DivBy(u, d);
      assert dv[..k] == DivBy(u[..k], d);
      DotDivBy(u[..k], d, w[..k]);
      DotLast(dv, w);
      DotLast(u, w);
      DivideStep(Dot(dv, w), Dot(u, w), Dot(u[..k], w[..k]), dv[k], u[k], w[k], d);
    }
  }

  /** The last step of `DotDivBy`, on the numbers alone. */
  lemma DivideStep(sub: real, du: real, p: real, y: real, x: real, z: real, d: real)
    requires d != 0.0 && y == x / d
    requires sub == p / d + y * z && du == p + x * z
    ensures sub == du / d
  {
  }

  /** Dot product after subtracting a multiple of `c`. */
  lemma {:induction false} DotSubScaled(u: Vector, a: real, c: Vector, w: Vector)
    requires |u| == |c| == |w|
    ensures Dot(SubScaled(u, a, c), w) == Dot(u, w) - a * Dot(c, w)
  {
    if |u| > 0 {
      var k := |u| - 1;
      var su := SubScaled(u, a, c);
      SubScaledPrefix(u, a, c, k);
      DotSubScaled(u[..k], a, c[..k], w[..k]);
      var p, q, y := Dot(u[..k], w[..k]), Dot(c[..k], w[..k]), su[k];
      DotLast(su, w);
      Regroup(Dot(su, w), Dot(u, w), Dot(c, w), p, q, a, u[k], c[k], y, w[k]);
    }
  }

  /** A prefix of `SubScaled` is `SubScaled` of the prefixes. */
  lemma SubScaledPrefix(u: Vector, a: real, c: Vector, k: nat)
    requires |u| == |c| && k <= |u|
    ensures SubScaled(u, a, c)[..k] == SubScaled(u[..k], a, c[..k])
  {
    var su, sk := SubScaled(u, a, c), SubScaled(u[..k], a, c[..k]);
    forall i | 0 <= i < k
      ensures su[..k][i] == sk[i]
    {
      assert su[i] == u[i] - a * c[i];
      assert sk[i] == u[..k][i] - a * c[..k][i];
    }
  }

  lemma SquareOverRoot(x: real, s: real)
    requires s != 0.0 && s * s == x
    ensures (x / s) / s == 1.0
  {
    assert x / s == s;
  }

  /** The last step of `DotSubScaled`, on the numbers alone. */
  lemma Regroup(sub: real, du: real, dc: real, p: real, q: real, a: real, x: real, y: real, s: real, z: real)
    requires sub == (p - a * q) + s * z && s == x - a * y
    requires du == p + x * z && dc == q + y * z
    ensures sub == du - a * dc
  {
  }

  /** A dot product of a vector with itself is a sum of squares. */
  lemma {:induction false} DotSelfNonNegative(u: Vector)
    ensures Dot(u, u) >= 0.0
  {
    if |u| > 0 {
      DotSelfNonNegative(u[..|u| - 1]);
    }
  }

  /** Dividing a vector by its exact norm gives a unit vector. */
  lemma Normalized(u: Vector, sqrt: real -> real)
    requires ExactSqrt(sqrt) && sqrt(Dot(u, u)) != 0.0
    ensures Dot(DivBy(u, sqrt(Dot(u, u))), DivBy(u, sqrt(Dot(u, u)))) == 1.0
  {
    var s := sqrt(Dot(u, u));
    DotSelfNonNegative(u);
    assert s * s == Dot(u, u);
    DotDivBy(u, s, DivBy(u, s));
    DotSymmetric(u, DivBy(u, s));
    DotDivBy(u, s, u);
    assert Dot(DivBy(u, s), DivBy(u, s)) == (Dot(u, u) / s) / s;
    SquareOverRoot(Dot(u, u), s);
  }
}
