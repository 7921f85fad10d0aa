/**
  The helpers of the 2D-to-1D demo page (app/demo/page.tsx): the two-column
  matrix of the chosen metrics, its standardization with the means and
  deviations the page displays, the projection of the standardized points on
  the unit axis at a given angle, and `toggleMetric`, which keeps at most two
  metrics selected.  `Math.sqrt`, `Math.cos` and `Math.sin` are parameters.
 */
module Demo {
  import opened LinAlg
  import opened FinanceData
  import opened Selection
  import Stats
  import Pca
  import Compress

  // ===========================================================================
  // build2DFromSelection (app/demo/page.tsx:23-26)

  /** `build2DFromSelection(data, selected)`. */
  function Build2DFromSelection(data: seq<FinanceRecord>, selected: seq<Metric>): (pts: Matrix)
    ensures |selected| != 2 ==> pts == []
    ensures |selected| == 2 ==> |pts| == |data| && IsRect(pts, 2)
    ensures |selected| == 2 ==> forall i :: 0 <= i < |data| ==>
              pts[i][0] == Value(data[i], selected[0]) && pts[i][1] == Value(data[i], selected[1])
  {
    if |selected| != 2 then []
    else seq(|data|, i requires 0 <= i < |data| => [Value(data[i], selected[0]), Value(data[i], selected[1])])
  }

  /**
    Unlike `buildMatrix` of the compression page, the demo keeps the order of
    selection: for two different metrics its points are the rows of
    `buildMatrix`, with the two coordinates swapped when the second metric
    comes first in the canonical order.
   */
  lemma Build2DAgreesWithBuildMatrix(data: seq<FinanceRecord>, selected: seq<Metric>)
    requires |selected| == 2 && selected[0] != selected[1]
    ensures IsRect(Compress.BuildMatrix(data, selected), 2)
    ensures Index(selected[0]) < Index(selected[1]) ==>
              Build2DFromSelection(data, selected) == Compress.BuildMatrix(data, selected)
    ensures Index(selected[1]) < Index(selected[0]) ==> forall i :: 0 <= i < |data| ==>
              Build2DFromSelection(data, selected)[i] ==
                [Compress.BuildMatrix(data, selected)[i][1], Compress.BuildMatrix(data, selected)[i][0]]
  {
    var a, b := selected[0], selected[1];
    TwoKeysOrdered(selected);
    var x := Compress.BuildMatrix(data, selected);
    var pts := Build2DFromSelection(data, selected);
    if Index(a) < Index(b) {
      forall i | 0 <= i < |data|
        ensures pts[i] == x[i]
      {
      }
    }
  }

  /** Two different keys, put in canonical order. */
  lemma TwoKeysOrdered(selected: seq<Metric>)
    requires |selected| == 2 && selected[0] != selected[1]
    ensures Compress.OrderedSelected(selected) ==
              if Index(selected[0]) < Index(selected[1]) then selected else [selected[1], selected[0]]
  {
    assert NoDup(selected);
    Compress.OrderedSelectedDistinct(selected);
    Compress.OrderedSelectedColumns(selected);
    OrderedPair(Compress.OrderedSelected(selected), selected);
  }

  /** A two-key list in canonical order with the same keys as a pair of different keys. */
  lemma OrderedPair(keys: seq<Metric>, pair: seq<Metric>)
    requires |keys| == 2 && Compress.InCanonicalOrder(keys)
    requires |pair| == 2 && pair[0] != pair[1]
    requires forall key :: key in keys <==> key in pair
    ensures keys == if Index(pair[0]) < Index(pair[1]) then pair else [pair[1], pair[0]]
  {
    assert pair[0] in keys && pair[1] in keys;
    assert keys[0] != keys[1] by {
      assert Index(keys[0]) < Index(keys[1]);
    }
    if keys[0] == pair[0] {
      assert keys[1] == pair[1];
      assert keys == pair;
    } else {
      assert keys[0] == pair[1] && keys[1] == pair[0];
      assert keys == [pair[1], pair[0]];
    }
  }

  // ===========================================================================
  // standardize2D (app/demo/page.tsx:29-48)

  /** Each row has the two coordinates the page reads. */
  predicate HasTwoCoordinates(points: Matrix)
  {
    forall i :: 0 <= i < |points| ==> |points[i]| >= 2
  }

  /** Point `i` standardized coordinate by coordinate. */
  function Standardized2D(points: Matrix, sqrt: real -> real): (z: Matrix)
    requires |points| > 0 && HasTwoCoordinates(points)
    ensures |z| == |points| && IsRect(z, 2)
  {
    var x, y := Stats.Standardized(Column(points, 0), sqrt), Stats.Standardized(Column(points, 1), sqrt);
    seq(|points|, i requires 0 <= i < |points| => [x[i], y[i]])
  }

  /**
    `standardize2D(points)`: no points give the neutral means `[0, 0]` and
    deviations `[1, 1]`; otherwise the means and guarded sample deviations of
    the two coordinates, and every point standardized with them.
   */
  method Standardize2D(points: Matrix, sqrt: real -> real) returns (standardized: Matrix, means: Vector, stds: Vector)
    requires HasTwoCoordinates(points)
    ensures |standardized| == |points| && |means| == 2 && |stds| == 2
    ensures stds[0] != 0.0 && stds[1] != 0.0
    ensures |points| == 0 ==> standardized == [] && means == [0.0, 0.0] && stds == [1.0, 1.0]
    ensures |points| > 0 ==> means == [Stats.Mean(Column(points, 0)), Stats.Mean(Column(points, 1))]
    ensures |points| > 0 ==> stds == [Stats.Std(Column(points, 0), sqrt), Stats.Std(Column(points, 1), sqrt)]
    ensures |points| > 0 ==> standardized == Standardized2D(points, sqrt)
  {
    if |points| == 0 {
      return [], [0.0, 0.0], [1.0, 1.0];
    }
    var n := |points|;
    var mu := CoordinateMeans(points);
    var sd := CoordinateStds(points, mu, sqrt);
    means, stds := mu[..], sd[..];
    var m0, m1, d0, d1 := mu[0], mu[1], sd[0], sd[1];
    standardized := seq(n, i requires 0 <= i < n =>
      [(points[i][0] - m0) / d0, (points[i][1] - m1) / d1]);
    var z := Standardized2D(points, sqrt);
    forall i | 0 <= i < n
      ensures standardized[i] == z[i]
    {
      var x, y := Column(points, 0), Column(points, 1);
      assert z[i][0] == Stats.Shifted(x, Stats.Mean(x), Stats.Std(x, sqrt))[i];
      assert z[i][1] == Stats.Shifted(y, Stats.Mean(y), Stats.Std(y, sqrt))[i];
    }
  }

  /** Lines 32-38: sum both coordinates, then divide by the number of points. */
  method CoordinateMeans(points: Matrix) returns (means: array<real>)
    requires |points| > 0 && HasTwoCoordinates(points)
    ensures fresh(means) && means.Length == 2
    ensures means[0] == Stats.Mean(Column(points, 0)) && means[1] == Stats.Mean(Column(points, 1))
  {
    var n := |points|;
    means := new real[2](_ => 0.0);
    for i := 0 to n
      invariant means[0] == Sum(Column(points[..i], 0)) && means[1] == Sum(Column(points[..i], 1))
    {
      ColumnSnoc(points, i, 0);
      ColumnSnoc(points, i, 1);
      means[0] := means[0] + points[i][0];
      means[1] := means[1] + points[i][1];
    }
    assert points[..n] == points;
    means[0] := means[0] / n as real;
    means[1] := means[1] / n as real;
  }

  /**
    Lines 39-45: sum the squared deviations of both coordinates, then take
    `Math.sqrt(stds[j] / (n - 1)) || 1`.
   */
  method CoordinateStds(points: Matrix, means: array<real>, sqrt: real -> real) returns (stds: array<real>)
    requires |points| > 0 && HasTwoCoordinates(points)
    requires means.Length == 2
    requires means[0] == Stats.Mean(Column(points, 0)) && means[1] == Stats.Mean(Column(points, 1))
    ensures fresh(stds) && stds.Length == 2
    ensures stds[0] == Stats.Std(Column(points, 0), sqrt) && stds[1] == Stats.Std(Column(points, 1), sqrt)
  {
    var n := |points|;
    var s0, s1 := SquaredDeviations2D(points, means[0], means[1]);
    stds := new real[2](_ => 0.0);
    stds[0] := Stats.GuardedStd(s0, n, sqrt);
    stds[1] := Stats.GuardedStd(s1, n, sqrt);
  }

  /** Lines 40-43: the squared deviations of both coordinates from `m0` and `m1`. */
  method SquaredDeviations2D(points: Matrix, m0: real, m1: real) returns (s0: real, s1: real)
    requires HasTwoCoordinates(points)
    ensures s0 == Stats.SqDev(Column(points, 0), m0) && s1 == Stats.SqDev(Column(points, 1), m1)
  {
    s0, s1 := 0.0, 0.0;
    for i := 0 to |points|
      invariant s0 == Stats.SqDev(Column(points[..i], 0), m0)
      invariant s1 == Stats.SqDev(Column(points[..i], 1), m1)
    {
      Pca.ColumnSqDevSnoc(points, i, 0, m0);
      Pca.ColumnSqDevSnoc(points, i, 1, m1);
      s0 := s0 + Stats.Square(points[i][0] - m0);
      s1 := s1 + Stats.Square(points[i][1] - m1);
    }
    assert points[..|points|] == points;
  }

  /** Column `j` of the standardized points is coordinate `j` standardized. */
  lemma Standardized2DColumn(points: Matrix, sqrt: real -> real, j: nat)
    requires |points| > 0 && HasTwoCoordinates(points) && j < 2
    ensures Column(Standardized2D(points, sqrt), j) == Stats.Standardized(Column(points, j), sqrt)
  {
  }

  /** In exact arithmetic both standardized coordinates sum to zero over all points. */
  lemma Standardized2DCentred(points: Matrix, sqrt: real -> real)
    requires |points| > 0 && HasTwoCoordinates(points)
    ensures Sum(Column(Standardized2D(points, sqrt), 0)) == 0.0
    ensures Sum(Column(Standardized2D(points, sqrt), 1)) == 0.0
  {
    Standardized2DColumn(points, sqrt, 0);
    Standardized2DColumn(points, sqrt, 1);
    Stats.CentredSumZero(Column(points, 0), sqrt);
    Stats.CentredSumZero(Column(points, 1), sqrt);
  }

  /** On two-column points the demo standardizes exactly as the PCA engine's `standardize`. */
  lemma Standardized2DAgreesWithEngine(points: Matrix, sqrt: real -> real)
    requires |points| > 0 && IsRect(points, 2)
    ensures Standardized2D(points, sqrt) == Pca.StandardizedMatrix(points, sqrt)
  {
    var z, w := Standardized2D(points, sqrt), Pca.StandardizedMatrix(points, sqrt);
    forall i | 0 <= i < |points|
      ensures z[i] == w[i]
    {
    }
  }

  // ===========================================================================
  // projectTo1DFromStandardized (app/demo/page.tsx:51-55)

  /** `p[0] * cos(angle) + p[1] * sin(angle)` for every point `p`. */
  function ProjectTo1D(standardized: Matrix, angle: real, cos: real -> real, sin: real -> real): (proj: Vector)
    requires HasTwoCoordinates(standardized)
    ensures |proj| == |standardized|
  {
    OnAxis(standardized, cos(angle), sin(angle))
  }

  /** `p[0] * ux + p[1] * uy` for every point `p`, with `ux` and `uy` fixed. */
  function OnAxis(points: Matrix, ux: real, uy: real): (proj: Vector)
    requires HasTwoCoordinates(points)
    ensures |proj| == |points|
  {
    seq(|points|, i requires 0 <= i < |points| => points[i][0] * ux + points[i][1] * uy)
  }

  /** Each projection is the dot product of the point with the axis `(cos, sin)`. */
  lemma ProjectionOnAxis(standardized: Matrix, angle: real, cos: real -> real, sin: real -> real)
    requires HasTwoCoordinates(standardized)
    ensures forall i :: 0 <= i < |standardized| ==>
              ProjectTo1D(standardized, angle, cos, sin)[i] == Dot(standardized[i][..2], [cos(angle), sin(angle)])
  {
    forall i | 0 <= i < |standardized|
      ensures ProjectTo1D(standardized, angle, cos, sin)[i] == Dot(standardized[i][..2], [cos(angle), sin(angle)])
    {
      var p, u := standardized[i][..2], [cos(angle), sin(angle)];
      assert p[..1][..0] == [] && u[..1][..0] == [];
      assert Dot(p[..1], u[..1]) == p[0] * u[0];
    }
  }

  /** The sum of the projections is the projection of the coordinate sums. */
  lemma OnAxisSum(points: Matrix, ux: real, uy: real)
    requires HasTwoCoordinates(points)
    ensures Sum(OnAxis(points, ux, uy)) == Sum(Column(points, 0)) * ux + Sum(Column(points, 1)) * uy
  {
    var p, c0, c1 := OnAxis(points, ux, uy), Column(points, 0), Column(points, 1);
    SumCombination(p, c0, c1, ux, uy, |p|);
    assert p[..|p|] == p && c0[..|p|] == c0 && c1[..|p|] == c1;
  }

  /** Summing `c0[i] * u + c1[i] * v` over a prefix gives the same combination of the column sums. */
  lemma {:induction false} SumCombination(p: Vector, c0: Vector, c1: Vector, u: real, v: real, k: nat)
    requires |p| == |c0| == |c1| && k <= |p|
    requires forall i :: 0 <= i < |p| ==> p[i] == c0[i] * u + c1[i] * v
    ensures Sum(p[..k]) == Sum(c0[..k]) * u + Sum(c1[..k]) * v
  {
    if k > 0 {
      var j := k - 1;
      var x, y := c0[j], c1[j];
      assert p[j] == x * u + y * v;
      SumCombination(p, c0, c1, u, v, j);
      SumSnoc(p, j);
      SumSnoc(c0, j);
      SumSnoc(c1, j);
      Distribute(Sum(p[..k]), Sum(p[..j]), p[j], Sum(c0[..j]), x, Sum(c0[..k]), Sum(c1[..j]), y, Sum(c1[..k]), u, v);
    }
  }

  /** The last step of `SumCombination`, on the numbers alone. */
  lemma Distribute(sp: real, sq: real, pk: real, a: real, x: real, sx: real, b: real, y: real, sy: real, u: real, v: real)
    requires sp == sq + pk && pk == x * u + y * v && sq == a * u + b * v
    requires sx == a + x && sy == b + y
    ensures sp == sx * u + sy * v
  {
  }

  /** Whatever the angle, the projected standardized points are centred on zero. */
  lemma ProjectionCentred(points: Matrix, angle: real, sqrt: real -> real, cos: real -> real, sin: real -> real)
    requires |points| > 0 && HasTwoCoordinates(points)
    ensures Sum(ProjectTo1D(Standardized2D(points, sqrt), angle, cos, sin)) == 0.0
  {
    Standardized2DCentred(points, sqrt);
    CentredOnAxis(Standardized2D(points, sqrt), cos(angle), sin(angle));
  }

  /** Points centred in both coordinates stay centred on any axis. */
  lemma CentredOnAxis(points: Matrix, ux: real, uy: real)
    requires HasTwoCoordinates(points)
    requires Sum(Column(points, 0)) == 0.0 && Sum(Column(points, 1)) == 0.0
    ensures Sum(OnAxis(points, ux, uy)) == 0.0
  {
    OnAxisSum(points, ux, uy);
  }

  // ===========================================================================
  // toggleMetric (app/demo/page.tsx:136-143)

  /**
    `toggleMetric(key)`: a selected key is removed (and of the rest at most
    the last two are kept); an unselected key is appended, and when two were
    already selected the older one is dropped.  At most two keys remain.
   */
  method ToggleMetric(selected: seq<Metric>, key: Metric) returns (next: seq<Metric>)
    ensures |next| <= 2
    ensures forall x :: x in next ==> x == key || x in selected
    ensures key in selected ==> key !in next
    ensures key in selected ==> |next| == Min(2, |Remove(selected, key)|)
    ensures key in selected ==> next == Remove(selected, key)[|Remove(selected, key)| - |next|..]
    ensures key !in selected ==> |next| > 0 && next[|next| - 1] == key
    ensures key !in selected && |selected| < 2 ==> next == selected + [key]
    ensures key !in selected && |selected| >= 2 ==> next == [selected[1], key]
    ensures NoDup(selected) ==> NoDup(next)
  {
    next := selected;
    if key in next {
      next := Remove(next, key);
      if NoDup(selected) {
        NoDupRemove(selected, key);
      }
    } else if |next| < 2 {
      next := next + [key];
    } else {
      next := [next[1], key];
    }
    ghost var before := next;
    if |next| > 2 {
      next := next[|next| - 2..];
    }
    LastTwo(before, next);
  }

  /** Keeping the last two entries of a list, as `slice(length - 2)` does when longer. */
  lemma LastTwo(s: seq<Metric>, t: seq<Metric>)
    requires t == if |s| > 2 then s[|s| - 2..] else s
    ensures |t| == Min(2, |s|) && t == s[|s| - |t|..]
    ensures forall x :: x in t ==> x in s
    ensures NoDup(s) ==> NoDup(t)
  {
    SuffixOf(s, |s| - |t|);
  }

  /** A suffix mentions only keys of the list, and keeps it duplicate-free. */
  lemma SuffixOf(s: seq<Metric>, k: nat)
    requires k <= |s|
    ensures forall x :: x in s[k..] ==> x in s
    ensures NoDup(s) ==> NoDup(s[k..])
  {
    var t := s[k..];
    forall x | x in t
      ensures x in s
    {
      var i :| 0 <= i < |t| && t[i] == x;
      assert s[k + i] == x;
    }
    if NoDup(s) {
      forall i, j | 0 <= i < j < |t|
        ensures t[i] != t[j]
      {
        assert t[i] == s[k + i] && t[j] == s[k + j];
      }
    }
  }
}
