/**
  The PCA engine of lib/pca.ts: `standardize`, `performPCA` (the code around
  the ml-matrix SVD, the explained-variance ratios and their padding, and the
  dispatch to the fallback) and `performPCACovariance` (covariance matrix,
  power iteration with deflation, Rayleigh quotients, projection and the
  guarded trace).

  Numbers are exact reals.  `Math.sqrt`, `Math.random` and the SVD are
  parameters the caller supplies: `sqrt` is an arbitrary function unless a
  lemma asks for `ExactSqrt(sqrt)`, `random(c, i)` is the draw for coordinate
  `i` of component `c`, and `decompose` is whatever the library returns.
 */
module Pca {
  import opened LinAlg
  import Stats

  // ===========================================================================
  // Results and the decomposition oracle

  /** A JavaScript number; NaN and the infinities are all `NonFinite`. */
  datatype Float = Finite(value: real) | NonFinite

  datatype PCAResult = PCAResult(transformed: Matrix, components: Matrix, explainedVariance: seq<Float>)

  /** A call that returns `value` or throws an `Error` with `message`. */
  datatype Result<T> = Ok(value: T) | Err(message: string)

  const EmptyDataMessage: string := "Data cannot be empty"

  /** An ml-matrix `Matrix`, read through `get(i, j)`. */
  datatype MlMatrix = MlMatrix(rows: nat, columns: nat, entries: Matrix)
  {
    predicate Valid()
    {
      |entries| == rows && IsRect(entries, columns)
    }

    function Get(i: nat, j: nat): real
      requires Valid() && i < rows && j < columns
    {
      entries[i][j]
    }
  }

  /** What `svd.diagonal` may be: an array, an ml-matrix, or anything else. */
  datatype Diagonal = DiagonalArray(values: seq<real>) | DiagonalMatrix(matrix: MlMatrix) | DiagonalOther

  /** The outcome of `X.svd()` and of reading its two properties. */
  datatype Svd = SvdThrows | SvdValue(rightSingularVectors: Option<MlMatrix>, diagonal: Diagonal)

  /** The library hands back matrices whose shapes match their fields. */
  predicate SvdWellFormed(svd: Svd, m: nat)
  {
    svd.SvdValue? ==>
      (svd.rightSingularVectors.Some? ==>
         svd.rightSingularVectors.value.Valid() && svd.rightSingularVectors.value.columns == m) &&
      (svd.diagonal.DiagonalMatrix? ==> svd.diagonal.matrix.Valid())
  }

  /**
    The SVD branch reaches its `return`: the library did not throw, `Vt` is
    present, and `Vt.subMatrix(0, numComps - 1, ...)` names a non-empty range
    (with `numComps == 0` the library rejects the range and the `catch` runs).
   */
  predicate SvdPathSucceeds(svd: Svd, numComponents: nat)
  {
    svd.SvdValue? && svd.rightSingularVectors.Some? &&
    Min(numComponents, svd.rightSingularVectors.value.rows) > 0
  }

  // ===========================================================================
  // standardize (lib/pca.ts:10-42)

  /** Cell (i, j) is cell i of column j, standardized on its own. */
  function StandardizedMatrix(data: Matrix, sqrt: real -> real): (z: Matrix)
    requires |data| > 0 && IsRect(data, |data[0]|)
    ensures |z| == |data| && IsRect(z, |data[0]|)
  {
    var m := |data[0]|;
    seq(|data|, i requires 0 <= i < |data| =>
      seq(m, j requires 0 <= j < m => Stats.Standardized(Column(data, j), sqrt)[i]))
  }

  /** The column means of `data`. */
  function Means(data: Matrix): (mu: Vector)
    requires |data| > 0 && IsRect(data, |data[0]|)
    ensures |mu| == |data[0]|
  {
    seq(|data[0]|, k requires 0 <= k < |data[0]| => Stats.Mean(Column(data, k)))
  }

  method Standardize(data: Matrix, sqrt: real -> real) returns (standardized: Matrix)
    requires |data| > 0 && IsRect(data, |data[0]|)
    ensures standardized == StandardizedMatrix(data, sqrt)
  {
    var n, m := |data|, |data[0]|;
    var mu := ColumnMeans(data);
    var sd := ColumnStds(data, mu, sqrt);
    assert forall k :: 0 <= k < m ==> sd[k] != 0.0;
    standardized := seq(n, i requires 0 <= i < n =>
      seq(m, j requires 0 <= j < m => (data[i][j] - mu[j]) / sd[j]));
    var z := StandardizedMatrix(data, sqrt);
    forall i | 0 <= i < n
      ensures standardized[i] == z[i]
    {
      forall j | 0 <= j < m
        ensures standardized[i][j] == z[i][j]
      {
        var col := Column(data, j);
        Stats.StdNonZero(col, sqrt);
        assert mu[j] == Stats.Mean(col);
        assert sd[j] == Stats.Std(col, sqrt);
        assert z[i][j] == Stats.Shifted(col, Stats.Mean(col), Stats.Std(col, sqrt))[i];
      }
    }
  }

  /** Lines 15-23: sum each column, then divide by the number of rows. */
  method ColumnMeans(data: Matrix) returns (mu: Vector)
    requires |data| > 0 && IsRect(data, |data[0]|)
    ensures mu == Means(data)
  {
    var n, m := |data|, |data[0]|;
    var means := new real[m](_ => 0.0);
    for i := 0 to n
      invariant forall k :: 0 <= k < m ==> means[k] == Sum(Column(data[..i], k))
    {
      AddRow(means, data[i]);
      forall k | 0 <= k < m {
        ColumnSnoc(data, i, k);
      }
    }
    assert data[..n] == data;
    for j := 0 to m
      invariant forall k :: 0 <= k < j ==> means[k] == Stats.Mean(Column(data, k))
      invariant forall k :: j <= k < m ==> means[k] == Sum(Column(data, k))
    {
      means[j] := means[j] / n as real;
    }
    mu := means[..];
  }

  /**
    Lines 26-34: sum the squared deviations of each column from its mean, then
    take the guarded square root of the Bessel-corrected quotient.
   */
  method ColumnStds(data: Matrix, mu: Vector, sqrt: real -> real) returns (sd: Vector)
    requires |data| > 0 && IsRect(data, |data[0]|) && |mu| == |data[0]|
    ensures |sd| == |mu|
    ensures forall k :: 0 <= k < |mu| ==> sd[k] == Stats.GuardedStd(Stats.SqDev(Column(data, k), mu[k]), |data|, sqrt)
  {
    var stds := SquaredDeviations(data, mu);
    GuardAll(stds, |data|, sqrt);
    sd := stds[..];
  }

  /** Lines 32-34: `stds[j] = Math.sqrt(stds[j] / (n - 1)) || 1` for every column `j`. */
  method GuardAll(stds: array<real>, n: nat, sqrt: real -> real)
    requires n > 0
    modifies stds
    ensures forall k :: 0 <= k < stds.Length ==> stds[k] == Stats.GuardedStd(old(stds[k]), n, sqrt)
  {
    for j := 0 to stds.Length
      invariant forall k :: 0 <= k < j ==> stds[k] == Stats.GuardedStd(old(stds[k]), n, sqrt)
      invariant forall k :: j <= k < stds.Length ==> stds[k] == old(stds[k])
    {
      stds[j] := Stats.GuardedStd(stds[j], n, sqrt);
    }
  }

  /** Lines 26-31: the `stds` array before its entries are turned into deviations. */
  method SquaredDeviations(data: Matrix, mu: Vector) returns (stds: array<real>)
    requires |data| > 0 && IsRect(data, |data[0]|) && |mu| == |data[0]|
    ensures fresh(stds) && stds.Length == |mu|
    ensures forall k :: 0 <= k < |mu| ==> stds[k] == Stats.SqDev(Column(data, k), mu[k])
  {
    var n, m := |data|, |data[0]|;
    stds := new real[m](_ => 0.0);
    for i := 0 to n
      invariant forall k :: 0 <= k < m ==> stds[k] == Stats.SqDev(Column(data[..i], k), mu[k])
    {
      AddSquaredDeviations(stds, data[i], mu);
      forall k | 0 <= k < m {
        ColumnSqDevSnoc(data, i, k, mu[k]);
      }
    }
    assert data[..n] == data;
  }

  /** Lines 17-19: `means[j] += data[i][j]` for every column `j` of one row. */
  method AddRow(acc: array<real>, row: Vector)
    requires |row| == acc.Length
    modifies acc
    ensures forall k :: 0 <= k < acc.Length ==> acc[k] == old(acc[k]) + row[k]
  {
    for j := 0 to acc.Length
      invariant forall k :: 0 <= k < j ==> acc[k] == old(acc[k]) + row[k]
      invariant forall k :: j <= k < acc.Length ==> acc[k] == old(acc[k])
    {
      acc[j] := acc[j] + row[j];
    }
  }

  /** Lines 28-30: `stds[j] += (data[i][j] - means[j])²` for every column `j` of one row. */
  method AddSquaredDeviations(acc: array<real>, row: Vector, mu: Vector)
    requires |row| == acc.Length && |mu| == acc.Length
    modifies acc
    ensures forall k :: 0 <= k < acc.Length ==> acc[k] == old(acc[k]) + Stats.Square(row[k] - mu[k])
  {
    for j := 0 to acc.Length
      invariant forall k :: 0 <= k < j ==> acc[k] == old(acc[k]) + Stats.Square(row[k] - mu[k])
      invariant forall k :: j <= k < acc.Length ==> acc[k] == old(acc[k])
    {
      acc[j] := acc[j] + Stats.Square(row[j] - mu[j]);
    }
  }

  lemma ColumnSqDevSnoc(a: Matrix, i: nat, j: nat, c: real)
    requires i < |a| && forall k :: 0 <= k < |a| ==> j < |a[k]|
    ensures Stats.SqDev(Column(a[..i + 1], j), c) == Stats.SqDev(Column(a[..i], j), c) + Stats.Square(a[i][j] - c)
  {
    var col := Column(a[..i + 1], j);
    assert col[..i] == Column(a[..i], j);
  }

  lemma StandardizedColumn(data: Matrix, sqrt: real -> real, j: nat)
    requires |data| > 0 && IsRect(data, |data[0]|) && j < |data[0]|
    ensures Column(StandardizedMatrix(data, sqrt), j) == Stats.Standardized(Column(data, j), sqrt)
  {
  }

  /**
    Every divisor of lines 37-39 is non-zero, and each cell is the centred
    value divided by it.
   */
  lemma StandardizedCells(data: Matrix, sqrt: real -> real)
    requires |data| > 0 && IsRect(data, |data[0]|)
    ensures forall j :: 0 <= j < |data[0]| ==> Stats.Std(Column(data, j), sqrt) != 0.0
    ensures forall i, j :: 0 <= i < |data| && 0 <= j < |data[0]| ==>
      Stats.Times(StandardizedMatrix(data, sqrt)[i][j], Stats.Std(Column(data, j), sqrt)) == data[i][j] - Stats.Mean(Column(data, j))
  {
    forall j | 0 <= j < |data[0]|
      ensures Stats.Std(Column(data, j), sqrt) != 0.0
      ensures forall i :: 0 <= i < |data| ==>
        Stats.Times(StandardizedMatrix(data, sqrt)[i][j], Stats.Std(Column(data, j), sqrt)) == data[i][j] - Stats.Mean(Column(data, j))
    {
      var col := Column(data, j);
      Stats.StdNonZero(col, sqrt);
      Stats.ShiftedTimesDivisor(col, Stats.Mean(col), Stats.Std(col, sqrt));
    }
  }

  /** In exact arithmetic every standardized column sums to zero. */
  lemma StandardizedColumnsSumToZero(data: Matrix, sqrt: real -> real)
    requires |data| > 0 && IsRect(data, |data[0]|)
    ensures forall j :: 0 <= j < |data[0]| ==> Sum(Column(StandardizedMatrix(data, sqrt), j)) == 0.0
  {
    forall j | 0 <= j < |data[0]|
      ensures Sum(Column(StandardizedMatrix(data, sqrt), j)) == 0.0
    {
      StandardizedColumn(data, sqrt, j);
      Stats.CentredSumZero(Column(data, j), sqrt);
    }
  }

  /** A constant column becomes a column of zeros, never NaN. */
  lemma ConstantColumnStandardizesToZeros(data: Matrix, sqrt: real -> real, j: nat)
    requires |data| > 0 && IsRect(data, |data[0]|) && j < |data[0]|
    requires forall i :: 0 <= i < |data| ==> data[i][j] == data[0][j]
    ensures forall i :: 0 <= i < |data| ==> StandardizedMatrix(data, sqrt)[i][j] == 0.0
  {
    Stats.ConstantColumnToZeros(Column(data, j), sqrt);
  }

  /** With an exact square root, a non-constant column gets sample variance 1. */
  lemma StandardizedUnitVariance(data: Matrix, sqrt: real -> real, j: nat)
    requires |data| >= 2 && IsRect(data, |data[0]|) && j < |data[0]| && ExactSqrt(sqrt)
    requires Stats.SqDev(Column(data, j), Stats.Mean(Column(data, j))) > 0.0
    ensures Stats.SqDev(Column(StandardizedMatrix(data, sqrt), j), 0.0) == (|data| - 1) as real
  {
    StandardizedColumn(data, sqrt, j);
    Stats.UnitVariance(Column(data, j), sqrt);
  }

  // ===========================================================================
  // performPCA, the SVD branch (lib/pca.ts:59-131)

  /** Row `i` of the result holds the dot products of `x[i]` with each row of `rows`. */
  function Projected(x: Matrix, rows: Matrix, m: nat): (t: Matrix)
    requires IsRect(x, m) && IsRect(rows, m)
    ensures |t| == |x| && IsRect(t, |rows|)
  {
    seq(|x|, i requires 0 <= i < |x| =>
      seq(|rows|, c requires 0 <= c < |rows| => Dot(x[i], rows[c])))
  }

  /** Lines 69-79: the first `numComps` rows of `Vt`, read entry by entry. */
  method LeadingRows(vt: MlMatrix, numComps: nat) returns (components: Matrix)
    requires vt.Valid() && numComps <= vt.rows
    ensures components == vt.entries[..numComps]
  {
    components := [];
    for i := 0 to numComps
      invariant components == vt.entries[..i]
    {
      var component: Vector := [];
      for j := 0 to vt.columns
        invariant component == vt.entries[i][..j]
      {
        component := component + [vt.Get(i, j)];
      }
      assert vt.entries[i][..vt.columns] == vt.entries[i];
      components := components + [component];
      assert vt.entries[..i + 1] == vt.entries[..i] + [vt.entries[i]];
    }
  }

  /**
    Lines 83-85: `X.mmul(Vt_reduced.transpose())`, where `Vt_reduced` holds the
    rows `comps` of `Vt`; entry (i, c) is row i of `X` dotted with row c.
   */
  function Multiply(x: Matrix, comps: Matrix, m: nat): (t: MlMatrix)
    requires IsRect(x, m) && IsRect(comps, m)
    ensures t.Valid() && t.rows == |x| && t.columns == |comps|
  {
    MlMatrix(|x|, |comps|, Projected(x, comps, m))
  }

  /** Lines 88-95: copy the first `min(numComponents, columns)` columns of each row. */
  method CopyColumns(t: MlMatrix, numComponents: nat) returns (transformed: Matrix)
    requires t.Valid()
    ensures |transformed| == t.rows
    ensures forall i :: 0 <= i < t.rows ==> transformed[i] == t.entries[i][..Min(numComponents, t.columns)]
  {
    transformed := [];
    for i := 0 to t.rows
      invariant |transformed| == i
      invariant forall r :: 0 <= r < i ==> transformed[r] == t.entries[r][..Min(numComponents, t.columns)]
    {
      var row: Vector := [];
      for j := 0 to Min(numComponents, t.columns)
        invariant row == t.entries[i][..j]
      {
        row := row + [t.Get(i, j)];
      }
      transformed := transformed + [row];
    }
  }

  /**
    The singular values as lines 103-113 collect them: the array itself, the
    main diagonal of a matrix, or nothing for any other value.
   */
  function SingularValues(d: Diagonal): seq<real>
    requires d.DiagonalMatrix? ==> d.matrix.Valid()
  {
    match d
    case DiagonalArray(values) => values
    case DiagonalMatrix(sm) => seq(Min(sm.rows, sm.columns), i requires 0 <= i < Min(sm.rows, sm.columns) => sm.Get(i, i))
    case DiagonalOther => []
  }

  method ExtractSingularValues(d: Diagonal) returns (all: seq<real>)
    requires d.DiagonalMatrix? ==> d.matrix.Valid()
    ensures all == SingularValues(d)
  {
    all := [];
    match d
    case DiagonalArray(values) =>
      for i := 0 to |values|
        invariant all == values[..i]
      {
        all := all + [values[i]];
      }
      assert values[..|values|] == values;
    case DiagonalMatrix(sm) =>
      for i := 0 to Min(sm.rows, sm.columns)
        invariant all == SingularValues(d)[..i]
      {
        all := all + [sm.Get(i, i)];
      }
    case DiagonalOther =>
  }

  // Floating-point results of the ratio computation.

  /** IEEE addition: any NaN or infinity makes the sum non-finite. */
  function Plus(a: Float, b: Float): Float
  {
    if a.Finite? && b.Finite? then Finite(a.value + b.value) else NonFinite
  }

  /**
    IEEE division as far as it arises below: a finite value over a non-zero
    finite value is finite, `x / 0` is infinite or NaN, and a non-finite
    numerator stays non-finite.  (A finite value over an infinity, which IEEE
    makes 0, never occurs: the eigenvalues are all finite or all non-finite,
    see `EigenvaluesFinite`.)
   */
  function Divide(a: Float, b: Float): Float
  {
    if a.Finite? && b.Finite? && b.value != 0.0 then Finite(a.value / b.value) else NonFinite
  }

  /** `xs.reduce((sum, val) => sum + val, 0)`. */
  function FloatSum(xs: seq<Float>): Float
  {
    if |xs| == 0 then Finite(0.0) else Plus(FloatSum(xs[..|xs| - 1]), xs[|xs| - 1])
  }

  /** Line 116: `(s * s) / (n - 1)`, which divides by zero when there is one row. */
  function Eigenvalue(s: real, n: nat): Float
  {
    if n >= 2 then Finite(s * s / (n - 1) as real) else NonFinite
  }

  function Eigenvalues(singular: seq<real>, n: nat): (e: seq<Float>)
    ensures |e| == |singular|
  {
    seq(|singular|, i requires 0 <= i < |singular| => Eigenvalue(singular[i], n))
  }

  /** Line 120: the first `numComponents` eigenvalues over their total, unguarded. */
  function Ratios(singular: seq<real>, n: nat, numComponents: nat): (r: seq<Float>)
    ensures |r| == Min(numComponents, |singular|)
  {
    var e := Eigenvalues(singular, n);
    seq(Min(numComponents, |e|), i requires 0 <= i < Min(numComponents, |e|) => Divide(e[i], FloatSum(e)))
  }

  /** The value appended by line 124. */
  function Filler(ev: seq<Float>, k: nat): Float
    requires |ev| < k
  {
    if |ev| > 0 then Finite(0.0) else Finite(1.0 / k as real)
  }

  /** Lines 123-125: append fillers until there are `k` entries. */
  function Padded(ev: seq<Float>, k: nat): seq<Float>
    decreases k - |ev|
  {
    if |ev| >= k then ev else Padded(ev + [Filler(ev, k)], k)
  }

  method Pad(ev: seq<Float>, k: nat) returns (explainedVariance: seq<Float>)
    ensures explainedVariance == Padded(ev, k)
  {
    explainedVariance := ev;
    while |explainedVariance| < k
      invariant Padded(explainedVariance, k) == Padded(ev, k)
      decreases k - |explainedVariance|
    {
      explainedVariance := explainedVariance + [Filler(explainedVariance, k)];
    }
  }

  /** The padding keeps the ratios and then fills with `1/k` (first slot only) or 0. */
  lemma {:induction false} PaddedShape(ev: seq<Float>, k: nat)
    ensures |Padded(ev, k)| == if |ev| >= k then |ev| else k
    ensures Padded(ev, k)[..|ev|] == ev
    ensures forall i :: |ev| <= i < k ==>
      Padded(ev, k)[i] == if i == 0 then Finite(1.0 / k as real) else Finite(0.0)
    decreases k - |ev|
  {
    if |ev| < k {
      var next := ev + [Filler(ev, k)];
      PaddedShape(next, k);
      assert Padded(ev, k)[..|next|][..|ev|] == Padded(ev, k)[..|ev|];
    }
  }

  /** Lines 116-130: the padded ratios, cut to `numComponents`. */
  function SvdExplainedVariance(singular: seq<real>, n: nat, numComponents: nat): (ev: seq<Float>)
    ensures |ev| == numComponents
  {
    var padded := Padded(Ratios(singular, n, numComponents), numComponents);
    PaddedShape(Ratios(singular, n, numComponents), numComponents);
    padded[..numComponents]
  }

  /** What the SVD branch returns when it reaches line 127. */
  function SvdResult(z: Matrix, vt: MlMatrix, d: Diagonal, numComponents: nat): PCAResult
    requires |z| > 0 && vt.Valid() && IsRect(z, vt.columns)
    requires d.DiagonalMatrix? ==> d.matrix.Valid()
  {
    var comps := vt.entries[..Min(numComponents, vt.rows)];
    PCAResult(Projected(z, comps, vt.columns), comps,
              SvdExplainedVariance(SingularValues(d), |z|, numComponents))
  }

  /**
    The `try` block of lines 56-131 on the standardized matrix `z`: `None` when
    it throws (so that the `catch` runs), otherwise the result it returns.
   */
  method TrySvd(z: Matrix, svd: Svd, numComponents: nat) returns (r: Option<PCAResult>)
    requires |z| > 0 && IsRect(z, |z[0]|) && SvdWellFormed(svd, |z[0]|)
    ensures r.None? <==> !SvdPathSucceeds(svd, numComponents)
    ensures r.Some? ==> r.value == SvdResult(z, svd.rightSingularVectors.value, svd.diagonal, numComponents)
  {
    if svd.SvdThrows? {
      return None;
    }
    if svd.rightSingularVectors.None? {
      return None;
    }
    var vt := svd.rightSingularVectors.value;
    var numComps := Min(numComponents, vt.rows);
    var components := LeadingRows(vt, numComps);
    if numComps == 0 {
      // `Vt.subMatrix(0, -1, ...)` is an empty range, which the library rejects.
      return None;
    }
    var transformedMatrix := Multiply(z, vt.entries[..numComps], vt.columns);
    var transformed := CopyColumns(transformedMatrix, numComponents);
    assert Min(numComponents, transformedMatrix.columns) == numComps;
    forall i | 0 <= i < |z|
      ensures transformed[i] == transformedMatrix.entries[i]
    {
      assert transformedMatrix.entries[i][..numComps] == transformedMatrix.entries[i];
    }
    assert transformed == Projected(z, components, vt.columns);
    var allSingularValues := ExtractSingularValues(svd.diagonal);
    var n := |z|;
    var allEigenvalues := Eigenvalues(allSingularValues, n);
    var totalVariance := FloatSum(allEigenvalues);
    var explainedVariance := seq(Min(numComponents, |allEigenvalues|),
      i requires 0 <= i < Min(numComponents, |allEigenvalues|) => Divide(allEigenvalues[i], totalVariance));
    assert explainedVariance == Ratios(allSingularValues, n, numComponents);
    explainedVariance := Pad(explainedVariance, numComponents);
    PaddedShape(Ratios(allSingularValues, n, numComponents), numComponents);
    return Some(PCAResult(transformed, components, explainedVariance[..numComponents]));
  }

  // Properties of the ratios (lines 116-120).

  /** The real values of a list of finite numbers. */
  function Values(xs: seq<Float>): (v: Vector)
    requires forall i :: 0 <= i < |xs| ==> xs[i].Finite?
    ensures |v| == |xs|
    ensures forall i :: 0 <= i < |xs| ==> xs[i] == Finite(v[i])
  {
    seq(|xs|, i requires 0 <= i < |xs| => xs[i].value)
  }

  /** A sum of finite numbers is the finite sum of their values. */
  lemma {:induction false} FloatSumFinite(xs: seq<Float>)
    requires forall i :: 0 <= i < |xs| ==> xs[i].Finite?
    ensures FloatSum(xs) == Finite(Sum(Values(xs)))
  {
    if |xs| > 0 {
      var k := |xs| - 1;
      FloatSumFinite(xs[..k]);
      assert Values(xs)[..k] == Values(xs[..k]);
    }
  }

  /** One NaN or infinity makes the whole sum non-finite. */
  lemma {:induction false} FloatSumNonFinite(xs: seq<Float>, i: nat)
    requires i < |xs| && xs[i].NonFinite?
    ensures FloatSum(xs).NonFinite?
  {
    var k := |xs| - 1;
    if i < k {
      FloatSumNonFinite(xs[..k], i);
    }
  }

  lemma QuotientNonNegative(x: real, d: real)
    requires x >= 0.0 && d > 0.0
    ensures x / d >= 0.0
  {
  }

  lemma QuotientAtMostOne(x: real, d: real)
    requires 0.0 <= x <= d && d > 0.0
    ensures x / d <= 1.0
  {
  }

  lemma FactorAtMostOne(q: real, d: real)
    requires d > 0.0 && Stats.Times(q, d) <= d
    ensures q <= 1.0
  {
  }

  lemma SquareNonNegative(x: real)
    ensures x * x >= 0.0
  {
  }

  /**
    Line 116: with two rows or more every eigenvalue is finite and
    non-negative; with one row none is finite.
   */
  lemma EigenvaluesFinite(singular: seq<real>, n: nat)
    ensures n >= 2 ==> forall i :: 0 <= i < |singular| ==>
      Eigenvalues(singular, n)[i].Finite? && Eigenvalues(singular, n)[i].value >= 0.0
    ensures n < 2 ==> forall i :: 0 <= i < |singular| ==> Eigenvalues(singular, n)[i].NonFinite?
  {
    if n >= 2 {
      forall i | 0 <= i < |singular|
        ensures Eigenvalues(singular, n)[i].value >= 0.0
      {
        SquareNonNegative(singular[i]);
        QuotientNonNegative(singular[i] * singular[i], (n - 1) as real);
      }
    }
  }

  lemma {:induction false} SumPrefixBound(s: Vector, p: nat)
    requires p <= |s| && forall i :: 0 <= i < |s| ==> s[i] >= 0.0
    ensures 0.0 <= Sum(s[..p]) <= Sum(s)
  {
    if |s| > 0 {
      var k := |s| - 1;
      if p == |s| {
        assert s[..p] == s;
        SumPrefixBound(s[..k], k);
        assert s[..k][..k] == s[..k];
      } else {
        SumPrefixBound(s[..k], p);
        assert s[..k][..p] == s[..p];
        SumPrefixBound(s[..k], k);
        assert s[..k][..k] == s[..k];
      }
    } else {
      assert s[..p] == s;
    }
  }

  lemma EntryBelowSum(s: Vector, i: nat)
    requires i < |s| && forall j :: 0 <= j < |s| ==> s[j] >= 0.0
    ensures s[i] <= Sum(s)
  {
    SumPrefixBound(s, i);
    SumSnoc(s, i);
    SumPrefixBound(s, i + 1);
  }

  /** With two rows the total of line 117 is a finite, non-negative number. */
  lemma TotalFinite(singular: seq<real>, n: nat)
    requires n >= 2
    ensures forall i :: 0 <= i < |singular| ==> Eigenvalues(singular, n)[i].Finite?
    ensures FloatSum(Eigenvalues(singular, n)) == Finite(Sum(Values(Eigenvalues(singular, n))))
    ensures Sum(Values(Eigenvalues(singular, n))) >= 0.0
  {
    var e := Eigenvalues(singular, n);
    EigenvaluesFinite(singular, n);
    FloatSumFinite(e);
    SumPrefixBound(Values(e), 0);
  }

  /**
    Lines 116-120 with at least two rows and a non-zero total: every ratio is
    finite and lies in [0, 1], and the ratios sum to at most 1.
   */
  lemma RatiosBounded(singular: seq<real>, n: nat, numComponents: nat)
    requires n >= 2 && FloatSum(Eigenvalues(singular, n)) != Finite(0.0)
    ensures FloatSum(Eigenvalues(singular, n)).Finite? && FloatSum(Eigenvalues(singular, n)).value > 0.0
    ensures forall i :: 0 <= i < |Ratios(singular, n, numComponents)| ==>
      Ratios(singular, n, numComponents)[i].Finite? &&
      0.0 <= Ratios(singular, n, numComponents)[i].value <= 1.0
    ensures Sum(Values(Ratios(singular, n, numComponents))) <= 1.0
  {
    TotalFinite(singular, n);
    EigenvaluesFinite(singular, n);
    var ev := Values(Eigenvalues(singular, n));
    var r := Ratios(singular, n, numComponents);
    RatioValues(ev, r, Sum(ev), singular, n, numComponents);
    RatioSumAtMostOne(ev, Values(r), Sum(ev));
  }

  lemma RatioSumAtMostOne(ev: Vector, q: Vector, total: real)
    requires total == Sum(ev) && total > 0.0 && |q| <= |ev|
    requires forall i :: 0 <= i < |ev| ==> ev[i] >= 0.0
    requires q == Stats.Shifted(ev[..|q|], 0.0, total)
    ensures Sum(q) <= 1.0
  {
    SumPrefixBound(ev, |q|);
    ScaledSumAtMostOne(ev[..|q|], total);
  }

  /** Divided by a bound of their sum, entries sum to at most one. */
  lemma ScaledSumAtMostOne(s: Vector, d: real)
    requires d > 0.0 && Sum(s) <= d
    ensures Sum(Stats.Shifted(s, 0.0, d)) <= 1.0
  {
    Stats.SumShifted(s, 0.0, d);
    assert Stats.Times(|s| as real, 0.0) == 0.0;
    FactorAtMostOne(Sum(Stats.Shifted(s, 0.0, d)), d);
  }

  lemma RatioValues(ev: Vector, r: seq<Float>, total: real, singular: seq<real>, n: nat, numComponents: nat)
    requires n >= 2 && total > 0.0
    requires forall i :: 0 <= i < |singular| ==> Eigenvalues(singular, n)[i].Finite?
    requires ev == Values(Eigenvalues(singular, n)) && total == Sum(ev)
    requires FloatSum(Eigenvalues(singular, n)) == Finite(total)
    requires forall i :: 0 <= i < |ev| ==> ev[i] >= 0.0
    requires r == Ratios(singular, n, numComponents)
    ensures forall i :: 0 <= i < |r| ==> r[i] == Finite(ev[i] / total) && 0.0 <= ev[i] / total <= 1.0
    ensures Values(r) == Stats.Shifted(ev[..|r|], 0.0, total)
  {
    forall i | 0 <= i < |r|
      ensures r[i] == Finite(ev[i] / total) && 0.0 <= ev[i] / total <= 1.0
    {
      EntryBelowSum(ev, i);
      QuotientNonNegative(ev[i], total);
      QuotientAtMostOne(ev[i], total);
    }
  }

  /**
    Line 120 is unguarded: when every singular value is 0 the total is 0 and
    each ratio is 0 / 0, that is NaN.
   */
  lemma RatiosWithZeroTotal(singular: seq<real>, n: nat, numComponents: nat)
    requires n >= 2
    requires forall i :: 0 <= i < |singular| ==> singular[i] == 0.0
    ensures FloatSum(Eigenvalues(singular, n)) == Finite(0.0)
    ensures forall i :: 0 <= i < |Ratios(singular, n, numComponents)| ==> Ratios(singular, n, numComponents)[i].NonFinite?
  {
    var e := Eigenvalues(singular, n);
    TotalFinite(singular, n);
    Stats.SumConstant(Values(e), 0.0);
  }

  /** With one row, every eigenvalue and hence every ratio is non-finite. */
  lemma RatiosWithOneRow(singular: seq<real>, numComponents: nat)
    ensures forall i :: 0 <= i < |Ratios(singular, 1, numComponents)| ==> Ratios(singular, 1, numComponents)[i].NonFinite?
  {
    EigenvaluesFinite(singular, 1);
  }

  /**
    Lines 120-130: the SVD branch reports exactly `numComponents` values, the
    ratios first and then the fillers: `1 / numComponents` in slot 0 when
    there are no ratios at all, 0 everywhere else.
   */
  lemma SvdExplainedVarianceShape(singular: seq<real>, n: nat, numComponents: nat)
    ensures |SvdExplainedVariance(singular, n, numComponents)| == numComponents
    ensures forall i :: 0 <= i < Min(numComponents, |singular|) ==>
      SvdExplainedVariance(singular, n, numComponents)[i] == Ratios(singular, n, numComponents)[i]
    ensures forall i :: Min(numComponents, |singular|) <= i < numComponents ==>
      SvdExplainedVariance(singular, n, numComponents)[i] ==
        if i == 0 then Finite(1.0 / numComponents as real) else Finite(0.0)
  {
    var r := Ratios(singular, n, numComponents);
    PaddedShape(r, numComponents);
    forall i | 0 <= i < |r|
      ensures Padded(r, numComponents)[i] == r[i]
    {
      assert Padded(r, numComponents)[..|r|][i] == r[i];
    }
  }

  // ===========================================================================
  // performPCACovariance (lib/pca.ts:140-237)

  /** The iteration count of line 166. */
  const Iterations: nat := 50

  /** The collapse threshold of line 184, `1e-10`. */
  const Tiny: real := 0.0000000001

  /** Lines 145-155: entry (i, j) is the cross product of columns i and j over `n - 1`. */
  function CovarianceMatrix(z: Matrix, m: nat): (cov: Matrix)
    requires |z| >= 2 && IsRect(z, m)
    ensures |cov| == m && IsRect(cov, m)
  {
    seq(m, i requires 0 <= i < m =>
      seq(m, j requires 0 <= j < m => Dot(Column(z, i), Column(z, j)) / (|z| - 1) as real))
  }

  method Covariance(z: Matrix, m: nat) returns (cov: Matrix)
    requires |z| >= 2 && IsRect(z, m)
    ensures cov == CovarianceMatrix(z, m)
  {
    var n := |z|;
    cov := [];
    for i := 0 to m
      invariant |cov| == i
      invariant forall r :: 0 <= r < i ==> cov[r] == CovarianceMatrix(z, m)[r]
    {
      var row: Vector := [];
      for j := 0 to m
        invariant |row| == j
        invariant forall c :: 0 <= c < j ==> row[c] == CovarianceMatrix(z, m)[i][c]
      {
        var sum := CrossSum(z, m, i, j);
        row := row + [sum / (n - 1) as real];
      }
      cov := cov + [row];
    }
  }

  /** Lines 149-152: the sum over all rows of `z[k][i] * z[k][j]`. */
  method CrossSum(z: Matrix, m: nat, i: nat, j: nat) returns (sum: real)
    requires IsRect(z, m) && i < m && j < m
    ensures sum == Dot(Column(z, i), Column(z, j))
  {
    sum := 0.0;
    for k := 0 to |z|
      invariant sum == Dot(Column(z, i)[..k], Column(z, j)[..k])
    {
      DotSnoc(Column(z, i), Column(z, j), k);
      sum := sum + z[k][i] * z[k][j];
    }
    assert Column(z, i)[..|z|] == Column(z, i) && Column(z, j)[..|z|] == Column(z, j);
  }

  /** The covariance matrix is symmetric and has a non-negative diagonal. */
  lemma CovarianceSymmetric(z: Matrix, m: nat)
    requires |z| >= 2 && IsRect(z, m)
    ensures forall i, j :: 0 <= i < m && 0 <= j < m ==>
      CovarianceMatrix(z, m)[i][j] == CovarianceMatrix(z, m)[j][i]
    ensures forall i :: 0 <= i < m ==> CovarianceMatrix(z, m)[i][i] >= 0.0
  {
    var cov := CovarianceMatrix(z, m);
    forall i, j | 0 <= i < m && 0 <= j < m
      ensures cov[i][j] == cov[j][i]
    {
      DotSymmetric(Column(z, i), Column(z, j));
    }
    forall i | 0 <= i < m
      ensures cov[i][i] >= 0.0
    {
      DotSelfNonNegative(Column(z, i));
      QuotientNonNegative(Dot(Column(z, i), Column(z, i)), (|z| - 1) as real);
    }
  }

  // Power iteration with deflation (lines 161-186).

  /** Lines 175-181: subtract from `v` its component along each earlier vector, in order. */
  function Deflated(v: Vector, prevs: Matrix): (w: Vector)
    requires IsRect(prevs, |v|)
    ensures |w| == |v|
  {
    if |prevs| == 0 then v
    else
      var u := Deflated(v, prevs[..|prevs| - 1]);
      var c := prevs[|prevs| - 1];
      SubScaled(u, Dot(u, c), c)
  }

  /** One pass of lines 167-181: multiply by the covariance matrix, then deflate. */
  function PowerStep(cov: Matrix, v: Vector, prevs: Matrix): (w: Vector)
    requires |cov| == |v| && IsRect(cov, |v|) && IsRect(prevs, |v|)
    ensures |w| == |v|
  {
    Deflated(MatVec(cov, v), prevs)
  }

  /** Lines 166-186: at most `iters` normalized steps, stopping when the norm collapses. */
  function PowerLoop(cov: Matrix, v: Vector, prevs: Matrix, sqrt: real -> real, iters: nat): (r: Vector)
    requires |cov| == |v| && IsRect(cov, |v|) && IsRect(prevs, |v|)
    ensures |r| == |v|
    decreases iters
  {
    if iters == 0 then v
    else
      var w := PowerStep(cov, v, prevs);
      var norm := sqrt(Dot(w, w));
      if norm < Tiny then v else PowerLoop(cov, DivBy(w, norm), prevs, sqrt, iters - 1)
  }

  lemma PowerLoopStep(cov: Matrix, v: Vector, prevs: Matrix, sqrt: real -> real, iters: nat)
    requires |cov| == |v| && IsRect(cov, |v|) && IsRect(prevs, |v|) && iters > 0
    ensures var w := PowerStep(cov, v, prevs);
      PowerLoop(cov, v, prevs, sqrt, iters) ==
        if sqrt(Dot(w, w)) < Tiny then v else PowerLoop(cov, DivBy(w, sqrt(Dot(w, w))), prevs, sqrt, iters - 1)
  {
  }

  /** The first step already collapses (line 184), so the loop keeps its start vector. */
  predicate BreaksAtOnce(cov: Matrix, v: Vector, prevs: Matrix, sqrt: real -> real)
    requires |cov| == |v| && IsRect(cov, |v|) && IsRect(prevs, |v|)
  {
    sqrt(Dot(PowerStep(cov, v, prevs), PowerStep(cov, v, prevs))) < Tiny
  }

  /** Lines 167-172: `newVec = cov · eigenvector`, accumulated in a fresh array. */
  method MultiplyCovariance(cov: Matrix, v: Vector) returns (newVec: array<real>)
    requires |cov| == |v| && IsRect(cov, |v|)
    ensures fresh(newVec) && newVec[..] == MatVec(cov, v)
  {
    var m := |v|;
    newVec := new real[m](_ => 0.0);
    for i := 0 to m
      invariant forall r :: 0 <= r < i ==> newVec[r] == Dot(cov[r], v)
      invariant forall r :: i <= r < m ==> newVec[r] == 0.0
    {
      for j := 0 to m
        invariant forall r :: 0 <= r < i ==> newVec[r] == Dot(cov[r], v)
        invariant forall r :: i < r < m ==> newVec[r] == 0.0
        invariant newVec[i] == Dot(cov[i][..j], v[..j])
      {
        DotSnoc(cov[i], v, j);
        newVec[i] := newVec[i] + cov[i][j] * v[j];
      }
      assert cov[i][..m] == cov[i] && v[..m] == v;
    }
  }

  /** Lines 175-181, in place. */
  method Deflate(newVec: array<real>, prevs: Matrix)
    requires IsRect(prevs, newVec.Length)
    modifies newVec
    ensures newVec[..] == Deflated(old(newVec[..]), prevs)
  {
    ghost var v0 := newVec[..];
    for p := 0 to |prevs|
      invariant newVec[..] == Deflated(v0, prevs[..p])
    {
      var prevVec := prevs[p];
      var dot := Dot(newVec[..], prevVec);
      SubtractScaled(newVec, dot, prevVec);
      assert prevs[..p + 1][..p] == prevs[..p];
    }
    assert prevs[..|prevs|] == prevs;
  }

  /** Lines 178-180: `newVec[i] -= dot * prevVec[i]` for every `i`. */
  method SubtractScaled(newVec: array<real>, dot: real, prevVec: Vector)
    requires |prevVec| == newVec.Length
    modifies newVec
    ensures newVec[..] == SubScaled(old(newVec[..]), dot, prevVec)
  {
    ghost var before := newVec[..];
    for i := 0 to newVec.Length
      invariant forall r :: 0 <= r < i ==> newVec[r] == before[r] - dot * prevVec[r]
      invariant forall r :: i <= r < newVec.Length ==> newVec[r] == before[r]
    {
      newVec[i] := newVec[i] - dot * prevVec[i];
    }
  }

  /** Lines 166-186 for one component, from the normalized random start. */
  method PowerIterate(cov: Matrix, start: Vector, prevs: Matrix, sqrt: real -> real) returns (eigenvector: Vector)
    requires |cov| == |start| && IsRect(cov, |start|) && IsRect(prevs, |start|)
    ensures eigenvector == PowerLoop(cov, start, prevs, sqrt, Iterations)
  {
    eigenvector := start;
    for iter := 0 to Iterations
      invariant |eigenvector| == |start|
      invariant PowerLoop(cov, eigenvector, prevs, sqrt, Iterations - iter) == PowerLoop(cov, start, prevs, sqrt, Iterations)
    {
      var newVec := MultiplyCovariance(cov, eigenvector);
      Deflate(newVec, prevs);
      var w := newVec[..];
      var norm := sqrt(Dot(w, w));
      PowerLoopStep(cov, eigenvector, prevs, sqrt, Iterations - iter);
      if norm < Tiny {
        break;
      }
      eigenvector := DivBy(w, norm);
    }
  }

  /** Lines 189-196: `eigenvectorᵀ · cov · eigenvector`. */
  function Rayleigh(cov: Matrix, v: Vector): real
    requires |cov| == |v| && IsRect(cov, |v|)
  {
    Dot(MatVec(cov, v), v)
  }

  method RayleighQuotient(cov: Matrix, v: Vector) returns (eigenvalue: real)
    requires |cov| == |v| && IsRect(cov, |v|)
    ensures eigenvalue == Rayleigh(cov, v)
  {
    var m := |v|;
    ghost var mv := MatVec(cov, v);
    eigenvalue := 0.0;
    for i := 0 to m
      invariant eigenvalue == Dot(mv[..i], v[..i])
    {
      var dot := RowTimes(cov[i], v);
      DotSnoc(mv, v, i);
      eigenvalue := eigenvalue + dot * v[i];
    }
    assert mv[..m] == mv && v[..m] == v;
  }

  /** Lines 191-194: one entry of `cov · eigenvector`. */
  method RowTimes(row: Vector, v: Vector) returns (dot: real)
    requires |row| == |v|
    ensures dot == Dot(row, v)
  {
    dot := 0.0;
    for j := 0 to |v|
      invariant dot == Dot(row[..j], v[..j])
    {
      DotSnoc(row, v, j);
      dot := dot + row[j] * v[j];
    }
    assert row[..|v|] == row && v[..|v|] == v;
  }

  // The random start vectors (lines 162-164).

  /** `new Array(m).fill(0).map(() => Math.random() - 0.5)` for component `c`. */
  function Draws(random: (nat, nat) -> real, c: nat, m: nat): (d: Vector)
    ensures |d| == m
  {
    seq(m, i requires 0 <= i < m => random(c, i) - 0.5)
  }

  /** The draws for the first `k` components do not all vanish, so line 164 divides by a non-zero norm. */
  predicate InitialNormsNonZero(random: (nat, nat) -> real, sqrt: real -> real, m: nat, k: nat)
  {
    forall c :: 0 <= c < k ==> sqrt(Dot(Draws(random, c, m), Draws(random, c, m))) != 0.0
  }

  function InitialVector(random: (nat, nat) -> real, sqrt: real -> real, c: nat, m: nat): (v: Vector)
    requires sqrt(Dot(Draws(random, c, m), Draws(random, c, m))) != 0.0
    ensures |v| == m
  {
    DivBy(Draws(random, c, m), sqrt(Dot(Draws(random, c, m), Draws(random, c, m))))
  }

  /** The components lines 161-200 collect, each iterated against the ones before it. */
  function Components(cov: Matrix, random: (nat, nat) -> real, sqrt: real -> real, k: nat): (comps: Matrix)
    requires IsRect(cov, |cov|) && InitialNormsNonZero(random, sqrt, |cov|, k)
    ensures |comps| == k && IsRect(comps, |cov|)
  {
    if k == 0 then []
    else
      var prev := Components(cov, random, sqrt, k - 1);
      prev + [PowerLoop(cov, InitialVector(random, sqrt, k - 1, |cov|), prev, sqrt, Iterations)]
  }

  lemma ComponentsSnoc(cov: Matrix, random: (nat, nat) -> real, sqrt: real -> real, k: nat)
    requires IsRect(cov, |cov|) && InitialNormsNonZero(random, sqrt, |cov|, k + 1)
    ensures Components(cov, random, sqrt, k + 1) ==
      Components(cov, random, sqrt, k) +
      [PowerLoop(cov, InitialVector(random, sqrt, k, |cov|), Components(cov, random, sqrt, k), sqrt, Iterations)]
  {
  }

  /** Lines 219-222: the sum of the diagonal. */
  function Trace(cov: Matrix): real
    requires IsRect(cov, |cov|)
  {
    Sum(seq(|cov|, i requires 0 <= i < |cov| => cov[i][i]))
  }

  method SumDiagonal(cov: Matrix) returns (totalVariance: real)
    requires IsRect(cov, |cov|)
    ensures totalVariance == Trace(cov)
  {
    ghost var diag := seq(|cov|, i requires 0 <= i < |cov| => cov[i][i]);
    totalVariance := 0.0;
    for i := 0 to |cov|
      invariant totalVariance == Sum(diag[..i])
    {
      SumSnoc(diag, i);
      totalVariance := totalVariance + cov[i][i];
    }
    assert diag[..|cov|] == diag;
  }

  /**
    Lines 225-227: a trace that is not positive is replaced by the number of
    dimensions.  (`!isFinite(totalVariance)` has no counterpart on reals.)
   */
  function TotalVariance(cov: Matrix): real
    requires IsRect(cov, |cov|)
  {
    if Trace(cov) <= 0.0 then |cov| as real else Trace(cov)
  }

  /** What the fallback needs: two rows (line 153 divides by `n - 1`), a column, and non-zero start norms. */
  predicate FallbackDefined(z: Matrix, numComponents: nat, random: (nat, nat) -> real, sqrt: real -> real)
  {
    |z| >= 2 && |z[0]| > 0 && IsRect(z, |z[0]|) && InitialNormsNonZero(random, sqrt, |z[0]|, numComponents)
  }

  function FallbackResult(z: Matrix, numComponents: nat, random: (nat, nat) -> real, sqrt: real -> real): PCAResult
    requires FallbackDefined(z, numComponents, random, sqrt)
  {
    var m := |z[0]|;
    var cov := CovarianceMatrix(z, m);
    var comps := Components(cov, random, sqrt, numComponents);
    PCAResult(Projected(z, comps, m), comps,
              seq(numComponents, c requires 0 <= c < numComponents => Finite(Abs(Rayleigh(cov, comps[c])) / TotalVariance(cov))))
  }

  /** Lines 203-213. */
  method Project(z: Matrix, comps: Matrix, m: nat) returns (transformed: Matrix)
    requires IsRect(z, m) && IsRect(comps, m)
    ensures transformed == Projected(z, comps, m)
  {
    transformed := [];
    for r := 0 to |z|
      invariant |transformed| == r
      invariant forall q :: 0 <= q < r ==> transformed[q] == Projected(z, comps, m)[q]
    {
      var row := z[r];
      var point: Vector := [];
      for comp := 0 to |comps|
        invariant |point| == comp
        invariant forall c :: 0 <= c < comp ==> point[c] == Dot(row, comps[c])
      {
        var sum := 0.0;
        for i := 0 to |row|
          invariant sum == Dot(row[..i], comps[comp][..i])
        {
          DotSnoc(row, comps[comp], i);
          sum := sum + row[i] * comps[comp][i];
        }
        assert row[..|row|] == row && comps[comp][..|row|] == comps[comp];
        point := point + [sum];
      }
      transformed := transformed + [point];
    }
  }

  /** Lines 158-200: the components and the absolute Rayleigh quotients of line 199. */
  method FindComponents(cov: Matrix, numComponents: nat, random: (nat, nat) -> real, sqrt: real -> real)
    returns (components: Matrix, eigenvalues: seq<real>)
    requires IsRect(cov, |cov|) && InitialNormsNonZero(random, sqrt, |cov|, numComponents)
    ensures components == Components(cov, random, sqrt, numComponents)
    ensures |eigenvalues| == numComponents
    ensures forall c :: 0 <= c < numComponents ==> eigenvalues[c] == Abs(Rayleigh(cov, components[c]))
  {
    var m := |cov|;
    components := [];
    eigenvalues := [];
    for comp := 0 to numComponents
      invariant components == Components(cov, random, sqrt, comp)
      invariant |eigenvalues| == comp
      invariant forall c :: 0 <= c < comp ==> eigenvalues[c] == Abs(Rayleigh(cov, components[c]))
    {
      var eigenvector := Draws(random, comp, m);
      var norm := sqrt(Dot(eigenvector, eigenvector));
      eigenvector := DivBy(eigenvector, norm);
      assert eigenvector == InitialVector(random, sqrt, comp, m);
      eigenvector := PowerIterate(cov, eigenvector, components, sqrt);
      var eigenvalue := RayleighQuotient(cov, eigenvector);
      ComponentsSnoc(cov, random, sqrt, comp);
      components := components + [eigenvector];
      eigenvalues := eigenvalues + [Abs(eigenvalue)];
    }
  }

  method PerformPCACovariance(z: Matrix, numComponents: nat, random: (nat, nat) -> real, sqrt: real -> real)
    returns (result: PCAResult)
    requires FallbackDefined(z, numComponents, random, sqrt)
    ensures result == FallbackResult(z, numComponents, random, sqrt)
  {
    var m := |z[0]|;
    var cov := Covariance(z, m);
    var components, eigenvalues := FindComponents(cov, numComponents, random, sqrt);
    var transformed := Project(z, components, m);
    var totalVariance := SumDiagonal(cov);
    if totalVariance <= 0.0 {
      totalVariance := m as real;
    }
    var explainedVariance := seq(numComponents, c requires 0 <= c < numComponents => Finite(eigenvalues[c] / totalVariance));
    result := PCAResult(transformed, components, explainedVariance);
  }

  // ---------------------------------------------------------------------------
  // Properties of the fallback

  /**
    Lines 175-181: deflating against orthonormal vectors leaves a vector with
    zero dot product with each of them.
   */
  lemma {:induction false} DeflatedOrthogonal(v: Vector, prevs: Matrix)
    requires IsRect(prevs, |v|) && Orthonormal(prevs, |v|)
    ensures forall q :: 0 <= q < |prevs| ==> Dot(Deflated(v, prevs), prevs[q]) == 0.0
  {
    if |prevs| > 0 {
      var p := |prevs| - 1;
      var front := prevs[..p];
      DeflatedOrthogonal(v, front);
      var u := Deflated(v, front);
      var c := prevs[p];
      var a := Dot(u, c);
      forall q | 0 <= q < |prevs|
        ensures Dot(Deflated(v, prevs), prevs[q]) == 0.0
      {
        DotSubScaled(u, a, c, prevs[q]);
        if q == p {
          assert Dot(c, c) == 1.0;
        } else {
          assert Dot(c, prevs[q]) == 0.0;
          assert front[q] == prevs[q];
        }
      }
    }
  }

  /** A step that does not collapse, normalized, is orthogonal to orthonormal `prevs`. */
  lemma NormalizedStepOrthogonal(cov: Matrix, v: Vector, prevs: Matrix, sqrt: real -> real)
    requires |cov| == |v| && IsRect(cov, |v|) && IsRect(prevs, |v|) && Orthonormal(prevs, |v|)
    requires sqrt(Dot(PowerStep(cov, v, prevs), PowerStep(cov, v, prevs))) != 0.0
    ensures forall q :: 0 <= q < |prevs| ==>
      Dot(DivBy(PowerStep(cov, v, prevs), sqrt(Dot(PowerStep(cov, v, prevs), PowerStep(cov, v, prevs)))), prevs[q]) == 0.0
  {
    var w := PowerStep(cov, v, prevs);
    DeflatedOrthogonal(MatVec(cov, v), prevs);
    forall q | 0 <= q < |prevs|
      ensures Dot(DivBy(w, sqrt(Dot(w, w))), prevs[q]) == 0.0
    {
      DotDivBy(w, sqrt(Dot(w, w)), prevs[q]);
    }
  }

  /** Once the vector is orthogonal to orthonormal `prevs`, every later step keeps it so. */
  lemma {:induction false} PowerLoopStaysOrthogonal(cov: Matrix, v: Vector, prevs: Matrix, sqrt: real -> real, iters: nat)
    requires |cov| == |v| && IsRect(cov, |v|) && IsRect(prevs, |v|) && Orthonormal(prevs, |v|)
    requires forall q :: 0 <= q < |prevs| ==> Dot(v, prevs[q]) == 0.0
    ensures forall q :: 0 <= q < |prevs| ==> Dot(PowerLoop(cov, v, prevs, sqrt, iters), prevs[q]) == 0.0
    decreases iters
  {
    if iters > 0 {
      var w := PowerStep(cov, v, prevs);
      var norm := sqrt(Dot(w, w));
      if norm >= Tiny {
        NormalizedStepOrthogonal(cov, v, prevs, sqrt);
        PowerLoopStaysOrthogonal(cov, DivBy(w, norm), prevs, sqrt, iters - 1);
      }
    }
  }

  /**
    Unless the very first step collapses, the vector the loop of lines
    166-186 ends with is orthogonal to every earlier (orthonormal) component.
   */
  lemma PowerLoopOrthogonal(cov: Matrix, v: Vector, prevs: Matrix, sqrt: real -> real, iters: nat)
    requires |cov| == |v| && IsRect(cov, |v|) && IsRect(prevs, |v|) && Orthonormal(prevs, |v|)
    requires iters > 0 && !BreaksAtOnce(cov, v, prevs, sqrt)
    ensures forall q :: 0 <= q < |prevs| ==> Dot(PowerLoop(cov, v, prevs, sqrt, iters), prevs[q]) == 0.0
  {
    var w := PowerStep(cov, v, prevs);
    var norm := sqrt(Dot(w, w));
    NormalizedStepOrthogonal(cov, v, prevs, sqrt);
    PowerLoopStaysOrthogonal(cov, DivBy(w, norm), prevs, sqrt, iters - 1);
  }

  /** When the first step collapses, the loop breaks and keeps the undeflated start vector. */
  lemma CollapseKeepsStart(cov: Matrix, v: Vector, prevs: Matrix, sqrt: real -> real, iters: nat)
    requires |cov| == |v| && IsRect(cov, |v|) && IsRect(prevs, |v|)
    requires iters > 0 && BreaksAtOnce(cov, v, prevs, sqrt)
    ensures PowerLoop(cov, v, prevs, sqrt, iters) == v
  {
  }

  /** With an exact square root, a unit start vector stays a unit vector. */
  lemma {:induction false} PowerLoopUnit(cov: Matrix, v: Vector, prevs: Matrix, sqrt: real -> real, iters: nat)
    requires |cov| == |v| && IsRect(cov, |v|) && IsRect(prevs, |v|)
    requires ExactSqrt(sqrt) && Dot(v, v) == 1.0
    ensures Dot(PowerLoop(cov, v, prevs, sqrt, iters), PowerLoop(cov, v, prevs, sqrt, iters)) == 1.0
    decreases iters
  {
    if iters > 0 {
      var w := PowerStep(cov, v, prevs);
      var norm := sqrt(Dot(w, w));
      if norm >= Tiny {
        Normalized(w, sqrt);
        PowerLoopUnit(cov, DivBy(w, norm), prevs, sqrt, iters - 1);
      }
    }
  }

  /** With an exact square root, every fallback component is a unit vector. */
  lemma {:induction false} ComponentsUnit(cov: Matrix, random: (nat, nat) -> real, sqrt: real -> real, k: nat)
    requires IsRect(cov, |cov|) && InitialNormsNonZero(random, sqrt, |cov|, k) && ExactSqrt(sqrt)
    ensures forall c :: 0 <= c < k ==>
      Dot(Components(cov, random, sqrt, k)[c], Components(cov, random, sqrt, k)[c]) == 1.0
  {
    if k > 0 {
      ComponentsUnit(cov, random, sqrt, k - 1);
      Normalized(Draws(random, k - 1, |cov|), sqrt);
      PowerLoopUnit(cov, InitialVector(random, sqrt, k - 1, |cov|), Components(cov, random, sqrt, k - 1), sqrt, Iterations);
    }
  }

  /** No component after the first collapses on its first step. */
  predicate NoEarlyCollapse(cov: Matrix, random: (nat, nat) -> real, sqrt: real -> real, k: nat)
    requires IsRect(cov, |cov|) && InitialNormsNonZero(random, sqrt, |cov|, k)
  {
    forall c :: 1 <= c < k ==>
      !BreaksAtOnce(cov, InitialVector(random, sqrt, c, |cov|), Components(cov, random, sqrt, c), sqrt)
  }

  /**
    With an exact square root, and unless a later component collapses on its
    first step, the fallback components are orthonormal.
   */
  lemma {:induction false} ComponentsOrthonormal(cov: Matrix, random: (nat, nat) -> real, sqrt: real -> real, k: nat)
    requires IsRect(cov, |cov|) && InitialNormsNonZero(random, sqrt, |cov|, k) && ExactSqrt(sqrt)
    requires NoEarlyCollapse(cov, random, sqrt, k)
    ensures Orthonormal(Components(cov, random, sqrt, k), |cov|)
  {
    if k > 0 {
      var prev := Components(cov, random, sqrt, k - 1);
      var start := InitialVector(random, sqrt, k - 1, |cov|);
      var v := PowerLoop(cov, start, prev, sqrt, Iterations);
      ComponentsSnoc(cov, random, sqrt, k - 1);
      CollapseFreePrefix(cov, random, sqrt, k);
      ComponentsOrthonormal(cov, random, sqrt, k - 1);
      ComponentsUnit(cov, random, sqrt, k);
      assert Dot(v, v) == 1.0 by {
        assert Components(cov, random, sqrt, k)[k - 1] == v;
      }
      if k > 1 {
        LastComponentOrthogonal(cov, random, sqrt, k, prev, start);
      }
      OrthonormalSnoc(prev, v, |cov|);
    }
  }

  /** The hypotheses of `ComponentsOrthonormal` hold for fewer components. */
  lemma CollapseFreePrefix(cov: Matrix, random: (nat, nat) -> real, sqrt: real -> real, k: nat)
    requires IsRect(cov, |cov|) && InitialNormsNonZero(random, sqrt, |cov|, k) && k > 0
    requires NoEarlyCollapse(cov, random, sqrt, k)
    ensures InitialNormsNonZero(random, sqrt, |cov|, k - 1) && NoEarlyCollapse(cov, random, sqrt, k - 1)
  {
  }

  /** The newest component is orthogonal to the ones before it. */
  lemma LastComponentOrthogonal(cov: Matrix, random: (nat, nat) -> real, sqrt: real -> real, k: nat, prev: Matrix, start: Vector)
    requires IsRect(cov, |cov|) && InitialNormsNonZero(random, sqrt, |cov|, k) && k > 1
    requires prev == Components(cov, random, sqrt, k - 1) && start == InitialVector(random, sqrt, k - 1, |cov|)
    requires NoEarlyCollapse(cov, random, sqrt, k) && Orthonormal(prev, |cov|)
    ensures forall q :: 0 <= q < |prev| ==> Dot(PowerLoop(cov, start, prev, sqrt, Iterations), prev[q]) == 0.0
  {
    assert !BreaksAtOnce(cov, start, prev, sqrt);
    PowerLoopOrthogonal(cov, start, prev, sqrt, Iterations);
  }

  /** The trace of a covariance matrix is never negative, so the guard replaces only a zero trace. */
  lemma TotalVariancePositive(z: Matrix, m: nat)
    requires |z| >= 2 && IsRect(z, m) && m > 0
    ensures Trace(CovarianceMatrix(z, m)) >= 0.0
    ensures TotalVariance(CovarianceMatrix(z, m)) > 0.0
  {
    var cov := CovarianceMatrix(z, m);
    CovarianceSymmetric(z, m);
    SumPrefixBound(seq(m, i requires 0 <= i < m => cov[i][i]), 0);
  }

  /** A column whose squares add up to n - 1 has covariance 1 with itself. */
  lemma UnitDiagonal(z: Matrix, m: nat, j: nat)
    requires |z| >= 2 && IsRect(z, m) && j < m
    requires Dot(Column(z, j), Column(z, j)) == (|z| - 1) as real
    ensures CovarianceMatrix(z, m)[j][j] == 1.0
  {
  }

  lemma {:induction false} DotSelfIsSqDev(s: Vector)
    ensures Dot(s, s) == Stats.SqDev(s, 0.0)
  {
    if |s| > 0 {
      DotSelfIsSqDev(s[..|s| - 1]);
      assert s[|s| - 1] - 0.0 == s[|s| - 1];
    }
  }

  /**
    The expectation stated at lines 216-218: with an exact square root and no
    constant column, the covariance of standardized data has a unit diagonal,
    so its trace is the number of columns.
   */
  lemma StandardizedTrace(data: Matrix, sqrt: real -> real)
    requires |data| >= 2 && IsRect(data, |data[0]|) && ExactSqrt(sqrt)
    requires forall j :: 0 <= j < |data[0]| ==> Stats.SqDev(Column(data, j), Stats.Mean(Column(data, j))) > 0.0
    ensures Trace(CovarianceMatrix(StandardizedMatrix(data, sqrt), |data[0]|)) == |data[0]| as real
  {
    var m := |data[0]|;
    var z := StandardizedMatrix(data, sqrt);
    var cov := CovarianceMatrix(z, m);
    forall j | 0 <= j < m
      ensures cov[j][j] == 1.0
    {
      DotSelfIsSqDev(Column(z, j));
      StandardizedUnitVariance(data, sqrt, j);
      UnitDiagonal(z, m, j);
    }
    TraceOfUnitDiagonal(cov);
  }

  lemma TraceOfUnitDiagonal(cov: Matrix)
    requires IsRect(cov, |cov|)
    requires forall j :: 0 <= j < |cov| ==> cov[j][j] == 1.0
    ensures Trace(cov) == |cov| as real
  {
    Stats.SumConstant(seq(|cov|, i requires 0 <= i < |cov| => cov[i][i]), 1.0);
  }

  /**
    Lines 199-213 and 219-230: the fallback returns `numComponents` components
    of `m` entries, an n × `numComponents` projection whose entry (i, c) is
    row i dotted with component c, and `numComponents` finite, non-negative
    ratios.
   */
  lemma FallbackShape(z: Matrix, numComponents: nat, random: (nat, nat) -> real, sqrt: real -> real)
    requires FallbackDefined(z, numComponents, random, sqrt)
    ensures ResultShape(FallbackResult(z, numComponents, random, sqrt), z, |z[0]|, numComponents)
    ensures |FallbackResult(z, numComponents, random, sqrt).components| == numComponents
    ensures forall c :: 0 <= c < numComponents ==>
      FallbackResult(z, numComponents, random, sqrt).explainedVariance[c].Finite? &&
      FallbackResult(z, numComponents, random, sqrt).explainedVariance[c].value >= 0.0
  {
    var m := |z[0]|;
    var cov := CovarianceMatrix(z, m);
    TotalVariancePositive(z, m);
    var comps := Components(cov, random, sqrt, numComponents);
    forall c | 0 <= c < numComponents
      ensures Abs(Rayleigh(cov, comps[c])) / TotalVariance(cov) >= 0.0
    {
      QuotientNonNegative(Abs(Rayleigh(cov, comps[c])), TotalVariance(cov));
    }
  }

  // ===========================================================================
  // performPCA (lib/pca.ts:45-137)

  /**
    What the model asks of the supplied functions on non-empty, rectangular
    data: the SVD returns well-shaped matrices, and when the SVD branch throws
    the fallback is defined.
   */
  predicate PcaDefined(data: Matrix, numComponents: nat, sqrt: real -> real, decompose: Matrix -> Svd,
                       random: (nat, nat) -> real)
    requires |data| > 0 && |data[0]| > 0 && IsRect(data, |data[0]|)
  {
    var z := StandardizedMatrix(data, sqrt);
    SvdWellFormed(decompose(z), |data[0]|) &&
    (!SvdPathSucceeds(decompose(z), numComponents) ==> FallbackDefined(z, numComponents, random, sqrt))
  }

  /** The result of `performPCA`: the SVD branch when it returns, the fallback otherwise. */
  function PCA(data: Matrix, numComponents: nat, sqrt: real -> real, decompose: Matrix -> Svd,
               random: (nat, nat) -> real): PCAResult
    requires |data| > 0 && |data[0]| > 0 && IsRect(data, |data[0]|)
    requires PcaDefined(data, numComponents, sqrt, decompose, random)
  {
    var z := StandardizedMatrix(data, sqrt);
    var svd := decompose(z);
    if SvdPathSucceeds(svd, numComponents) then
      SvdResult(z, svd.rightSingularVectors.value, svd.diagonal, numComponents)
    else
      FallbackResult(z, numComponents, random, sqrt)
  }

  method PerformPCA(data: Matrix, numComponents: nat, sqrt: real -> real, decompose: Matrix -> Svd,
                    random: (nat, nat) -> real) returns (r: Result<PCAResult>)
    requires |data| > 0 ==> IsRect(data, |data[0]|)
    requires |data| > 0 && |data[0]| > 0 ==> PcaDefined(data, numComponents, sqrt, decompose, random)
    ensures r.Err? <==> |data| == 0 || |data[0]| == 0
    ensures r.Err? ==> r.message == EmptyDataMessage
    ensures r.Ok? ==> r.value == PCA(data, numComponents, sqrt, decompose, random)
  {
    if |data| == 0 || |data[0]| == 0 {
      return Err(EmptyDataMessage);
    }
    var standardized := Standardize(data, sqrt);
    var attempt := TrySvd(standardized, decompose(standardized), numComponents);
    if attempt.Some? {
      return Ok(attempt.value);
    }
    var fallback := PerformPCACovariance(standardized, numComponents, random, sqrt);
    return Ok(fallback);
  }

  /**
    Whichever branch runs, there are exactly `numComponents` explained-variance
    values and one transformed row per input row; every component has one
    entry per column, and entry (i, c) of `transformed` is standardized row i
    dotted with component c.  The SVD branch returns `min(numComponents,
    Vt.rows)` components, at least one; the fallback exactly `numComponents`.
   */
  lemma PCAShape(data: Matrix, numComponents: nat, sqrt: real -> real, decompose: Matrix -> Svd,
                 random: (nat, nat) -> real)
    requires |data| > 0 && |data[0]| > 0 && IsRect(data, |data[0]|)
    requires PcaDefined(data, numComponents, sqrt, decompose, random)
    ensures var r := PCA(data, numComponents, sqrt, decompose, random);
      var z := StandardizedMatrix(data, sqrt);
      ResultShape(r, z, |data[0]|, numComponents) &&
      (SvdPathSucceeds(decompose(z), numComponents) ==>
         |r.components| == Min(numComponents, decompose(z).rightSingularVectors.value.rows)) &&
      (!SvdPathSucceeds(decompose(z), numComponents) ==> |r.components| == numComponents)
  {
    var z := StandardizedMatrix(data, sqrt);
    var svd := decompose(z);
    if SvdPathSucceeds(svd, numComponents) {
      SvdShape(z, svd.rightSingularVectors.value, svd.diagonal, numComponents);
    } else {
      FallbackShape(z, numComponents, random, sqrt);
    }
  }

  /** The shape every `PCAResult` of `z` (n × m) has. */
  predicate ResultShape(r: PCAResult, z: Matrix, m: nat, numComponents: nat)
    requires IsRect(z, m)
  {
    |r.explainedVariance| == numComponents &&
    |r.components| <= numComponents && IsRect(r.components, m) &&
    |r.transformed| == |z| && IsRect(r.transformed, |r.components|) &&
    (forall i, c :: 0 <= i < |z| && 0 <= c < |r.components| ==> r.transformed[i][c] == Dot(z[i], r.components[c]))
  }

  lemma SvdShape(z: Matrix, vt: MlMatrix, d: Diagonal, numComponents: nat)
    requires |z| > 0 && vt.Valid() && IsRect(z, vt.columns)
    requires d.DiagonalMatrix? ==> d.matrix.Valid()
    ensures ResultShape(SvdResult(z, vt, d, numComponents), z, vt.columns, numComponents)
    ensures |SvdResult(z, vt, d, numComponents).components| == Min(numComponents, vt.rows)
  {
  }
}
