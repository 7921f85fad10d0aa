# PCA engine and metric helpers of the finance PCA demo, in Dafny

This project models the numerical core of a small web application. The application runs principal component analysis (PCA) over eight financial metrics of a set of companies.

**The PCA engine (`lib/pca.ts`)**

- `standardize` centres each column on its mean. It divides by the sample standard deviation, and a zero deviation becomes 1.
- `performPCA` rejects empty data and standardizes it. It then asks the ml-matrix library for a singular value decomposition (SVD) and reads the components and the singular values from it. From these it computes the eigenvalues and the explained-variance ratios, and pads the ratio list to `numComponents` entries.
- When the SVD branch throws, the work falls to `performPCACovariance`. It builds the covariance matrix and runs 50 steps of power iteration per component, deflating against earlier components. It also takes absolute Rayleigh quotients, projects the data, and guards the trace used as total variance.

**The helpers that select metrics and build matrices**

- `extractFeatures` and `featureNames` (`lib/financeData.ts`).
- `buildMatrix`, the `isAll8Selected` test and `toggle` (`app/compress/page.tsx`).
- `build2DFromSelection`, `standardize2D`, `projectTo1DFromStandardized` and `toggleMetric` (`app/demo/page.tsx`).

## Modelling approach

The model takes the form of the code:

- Functions over values stay functions.
- Loops that fill arrays or accumulate sums become methods. These are:
  - the nested loops of `standardize` (`Pca.ColumnMeans`, `Pca.SquaredDeviations`, `Pca.ColumnStds`);
  - the copy loops of the SVD branch and its padding `while` loop;
  - the covariance triple loop;
  - the power iteration, including the in-place deflation of the `newVec` array;
  - the Rayleigh quotient, projection and trace loops;
  - the mean and deviation loops of `standardize2D`;
  - the `next` reassignments of `toggle` and `toggleMetric`.
- Each method is proved equal to a specification function of its inputs. The properties are then lemmas about those functions.

Numbers are exact `real`s.

Lemmas that hand products to one another state them as `Stats.Times(x, y)`, a named product, so that caller and callee speak of the same term.

- `Math.sqrt` is a parameter `sqrt: real -> real` that the model knows nothing about. A lemma that needs the true square root says so with `ExactSqrt(sqrt)`.
- `Math.random` is a parameter `random(c, i)`: the draw for coordinate `i` of component `c`.
- `Math.cos` and `Math.sin` are parameters.
- The ml-matrix SVD is a parameter `decompose: Matrix -> Svd`. Its result may:
  - throw;
  - lack `rightSingularVectors`;
  - carry a `diagonal` that is an array, a matrix, or anything else.

  Its rows are read exactly as the code reads them, through `get(i, j)`. They are not assumed to be orthonormal.

JavaScript NaN and Infinity are modelled, as `Pca.Float`, only where the code can produce them and goes on computing: the eigenvalue and ratio arithmetic of lines 116-120. There, a single row gives `s*s/0`, and an all-zero total gives `0/0`. Elsewhere one of two things holds:

- the code guards the value itself: `|| 1` turns the NaN of a one-row standardization into 1, shown by `Stats.GuardedStd`;
- the model asks its caller to exclude the case (see "Left out").

Two behaviours of the code are easy to misread:

- **Padding.** When the SVD yields no singular values at all, the `while` loop (lib/pca.ts:123-125) pushes `1/numComponents` only into the first slot. After that the list is non-empty, so the remaining slots get 0. The result is `[1/k, 0, ..., 0]` (`Pca.PaddedShape`, `Pca.SvdExplainedVarianceShape`).
- **`isAll8Selected`.** The comment above it (app/compress/page.tsx:43) speaks of "the correct order", but the test at line 45 does not look at order. `Compress.IsAll8SelectedMeans` states what it does test. `Compress.PageMatrix` shows that the page does not depend on order, because `buildMatrix` puts the columns in canonical order anyway.

## Model

| member | source | states |
|---|---|---|
| `Stats.OrOne` | lib/pca.ts:33 | the falsy-to-1 guard on a number is never 0; it keeps every non-zero value and maps 0 to 1 |
| `Stats.Mean` | lib/pca.ts:15-23 | the column sum over the number of rows; `Stats.MeanTimesLength` states n times it is the sum |
| `Stats.SqDev` | lib/pca.ts:26-31 | the sum of `(x - c)²` over the column; `Stats.SqDevAsSum` and `Stats.SqDevScaled` state its properties |
| `Stats.Std` | lib/pca.ts:32-34 | the guarded root of the squared deviations over n - 1; `Stats.StdNonZero` and `Stats.StdIsRoot` state its properties |
| `Stats.GuardedStd` | lib/pca.ts:33 | the guarded deviation of line 33 is non-zero for any `sqrt`, including the one-row case where the quotient is NaN |
| `Stats.StdNonZero` | lib/pca.ts:32-34 | a column's divisor is never zero, and is exactly 1 for a single row |
| `Stats.Shifted` | lib/pca.ts:37-39 | the centred-and-scaled column has the input's length, and entry i is `(s[i] - c) / d` |
| `Stats.Standardized` | lib/pca.ts:37-39 | a standardized column has as many entries as the column |
| `Stats.SumShifted` | lib/pca.ts:37-39 | the sum of a shifted column, times the divisor, is the column sum minus n times the shift |
| `Stats.CentredSumZero` | lib/pca.ts:15-23 | in exact arithmetic every standardized column sums to zero |
| `Stats.SumConstant` | lib/pca.ts:15-20 | a column of equal values sums to n times that value |
| `Stats.ConstantColumnToZeros` | lib/pca.ts:33 | a constant column standardizes to all zeros, never NaN |
| `Stats.SqDevScaled` | lib/pca.ts:26-31 | the squared deviations of the scaled column, times d², are the squared deviations of the original |
| `Stats.SumTimes` | lib/pca.ts:29 | when every entry of one list times a factor is the matching entry of another, the sums are related by the same factor |
| `Stats.StdIsRoot` | lib/pca.ts:33 | with an exact square root and a non-constant column, the divisor is non-zero and its square times n - 1 is the sum of squared deviations |
| `Stats.UnitVariance` | lib/pca.ts:26-39 | with an exact square root, a non-constant column of at least two rows standardizes to squared deviations that add up to n - 1: sample variance 1 |
| `LinAlg.DotSubScaled` | lib/pca.ts:177-180 | subtracting `dot * prevVec` from a vector lowers its dot product with any w by `dot * (prevVec · w)` |
| `LinAlg.Normalized` | lib/pca.ts:163-164 | with an exact square root, dividing a vector by its non-zero norm gives a unit vector |
| `LinAlg.DotSymmetric` | lib/pca.ts:151 | the dot product is symmetric |
| `LinAlg.DotSelfNonNegative` | lib/pca.ts:163 | a vector's dot product with itself is non-negative |
| `LinAlg.OrthonormalSnoc` | lib/pca.ts:198 | pushing a unit vector orthogonal to every earlier component keeps the components orthonormal |
| `Pca.StandardizedMatrix` | lib/pca.ts:10-42 | the standardized matrix has the data's shape |
| `Pca.Standardize` | lib/pca.ts:10-42 | the nested loops and the final map compute, cell by cell, each column standardized on its own |
| `Pca.ColumnMeans` | lib/pca.ts:14-23 | the `means` array ends up holding each column's mean |
| `Pca.AddRow` | lib/pca.ts:17-19 | the inner loop adds row i to `means`, entry by entry |
| `Pca.ColumnStds` | lib/pca.ts:25-34 | the `stds` array ends up holding each column's guarded sample deviation about the given means |
| `Pca.SquaredDeviations` | lib/pca.ts:26-31 | before the square root, `stds[j]` holds the squared deviations of column j from `means[j]` |
| `Pca.AddSquaredDeviations` | lib/pca.ts:28-30 | the inner loop adds each entry's squared deviation from its mean to `stds` |
| `Pca.GuardAll` | lib/pca.ts:32-34 | the loop replaces every sum of squares by its guarded deviation |
| `Pca.StandardizedColumn` | lib/pca.ts:37-39 | column j of the result is column j of the data, standardized |
| `Pca.StandardizedCells` | lib/pca.ts:37-39 | every divisor is non-zero, and each cell times its divisor is the centred value |
| `Pca.StandardizedColumnsSumToZero` | lib/pca.ts:15-39 | in exact arithmetic every column of the standardized matrix sums to zero |
| `Pca.ConstantColumnStandardizesToZeros` | lib/pca.ts:33-39 | a constant column of the data becomes a column of zeros |
| `Pca.StandardizedUnitVariance` | lib/pca.ts:26-39 | with an exact square root, the squared deviations of a non-constant column of the standardized matrix add up to n - 1: sample variance 1 |
| `Pca.Projected` | lib/pca.ts:85 | the projection has one row per data row and one column per component |
| `Pca.LeadingRows` | lib/pca.ts:69-79 | the copy loop returns exactly the first `numComps` rows of `Vt` |
| `Pca.Multiply` | lib/pca.ts:83-85 | `X.mmul(Vt_reduced.transpose())` is an n × numComps matrix |
| `Pca.CopyColumns` | lib/pca.ts:88-95 | each copied row is the first `min(numComponents, columns)` entries of the product's row |
| `Pca.ExtractSingularValues` | lib/pca.ts:103-113 | the loops collect the array, the matrix's main diagonal, or nothing |
| `Pca.SingularValues` | lib/pca.ts:103-113 | the singular values of line 103: the array as given, the main diagonal `get(i, i)` for i below `min(rows, columns)`, or none; `Pca.ExtractSingularValues` computes them |
| `Pca.Eigenvalues` | lib/pca.ts:116 | one eigenvalue per singular value |
| `Pca.Eigenvalue` | lib/pca.ts:116 | `s*s/(n-1)`, non-finite for one row; `Pca.EigenvaluesFinite` states when it is finite |
| `Pca.Plus` | lib/pca.ts:117 | IEEE addition on finite or non-finite numbers; `Pca.FloatSumFinite` and `Pca.FloatSumNonFinite` state the sums it builds |
| `Pca.FloatSum` | lib/pca.ts:117 | the `reduce` total; `Pca.FloatSumFinite` and `Pca.FloatSumNonFinite` state when it is finite and what it is |
| `Pca.Divide` | lib/pca.ts:120 | IEEE division as it arises on the ratio path; `Pca.RatioValues` and `Pca.RatiosWithZeroTotal` state its results |
| `Pca.Ratios` | lib/pca.ts:120 | `slice(0, numComponents)` leaves `min(numComponents, count)` ratios |
| `Pca.Pad` | lib/pca.ts:123-125 | the `while` loop yields the padded ratio list |
| `Pca.Filler` | lib/pca.ts:124 | the value pushed: 0 once the list is non-empty, `1/numComponents` into an empty one |
| `Pca.Padded` | lib/pca.ts:123-125 | the list with fillers pushed until it has `numComponents` entries; `Pca.PaddedShape` states its shape |
| `Pca.PaddedShape` | lib/pca.ts:123-125 | padding keeps the ratios and reaches exactly k entries; the fillers are `1/k` in slot 0 (only if no ratio existed) and 0 everywhere else |
| `Pca.SvdExplainedVariance` | lib/pca.ts:120-130 | the SVD branch's explained variance has exactly `numComponents` entries |
| `Pca.TrySvd` | lib/pca.ts:56-131 | the `try` block throws exactly when the SVD throws, `Vt` is missing or `numComps` is 0; otherwise it returns the leading rows of `Vt`, the projection onto them, and the padded ratios |
| `Pca.Values` | lib/pca.ts:116-117 | the real values of finite numbers, entry by entry |
| `Pca.FloatSumFinite` | lib/pca.ts:117 | a sum of finite numbers is the finite sum of their values |
| `Pca.FloatSumNonFinite` | lib/pca.ts:117 | one NaN or infinity makes the `reduce` total non-finite |
| `Pca.EigenvaluesFinite` | lib/pca.ts:116 | with two or more rows every `s*s/(n-1)` is finite and non-negative; with one row none is finite |
| `Pca.TotalFinite` | lib/pca.ts:117 | with two or more rows the total is finite, non-negative, and the sum of the eigenvalues |
| `Pca.RatiosBounded` | lib/pca.ts:116-120 | with two or more rows and a non-zero total, the total is positive, each ratio is finite and lies in [0, 1], and the ratios sum to at most 1 |
| `Pca.RatioValues` | lib/pca.ts:120 | each ratio is the eigenvalue over the total and lies in [0, 1] |
| `Pca.ScaledSumAtMostOne` | lib/pca.ts:120 | values whose sum is at most a positive total give ratios over that total that sum to at most 1 |
| `Pca.RatiosWithZeroTotal` | lib/pca.ts:120 | line 120 has no guard: all-zero singular values give a zero total and NaN ratios |
| `Pca.RatiosWithOneRow` | lib/pca.ts:116 | with a single row every ratio is non-finite |
| `Pca.SvdExplainedVarianceShape` | lib/pca.ts:120-130 | exactly `numComponents` values: the ratios first, then `1/numComponents` in slot 0 if there was no ratio, and 0 after that |
| `Pca.SvdResult` | lib/pca.ts:69-131 | the result the `try` block returns: the leading rows of `Vt`, the projection onto them and the padded ratios; `Pca.SvdShape` states its shape |
| `Pca.CovarianceMatrix` | lib/pca.ts:145-155 | the covariance matrix is m × m |
| `Pca.Covariance` | lib/pca.ts:145-155 | the triple loop computes, for every (i, j), the cross product of columns i and j over `n - 1` |
| `Pca.CrossSum` | lib/pca.ts:149-152 | the inner loop sums `z[k][i] * z[k][j]` over all rows |
| `Pca.CovarianceSymmetric` | lib/pca.ts:145-155 | `cov[i][j] == cov[j][i]` for all i, j, and every diagonal entry is non-negative |
| `Pca.Deflated` | lib/pca.ts:175-181 | deflation keeps the vector's length |
| `Pca.PowerStep` | lib/pca.ts:167-181 | one multiply-and-deflate step keeps the vector's length |
| `Pca.PowerLoop` | lib/pca.ts:166-186 | the power-iteration result has the start vector's length |
| `Pca.PowerLoopStep` | lib/pca.ts:183-185 | one iteration either breaks on a collapsed norm, keeping the vector, or continues from the normalized step |
| `Pca.MultiplyCovariance` | lib/pca.ts:167-172 | the fresh `newVec` array holds `cov · eigenvector` |
| `Pca.Deflate` | lib/pca.ts:175-181 | the in-place loops turn `newVec` into its deflation against every earlier component, in order |
| `Pca.SubtractScaled` | lib/pca.ts:178-180 | the innermost loop turns `newVec` into `newVec - dot * prevVec` |
| `Pca.PowerIterate` | lib/pca.ts:166-186 | the 50-step loop with its `break` computes `PowerLoop` from the start vector |
| `Pca.RayleighQuotient` | lib/pca.ts:189-196 | the loops compute `(cov · v) · v` |
| `Pca.Rayleigh` | lib/pca.ts:189-196 | `(cov · v) · v`, the eigenvalue estimate; `Pca.RayleighQuotient` computes it |
| `Pca.RowTimes` | lib/pca.ts:191-194 | the inner loop computes row i of `cov` times the eigenvector |
| `Pca.Draws` | lib/pca.ts:162 | one draw `random - 0.5` per coordinate |
| `Pca.InitialVector` | lib/pca.ts:163-164 | the normalized start vector has m entries |
| `Pca.Components` | lib/pca.ts:161-200 | the fallback collects exactly k components, each of m entries |
| `Pca.ComponentsSnoc` | lib/pca.ts:198 | component k is the power loop from start vector k against the first k components |
| `Pca.SumDiagonal` | lib/pca.ts:219-222 | the loop sums the diagonal of `cov` |
| `Pca.Trace` | lib/pca.ts:219-222 | the sum of the diagonal of `cov`; `Pca.SumDiagonal` computes it, `Pca.TotalVariancePositive` and `Pca.StandardizedTrace` state its value |
| `Pca.TotalVariance` | lib/pca.ts:225-227 | the trace, replaced by the number of dimensions m when it is not positive; `Pca.TotalVariancePositive` states it is always positive |
| `Pca.Project` | lib/pca.ts:203-213 | transformed row i holds the dot products of data row i with every component |
| `Pca.FindComponents` | lib/pca.ts:158-200 | the component loop yields `Components` and, for each component, the absolute Rayleigh quotient |
| `Pca.PerformPCACovariance` | lib/pca.ts:140-237 | the fallback returns its projection, its components and the absolute eigenvalues over the guarded trace |
| `Pca.FallbackResult` | lib/pca.ts:140-237 | what `performPCACovariance` returns: the projection, the components and the absolute eigenvalues over the total variance; `Pca.FallbackShape` states its shape |
| `Pca.DeflatedOrthogonal` | lib/pca.ts:175-181 | after deflating against orthonormal earlier components, the vector has zero dot product with each of them |
| `Pca.NormalizedStepOrthogonal` | lib/pca.ts:183-185 | a non-collapsed step, normalized, is orthogonal to orthonormal earlier components |
| `Pca.PowerLoopStaysOrthogonal` | lib/pca.ts:166-186 | once the vector is orthogonal to the earlier components, all later iterations keep it so |
| `Pca.PowerLoopOrthogonal` | lib/pca.ts:166-186 | unless the first step collapses, the final eigenvector is orthogonal to every orthonormal earlier component |
| `Pca.CollapseKeepsStart` | lib/pca.ts:184 | when the first step collapses, the loop keeps the undeflated start vector |
| `Pca.PowerLoopUnit` | lib/pca.ts:183-185 | with an exact square root, a unit start vector ends as a unit vector |
| `Pca.ComponentsUnit` | lib/pca.ts:162-186 | with an exact square root, every fallback component is a unit vector |
| `Pca.ComponentsOrthonormal` | lib/pca.ts:161-200 | with an exact square root, and no later component collapsing at once, the fallback components are orthonormal |
| `Pca.CollapseFreePrefix` | lib/pca.ts:161-186 | the conditions on the first k components hold for the first k - 1 |
| `Pca.LastComponentOrthogonal` | lib/pca.ts:166-198 | the last pushed component is orthogonal to every component before it |
| `Pca.TotalVariancePositive` | lib/pca.ts:219-227 | the trace is never negative, and the guarded total variance is always positive |
| `Pca.DotSelfIsSqDev` | lib/pca.ts:151 | a column's dot product with itself is its sum of squares about 0 |
| `Pca.UnitDiagonal` | lib/pca.ts:150-153 | a column whose squares add up to n - 1 has covariance 1 with itself |
| `Pca.TraceOfUnitDiagonal` | lib/pca.ts:219-222 | a square matrix with ones on its diagonal has trace m |
| `Pca.StandardizedTrace` | lib/pca.ts:216-218 | with an exact square root and no constant column, the trace of the covariance of standardized data is m |
| `Pca.FallbackShape` | lib/pca.ts:199-230 | the fallback returns k components of m entries and an n × k projection with entry (i, c) = row i · component c; all k ratios are finite and non-negative |
| `Pca.PerformPCA` | lib/pca.ts:45-137 | throws "Data cannot be empty" exactly when there are no rows or the first row is empty; otherwise returns the SVD branch's result when it completes, and the fallback's result when it throws |
| `Pca.PCA` | lib/pca.ts:56-137 | the SVD branch's result when the `try` block returns, otherwise the fallback's; `Pca.PCAShape` states its shape |
| `Pca.PCAShape` | lib/pca.ts:45-137 | whichever branch runs: `numComponents` ratios, one transformed row per input row, components of m entries, entry (i, c) = row i · component c; `min(k, Vt.rows)` components on the SVD path, k on the fallback |
| `Pca.SvdShape` | lib/pca.ts:69-131 | the SVD branch's result has that shape, with `min(numComponents, Vt.rows)` components |
| `FinanceData.Index` | lib/financeData.ts:47-56 | every metric has a position in the canonical column order |
| `FinanceData.CanonicalOrder` | lib/financeData.ts:47-56 | the canonical order has eight entries and lists every metric once |
| `FinanceData.ExtractFeatures` | lib/financeData.ts:46-57 | one row per record, eight entries per row, entry c being the record's value for the c-th canonical metric |
| `FinanceData.CompanyIgnored` | lib/financeData.ts:45-57 | renaming the companies leaves the feature matrix unchanged |
| `FinanceData.FeatureNamesAligned` | lib/financeData.ts:60-69 | eight distinct labels, label c belonging to the metric of column c |
| `Selection.Remove` | app/compress/page.tsx:70 | `filter(x => x !== k)` keeps exactly the keys other than k |
| `Selection.RemoveCounts` | app/compress/page.tsx:70 | every occurrence of k goes and every other key keeps its multiplicity |
| `Selection.RemoveAbsent` | app/compress/page.tsx:70 | filtering out an absent key changes nothing |
| `Selection.RemoveAppended` | app/compress/page.tsx:70-71 | appending an absent key and then filtering it out restores the list, so toggling an absent key twice is the identity |
| `Selection.NoDupRemove` | app/demo/page.tsx:138 | filtering keeps a duplicate-free list duplicate-free |
| `Selection.MembersBound` | app/compress/page.tsx:25 | a list has at most as many distinct keys as entries, and exactly as many if and only if it is duplicate-free |
| `Compress.Columns` | app/compress/page.tsx:23 | the columns to use are never empty |
| `Compress.KeepIn` | app/compress/page.tsx:25 | `order.filter(k => cols.includes(k))` contains exactly the keys of `order` that are in `cols` |
| `Compress.OrderedSelected` | app/compress/page.tsx:25 | the canonical order filtered by the columns in use; `Compress.OrderedSelectedColumns` states what it contains |
| `Compress.BuildMatrix` | app/compress/page.tsx:20-27 | one row per record; entry (i, c) is record i's value for the c-th ordered selected key |
| `Compress.KeepInOrdered` | app/compress/page.tsx:25 | filtering a list in canonical order keeps canonical order |
| `Compress.OrderedNoDup` | app/compress/page.tsx:25 | a list in canonical order has no repeated key |
| `Compress.KeepInMembers` | app/compress/page.tsx:25 | the filter depends only on which keys `cols` mentions |
| `Compress.KeepInAll` | app/compress/page.tsx:25 | filtering by a superset returns the order unchanged |
| `Compress.OrderedSelectedColumns` | app/compress/page.tsx:22-26 | a metric is a column if and only if it was selected (or nothing was); columns follow canonical order, appear once, and there are as many as distinct keys in use |
| `Compress.OrderedSelectedDistinct` | app/compress/page.tsx:22-26 | a non-empty duplicate-free selection gives one column per selected key |
| `Compress.CanonicalColumnsAreFeatures` | app/compress/page.tsx:21-26 | with all canonical keys as columns, `buildMatrix` equals `extractFeatures` |
| `Compress.EmptySelectionUsesAll` | app/compress/page.tsx:22-23 | an empty selection gives the `extractFeatures` matrix |
| `Compress.SelectionOrderIrrelevant` | app/compress/page.tsx:22-26 | selections mentioning the same keys, in any order and with repeats, give the same matrix |
| `Compress.AllSelectedUsesAll` | app/compress/page.tsx:22-26 | selecting every metric, in any order, gives the `extractFeatures` matrix |
| `Compress.IsAll8SelectedMeans` | app/compress/page.tsx:44-45 | the test holds if and only if there are eight entries and every metric is among them; they are then all distinct |
| `Compress.IsAll8Selected` | app/compress/page.tsx:44-45 | eight entries and each of the eight metrics among them; `Compress.IsAll8SelectedMeans` states what it means |
| `Compress.PageMatrix` | app/compress/page.tsx:47-54 | the matrix the page feeds to PCA is always `buildMatrix(data, selected)`: the `extractFeatures` shortcut changes nothing |
| `Compress.Toggle` | app/compress/page.tsx:68-73 | k's membership flips and every other key's is unchanged; a present k is filtered out entirely, an absent k is appended at the end; duplicate-freedom is kept |
| `Demo.Build2DFromSelection` | app/demo/page.tsx:23-26 | `[]` unless exactly two metrics are selected; otherwise one point per record, `[row[sel0], row[sel1]]` |
| `Demo.Build2DAgreesWithBuildMatrix` | app/demo/page.tsx:23-26 | for two distinct metrics the points are the `buildMatrix` rows, with the two coordinates swapped when the selection is against canonical order |
| `Demo.TwoKeysOrdered` | app/compress/page.tsx:25 | two distinct selected keys come out of the canonical filter in canonical order |
| `Demo.OrderedPair` | app/compress/page.tsx:25 | two distinct keys in canonical order are the selected pair, swapped when the pair is against canonical order |
| `Demo.Standardized2D` | app/demo/page.tsx:46 | the standardized points are n two-entry rows |
| `Demo.Standardize2D` | app/demo/page.tsx:29-48 | no points give `[]`, `[0, 0]`, `[1, 1]`; otherwise the coordinate means, the non-zero guarded deviations, and every point standardized with them; as many points out as in |
| `Demo.CoordinateMeans` | app/demo/page.tsx:32-38 | the `means` array ends up holding both coordinate means |
| `Demo.CoordinateStds` | app/demo/page.tsx:39-45 | the `stds` array ends up holding both guarded sample deviations |
| `Demo.SquaredDeviations2D` | app/demo/page.tsx:40-43 | the deviation loop sums each coordinate's squared deviations from its mean |
| `Demo.Standardized2DColumn` | app/demo/page.tsx:46 | coordinate j of the output is coordinate j of the input, standardized |
| `Demo.Standardized2DCentred` | app/demo/page.tsx:32-46 | in exact arithmetic both output coordinates sum to zero over all points |
| `Demo.Standardized2DAgreesWithEngine` | app/demo/page.tsx:29-48 | on two-column points the demo standardizes exactly as the engine's `standardize` |
| `Demo.ProjectTo1D` | app/demo/page.tsx:51-55 | one projected value per input point |
| `Demo.OnAxis` | app/demo/page.tsx:54 | one value per point for a fixed axis |
| `Demo.ProjectionOnAxis` | app/demo/page.tsx:52-54 | each projection is the point's dot product with the axis `(cos angle, sin angle)` |
| `Demo.OnAxisSum` | app/demo/page.tsx:54 | the projections sum to the axis-weighted sum of the coordinate sums |
| `Demo.SumCombination` | app/demo/page.tsx:54 | summing `p[0] * ux + p[1] * uy` over points is the combination of the coordinate sums |
| `Demo.CentredOnAxis` | app/demo/page.tsx:54 | points centred in both coordinates stay centred on any axis |
| `Demo.ProjectionCentred` | app/demo/page.tsx:46-54 | at every angle the projected standardized points sum to zero |
| `Demo.ToggleMetric` | app/demo/page.tsx:136-143 | at most two keys; a selected key is removed and at most the last two of the rest kept; an unselected key ends last, as `[sel[1], key]` when two or more were selected; no key besides the new one appears that was not selected; duplicate-freedom is kept |
| `Demo.LastTwo` | app/demo/page.tsx:141 | the slice keeps the last `min(2, n)` keys, only keys of the list, and no duplicate if there was none |

## Left out

- Everything React and Next.js do: rendering, state hooks and effects, routing, the recharts plots and the three.js scenes. This includes the effect glue of both pages: the call `performPCA(X, 2)`, the percentage rounding with `Math.round`, the chart-domain arithmetic and `handleAngleChange`. None of it has behaviour a contract can state beyond the helpers modelled here.
- The demo effect's normalization of the first component with `Math.hypot` and its `Math.atan2` angle (app/demo/page.tsx:88-91) are floating-point library calls inside UI code.
- `generateFinanceData` (lib/financeData.ts:14-43) is driven by `Math.random` and decimal rounding.
- The `console.warn` of lib/pca.ts:134 is I/O.
- IEEE rounding is not modelled; numbers are exact reals, and `Math.sqrt`, `Math.random`, `Math.cos`, `Math.sin` and the ml-matrix SVD are supplied as functions. The library's own code is not part of this model.
- `Pca.PerformPCA` requires rectangular data. On ragged rows the code reads `undefined` and computes NaN in `standardize`, which the model does not represent; what `new Matrix` (lib/pca.ts:54) does with the ragged result is not modelled either.
- `Pca.PerformPCA` takes `numComponents` explicitly: the default `numComponents = 2` of lib/pca.ts:45 has no counterpart. Every caller in the pages passes it.
- `Pca.PerformPCA` requires, through `PcaDefined`, three things of the supplied functions:
  - the SVD's matrices have the shapes their fields announce, with `Vt.columns == m`;
  - when the SVD branch throws, there are at least two rows, because with one row line 153 divides the covariance by 0 and the fallback computes NaN throughout;
  - each random start vector has a non-zero norm, because line 164 divides by it.
- `Pca.TrySvd` takes `Vt.subMatrix(0, -1, ...)` (numComps == 0) as throwing. A non-positive `numComponents` then runs the fallback.
- `Pca.TotalVariance`: the `!isFinite(totalVariance)` test of lib/pca.ts:225 has no counterpart on reals. Only the `<= 0` test is modelled.
- `Pca.Divide`: a finite value divided by an infinity never arises on the ratio path, and is not modelled separately.
- `Pca.RatiosBounded` is stated for a non-zero total only. Line 120 divides without a guard, and `Pca.RatiosWithZeroTotal` shows that a zero total gives NaN ratios.
- `Pca.PowerLoopOrthogonal` and `Pca.ComponentsOrthonormal` exclude a component whose first step collapses. Line 184 then breaks and keeps the undeflated random start vector (`Pca.CollapseKeepsStart`), which need not be orthogonal to earlier components.
- `Pca.ComponentsUnit`, `Pca.ComponentsOrthonormal`, `Pca.StandardizedTrace` and `Stats.UnitVariance` assume an exact square root. With an arbitrary `sqrt` no norm or variance can be claimed.
- Neither branch is claimed to find the principal components. The model proves no maximal variance, no convergence of the power iteration, no descending order of the explained variance, and no orthonormality of the SVD's `Vt` rows.
- `Demo.Standardize2D` and `Demo.ProjectTo1D` require every point to have two coordinates. The `!points` null test of app/demo/page.tsx:30 has no counterpart, because a Dafny sequence is never null.
- `Demo.ProjectTo1D` is modelled for its shape and its sum. The angle is only passed to `cos` and `sin`.
