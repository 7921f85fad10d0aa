/**
  The helpers of the compression page (app/compress/page.tsx): `buildMatrix`,
  which turns the records into a matrix over the selected metrics in the
  canonical order, the `isAll8Selected` test that switches to
  `extractFeatures`, and `toggle`, which adds or removes one metric.
 */
module Compress {
  import opened LinAlg
  import opened FinanceData
  import opened Selection

  // ===========================================================================
  // buildMatrix (app/compress/page.tsx:20-27)

  /** `selected.length > 0 ? selected : order`. */
  function Columns(selected: seq<Metric>): (cols: seq<Metric>)
    ensures |cols| > 0
  {
    if |selected| > 0 then selected else Canonical
  }

  /** `order.filter(k => cols.includes(k))`. */
  function KeepIn(order: seq<Metric>, cols: seq<Metric>): (r: seq<Metric>)
    ensures forall x :: x in r <==> x in order && x in cols
  {
    if |order| == 0 then []
    else
      var rest := KeepIn(order[1..], cols);
      assert order == [order[0]] + order[1..];
      if order[0] in cols then [order[0]] + rest else rest
  }

  /** The keys come in strictly increasing canonical position. */
  predicate InCanonicalOrder(s: seq<Metric>)
  {
    forall c, d :: 0 <= c < d < |s| ==> Index(s[c]) < Index(s[d])
  }

  /** `orderedSelected`: the selected keys, in canonical order. */
  function OrderedSelected(selected: seq<Metric>): seq<Metric>
  {
    KeepIn(Canonical, Columns(selected))
  }

  /** `buildMatrix(data, selected)`. */
  function BuildMatrix(data: seq<FinanceRecord>, selected: seq<Metric>): (x: Matrix)
    ensures |x| == |data| && IsRect(x, |OrderedSelected(selected)|)
    ensures forall i, c :: 0 <= i < |data| && 0 <= c < |OrderedSelected(selected)| ==>
              x[i][c] == Value(data[i], OrderedSelected(selected)[c])
  {
    var keys := OrderedSelected(selected);
    seq(|data|, i requires 0 <= i < |data| => seq(|keys|, c requires 0 <= c < |keys| => Value(data[i], keys[c])))
  }

  /** Filtering a list in canonical order keeps it in canonical order. */
  lemma {:induction false} KeepInOrdered(order: seq<Metric>, cols: seq<Metric>)
    requires InCanonicalOrder(order)
    ensures InCanonicalOrder(KeepIn(order, cols))
  {
    if |order| > 0 {
      var tail := order[1..];
      assert InCanonicalOrder(tail) by {
        forall c, d | 0 <= c < d < |tail|
          ensures Index(tail[c]) < Index(tail[d])
        {
          assert tail[c] == order[c + 1] && tail[d] == order[d + 1];
        }
      }
      KeepInOrdered(tail, cols);
      var rest := KeepIn(tail, cols);
      if order[0] in cols {
        var r := [order[0]] + rest;
        forall c, d | 0 <= c < d < |r|
          ensures Index(r[c]) < Index(r[d])
        {
          if c == 0 {
            assert r[d] in tail;
            var e :| 0 <= e < |tail| && tail[e] == r[d];
            assert order[e + 1] == r[d];
          } else {
            assert r[c] == rest[c - 1] && r[d] == rest[d - 1];
          }
        }
      }
    }
  }

  /** A list in canonical order has no duplicates. */
  lemma OrderedNoDup(s: seq<Metric>)
    requires InCanonicalOrder(s)
    ensures NoDup(s)
  {
  }

  /** Filtering depends only on which keys `cols` mentions. */
  lemma {:induction false} KeepInMembers(order: seq<Metric>, cols: seq<Metric>, cols': seq<Metric>)
    requires Members(cols) == Members(cols')
    ensures KeepIn(order, cols) == KeepIn(order, cols')
  {
    if |order| > 0 {
      KeepInMembers(order[1..], cols, cols');
      assert order[0] in cols <==> order[0] in Members(cols);
      assert order[0] in cols' <==> order[0] in Members(cols');
    }
  }

  /** Filtering by a superset of `order` keeps all of `order`. */
  lemma {:induction false} KeepInAll(order: seq<Metric>, cols: seq<Metric>)
    requires forall x :: x in order ==> x in cols
    ensures KeepIn(order, cols) == order
  {
    if |order| > 0 {
      assert order[0] in order;
      assert forall x :: x in order[1..] ==> x in order;
      KeepInAll(order[1..], cols);
      assert order == [order[0]] + order[1..];
    }
  }

  /**
    The columns of `buildMatrix`: a key is a column exactly when it was
    selected (or nothing was), the columns follow the canonical order whatever
    the order of selection, no metric is a column twice, and there are as many
    columns as distinct keys in use.
   */
  lemma OrderedSelectedColumns(selected: seq<Metric>)
    ensures forall key :: key in OrderedSelected(selected) <==> (|selected| == 0 || key in selected)
    ensures InCanonicalOrder(OrderedSelected(selected))
    ensures NoDup(OrderedSelected(selected))
    ensures |OrderedSelected(selected)| == |Members(Columns(selected))|
  {
    var keys := OrderedSelected(selected);
    CanonicalOrder();
    KeepInOrdered(Canonical, Columns(selected));
    OrderedNoDup(keys);
    MembersBound(keys);
    assert Members(keys) == Members(Columns(selected));
  }

  /** Distinct selected keys give one column each. */
  lemma OrderedSelectedDistinct(selected: seq<Metric>)
    requires |selected| > 0 && NoDup(selected)
    ensures |OrderedSelected(selected)| == |selected|
  {
    OrderedSelectedColumns(selected);
    MembersBound(selected);
  }

  /** With every key as a column, `buildMatrix` is `extractFeatures`. */
  lemma CanonicalColumnsAreFeatures(data: seq<FinanceRecord>, selected: seq<Metric>)
    requires OrderedSelected(selected) == Canonical
    ensures BuildMatrix(data, selected) == ExtractFeatures(data)
  {
    var x, y := BuildMatrix(data, selected), ExtractFeatures(data);
    forall i | 0 <= i < |data|
      ensures x[i] == y[i]
    {
      assert |x[i]| == |y[i]|;
      forall c | 0 <= c < |Canonical|
        ensures x[i][c] == y[i][c]
      {
      }
    }
  }

  /** An empty selection uses all eight metrics: the `extractFeatures` matrix. */
  lemma EmptySelectionUsesAll(data: seq<FinanceRecord>)
    ensures BuildMatrix(data, []) == ExtractFeatures(data)
  {
    KeepInAll(Canonical, Canonical);
    CanonicalColumnsAreFeatures(data, []);
  }

  /** Neither the order of selection nor repeated keys change the matrix. */
  lemma SelectionOrderIrrelevant(data: seq<FinanceRecord>, selected: seq<Metric>, selected': seq<Metric>)
    requires |selected| > 0 && |selected'| > 0
    requires Members(selected) == Members(selected')
    ensures BuildMatrix(data, selected) == BuildMatrix(data, selected')
  {
    KeepInMembers(Canonical, selected, selected');
  }

  /** Selecting every metric, in any order, also gives the `extractFeatures` matrix. */
  lemma AllSelectedUsesAll(data: seq<FinanceRecord>, selected: seq<Metric>)
    requires forall key: Metric :: key in selected
    ensures BuildMatrix(data, selected) == ExtractFeatures(data)
  {
    KeepInAll(Canonical, selected);
    CanonicalColumnsAreFeatures(data, selected);
  }

  // ===========================================================================
  // isAll8Selected (app/compress/page.tsx:44-45)

  /** `all8Metrics`, the same eight keys in the same order as `extractFeatures`. */
  const All8Metrics: seq<Metric> := [Pe, Pb, Eps, Volatility, DebtRatio, Roe, Roa, OneYearReturn]

  /** `selected.length === 8 && all8Metrics.every(m => selected.includes(m))`. */
  predicate IsAll8Selected(selected: seq<Metric>)
  {
    |selected| == 8 && forall c :: 0 <= c < |All8Metrics| ==> All8Metrics[c] in selected
  }

  /**
    The test holds exactly when eight keys are selected and every metric is
    among them; the eight are then all different.  Their order is not tested.
   */
  lemma IsAll8SelectedMeans(selected: seq<Metric>)
    ensures IsAll8Selected(selected) <==> |selected| == 8 && forall key: Metric :: key in selected
    ensures IsAll8Selected(selected) ==> NoDup(selected)
  {
    CanonicalOrder();
    assert All8Metrics == Canonical;
    if IsAll8Selected(selected) {
      forall key: Metric
        ensures key in selected
      {
        assert All8Metrics[Index(key)] == key;
      }
      assert NoDup(Canonical);
      MembersBound(Canonical);
      MembersBound(selected);
      assert Members(selected) == Members(Canonical);
    }
  }

  /**
    The page feeds `extractFeatures(data)` to PCA when the test holds and
    `buildMatrix(data, selected)` otherwise; when the test holds the two
    matrices are the same.
   */
  function PageMatrix(data: seq<FinanceRecord>, selected: seq<Metric>): (x: Matrix)
    ensures x == BuildMatrix(data, selected)
  {
    if IsAll8Selected(selected) then
      IsAll8SelectedMeans(selected);
      AllSelectedUsesAll(data, selected);
      ExtractFeatures(data)
    else
      BuildMatrix(data, selected)
  }

  // ===========================================================================
  // toggle (app/compress/page.tsx:68-73)

  /**
    `toggle(k)`: the key's membership flips, every other key's stays; a
    present key is removed with all its occurrences and the rest keep their
    order, an absent key is appended at the end.
   */
  method Toggle(selected: seq<Metric>, k: Metric) returns (next: seq<Metric>)
    ensures k in next <==> k !in selected
    ensures forall x :: x != k ==> (x in next <==> x in selected)
    ensures k in selected ==> next == Remove(selected, k)
    ensures k !in selected ==> next == selected + [k]
    ensures NoDup(selected) ==> NoDup(next)
  {
    next := selected;
    if k in next {
      next := Remove(next, k);
      if NoDup(selected) {
        NoDupRemove(selected, k);
      }
    } else {
      next := next + [k];
    }
  }
}
