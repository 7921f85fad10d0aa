/**
  The finance records of lib/financeData.ts and the feature matrix the PCA
  engine is fed with: `extractFeatures` keeps the eight numeric fields of a
  record, in a fixed order, and drops the company name; `featureNames` labels
  those eight columns.  The eight metric keys are a datatype, so a
  `row[key]` lookup (as the pages do with `metricKeys`) is `Value(row, key)`.
 */
module FinanceData {
  import opened LinAlg

  /** One company: its name and eight numeric metrics. */
  datatype FinanceRecord = FinanceRecord(
    company: string,
    pe: real,
    pb: real,
    eps: real,
    volatility: real,
    debtRatio: real,
    roe: real,
    roa: real,
    oneYearReturn: real)

  /** The keys `'pe' | 'pb' | ... | 'oneYearReturn'` of a record's metrics. */
  datatype Metric = Pe | Pb | Eps | Volatility | DebtRatio | Roe | Roa | OneYearReturn

  /** `row[key]`. */
  function Value(r: FinanceRecord, key: Metric): real
  {
    match key
    case Pe => r.pe
    case Pb => r.pb
    case Eps => r.eps
    case Volatility => r.volatility
    case DebtRatio => r.debtRatio
    case Roe => r.roe
    case Roa => r.roa
    case OneYearReturn => r.oneYearReturn
  }

  /** The canonical column order, shared by both pages' `metricKeys`. */
  const Canonical: seq<Metric> := [Pe, Pb, Eps, Volatility, DebtRatio, Roe, Roa, OneYearReturn]

  /** Where a key sits in the canonical order. */
  function Index(key: Metric): (i: nat)
    ensures i < |Canonical| && Canonical[i] == key
  {
    match key
    case Pe => 0
    case Pb => 1
    case Eps => 2
    case Volatility => 3
    case DebtRatio => 4
    case Roe => 5
    case Roa => 6
    case OneYearReturn => 7
  }

  /** Every key appears in the canonical order exactly once. */
  lemma CanonicalOrder()
    ensures |Canonical| == 8
    ensures forall key: Metric :: key in Canonical
    ensures forall c :: 0 <= c < |Canonical| ==> Index(Canonical[c]) == c
  {
    forall key: Metric
      ensures key in Canonical
    {
      assert Canonical[Index(key)] == key;
    }
  }

  /** `extractFeatures(data)`: one eight-entry row per record. */
  function ExtractFeatures(data: seq<FinanceRecord>): (x: Matrix)
    ensures |x| == |data| && IsRect(x, |Canonical|)
    ensures forall i, c :: 0 <= i < |data| && 0 <= c < |Canonical| ==> x[i][c] == Value(data[i], Canonical[c])
  {
    seq(|data|, i requires 0 <= i < |data| =>
      var row := data[i];
      [row.pe, row.pb, row.eps, row.volatility, row.debtRatio, row.roe, row.roa, row.oneYearReturn])
  }

  /** The company name plays no part in the feature matrix. */
  lemma CompanyIgnored(data: seq<FinanceRecord>, names: seq<string>)
    requires |names| == |data|
    ensures ExtractFeatures(seq(|data|, i requires 0 <= i < |data| => data[i].(company := names[i]))) == ExtractFeatures(data)
  {
    var renamed := seq(|data|, i requires 0 <= i < |data| => data[i].(company := names[i]));
    var x, y := ExtractFeatures(renamed), ExtractFeatures(data);
    forall i | 0 <= i < |data|
      ensures x[i] == y[i]
    {
      forall c | 0 <= c < |Canonical|
        ensures x[i][c] == y[i][c]
      {
        assert Value(renamed[i], Canonical[c]) == Value(data[i], Canonical[c]);
      }
    }
  }

  /** `featureNames`. */
  const FeatureNames: seq<string> := ["PE Ratio", "PB Ratio", "EPS", "Volatility", "Debt Ratio", "ROE", "ROA", "1 Year Return"]

  /** The label that belongs to each metric. */
  function FeatureName(key: Metric): string
  {
    match key
    case Pe => "PE Ratio"
    case Pb => "PB Ratio"
    case Eps => "EPS"
    case Volatility => "Volatility"
    case DebtRatio => "Debt Ratio"
    case Roe => "ROE"
    case Roa => "ROA"
    case OneYearReturn => "1 Year Return"
  }

  /**
    `featureNames` has one label per column of `extractFeatures`, in the same
    order, and no two columns share a label.
   */
  lemma FeatureNamesAligned()
    ensures |FeatureNames| == |Canonical|
    ensures forall c :: 0 <= c < |Canonical| ==> FeatureNames[c] == FeatureName(Canonical[c])
    ensures forall c, d :: 0 <= c < d < |FeatureNames| ==> FeatureNames[c] != FeatureNames[d]
  {
  }
}
