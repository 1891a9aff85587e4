/**
  The drift detector's decision logic: the per-column threshold rule and the
  report built by visiting every column of the base table in order.
 */
module Drift {
  import opened Wrappers
  import opened Tables

  /** A p-value as a double: a finite number or NaN. */
  datatype PValue = Finite(p: real) | NaN

  /** The report record of one column, `{p_value, drift_value}`. */
  datatype DriftEntry = DriftEntry(pValue: PValue, driftValue: bool)

  /** The drift report: column name to its record. */
  type Report = map<string, DriftEntry>

  /**
    The two-sample Kolmogorov-Smirnov test, left uninterpreted: it maps the
    two columns' cells to a p-value, or to None when the test raises.
   */
  type KsTest = (seq<Cell>, seq<Cell>) -> Option<PValue>

  /** Why drift detection aborts. */
  datatype DriftError =
    | MissingInCurrent(column: string)   // the current table has no column of that name
    | TestFailed(column: string)         // the statistical test raised on that column

  /** The default threshold of the drift detector. */
  const DefaultThreshold: real := 0.05

  /** Python's `threshold <= p`; every comparison with NaN is false. */
  predicate NotBelow(threshold: real, p: PValue) {
    match p
    case Finite(x) => threshold <= x
    case NaN => false
  }

  /**
    The drift verdict of one column: drifted unless the p-value reaches the
    threshold, so a p-value equal to the threshold is not drift and a NaN
    p-value is.
   */
  function Drifted(threshold: real, p: PValue): (found: bool)
    ensures found <==> p.NaN? || p.p < threshold
    ensures p == Finite(threshold) ==> !found
  {
    if NotBelow(threshold, p) then false else true
  }

  /** The record of one base column against the current table. */
  function CompareColumn(c: Column, current: Table, ks: KsTest, threshold: real): Result<DriftEntry, DriftError>
  {
    if !current.Has(c.name) then Failure(MissingInCurrent(c.name))
    else
      match ks(c.values, current.Get(c.name).values)
      case None => Failure(TestFailed(c.name))
      case Some(p) => Success(DriftEntry(p, Drifted(threshold, p)))
  }

  /** Column `c` can be compared: the current table has it and the test yields a p-value. */
  predicate Comparable(c: Column, current: Table, ks: KsTest) {
    current.Has(c.name) && ks(c.values, current.Get(c.name).values).Some?
  }

  /**
    The report and the AND-reduced status after visiting `cols` in order;
    each column's record replaces any earlier one of the same name, as a
    dictionary update does. Aborts at the first column that cannot be compared.
   */
  function DriftOf(cols: seq<Column>, current: Table, ks: KsTest, threshold: real): Result<(Report, bool), DriftError>
    decreases |cols|
  {
    if cols == [] then Success((map[], true))
    else
      var acc :- DriftOf(cols[..|cols| - 1], current, ks, threshold);
      var c := cols[|cols| - 1];
      var entry :- CompareColumn(c, current, ks, threshold);
      Success((acc.0[c.name := entry], acc.1 && !entry.driftValue))
  }

  /** Column `cols[i]` is the last one of its name, so its record is the one kept. */
  predicate LastOfName(cols: seq<Column>, i: int)
    requires 0 <= i < |cols|
  {
    forall j :: i < j < |cols| ==> cols[j].name != cols[i].name
  }

  /** Once a prefix of the columns aborts, the whole run aborts with the same error. */
  lemma {:induction false} DriftFailurePersists(cols: seq<Column>, k: nat, current: Table, ks: KsTest, threshold: real)
    requires k <= |cols|
    requires DriftOf(cols[..k], current, ks, threshold).Failure?
    ensures DriftOf(cols, current, ks, threshold) == DriftOf(cols[..k], current, ks, threshold)
    decreases |cols|
  {
    if k < |cols| {
      var init := cols[..|cols| - 1];
      assert init[..k] == cols[..k];
      DriftFailurePersists(init, k, current, ks, threshold);
    } else {
      assert cols[..k] == cols;
    }
  }

  /** Detection succeeds exactly when every base column can be compared. */
  lemma {:induction false} DriftSucceedsIff(cols: seq<Column>, current: Table, ks: KsTest, threshold: real)
    ensures DriftOf(cols, current, ks, threshold).Success?
      <==> forall i :: 0 <= i < |cols| ==> Comparable(cols[i], current, ks)
    decreases |cols|
  {
    if cols != [] {
      var init := cols[..|cols| - 1];
      DriftSucceedsIff(init, current, ks, threshold);
      assert forall i :: 0 <= i < |init| ==> init[i] == cols[i];
    }
  }

  /** The report has one record per base column name, drifted or not, and no other key. */
  lemma {:induction false} DriftReportKeys(cols: seq<Column>, current: Table, ks: KsTest, threshold: real)
    requires DriftOf(cols, current, ks, threshold).Success?
    ensures DriftOf(cols, current, ks, threshold).value.0.Keys == set c | c in cols :: c.name
    decreases |cols|
  {
    if cols != [] {
      var init := cols[..|cols| - 1];
      DriftReportKeys(init, current, ks, threshold);
      assert cols == init + [cols[|cols| - 1]];
    }
  }

  /**
    The record kept for a column name is that of its last column: the test's
    p-value, and the `Drifted` verdict on it.
   */
  lemma {:induction false} DriftReportEntries(cols: seq<Column>, current: Table, ks: KsTest, threshold: real)
    requires DriftOf(cols, current, ks, threshold).Success?
    ensures forall i :: 0 <= i < |cols| && LastOfName(cols, i) ==>
      var report := DriftOf(cols, current, ks, threshold).value.0;
      && cols[i].name in report
      && current.Has(cols[i].name)
      && ks(cols[i].values, current.Get(cols[i].name).values) == Some(report[cols[i].name].pValue)
      && report[cols[i].name].driftValue == Drifted(threshold, report[cols[i].name].pValue)
    decreases |cols|
  {
    if cols != [] {
      var n := |cols| - 1;
      var init := cols[..n];
      DriftReportEntries(init, current, ks, threshold);
      forall i | 0 <= i < n && LastOfName(cols, i)
        ensures LastOfName(init, i)
      {
        assert forall j :: i < j < n ==> init[j] == cols[j];
      }
    }
  }

  /** The status ends true exactly when no base column is judged drifted. */
  lemma {:induction false} DriftStatusIff(cols: seq<Column>, current: Table, ks: KsTest, threshold: real)
    requires DriftOf(cols, current, ks, threshold).Success?
    ensures DriftOf(cols, current, ks, threshold).value.1 <==>
      forall i :: 0 <= i < |cols| ==>
        && CompareColumn(cols[i], current, ks, threshold).Success?
        && !CompareColumn(cols[i], current, ks, threshold).value.driftValue
    decreases |cols|
  {
    if cols != [] {
      var init := cols[..|cols| - 1];
      DriftStatusIff(init, current, ks, threshold);
      assert forall i :: 0 <= i < |init| ==> init[i] == cols[i];
    }
  }

  /**
    With distinct column names (as a frame read from a file has), the status
    ends true exactly when no record of the report says drift.
   */
  lemma DriftStatusMatchesReport(base: Table, current: Table, ks: KsTest, threshold: real)
    requires base.DistinctNames()
    requires DriftOf(base.columns, current, ks, threshold).Success?
    ensures var (report, status) := DriftOf(base.columns, current, ks, threshold).value;
      status <==> forall k :: k in report ==> !report[k].driftValue
  {
    var cols := base.columns;
    var (report, status) := DriftOf(cols, current, ks, threshold).value;
    DriftReportKeys(cols, current, ks, threshold);
    DriftReportEntries(cols, current, ks, threshold);
    DriftStatusIff(cols, current, ks, threshold);
    forall k | k in report
      ensures exists i :: 0 <= i < |cols| && cols[i].name == k
    {
      assert k in set c | c in cols :: c.name;
    }
  }
}
