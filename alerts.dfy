/**
  The alert classifier, `generate_inventory_alerts` and its inner
  `alert_logic`: every row gets an `alert` label decided by its quantity,
  par level and critical level, the first matching rule winning.
*/
module Alerts {
  import opened Wrappers
  import opened Table

  datatype Alert = Urgent | Warning | StockOk

  const UrgentLabel := "URGENT: Critically Low Stock!"
  const WarningLabel := "Warning: Stock is Low"
  const StockOkLabel := "Stock OK"

  /** The text the script writes into the `alert` column. */
  function Label(a: Alert): string
  {
    match a
    case Urgent => UrgentLabel
    case Warning => WarningLabel
    case StockOk => StockOkLabel
  }

  /**
    `alert_logic` on the three numbers. The report text states the first two
    conditions: "quantity <= critical level" and
    "critical level < quantity < par level".
  */
  function AlertLogic(quantity: int, parLevel: int, criticalLevel: int): (a: Alert)
    ensures a == Urgent <==> quantity <= criticalLevel
    ensures a == Warning <==> criticalLevel < quantity < parLevel
    ensures a == StockOk <==> criticalLevel < quantity && parLevel <= quantity
  {
    if quantity <= criticalLevel then Urgent
    else if quantity < parLevel then Warning
    else StockOk
  }

  /** The three labels are distinct, so a label names its category. */
  lemma LabelsDistinct(a: Alert, b: Alert)
    ensures Label(a) == Label(b) <==> a == b
  {
  }

  /** Quantity at the critical level is urgent even when it is also at par. */
  lemma TieIsUrgent(level: int)
    ensures AlertLogic(level, level, level) == Urgent
  {
  }

  /** Two lines of one part: (2, 10, 5) is urgent, (8, 10, 5) is a warning. */
  lemma TwoLinesOfOnePart()
    ensures AlertLogic(2, 10, 5) == Urgent && AlertLogic(8, 10, 5) == Warning
  {
  }

  const Required: set<string> := {Quantity, ParLevel, CriticalLevel}

  /** A threshold cell as `alert_logic` compares it: NaN reads as 0; text or a list cannot be compared. */
  function Threshold(v: Value): (t: Option<int>)
    ensures t.Some? <==> v.Num? || v == Missing
    ensures v == Missing ==> t == Some(0)
    ensures v.Num? ==> t == Some(v.n)
  {
    match v
    case Num(n) => Some(n)
    case Missing => Some(0)
    case _ => None
  }

  /** `df.fillna({'quantity': 0, 'par_level': 0, 'critical_level': 0})` on one row. */
  function FillThresholds(row: Row): (filled: Row)
    ensures filled.Keys == row.Keys + Required
    ensures forall c :: c in Required ==> filled[c] == FillCell(Get(row, c))
    ensures forall c :: c in row && c !in Required ==> filled[c] == row[c]
  {
    map c | c in row.Keys + Required :: if c in Required then FillCell(Get(row, c)) else row[c]
  }

  /**
    The label `alert_logic` gives a row, or None where the comparison raises:
    a threshold cell that is neither a number nor NaN makes it raise.
  */
  function RowAlert(row: Row): (a: Option<Alert>)
    ensures a.Some? <==> forall c :: c in Required ==> Get(row, c).Num? || Get(row, c) == Missing
    ensures Get(row, Quantity).Num? && Get(row, ParLevel).Num? && Get(row, CriticalLevel).Num? ==>
              a == Some(AlertLogic(Get(row, Quantity).n, Get(row, ParLevel).n, Get(row, CriticalLevel).n))
  {
    match (Threshold(Get(row, Quantity)), Threshold(Get(row, ParLevel)), Threshold(Get(row, CriticalLevel)))
    case (Some(q), Some(p), Some(c)) => Some(AlertLogic(q, p, c))
    case _ => None
  }

  /** A NaN threshold is classified as a 0 would be. */
  lemma MissingReadsAsZero(row: Row, c: string)
    requires c in Required && Get(row, c) == Missing
    ensures RowAlert(row) == RowAlert(row[c := Num(0)])
  {
  }

  /** A row whose three thresholds are numbers and whose `alert` cell is their label. */
  predicate Classified(row: Row)
  {
    && Get(row, Quantity).Num? && Get(row, ParLevel).Num? && Get(row, CriticalLevel).Num?
    && Get(row, AlertColumn) == Str(Label(AlertLogic(Get(row, Quantity).n, Get(row, ParLevel).n, Get(row, CriticalLevel).n)))
  }

  /**
    The row `generate_inventory_alerts` writes for `row`: its thresholds
    filled and its `alert` cell set; None where `alert_logic` raises.
  */
  function LabelRow(row: Row): (labelled: Option<Row>)
    ensures labelled.Some? <==> RowAlert(FillThresholds(row)).Some?
    ensures labelled.Some? ==> Classified(labelled.value)
    ensures labelled.Some? ==> forall c :: c != AlertColumn ==>
              Get(labelled.value, c) == if c in Required then FillCell(Get(row, c)) else Get(row, c)
  {
    var filled := FillThresholds(row);
    match RowAlert(filled)
    case None => None
    case Some(a) => Some(filled[AlertColumn := Str(Label(a))])
  }

  /** Every row labelled, in order; None when some row cannot be. */
  function LabelRows(rows: seq<Row>): (labelled: Option<seq<Row>>)
    ensures labelled.Some? <==> forall i :: 0 <= i < |rows| ==> LabelRow(rows[i]).Some?
    ensures labelled.Some? ==> |labelled.value| == |rows|
    ensures labelled.Some? ==> forall i :: 0 <= i < |rows| ==> LabelRow(rows[i]) == Some(labelled.value[i])
  {
    if rows == [] then Some([])
    else
      match (LabelRow(rows[0]), LabelRows(rows[1..]))
      case (Some(first), Some(rest)) => Some([first] + rest)
      case _ => None
  }

  /** The labelled rows are exactly the labelled forms of the input rows. */
  lemma LabelRowsMembers(rows: seq<Row>)
    requires LabelRows(rows).Some?
    ensures forall row :: row in LabelRows(rows).value <==> exists source :: source in rows && LabelRow(source) == Some(row)
  {
    var labelled := LabelRows(rows).value;
    forall row | exists source :: source in rows && LabelRow(source) == Some(row)
      ensures row in labelled
    {
      var source :| source in rows && LabelRow(source) == Some(row);
      var i :| 0 <= i < |rows| && rows[i] == source;
      assert labelled[i] == row;
    }
  }

  /**
    `generate_inventory_alerts`: check the required columns, then fill each
    row's threshold gaps with 0 and label it (`LabelRow`).
  */
  method GenerateInventoryAlerts(df: Frame) returns (r: Result<Frame>)
    ensures !(Required <= df.columns) ==> r == Err(ValueError(Required - df.columns))
    ensures Required <= df.columns ==>
              (r.Err? <==> exists i :: 0 <= i < |df.rows| && RowAlert(FillThresholds(df.rows[i])).None?)
    ensures r.Err? ==> r.error.ValueError? || r.error == TypeError
    ensures Required <= df.columns ==> (r.Ok? <==> LabelRows(df.rows).Some?)
    ensures r.Ok? ==> r.value.rows == LabelRows(df.rows).value
    ensures r.Ok? ==> r.value.columns == df.columns + {AlertColumn} && |r.value.rows| == |df.rows|
    ensures r.Ok? ==> forall i :: 0 <= i < |df.rows| ==> Classified(r.value.rows[i])
    ensures r.Ok? ==> forall i, c :: 0 <= i < |df.rows| && c != AlertColumn ==>
              Get(r.value.rows[i], c) == (if c in Required then FillCell(Get(df.rows[i], c)) else Get(df.rows[i], c))
  {
    if !(Required <= df.columns) {
      return Err(ValueError(Required - df.columns));
    }
    var labelled: seq<Row> := [];
    var i := 0;
    while i < |df.rows|
      invariant 0 <= i <= |df.rows| && |labelled| == i
      invariant forall k :: 0 <= k < i ==> LabelRow(df.rows[k]) == Some(labelled[k])
    {
      match LabelRow(df.rows[i])
      case None =>
        assert RowAlert(FillThresholds(df.rows[i])).None?;
        return Err(TypeError);
      case Some(row) =>
        labelled := labelled + [row];
      i := i + 1;
    }
    assert LabelRows(df.rows).Some?;
    assert forall k :: 0 <= k < |df.rows| ==> LabelRows(df.rows).value[k] == labelled[k];
    return Ok(Frame(df.columns + {AlertColumn}, labelled));
  }
}
