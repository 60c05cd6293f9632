/**
  `main`: fetch, flatten, drop the rows that cannot be alerted on, classify,
  keep the urgent and warning rows, and hand them to the report.

  The result is the report that would be e-mailed (None when nothing is
  sent) or the error that stops the run. Printing the sites with alerts
  and logging are not modelled.
*/
module Pipeline {
  import opened Wrappers
  import opened Table
  import Fetcher
  import Flattener
  import Alerts
  import Report

  const ProcurementPending := "Procurement Pending"

  predicate NotPending(row: Row)
  {
    Get(row, ItemType) != Str(ProcurementPending)
  }

  predicate ParLevelSet(row: Row)
  {
    Get(row, ParLevel) != Num(0)
  }

  predicate CriticalLevelSet(row: Row)
  {
    Get(row, CriticalLevel) != Num(0)
  }

  predicate Alerting(row: Row)
  {
    Get(row, AlertColumn) == Str(Alerts.UrgentLabel) || Get(row, AlertColumn) == Str(Alerts.WarningLabel)
  }

  /** The three conditions of lines 264-266 together. */
  predicate PreKeep(row: Row)
  {
    NotPending(row) && ParLevelSet(row) && CriticalLevelSet(row)
  }

  /**
    `df[mask]` where the mask reads `column`: raises when the column is
    absent; otherwise keeps every occurrence of each passing row, in order.
  */
  function SelectRows(f: Frame, column: string, keep: Row -> bool): (r: Result<Frame>)
    ensures column !in f.columns ==> r == Err(KeyError({column}))
    ensures column in f.columns ==> r.Ok? && r.value.columns == f.columns
    ensures r.Ok? ==> r.value.rows == Where(f.rows, keep)
    ensures r.Ok? ==> forall row :: multiset(r.value.rows)[row] == if keep(row) then multiset(f.rows)[row] else 0
  {
    if column !in f.columns then Err(KeyError({column}))
    else
      WhereCounts(f.rows, keep);
      Ok(Frame(f.columns, Where(f.rows, keep)))
  }

  /**
    Lines 264-266: drop the rows that are pending procurement, and those
    whose par level or whose critical level is 0. A NaN cell is not 0, so
    its row stays. The three masks in a row are one selection by all three.
  */
  function PreFilter(f: Frame): (r: Result<Frame>)
    ensures r.Ok? <==> {ItemType, ParLevel, CriticalLevel} <= f.columns
    ensures r.Err? ==> r.error.KeyError?
    ensures r.Ok? ==> r.value.columns == f.columns
    ensures r.Ok? ==> r.value.rows == Where(f.rows, PreKeep)
    ensures r.Ok? ==> forall row :: row in r.value.rows <==> row in f.rows && PreKeep(row)
    ensures r.Ok? ==> forall row :: multiset(r.value.rows)[row] == if PreKeep(row) then multiset(f.rows)[row] else 0
  {
    assert {ItemType, ParLevel, CriticalLevel} <= f.columns <==>
             ItemType in f.columns && ParLevel in f.columns && CriticalLevel in f.columns;
    ThreeMasks(f.rows);
    WhereCounts(f.rows, PreKeep);
    match SelectRows(f, ItemType, NotPending)
    case Err(e) => Err(e)
    case Ok(f1) =>
      match SelectRows(f1, ParLevel, ParLevelSet)
      case Err(e) => Err(e)
      case Ok(f2) => SelectRows(f2, CriticalLevel, CriticalLevelSet)
  }

  lemma ThreeMasks(rows: seq<Row>)
    ensures Where(Where(Where(rows, NotPending), ParLevelSet), CriticalLevelSet) == Where(rows, PreKeep)
  {
    var firstTwo := row => NotPending(row) && ParLevelSet(row);
    WhereWhere(rows, NotPending, ParLevelSet, firstTwo);
    WhereWhere(rows, firstTwo, CriticalLevelSet, PreKeep);
  }

  /** Lines 269-270: keep every urgent and warning row, in order. */
  function AlertFilter(f: Frame): (r: Result<Frame>)
    ensures AlertColumn !in f.columns ==> r == Err(KeyError({AlertColumn}))
    ensures AlertColumn in f.columns ==> r.Ok? && r.value.columns == f.columns
    ensures r.Ok? ==> r.value.rows == Where(f.rows, Alerting)
    ensures r.Ok? ==> forall row :: row in r.value.rows <==> row in f.rows && Alerting(row)
    ensures r.Ok? ==> forall row :: multiset(r.value.rows)[row] == if Alerting(row) then multiset(f.rows)[row] else 0
  {
    SelectRows(f, AlertColumn, Alerting)
  }

  /** An urgent or warning row of the site the report is for. */
  predicate SiteAlert(row: Row)
  {
    Alerting(row) && Report.AtSite(row)
  }

  /**
    The rows of a flattened frame that a run reports: the rows the filters of
    `main` keep, labelled by the classifier, that are urgent or warning rows
    of the site, in order. None when the classifier raises on a kept row.
  */
  function SiteAlerts(f: Frame): Option<seq<Row>>
  {
    match Alerts.LabelRows(Where(f.rows, PreKeep))
    case None => None
    case Some(labelled) => Some(Where(labelled, SiteAlert))
  }

  /** A row is reported exactly when it is the labelled form of a kept row of the frame and alerts at the site. */
  lemma SiteAlertsMembers(f: Frame)
    requires SiteAlerts(f).Some?
    ensures forall row :: row in SiteAlerts(f).value <==>
              SiteAlert(row) && exists source :: source in f.rows && PreKeep(source) && Alerts.LabelRow(source) == Some(row)
  {
    Alerts.LabelRowsMembers(Where(f.rows, PreKeep));
  }

  /** What every line of a sent report satisfies. */
  predicate Reportable(x: Report.ReportRow)
  {
    && x.site == Str(Report.SiteName)
    && x.itemType != Str(ProcurementPending)
    && x.parLevel.Num? && x.parLevel.n != 0
    && x.criticalLevel.Num? && x.criticalLevel.n != 0
    && x.alert == Alerts.Label(Alerts.AlertLogic(x.quantity, x.parLevel.n, x.criticalLevel.n))
    && x.alert in {Alerts.UrgentLabel, Alerts.WarningLabel}
  }

  /**
    A run of the script on the API's responses. When it does not raise, its
    report holds one line for each of `SiteAlerts` of the flattened records
    (nothing is sent when there is none). A sent report is not empty, it is
    sorted, and every line is an urgent or warning line of the Sheffield
    site whose label is the classification of its own numbers, with both
    thresholds set.
  */
  method RunInventoryAlerts(responses: seq<Fetcher.Response>) returns (r: Result<Option<seq<Report.ReportRow>>>)
    ensures Fetcher.Accumulate(responses, Fetcher.PerPage) == [] ==> r == Err(NoData)
    ensures r.Err? ==> (r.error == NoData <==> Fetcher.Accumulate(responses, Fetcher.PerPage) == [])
    ensures r.Err? ==> r.error == NoData || r.error.KeyError? || r.error.ValueError?
    ensures var records := Fetcher.Accumulate(responses, Fetcher.PerPage);
            var flat := Flattener.Flattened(Fetcher.ToFrame(records));
            records != [] && flat.Ok? && RunColumns <= flat.value.columns ==> r.Ok?
    ensures r.Ok? ==>
              var flat := Flattener.Flattened(Fetcher.ToFrame(Fetcher.Accumulate(responses, Fetcher.PerPage)));
              && flat.Ok? && SiteAlerts(flat.value).Some?
              && Report.ShapeRows(SiteAlerts(flat.value).value).Some?
              && (r.value.None? <==> SiteAlerts(flat.value).value == [])
              && (r.value.Some? ==> multiset(r.value.value) == multiset(Report.ShapeRows(SiteAlerts(flat.value).value).value))
    ensures r.Ok? && r.value.Some? ==>
              && r.value.value != []
              && Report.Sorted(r.value.value)
              && forall x :: x in r.value.value ==> Reportable(x)
  {
    var inventoryData := Fetcher.GetInventoryData(responses);
    if inventoryData.Err? {
      return Err(inventoryData.error);
    }
    var merged := Flattener.FlattenProcess(inventoryData.value);
    if merged.Err? {
      return Err(merged.error);
    }
    var kept := PreFilter(merged.value);
    if kept.Err? {
      return Err(kept.error);
    }
    FlattenedThresholdsAll(inventoryData.value);
    if Alerts.Required <= kept.value.columns {
      KeptRowsLabel(merged.value, kept.value);
    }
    var alerts := Alerts.GenerateInventoryAlerts(kept.value);
    if alerts.Err? {
      return Err(alerts.error);
    }
    // the classifier has just added the `alert` column, so this selection cannot raise
    var filtered := AlertFilter(alerts.value).value;
    FilteredRowsShape(kept.value.rows, alerts.value.rows, filtered.rows);
    ReportSourcesPresent(filtered.columns);
    if filtered.rows == [] {
      r := Ok(None);
    } else {
      r := Report.SendEmailNotification(filtered);
    }
    RunOutcome(responses, merged.value, kept.value, alerts.value, filtered, r);
    RunSendsReportable(responses, merged.value, kept.value, alerts.value, filtered, r);
  }

  /**
    The columns a run needs besides `alert`, which the classifier adds: the
    three the filters read, and the ten the report is built from.
  */
  const RunColumns: set<string> :=
    {StoreTitle, Title, ItemType, Model, InternalReference, Price, Quantity, ParLevel, CriticalLevel}

  lemma ReportSourcesPresent(columns: set<string>)
    ensures (forall c :: c in Report.ReportSources ==> c in columns) <==> RunColumns + {AlertColumn} <= columns
  {
    assert forall c :: c in RunColumns + {AlertColumn} <==> c in Report.ReportSources;
  }

  /**
    The flattened frame's thresholds are numbers, so once the classifier's
    columns are present it can label every row the filters keep.
  */
  lemma KeptRowsLabel(flat: Frame, kept: Frame)
    requires forall i, c :: 0 <= i < |flat.rows| && c in Flattener.NumericColumns && c in flat.columns ==>
               Get(flat.rows[i], c).Num?
    requires kept.columns == flat.columns
    requires forall row :: row in kept.rows ==> row in flat.rows
    requires Alerts.Required <= kept.columns
    ensures forall i :: 0 <= i < |kept.rows| ==> Alerts.LabelRow(kept.rows[i]).Some?
  {
    forall i | 0 <= i < |kept.rows| ensures Alerts.LabelRow(kept.rows[i]).Some? {
      var row := kept.rows[i];
      assert row in kept.rows;
      var j :| 0 <= j < |flat.rows| && flat.rows[j] == row;
      forall c | c in Alerts.Required ensures Get(Alerts.FillThresholds(row), c).Num? {
        assert c in Flattener.NumericColumns;
      }
    }
  }

  /** Every row the alert filter keeps can be put in the report: its quantity is a number and its alert a text. */
  lemma FilteredRowsShape(kept: seq<Row>, alerted: seq<Row>, filtered: seq<Row>)
    requires |alerted| == |kept|
    requires forall i :: 0 <= i < |kept| ==> Alerts.LabelRow(kept[i]) == Some(alerted[i])
    requires forall row :: row in filtered ==> row in alerted
    ensures forall row :: row in filtered ==> Report.ToReportRow(row).Some?
  {
    forall row | row in filtered ensures Report.ToReportRow(row).Some? {
      var i :| 0 <= i < |alerted| && alerted[i] == row;
      assert Alerts.LabelRow(kept[i]) == Some(row);
    }
  }

  /** What the stages of a run that got as far as the report establish about it. */
  lemma RunOutcome(responses: seq<Fetcher.Response>, flat: Frame, kept: Frame, alerted: Frame, filtered: Frame,
                   r: Result<Option<seq<Report.ReportRow>>>)
    requires Flattener.Flattened(Fetcher.ToFrame(Fetcher.Accumulate(responses, Fetcher.PerPage))) == Ok(flat)
    requires PreFilter(flat) == Ok(kept)
    requires Alerts.LabelRows(kept.rows) == Some(alerted.rows)
    requires AlertFilter(alerted) == Ok(filtered)
    requires r == if filtered.rows == [] then Ok(None) else Report.SendEmailNotification(filtered)
    ensures r.Ok? ==>
              && SiteAlerts(flat).Some?
              && Report.ShapeRows(SiteAlerts(flat).value).Some?
              && (r.value.None? <==> SiteAlerts(flat).value == [])
              && (r.value.Some? ==> multiset(r.value.value) == multiset(Report.ShapeRows(SiteAlerts(flat).value).value))
  {
    if r.Ok? {
      ReportsSiteAlerts(flat, kept, alerted, filtered, r);
    }
  }

  /** A report a run sends is not empty, is sorted, and holds only reportable lines. */
  lemma RunSendsReportable(responses: seq<Fetcher.Response>, flat: Frame, kept: Frame, alerted: Frame, filtered: Frame,
                           r: Result<Option<seq<Report.ReportRow>>>)
    requires Flattener.Flattened(Fetcher.ToFrame(Fetcher.Accumulate(responses, Fetcher.PerPage))) == Ok(flat)
    requires PreFilter(flat) == Ok(kept)
    requires Alerts.LabelRows(kept.rows) == Some(alerted.rows)
    requires AlertFilter(alerted) == Ok(filtered)
    requires r == if filtered.rows == [] then Ok(None) else Report.SendEmailNotification(filtered)
    ensures r.Ok? && r.value.Some? ==>
              && r.value.value != []
              && Report.Sorted(r.value.value)
              && forall x :: x in r.value.value ==> Reportable(x)
  {
    if r.Ok? {
      if r.value.Some? {
        FlattenedThresholdsAll(Fetcher.ToFrame(Fetcher.Accumulate(responses, Fetcher.PerPage)));
        forall i | 0 <= i < |kept.rows|
          ensures Alerts.Classified(alerted.rows[i])
          ensures forall c :: c != AlertColumn ==>
                    Get(alerted.rows[i], c) == if c in Alerts.Required then FillCell(Get(kept.rows[i], c)) else Get(kept.rows[i], c)
        {
          assert Alerts.LabelRow(kept.rows[i]) == Some(alerted.rows[i]);
        }
        SentReportIsReportable(flat, kept, alerted, filtered, r.value.value);
      }
    }
  }

  /** The report a run sends is made of the `SiteAlerts` of the flattened frame, one line each. */
  lemma ReportsSiteAlerts(merged: Frame, kept: Frame, alerted: Frame, filtered: Frame, r: Result<Option<seq<Report.ReportRow>>>)
    requires kept.rows == Where(merged.rows, PreKeep)
    requires Alerts.LabelRows(kept.rows).Some? && alerted.rows == Alerts.LabelRows(kept.rows).value
    requires filtered.rows == Where(alerted.rows, Alerting)
    requires r == if filtered.rows == [] then Ok(None) else Report.SendEmailNotification(filtered)
    requires r.Ok?
    ensures SiteAlerts(merged) == Some(Where(filtered.rows, Report.AtSite))
    ensures Report.ShapeRows(SiteAlerts(merged).value).Some?
    ensures r.value.None? <==> SiteAlerts(merged).value == []
    ensures r.value.Some? ==> multiset(r.value.value) == multiset(Report.ShapeRows(SiteAlerts(merged).value).value)
  {
    WhereWhere(alerted.rows, Alerting, Report.AtSite, SiteAlert);
    WhereEmpty(filtered.rows, Report.AtSite);
  }

  lemma FlattenedThresholdsAll(df: Frame)
    requires Flattener.Flattened(df).Ok?
    ensures var f := Flattener.Flattened(df).value;
      forall i, c :: 0 <= i < |f.rows| && c in Flattener.NumericColumns && c in f.columns ==> Get(f.rows[i], c).Num?
  {
    var f := Flattener.Flattened(df).value;
    forall i, c | 0 <= i < |f.rows| && c in Flattener.NumericColumns && c in f.columns
      ensures Get(f.rows[i], c).Num?
    {
      Flattener.FlattenedThresholds(df, i, c);
    }
  }

  lemma SentReportIsReportable(merged: Frame, kept: Frame, alerted: Frame, filtered: Frame, report: seq<Report.ReportRow>)
    requires forall i, c :: 0 <= i < |merged.rows| && c in Flattener.NumericColumns && c in merged.columns ==>
               Get(merged.rows[i], c).Num?
    requires {ItemType, ParLevel, CriticalLevel} <= merged.columns
    requires forall row :: row in kept.rows <==>
               row in merged.rows && NotPending(row) && ParLevelSet(row) && CriticalLevelSet(row)
    requires |alerted.rows| == |kept.rows|
    requires forall i :: 0 <= i < |kept.rows| ==> Alerts.Classified(alerted.rows[i])
    requires forall i, c :: 0 <= i < |kept.rows| && c != AlertColumn ==>
               Get(alerted.rows[i], c) == (if c in Alerts.Required then FillCell(Get(kept.rows[i], c)) else Get(kept.rows[i], c))
    requires forall row :: row in filtered.rows <==> row in alerted.rows && Alerting(row)
    requires forall x :: x in report ==>
               exists row :: row in filtered.rows && Report.AtSite(row) && Report.ToReportRow(row) == Some(x)
    ensures forall x :: x in report ==> Reportable(x)
  {
    forall x | x in report ensures Reportable(x) {
      var row :| row in filtered.rows && Report.AtSite(row) && Report.ToReportRow(row) == Some(x);
      ReportedRowIsReportable(merged, kept, alerted, row, x);
    }
  }

  /** The chain of facts that carries one reported row back to the flattened frame. */
  lemma ReportedRowIsReportable(merged: Frame, kept: Frame, alerted: Frame, row: Row, x: Report.ReportRow)
    requires forall i, c :: 0 <= i < |merged.rows| && c in Flattener.NumericColumns && c in merged.columns ==>
               Get(merged.rows[i], c).Num?
    requires {ItemType, ParLevel, CriticalLevel} <= merged.columns
    requires forall row :: row in kept.rows <==>
               row in merged.rows && NotPending(row) && ParLevelSet(row) && CriticalLevelSet(row)
    requires |alerted.rows| == |kept.rows|
    requires forall i :: 0 <= i < |kept.rows| ==> Alerts.Classified(alerted.rows[i])
    requires forall i, c :: 0 <= i < |kept.rows| && c != AlertColumn ==>
               Get(alerted.rows[i], c) == (if c in Alerts.Required then FillCell(Get(kept.rows[i], c)) else Get(kept.rows[i], c))
    requires row in alerted.rows && Alerting(row)
    requires Report.AtSite(row) && Report.ToReportRow(row) == Some(x)
    ensures Reportable(x)
  {
    var i :| 0 <= i < |alerted.rows| && alerted.rows[i] == row;
    var before := kept.rows[i];
    assert before in kept.rows;
    var j :| 0 <= j < |merged.rows| && merged.rows[j] == before;
    assert Get(before, ParLevel).Num? && Get(before, CriticalLevel).Num?;
    assert Get(row, ParLevel) == FillCell(Get(before, ParLevel)) == Get(before, ParLevel);
    assert Get(row, CriticalLevel) == FillCell(Get(before, CriticalLevel)) == Get(before, CriticalLevel);
    assert ItemType != AlertColumn && ItemType !in Alerts.Required by {
      assert ItemType[0] == 't';
    }
    assert Get(row, ItemType) == Get(before, ItemType);
  }
}
