/**
  The report shaping at the top of `send_email_notification`: keep one
  site's rows, rename and reorder the columns, sort by quantity and then by
  alert label, and send nothing when no row is left.
*/
module Report {
  import opened Wrappers
  import opened Table
  import Text
  import Alerts

  const SiteName := "Sheffield Parts Co. - TERP"

  /** The report's columns, in order, and the frame columns they are renamed from. */
  const ReportHeaders: seq<string> :=
    ["Site", "Part Name", "Type", "Model", "Internal Reference", "Price", "Quantity", "Par Level", "Critical Level", "Alert"]
  const ReportSources: seq<string> :=
    [StoreTitle, Title, ItemType, Model, InternalReference, Price, Quantity, ParLevel, CriticalLevel, AlertColumn]

  /** One report line, its fields in the report's column order. */
  datatype ReportRow = ReportRow(
    site: Value, partName: Value, itemType: Value, model: Value, internalReference: Value,
    price: Value, quantity: int, parLevel: Value, criticalLevel: Value, alert: string)

  /** The cells of a report line, in column order. */
  function Cells(r: ReportRow): seq<Value>
  {
    [r.site, r.partName, r.itemType, r.model, r.internalReference,
     r.price, Num(r.quantity), r.parLevel, r.criticalLevel, Str(r.alert)]
  }

  /** A frame row renamed and reordered; None where its Quantity or Alert cell cannot be sorted. */
  function ToReportRow(row: Row): Option<ReportRow>
  {
    match (Get(row, Quantity), Get(row, AlertColumn))
    case (Num(q), Str(a)) =>
      Some(ReportRow(Get(row, StoreTitle), Get(row, Title), Get(row, ItemType), Get(row, Model),
                     Get(row, InternalReference), Get(row, Price), q, Get(row, ParLevel),
                     Get(row, CriticalLevel), a))
    case _ => None
  }

  /** Column k of the report holds the cell of the frame column renamed to header k. */
  lemma CellsFollowHeaders(row: Row, k: nat)
    requires ToReportRow(row).Some? && k < |ReportHeaders|
    ensures |Cells(ToReportRow(row).value)| == |ReportHeaders| == |ReportSources|
    ensures Cells(ToReportRow(row).value)[k] == Get(row, ReportSources[k])
  {
    var x := ToReportRow(row).value;
    assert Cells(x) == [Get(row, StoreTitle), Get(row, Title), Get(row, ItemType), Get(row, Model),
                        Get(row, InternalReference), Get(row, Price), Get(row, Quantity), Get(row, ParLevel),
                        Get(row, CriticalLevel), Get(row, AlertColumn)];
  }

  function ShapeRows(rows: seq<Row>): (shaped: Option<seq<ReportRow>>)
    ensures shaped.Some? <==> forall i :: 0 <= i < |rows| ==> ToReportRow(rows[i]).Some?
    ensures shaped.Some? ==> |shaped.value| == |rows|
    ensures shaped.Some? ==> forall i :: 0 <= i < |rows| ==> shaped.value[i] == ToReportRow(rows[i]).value
  {
    if rows == [] then Some([])
    else
      match (ToReportRow(rows[0]), ShapeRows(rows[1..]))
      case (Some(first), Some(rest)) => Some([first] + rest)
      case _ => None
  }

  // ---- Ordering --------------------------------------------------------

  /** `sort_values(by=["Quantity", "Alert"], ascending=[True, False])`: quantity up, then label down. */
  predicate Precedes(a: ReportRow, b: ReportRow)
  {
    a.quantity < b.quantity || (a.quantity == b.quantity && Text.LexLe(b.alert, a.alert))
  }

  predicate Sorted(rows: seq<ReportRow>)
  {
    forall i, j :: 0 <= i < j < |rows| ==> Precedes(rows[i], rows[j])
  }

  lemma PrecedesTotal(a: ReportRow, b: ReportRow)
    ensures Precedes(a, b) || Precedes(b, a)
  {
    Text.LexLeTotal(a.alert, b.alert);
  }

  lemma PrecedesTransitive(a: ReportRow, b: ReportRow, c: ReportRow)
    requires Precedes(a, b) && Precedes(b, c)
    ensures Precedes(a, c)
  {
    if a.quantity == b.quantity == c.quantity {
      Text.LexLeTransitive(c.alert, b.alert, a.alert);
    }
  }

  /** Two lines that precede each other have the same quantity and the same label. */
  lemma PrecedesAntisymmetric(a: ReportRow, b: ReportRow)
    requires Precedes(a, b) && Precedes(b, a)
    ensures a.quantity == b.quantity && a.alert == b.alert
  {
    Text.LexLeAntisymmetric(a.alert, b.alert);
  }

  lemma PrependSorted(x: ReportRow, rows: seq<ReportRow>)
    requires Sorted(rows)
    requires forall y :: y in rows ==> Precedes(x, y)
    ensures Sorted([x] + rows)
  {
  }

  lemma FirstIsLeast(x: ReportRow, rows: seq<ReportRow>)
    requires Sorted(rows) && rows != [] && Precedes(x, rows[0])
    ensures forall y :: y in rows ==> Precedes(x, y)
  {
    forall y | y in rows ensures Precedes(x, y) {
      var j :| 0 <= j < |rows| && rows[j] == y;
      if j > 0 {
        PrecedesTransitive(x, rows[0], y);
      }
    }
  }

  lemma HeadPrecedesInserted(x: ReportRow, rows: seq<ReportRow>, inserted: seq<ReportRow>)
    requires Sorted(rows) && rows != [] && !Precedes(x, rows[0])
    requires multiset(inserted) == multiset(rows[1..]) + multiset{x}
    ensures forall y :: y in inserted ==> Precedes(rows[0], y)
  {
    PrecedesTotal(x, rows[0]);
    forall y | y in inserted ensures Precedes(rows[0], y) {
      assert y in multiset(inserted);
      if y != x {
        assert y in multiset(rows[1..]);
        var j :| 0 <= j < |rows[1..]| && rows[1..][j] == y;
        assert rows[j + 1] == y;
      }
    }
  }

  /** Insert one line into a sorted report. */
  function Insert(x: ReportRow, rows: seq<ReportRow>): (r: seq<ReportRow>)
    requires Sorted(rows)
    ensures Sorted(r) && multiset(r) == multiset(rows) + multiset{x}
  {
    if rows == [] then [x]
    else if Precedes(x, rows[0]) then
      FirstIsLeast(x, rows);
      PrependSorted(x, rows);
      [x] + rows
    else
      var inserted := Insert(x, rows[1..]);
      HeadPrecedesInserted(x, rows, inserted);
      PrependSorted(rows[0], inserted);
      assert rows == [rows[0]] + rows[1..];
      [rows[0]] + inserted
  }

  /** The sorted report: a permutation of its lines in which each line precedes every later one. */
  function SortReport(rows: seq<ReportRow>): (r: seq<ReportRow>)
    ensures Sorted(r) && multiset(r) == multiset(rows)
  {
    if rows == [] then []
    else
      assert rows == [rows[0]] + rows[1..];
      Insert(rows[0], SortReport(rows[1..]))
  }

  /**
    At equal quantity a warning comes before an urgent line: "Warning..."
    is the larger string and the labels sort in descending order.
  */
  lemma WarningBeforeUrgent(rows: seq<ReportRow>, i: nat, j: nat)
    requires Sorted(rows) && i < j < |rows| && rows[i].quantity == rows[j].quantity
    requires rows[i].alert in {Alerts.UrgentLabel, Alerts.WarningLabel}
    requires rows[j].alert in {Alerts.UrgentLabel, Alerts.WarningLabel}
    requires rows[i].alert != rows[j].alert
    ensures rows[i].alert == Alerts.WarningLabel && rows[j].alert == Alerts.UrgentLabel
  {
  }

  // ---- send_email_notification -------------------------------------------

  predicate AtSite(row: Row)
  {
    Get(row, StoreTitle) == Str(SiteName)
  }

  /** The report headers whose source column is absent, as the reordering raises them. */
  function MissingHeaders(columns: set<string>): set<string>
  {
    set k | 0 <= k < |ReportSources| && ReportSources[k] !in columns :: ReportHeaders[k]
  }

  lemma MissingHeadersEmpty(columns: set<string>)
    ensures MissingHeaders(columns) == {} <==> forall c :: c in ReportSources ==> c in columns
  {
    if exists c :: c in ReportSources && c !in columns {
      var c :| c in ReportSources && c !in columns;
      var k :| 0 <= k < |ReportSources| && ReportSources[k] == c;
      assert ReportHeaders[k] in MissingHeaders(columns);
    }
  }

  lemma ShapeSiteRows(rows: seq<Row>)
    ensures ShapeRows(Where(rows, AtSite)).Some? <==> forall row :: row in rows && AtSite(row) ==> ToReportRow(row).Some?
  {
  }

  /** Lines 62-73: filter to the site, rename, reorder and sort. */
  function BuildReport(f: Frame): (r: Result<seq<ReportRow>>)
    ensures StoreTitle !in f.columns ==> r == Err(KeyError({StoreTitle}))
    ensures StoreTitle in f.columns && r.Err? ==>
              r.error == TypeError || (r.error.KeyError? && r.error.missing != {} && r.error.missing <= set h | h in ReportHeaders)
    ensures r.Ok? ==> var shaped := ShapeRows(Where(f.rows, AtSite));
              shaped.Some? && Sorted(r.value) && multiset(r.value) == multiset(shaped.value)
  {
    if StoreTitle !in f.columns then Err(KeyError({StoreTitle}))
    else if MissingHeaders(f.columns) != {} then Err(KeyError(MissingHeaders(f.columns)))
    else
      match ShapeRows(Where(f.rows, AtSite))
      case None => Err(TypeError)
      case Some(shaped) => Ok(SortReport(shaped))
  }

  lemma EmptyReportIffNoSiteRow(f: Frame)
    requires BuildReport(f).Ok?
    ensures BuildReport(f).value == [] <==> forall row :: row in f.rows ==> !AtSite(row)
  {
    var site := Where(f.rows, AtSite);
    var shaped := ShapeRows(site).value;
    var report := BuildReport(f).value;
    assert |report| == |multiset(report)| == |multiset(shaped)| == |shaped| == |site|;
    if site != [] {
      assert site[0] in site;
    }
    if exists row :: row in f.rows && AtSite(row) {
      var row :| row in f.rows && AtSite(row);
      assert row in site;
    }
  }

  lemma ReportTracesToSiteRows(f: Frame)
    requires BuildReport(f).Ok?
    ensures forall x :: x in BuildReport(f).value ==>
              exists row :: row in f.rows && AtSite(row) && ToReportRow(row) == Some(x)
  {
    var site := Where(f.rows, AtSite);
    var shaped := ShapeRows(site).value;
    var report := BuildReport(f).value;
    forall x | x in report ensures exists row :: row in f.rows && AtSite(row) && ToReportRow(row) == Some(x) {
      assert x in multiset(report);
      assert x in multiset(shaped);
      var i :| 0 <= i < |shaped| && shaped[i] == x;
      assert site[i] in site;
    }
  }

  /**
    Lines 62-79 of `send_email_notification`: the report it would send, or
    None when the site has no alerts and nothing is sent.
  */
  function SendEmailNotification(f: Frame): (r: Result<Option<seq<ReportRow>>>)
    ensures StoreTitle !in f.columns ==> r == Err(KeyError({StoreTitle}))
    ensures r.Ok? <==> (forall c :: c in ReportSources ==> c in f.columns)
                       && (forall row :: row in f.rows && AtSite(row) ==> ToReportRow(row).Some?)
    ensures r.Err? ==> if forall c :: c in ReportSources ==> c in f.columns then r.error == TypeError else r.error.KeyError?
    ensures r.Ok? ==> (r.value.None? <==> forall row :: row in f.rows ==> !AtSite(row))
    ensures r.Ok? && r.value.Some? ==>
              var report := r.value.value;
              && report != []
              && Sorted(report)
              && multiset(report) == multiset(ShapeRows(Where(f.rows, AtSite)).value)
              && forall x :: x in report ==> exists row :: row in f.rows && AtSite(row) && ToReportRow(row) == Some(x)
  {
    MissingHeadersEmpty(f.columns);
    ShapeSiteRows(f.rows);
    var built := BuildReport(f);
    if built.Err? then Err(built.error)
    else
      EmptyReportIffNoSiteRow(f);
      ReportTracesToSiteRows(f);
      if built.value == [] then Ok(None)
      else Ok(Some(built.value))
  }
}
