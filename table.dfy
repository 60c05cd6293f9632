/**
  The tabular values the script passes between its stages.

  A pandas DataFrame is modelled as a set of column names and a sequence of
  rows; a row maps column names to cells. A row that lacks a key, or holds
  `Missing` under it, has a NaN (or None) cell there: pandas does not tell the
  two apart and neither does `Get`. Nested JSON objects are assumed to arrive
  already flattened to dotted keys ("store.title"), as `json_normalize` makes them.
*/
module Table {

  /** One cell: a number, a text, NaN/None, or a JSON list of objects. */
  datatype Value =
    | Num(n: int)
    | Str(s: string)
    | Missing
    | List(items: seq<map<string, Value>>)

  type Row = map<string, Value>

  datatype Frame = Frame(columns: set<string>, rows: seq<Row>)

  /** The exceptions the script raises (or the exit it takes) on its way to a report. */
  datatype Error =
    | NoData                           // nothing was fetched: the script exits
    | KeyError(missing: set<string>)   // a column the code indexes is not there
    | ValueError(missing: set<string>) // the classifier's required columns are not all there
    | TypeError                        // a cell that Python cannot compare with a number

  datatype Result<+T> = Ok(value: T) | Err(error: Error)

  // Column names the code refers to.
  const Inventories := "inventories"
  const UniqueId := "unique_id"
  const StoreTitle := "store.title"
  const Title := "title"
  const ItemType := "type"
  const Model := "model"
  const InternalReference := "internal_reference"
  const Price := "price"
  const Quantity := "quantity"
  const ParLevel := "par_level"
  const CriticalLevel := "critical_level"
  const AlertColumn := "alert"

  /** The cell of `row` under `column`; NaN when the row has none. */
  function Get(row: Row, column: string): Value
  {
    if column in row then row[column] else Missing
  }

  /** `DataFrame.empty`: no rows, or no columns. */
  predicate Empty(f: Frame)
  {
    f.rows == [] || f.columns == {}
  }

  /** `fillna(0)` on one cell. */
  function FillCell(v: Value): (r: Value)
    ensures r != Missing
    ensures v != Missing ==> r == v
  {
    if v == Missing then Num(0) else v
  }

  /**
    Boolean-mask selection `df[mask]`: the rows for which `keep` holds, each
    occurrence kept, in their order (see `WhereAppend`).
  */
  function Where(rows: seq<Row>, keep: Row -> bool): (kept: seq<Row>)
    ensures |kept| <= |rows|
    ensures forall row :: row in kept <==> row in rows && keep(row)
  {
    if rows == [] then []
    else (if keep(rows[0]) then [rows[0]] else []) + Where(rows[1..], keep)
  }

  /** Every occurrence of a selected row is kept: a row appears as often as in the input, or not at all. */
  lemma {:induction false} WhereCounts(rows: seq<Row>, keep: Row -> bool)
    ensures forall row :: multiset(Where(rows, keep))[row] == if keep(row) then multiset(rows)[row] else 0
  {
    if rows != [] {
      assert rows == [rows[0]] + rows[1..];
      WhereCounts(rows[1..], keep);
    }
  }

  /** The selection is empty exactly when no row passes the mask. */
  lemma WhereEmpty(rows: seq<Row>, keep: Row -> bool)
    ensures Where(rows, keep) == [] <==> forall i :: 0 <= i < |rows| ==> !keep(rows[i])
  {
    if exists i :: 0 <= i < |rows| && keep(rows[i]) {
      var i :| 0 <= i < |rows| && keep(rows[i]);
      assert rows[i] in Where(rows, keep);
    }
  }

  /** Selection keeps the order: selecting from two pieces is selecting from each, one after the other. */
  lemma {:induction false} WhereAppend(a: seq<Row>, b: seq<Row>, keep: Row -> bool)
    ensures Where(a + b, keep) == Where(a, keep) + Where(b, keep)
  {
    if a == [] {
      assert a + b == b;
    } else {
      assert (a + b)[1..] == a[1..] + b;
      WhereAppend(a[1..], b, keep);
    }
  }

  /** Two selections in a row are one selection by both masks. */
  lemma {:induction false} WhereWhere(rows: seq<Row>, first: Row -> bool, second: Row -> bool, both: Row -> bool)
    requires forall row :: both(row) == (first(row) && second(row))
    ensures Where(Where(rows, first), second) == Where(rows, both)
  {
    if rows != [] {
      var head := if first(rows[0]) then [rows[0]] else [];
      WhereAppend(head, Where(rows[1..], first), second);
      WhereWhere(rows[1..], first, second, both);
      if first(rows[0]) {
        assert Where(head, second) == if second(rows[0]) then [rows[0]] else [] by {
          assert head[1..] == [];
        }
      }
    }
  }

  /** The columns a list of records spreads over: every key of every record. */
  function KeysOf(rows: seq<Row>): (keys: set<string>)
    ensures forall i, c :: 0 <= i < |rows| && c in rows[i] ==> c in keys
    ensures forall c :: c in keys ==> exists i :: 0 <= i < |rows| && c in rows[i]
  {
    if rows == [] then {}
    else
      var keys := rows[0].Keys + KeysOf(rows[1..]);
      assert forall i :: 1 <= i < |rows| ==> rows[i] == rows[1..][i - 1];
      keys
  }
}
