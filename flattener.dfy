/**
  The flattener/merger, `flatten_process_inventory_data`: it explodes every
  record's `inventories` list into rows tagged with the record's position,
  left-joins them back to the records on `unique_id`, keeps a whitelist of
  columns, turns the three threshold columns into numbers and fills every
  remaining gap with 0.

  Parent and line column names are assumed disjoint apart from `unique_id`
  (pandas would rename clashing columns with `_x`/`_y` suffixes); a joined
  row is the parent's cells overlaid with the line's.
*/
module Flattener {
  import opened Wrappers
  import opened Table
  import Text

  const Whitelist: set<string> := {
    StoreTitle, "store.cycle_count_system_value", "store.cycle_count_system_type",
    Title, ItemType, Model, "manufacturer", "asset_model", "unit_measurement",
    InternalReference, "archive", Price, UniqueId, Quantity, ParLevel, CriticalLevel
  }

  const NumericColumns: seq<string> := [Quantity, ParLevel, CriticalLevel]

  // ---- Explode ----------------------------------------------------------

  /** A record's inventory lines; a cell that is not a list counts as the empty list. */
  function LinesOf(parent: Row): seq<Row>
  {
    match Get(parent, Inventories)
    case List(lines) => lines
    case _ => []
  }

  /** The lines of the record at position `id`, each tagged with `unique_id` `id`. */
  function Tagged(lines: seq<Row>, id: nat): seq<Row>
  {
    seq(|lines|, j requires 0 <= j < |lines| => lines[j][UniqueId := Num(id)])
  }

  /** The number of inventory lines of all records together. */
  function LineTotal(parents: seq<Row>): nat
  {
    if parents == [] then 0
    else LineTotal(parents[..|parents| - 1]) + |LinesOf(parents[|parents| - 1])|
  }

  /** `flattened_inventories` after the nested loop: record by record, line by line. */
  function Explode(parents: seq<Row>): (flat: seq<Row>)
    ensures |flat| == LineTotal(parents)
  {
    if parents == [] then []
    else
      var n := |parents| - 1;
      Explode(parents[..n]) + Tagged(LinesOf(parents[n]), n)
  }

  /** The nested loop of lines 217-222. */
  method ExplodeInventories(parents: seq<Row>) returns (flat: seq<Row>)
    ensures flat == Explode(parents)
  {
    flat := [];
    var i := 0;
    while i < |parents|
      invariant 0 <= i <= |parents|
      invariant flat == Explode(parents[..i])
    {
      var lines := LinesOf(parents[i]);
      var j := 0;
      while j < |lines|
        invariant 0 <= j <= |lines|
        invariant flat == Explode(parents[..i]) + Tagged(lines[..j], i)
      {
        TaggedStep(lines, j, i);
        ghost var before := flat;
        flat := flat + [lines[j][UniqueId := Num(i)]];
        assert flat == Explode(parents[..i]) + (Tagged(lines[..j], i) + [lines[j][UniqueId := Num(i)]]) by {
          assert before == Explode(parents[..i]) + Tagged(lines[..j], i);
        }
        j := j + 1;
      }
      assert lines[..j] == lines;
      ExplodeStep(parents, i);
      i := i + 1;
    }
    assert parents[..i] == parents;
  }

  lemma TaggedStep(lines: seq<Row>, j: nat, id: nat)
    requires j < |lines|
    ensures Tagged(lines[..j + 1], id) == Tagged(lines[..j], id) + [lines[j][UniqueId := Num(id)]]
  {
  }

  lemma ExplodeStep(parents: seq<Row>, i: nat)
    requires i < |parents|
    ensures Explode(parents[..i + 1]) == Explode(parents[..i]) + Tagged(LinesOf(parents[i]), i)
  {
    assert parents[..i + 1][..i] == parents[..i];
  }

  /**
    Line j of record i is the exploded row just after the lines of the
    records before i, and it carries `unique_id` i.
  */
  lemma {:induction false} ExplodeAt(parents: seq<Row>, i: nat, j: nat)
    requires i < |parents| && j < |LinesOf(parents[i])|
    ensures LineTotal(parents[..i]) + j < |Explode(parents)|
    ensures Explode(parents)[LineTotal(parents[..i]) + j] == LinesOf(parents[i])[j][UniqueId := Num(i)]
  {
    var n := |parents| - 1;
    var front := parents[..n];
    assert Explode(parents) == Explode(front) + Tagged(LinesOf(parents[n]), n);
    if i < n {
      assert front[..i] == parents[..i];
      ExplodeAt(front, i, j);
    } else {
      assert parents[..i] == front;
      assert |Explode(front)| == LineTotal(front);
    }
  }

  // ---- Merge ------------------------------------------------------------

  /** The mask `unique_id == key`. */
  function IdIs(key: Value): Row -> bool
  {
    row => Get(row, UniqueId) == key
  }

  /** The exploded rows whose `unique_id` equals `key`, in order. */
  function Matches(lines: seq<Row>, key: Value): seq<Row>
  {
    Where(lines, IdIs(key))
  }

  /** A record joined to its matching lines; with no match, the record alone. */
  function Joined(parent: Row, matches: seq<Row>): (rows: seq<Row>)
    ensures |rows| == if matches == [] then 1 else |matches|
  {
    var base := parent - {Inventories};
    if matches == [] then [base]
    else seq(|matches|, k requires 0 <= k < |matches| => base + matches[k])
  }

  /** `pd.merge(parents, lines, on="unique_id", how="left")`. */
  function MergeLeft(parents: seq<Row>, lines: seq<Row>): (rows: seq<Row>)
    ensures |rows| >= |parents|
  {
    if parents == [] then []
    else
      var n := |parents| - 1;
      MergeLeft(parents[..n], lines) + Joined(parents[n], Matches(lines, Get(parents[n], UniqueId)))
  }

  /** The number of rows a left join yields when record i has k_i lines: the sum of max(k_i, 1). */
  function JoinedTotal(parents: seq<Row>): nat
  {
    if parents == [] then 0
    else
      var n := |parents| - 1;
      JoinedTotal(parents[..n]) + (if LinesOf(parents[n]) == [] then 1 else |LinesOf(parents[n])|)
  }

  /** The left join described by position: each record with its own lines. */
  function JoinOwnLines(parents: seq<Row>): (rows: seq<Row>)
    ensures |rows| == JoinedTotal(parents)
  {
    if parents == [] then []
    else
      var n := |parents| - 1;
      JoinOwnLines(parents[..n]) + Joined(parents[n], Tagged(LinesOf(parents[n]), n))
  }

  /** `inventory_df.drop(columns=["inventories"])` on the rows. */
  function DropInventories(parents: seq<Row>): (rows: seq<Row>)
    ensures |rows| == |parents|
    ensures forall i :: 0 <= i < |parents| ==> rows[i] == parents[i] - {Inventories}
  {
    seq(|parents|, i requires 0 <= i < |parents| => parents[i] - {Inventories})
  }

  /** Record i has `unique_id` i, as `get_inventory_data` numbers them. */
  predicate IdsArePositions(parents: seq<Row>)
  {
    forall i :: 0 <= i < |parents| ==> Get(parents[i], UniqueId) == Num(i)
  }

  lemma {:induction false} MatchesTagged(lines: seq<Row>, id: nat, i: int)
    ensures Matches(Tagged(lines, id), Num(i)) == if i == id then Tagged(lines, id) else []
  {
    if lines != [] {
      assert Tagged(lines, id)[1..] == Tagged(lines[1..], id);
      MatchesTagged(lines[1..], id, i);
    }
  }

  /** The exploded rows carrying `unique_id` i are exactly the lines of record i. */
  lemma {:induction false} MatchesOfExplode(parents: seq<Row>, i: int)
    ensures Matches(Explode(parents), Num(i)) == if 0 <= i < |parents| then Tagged(LinesOf(parents[i]), i) else []
  {
    if parents != [] {
      var n := |parents| - 1;
      WhereAppend(Explode(parents[..n]), Tagged(LinesOf(parents[n]), n), IdIs(Num(i)));
      MatchesOfExplode(parents[..n], i);
      MatchesTagged(LinesOf(parents[n]), n, i);
    }
  }

  lemma {:induction false} MergeFindsOwnLines(parents: seq<Row>, lines: seq<Row>)
    requires forall i :: 0 <= i < |parents| ==> Matches(lines, Get(parents[i], UniqueId)) == Tagged(LinesOf(parents[i]), i)
    ensures MergeLeft(parents, lines) == JoinOwnLines(parents)
  {
    if parents != [] {
      var n := |parents| - 1;
      MergeFindsOwnLines(parents[..n], lines);
    }
  }

  /**
    Joining on `unique_id` matches every record with exactly its own lines,
    so the merge has one row per line, plus one row for each record
    without lines: the sum of max(k_i, 1) rows.
  */
  lemma MergeIsOwnLines(parents: seq<Row>)
    requires IdsArePositions(parents)
    ensures MergeLeft(parents, Explode(parents)) == JoinOwnLines(parents)
    ensures |MergeLeft(parents, Explode(parents))| == JoinedTotal(parents)
  {
    forall i | 0 <= i < |parents|
      ensures Matches(Explode(parents), Get(parents[i], UniqueId)) == Tagged(LinesOf(parents[i]), i)
    {
      MatchesOfExplode(parents, i);
    }
    MergeFindsOwnLines(parents, Explode(parents));
  }

  /** With no lines at all, the merge would give the records without `inventories`: what the else-branch keeps. */
  lemma {:induction false} MergeWithoutLines(parents: seq<Row>)
    ensures MergeLeft(parents, []) == DropInventories(parents)
  {
    if parents != [] {
      var n := |parents| - 1;
      MergeWithoutLines(parents[..n]);
    }
  }

  lemma {:induction false} NoLinesJoinedTotal(parents: seq<Row>)
    requires LineTotal(parents) == 0
    ensures JoinedTotal(parents) == |parents|
  {
    if parents != [] {
      NoLinesJoinedTotal(parents[..|parents| - 1]);
    }
  }

  // ---- Projection, coercion, gap filling -------------------------------

  /** `merged.loc[:, merged.columns.intersection(columnstokeep)]`. */
  function Project(f: Frame): (g: Frame)
    ensures g.columns == f.columns * Whitelist && |g.rows| == |f.rows|
    ensures forall i, c :: 0 <= i < |g.rows| && c in g.columns ==> Get(g.rows[i], c) == Get(f.rows[i], c)
  {
    var keep := f.columns * Whitelist;
    Frame(keep, seq(|f.rows|, i requires 0 <= i < |f.rows| => map c | c in f.rows[i].Keys * keep :: f.rows[i][c]))
  }

  /** `pd.to_numeric(v, errors="coerce")` followed by `fillna(0)`. */
  function Coerce(v: Value): (r: Value)
    ensures r.Num?
    ensures v.Num? ==> r == v
  {
    match v
    case Num(_) => v
    case Str(s) => (match Text.ParseInt(s) case Some(n) => Num(n) case None => Num(0))
    case _ => Num(0)
  }

  /** Lines 252-253 for one column. */
  function CoerceColumn(rows: seq<Row>, column: string): (coerced: seq<Row>)
    ensures |coerced| == |rows|
    ensures forall i :: 0 <= i < |rows| ==> coerced[i] == rows[i][column := Coerce(Get(rows[i], column))]
  {
    seq(|rows|, i requires 0 <= i < |rows| => rows[i][column := Coerce(Get(rows[i], column))])
  }

  /** The loop of lines 251-253 over the first |columns| numeric columns. */
  function CoerceNumeric(f: Frame, columns: seq<string>): (g: Frame)
    ensures g.columns == f.columns && |g.rows| == |f.rows|
  {
    if columns == [] then f
    else
      var g := CoerceNumeric(f, columns[..|columns| - 1]);
      var c := columns[|columns| - 1];
      if c in g.columns then g.(rows := CoerceColumn(g.rows, c)) else g
  }

  /** `fillna(0)` on the whole frame. */
  function FillNa(f: Frame): (g: Frame)
    ensures g.columns == f.columns && |g.rows| == |f.rows|
    ensures forall i, c :: 0 <= i < |g.rows| && c in f.columns ==> c in g.rows[i] && g.rows[i][c] == FillCell(Get(f.rows[i], c))
  {
    Frame(f.columns, seq(|f.rows|, i requires 0 <= i < |f.rows| => map c | c in f.columns :: FillCell(Get(f.rows[i], c))))
  }

  /** Lines 240-256. */
  function Normalize(f: Frame): (g: Frame)
    ensures g.columns == f.columns * Whitelist && |g.rows| == |f.rows|
  {
    FillNa(CoerceNumeric(Project(f), NumericColumns))
  }

  /** The merged frame of lines 225-236, given the exploded lines. */
  function Merged(df: Frame, lines: seq<Row>): Frame
  {
    if lines != [] then Frame(df.columns - {Inventories} + KeysOf(lines), MergeLeft(df.rows, lines))
    else Frame(df.columns - {Inventories}, DropInventories(df.rows))
  }

  /** What `flatten_process_inventory_data` returns or raises. */
  function Flattened(df: Frame): Result<Frame>
  {
    if Inventories !in df.columns then Err(KeyError({Inventories}))
    else
      var lines := Explode(df.rows);
      if lines != [] && UniqueId !in df.columns then Err(KeyError({UniqueId}))
      else
        var merged := Merged(df, lines);
        Ok(if Empty(merged) then merged else Normalize(merged))
  }

  /** `flatten_process_inventory_data`. */
  method FlattenProcess(df: Frame) returns (r: Result<Frame>)
    ensures r == Flattened(df)
  {
    if Inventories !in df.columns {
      // inventory_df["inventories"] raises
      return Err(KeyError({Inventories}));
    }
    var flattened := ExplodeInventories(df.rows);
    assert Flattened(df) == if flattened != [] && UniqueId !in df.columns then Err(KeyError({UniqueId}))
                            else Ok(if Empty(Merged(df, flattened)) then Merged(df, flattened) else Normalize(Merged(df, flattened)));
    var merged: Frame;
    if flattened != [] {
      if UniqueId !in df.columns {
        // the merge key is missing on the left
        return Err(KeyError({UniqueId}));
      }
      merged := Frame(df.columns - {Inventories} + KeysOf(flattened), MergeLeft(df.rows, flattened));
    } else {
      merged := Frame(df.columns - {Inventories}, DropInventories(df.rows));
    }
    assert merged == Merged(df, flattened);
    if !Empty(merged) {
      merged := CoerceNumericColumns(Project(merged));
      merged := FillNa(merged);
    }
    return Ok(merged);
  }

  /** The loop of lines 251-253: coerce each numeric column the frame has. */
  method CoerceNumericColumns(f: Frame) returns (g: Frame)
    ensures g == CoerceNumeric(f, NumericColumns)
  {
    g := f;
    for k := 0 to |NumericColumns|
      invariant g == CoerceNumeric(f, NumericColumns[..k])
    {
      var column := NumericColumns[k];
      assert NumericColumns[..k + 1][..k] == NumericColumns[..k];
      if column in g.columns {
        g := g.(rows := CoerceColumn(g.rows, column));
      }
    }
    assert NumericColumns[..|NumericColumns|] == NumericColumns;
  }

  // ---- Properties of the flattened frame --------------------------------

  lemma {:induction false} CoerceNumericCells(f: Frame, columns: seq<string>, i: nat, c: string)
    requires i < |f.rows|
    ensures CoerceNumeric(f, columns).columns == f.columns
    ensures |CoerceNumeric(f, columns).rows| == |f.rows|
    ensures c in f.columns ==>
              Get(CoerceNumeric(f, columns).rows[i], c)
              == (if c in columns then Coerce(Get(f.rows[i], c)) else Get(f.rows[i], c))
  {
    if columns != [] {
      var front := columns[..|columns| - 1];
      CoerceNumericCells(f, front, i, c);
      var g := CoerceNumeric(f, front);
      if c in g.columns && c in front && c == columns[|columns| - 1] {
        assert Coerce(Coerce(Get(f.rows[i], c))) == Coerce(Get(f.rows[i], c));
      }
    }
  }

  /**
    After normalising, the columns are the whitelisted ones present; every row
    has a cell in every column and none is missing; a threshold cell is the
    number its text or value spells, 0 when it spells none or is missing;
    every other cell is unchanged, or 0 where it was missing.
  */
  lemma NormalizeCells(f: Frame, i: nat, c: string)
    requires i < |f.rows|
    ensures var g := Normalize(f);
      && g.columns == f.columns * Whitelist
      && |g.rows| == |f.rows|
      && g.rows[i].Keys == g.columns
      && (c in g.columns ==> g.rows[i][c] != Missing)
      && (c in g.columns && c in NumericColumns ==> g.rows[i][c] == Coerce(Get(f.rows[i], c)))
      && (c in g.columns && c !in NumericColumns ==> g.rows[i][c] == FillCell(Get(f.rows[i], c)))
  {
    var p := Project(f);
    CoerceNumericCells(p, NumericColumns, i, c);
  }

  /** A text cell holding a number written out in decimal becomes that number. */
  lemma CoerceReadsDecimal(n: int)
    ensures Coerce(Str(Text.ShowInt(n))) == Num(n)
  {
    Text.ParseShowInt(n);
  }

  /** A text cell that is not a number, such as "N/A", becomes 0. */
  lemma CoerceNotANumber()
    ensures Coerce(Str("N/A")) == Num(0)
  {
  }

  /**
    With records numbered by position, the flattened frame has one row per
    inventory line plus one per record without lines.
  */
  lemma FlattenedRowCount(df: Frame)
    requires Inventories in df.columns && UniqueId in df.columns
    requires IdsArePositions(df.rows)
    ensures Flattened(df).Ok?
    ensures |Flattened(df).value.rows| == JoinedTotal(df.rows)
  {
    var lines := Explode(df.rows);
    var merged := Merged(df, lines);
    if lines != [] {
      MergeIsOwnLines(df.rows);
    } else {
      NoLinesJoinedTotal(df.rows);
    }
    if !Empty(merged) {
      var p := Project(merged);
      if |merged.rows| > 0 {
        CoerceNumericCells(p, NumericColumns, 0, "");
      }
    }
  }

  /** Whatever the flattener returns, a threshold column it keeps holds numbers only. */
  lemma FlattenedThresholds(df: Frame, i: nat, c: string)
    requires Flattened(df).Ok? && i < |Flattened(df).value.rows|
    requires c in NumericColumns && c in Flattened(df).value.columns
    ensures Get(Flattened(df).value.rows[i], c).Num?
  {
    var merged := Merged(df, Explode(df.rows));
    assert Flattened(df) == Ok(if Empty(merged) then merged else Normalize(merged));
    if !Empty(merged) {
      NormalizeCells(merged, i, c);
    }
  }
}
