/** The pandas DataFrame operations the parameter tables go through: column
    assignment (`df[key] = values`), broadcasting a scalar, `pd.concat` of two
    tables, and reading one row as a dict (`dict(df.iloc[i])`). The row index is
    always the default range index, so it is left implicit. */
module Tables {
  import opened Wrappers
  import opened Values

  /** A DataFrame: column labels and rows holding one cell per column. */
  datatype Table = Table(columns: seq<string>, rows: seq<seq<Value>>)

  /** `pd.DataFrame()`: no columns and no rows. */
  const Empty: Table := Table([], [])

  predicate Rectangular(t: Table)
  {
    forall i :: 0 <= i < |t.rows| ==> |t.rows[i]| == |t.columns|
  }

  predicate DistinctColumns(columns: seq<string>)
  {
    forall i, j :: 0 <= i < j < |columns| ==> columns[i] != columns[j]
  }

  predicate WellFormed(t: Table)
  {
    DistinctColumns(t.columns) && Rectangular(t)
  }

  /** The position of column `key`. */
  function Position(columns: seq<string>, key: string): (r: Option<nat>)
    ensures r.None? <==> key !in columns
    ensures r.Some? ==> r.value < |columns| && columns[r.value] == key
    ensures r.Some? ==> forall k :: 0 <= k < r.value ==> columns[k] != key
  {
    if columns == [] then None
    else if columns[0] == key then Some(0)
    else
      var r := Position(columns[1..], key);
      if r.None? then None else Some(r.value + 1)
  }

  /** The cell of row `i` in column `key`. */
  function Cell(t: Table, i: nat, key: string): Value
    requires Rectangular(t) && i < |t.rows| && key in t.columns
  {
    t.rows[i][Position(t.columns, key).value]
  }

  function NaNs(n: nat): (r: seq<Value>)
    ensures |r| == n && forall k :: 0 <= k < n ==> r[k] == NaN
  {
    seq(n, k => NaN)
  }

  /** `df[key] = values` with exactly one value per row: an existing column is
      overwritten where it stands, a new column goes last. */
  function SetColumn(t: Table, key: string, values: seq<Value>): (r: Table)
    requires Rectangular(t) && |values| == |t.rows|
    ensures |r.rows| == |t.rows| && Rectangular(r)
    ensures r.columns == if key in t.columns then t.columns else t.columns + [key]
  {
    match Position(t.columns, key)
    case Some(c) => Table(t.columns, seq(|t.rows|, i requires 0 <= i < |t.rows| => t.rows[i][c := values[i]]))
    case None => Table(t.columns + [key], seq(|t.rows|, i requires 0 <= i < |t.rows| => t.rows[i] + [values[i]]))
  }

  /** After `SetColumn`, column `key` holds `values` and every other cell is
      where it was. */
  lemma SetColumnCells(t: Table, key: string, values: seq<Value>)
    requires WellFormed(t) && |values| == |t.rows|
    ensures WellFormed(SetColumn(t, key, values))
    ensures forall i :: 0 <= i < |t.rows| ==> Cell(SetColumn(t, key, values), i, key) == values[i]
    ensures forall i, c :: 0 <= i < |t.rows| && c in t.columns && c != key ==>
              Cell(SetColumn(t, key, values), i, c) == Cell(t, i, c)
  {
    var r := SetColumn(t, key, values);
    if key !in t.columns {
      forall c | c in t.columns ensures Position(r.columns, c) == Position(t.columns, c) {
        PositionOfPrefix(t.columns, [key], c);
      }
      PositionOfNew(t.columns, key);
    }
  }

  lemma {:induction false} PositionOfPrefix(columns: seq<string>, more: seq<string>, c: string)
    requires c in columns
    ensures Position(columns + more, c) == Position(columns, c)
  {
    if columns[0] != c {
      assert (columns + more)[1..] == columns[1..] + more;
      PositionOfPrefix(columns[1..], more, c);
    }
  }

  lemma PositionOfNew(columns: seq<string>, key: string)
    requires key !in columns
    ensures Position(columns + [key], key) == Some(|columns|)
  {
    var r := Position(columns + [key], key);
    assert r.Some?;
    assert (columns + [key])[|columns|] == key;
  }

  /** pandas `df[key] = values` for a list of values. A table without rows takes
      its rows from a non-empty list (other columns filled with NaN); otherwise
      the list must have one value per row. */
  function Assign(t: Table, key: string, values: seq<Value>): (r: Result<Table>)
    requires Rectangular(t)
    ensures r.Err? <==> |t.rows| > 0 && |values| != |t.rows|
    ensures r.Err? ==> r.error == Error(ValueError, LengthOfValues(|values|, |t.rows|))
    ensures r.Ok? ==> |r.value.rows| == |values| && Rectangular(r.value)
  {
    if |t.rows| == 0 && |values| > 0 then
      Ok(SetColumn(Table(t.columns, seq(|values|, i => NaNs(|t.columns|))), key, values))
    else if |values| != |t.rows| then Err(Error(ValueError, LengthOfValues(|values|, |t.rows|)))
    else Ok(SetColumn(t, key, values))
  }

  lemma AssignWellFormed(t: Table, key: string, values: seq<Value>)
    requires WellFormed(t) && Assign(t, key, values).Ok?
    ensures WellFormed(Assign(t, key, values).value)
  {
    if |t.rows| == 0 && |values| > 0 {
      SetColumnCells(Table(t.columns, seq(|values|, i => NaNs(|t.columns|))), key, values);
    } else {
      SetColumnCells(t, key, values);
    }
  }

  /** pandas `df[key] = v` for a scalar: `v` in every row. */
  function Broadcast(t: Table, key: string, v: Value): (r: Table)
    requires Rectangular(t)
    ensures |r.rows| == |t.rows| && Rectangular(r)
  {
    SetColumn(t, key, seq(|t.rows|, i => v))
  }

  /** The columns of `b` that `a` lacks, in `b`'s order. */
  function NewColumns(a: seq<string>, b: seq<string>): (r: seq<string>)
    ensures forall c :: c in r <==> c in b && c !in a
    ensures DistinctColumns(r)
  {
    if b == [] then []
    else if b[|b| - 1] in a || b[|b| - 1] in NewColumns(a, b[..|b| - 1]) then NewColumns(a, b[..|b| - 1])
    else NewColumns(a, b[..|b| - 1]) + [b[|b| - 1]]
  }

  /** A row of `b` laid out over `columns`: its own cells where it has the column, NaN elsewhere. */
  function Reindex(bColumns: seq<string>, row: seq<Value>, columns: seq<string>): (r: seq<Value>)
    requires |row| == |bColumns|
    ensures |r| == |columns|
  {
    seq(|columns|, k requires 0 <= k < |columns| =>
      var p := Position(bColumns, columns[k]);
      if p.Some? then row[p.value] else NaN)
  }

  /** The rows of `a` widened with `extra` NaN cells. */
  function Widened(a: Table, extra: nat): (rows: seq<seq<Value>>)
    requires Rectangular(a)
    ensures |rows| == |a.rows|
    ensures forall i :: 0 <= i < |a.rows| ==> rows[i] == a.rows[i] + NaNs(extra) && |rows[i]| == |a.columns| + extra
  {
    seq(|a.rows|, i requires 0 <= i < |a.rows| => a.rows[i] + NaNs(extra))
  }

  /** The rows of `b` laid out over `columns`. */
  function Reindexed(b: Table, columns: seq<string>): (rows: seq<seq<Value>>)
    requires Rectangular(b)
    ensures |rows| == |b.rows|
    ensures forall j :: 0 <= j < |b.rows| ==> rows[j] == Reindex(b.columns, b.rows[j], columns)
  {
    seq(|b.rows|, j requires 0 <= j < |b.rows| => Reindex(b.columns, b.rows[j], columns))
  }

  /** `pd.concat([a, b], ignore_index=True)`: the columns of `a` followed by the
      new columns of `b`; the rows of `a`, then those of `b`, NaN where a row has
      no value for a column. */
  function Concat(a: Table, b: Table): (r: Table)
    requires Rectangular(a) && Rectangular(b)
    ensures |r.rows| == |a.rows| + |b.rows| && Rectangular(r)
    ensures forall c :: c in r.columns <==> c in a.columns || c in b.columns
    ensures DistinctColumns(a.columns) ==> WellFormed(r)
  {
    var columns := a.columns + NewColumns(a.columns, b.columns);
    var upper := Widened(a, |NewColumns(a.columns, b.columns)|);
    var lower := Reindexed(b, columns);
    assert forall i :: 0 <= i < |upper + lower| ==> |(upper + lower)[i]| == |columns| by {
      forall i | 0 <= i < |upper + lower| ensures |(upper + lower)[i]| == |columns| {
        if i < |upper| { assert (upper + lower)[i] == upper[i]; }
        else { assert (upper + lower)[i] == lower[i - |upper|]; }
      }
    }
    assert DistinctColumns(a.columns) ==> DistinctColumns(columns) by {
      var more := NewColumns(a.columns, b.columns);
      if DistinctColumns(a.columns) {
        forall i, j | 0 <= i < j < |columns| ensures columns[i] != columns[j] {
          if j >= |a.columns| && i < |a.columns| {
            assert columns[j] == more[j - |a.columns|] && columns[i] in a.columns;
          } else if i >= |a.columns| {
            assert columns[i] == more[i - |a.columns|] && columns[j] == more[j - |a.columns|];
          }
        }
      }
    }
    Table(columns, upper + lower)
  }

  /** Appending keeps the old rows' cells, and the new rows follow with their own cells. */
  lemma ConcatCells(a: Table, b: Table)
    requires WellFormed(a) && WellFormed(b)
    ensures forall i, c :: 0 <= i < |a.rows| && c in a.columns ==> Cell(Concat(a, b), i, c) == Cell(a, i, c)
    ensures forall j, c :: 0 <= j < |b.rows| && c in b.columns ==> Cell(Concat(a, b), |a.rows| + j, c) == Cell(b, j, c)
  {
    var r := Concat(a, b);
    var more := NewColumns(a.columns, b.columns);
    forall i, c | 0 <= i < |a.rows| && c in a.columns ensures Cell(r, i, c) == Cell(a, i, c) {
      PositionOfPrefix(a.columns, more, c);
      var p := Position(a.columns, c).value;
      assert r.rows[i] == a.rows[i] + NaNs(|more|);
      assert r.rows[i][p] == a.rows[i][p];
    }
    forall j, c | 0 <= j < |b.rows| && c in b.columns
      ensures Cell(r, |a.rows| + j, c) == Cell(b, j, c)
    {
      var k := Position(r.columns, c).value;
      assert r.rows[|a.rows| + j] == Reindex(b.columns, b.rows[j], r.columns);
      assert r.columns[k] == c;
    }
  }

  /** Concatenating onto an empty table (the `overwrite` case) gives the new table back. */
  lemma ConcatOntoEmpty(b: Table)
    requires WellFormed(b)
    ensures Concat(Empty, b) == b
  {
    var r := Concat(Empty, b);
    NewColumnsOfEmpty(b.columns);
    assert r.columns == b.columns;
    assert Widened(Empty, 0) == [];
    assert r.rows == Reindexed(b, b.columns);
    forall j | 0 <= j < |b.rows| ensures r.rows[j] == b.rows[j] {
      assert r.rows[j] == Reindex(b.columns, b.rows[j], b.columns);
      ReindexSelf(b.columns, b.rows[j]);
    }
  }

  lemma ReindexSelf(columns: seq<string>, row: seq<Value>)
    requires DistinctColumns(columns) && |row| == |columns|
    ensures Reindex(columns, row, columns) == row
  {
    forall k | 0 <= k < |columns| ensures Reindex(columns, row, columns)[k] == row[k] {
      DistinctPosition(columns, k);
    }
  }

  lemma {:induction false} NewColumnsOfEmpty(b: seq<string>)
    requires DistinctColumns(b)
    ensures NewColumns([], b) == b
  {
    if b != [] {
      var init := b[..|b| - 1];
      assert DistinctColumns(init);
      NewColumnsOfEmpty(init);
      assert b[|b| - 1] !in init;
      assert init + [b[|b| - 1]] == b;
    }
  }

  lemma DistinctPosition(columns: seq<string>, k: nat)
    requires DistinctColumns(columns) && k < |columns|
    ensures Position(columns, columns[k]) == Some(k)
  {
  }

  /** `dict(df.iloc[i])`: the row's cells keyed by column. */
  function RowDict(t: Table, i: nat): (d: Dict)
    requires Rectangular(t) && i < |t.rows|
    ensures Keys(d) == t.columns
    ensures forall k :: 0 <= k < |d| ==> d[k].1 == t.rows[i][k]
  {
    seq(|t.columns|, k requires 0 <= k < |t.columns| => (t.columns[k], t.rows[i][k]))
  }
}
