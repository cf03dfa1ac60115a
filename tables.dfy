/**
 * A pandas DataFrame reduced to what the pipeline uses: an ordered list of
 * column names and rows of string cells (a missing value reads as "", as
 * after `fillna("")`). `Table` is the value; `Frame` is the mutable object
 * that `df.columns = ...` and `df[col] = ...` update in place.
 */
module Tables {
  import opened Seqs

  type Row = seq<string>

  datatype Table = Table(columns: seq<string>, rows: seq<Row>) {

    /** Every row has one cell per column. */
    predicate WellFormed() {
      forall i :: 0 <= i < |rows| ==> |rows[i]| == |columns|
    }

    /** `df[name][i]`: the cell of row `i` under the first column called `name`. */
    function Cell(i: nat, name: string): string
      requires WellFormed() && i < |rows| && name in columns
    {
      rows[i][IndexOf(columns, name)]
    }

    /** `df[name] = values`: overwrites the column if present, else appends it. */
    function WithColumn(name: string, values: seq<string>): (t: Table)
      requires WellFormed() && |values| == |rows|
      ensures t.WellFormed() && |t.rows| == |rows| && name in t.columns
      ensures name in columns ==> t.columns == columns
      ensures name !in columns ==> t.columns == columns + [name]
    {
      if name in columns then
        var k := IndexOf(columns, name);
        Table(columns, seq(|rows|, i requires 0 <= i < |rows| => rows[i][k := values[i]]))
      else
        Table(columns + [name], seq(|rows|, i requires 0 <= i < |rows| => rows[i] + [values[i]]))
    }

    /** `df[name] = ""` when the column is absent; otherwise nothing changes. */
    function WithDefault(name: string): (t: Table)
      requires WellFormed()
      ensures t.WellFormed() && |t.rows| == |rows| && name in t.columns
    {
      if name in columns then this else WithColumn(name, Constant("", |rows|))
    }
  }

  /** Writing a column sets exactly that column and leaves every other cell alone. */
  lemma WithColumnCells(t: Table, name: string, values: seq<string>)
    requires t.WellFormed() && |values| == |t.rows|
    ensures var u := t.WithColumn(name, values);
      && (forall c :: c in t.columns ==> c in u.columns)
      && (name in t.columns ==> u.columns == t.columns)
      && (name !in t.columns ==> u.columns == t.columns + [name])
      && (forall i :: 0 <= i < |t.rows| ==> u.Cell(i, name) == values[i])
      && (forall i, c :: 0 <= i < |t.rows| && c in t.columns && c != name ==> u.Cell(i, c) == t.Cell(i, c))
  {
    var u := t.WithColumn(name, values);
    if name !in t.columns {
      forall c | c in t.columns ensures IndexOf(u.columns, c) == IndexOf(t.columns, c) {
        IndexOfPrefix(t.columns, [name], c);
      }
      assert IndexOf(u.columns, name) == |t.columns|;
    }
  }

  /** `df[name] = ""` for each absent name in turn (the back-fill loops of the source). */
  function BackFill(t: Table, names: seq<string>): (u: Table)
    requires t.WellFormed()
    ensures u.WellFormed() && |u.rows| == |t.rows|
  {
    if names == [] then t else BackFill(t, names[..|names| - 1]).WithDefault(names[|names| - 1])
  }

  /**
   * Back-filling keeps every column and every cell, adds each missing name
   * once at the end, and fills the added columns with "".
   */
  lemma {:induction false} BackFillKeeps(t: Table, names: seq<string>)
    requires t.WellFormed()
    ensures var u := BackFill(t, names);
      && |u.rows| == |t.rows|
      && |t.columns| <= |u.columns|
      && u.columns[..|t.columns|] == t.columns
      && (forall i :: 0 <= i < |t.rows| ==> u.rows[i][..|t.columns|] == t.rows[i])
      && (forall n :: n in names ==> n in u.columns)
      && (forall j :: |t.columns| <= j < |u.columns| ==> u.columns[j] in names && u.columns[j] !in t.columns)
      && (forall i, j :: 0 <= i < |u.rows| && |t.columns| <= j < |u.columns| ==> u.rows[i][j] == "")
  {
    if names != [] {
      var prev := BackFill(t, names[..|names| - 1]);
      BackFillKeeps(t, names[..|names| - 1]);
      var n := names[|names| - 1];
      var u := prev.WithDefault(n);
      forall i | 0 <= i < |t.rows| ensures u.rows[i][..|t.columns|] == t.rows[i] {
        assert u.rows[i][..|prev.columns|] == prev.rows[i];
        assert prev.rows[i][..|t.columns|] == t.rows[i];
      }
      forall m | m in names ensures m in u.columns {
        if m != n {
          assert m in names[..|names| - 1];
        }
      }
      forall j | |t.columns| <= j < |u.columns| ensures u.columns[j] in names && u.columns[j] !in t.columns {
        if j < |prev.columns| {
          assert u.columns[j] == prev.columns[j];
          assert prev.columns[j] in names[..|names| - 1];
        } else {
          assert u.columns[j] == n;
          assert n !in prev.columns;
          assert t.columns == prev.columns[..|t.columns|];
        }
      }
    }
  }

  /** Back-filling leaves the cells of the columns that were already there unchanged. */
  lemma {:induction false} BackFillCells(t: Table, names: seq<string>, c: string)
    requires t.WellFormed() && c in t.columns
    ensures c in BackFill(t, names).columns
    ensures forall i :: 0 <= i < |t.rows| ==> BackFill(t, names).Cell(i, c) == t.Cell(i, c)
  {
    if names != [] {
      var prev := BackFill(t, names[..|names| - 1]);
      BackFillCells(t, names[..|names| - 1], c);
      var n := names[|names| - 1];
      if n !in prev.columns {
        WithColumnCells(prev, n, Constant("", |prev.rows|));
      }
    }
  }

  /** A back-filled column that was absent holds "" in every row. */
  lemma BackFillAbsentCell(t: Table, names: seq<string>, c: string, i: nat)
    requires t.WellFormed() && c in names && c !in t.columns && i < |t.rows|
    ensures c in BackFill(t, names).columns && BackFill(t, names).Cell(i, c) == ""
  {
    var u := BackFill(t, names);
    BackFillKeeps(t, names);
    assert forall j :: 0 <= j < |t.columns| ==> u.columns[..|t.columns|][j] != c;
  }

  /** The mutable DataFrame the normalisation steps update in place. */
  class Frame {
    var columns: seq<string>
    var rows: seq<Row>

    function Value(): Table
      reads this
    {
      Table(columns, rows)
    }

    predicate Valid()
      reads this
    {
      Value().WellFormed()
    }

    constructor (t: Table)
      requires t.WellFormed()
      ensures Valid() && Value() == t
    {
      columns := t.columns;
      rows := t.rows;
    }

    /** `df.columns = names` (same number of columns, cells untouched). */
    method Rename(names: seq<string>)
      requires Valid() && |names| == |columns|
      modifies this
      ensures Valid() && Value() == Table(names, old(rows))
    {
      columns := names;
    }

    /** `df[name] = values`. */
    method SetColumn(name: string, values: seq<string>)
      requires Valid() && |values| == |rows|
      modifies this
      ensures Valid() && Value() == old(Value()).WithColumn(name, values)
    {
      var cur := rows;
      if name in columns {
        var k := IndexOf(columns, name);
        rows := seq(|cur|, i requires 0 <= i < |cur| => cur[i][k := values[i]]);
      } else {
        columns := columns + [name];
        rows := seq(|cur|, i requires 0 <= i < |cur| => cur[i] + [values[i]]);
      }
    }

    /** `for col in names: if col not in df.columns: df[col] = ""`. */
    method BackFillColumns(names: seq<string>)
      requires Valid()
      modifies this
      ensures Valid() && Value() == BackFill(old(Value()), names)
    {
      ghost var start := Value();
      for k := 0 to |names|
        invariant Valid() && Value() == BackFill(start, names[..k])
      {
        assert names[..k + 1][..k] == names[..k];
        if names[k] !in columns {
          SetColumn(names[k], Constant("", |rows|));
        }
      }
      assert names[..|names|] == names;
    }
  }

  /**
   * Adds the names of `cols` not yet in `acc` (the column union of
   * `pd.concat`): `acc` unchanged, followed by each missing name once, in
   * the order of its first occurrence in `cols`.
   */
  function AddNew(acc: seq<string>, cols: seq<string>): (r: seq<string>)
    ensures Extends(r, acc, cols)
    ensures forall c :: c in r <==> c in acc || c in cols
    ensures Distinct(acc) ==> Distinct(r)
    decreases |cols|
  {
    if cols == [] then acc
    else
      var next := if cols[0] in acc then acc else acc + [cols[0]];
      var r := AddNew(next, cols[1..]);
      AddNewStep(acc, cols, next, r);
      ExtendsDistinct(r, acc, cols);
      r
  }

  /** `r` extends `acc` with names of `cols` that `acc` lacks, in their order in `cols`. */
  predicate Extends(r: seq<string>, acc: seq<string>, cols: seq<string>) {
    && |acc| <= |r| && r[..|acc|] == acc
    && (forall i :: |acc| <= i < |r| ==> r[i] in cols && r[i] !in acc)
    && (forall i, j :: |acc| <= i < j < |r| ==> r[i] in cols && r[j] in cols && IndexOf(cols, r[i]) < IndexOf(cols, r[j]))
  }

  /** One step of `AddNew`: extending `next` by the rest of `cols` extends `acc` by all of it. */
  lemma AddNewStep(acc: seq<string>, cols: seq<string>, next: seq<string>, r: seq<string>)
    requires cols != [] && next == if cols[0] in acc then acc else acc + [cols[0]]
    requires Extends(r, next, cols[1..])
    ensures Extends(r, acc, cols)
  {
    assert r[..|acc|] == next[..|acc|];
    assert next[..|acc|] == acc;
    assert cols == [cols[0]] + cols[1..];
    forall i | |next| <= i < |r|
      ensures r[i] in cols && r[i] !in acc && r[i] != cols[0]
      ensures IndexOf(cols, r[i]) == 1 + IndexOf(cols[1..], r[i])
    {
      assert cols[0] in next;
    }
    if next != acc {
      assert r[|acc|] == next[|acc|] == cols[0];
    }
  }

  /** Names added in strictly increasing position are pairwise different. */
  lemma ExtendsDistinct(r: seq<string>, acc: seq<string>, cols: seq<string>)
    requires Extends(r, acc, cols)
    ensures Distinct(acc) ==> Distinct(r)
  {
    forall i, j | 0 <= i < j < |r| && Distinct(acc)
      ensures r[i] != r[j]
    {
      if j < |acc| {
        assert r[i] == acc[i] && r[j] == acc[j];
      } else if i < |acc| {
        assert r[i] == acc[i];
      }
    }
  }

  /**
   * The columns of `pd.concat`: every column of every table, each once, in
   * order of first appearance (the union so far, then the new columns of
   * the next table in that table's order).
   */
  function UnionColumns(tables: seq<Table>): (cols: seq<string>)
    ensures forall k, c :: 0 <= k < |tables| && c in tables[k].columns ==> c in cols
    ensures forall c :: c in cols ==> exists k :: 0 <= k < |tables| && c in tables[k].columns
    ensures Distinct(cols)
    ensures tables != [] ==> Extends(cols, UnionColumns(tables[..|tables| - 1]), tables[|tables| - 1].columns)
  {
    if tables == [] then []
    else
      var prev := UnionColumns(tables[..|tables| - 1]);
      var cols := AddNew(prev, tables[|tables| - 1].columns);
      UnionStep(tables, tables[..|tables| - 1], prev, cols);
      cols
  }

  /** Adding the last table's columns to the union of the others covers exactly all tables. */
  lemma UnionStep(tables: seq<Table>, init: seq<Table>, prev: seq<string>, cols: seq<string>)
    requires tables != [] && init == tables[..|tables| - 1]
    requires forall k, c :: 0 <= k < |init| && c in init[k].columns ==> c in prev
    requires forall c :: c in prev ==> exists k :: 0 <= k < |init| && c in init[k].columns
    requires forall c :: c in cols <==> c in prev || c in tables[|tables| - 1].columns
    ensures forall k, c :: 0 <= k < |tables| && c in tables[k].columns ==> c in cols
    ensures forall c :: c in cols ==> exists k :: 0 <= k < |tables| && c in tables[k].columns
  {
    forall k, c | 0 <= k < |tables| && c in tables[k].columns
      ensures c in cols
    {
      if k < |tables| - 1 {
        assert init[k] == tables[k];
      }
    }
    forall c | c in cols
      ensures exists k :: 0 <= k < |tables| && c in tables[k].columns
    {
      if c in prev {
        var k :| 0 <= k < |init| && c in init[k].columns;
        assert init[k] == tables[k];
      } else {
        assert c in tables[|tables| - 1].columns;
      }
    }
  }

  predicate AllWellFormed(tables: seq<Table>) {
    forall k :: 0 <= k < |tables| ==> tables[k].WellFormed()
  }

  /**
   * A cell of an in-memory DataFrame: a value, or pandas' missing marker
   * (NaN), which `pd.concat` puts under the columns a table lacks.
   */
  datatype RawCell = Present(text: string) | Missing

  /** `str(cell)` as `create_documents` applies it: NaN prints as "nan". */
  function StrAsWritten(c: RawCell): string {
    match c
    case Present(text) => text
    case Missing => "nan"
  }

  /**
   * The text a cell stands for, a missing one read as "" like every
   * back-filled cell; a present cell reads as `str()` renders it.
   */
  function CellText(c: RawCell): (s: string)
    ensures c.Present? ==> s == StrAsWritten(c)
  {
    match c
    case Present(text) => text
    case Missing => ""
  }

  /** The rows of `t` laid out under `cols`, with a missing cell where `t` lacks a column. */
  function Realign(t: Table, cols: seq<string>): (rows: seq<Row>)
    requires t.WellFormed()
    ensures |rows| == |t.rows|
    ensures forall i :: 0 <= i < |rows| ==> |rows[i]| == |cols|
  {
    seq(|t.rows|, i requires 0 <= i < |t.rows| =>
      seq(|cols|, j requires 0 <= j < |cols| => if cols[j] in t.columns then t.Cell(i, cols[j]) else CellText(Missing)))
  }

  function TotalRows(tables: seq<Table>): nat {
    if tables == [] then 0 else TotalRows(tables[..|tables| - 1]) + |tables[|tables| - 1].rows|
  }

  function ConcatRows(tables: seq<Table>, cols: seq<string>): (rows: seq<Row>)
    requires AllWellFormed(tables)
  {
    if tables == [] then []
    else ConcatRows(tables[..|tables| - 1], cols) + Realign(tables[|tables| - 1], cols)
  }

  /** `pd.concat(tables, ignore_index=True, sort=False)`. */
  function Concat(tables: seq<Table>): (t: Table)
    requires AllWellFormed(tables)
    ensures t.WellFormed() && |t.rows| == TotalRows(tables)
    ensures t.columns == UnionColumns(tables)
    ensures forall k, c :: 0 <= k < |tables| && c in tables[k].columns ==> c in t.columns
    ensures forall c :: c in t.columns ==> exists k :: 0 <= k < |tables| && c in tables[k].columns
    ensures Distinct(t.columns)
  {
    var cols := UnionColumns(tables);
    ConcatRowsShape(tables, cols);
    Table(cols, ConcatRows(tables, cols))
  }

  lemma {:induction false} ConcatRowsShape(tables: seq<Table>, cols: seq<string>)
    requires AllWellFormed(tables)
    ensures |ConcatRows(tables, cols)| == TotalRows(tables)
    ensures forall r :: 0 <= r < |ConcatRows(tables, cols)| ==> |ConcatRows(tables, cols)[r]| == |cols|
  {
    if tables != [] {
      ConcatRowsShape(tables[..|tables| - 1], cols);
    }
  }

  /**
   * Concatenation drops no row and reorders none: row `i` of input `k` sits
   * at `TotalRows(tables[..k]) + i` with the same cell under each of its
   * columns, and a missing cell under each column it lacks.
   */
  lemma {:induction false} ConcatCell(tables: seq<Table>, cols: seq<string>, k: nat, i: nat, j: nat)
    requires AllWellFormed(tables)
    requires k < |tables| && i < |tables[k].rows| && j < |cols|
    ensures TotalRows(tables[..k]) + i < |ConcatRows(tables, cols)|
    ensures |ConcatRows(tables, cols)[TotalRows(tables[..k]) + i]| == |cols|
    ensures cols[j] in tables[k].columns ==>
      ConcatRows(tables, cols)[TotalRows(tables[..k]) + i][j] == tables[k].Cell(i, cols[j])
    ensures cols[j] !in tables[k].columns ==>
      ConcatRows(tables, cols)[TotalRows(tables[..k]) + i][j] == CellText(Missing)
  {
    var init := tables[..|tables| - 1];
    var last := tables[|tables| - 1];
    var prefix := ConcatRows(init, cols);
    ConcatRowsShape(init, cols);
    ConcatRowsShape(tables, cols);
    assert ConcatRows(tables, cols) == prefix + Realign(last, cols);
    if k < |tables| - 1 {
      assert tables[..k] == init[..k];
      assert tables[k] == init[k];
      TotalRowsPrefix(init, k);
      ConcatCell(init, cols, k, i, j);
    } else {
      assert tables[..k] == init;
    }
  }

  lemma {:induction false} TotalRowsPrefix(tables: seq<Table>, k: nat)
    requires k < |tables|
    ensures TotalRows(tables[..k]) + |tables[k].rows| <= TotalRows(tables)
  {
    if k < |tables| - 1 {
      assert tables[..|tables| - 1][..k] == tables[..k];
      TotalRowsPrefix(tables[..|tables| - 1], k);
    } else {
      assert tables[..k] == tables[..|tables| - 1];
    }
  }
}
