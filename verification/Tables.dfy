/**
 * Tabular records as the merge core sees pandas data frames: a set of column
 * names and a sequence of rows, each row mapping every column to a cell.
 * A cell is `None` for the missing marker (NaN) or `Some(v)` for a value.
 */
module Tables {
  import opened Wrappers

  /** The scalar values a spreadsheet cell can hold (dtype coercion is not modelled). */
  datatype Value = Text(text: string) | Number(n: int)

  type Cell = Option<Value>
  type Row = map<string, Cell>

  /** The column that is always present after unification. */
  const Tag: string := "TAG"

  datatype Frame = Frame(columns: set<string>, rows: seq<Row>)

  /** Every row has exactly the frame's columns: no cell is absent, none is extra. */
  predicate Rectangular(f: Frame) {
    forall i :: 0 <= i < |f.rows| ==> f.rows[i].Keys == f.columns
  }

  /** A data frame: column names are unique (a set) and every row covers them. */
  type Table = f: Frame | Rectangular(f) witness Frame({}, [])

  /** The cell of row `i` in column `c`, reading a column the table lacks as missing. */
  function At(t: Table, i: nat, c: string): Cell
    requires i < |t.rows|
  {
    if c in t.columns then t.rows[i][c] else None
  }

  function ReindexRow(r: Row, cols: set<string>): Row {
    map c | c in cols :: if c in r then r[c] else None
  }

  /**
   * `DataFrame.reindex(columns=cols)`: the rows keep their count and order; a
   * column in `cols` the table had keeps its cells, a column it lacked is all
   * missing, and a column outside `cols` is dropped.
   */
  function Reindex(t: Table, cols: set<string>): (r: Table)
    ensures r.columns == cols && |r.rows| == |t.rows|
    ensures forall i, c {:trigger r.rows[i][c]} :: 0 <= i < |t.rows| && c in cols ==> r.rows[i][c] == At(t, i, c)
  {
    Frame(cols, seq(|t.rows|, i requires 0 <= i < |t.rows| => ReindexRow(t.rows[i], cols)))
  }

  /** Reindexing onto the columns a table already has changes nothing. */
  lemma ReindexIdentity(t: Table)
    ensures Reindex(t, t.columns) == t
  {
    var r := Reindex(t, t.columns);
    forall i | 0 <= i < |t.rows|
      ensures r.rows[i] == t.rows[i]
    {
      assert r.rows[i].Keys == t.rows[i].Keys;
    }
  }

  /**
   * Widening a table's columns loses nothing: reindexing back onto the
   * original columns gives the original table.
   */
  lemma ReindexRoundTrip(t: Table, cols: set<string>)
    requires t.columns <= cols
    ensures Reindex(Reindex(t, cols), t.columns) == t
  {
    var w := Reindex(t, cols);
    var r := Reindex(w, t.columns);
    forall i | 0 <= i < |t.rows|
      ensures r.rows[i] == t.rows[i]
    {
      assert r.rows[i].Keys == t.rows[i].Keys;
      forall c | c in t.columns
        ensures r.rows[i][c] == t.rows[i][c]
      {
        assert r.rows[i][c] == At(w, i, c) == w.rows[i][c] == At(t, i, c);
      }
    }
  }

  /** Total number of rows in a list of tables. */
  function TotalRows(ts: seq<Table>): nat {
    if ts == [] then 0 else |ts[0].rows| + TotalRows(ts[1..])
  }

  lemma {:induction false} TotalRowsAppend(a: seq<Table>, b: seq<Table>)
    ensures TotalRows(a + b) == TotalRows(a) + TotalRows(b)
  {
    if a != [] {
      assert (a + b)[1..] == a[1..] + b;
      TotalRowsAppend(a[1..], b);
    } else {
      assert a + b == b;
    }
  }

  /** Position of the first row of the `k`-th table when the tables are stacked. */
  function Offset(ts: seq<Table>, k: nat): (o: nat)
    requires k < |ts|
    ensures o + |ts[k].rows| <= TotalRows(ts)
  {
    TotalRowsAppend(ts[..k], ts[k..]);
    assert ts == ts[..k] + ts[k..];
    assert ts[k..][0] == ts[k];
    TotalRows(ts[..k])
  }

  /** The first table starts at row 0. */
  lemma OffsetFirst(ts: seq<Table>)
    requires |ts| > 0
    ensures Offset(ts, 0) == 0
  {
    assert ts[..0] == [];
  }

  /**
   * The tables' row ranges are consecutive: the `k+1`-th table starts where the
   * `k`-th ends, so stacking maps the rows one-to-one onto the positions.
   */
  lemma OffsetNext(ts: seq<Table>, k: nat)
    requires k + 1 < |ts|
    ensures Offset(ts, k + 1) == Offset(ts, k) + |ts[k].rows|
  {
    assert ts[..k + 1] == ts[..k] + [ts[k]];
    TotalRowsAppend(ts[..k], [ts[k]]);
    assert [ts[k]][1..] == [];
  }

  /** The last table ends at the total row count: no position is left after it. */
  lemma OffsetLast(ts: seq<Table>)
    requires |ts| > 0
    ensures Offset(ts, |ts| - 1) + |ts[|ts| - 1].rows| == TotalRows(ts)
  {
    var n := |ts| - 1;
    assert ts == ts[..n] + [ts[n]];
    TotalRowsAppend(ts[..n], [ts[n]]);
    assert [ts[n]][1..] == [];
  }

  /** Position `p` of the stacked rows is row `i` of the `k`-th table. */
  predicate PlacedAt(ts: seq<Table>, p: nat, k: nat, i: nat) {
    k < |ts| && i < |ts[k].rows| && p == Offset(ts, k) + i
  }

  /** Every position below the total row count belongs to row `i` of some table `k`. */
  lemma {:induction false} OffsetCovers(ts: seq<Table>, p: nat)
    requires p < TotalRows(ts)
    ensures exists k: nat, i: nat :: PlacedAt(ts, p, k, i)
  {
    if p < |ts[0].rows| {
      OffsetFirst(ts);
      assert PlacedAt(ts, p, 0, p);
    } else {
      var rest := ts[1..];
      OffsetCovers(rest, p - |ts[0].rows|);
      var k: nat, i: nat :| PlacedAt(rest, p - |ts[0].rows|, k, i);
      assert ts[..k + 1][1..] == rest[..k];
      assert ts[..k + 1][0] == ts[0];
      assert Offset(ts, k + 1) == |ts[0].rows| + Offset(rest, k);
      assert ts[k + 1] == rest[k];
      assert PlacedAt(ts, p, k + 1, i);
    }
  }

  /** The outer union of the column sets of a list of tables: every table's columns are in it. */
  function ColumnsOf(ts: seq<Table>): (cols: set<string>)
    ensures forall k :: 0 <= k < |ts| ==> ts[k].columns <= cols
  {
    if ts == [] then {}
    else
      var rest := ColumnsOf(ts[1..]);
      assert forall k :: 1 <= k < |ts| ==> ts[k] == ts[1..][k - 1];
      ts[0].columns + rest
  }

  /** The union holds no other column: each comes from some table of the list. */
  lemma {:induction false} ColumnsOfExact(ts: seq<Table>, c: string)
    requires c in ColumnsOf(ts)
    ensures exists k :: 0 <= k < |ts| && c in ts[k].columns
  {
    if c !in ts[0].columns {
      ColumnsOfExact(ts[1..], c);
      var k :| 0 <= k < |ts[1..]| && c in ts[1..][k].columns;
      assert ts[k + 1] == ts[1..][k];
    }
  }

  /** The rows of `ts`, each table reindexed onto `cols`, one table after another. */
  function Stack(ts: seq<Table>, cols: set<string>): (rows: seq<Row>)
    ensures |rows| == TotalRows(ts)
    ensures forall j :: 0 <= j < |rows| ==> rows[j].Keys == cols
  {
    if ts == [] then [] else Reindex(ts[0], cols).rows + Stack(ts[1..], cols)
  }

  /**
   * `pd.concat(ts, ignore_index=True)`: an outer union of the columns, the rows of
   * each table in list order, missing cells filled with the missing marker.
   * pandas refuses an empty list.
   */
  function ConcatAll(ts: seq<Table>): (r: Table)
    requires |ts| > 0
    ensures r.columns == ColumnsOf(ts)
    ensures |r.rows| == TotalRows(ts)
  {
    Frame(ColumnsOf(ts), Stack(ts, ColumnsOf(ts)))
  }

  lemma {:induction false} StackAt(ts: seq<Table>, cols: set<string>, k: nat, i: nat)
    requires k < |ts| && i < |ts[k].rows|
    ensures Stack(ts, cols)[Offset(ts, k) + i] == Reindex(ts[k], cols).rows[i]
  {
    if k == 0 {
      assert ts[..0] == [];
    } else {
      StackAt(ts[1..], cols, k - 1, i);
      assert ts[..k][1..] == ts[1..][..k - 1];
      assert ts[..k][0] == ts[0];
    }
  }

  /**
   * Row `i` of the `k`-th table lands at position (rows of the tables before it) + i
   * of the concatenation, with its own cells and the missing marker in the
   * columns it lacked.
   */
  lemma ConcatAllAt(ts: seq<Table>, k: nat, i: nat)
    requires k < |ts| && i < |ts[k].rows|
    ensures forall c :: At(ConcatAll(ts), Offset(ts, k) + i, c) == At(ts[k], i, c)
  {
    StackAt(ts, ColumnsOf(ts), k, i);
    forall c | c !in ConcatAll(ts).columns
      ensures At(ts[k], i, c) == None
    {
      assert c !in ts[k].columns;
    }
  }

  /** Concatenating two tables that share their columns appends the rows. */
  lemma ConcatPair(a: Table, b: Table)
    requires a.columns == b.columns
    ensures ConcatAll([a, b]) == Frame(a.columns, a.rows + b.rows)
  {
    var ts := [a, b];
    assert ts[1..] == [b];
    assert ts[1..][1..] == [];
    assert ColumnsOf(ts[1..][1..]) == {};
    assert ColumnsOf(ts[1..]) == b.columns;
    assert ColumnsOf(ts) == a.columns;
    ReindexIdentity(a);
    ReindexIdentity(b);
    assert Stack(ts[1..], a.columns) == b.rows;
  }

  /** An ordered data frame, as written to the spreadsheet: a header and rows. */
  datatype Sheet = Sheet(header: seq<string>, rows: seq<Row>)

  predicate Distinct(s: seq<string>) {
    forall i, j :: 0 <= i < j < |s| ==> s[i] != s[j]
  }

  function Elements(s: seq<string>): set<string> {
    set c | c in s
  }

  /** Unique header names, and every row has exactly the header's columns. */
  predicate SheetValid(s: Sheet) {
    Distinct(s.header) && forall i :: 0 <= i < |s.rows| ==> s.rows[i].Keys == Elements(s.header)
  }

  /** The same sheet seen as an unordered table. */
  function AsTable(s: Sheet): (t: Table)
    requires SheetValid(s)
  {
    Frame(Elements(s.header), s.rows)
  }

  /**
   * `DataFrame.reindex(columns=header)` with an ordered list: the columns become
   * exactly `header` in that order, other columns are dropped, absent ones are
   * missing, and the rows keep their count, order and cells.
   */
  function Project(t: Table, header: seq<string>): (s: Sheet)
    ensures s.header == header && |s.rows| == |t.rows|
    ensures Distinct(header) ==> SheetValid(s)
    ensures forall i :: 0 <= i < |s.rows| ==> s.rows[i].Keys == Elements(header)
    ensures forall i, c {:trigger s.rows[i][c]} :: 0 <= i < |t.rows| && c in Elements(header) ==> s.rows[i][c] == At(t, i, c)
  {
    Sheet(header, Reindex(t, Elements(header)).rows)
  }

  /** Projecting a sheet onto its own header gives the sheet back. */
  lemma ProjectIdempotent(s: Sheet)
    requires SheetValid(s)
    ensures Project(AsTable(s), s.header) == s
  {
    ReindexIdentity(AsTable(s));
  }
}
