/** The merge of the day's tables into the month's table, projected onto the output schema. */
module Merger {
  import opened Wrappers
  import opened Tables
  import opened Unifier

  /** The eleven output columns, in the order they are written. */
  const FixedColumns: seq<string> := [
    "Loja (ID)",
    "Loja (Nome)",
    "Cliente (ID)",
    "Cliente (Nome)",
    "Cliente (Telefone)",
    "Data da Venda",
    "Valor",
    "Recorrências",
    "Pontos",
    "Atendente",
    "TAG"
  ]

  lemma FixedColumnsDistinct()
    ensures |FixedColumns| == 11 && Distinct(FixedColumns) && FixedColumns[10] == Tag
  {
  }

  /**
   * Concatenate the incoming tables, unify with the existing table, append the new
   * rows after the existing ones and project onto the fixed output columns.
   * Only reached with at least one incoming table.
   */
  function Merge(existing: Table, incoming: seq<Table>): (s: Sheet)
    requires |incoming| > 0
    ensures s.header == FixedColumns && SheetValid(s)
    ensures |s.rows| == |existing.rows| + TotalRows(incoming)
  {
    FixedColumnsDistinct();
    var (existente, novos) := UnifyColumns(existing, ConcatAll(incoming));
    var final := ConcatAll([existente, novos]);
    ConcatPair(existente, novos);
    Project(final, FixedColumns)
  }

  /**
   * Proof device: the merged rows before projection (the unified existing rows,
   * then the unified new rows) written directly. `MergeUnfold` shows that `Merge`,
   * built from `UnifyColumns` and `ConcatAll`, projects exactly this table.
   */
  function Unified(existing: Table, novos: Table): Table {
    var cols := existing.columns + novos.columns + {Tag};
    Frame(cols, Reindex(existing, cols).rows + Reindex(novos, cols).rows)
  }

  lemma MergeUnfold(existing: Table, incoming: seq<Table>)
    requires |incoming| > 0
    ensures Merge(existing, incoming) == Project(Unified(existing, ConcatAll(incoming)), FixedColumns)
  {
    var (e2, n2) := UnifyColumns(existing, ConcatAll(incoming));
    ConcatPair(e2, n2);
  }

  /** Before projection, the existing rows come first with their own cells. */
  lemma UnifiedExistingAt(existing: Table, novos: Table, j: nat, c: string)
    requires j < |existing.rows|
    ensures At(Unified(existing, novos), j, c) == At(existing, j, c)
  {
    var u := Unified(existing, novos);
    var r := Reindex(existing, u.columns);
    assert u.rows[j] == r.rows[j];
    if c !in u.columns {
      assert c !in existing.columns;
    }
  }

  /** Before projection, the new rows follow the existing ones with their own cells. */
  lemma UnifiedNewAt(existing: Table, novos: Table, p: nat, c: string)
    requires p < |novos.rows|
    ensures At(Unified(existing, novos), |existing.rows| + p, c) == At(novos, p, c)
  {
    var u := Unified(existing, novos);
    var r := Reindex(novos, u.columns);
    assert u.rows[|existing.rows| + p] == r.rows[p];
    if c !in u.columns {
      assert c !in novos.columns;
    }
  }

  /** The existing rows come first, unchanged in every output column. */
  lemma MergeKeepsExisting(existing: Table, incoming: seq<Table>, i: nat, c: string)
    requires |incoming| > 0 && i < |existing.rows| && c in FixedColumns
    ensures Merge(existing, incoming).rows[i][c] == At(existing, i, c)
  {
    MergeUnfold(existing, incoming);
    UnifiedExistingAt(existing, ConcatAll(incoming), i, c);
    assert c in Elements(FixedColumns);
  }

  /**
   * Row `i` of the `k`-th incoming table follows the existing rows and the rows of
   * the incoming tables before it, unchanged in every output column it had and
   * missing in the others.
   */
  lemma MergeAppendsIncoming(existing: Table, incoming: seq<Table>, k: nat, i: nat, c: string)
    requires k < |incoming| && i < |incoming[k].rows| && c in FixedColumns
    ensures Merge(existing, incoming).rows[|existing.rows| + Offset(incoming, k) + i][c] == At(incoming[k], i, c)
  {
    MergeUnfold(existing, incoming);
    UnifiedIncomingAt(existing, incoming, k, i, c);
    assert c in Elements(FixedColumns);
  }

  /** `UnifiedNewAt` for the concatenation of the incoming tables. */
  lemma UnifiedIncomingAt(existing: Table, incoming: seq<Table>, k: nat, i: nat, c: string)
    requires k < |incoming| && i < |incoming[k].rows|
    ensures |existing.rows| + Offset(incoming, k) + i < |Unified(existing, ConcatAll(incoming)).rows|
    ensures At(Unified(existing, ConcatAll(incoming)), |existing.rows| + Offset(incoming, k) + i, c) == At(incoming[k], i, c)
  {
    var novos := ConcatAll(incoming);
    var p := Offset(incoming, k) + i;
    ConcatAllAt(incoming, k, i);
    assert At(novos, p, c) == At(incoming[k], i, c);
    UnifiedNewAt(existing, novos, p, c);
  }

  /**
   * Append without loss or deduplication: the existing rows come first, unchanged
   * in every output column, followed by the rows of each incoming table in list
   * order; a cell of an output column the row's table lacked is missing.
   */
  lemma MergeAppends(existing: Table, incoming: seq<Table>)
    requires |incoming| > 0
    ensures forall i, c :: 0 <= i < |existing.rows| && c in FixedColumns ==>
              Merge(existing, incoming).rows[i][c] == At(existing, i, c)
    ensures forall k, i, c :: 0 <= k < |incoming| && 0 <= i < |incoming[k].rows| && c in FixedColumns ==>
              Merge(existing, incoming).rows[|existing.rows| + Offset(incoming, k) + i][c] == At(incoming[k], i, c)
  {
    forall i, c | 0 <= i < |existing.rows| && c in FixedColumns {
      MergeKeepsExisting(existing, incoming, i, c);
    }
    forall k, i, c | 0 <= k < |incoming| && 0 <= i < |incoming[k].rows| && c in FixedColumns
      ensures Merge(existing, incoming).rows[|existing.rows| + Offset(incoming, k) + i][c] == At(incoming[k], i, c)
    {
      MergeAppendsIncoming(existing, incoming, k, i, c);
    }

  }

  /** Merged row `j` is row `i` of the `k`-th incoming table. */
  predicate FromIncoming(existing: Table, incoming: seq<Table>, j: nat, k: nat, i: nat) {
    j >= |existing.rows| && PlacedAt(incoming, j - |existing.rows|, k, i)
  }

  /**
   * Every row of the merged sheet is accounted for: it is an existing row, or
   * row `i` of some incoming table `k` at the place `MergeAppendsIncoming` gives.
   */
  lemma MergeRowOrigin(existing: Table, incoming: seq<Table>, j: nat)
    requires |incoming| > 0 && j < |Merge(existing, incoming).rows|
    ensures j < |existing.rows| || exists k: nat, i: nat :: FromIncoming(existing, incoming, j, k, i)
  {
    if j >= |existing.rows| {
      OffsetCovers(incoming, j - |existing.rows|);
      var k: nat, i: nat :| PlacedAt(incoming, j - |existing.rows|, k, i);
      assert FromIncoming(existing, incoming, j, k, i);
    }
  }

  /**
   * Two months of differing schemas: an existing table with columns Valor and TAG
   * and two rows, and one incoming table with Pontos and TAG and three rows, merge
   * into five rows; Valor is missing in the new rows and Pontos in the old ones.
   */
  lemma MergeDifferingSchemas(existing: Table, incoming: Table)
    requires existing.columns == {"Valor", Tag} && |existing.rows| == 2
    requires incoming.columns == {"Pontos", Tag} && |incoming.rows| == 3
    ensures |Merge(existing, [incoming]).rows| == 5
    ensures forall i :: 2 <= i < 5 ==> Merge(existing, [incoming]).rows[i]["Valor"] == None
    ensures forall i :: 0 <= i < 2 ==> Merge(existing, [incoming]).rows[i]["Pontos"] == None
    ensures forall i :: 0 <= i < 2 ==> Merge(existing, [incoming]).rows[i]["Valor"] == existing.rows[i]["Valor"]
    ensures forall i :: 2 <= i < 5 ==> Merge(existing, [incoming]).rows[i]["Pontos"] == incoming.rows[i - 2]["Pontos"]
  {
    var s := Merge(existing, [incoming]);
    forall i | 0 <= i < 2
      ensures s.rows[i]["Pontos"] == None && s.rows[i]["Valor"] == existing.rows[i]["Valor"]
    {
      DifferingSchemasOldRow(existing, incoming, i);
    }
    forall i | 2 <= i < 5
      ensures s.rows[i]["Valor"] == None && s.rows[i]["Pontos"] == incoming.rows[i - 2]["Pontos"]
    {
      DifferingSchemasNewRow(existing, [incoming], i);
    }
    assert TotalRows([incoming]) == 3 by {
      assert [incoming][1..] == [];
    }
  }

  /** An existing row of `MergeDifferingSchemas`: Valor kept, Pontos missing. */
  lemma DifferingSchemasOldRow(existing: Table, incoming: Table, i: nat)
    requires existing.columns == {"Valor", Tag} && i < |existing.rows|
    requires "Valor" !in incoming.columns
    ensures Merge(existing, [incoming]).rows[i]["Pontos"] == None
    ensures Merge(existing, [incoming]).rows[i]["Valor"] == existing.rows[i]["Valor"]
  {
    assert FixedColumns[6] == "Valor" && FixedColumns[8] == "Pontos";
    MergeKeepsExisting(existing, [incoming], i, "Pontos");
    MergeKeepsExisting(existing, [incoming], i, "Valor");
  }

  /** A new row of `MergeDifferingSchemas`: Pontos carried over, Valor missing. */
  lemma DifferingSchemasNewRow(existing: Table, incoming: seq<Table>, i: nat)
    requires |incoming| == 1 && "Pontos" in incoming[0].columns && "Valor" !in incoming[0].columns
    requires |existing.rows| <= i < |existing.rows| + |incoming[0].rows|
    ensures i < |Merge(existing, incoming).rows|
    ensures Merge(existing, incoming).rows[i]["Valor"] == None
    ensures Merge(existing, incoming).rows[i]["Pontos"] == incoming[0].rows[i - |existing.rows|]["Pontos"]
  {
    OffsetLast(incoming);
    FirstTableIndex(existing, incoming, i);
    assert FixedColumns[6] == "Valor" && FixedColumns[8] == "Pontos";
    MergeAppendsIncoming(existing, incoming, 0, i - |existing.rows|, "Valor");
    MergeAppendsIncoming(existing, incoming, 0, i - |existing.rows|, "Pontos");
  }

  /** Row `i` of the merged sheet, past the existing rows, lies in the first incoming table. */
  lemma FirstTableIndex(existing: Table, incoming: seq<Table>, i: nat)
    requires |incoming| > 0 && |existing.rows| <= i
    ensures |existing.rows| + Offset(incoming, 0) + (i - |existing.rows|) == i
  {
    OffsetFirst(incoming);
  }
}
