/** `unify_columns`: bring two tables onto one common column set that includes TAG. */
module Unifier {
  import opened Wrappers
  import opened Tables

  /**
   * Both tables reindexed onto the union of their columns plus TAG. Each keeps its
   * rows in order; a cell in a column the table had is unchanged and a cell in a
   * column it lacked is missing.
   */
  function UnifyColumns(a: Table, b: Table): (r: (Table, Table))
    ensures r.0.columns == r.1.columns == a.columns + b.columns + {Tag}
    ensures |r.0.rows| == |a.rows| && |r.1.rows| == |b.rows|
    ensures forall i, c {:trigger r.0.rows[i][c]} :: 0 <= i < |a.rows| && c in a.columns ==> r.0.rows[i][c] == a.rows[i][c]
    ensures forall i, c {:trigger r.0.rows[i][c]} :: 0 <= i < |a.rows| && c in r.0.columns - a.columns ==> r.0.rows[i][c] == None
    ensures forall i, c {:trigger r.1.rows[i][c]} :: 0 <= i < |b.rows| && c in b.columns ==> r.1.rows[i][c] == b.rows[i][c]
    ensures forall i, c {:trigger r.1.rows[i][c]} :: 0 <= i < |b.rows| && c in r.1.columns - b.columns ==> r.1.rows[i][c] == None
  {
    var allColumns := a.columns + b.columns + {Tag};
    (Reindex(a, allColumns), Reindex(b, allColumns))
  }

  /** Unification loses no information: each input is recovered by dropping the added columns. */
  lemma UnifyLossless(a: Table, b: Table)
    ensures Reindex(UnifyColumns(a, b).0, a.columns) == a
    ensures Reindex(UnifyColumns(a, b).1, b.columns) == b
  {
    ReindexRoundTrip(a, a.columns + b.columns + {Tag});
    ReindexRoundTrip(b, a.columns + b.columns + {Tag});
  }
}
