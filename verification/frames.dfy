/** A one-row data frame as a map from column name to value, and its
    reindexing on a fixed list of columns. */
module Frames {

  type Row = map<string, real>

  /** The row reindexed on `columns`: their order, 0 for any column the row
      lacks, extra keys discarded. */
  function Reindex(row: Row, columns: seq<string>): (v: seq<real>)
    ensures |v| == |columns|
    ensures forall i :: 0 <= i < |columns| ==> v[i] == (if columns[i] in row then row[columns[i]] else 0.0)
  {
    seq(|columns|, i requires 0 <= i < |columns| => if columns[i] in row then row[columns[i]] else 0.0)
  }

  /** Keys outside the column list never reach the reindexed vector. */
  lemma ExtraKeysDiscarded(row: Row, columns: seq<string>, key: string, x: real)
    requires key !in columns
    ensures Reindex(row[key := x], columns) == Reindex(row, columns)
  {
    forall i | 0 <= i < |columns|
      ensures Reindex(row[key := x], columns)[i] == Reindex(row, columns)[i]
    {
      assert columns[i] != key;
    }
  }
}
