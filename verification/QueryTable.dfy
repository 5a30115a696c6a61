/** The append-only `query_metric_snapshots` table and what a batch insert does to it. */
module QueryTable {
  import opened Wrappers
  import opened Models

  datatype PointKey = PointKey(capturedAt: int, dbIdentifier: string, key: RowKey)

  function PointKeyOf(row: QueryRow): PointKey {
    PointKey(row.capturedAt, row.dbIdentifier, row.metric.key)
  }

  /** The unique constraint on capture time, identifier and statement key. */
  predicate UniquePoints(rows: seq<QueryRow>) {
    forall i, j :: 0 <= i < j < |rows| ==> PointKeyOf(rows[i]) != PointKeyOf(rows[j])
  }

  function QueryRowsOf(s: QuerySnapshot): (rows: seq<QueryRow>)
    ensures |rows| == |s.statements|
  {
    seq(|s.statements|, i requires 0 <= i < |s.statements| => QueryRow(s.capturedAt, s.dbIdentifier, s.statements[i]))
  }

  /** A clash with a stored row or within the batch refuses the whole batch. */
  function InsertQueryRows(table: seq<QueryRow>, rows: seq<QueryRow>): Option<seq<QueryRow>> {
    if rows == [] then Some(table)
    else if UniquePoints(table + rows) then Some(table + rows) else None
  }

  function LogRows(log: seq<QuerySnapshot>): seq<QueryRow> {
    if log == [] then [] else LogRows(log[..|log| - 1]) + QueryRowsOf(log[|log| - 1])
  }

  /** Two rows for one statement of one identifier at one time. */
  predicate Clash(a: QueryRow, b: QueryRow) {
    && a.capturedAt == b.capturedAt && a.dbIdentifier == b.dbIdentifier
    && a.metric.key.queryid == b.metric.key.queryid && a.metric.key.dbid == b.metric.key.dbid
    && a.metric.key.userid == b.metric.key.userid
  }

  predicate Clashes(rows: seq<QueryRow>) {
    exists i, j :: 0 <= i < j < |rows| && Clash(rows[i], rows[j])
  }

  lemma {:induction false} UniqueMeansNoClash(rows: seq<QueryRow>)
    ensures UniquePoints(rows) <==> !Clashes(rows)
  {
    forall i, j | 0 <= i < j < |rows| ensures PointKeyOf(rows[i]) == PointKeyOf(rows[j]) <==> Clash(rows[i], rows[j]) {
    }
  }

  /** Batches in order of arrival, those that clash with what is in already refused whole. */
  function Accepted(batches: seq<QuerySnapshot>): seq<QuerySnapshot> {
    if batches == [] then [] else
      var n := |batches| - 1;
      var before := Accepted(batches[..n]);
      if Clashes(LogRows(before) + QueryRowsOf(batches[n])) then before else before + [batches[n]]
  }
}
