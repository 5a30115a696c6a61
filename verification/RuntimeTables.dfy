/** The four runtime tables and the SQL statements of one snapshot write, as functions on the tables. */
module RuntimeTables {
  import opened Wrappers
  import opened Models

  datatype Tables = Tables(
    snapshots: map<int, SnapshotRow>,
    databaseSnapshots: seq<DatabaseSnapshotRow>,
    current: map<string, CurrentRow>,
    databaseCurrent: map<DatabaseKey, DatabaseCurrentRow>)

  const EMPTY := Tables(map[], [], map[], map[])

  type DatabaseRows = map<DatabaseKey, DatabaseCurrentRow>

  // ----- Statements

  function SnapshotRowOf(s: RuntimeSnapshot): SnapshotRow {
    SnapshotRow(s.capturedAt, s.dbIdentifier, s.activity, s.locks)
  }

  function CurrentRowOf(s: RuntimeSnapshot): CurrentRow {
    CurrentRow(s.capturedAt, s.activity, s.locks)
  }

  function DatabaseSnapshotRowsOf(id: int, metrics: seq<DatabaseMetric>): (rows: seq<DatabaseSnapshotRow>)
    ensures |rows| == |metrics|
  {
    seq(|metrics|, i requires 0 <= i < |metrics| => DatabaseSnapshotRow(id, metrics[i]))
  }

  /** `ON CONFLICT DO UPDATE ... WHERE excluded.captured_at >= captured_at` on `runtime_current`. */
  predicate AcceptsCurrent(current: map<string, CurrentRow>, s: RuntimeSnapshot) {
    s.dbIdentifier in current ==> s.capturedAt >= current[s.dbIdentifier].capturedAt
  }

  function UpsertCurrent(current: map<string, CurrentRow>, s: RuntimeSnapshot): map<string, CurrentRow> {
    if AcceptsCurrent(current, s) then current[s.dbIdentifier := CurrentRowOf(s)] else current
  }

  predicate IsStale(current: map<string, CurrentRow>, s: RuntimeSnapshot) {
    s.dbIdentifier in current && current[s.dbIdentifier].capturedAt > s.capturedAt
  }

  function Names(metrics: seq<DatabaseMetric>): set<string> {
    set m | m in metrics :: m.datname
  }

  /** The rows `DELETE ... WHERE db_identifier = ... AND datname NOT IN (...)` removes. */
  function Departed(rows: DatabaseRows, s: RuntimeSnapshot): set<DatabaseKey> {
    set k | k in rows && k.dbIdentifier == s.dbIdentifier && k.datname !in Names(s.database)
  }

  /**
    The rows the multi-row upsert into `runtime_database_current` inserts or overwrites, in the order of
    the VALUES list. One command may not write the same row twice: PostgreSQL then fails the statement.
   */
  function Upserted(rows: DatabaseRows, s: RuntimeSnapshot, metrics: seq<DatabaseMetric>, done: DatabaseRows)
    : Option<DatabaseRows>
  {
    if metrics == [] then Some(done) else
      var key := DatabaseKey(s.dbIdentifier, metrics[0].datname);
      if key in done then None
      else if key in rows && !(s.capturedAt >= rows[key].capturedAt) then Upserted(rows, s, metrics[1..], done)
      else Upserted(rows, s, metrics[1..], done[key := DatabaseCurrentRow(s.capturedAt, metrics[0].stats)])
  }

  function InsertSnapshot(t: Tables, id: int, s: RuntimeSnapshot): Tables {
    t.(snapshots := t.snapshots[id := SnapshotRowOf(s)])
  }

  function InsertDatabaseSnapshots(t: Tables, id: int, s: RuntimeSnapshot): Tables {
    t.(databaseSnapshots := t.databaseSnapshots + DatabaseSnapshotRowsOf(id, s.database))
  }

  /** All statements of one write in order; None when the last upsert fails. */
  function ApplySnapshot(t: Tables, id: int, s: RuntimeSnapshot): Option<Tables> {
    var t1 := InsertSnapshot(t, id, s);
    var t2 := t1.(current := UpsertCurrent(t1.current, s));
    if IsStale(t2.current, s) then Some(InsertDatabaseSnapshots(t2, id, s)) else
      var kept := t2.databaseCurrent - Departed(t2.databaseCurrent, s);
      match Upserted(kept, s, s.database, map[])
      case None => None
      case Some(written) =>
        Some(InsertDatabaseSnapshots(t2.(databaseCurrent := kept + written), id, s))
  }

  // ----- The view the current tables are meant to be

  predicate DistinctNames(metrics: seq<DatabaseMetric>) {
    forall i, j :: 0 <= i < j < |metrics| ==> metrics[i].datname != metrics[j].datname
  }

  /** A snapshot's databases as rows of `runtime_database_current`. */
  function RowsOf(s: RuntimeSnapshot, metrics: seq<DatabaseMetric>): DatabaseRows {
    if metrics == [] then map[] else
      RowsOf(s, metrics[1..])[
        DatabaseKey(s.dbIdentifier, metrics[0].datname) := DatabaseCurrentRow(s.capturedAt, metrics[0].stats)]
  }

  function Slice(rows: DatabaseRows, d: string): DatabaseRows {
    map k | k in rows && k.dbIdentifier == d :: rows[k]
  }

  /** Index i holds the last-committed snapshot among those of `d` with the greatest capture time. */
  ghost predicate IsNewestAt(log: seq<RuntimeSnapshot>, d: string, i: int) {
    && 0 <= i < |log| && log[i].dbIdentifier == d
    && (forall j :: 0 <= j < |log| && log[j].dbIdentifier == d ==> log[j].capturedAt <= log[i].capturedAt)
    && (forall j :: i < j < |log| && log[j].dbIdentifier == d ==> log[j].capturedAt < log[i].capturedAt)
  }

  /** What the current tables say about `d`. */
  ghost predicate Shows(t: Tables, d: string, s: RuntimeSnapshot) {
    && d in t.current && t.current[d].capturedAt == s.capturedAt
    && t.current[d].activity == s.activity && t.current[d].locks == s.locks
    && Slice(t.databaseCurrent, d) == RowsOf(s, s.database)
    && DistinctNames(s.database)
  }

  ghost predicate ShowsNothing(t: Tables, d: string) {
    d !in t.current && Slice(t.databaseCurrent, d) == map[]
  }

  ghost predicate ViewAt(t: Tables, log: seq<RuntimeSnapshot>, d: string) {
    && (forall i :: IsNewestAt(log, d, i) ==> Shows(t, d, log[i]))
    && ((forall i :: 0 <= i < |log| ==> log[i].dbIdentifier != d) ==> ShowsNothing(t, d))
  }

  /** The current tables are the newest snapshot of every identifier in the log. */
  ghost predicate View(t: Tables, log: seq<RuntimeSnapshot>) {
    forall d :: ViewAt(t, log, d)
  }

  // ----- Rows of a snapshot

  lemma {:induction false} RowsOfKeys(s: RuntimeSnapshot, metrics: seq<DatabaseMetric>)
    ensures forall k :: k in RowsOf(s, metrics) <==> k.dbIdentifier == s.dbIdentifier && k.datname in Names(metrics)
    ensures forall k :: k in RowsOf(s, metrics) ==> RowsOf(s, metrics)[k].capturedAt == s.capturedAt
  {
    if metrics == [] {
    } else {
      RowsOfKeys(s, metrics[1..]);
      assert metrics == [metrics[0]] + metrics[1..];
      assert Names(metrics) == Names(metrics[1..]) + {metrics[0].datname};
    }
  }

  /** With distinct names, exactly the snapshot's databases appear, each with its own numbers. */
  lemma {:induction false} RowsOfExact(s: RuntimeSnapshot, metrics: seq<DatabaseMetric>, i: int)
    requires DistinctNames(metrics) && 0 <= i < |metrics|
    ensures var k := DatabaseKey(s.dbIdentifier, metrics[i].datname);
            k in RowsOf(s, metrics) && RowsOf(s, metrics)[k] == DatabaseCurrentRow(s.capturedAt, metrics[i].stats)
  {
    if i > 0 {
      assert metrics[1..][i - 1] == metrics[i];
      RowsOfExact(s, metrics[1..], i - 1);
    }
  }

  lemma {:induction false} NamesSplit(metrics: seq<DatabaseMetric>)
    requires metrics != []
    ensures Names(metrics) == Names(metrics[1..]) + {metrics[0].datname}
    ensures DistinctNames(metrics) <==> DistinctNames(metrics[1..]) && metrics[0].datname !in Names(metrics[1..])
  {
    var rest := metrics[1..];
    assert metrics == [metrics[0]] + rest;
    if DistinctNames(metrics) {
      forall i, j | 0 <= i < j < |rest| ensures rest[i].datname != rest[j].datname {
        assert metrics[i + 1].datname != metrics[j + 1].datname;
      }
      forall j | 0 <= j < |rest| ensures rest[j].datname != metrics[0].datname {
        assert rest[j] == metrics[j + 1];
      }
    }
    if DistinctNames(rest) && metrics[0].datname !in Names(rest) {
      forall i, j | 0 <= i < j < |metrics| ensures metrics[i].datname != metrics[j].datname {
        assert metrics[j] == rest[j - 1] && rest[j - 1] in rest;
        assert i > 0 ==> metrics[i] == rest[i - 1];
      }
    }
  }

  ghost predicate NoneNewer(rows: DatabaseRows, s: RuntimeSnapshot) {
    forall k :: k in rows && k.dbIdentifier == s.dbIdentifier ==> rows[k].capturedAt <= s.capturedAt
  }

  ghost predicate NoneDone(s: RuntimeSnapshot, metrics: seq<DatabaseMetric>, done: DatabaseRows) {
    forall n :: n in Names(metrics) ==> DatabaseKey(s.dbIdentifier, n) !in done
  }

  lemma {:induction false} NoneDoneSplit(
    s: RuntimeSnapshot, metrics: seq<DatabaseMetric>, done: DatabaseRows, row: DatabaseCurrentRow)
    requires metrics != []
    ensures var key := DatabaseKey(s.dbIdentifier, metrics[0].datname);
            DistinctNames(metrics) && NoneDone(s, metrics, done) <==>
            key !in done && DistinctNames(metrics[1..]) && NoneDone(s, metrics[1..], done[key := row])
  {
    NamesSplit(metrics);
  }

  lemma {:induction false} UpsertStep(
    rows: DatabaseRows, s: RuntimeSnapshot, metrics: seq<DatabaseMetric>, done: DatabaseRows, row: DatabaseCurrentRow)
    requires NoneNewer(rows, s) && metrics != []
    requires row == DatabaseCurrentRow(s.capturedAt, metrics[0].stats)
    ensures var key := DatabaseKey(s.dbIdentifier, metrics[0].datname);
            Upserted(rows, s, metrics, done) ==
              if key in done then None else Upserted(rows, s, metrics[1..], done[key := row])
  {
  }

  lemma {:induction false} UpsertFailsOnRepeats(
    rows: DatabaseRows, s: RuntimeSnapshot, metrics: seq<DatabaseMetric>, done: DatabaseRows)
    requires NoneNewer(rows, s)
    ensures Upserted(rows, s, metrics, done).Some? <==> DistinctNames(metrics) && NoneDone(s, metrics, done)
  {
    if metrics != [] {
      var key := DatabaseKey(s.dbIdentifier, metrics[0].datname);
      var row := DatabaseCurrentRow(s.capturedAt, metrics[0].stats);
      UpsertStep(rows, s, metrics, done, row);
      NoneDoneSplit(s, metrics, done, row);
      UpsertFailsOnRepeats(rows, s, metrics[1..], done[key := row]);
    }
  }

  lemma {:induction false} FirstRowLast(
    s: RuntimeSnapshot, metrics: seq<DatabaseMetric>, done: DatabaseRows, row: DatabaseCurrentRow)
    requires metrics != [] && DistinctNames(metrics)
    requires row == DatabaseCurrentRow(s.capturedAt, metrics[0].stats)
    ensures done[DatabaseKey(s.dbIdentifier, metrics[0].datname) := row] + RowsOf(s, metrics[1..]) == done + RowsOf(s, metrics)
  {
    NamesSplit(metrics);
    RowsOfKeys(s, metrics[1..]);
  }

  lemma {:induction false} UpsertWritesAll(
    rows: DatabaseRows, s: RuntimeSnapshot, metrics: seq<DatabaseMetric>, done: DatabaseRows)
    requires NoneNewer(rows, s) && DistinctNames(metrics) && NoneDone(s, metrics, done)
    ensures Upserted(rows, s, metrics, done) == Some(done + RowsOf(s, metrics))
  {
    if metrics == [] {
      assert done + map[] == done;
    } else {
      var key := DatabaseKey(s.dbIdentifier, metrics[0].datname);
      var row := DatabaseCurrentRow(s.capturedAt, metrics[0].stats);
      UpsertStep(rows, s, metrics, done, row);
      NoneDoneSplit(s, metrics, done, row);
      UpsertWritesAll(rows, s, metrics[1..], done[key := row]);
      FirstRowLast(s, metrics, done, row);
    }
  }

  /** When no row is newer, the guarded upsert accepts every row and fails exactly on a repeated name. */
  lemma {:induction false} UpsertReplaces(rows: DatabaseRows, s: RuntimeSnapshot, metrics: seq<DatabaseMetric>)
    requires NoneNewer(rows, s)
    ensures Upserted(rows, s, metrics, map[]) == if DistinctNames(metrics) then Some(RowsOf(s, metrics)) else None
  {
    UpsertFailsOnRepeats(rows, s, metrics, map[]);
    if DistinctNames(metrics) {
      UpsertWritesAll(rows, s, metrics, map[]);
      assert map[] + RowsOf(s, metrics) == RowsOf(s, metrics);
    }
  }
}
