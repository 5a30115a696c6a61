/** What the collector hands to storage, and the rows storage keeps. Capture times are integer instants. */
module Models {
  import opened Wrappers

  datatype ActivitySnapshot = ActivitySnapshot(
    activeConnections: int, blockedSessions: int, longestTxDurationS: Option<real>)

  datatype LocksSnapshot = LocksSnapshot(waitingLocks: int, grantedLocks: int)

  datatype DatabaseStats = DatabaseStats(
    datid: int, numbackends: int, xactCommit: int, xactRollback: int,
    blksRead: int, blksHit: int, deadlocks: int)

  datatype DatabaseMetric = DatabaseMetric(datname: string, stats: DatabaseStats)

  datatype RuntimeSnapshot = RuntimeSnapshot(
    capturedAt: int, dbIdentifier: string,
    activity: ActivitySnapshot, locks: LocksSnapshot, database: seq<DatabaseMetric>)

  /** The seven cumulative counters of one `pg_stat_statements` entry. */
  datatype Counters = Counters(
    calls: int, totalExecTimeMs: real, rows: int,
    sharedBlksHit: int, sharedBlksRead: int, sharedBlksDirtied: int, sharedBlksWritten: int)

  datatype RowKey = RowKey(queryid: string, dbid: int, userid: int)

  datatype StatementMetric = StatementMetric(
    key: RowKey, query: string, counters: Counters, meanExecTimeMs: real)

  datatype QuerySnapshot = QuerySnapshot(
    capturedAt: int, dbIdentifier: string, statements: seq<StatementMetric>)

  /** A row of `query_metric_snapshots`. */
  datatype QueryRow = QueryRow(capturedAt: int, dbIdentifier: string, metric: StatementMetric)

  datatype QuerySnapshotPoint = QuerySnapshotPoint(capturedAt: int, rows: seq<QueryRow>)

  /** A row of `runtime_snapshots`; its id is the key it is stored under. */
  datatype SnapshotRow = SnapshotRow(
    capturedAt: int, dbIdentifier: string, activity: ActivitySnapshot, locks: LocksSnapshot)

  /** A row of `runtime_database_snapshots`, pointing at its parent in `runtime_snapshots`. */
  datatype DatabaseSnapshotRow = DatabaseSnapshotRow(runtimeSnapshotId: int, metric: DatabaseMetric)

  /** A row of `runtime_current`, stored under its `db_identifier`. */
  datatype CurrentRow = CurrentRow(capturedAt: int, activity: ActivitySnapshot, locks: LocksSnapshot)

  /** The unique key and the remaining columns of `runtime_database_current`. */
  datatype DatabaseKey = DatabaseKey(dbIdentifier: string, datname: string)
  datatype DatabaseCurrentRow = DatabaseCurrentRow(capturedAt: int, stats: DatabaseStats)
}
