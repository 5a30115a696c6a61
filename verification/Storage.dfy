/** The storage database, a session on it, and the repositories' write paths statement by statement. */
module Storage {
  import opened Wrappers
  import opened Models
  import opened RuntimeTables
  import opened QueryTable

  datatype Exception =
    | SqlAlchemyError | StorageError | StorageWriteError | StorageReadError
    | CollectorError | TimeoutError | OtherError

  /** The awaited calls that may raise. */
  datatype Call =
    | FlushSnapshot | UpsertHeader | SelectCurrentTime | DeleteDatabases | UpsertDatabases | FlushDatabases
    | FlushQueries | SelectLatestTime | SelectPoint | SelectTimes | SelectPoints
    | SelectCurrent | SelectDatabases | CommitCall | RollbackCall | CloseCall

  /** What sessions do, in order: opening, then attempts to commit, roll back and close. */
  datatype SessionEvent = SessionOpened | CommitTried | RollbackTried | CloseTried

  /** Which calls raise, and what; `ackLost` says a raising commit has taken effect all the same. */
  datatype Environment = Environment(faults: map<Call, Exception>, ackLost: bool) {
    function Fault(c: Call): Option<Exception> {
      if c in faults then Some(faults[c]) else None
    }
  }

  datatype Store = Store(runtime: Tables, queries: seq<QueryRow>)

  const EMPTY_STORE := Store(EMPTY, [])

  /** `except SQLAlchemyError as exc: raise <wrapper> from exc`. */
  function Wrap(e: Exception, wrapper: Exception): Exception {
    if e == SqlAlchemyError then wrapper else e
  }

  class Database {
    var store: Store
    var nextSnapshotId: int
    /** The events of all sessions on this database. */
    ghost var trace: seq<SessionEvent>

    constructor ()
      ensures store == EMPTY_STORE && nextSnapshotId == 1 && trace == []
    {
      store, nextSnapshotId := EMPTY_STORE, 1;
      trace := [];
    }
  }

  /** One transaction. Added objects stay pending until a flush; `autoflush` is off. */
  class Session {
    const db: Database
    var store: Store
    var pendingSnapshot: Option<RuntimeSnapshot>
    var pendingDatabases: seq<DatabaseSnapshotRow>
    var pendingQueries: seq<QueryRow>
    var flushedId: int

    constructor (db: Database)
      modifies db`trace
      ensures this.db == db && store == db.store && NothingPending()
      ensures db.trace == old(db.trace) + [SessionOpened]
    {
      this.db := db;
      store := db.store;
      pendingSnapshot, pendingDatabases, pendingQueries := None, [], [];
      flushedId := 0;
      new;
      db.trace := db.trace + [SessionOpened];
    }

    predicate NothingPending()
      reads this
    {
      pendingSnapshot.None? && pendingDatabases == [] && pendingQueries == []
    }

    /** The tables with everything pending inserted; None when the unique constraint refuses it. */
    function AfterFlush(): Option<Store>
      reads this, db
    {
      match InsertQueryRows(store.queries, pendingQueries)
      case None => None
      case Some(queries) =>
        var t := if pendingSnapshot.None? then store.runtime
                 else InsertSnapshot(store.runtime, db.nextSnapshotId, pendingSnapshot.value);
        Some(Store(t.(databaseSnapshots := t.databaseSnapshots + pendingDatabases), queries))
    }

    method Flush(call: Call, env: Environment) returns (raised: Option<Exception>)
      modifies this, db`nextSnapshotId
      ensures raised == if env.Fault(call).Some? then env.Fault(call)
                        else if old(AfterFlush()).None? then Some(SqlAlchemyError) else None
      ensures raised.None? ==>
                && Some(store) == old(AfterFlush()) && NothingPending()
                && (old(pendingSnapshot).Some? ==> flushedId == old(db.nextSnapshotId) && db.nextSnapshotId == flushedId + 1)
                && (old(pendingSnapshot).None? ==> flushedId == old(flushedId) && db.nextSnapshotId == old(db.nextSnapshotId))
      ensures raised.Some? ==> store == old(store) && db.nextSnapshotId == old(db.nextSnapshotId)
    {
      if call in env.faults {
        return Some(env.faults[call]);
      }
      var after := AfterFlush();
      if after.None? {
        return Some(SqlAlchemyError);
      }
      store := after.value;
      if pendingSnapshot.Some? {
        flushedId := db.nextSnapshotId;
        db.nextSnapshotId := db.nextSnapshotId + 1;
      }
      pendingSnapshot, pendingDatabases, pendingQueries := None, [], [];
      return None;
    }

    method Commit(env: Environment) returns (raised: Option<Exception>)
      requires NothingPending()
      modifies db`store, db`trace
      ensures db.trace == old(db.trace) + [CommitTried]
      ensures raised == env.Fault(CommitCall)
      ensures db.store == if raised.None? || env.ackLost then store else old(db.store)
    {
      db.trace := db.trace + [CommitTried];
      if CommitCall !in env.faults || env.ackLost {
        db.store := store;
      }
      return env.Fault(CommitCall);
    }

    method Rollback(env: Environment) returns (raised: Option<Exception>)
      modifies db`trace
      ensures db.trace == old(db.trace) + [RollbackTried] && raised == env.Fault(RollbackCall)
    {
      db.trace := db.trace + [RollbackTried];
      return env.Fault(RollbackCall);
    }

    method Close(env: Environment) returns (raised: Option<Exception>)
      modifies db`trace
      ensures db.trace == old(db.trace) + [CloseTried] && raised == env.Fault(CloseCall)
    {
      db.trace := db.trace + [CloseTried];
      return env.Fault(CloseCall);
    }
  }
}
