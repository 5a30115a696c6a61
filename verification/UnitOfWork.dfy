/** The unit of work: one session per entry, ended by one commit or one rollback and one close. */
module UnitOfWork {
  import opened Wrappers
  import opened Storage
  import opened RuntimeRepository
  import opened QueryRepository

  predicate CommitTakesEffect(env: Environment) {
    CommitCall !in env.faults || env.ackLost
  }

  /** What leaves the `async with` block when its body ended with `exc`. */
  function LeavesWith(exc: Option<Exception>, env: Environment): Option<Exception> {
    if CloseCall in env.faults then Some(env.faults[CloseCall])
    else if exc.None? then
      if CommitCall in env.faults then Some(Wrap(env.faults[CommitCall], StorageWriteError)) else None
    else if RollbackCall in env.faults then Some(Wrap(env.faults[RollbackCall], StorageError))
    else exc
  }

  /** Which exception leaves, case by case: close over commit or rollback, a rollback's own error over the body's. */
  lemma {:induction false} WhatLeaves(exc: Option<Exception>, env: Environment)
    ensures env.Fault(CloseCall).Some? ==> LeavesWith(exc, env) == env.Fault(CloseCall)
    ensures CloseCall !in env.faults && exc.None? && CommitCall !in env.faults ==> LeavesWith(exc, env).None?
    ensures CloseCall !in env.faults && exc.None? && CommitCall in env.faults ==>
              LeavesWith(exc, env) ==
                Some(if env.faults[CommitCall] == SqlAlchemyError then StorageWriteError else env.faults[CommitCall])
    ensures CloseCall !in env.faults && exc.Some? && RollbackCall !in env.faults ==> LeavesWith(exc, env) == exc
    ensures CloseCall !in env.faults && exc.Some? && RollbackCall in env.faults ==>
              LeavesWith(exc, env) ==
                Some(if env.faults[RollbackCall] == SqlAlchemyError then StorageError else env.faults[RollbackCall])
  {
  }

  /** The events of a session from opening to close, when the block's body ended with `exc`. */
  function SessionEvents(exc: Option<Exception>): seq<SessionEvent> {
    [SessionOpened, if exc.None? then CommitTried else RollbackTried, CloseTried]
  }

  class StorageUnitOfWork {
    const db: Database
    var session: Session?

    constructor (db: Database)
      ensures this.db == db && session == null
    {
      this.db := db;
      session := null;
    }

    method RuntimeSnapshots() returns (r: Result<RuntimeSnapshotRepository, Exception>)
      ensures session == null ==> r == Failure(OtherError)
      ensures session != null ==> r.Success? && fresh(r.value) && r.value.session == session
    {
      if session == null {
        return Failure(OtherError);
      }
      var repository := new RuntimeSnapshotRepository(session);
      return Success(repository);
    }

    method QuerySnapshots() returns (r: Result<QuerySnapshotRepository, Exception>)
      ensures session == null ==> r == Failure(OtherError)
      ensures session != null ==> r.Success? && fresh(r.value) && r.value.session == session
    {
      if session == null {
        return Failure(OtherError);
      }
      var repository := new QuerySnapshotRepository(session);
      return Success(repository);
    }

    method Enter()
      modifies this, db`trace
      ensures session != null && fresh(session) && session.db == db
      ensures session.store == db.store && session.NothingPending()
      ensures db.trace == old(db.trace) + [SessionOpened]
    {
      session := new Session(db);
    }

    /**
      Exactly one commit or rollback attempt and then one close, whatever raises. Nothing is committed after
      an exception, and the session is let go exactly when the close does not raise.
     */
    method Exit(exc: Option<Exception>, env: Environment) returns (raised: Option<Exception>)
      requires session != null ==> session.db == db && (exc.None? ==> session.NothingPending())
      modifies this`session, db`store, db`trace
      ensures old(session) == null ==> raised == exc && session == null && db.store == old(db.store) && db.trace == old(db.trace)
      ensures old(session) != null ==>
                && raised == LeavesWith(exc, env)
                && db.store == (if exc.None? && CommitTakesEffect(env) then old(session.store) else old(db.store))
                && db.trace == old(db.trace) + [if exc.None? then CommitTried else RollbackTried, CloseTried]
                && session == if CloseCall in env.faults then old(session) else null
    {
      if session == null {
        return exc;
      }
      if exc.None? {
        var failed := session.Commit(env);
        raised := if failed.Some? then Some(Wrap(failed.value, StorageWriteError)) else None;
      } else {
        var failed := session.Rollback(env);
        raised := if failed.Some? then Some(Wrap(failed.value, StorageError)) else exc;
      }
      var closing := session.Close(env);
      if closing.Some? {
        return closing;
      }
      session := null;
    }
  }
}
