/** The two collector jobs: collect once, write once in a unit of work, report. */
module Scheduler {
  import opened Wrappers
  import opened Models
  import opened RuntimeTables
  import opened RuntimeHistory
  import opened QueryTable
  import opened Storage
  import opened RuntimeRepository
  import opened QueryRepository
  import opened UnitOfWork

  datatype Report =
    | Completed(dbIdentifier: string, rowsWritten: nat) | CollectorFailed | StorageFailed | TimedOut
    | Propagated(exception: Exception)

  /** The `except` clauses of both jobs. */
  function ReportOf(e: Exception): Report {
    match e
    case CollectorError => CollectorFailed
    case StorageError => StorageFailed
    case StorageWriteError => StorageFailed
    case StorageReadError => StorageFailed
    case TimeoutError => TimedOut
    case _ => Propagated(e)
  }

  /** The committed tables, the next snapshot id, and what sessions have done so far. */
  datatype World = World(store: Store, nextId: int, trace: seq<SessionEvent>)

  /** A job run: what collection came to, and what storage calls will do. */
  datatype Job =
    | RuntimeJob(runtime: Result<RuntimeSnapshot, Exception>, env: Environment)
    | QueriesJob(queries: Result<QuerySnapshot, Exception>, env: Environment)

  // ----- What a job run comes to

  function Collected(job: Job): Option<Exception> {
    match job
    case RuntimeJob(Failure(e), _) => Some(e)
    case QueriesJob(Failure(e), _) => Some(e)
    case _ => None
  }

  function WriteOutcome(w: World, job: Job): Option<Exception>
    requires Collected(job).None?
  {
    match job
    case RuntimeJob(s, env) => WriteFault(w.store.runtime, s.value, env)
    case QueriesJob(s, env) => QueryWriteFault(w.store.queries, s.value, env)
  }

  predicate Commits(w: World, job: Job) {
    Collected(job).None? && WriteOutcome(w, job).None? && CommitTakesEffect(job.env)
  }

  /** The store with the whole collected snapshot added. */
  function Written(w: World, job: Job): Store
    requires Collected(job).None? && WriteOutcome(w, job).None?
  {
    match job
    case RuntimeJob(s, env) =>
      WriteAccepts(w.store.runtime, s.value, env, w.nextId);
      w.store.(runtime := ApplySnapshot(w.store.runtime, w.nextId, s.value).value)
    case QueriesJob(s, _) => w.store.(queries := InsertQueryRows(w.store.queries, QueryRowsOf(s.value)).value)
  }

  /** A run that collects nothing opens no session. */
  function JobEvents(w: World, job: Job): seq<SessionEvent> {
    if Collected(job).Some? then [] else SessionEvents(WriteOutcome(w, job))
  }

  function After(w: World, job: Job): World {
    World(
      if Commits(w, job) then Written(w, job) else w.store,
      if job.RuntimeJob? && job.runtime.Success? && FlushSnapshot !in job.env.faults then w.nextId + 1 else w.nextId,
      w.trace + JobEvents(w, job))
  }

  function JobReport(w: World, job: Job): Report {
    if Collected(job).Some? then ReportOf(Collected(job).value) else
      match LeavesWith(WriteOutcome(w, job), job.env)
      case Some(e) => ReportOf(e)
      case None =>
        match job
        case RuntimeJob(s, _) => Completed(s.value.dbIdentifier, 1 + |s.value.database|)
        case QueriesJob(s, _) => Completed(s.value.dbIdentifier, |s.value.statements|)
  }

  class CollectorScheduler {
    const db: Database

    constructor (db: Database)
      ensures this.db == db
    {
      this.db := db;
    }

    method RunRuntimeJob(collected: Result<RuntimeSnapshot, Exception>, env: Environment)
      returns (report: Report, ghost uow: StorageUnitOfWork?)
      modifies db
      ensures var before := World(old(db.store), old(db.nextSnapshotId), old(db.trace));
              var job := RuntimeJob(collected, env);
              World(db.store, db.nextSnapshotId, db.trace) == After(before, job) && report == JobReport(before, job)
      ensures collected.Failure? <==> uow == null
      ensures uow != null ==> fresh(uow) && (uow.session == null <==> CloseCall !in env.faults)
    {
      if collected.Failure? {
        return ReportOf(collected.error), null;
      }
      var s := collected.value;
      WriteAccepts(db.store.runtime, s, env, db.nextSnapshotId);
      var entered := new StorageUnitOfWork(db);
      uow := entered;
      entered.Enter();
      var repository := entered.RuntimeSnapshots();
      var written := repository.value.WriteRuntimeSnapshot(s, env);
      var raised := entered.Exit(if written.Failure? then Some(written.error) else None, env);
      if raised.Some? {
        return ReportOf(raised.value), uow;
      }
      return Completed(s.dbIdentifier, written.value), uow;
    }

    method RunQueriesJob(collected: Result<QuerySnapshot, Exception>, env: Environment)
      returns (report: Report, ghost uow: StorageUnitOfWork?)
      modifies db
      ensures var before := World(old(db.store), old(db.nextSnapshotId), old(db.trace));
              var job := QueriesJob(collected, env);
              World(db.store, db.nextSnapshotId, db.trace) == After(before, job) && report == JobReport(before, job)
      ensures collected.Failure? <==> uow == null
      ensures uow != null ==> fresh(uow) && (uow.session == null <==> CloseCall !in env.faults)
    {
      if collected.Failure? {
        return ReportOf(collected.error), null;
      }
      var s := collected.value;
      var entered := new StorageUnitOfWork(db);
      uow := entered;
      entered.Enter();
      var repository := entered.QuerySnapshots();
      var written := repository.value.WriteQuerySnapshot(s, env);
      var raised := entered.Exit(if written.Failure? then Some(written.error) else None, env);
      if raised.Some? {
        return ReportOf(raised.value), uow;
      }
      return Completed(s.dbIdentifier, written.value), uow;
    }
  }

  // ----- One run

  /** A run commits exactly one whole snapshot or leaves every committed table as it was. */
  lemma {:induction false} RunIsAtomic(w: World, job: Job)
    ensures var store := After(w, job).store;
            || store == w.store
            || (job.RuntimeJob? && job.runtime.Success? && store.queries == w.store.queries
                && ApplySnapshot(w.store.runtime, w.nextId, job.runtime.value) == Some(store.runtime))
            || (job.QueriesJob? && job.queries.Success? && store.runtime == w.store.runtime
                && InsertQueryRows(w.store.queries, QueryRowsOf(job.queries.value)) == Some(store.queries))
  {
    if Commits(w, job) && job.RuntimeJob? {
      CommittedWriteApplies(w, job);
    }
  }

  /** A run reported complete has committed; one that committed is reported otherwise only if ending the session raised. */
  lemma {:induction false} ReportIsHonest(w: World, job: Job)
    ensures JobReport(w, job).Completed? <==>
              Commits(w, job) && CommitCall !in job.env.faults && CloseCall !in job.env.faults
    ensures JobReport(w, job) == Propagated(SqlAlchemyError) ==>
              Collected(job) == Some(SqlAlchemyError) || job.env.Fault(CloseCall) == Some(SqlAlchemyError)
  {
    if Collected(job).None? {
      var outcome := WriteOutcome(w, job);
      match job
      case RuntimeJob(s, env) => WriteFaultUnfolds(w.store.runtime, s.value, env);
      case QueriesJob(s, env) =>
      assert outcome.Some? ==> outcome.value != SqlAlchemyError;
    }
  }

  /** If only SQL errors happen and closing works, a run is either complete or reported as a storage failure. */
  lemma {:induction false} SqlErrorsStayInside(w: World, job: Job)
    requires Collected(job).None? && CloseCall !in job.env.faults
    requires forall c :: c in job.env.faults ==> job.env.faults[c] == SqlAlchemyError
    ensures JobReport(w, job) == StorageFailed || JobReport(w, job).Completed?
  {
    match job
    case RuntimeJob(s, env) => WriteFaultUnfolds(w.store.runtime, s.value, env);
    case QueriesJob(s, env) =>
  }

  // ----- Every sequence of runs

  function RunJobs(jobs: seq<Job>): World {
    if jobs == [] then World(EMPTY_STORE, 1, []) else After(RunJobs(jobs[..|jobs| - 1]), jobs[|jobs| - 1])
  }

  /** What one run adds to the runtime log and to the query log. */
  function RuntimeLogged(w: World, job: Job): seq<Entry> {
    if job.RuntimeJob? && Commits(w, job) then [Entry(w.nextId, job.runtime.value)] else []
  }

  function QueryLogged(w: World, job: Job): seq<QuerySnapshot> {
    if job.QueriesJob? && Commits(w, job) then [job.queries.value] else []
  }

  function RuntimeLog(jobs: seq<Job>): seq<Entry> {
    if jobs == [] then [] else
      var n := |jobs| - 1;
      RuntimeLog(jobs[..n]) + RuntimeLogged(RunJobs(jobs[..n]), jobs[n])
  }

  function QueryLog(jobs: seq<Job>): seq<QuerySnapshot> {
    if jobs == [] then [] else
      var n := |jobs| - 1;
      QueryLog(jobs[..n]) + QueryLogged(RunJobs(jobs[..n]), jobs[n])
  }

  ghost predicate RuntimeReplays(w: World, log: seq<Entry>) {
    && Replay(log) == Some(w.store.runtime) && DistinctIds(log)
    && forall i :: 0 <= i < |log| ==> log[i].id < w.nextId
  }

  ghost predicate QueriesReplay(w: World, log: seq<QuerySnapshot>) {
    w.store.queries == LogRows(log) && UniquePoints(w.store.queries)
  }

  lemma {:induction false} CommittedWriteApplies(w: World, job: Job)
    requires job.RuntimeJob? && Commits(w, job)
    ensures ApplySnapshot(w.store.runtime, w.nextId, job.runtime.value) == Some(After(w, job).store.runtime)
    ensures After(w, job).nextId == w.nextId + 1
  {
    WriteAccepts(w.store.runtime, job.runtime.value, job.env, w.nextId);
  }

  lemma {:induction false} EntryReplays(w: World, after: World, log: seq<Entry>, s: RuntimeSnapshot)
    requires RuntimeReplays(w, log) && after.nextId == w.nextId + 1
    requires ApplySnapshot(w.store.runtime, w.nextId, s) == Some(after.store.runtime)
    ensures RuntimeReplays(after, log + [Entry(w.nextId, s)])
  {
    ReplayAppend(log, Entry(w.nextId, s));
  }

  lemma {:induction false} NothingLogged(w: World, job: Job)
    requires !(job.RuntimeJob? && Commits(w, job))
    ensures After(w, job).store.runtime == w.store.runtime && After(w, job).nextId >= w.nextId
    ensures RuntimeLogged(w, job) == []
  {
  }

  lemma {:induction false} RunReplaysRuntime(w: World, job: Job, log: seq<Entry>)
    requires RuntimeReplays(w, log)
    ensures RuntimeReplays(After(w, job), log + RuntimeLogged(w, job))
  {
    if job.RuntimeJob? && Commits(w, job) {
      CommittedWriteApplies(w, job);
      EntryReplays(w, After(w, job), log, job.runtime.value);
    } else {
      NothingLogged(w, job);
      assert log + [] == log;
    }
  }

  lemma {:induction false} RunReplaysQueries(w: World, job: Job, log: seq<QuerySnapshot>)
    requires QueriesReplay(w, log)
    ensures QueriesReplay(After(w, job), log + QueryLogged(w, job))
  {
    if job.QueriesJob? && Commits(w, job) {
      assert (log + [job.queries.value])[..|log|] == log;
      assert w.store.queries + [] == w.store.queries;
    } else {
      assert log + QueryLogged(w, job) == log;
    }
  }

  lemma {:induction false} RunsReplay(jobs: seq<Job>)
    ensures RuntimeReplays(RunJobs(jobs), RuntimeLog(jobs))
    ensures QueriesReplay(RunJobs(jobs), QueryLog(jobs))
  {
    if jobs == [] {
    } else {
      var n := |jobs| - 1;
      RunsReplay(jobs[..n]);
      RunReplaysRuntime(RunJobs(jobs[..n]), jobs[n], RuntimeLog(jobs[..n]));
      RunReplaysQueries(RunJobs(jobs[..n]), jobs[n], QueryLog(jobs[..n]));
    }
  }

  /**
    After any sequence of job runs, failing anywhere, the current tables are the view of the committed
    snapshots, the history tables read back as them, and the query table is their rows.
   */
  lemma {:induction false} RunsKeepView(jobs: seq<Job>)
    ensures var store := RunJobs(jobs).store;
            && View(store.runtime, Snapshots(RuntimeLog(jobs)))
            && Records(store.runtime, RuntimeLog(jobs))
            && store.queries == LogRows(QueryLog(jobs)) && UniquePoints(store.queries)
  {
    RunsReplay(jobs);
    ReplayIsView(RuntimeLog(jobs));
    ReplayRecords(RuntimeLog(jobs));
  }

  /** When only writes of their own accord fail, runs of the runtime job are the arrivals of what they collected. */
  lemma {:induction false} QuietRunsArrive(jobs: seq<Job>, entries: seq<Entry>)
    requires |jobs| == |entries|
    requires forall i :: 0 <= i < |jobs| ==>
               entries[i].id == i + 1 && jobs[i] == RuntimeJob(Success(entries[i].snapshot), Environment(map[], false))
    ensures RunJobs(jobs).store.runtime == Arrive(entries) && RunJobs(jobs).nextId == |jobs| + 1
  {
    if jobs == [] {
    } else {
      var n := |jobs| - 1;
      QuietRunsArrive(jobs[..n], entries[..n]);
      WriteFaultUnfolds(Arrive(entries[..n]), entries[n].snapshot, jobs[n].env);
    }
  }

  lemma {:induction false} AcceptedRows(batches: seq<QuerySnapshot>)
    ensures UniquePoints(LogRows(Accepted(batches)))
  {
    if batches != [] {
      var n := |batches| - 1;
      var before := Accepted(batches[..n]);
      AcceptedRows(batches[..n]);
      UniqueMeansNoClash(LogRows(before) + QueryRowsOf(batches[n]));
      assert (before + [batches[n]])[..|before|] == before;
    }
  }

  /** When nothing else fails, runs of the queries job store exactly the batches that do not clash with those before them. */
  lemma {:induction false} QuietQueriesArrive(jobs: seq<Job>, batches: seq<QuerySnapshot>)
    requires |jobs| == |batches|
    requires forall i :: 0 <= i < |jobs| ==> jobs[i] == QueriesJob(Success(batches[i]), Environment(map[], false))
    ensures QueryLog(jobs) == Accepted(batches)
    ensures RunJobs(jobs).store.queries == LogRows(Accepted(batches))
  {
    if jobs == [] {
    } else {
      var n := |jobs| - 1;
      var w, log := RunJobs(jobs[..n]), Accepted(batches[..n]);
      assert QueryLog(jobs[..n]) == log && w.store.queries == LogRows(log) by {
        QuietQueriesArrive(jobs[..n], batches[..n]);
      }
      AcceptedRows(batches[..n]);
      assert After(w, jobs[n]).store.queries == LogRows(Accepted(batches)) && log + QueryLogged(w, jobs[n]) == Accepted(batches) by {
        QuietQueryRun(w, log, jobs[n], batches[n]);
      }
    }
  }

  lemma {:induction false} LogRowsAppend(log: seq<QuerySnapshot>, s: QuerySnapshot)
    ensures LogRows(log + [s]) == LogRows(log) + QueryRowsOf(s)
  {
    assert (log + [s])[..|log|] == log;
  }

  lemma {:induction false} QuietInsert(table: seq<QueryRow>, s: QuerySnapshot)
    requires UniquePoints(table)
    ensures InsertQueryRows(table, QueryRowsOf(s)) ==
              if Clashes(table + QueryRowsOf(s)) then None else Some(table + QueryRowsOf(s))
  {
    UniqueMeansNoClash(table + QueryRowsOf(s));
    assert table + [] == table;
  }

  lemma {:induction false} QuietQueryStores(w: World, job: Job, s: QuerySnapshot)
    requires job == QueriesJob(Success(s), Environment(map[], false)) && UniquePoints(w.store.queries)
    ensures var clashes := Clashes(w.store.queries + QueryRowsOf(s));
            && After(w, job).store.queries == (if clashes then w.store.queries else w.store.queries + QueryRowsOf(s))
            && QueryLogged(w, job) == if clashes then [] else [s]
  {
    QuietInsert(w.store.queries, s);
  }

  lemma {:induction false} QuietQueryRun(w: World, log: seq<QuerySnapshot>, job: Job, s: QuerySnapshot)
    requires job == QueriesJob(Success(s), Environment(map[], false)) && w.store.queries == LogRows(log)
    requires UniquePoints(LogRows(log))
    ensures var log' := if Clashes(LogRows(log) + QueryRowsOf(s)) then log else log + [s];
            After(w, job).store.queries == LogRows(log') && log + QueryLogged(w, job) == log'
  {
    QuietQueryStores(w, job, s);
    LogRowsAppend(log, s);
  }

  // ----- Reports

  /** What a report says about the run: which failure, or for which identifier how many rows. */
  lemma {:induction false} ReportNamesCause(w: World, job: Job)
    ensures Collected(job) == Some(CollectorError) ==> JobReport(w, job) == CollectorFailed
    ensures Collected(job) == Some(TimeoutError) ==> JobReport(w, job) == TimedOut
    ensures Collected(job) == Some(OtherError) ==> JobReport(w, job) == Propagated(OtherError)
    ensures JobReport(w, job).Completed? && job.RuntimeJob? ==>
              JobReport(w, job) == Completed(job.runtime.value.dbIdentifier, 1 + |job.runtime.value.database|)
    ensures JobReport(w, job).Completed? && job.QueriesJob? ==>
              JobReport(w, job) == Completed(job.queries.value.dbIdentifier, |job.queries.value.statements|)
  {
    if Collected(job).None? && JobReport(w, job).Completed? {
      ReportIsHonest(w, job);
    }
  }

  /** Within storage, a run is reported by the exception that leaves its unit of work. */
  lemma {:induction false} StorageReports(w: World, job: Job, e: Exception)
    requires Collected(job).None? && LeavesWith(WriteOutcome(w, job), job.env) == Some(e)
    ensures JobReport(w, job) == StorageFailed <==> e in {StorageError, StorageWriteError, StorageReadError}
    ensures JobReport(w, job) == TimedOut <==> e == TimeoutError
    ensures JobReport(w, job) == CollectorFailed <==> e == CollectorError
    ensures e in {SqlAlchemyError, OtherError} ==> JobReport(w, job) == Propagated(e)
  {
  }

  /** A commit that takes effect and loses its acknowledgement: everything is stored, and a storage failure is reported. */
  lemma {:induction false} LostAcknowledgement(s: QuerySnapshot)
    requires UniquePoints(QueryRowsOf(s))
    ensures var job := QueriesJob(Success(s), Environment(map[CommitCall := SqlAlchemyError], true));
            RunJobs([job]).store.queries == QueryRowsOf(s) && JobReport(RunJobs([]), job) == StorageFailed
  {
    var job := QueriesJob(Success(s), Environment(map[CommitCall := SqlAlchemyError], true));
    assert [job][..0] == [];
    assert [] + QueryRowsOf(s) == QueryRowsOf(s);
  }

  // ----- Sessions over every sequence of runs

  /** One session after the other: opened, one commit or rollback attempt, one close. */
  predicate Disciplined(trace: seq<SessionEvent>) {
    trace == [] ||
    (var n := |trace| - 3;
     n >= 0 && trace[n] == SessionOpened && trace[n + 1] in {CommitTried, RollbackTried} && trace[n + 2] == CloseTried
     && Disciplined(trace[..n]))
  }

  /** How many runs come to open a session. */
  function Entered(jobs: seq<Job>): nat {
    if jobs == [] then 0 else
      Entered(jobs[..|jobs| - 1]) + if Collected(jobs[|jobs| - 1]).None? then 1 else 0
  }

  /** How many runs write without an exception. */
  function WritesDone(jobs: seq<Job>): nat {
    if jobs == [] then 0 else
      var n := |jobs| - 1;
      WritesDone(jobs[..n]) + if WriteDone(RunJobs(jobs[..n]), jobs[n]) then 1 else 0
  }

  lemma {:induction false} OneMoreSession(trace: seq<SessionEvent>, exc: Option<Exception>)
    requires Disciplined(trace)
    ensures var longer := trace + SessionEvents(exc);
            && Disciplined(longer) && |longer| == |trace| + 3
            && multiset(longer)[CommitTried] == multiset(trace)[CommitTried] + if exc.None? then 1 else 0
  {
    assert (trace + SessionEvents(exc))[..|trace|] == trace;
    assert multiset(trace + SessionEvents(exc)) == multiset(trace) + multiset(SessionEvents(exc));
  }

  predicate WriteDone(w: World, job: Job) {
    Collected(job).None? && WriteOutcome(w, job).None?
  }

  lemma {:induction false} RunKeepsDiscipline(w: World, job: Job)
    requires Disciplined(w.trace)
    ensures Disciplined(After(w, job).trace)
    ensures |After(w, job).trace| == |w.trace| + if Collected(job).None? then 3 else 0
    ensures multiset(After(w, job).trace)[CommitTried] == multiset(w.trace)[CommitTried] + if WriteDone(w, job) then 1 else 0
  {
    var events := JobEvents(w, job);
    if Collected(job).None? {
      assert events == if WriteDone(w, job) then SessionEvents(None) else SessionEvents(Some(OtherError));
      OneMoreSession(w.trace, if WriteDone(w, job) then None else Some(OtherError));
    } else {
      assert w.trace + [] == w.trace;
    }
    assert After(w, job).trace == w.trace + events;
  }

  lemma {:induction false} CommitsAreTried(w: World, job: Job)
    ensures |RuntimeLogged(w, job)| + |QueryLogged(w, job)| <= if WriteDone(w, job) then 1 else 0
  {
  }

  /**
    Over any sequence of runs, failing anywhere, each run that collected has one session of its own, ended by
    exactly one attempt to commit or roll back and then one close; commits are tried exactly after writes that
    raised nothing, and there are never more committed snapshots than commits tried.
   */
  lemma {:induction false} SessionsAreDisciplined(jobs: seq<Job>)
    ensures var trace := RunJobs(jobs).trace;
            && Disciplined(trace)
            && |trace| == 3 * Entered(jobs)
            && multiset(trace)[CommitTried] == WritesDone(jobs)
            && |RuntimeLog(jobs)| + |QueryLog(jobs)| <= WritesDone(jobs)
  {
    if jobs == [] {
    } else {
      var n := |jobs| - 1;
      SessionsAreDisciplined(jobs[..n]);
      RunKeepsDiscipline(RunJobs(jobs[..n]), jobs[n]);
      CommitsAreTried(RunJobs(jobs[..n]), jobs[n]);
    }
  }

  /** A close that raises a database error: the snapshot is committed, yet that error leaves the job past both storage clauses. */
  lemma {:induction false} CloseErrorEscapes(s: QuerySnapshot)
    requires UniquePoints(QueryRowsOf(s))
    ensures var job := QueriesJob(Success(s), Environment(map[CloseCall := SqlAlchemyError], false));
            && RunJobs([job]).store.queries == QueryRowsOf(s)
            && JobReport(RunJobs([]), job) == Propagated(SqlAlchemyError)
  {
    var job := QueriesJob(Success(s), Environment(map[CloseCall := SqlAlchemyError], false));
    assert [job][..0] == [];
    assert [] + QueryRowsOf(s) == QueryRowsOf(s);
  }
}
