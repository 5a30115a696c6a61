/**
  Concurrent snapshot writes under READ COMMITTED, one SQL statement at a time. Each writer sees the
  committed tables overlaid with its own uncommitted changes, and a commit merges that overlay into
  whatever is committed by then. The header upsert takes the row lock of its identifier and keeps it
  until commit or rollback, also when the ON CONFLICT condition turns the update down.
 */
module InterleavedWriters {
  import opened Wrappers
  import opened Models
  import opened RuntimeTables
  import opened RuntimeView
  import opened RuntimeHistory

  datatype Phase =
    | Opened | SnapshotInserted | HeaderUpserted | FoundFresh | DepartedDeleted | Ready | Flushed | Failed

  datatype Writer = Writer(
    snapshot: RuntimeSnapshot, phase: Phase, id: int,
    header: Option<CurrentRow>, deleted: set<DatabaseKey>, written: DatabaseRows,
    children: seq<DatabaseSnapshotRow>)

  datatype State = State(
    tables: Tables, nextId: int, locks: map<string, nat>, writers: map<nat, Writer>, log: seq<Entry>)

  datatype Event = Begin(w: nat, snapshot: RuntimeSnapshot) | Statement(w: nat) | Commit(w: nat) | Rollback(w: nat)

  const INITIAL := State(EMPTY, 1, map[], map[], [])

  /** The tables as the writer's next statement sees them. */
  function Visible(t: Tables, wr: Writer): Tables {
    Tables(
      if wr.phase == Opened then t.snapshots else t.snapshots[wr.id := SnapshotRowOf(wr.snapshot)],
      t.databaseSnapshots + wr.children,
      if wr.header.Some? then t.current[wr.snapshot.dbIdentifier := wr.header.value] else t.current,
      t.databaseCurrent - wr.deleted + wr.written)
  }

  predicate Enabled(st: State, e: Event) {
    match e
    case Begin(w, _) => w !in st.writers
    case Statement(w) =>
      && w in st.writers && st.writers[w].phase != Flushed && st.writers[w].phase != Failed
      && (st.writers[w].phase == SnapshotInserted ==> st.writers[w].snapshot.dbIdentifier !in st.locks)
    case Commit(w) => w in st.writers && st.writers[w].phase == Flushed
    case Rollback(w) => w in st.writers
  }

  /** One statement of a write, against what the writer sees. */
  function Execute(t: Tables, nextId: int, wr: Writer): Writer {
    var seen, s := Visible(t, wr), wr.snapshot;
    match wr.phase
    case Opened => wr.(phase := SnapshotInserted, id := nextId)
    case SnapshotInserted =>
      wr.(phase := HeaderUpserted, header := if AcceptsCurrent(seen.current, s) then Some(CurrentRowOf(s)) else None)
    case HeaderUpserted => wr.(phase := if IsStale(seen.current, s) then Ready else FoundFresh)
    case FoundFresh =>
      var gone := Departed(seen.databaseCurrent, s);
      wr.(phase := if s.database == [] then Ready else DepartedDeleted,
          deleted := wr.deleted + gone, written := wr.written - gone)
    case DepartedDeleted =>
      (match Upserted(seen.databaseCurrent, s, s.database, map[])
       case None => wr.(phase := Failed)
       case Some(rows) => wr.(phase := Ready, written := wr.written + rows))
    case Ready => wr.(phase := Flushed, children := wr.children + DatabaseSnapshotRowsOf(wr.id, s.database))
    case Flushed => wr
    case Failed => wr
  }

  function Release(locks: map<string, nat>, w: nat): map<string, nat> {
    map d | d in locks && locks[d] != w :: locks[d]
  }

  /** An event that is not enabled waits: nothing happens. */
  function Step(st: State, e: Event): State {
    if !Enabled(st, e) then st else
      match e
      case Begin(w, s) => st.(writers := st.writers[w := Writer(s, Opened, 0, None, {}, map[], [])])
      case Statement(w) =>
        var wr := st.writers[w];
        st.(writers := st.writers[w := Execute(st.tables, st.nextId, wr)],
            nextId := if wr.phase == Opened then st.nextId + 1 else st.nextId,
            locks := if wr.phase == SnapshotInserted then st.locks[wr.snapshot.dbIdentifier := w] else st.locks)
      case Commit(w) =>
        State(Visible(st.tables, st.writers[w]), st.nextId, Release(st.locks, w), st.writers - {w},
              st.log + [Entry(st.writers[w].id, st.writers[w].snapshot)])
      case Rollback(w) => st.(locks := Release(st.locks, w), writers := st.writers - {w})
  }

  function Run(events: seq<Event>): State {
    if events == [] then INITIAL else Step(Run(events[..|events| - 1]), events[|events| - 1])
  }

  // ----- What every step keeps

  predicate HasId(wr: Writer) {
    wr.phase != Opened
  }

  predicate HoldsLock(wr: Writer) {
    wr.phase != Opened && wr.phase != SnapshotInserted
  }

  /** The statements of `s` that touch the current tables, all done against `t`. */
  predicate OverlayDone(t: Tables, wr: Writer) {
    var s := wr.snapshot;
    if IsStale(UpsertCurrent(t.current, s), s) then wr.deleted == {} && wr.written == map[]
    else
      && wr.deleted == Departed(t.databaseCurrent, s)
      && Upserted(t.databaseCurrent - wr.deleted, s, s.database, map[]) == Some(wr.written)
  }

  /** A writer's overlay is what its statements so far would have done to the tables committed now. */
  predicate WriterOk(t: Tables, wr: Writer) {
    var s := wr.snapshot;
    && (wr.header == if HoldsLock(wr) && AcceptsCurrent(t.current, s) then Some(CurrentRowOf(s)) else None)
    && (wr.children == if wr.phase == Flushed then DatabaseSnapshotRowsOf(wr.id, s.database) else [])
    && match wr.phase
       case Ready => OverlayDone(t, wr)
       case Flushed => OverlayDone(t, wr)
       case FoundFresh => !IsStale(UpsertCurrent(t.current, s), s) && wr.deleted == {} && wr.written == map[]
       case DepartedDeleted =>
         && !IsStale(UpsertCurrent(t.current, s), s)
         && wr.deleted == Departed(t.databaseCurrent, s) && wr.written == map[]
       case Failed =>
         && !IsStale(UpsertCurrent(t.current, s), s)
         && Upserted(t.databaseCurrent - Departed(t.databaseCurrent, s), s, s.database, map[]).None?
       case _ => wr.deleted == {} && wr.written == map[]
  }

  ghost predicate Locking(st: State) {
    && (forall w :: w in st.writers && HoldsLock(st.writers[w]) ==>
          st.writers[w].snapshot.dbIdentifier in st.locks && st.locks[st.writers[w].snapshot.dbIdentifier] == w)
    && (forall d :: d in st.locks ==>
          st.locks[d] in st.writers && HoldsLock(st.writers[st.locks[d]])
          && st.writers[st.locks[d]].snapshot.dbIdentifier == d)
  }

  ghost predicate Ids(st: State) {
    && DistinctIds(st.log)
    && (forall i :: 0 <= i < |st.log| ==> st.log[i].id < st.nextId)
    && (forall w :: w in st.writers && HasId(st.writers[w]) ==>
          st.writers[w].id < st.nextId && forall i :: 0 <= i < |st.log| ==> st.log[i].id != st.writers[w].id)
    && (forall w, v :: w in st.writers && v in st.writers && w != v && HasId(st.writers[w]) && HasId(st.writers[v]) ==>
          st.writers[w].id != st.writers[v].id)
  }

  ghost predicate Inv(st: State) {
    && Replay(st.log) == Some(st.tables)
    && Locking(st) && Ids(st)
    && (forall w :: w in st.writers ==> WriterOk(st.tables, st.writers[w]))
  }

  /** Two committed states that look the same to a writer of `d`. */
  ghost predicate Agree(t: Tables, u: Tables, d: string) {
    && (d in t.current <==> d in u.current) && (d in t.current ==> t.current[d] == u.current[d])
    && SameRows(t.databaseCurrent, u.databaseCurrent, d)
  }

  ghost predicate SameRows(a: DatabaseRows, b: DatabaseRows, d: string) {
    forall k: DatabaseKey :: k.dbIdentifier == d ==> ((k in a <==> k in b) && (k in a ==> a[k] == b[k]))
  }

  lemma {:induction false} UpsertedIsLocal(a: DatabaseRows, b: DatabaseRows, s: RuntimeSnapshot, metrics: seq<DatabaseMetric>, done: DatabaseRows)
    requires SameRows(a, b, s.dbIdentifier)
    ensures Upserted(a, s, metrics, done) == Upserted(b, s, metrics, done)
  {
    if metrics != [] {
      var key := DatabaseKey(s.dbIdentifier, metrics[0].datname);
      UpsertedIsLocal(a, b, s, metrics[1..], done);
      UpsertedIsLocal(a, b, s, metrics[1..], done[key := DatabaseCurrentRow(s.capturedAt, metrics[0].stats)]);
    }
  }

  lemma {:induction false} UpsertedKeys(rows: DatabaseRows, s: RuntimeSnapshot, metrics: seq<DatabaseMetric>, done: DatabaseRows)
    requires forall k :: k in done ==> k.dbIdentifier == s.dbIdentifier
    ensures Upserted(rows, s, metrics, done).Some? ==>
              forall k :: k in Upserted(rows, s, metrics, done).value ==> k.dbIdentifier == s.dbIdentifier
  {
    if metrics != [] {
      var key := DatabaseKey(s.dbIdentifier, metrics[0].datname);
      UpsertedKeys(rows, s, metrics[1..], done);
      UpsertedKeys(rows, s, metrics[1..], done[key := DatabaseCurrentRow(s.capturedAt, metrics[0].stats)]);
    }
  }

  /** Nothing another identifier's commit does can disturb a writer. */
  lemma {:induction false} WriterIsLocal(t: Tables, u: Tables, wr: Writer)
    requires WriterOk(t, wr) && Agree(t, u, wr.snapshot.dbIdentifier)
    ensures WriterOk(u, wr)
  {
    var s := wr.snapshot;
    assert Departed(t.databaseCurrent, s) == Departed(u.databaseCurrent, s);
    UpsertedIsLocal(t.databaseCurrent - wr.deleted, u.databaseCurrent - wr.deleted, s, s.database, map[]);
    UpsertedIsLocal(t.databaseCurrent - Departed(t.databaseCurrent, s), u.databaseCurrent - Departed(u.databaseCurrent, s),
                    s, s.database, map[]);
  }

  /** Merging a finished overlay is one serial application of the snapshot. */
  lemma {:induction false} CommitIsApply(t: Tables, wr: Writer)
    requires WriterOk(t, wr) && wr.phase == Flushed
    ensures ApplySnapshot(t, wr.id, wr.snapshot) == Some(Visible(t, wr))
  {
    var s := wr.snapshot;
    assert t.databaseCurrent - {} + map[] == t.databaseCurrent;
    assert Visible(t, wr).current == UpsertCurrent(t.current, s);
  }

  lemma {:induction false} CommitIsLocal(t: Tables, wr: Writer, d: string)
    requires WriterOk(t, wr) && wr.phase == Flushed && d != wr.snapshot.dbIdentifier
    ensures Agree(t, Visible(t, wr), d)
  {
    UpsertedKeys(t.databaseCurrent - wr.deleted, wr.snapshot, wr.snapshot.database, map[]);
  }

  lemma {:induction false} StatementKeepsWriter(t: Tables, nextId: int, wr: Writer)
    requires WriterOk(t, wr)
    ensures WriterOk(t, Execute(t, nextId, wr))
    ensures Execute(t, nextId, wr).snapshot == wr.snapshot
    ensures wr.phase != Opened ==> Execute(t, nextId, wr).id == wr.id
  {
    var s := wr.snapshot;
    assert t.databaseCurrent - {} + map[] == t.databaseCurrent;
    if wr.phase == HeaderUpserted || wr.phase == FoundFresh {
      assert Visible(t, wr).current == UpsertCurrent(t.current, s);
      assert Visible(t, wr).databaseCurrent == t.databaseCurrent;
    }
    if wr.phase == FoundFresh {
      assert {} + Departed(t.databaseCurrent, s) == Departed(t.databaseCurrent, s);
      assert wr.written - Departed(t.databaseCurrent, s) == map[];
    }
    if wr.phase == DepartedDeleted {
      assert Visible(t, wr).databaseCurrent == t.databaseCurrent - wr.deleted;
      match Upserted(t.databaseCurrent - wr.deleted, s, s.database, map[])
      case None =>
      case Some(rows) => assert map[] + rows == rows;
    }
  }

  lemma {:induction false} ExecuteBasics(t: Tables, nextId: int, wr: Writer)
    ensures var wr' := Execute(t, nextId, wr);
            && wr'.snapshot == wr.snapshot
            && wr'.id == (if wr.phase == Opened then nextId else wr.id)
            && (HoldsLock(wr') <==> HoldsLock(wr) || wr.phase == SnapshotInserted)
            && (wr.phase != Flushed && wr.phase != Failed ==> HasId(wr'))
  {
  }

  lemma {:induction false} StepKeepsLocking(st: State, e: Event)
    requires Locking(st)
    ensures Locking(Step(st, e))
  {
    if Enabled(st, e) && e.Statement? {
      ExecuteBasics(st.tables, st.nextId, st.writers[e.w]);
    }
  }

  lemma {:induction false} StatementKeepsIds(st: State, w: nat)
    requires Ids(st) && Enabled(st, Statement(w))
    ensures Ids(Step(st, Statement(w)))
  {
    ExecuteBasics(st.tables, st.nextId, st.writers[w]);
  }

  lemma {:induction false} CommitKeepsIds(st: State, w: nat)
    requires Ids(st) && Enabled(st, Commit(w))
    ensures Ids(Step(st, Commit(w)))
  {
    assert HasId(st.writers[w]);
  }

  lemma {:induction false} StepKeepsIds(st: State, e: Event)
    requires Ids(st)
    ensures Ids(Step(st, e))
  {
    if Enabled(st, e) && e.Statement? {
      StatementKeepsIds(st, e.w);
    } else if Enabled(st, e) && e.Commit? {
      CommitKeepsIds(st, e.w);
    }
  }

  lemma {:induction false} CommitKeepsWriters(st: State, w: nat)
    requires Inv(st) && Enabled(st, Commit(w))
    ensures forall v :: v in st.writers && v != w ==> WriterOk(Visible(st.tables, st.writers[w]), st.writers[v])
  {
    var wr := st.writers[w];
    forall v | v in st.writers && v != w ensures WriterOk(Visible(st.tables, wr), st.writers[v]) {
      var other := st.writers[v];
      if other.snapshot.dbIdentifier != wr.snapshot.dbIdentifier {
        CommitIsLocal(st.tables, wr, other.snapshot.dbIdentifier);
        WriterIsLocal(st.tables, Visible(st.tables, wr), other);
      } else {
        assert !HoldsLock(other);
      }
    }
  }

  lemma {:induction false} StatementKeepsInv(st: State, w: nat)
    requires Inv(st) && Enabled(st, Statement(w))
    ensures Inv(Step(st, Statement(w)))
  {
    StepKeepsLocking(st, Statement(w));
    StepKeepsIds(st, Statement(w));
    StatementKeepsWriter(st.tables, st.nextId, st.writers[w]);
  }

  lemma {:induction false} CommitKeepsInv(st: State, w: nat)
    requires Inv(st) && Enabled(st, Commit(w))
    ensures Inv(Step(st, Commit(w)))
  {
    StepKeepsLocking(st, Commit(w));
    StepKeepsIds(st, Commit(w));
    CommitKeepsWriters(st, w);
    CommitIsApply(st.tables, st.writers[w]);
    ReplayAppend(st.log, Entry(st.writers[w].id, st.writers[w].snapshot));
  }

  lemma {:induction false} BeginKeepsInv(st: State, w: nat, s: RuntimeSnapshot)
    requires Inv(st)
    ensures Inv(Step(st, Begin(w, s)))
  {
    StepKeepsLocking(st, Begin(w, s));
    StepKeepsIds(st, Begin(w, s));
  }

  lemma {:induction false} RollbackKeepsInv(st: State, w: nat)
    requires Inv(st)
    ensures Inv(Step(st, Rollback(w)))
  {
    StepKeepsLocking(st, Rollback(w));
    StepKeepsIds(st, Rollback(w));
  }

  lemma {:induction false} StepKeepsInv(st: State, e: Event)
    requires Inv(st)
    ensures Inv(Step(st, e))
  {
    if Enabled(st, e) {
      match e
      case Begin(w, s) => BeginKeepsInv(st, w, s);
      case Statement(w) => StatementKeepsInv(st, w);
      case Commit(w) => CommitKeepsInv(st, w);
      case Rollback(w) => RollbackKeepsInv(st, w);
    }
  }

  lemma {:induction false} RunKeepsInv(events: seq<Event>)
    ensures Inv(Run(events))
  {
    if events == [] {
    } else {
      RunKeepsInv(events[..|events| - 1]);
      StepKeepsInv(Run(events[..|events| - 1]), events[|events| - 1]);
    }
  }

  // ----- Consequences for every interleaving

  /**
    Under every interleaving of any number of writers, rolled back anywhere, the committed tables are the
    serial application of the committed snapshots in commit order: the current tables are the view of that
    log and the history tables read back as it.
   */
  lemma {:induction false} InterleavingsSerialise(events: seq<Event>)
    ensures var st := Run(events);
            && Replay(st.log) == Some(st.tables)
            && View(st.tables, Snapshots(st.log))
            && Records(st.tables, st.log)
  {
    RunKeepsInv(events);
    ReplayIsView(Run(events).log);
    ReplayRecords(Run(events).log);
  }

  /** Only a commit changes what is committed, and it adds exactly its own snapshot to the log. */
  lemma {:induction false} OnlyCommitsShow(st: State, e: Event)
    requires Inv(st)
    ensures var st' := Step(st, e);
            if e.Commit? && Enabled(st, e) then
              && st'.log == st.log + [Entry(st.writers[e.w].id, st.writers[e.w].snapshot)]
              && ApplySnapshot(st.tables, st.writers[e.w].id, st.writers[e.w].snapshot) == Some(st'.tables)
            else st'.tables == st.tables && st'.log == st.log
  {
    if e.Commit? && Enabled(st, e) {
      CommitIsApply(st.tables, st.writers[e.w]);
    }
  }

  lemma {:induction false} NoneNewerIsVisible(t: Tables, log: seq<RuntimeSnapshot>, wr: Writer)
    requires View(t, log) && WriterOk(t, wr) && wr.phase == DepartedDeleted
    ensures NoneNewer(Visible(t, wr).databaseCurrent, wr.snapshot)
  {
    assert !IsStale(t.current, wr.snapshot);
    ViewMeansNoneNewer(t, log, wr.snapshot);
  }

  /**
    Wherever the per-database upsert is reached, no row it meets is newer, so its row guard turns nothing
    down: it fails exactly on a repeated database name and otherwise writes every row of the snapshot.
   */
  lemma {:induction false} RowGuardNeverRejects(events: seq<Event>, w: nat)
    requires w in Run(events).writers && Run(events).writers[w].phase == DepartedDeleted
    ensures var wr := Run(events).writers[w];
            var rows := Visible(Run(events).tables, wr).databaseCurrent;
            && NoneNewer(rows, wr.snapshot)
            && Upserted(rows, wr.snapshot, wr.snapshot.database, map[]) ==
                 if DistinctNames(wr.snapshot.database) then Some(RowsOf(wr.snapshot, wr.snapshot.database)) else None
  {
    RunKeepsInv(events);
    ReplayIsView(Run(events).log);
    NoneNewerIsVisible(Run(events).tables, Snapshots(Run(events).log), Run(events).writers[w]);
    UpsertReplaces(Visible(Run(events).tables, Run(events).writers[w]).databaseCurrent,
                   Run(events).writers[w].snapshot, Run(events).writers[w].snapshot.database);
  }

  predicate CanMove(st: State, w: nat) {
    w in st.writers && (Enabled(st, Statement(w)) || Enabled(st, Commit(w)) || st.writers[w].phase == Failed)
  }

  lemma {:induction false} WaitsForMover(st: State, w: nat)
    requires Locking(st) && w in st.writers && !CanMove(st, w)
    ensures st.writers[w].snapshot.dbIdentifier in st.locks
    ensures CanMove(st, st.locks[st.writers[w].snapshot.dbIdentifier])
  {
  }

  /** Writers never wait for each other in a circle: some unfinished writer can always move on. */
  lemma {:induction false} SomeWriterCanMove(events: seq<Event>, w: nat)
    requires w in Run(events).writers
    ensures var st := Run(events);
            CanMove(st, w) || exists v :: v in st.locks.Values && CanMove(st, v)
  {
    RunKeepsInv(events);
    var st := Run(events);
    if !CanMove(st, w) {
      WaitsForMover(st, w);
    }
  }

  /** Per identifier the current capture time never goes back along a run. */
  lemma {:induction false} CurrentNeverGoesBack(events: seq<Event>, e: Event, d: string)
    requires d in Run(events).tables.current
    ensures var after := Run(events + [e]).tables;
            d in after.current && Run(events).tables.current[d].capturedAt <= after.current[d].capturedAt
  {
    var st := Run(events);
    assert (events + [e])[..|events|] == events;
    RunKeepsInv(events);
    OnlyCommitsShow(st, e);
    if e.Commit? && Enabled(st, e) {
      WriteNeverGoesBack(st.tables, st.writers[e.w].id, st.writers[e.w].snapshot, d);
    }
  }

  // ----- When a write fails, and that it finishes

  lemma {:induction false} FailedIsRefused(t: Tables, wr: Writer)
    requires WriterOk(t, wr) && wr.phase == Failed
    ensures ApplySnapshot(t, wr.id, wr.snapshot).None?
  {
  }

  /** A writer that failed would fail serially now, and one that is done would be applied serially now. */
  lemma {:induction false} OutcomesAreSerial(events: seq<Event>, w: nat)
    requires w in Run(events).writers
    ensures var st := Run(events);
            var serial := ApplySnapshot(st.tables, st.writers[w].id, st.writers[w].snapshot);
            && (st.writers[w].phase == Failed ==> serial.None?)
            && (st.writers[w].phase == Flushed ==> serial.Some?)
  {
    var st := Run(events);
    RunKeepsInv(events);
    assert WriterOk(st.tables, st.writers[w]);
    if st.writers[w].phase == Failed {
      FailedIsRefused(st.tables, st.writers[w]);
    }
    if st.writers[w].phase == Flushed {
      CommitIsApply(st.tables, st.writers[w]);
    }
  }

  /** How many statements a writer has left at most. */
  function Remaining(p: Phase): nat {
    match p
    case Opened => 6
    case SnapshotInserted => 5
    case HeaderUpserted => 4
    case FoundFresh => 3
    case DepartedDeleted => 2
    case Ready => 1
    case _ => 0
  }

  lemma {:induction false} StatementAdvances(t: Tables, nextId: int, wr: Writer)
    requires Remaining(wr.phase) > 0
    ensures Remaining(Execute(t, nextId, wr).phase) < Remaining(wr.phase)
  {
  }

  function Statements(w: nat, n: nat): seq<Event> {
    if n == 0 then [] else Statements(w, n - 1) + [Statement(w)]
  }

  function RunFrom(st: State, events: seq<Event>): State {
    if events == [] then st else Step(RunFrom(st, events[..|events| - 1]), events[|events| - 1])
  }

  lemma {:induction false} RunConcat(a: seq<Event>, b: seq<Event>)
    ensures Run(a + b) == RunFrom(Run(a), b)
  {
    if b == [] {
      assert a + b == a;
    } else {
      var n := |b| - 1;
      assert (a + b)[..|a + b| - 1] == a + b[..n];
      RunConcat(a, b[..n]);
    }
  }

  lemma {:induction false} RunFromConcat(st: State, a: seq<Event>, b: seq<Event>)
    ensures RunFrom(st, a + b) == RunFrom(RunFrom(st, a), b)
  {
    if b == [] {
      assert a + b == a;
    } else {
      var n := |b| - 1;
      assert (a + b)[..|a + b| - 1] == a + b[..n];
      RunFromConcat(st, a, b[..n]);
    }
  }

  /** Only `w` has moved since `st`, and it has at most `left` statements to go. */
  ghost predicate Alone(st: State, now: State, w: nat, s: RuntimeSnapshot, left: nat) {
    Inv(now) && OnTheWay(st, now, w, s, left)
  }

  predicate OnTheWay(st: State, now: State, w: nat, s: RuntimeSnapshot, left: nat) {
    && now.tables == st.tables && now.log == st.log
    && w in now.writers && now.writers[w].snapshot == s && Remaining(now.writers[w].phase) <= left
    && (HasId(now.writers[w]) ==> now.writers[w].id == st.nextId)
    && (!HasId(now.writers[w]) ==> now.nextId == st.nextId)
    && (!HoldsLock(now.writers[w]) ==> s.dbIdentifier !in now.locks)
  }

  lemma {:induction false} OneMoreOnTheWay(st: State, now: State, w: nat, s: RuntimeSnapshot, left: nat)
    requires OnTheWay(st, now, w, s, left) && left > 0
    ensures OnTheWay(st, Step(now, Statement(w)), w, s, left - 1)
  {
    if Enabled(now, Statement(w)) {
      StatementAdvances(now.tables, now.nextId, now.writers[w]);
      ExecuteBasics(now.tables, now.nextId, now.writers[w]);
    }
  }

  lemma {:induction false} OneMoreAlone(st: State, now: State, w: nat, s: RuntimeSnapshot, left: nat)
    requires Alone(st, now, w, s, left) && left > 0
    ensures Alone(st, Step(now, Statement(w)), w, s, left - 1)
  {
    StepKeepsInv(now, Statement(w));
    OneMoreOnTheWay(st, now, w, s, left);
  }

  lemma {:induction false} StatementsAlone(st: State, now: State, w: nat, s: RuntimeSnapshot) returns (later: State)
    requires Alone(st, now, w, s, 6)
    ensures later == RunFrom(now, Statements(w, 6)) && Alone(st, later, w, s, 0)
  {
    later := now;
    for i := 0 to 6
      invariant later == RunFrom(now, Statements(w, i)) && Alone(st, later, w, s, 6 - i)
    {
      OneMoreAlone(st, later, w, s, 6 - i);
      LastStatement(now, w, i + 1);
      later := Step(later, Statement(w));
    }
  }

  lemma {:induction false} LastStatement(now: State, w: nat, n: nat)
    requires n > 0
    ensures RunFrom(now, Statements(w, n)) == Step(RunFrom(now, Statements(w, n - 1)), Statement(w))
  {
    var events := Statements(w, n);
    assert events[..|events| - 1] == Statements(w, n - 1);
  }

  /** A whole write with nothing in between. */
  function Whole(w: nat, s: RuntimeSnapshot): seq<Event> {
    [Begin(w, s)] + Statements(w, 6) + [Commit(w)]
  }

  lemma {:induction false} CommitAlone(st: State, now: State, w: nat, s: RuntimeSnapshot)
    requires Alone(st, now, w, s, 0)
    ensures Step(now, Commit(w)).log ==
            st.log + if ApplySnapshot(st.tables, st.nextId, s).Some? then [Entry(st.nextId, s)] else []
  {
    if now.writers[w].phase == Failed {
      FailedIsRefused(now.tables, now.writers[w]);
    } else {
      CommitIsApply(now.tables, now.writers[w]);
    }
  }

  /**
    After any run, whatever other writers are doing, a new writer of an identifier nobody has locked that runs
    undisturbed commits exactly its own snapshot if the committed tables accept it, and nothing if they do not.
   */
  lemma {:induction false} WritersFinish(events: seq<Event>, w: nat, s: RuntimeSnapshot)
    requires w !in Run(events).writers && s.dbIdentifier !in Run(events).locks
    ensures var st := Run(events);
            Run(events + Whole(w, s)).log ==
              st.log + if ApplySnapshot(st.tables, st.nextId, s).Some? then [Entry(st.nextId, s)] else []
  {
    var st := Run(events);
    var begun := Step(st, Begin(w, s));
    RunKeepsInv(events);
    StepKeepsInv(st, Begin(w, s));
    var done := StatementsAlone(st, begun, w, s);
    CommitAlone(st, done, w, s);
    WholeRun(events, w, s);
  }

  lemma {:induction false} WholeRun(events: seq<Event>, w: nat, s: RuntimeSnapshot)
    ensures Run(events + Whole(w, s)) ==
            Step(RunFrom(Step(Run(events), Begin(w, s)), Statements(w, 6)), Commit(w))
  {
    var begin, middle := [Begin(w, s)], Statements(w, 6);
    RunConcat(events, Whole(w, s));
    assert Whole(w, s)[..|Whole(w, s)| - 1] == begin + middle;
    RunFromConcat(Run(events), begin, middle);
    assert begin[..0] == [];
  }

  /** So a snapshot that is late or repeats no database name is always stored. */
  lemma {:induction false} SoundWritesAreStored(events: seq<Event>, w: nat, s: RuntimeSnapshot)
    requires w !in Run(events).writers && s.dbIdentifier !in Run(events).locks
    ensures Run(events + Whole(w, s)).log == Run(events).log + [Entry(Run(events).nextId, s)] <==>
            DistinctNames(s.database) || IsStale(Run(events).tables.current, s)
  {
    var st := Run(events);
    WritersFinish(events, w, s);
    RunKeepsInv(events);
    ReplayIsView(st.log);
    WriteFailsExactly(st.tables, Snapshots(st.log), st.nextId, s);
  }
}
