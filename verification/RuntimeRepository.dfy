/** The repository of runtime snapshots: the write, statement by statement, and the readers of the current tables. */
module RuntimeRepository {
  import opened Wrappers
  import opened Sorting
  import opened Text
  import opened Models
  import opened RuntimeTables
  import opened RuntimeStates
  import opened Storage

  // ----- What a write comes to

  /** The calls a snapshot write makes, when none raises. */
  function WriteCalls(t: Tables, s: RuntimeSnapshot): seq<Call> {
    [FlushSnapshot, UpsertHeader, SelectCurrentTime]
    + (if IsStale(UpsertCurrent(t.current, s), s) then []
       else [DeleteDatabases] + if s.database == [] then [] else [UpsertDatabases])
    + [FlushDatabases]
  }

  function FirstFault(calls: seq<Call>, faults: map<Call, Exception>): Option<Exception> {
    if calls == [] then None
    else if calls[0] in faults then Some(faults[calls[0]])
    else FirstFault(calls[1..], faults)
  }

  /** The exception a snapshot write ends with: the first call that raises, a repeated name counting as one. */
  function WriteFault(t: Tables, s: RuntimeSnapshot, env: Environment): Option<Exception> {
    var own := if ApplySnapshot(t, 0, s).None? then map[UpsertDatabases := SqlAlchemyError] else map[];
    match FirstFault(WriteCalls(t, s), own + env.faults)
    case None => None
    case Some(e) => Some(Wrap(e, StorageWriteError))
  }

  lemma {:induction false} FirstFaultConcat(a: seq<Call>, b: seq<Call>, faults: map<Call, Exception>)
    ensures FirstFault(a + b, faults) == if FirstFault(a, faults).Some? then FirstFault(a, faults) else FirstFault(b, faults)
  {
    if a == [] {
      assert a + b == b;
    } else {
      assert a + b == [a[0]] + (a[1..] + b);
      FirstFaultConcat(a[1..], b, faults);
    }
  }

  lemma {:induction false} FirstFaultOne(c: Call, faults: map<Call, Exception>)
    ensures FirstFault([c], faults) == if c in faults then Some(faults[c]) else None
  {
    assert FirstFault([c][1..], faults) == None;
  }

  lemma {:induction false} FirstFaultTwo(a: Call, b: Call, faults: map<Call, Exception>)
    ensures FirstFault([a, b], faults) == if a in faults then Some(faults[a]) else if b in faults then Some(faults[b]) else None
  {
    assert [a, b] == [a] + [b];
    FirstFaultConcat([a], [b], faults);
    FirstFaultOne(a, faults);
    FirstFaultOne(b, faults);
  }

  /** The same exception, call by call. */
  lemma {:induction false} WriteFaultUnfolds(t: Tables, s: RuntimeSnapshot, env: Environment)
    ensures var t2 := t.(current := UpsertCurrent(t.current, s));
            var kept := t.databaseCurrent - Departed(t.databaseCurrent, s);
            var raised :=
              if FlushSnapshot in env.faults then env.Fault(FlushSnapshot)
              else if UpsertHeader in env.faults then env.Fault(UpsertHeader)
              else if SelectCurrentTime in env.faults then env.Fault(SelectCurrentTime)
              else if IsStale(t2.current, s) then env.Fault(FlushDatabases)
              else if DeleteDatabases in env.faults then env.Fault(DeleteDatabases)
              else if s.database == [] then env.Fault(FlushDatabases)
              else if UpsertDatabases in env.faults then env.Fault(UpsertDatabases)
              else if Upserted(kept, s, s.database, map[]).None? then Some(SqlAlchemyError)
              else env.Fault(FlushDatabases);
            WriteFault(t, s, env) == if raised.Some? then Some(Wrap(raised.value, StorageWriteError)) else None
  {
    var stale := IsStale(UpsertCurrent(t.current, s), s);
    var own := if ApplySnapshot(t, 0, s).None? then map[UpsertDatabases := SqlAlchemyError] else map[];
    var faults := own + env.faults;
    var head, tail := [FlushSnapshot, UpsertHeader, SelectCurrentTime], [FlushDatabases];
    var mid: seq<Call> := if stale then [] else [DeleteDatabases] + if s.database == [] then [] else [UpsertDatabases];
    assert WriteCalls(t, s) == head + mid + tail;
    FirstFaultConcat(head + mid, tail, faults);
    FirstFaultConcat(head, mid, faults);
    FirstFaultOne(FlushSnapshot, faults);
    assert head == [FlushSnapshot] + [UpsertHeader, SelectCurrentTime];
    FirstFaultConcat([FlushSnapshot], [UpsertHeader, SelectCurrentTime], faults);
    FirstFaultTwo(UpsertHeader, SelectCurrentTime, faults);
    FirstFaultOne(FlushDatabases, faults);
    if !stale {
      FirstFaultOne(DeleteDatabases, faults);
      FirstFaultTwo(DeleteDatabases, UpsertDatabases, faults);
      assert mid == [DeleteDatabases] || mid == [DeleteDatabases, UpsertDatabases];
    }
  }

  /** A write succeeds exactly when the tables accept the snapshot and none of the calls it comes to raises. */
  lemma {:induction false} WriteSucceedsExactly(t: Tables, s: RuntimeSnapshot, env: Environment, id: int)
    ensures var late := s.dbIdentifier in t.current && t.current[s.dbIdentifier].capturedAt > s.capturedAt;
            WriteFault(t, s, env).None? <==>
              && ApplySnapshot(t, id, s).Some?
              && FlushSnapshot !in env.faults && UpsertHeader !in env.faults && SelectCurrentTime !in env.faults
              && FlushDatabases !in env.faults
              && (!late ==> DeleteDatabases !in env.faults && (s.database != [] ==> UpsertDatabases !in env.faults))
  {
    WriteFaultUnfolds(t, s, env);
    assert t.databaseCurrent - {} == t.databaseCurrent;
  }

  /** If calls raise only database errors, a failing write raises the storage write error. */
  lemma {:induction false} WriteErrorsAreWrapped(t: Tables, s: RuntimeSnapshot, env: Environment)
    requires forall c :: c in env.faults ==> env.faults[c] == SqlAlchemyError
    ensures WriteFault(t, s, env).Some? ==> WriteFault(t, s, env) == Some(StorageWriteError)
  {
    WriteFaultUnfolds(t, s, env);
  }

  /** A write that raises nothing is one the tables accept, under any id. */
  lemma {:induction false} WriteAccepts(t: Tables, s: RuntimeSnapshot, env: Environment, id: int)
    ensures WriteFault(t, s, env).None? ==> ApplySnapshot(t, id, s).Some?
  {
    WriteFaultUnfolds(t, s, env);
  }

  class RuntimeSnapshotRepository {
    const session: Session

    constructor (session: Session)
      ensures this.session == session
    {
      this.session := session;
    }

    method UpsertRuntimeCurrent(s: RuntimeSnapshot, env: Environment) returns (raised: Option<Exception>)
      modifies session`store
      ensures raised == env.Fault(UpsertHeader)
      ensures raised.None? ==>
                session.store == old(session.store).(runtime :=
                  old(session.store).runtime.(current := UpsertCurrent(old(session.store).runtime.current, s)))
      ensures raised.Some? ==> session.store == old(session.store)
    {
      if UpsertHeader in env.faults {
        return Some(env.faults[UpsertHeader]);
      }
      var t := session.store.runtime;
      session.store := session.store.(runtime := t.(current := UpsertCurrent(t.current, s)));
      return None;
    }

    method UpsertRuntimeDatabaseCurrent(s: RuntimeSnapshot, env: Environment) returns (raised: Option<Exception>)
      modifies session`store
      ensures var t := old(session.store).runtime;
              var kept := t.databaseCurrent - Departed(t.databaseCurrent, s);
              var written := Upserted(kept, s, s.database, map[]);
              raised == if SelectCurrentTime in env.faults then env.Fault(SelectCurrentTime)
                        else if IsStale(t.current, s) then None
                        else if DeleteDatabases in env.faults then env.Fault(DeleteDatabases)
                        else if s.database == [] then None
                        else if UpsertDatabases in env.faults then env.Fault(UpsertDatabases)
                        else if written.None? then Some(SqlAlchemyError) else None
      ensures raised.None? ==>
                var t := old(session.store).runtime;
                var kept := t.databaseCurrent - Departed(t.databaseCurrent, s);
                && (!IsStale(t.current, s) ==> Upserted(kept, s, s.database, map[]).Some?)
                && session.store == if IsStale(t.current, s) then old(session.store) else
                     old(session.store).(runtime :=
                       t.(databaseCurrent := kept + Upserted(kept, s, s.database, map[]).value))
    {
      if SelectCurrentTime in env.faults {
        return Some(env.faults[SelectCurrentTime]);
      }
      var t := session.store.runtime;
      var latest := if s.dbIdentifier in t.current then Some(t.current[s.dbIdentifier].capturedAt) else None;
      if latest.Some? && latest.value > s.capturedAt {
        return None;
      }
      if DeleteDatabases in env.faults {
        return Some(env.faults[DeleteDatabases]);
      }
      var kept := t.databaseCurrent - Departed(t.databaseCurrent, s);
      session.store := session.store.(runtime := t.(databaseCurrent := kept));
      if s.database == [] {
        assert kept + map[] == kept;
        return None;
      }
      if UpsertDatabases in env.faults {
        return Some(env.faults[UpsertDatabases]);
      }
      var written := Upserted(kept, s, s.database, map[]);
      if written.None? {
        return Some(SqlAlchemyError);
      }
      session.store := session.store.(runtime := t.(databaseCurrent := kept + written.value));
      return None;
    }

    /** One snapshot write inside the session's transaction: all of it, or the first exception met. */
    method WriteRuntimeSnapshot(s: RuntimeSnapshot, env: Environment) returns (r: Result<nat, Exception>)
      requires session.NothingPending()
      modifies session, session.db`nextSnapshotId
      ensures session.db.nextSnapshotId == old(session.db.nextSnapshotId) + if FlushSnapshot in env.faults then 0 else 1
      ensures match WriteFault(old(session.store).runtime, s, env)
              case Some(e) => r == Failure(e)
              case None =>
                && r == Success(1 + |s.database|) && session.NothingPending()
                && session.store.queries == old(session.store).queries
                && Some(session.store.runtime) ==
                     ApplySnapshot(old(session.store).runtime, old(session.db.nextSnapshotId), s)
    {
      ghost var t0, id0 := session.store.runtime, session.db.nextSnapshotId;
      WriteFaultUnfolds(t0, s, env);
      session.pendingSnapshot := Some(s);
      var raised := session.Flush(FlushSnapshot, env);
      if raised.Some? {
        return Failure(Wrap(raised.value, StorageWriteError));
      }
      ghost var t1 := session.store.runtime;
      assert t1 == InsertSnapshot(t0, id0, s);
      session.pendingDatabases := DatabaseSnapshotRowsOf(session.flushedId, s.database);
      raised := UpsertRuntimeCurrent(s, env);
      if raised.Some? {
        return Failure(Wrap(raised.value, StorageWriteError));
      }
      raised := UpsertRuntimeDatabaseCurrent(s, env);
      if raised.Some? {
        return Failure(Wrap(raised.value, StorageWriteError));
      }
      raised := session.Flush(FlushDatabases, env);
      if raised.Some? {
        return Failure(Wrap(raised.value, StorageWriteError));
      }
      return Success(1 + |s.database|);
    }

    /** The grouping loop never meets a row of an identifier it has no group for. */
    method LoadRuntimeStates(dbIdentifier: Option<string>, env: Environment) returns (r: Result<seq<RuntimeState>, Exception>)
      ensures match LoadFault(session.store.runtime, dbIdentifier, env)
              case Some(e) => r == Failure(e)
              case None => r.Success? && ListsStates(session.store.runtime, dbIdentifier, r.value)
    {
      TextOrders();
      if SelectCurrent in env.faults {
        return Failure(Wrap(env.faults[SelectCurrent], StorageReadError));
      }
      var t := session.store.runtime;
      var identifiers := Arrange(TextLe, set d | d in t.current && Wanted(d, dbIdentifier));
      if identifiers == [] {
        assert forall d :: d in t.current && Wanted(d, dbIdentifier) ==> d in identifiers;
        return Success([]);
      }
      assert identifiers[0] in identifiers && Wanted(identifiers[0], dbIdentifier);
      if SelectDatabases in env.faults {
        return Failure(Wrap(env.faults[SelectDatabases], StorageReadError));
      }
      var grouped := GroupDatabases(t, identifiers);
      assert Groups(t, identifiers, grouped) && Selects(t, dbIdentifier, identifiers) by {
        assert forall i :: 0 <= i < |identifiers| ==> identifiers[i] in identifiers;
      }
      StatesAreListed(t, dbIdentifier, identifiers, grouped);
      return Success(StatesOf(t, identifiers, grouped));
    }

    method ListRuntimeCurrent(env: Environment) returns (r: Result<seq<RuntimeState>, Exception>)
      ensures match LoadFault(session.store.runtime, None, env)
              case Some(e) => r == Failure(e)
              case None => r.Success? && ListsStates(session.store.runtime, None, r.value)
    {
      r := LoadRuntimeStates(None, env);
    }

    method GetRuntimeCurrent(dbIdentifier: string, env: Environment) returns (r: Result<Option<RuntimeState>, Exception>)
      ensures match LoadFault(session.store.runtime, Some(dbIdentifier), env)
              case Some(e) => r == Failure(e)
              case None =>
                && r.Success? && (r.value.None? <==> dbIdentifier !in session.store.runtime.current)
                && (r.value.Some? ==> r.value.value.dbIdentifier == dbIdentifier && IsStateOf(session.store.runtime, r.value.value))
    {
      var states := LoadRuntimeStates(Some(dbIdentifier), env);
      if states.Failure? {
        return Failure(states.error);
      }
      return Success(if states.value == [] then None else Some(states.value[0]));
    }
  }

  /** The second select is made only if the first finds a row. */
  function LoadFault(t: Tables, only: Option<string>, env: Environment): Option<Exception> {
    if SelectCurrent in env.faults then Some(Wrap(env.faults[SelectCurrent], StorageReadError))
    else if SelectDatabases in env.faults && exists d :: d in t.current && Wanted(d, only) then
      Some(Wrap(env.faults[SelectDatabases], StorageReadError))
    else None
  }

  /** The readers raise only when a select does, and then that error, a database error as a read error. */
  lemma {:induction false} LoadFaultIsSelect(t: Tables, only: Option<string>, env: Environment)
    ensures SelectCurrent !in env.faults && SelectDatabases !in env.faults ==> LoadFault(t, only, env) == None
    ensures SelectCurrent in env.faults ==>
              LoadFault(t, only, env) ==
                Some(if env.faults[SelectCurrent] == SqlAlchemyError then StorageReadError else env.faults[SelectCurrent])
    ensures SelectCurrent !in env.faults && SelectDatabases in env.faults ==>
              LoadFault(t, only, env) ==
                if (if only.Some? then only.value in t.current else exists d :: d in t.current) then
                  Some(if env.faults[SelectDatabases] == SqlAlchemyError then StorageReadError else env.faults[SelectDatabases])
                else None
  {
  }

  /** Every selected row finds the group of its identifier. */
  method GroupDatabases(t: Tables, identifiers: seq<string>) returns (grouped: map<string, seq<DatabaseMetric>>)
    ensures forall d :: d in identifiers ==> d in grouped && ListsDatabases(t, d, grouped[d])
  {
    assert TotalPreorder(DatabaseKeyLe) by {
      TextOrders();
    }
    var keys := Arrange(DatabaseKeyLe, set k | k in t.databaseCurrent && k.dbIdentifier in identifiers);
    forall i | 0 <= i < |keys| ensures keys[i] in t.databaseCurrent && keys[i].dbIdentifier in identifiers {
      assert keys[i] in keys;
    }
    grouped := map d | d in identifiers :: [];
    for i := 0 to |keys|
      invariant GroupsSoFar(t, identifiers, keys[..i], grouped)
    {
      var k := keys[i];
      GroupsGrow(t, identifiers, keys, i, grouped);
      grouped := grouped[k.dbIdentifier := grouped[k.dbIdentifier] + [DatabaseMetric(k.datname, t.databaseCurrent[k].stats)]];
    }
    assert keys[..|keys|] == keys;
    GroupsAreLists(t, identifiers, keys);
  }

  ghost predicate GroupsSoFar(t: Tables, identifiers: seq<string>, keys: seq<DatabaseKey>, grouped: map<string, seq<DatabaseMetric>>) {
    && (forall i :: 0 <= i < |keys| ==> keys[i] in t.databaseCurrent)
    && (forall d :: d in grouped <==> d in identifiers)
    && (forall d :: d in identifiers ==> grouped[d] == Grouped(t, keys, d))
  }

  lemma {:induction false} GroupsGrow(t: Tables, identifiers: seq<string>, keys: seq<DatabaseKey>, i: int, grouped: map<string, seq<DatabaseMetric>>)
    requires 0 <= i < |keys| && GroupsSoFar(t, identifiers, keys[..i], grouped)
    requires keys[i] in t.databaseCurrent && keys[i].dbIdentifier in identifiers
    ensures var k := keys[i];
            GroupsSoFar(t, identifiers, keys[..i + 1],
                        grouped[k.dbIdentifier := grouped[k.dbIdentifier] + [DatabaseMetric(k.datname, t.databaseCurrent[k].stats)]])
  {
    assert keys[..i + 1] == keys[..i] + [keys[i]];
    assert keys[..i + 1][..i] == keys[..i];
  }

  lemma {:induction false} GroupsAreLists(t: Tables, identifiers: seq<string>, keys: seq<DatabaseKey>)
    requires Sorted(DatabaseKeyLe, keys) && Distinct(keys)
    requires forall k :: k in keys <==> k in t.databaseCurrent && k.dbIdentifier in identifiers
    ensures forall i :: 0 <= i < |keys| ==> keys[i] in t.databaseCurrent
    ensures forall d :: d in identifiers ==> ListsDatabases(t, d, Grouped(t, keys, d))
  {
    assert forall i :: 0 <= i < |keys| ==> keys[i] in keys;
    forall d | d in identifiers ensures ListsDatabases(t, d, Grouped(t, keys, d)) {
      GroupedLists(t, keys, d);
    }
  }

  ghost predicate Groups(t: Tables, identifiers: seq<string>, grouped: map<string, seq<DatabaseMetric>>) {
    forall i :: 0 <= i < |identifiers| ==>
      identifiers[i] in t.current && identifiers[i] in grouped && ListsDatabases(t, identifiers[i], grouped[identifiers[i]])
  }

  ghost predicate Selects(t: Tables, only: Option<string>, identifiers: seq<string>) {
    forall d :: d in identifiers <==> d in t.current && Wanted(d, only)
  }

  /** The states of the selected header rows, each with its group. */
  function StatesOf(t: Tables, identifiers: seq<string>, grouped: map<string, seq<DatabaseMetric>>): (states: seq<RuntimeState>)
    requires Groups(t, identifiers, grouped)
    ensures |states| == |identifiers|
    ensures forall i :: 0 <= i < |states| ==> states[i].dbIdentifier == identifiers[i] && IsStateOf(t, states[i])
  {
    seq(|identifiers|, i requires 0 <= i < |identifiers| =>
      var row := t.current[identifiers[i]];
      RuntimeState(row.capturedAt, identifiers[i], row.activity, row.locks, grouped[identifiers[i]]))
  }

  /** They are the complete ordered listing. */
  lemma {:induction false} StatesAreListed(t: Tables, only: Option<string>, identifiers: seq<string>, grouped: map<string, seq<DatabaseMetric>>)
    requires Sorted(TextLe, identifiers) && Distinct(identifiers)
    requires Selects(t, only, identifiers) && Groups(t, identifiers, grouped)
    ensures ListsStates(t, only, StatesOf(t, identifiers, grouped))
  {
    var states := StatesOf(t, identifiers, grouped);
    forall d | d in t.current && Wanted(d, only) ensures exists i :: 0 <= i < |states| && states[i].dbIdentifier == d {
      assert d in identifiers;
      var i :| 0 <= i < |identifiers| && identifiers[i] == d;
      assert states[i].dbIdentifier == d;
    }
    forall i | 0 <= i < |states| ensures Wanted(states[i].dbIdentifier, only) {
      assert identifiers[i] in identifiers;
    }
  }
}
