/** The repository of query snapshots: the batch write, the simple lookup and the bulk lookup. */
module QueryRepository {
  import opened Wrappers
  import opened Sorting
  import opened Models
  import opened QueryTable
  import opened Instants
  import opened QueryLookup
  import opened Storage

  type Points = map<int, Option<QuerySnapshotPoint>>

  /** The answer of the simple lookup at every one of the timestamps. */
  function PointsAt(rows: seq<QueryRow>, db: string, timestamps: seq<int>): Points {
    map ts | ts in timestamps :: LatestAtOrBefore(rows, db, ts)
  }

  /** The exception the bulk lookup ends with: its second select is made only if some timestamp finds a point. */
  function BulkFault(rows: seq<QueryRow>, db: string, timestamps: seq<int>, env: Environment): Option<Exception> {
    if timestamps == [] then None
    else if SelectTimes in env.faults then Some(Wrap(env.faults[SelectTimes], StorageReadError))
    else if SelectPoints in env.faults && exists ts :: ts in timestamps && LatestAtOrBefore(rows, db, ts).Some? then
      Some(Wrap(env.faults[SelectPoints], StorageReadError))
    else None
  }

  function QueryWriteFault(table: seq<QueryRow>, s: QuerySnapshot, env: Environment): Option<Exception> {
    if s.statements == [] then None
    else if FlushQueries in env.faults then Some(Wrap(env.faults[FlushQueries], StorageWriteError))
    else if InsertQueryRows(table, QueryRowsOf(s)).None? then Some(StorageWriteError)
    else None
  }

  /** A write succeeds exactly if the batch is empty, or its flush does not raise and no two rows clash. */
  lemma {:induction false} QueryWriteFailsExactly(table: seq<QueryRow>, s: QuerySnapshot, env: Environment)
    ensures QueryWriteFault(table, s, env).None? <==>
              s.statements == [] || (FlushQueries !in env.faults && UniquePoints(table + QueryRowsOf(s)))
    ensures s.statements != [] && FlushQueries in env.faults ==>
              QueryWriteFault(table, s, env) ==
                Some(if env.faults[FlushQueries] == SqlAlchemyError then StorageWriteError else env.faults[FlushQueries])
    ensures s.statements != [] && FlushQueries !in env.faults && Clashes(table + QueryRowsOf(s)) ==>
              QueryWriteFault(table, s, env) == Some(StorageWriteError)
  {
    UniqueMeansNoClash(table + QueryRowsOf(s));
  }

  /** The bulk lookup raises only when a select of it does, and then that error, a database error as a read error. */
  lemma {:induction false} BulkFaultIsSelect(rows: seq<QueryRow>, db: string, timestamps: seq<int>, env: Environment)
    ensures SelectTimes !in env.faults && SelectPoints !in env.faults ==> BulkFault(rows, db, timestamps, env) == None
    ensures SelectTimes in env.faults && timestamps != [] ==>
              BulkFault(rows, db, timestamps, env) ==
                Some(if env.faults[SelectTimes] == SqlAlchemyError then StorageReadError else env.faults[SelectTimes])
    ensures SelectTimes !in env.faults && SelectPoints in env.faults ==>
              BulkFault(rows, db, timestamps, env) ==
                if exists ts, r :: ts in timestamps && r in rows && r.dbIdentifier == db && r.capturedAt <= ts then
                  Some(if env.faults[SelectPoints] == SqlAlchemyError then StorageReadError else env.faults[SelectPoints])
                else None
  {
    forall ts ensures LatestAtOrBefore(rows, db, ts).Some? <==> exists r :: r in rows && r.dbIdentifier == db && r.capturedAt <= ts {
      LatestMeaning(rows, db, ts);
    }
  }

  class QuerySnapshotRepository {
    const session: Session

    constructor (session: Session)
      ensures this.session == session
    {
      this.session := session;
    }

    /** An empty snapshot writes nothing; a clash on the unique key refuses the whole batch. */
    method WriteQuerySnapshot(s: QuerySnapshot, env: Environment) returns (r: Result<nat, Exception>)
      requires session.NothingPending()
      modifies session, session.db`nextSnapshotId
      ensures session.db.nextSnapshotId == old(session.db.nextSnapshotId)
      ensures match QueryWriteFault(old(session.store).queries, s, env)
              case Some(e) => r == Failure(e) && session.store == old(session.store)
              case None =>
                && r == Success(|s.statements|) && session.NothingPending()
                && session.store.runtime == old(session.store).runtime
                && Some(session.store.queries) == InsertQueryRows(old(session.store).queries, QueryRowsOf(s))
    {
      if s.statements == [] {
        return Success(0);
      }
      session.pendingQueries := QueryRowsOf(s);
      var raised := session.Flush(FlushQueries, env);
      if raised.Some? {
        return Failure(Wrap(raised.value, StorageWriteError));
      }
      return Success(|s.statements|);
    }

    method GetLatestSnapshotAtOrBefore(dbIdentifier: string, ts: int, env: Environment)
      returns (r: Result<Option<QuerySnapshotPoint>, Exception>)
      ensures var found := LatestAtOrBefore(session.store.queries, dbIdentifier, ts);
              r == if SelectLatestTime in env.faults then Failure(Wrap(env.faults[SelectLatestTime], StorageReadError))
                   else if found.Some? && SelectPoint in env.faults then Failure(Wrap(env.faults[SelectPoint], StorageReadError))
                   else Success(found)
    {
      if SelectLatestTime in env.faults {
        return Failure(Wrap(env.faults[SelectLatestTime], StorageReadError));
      }
      var latest := Greatest(Times(session.store.queries, dbIdentifier, ts));
      if latest.None? {
        return Success(None);
      }
      if SelectPoint in env.faults {
        return Failure(Wrap(env.faults[SelectPoint], StorageReadError));
      }
      return Success(Some(QuerySnapshotPoint(latest.value, PointRows(session.store.queries, dbIdentifier, latest.value))));
    }

    /** Both selects, one search per timestamp and one regrouping pass agree with the simple lookup everywhere. */
    method GetLatestSnapshotsAtOrBefore(dbIdentifier: string, timestamps: seq<int>, env: Environment)
      returns (r: Result<Points, Exception>)
      ensures match BulkFault(session.store.queries, dbIdentifier, timestamps, env)
              case Some(e) => r == Failure(e)
              case None => r == Success(PointsAt(session.store.queries, dbIdentifier, timestamps))
    {
      if timestamps == [] {
        return Success(map[]);
      }
      var rows := session.store.queries;
      var orderedUnique := OrderedUnique(timestamps);
      assert PointsAt(rows, dbIdentifier, timestamps) == PointsAt(rows, dbIdentifier, orderedUnique);
      var maxTs := MaxOf(orderedUnique);
      if SelectTimes in env.faults {
        return Failure(Wrap(env.faults[SelectTimes], StorageReadError));
      }
      var capturedAts := SortedSet(Times(rows, dbIdentifier, maxTs));
      if capturedAts == [] {
        NothingAtOrBefore(rows, dbIdentifier, orderedUnique, maxTs);
        return Success(map ts | ts in orderedUnique :: None);
      }
      var resolved := ResolveBoundaries(rows, dbIdentifier, orderedUnique, maxTs, capturedAts);
      var needed := SortedSet(set ts | ts in resolved && resolved[ts].Some? :: resolved[ts].value);
      NeededExactly(rows, dbIdentifier, orderedUnique, resolved, needed);
      if needed == [] {
        return Success(map ts | ts in orderedUnique :: None);
      }
      if SelectPoints in env.faults {
        return Failure(Wrap(env.faults[SelectPoints], StorageReadError));
      }
      var grouped := GroupRows(rows, dbIdentifier, needed);
      var result := AssemblePoints(rows, dbIdentifier, orderedUnique, resolved, grouped);
      return Success(result);
    }
  }

  ghost predicate Resolved(rows: seq<QueryRow>, db: string, timestamps: seq<int>, resolved: map<int, Option<int>>) {
    && (forall ts :: ts in resolved <==> ts in timestamps)
    && (forall ts :: ts in resolved ==> resolved[ts] == Greatest(Times(rows, db, ts)))
  }

  lemma {:induction false} NothingAtOrBefore(rows: seq<QueryRow>, db: string, timestamps: seq<int>, maxTs: int)
    requires SortedSet(Times(rows, db, maxTs)) == [] && forall ts :: ts in timestamps ==> ts <= maxTs
    ensures PointsAt(rows, db, timestamps) == map ts | ts in timestamps :: None
    ensures forall ts :: ts in timestamps ==> LatestAtOrBefore(rows, db, ts).None?
  {
    forall ts | ts in timestamps ensures LatestAtOrBefore(rows, db, ts) == None {
      BoundaryIsLatest(rows, db, maxTs, ts, 0);
    }
  }

  /** Some capture time is needed exactly when some timestamp finds a point. */
  lemma {:induction false} NeededExactly(rows: seq<QueryRow>, db: string, timestamps: seq<int>, resolved: map<int, Option<int>>, needed: seq<int>)
    requires Resolved(rows, db, timestamps, resolved)
    requires needed == SortedSet(set ts | ts in resolved && resolved[ts].Some? :: resolved[ts].value)
    ensures needed != [] <==> exists ts :: ts in timestamps && LatestAtOrBefore(rows, db, ts).Some?
    ensures needed == [] ==> PointsAt(rows, db, timestamps) == map ts | ts in timestamps :: None
    ensures forall ts :: ts in resolved && resolved[ts].Some? ==> resolved[ts].value in needed
  {
    if needed != [] {
      assert needed[0] in needed;
      var ts :| ts in resolved && resolved[ts].Some? && resolved[ts].value == needed[0];
      assert LatestAtOrBefore(rows, db, ts).Some?;
    }
    forall ts | ts in timestamps && LatestAtOrBefore(rows, db, ts).Some? ensures needed != [] {
      assert resolved[ts].value in needed;
    }
  }

  method AssemblePoints(rows: seq<QueryRow>, db: string, orderedUnique: seq<int>, resolved: map<int, Option<int>>, grouped: map<int, seq<QueryRow>>)
    returns (result: Points)
    requires Resolved(rows, db, orderedUnique, resolved)
    requires forall ts :: ts in resolved && resolved[ts].Some? ==>
               resolved[ts].value in grouped && grouped[resolved[ts].value] == PointRows(rows, db, resolved[ts].value)
    ensures result == PointsAt(rows, db, orderedUnique)
  {
    result := map[];
    for i := 0 to |orderedUnique|
      invariant result == PointsAt(rows, db, orderedUnique[..i])
    {
      var ts := orderedUnique[i];
      assert ts in orderedUnique;
      var boundary := resolved[ts];
      if boundary.None? {
        result := result[ts := None];
      } else {
        result := result[ts := Some(QuerySnapshotPoint(boundary.value, grouped[boundary.value]))];
      }
      assert orderedUnique[..i + 1] == orderedUnique[..i] + [ts];
    }
    assert orderedUnique[..|orderedUnique|] == orderedUnique;
  }

  function MaxOf(xs: seq<int>): (m: int)
    requires xs != []
    ensures m in xs && forall x :: x in xs ==> x <= m
  {
    if |xs| == 1 then xs[0] else
      var m := MaxOf(xs[1..]);
      assert xs == [xs[0]] + xs[1..];
      if xs[0] >= m then xs[0] else m
  }

  /** The capture time each timestamp resolves to, by binary search. */
  method ResolveBoundaries(rows: seq<QueryRow>, db: string, orderedUnique: seq<int>, maxTs: int, capturedAts: seq<int>)
    returns (resolved: map<int, Option<int>>)
    requires capturedAts == SortedSet(Times(rows, db, maxTs))
    requires forall ts :: ts in orderedUnique ==> ts <= maxTs
    ensures Resolved(rows, db, orderedUnique, resolved)
  {
    resolved := map[];
    for i := 0 to |orderedUnique|
      invariant resolved.Keys == set ts | ts in orderedUnique[..i]
      invariant forall ts :: ts in resolved ==> resolved[ts] == Greatest(Times(rows, db, ts))
    {
      var ts := orderedUnique[i];
      var insertion := BisectRight(capturedAts, ts);
      var boundaryIndex := insertion - 1;
      var boundary := if boundaryIndex < 0 then None else Some(capturedAts[boundaryIndex]);
      assert boundary == Greatest(Times(rows, db, ts)) by {
        assert ts in orderedUnique;
        BoundaryIsLatest(rows, db, maxTs, ts, insertion);
      }
      resolved := resolved[ts := boundary];
      assert orderedUnique[..i + 1] == orderedUnique[..i] + [ts];
    }
    assert orderedUnique[..|orderedUnique|] == orderedUnique;
  }

  lemma {:induction false} SelectedAreNeeded(rows: seq<QueryRow>, db: string, needed: seq<int>)
    ensures forall row :: row in RowsIn(rows, db, needed) ==> row.capturedAt in needed
  {
    var kept := Filter(OfPoints(db, needed), rows);
    FilterMembers(OfPoints(db, needed), rows);
    StableSortIsPermutation(TimedRowLe, kept);
    SameElements(RowsIn(rows, db, needed), kept);
  }

  lemma {:induction false} OneMoreRow(selected: seq<QueryRow>, i: int, at: int)
    requires 0 <= i < |selected|
    ensures Filter(AtTime(at), selected[..i + 1]) ==
            Filter(AtTime(at), selected[..i]) + if selected[i].capturedAt == at then [selected[i]] else []
  {
    assert selected[..i + 1] == selected[..i] + [selected[i]];
    FilterConcat(AtTime(at), selected[..i], [selected[i]]);
    assert Filter(AtTime(at), [selected[i]][1..]) == [];
  }

  /** One pass over the selected rows puts each under its capture time; no row lacks a group. */
  method GroupRows(rows: seq<QueryRow>, db: string, needed: seq<int>) returns (grouped: map<int, seq<QueryRow>>)
    ensures grouped.Keys == set at | at in needed
    ensures forall at :: at in needed ==> grouped[at] == PointRows(rows, db, at)
  {
    var selected := RowsIn(rows, db, needed);
    assert forall row :: row in selected ==> row.capturedAt in needed by {
      SelectedAreNeeded(rows, db, needed);
    }
    grouped := map at | at in needed :: [];
    for i := 0 to |selected|
      invariant grouped.Keys == set at | at in needed
      invariant forall at :: at in needed ==> grouped[at] == Filter(AtTime(at), selected[..i])
    {
      var row := selected[i];
      assert row in selected;
      forall at | at in needed
        ensures Filter(AtTime(at), selected[..i + 1]) ==
                Filter(AtTime(at), selected[..i]) + if row.capturedAt == at then [row] else []
      {
        OneMoreRow(selected, i, at);
      }
      grouped := grouped[row.capturedAt := grouped[row.capturedAt] + [row]];
    }
    assert selected[..|selected|] == selected;
    forall at | at in needed ensures grouped[at] == PointRows(rows, db, at) {
      RegroupedRows(rows, db, needed, at);
    }
  }
}
