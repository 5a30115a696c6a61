/** The query analytics service: windows, points, and the period results built from them. */
module Analytics {
  import opened Wrappers
  import opened Sorting
  import opened Models
  import opened QueryTable
  import opened Instants
  import opened QueryLookup
  import opened Storage
  import opened QueryRepository
  import opened UnitOfWork
  import opened Delta
  import opened Ranking

  /** A datetime: an instant in microseconds, and whether it carries a time zone. */
  datatype Moment = Moment(instant: int, aware: bool)

  datatype PeriodWindow = PeriodWindow(startAt: Moment, endAt: Moment)

  const WEEK: int := 7 * 24 * 3600 * 1000000

  datatype RequestError =
    | LimitNotPositive | IdentifierRequired | WindowIncomplete | StartNaive | EndNaive | WindowEmpty
    | StorageRaised(exception: Exception)

  datatype PeriodResult = PeriodResult(
    dbIdentifier: string, window: PeriodWindow,
    snapshotStartAt: Option<int>, snapshotEndAt: Option<int>,
    sortBy: SortBy, limit: int, items: seq<QueryDelta>)

  datatype WeekOverWeekResult = WeekOverWeekResult(
    dbIdentifier: string, sortBy: SortBy, limit: int, currentWeek: PeriodResult, previousWeek: PeriodResult)

  // ----- Windows

  /** What `PeriodWindow.__post_init__` lets through. */
  predicate ValidWindow(w: PeriodWindow) {
    w.startAt.aware && w.endAt.aware && w.startAt.instant < w.endAt.instant
  }

  function MakeWindow(startAt: Moment, endAt: Moment): (r: Result<PeriodWindow, RequestError>)
    ensures r.Success? <==> ValidWindow(PeriodWindow(startAt, endAt))
    ensures r.Success? ==> r.value.startAt == startAt && r.value.endAt == endAt
    ensures r == Failure(StartNaive) <==> !startAt.aware
    ensures r == Failure(EndNaive) <==> startAt.aware && !endAt.aware
    ensures r == Failure(WindowEmpty) <==> startAt.aware && endAt.aware && startAt.instant >= endAt.instant
  {
    if !startAt.aware then Failure(StartNaive)
    else if !endAt.aware then Failure(EndNaive)
    else if startAt.instant >= endAt.instant then Failure(WindowEmpty)
    else Success(PeriodWindow(startAt, endAt))
  }

  /** Both bounds or neither; with neither, the seven days up to `now` or the clock. */
  function ResolveCurrentWindow(startAt: Option<Moment>, endAt: Option<Moment>, now: Option<Moment>, clock: int)
    : (r: Result<PeriodWindow, RequestError>)
    ensures startAt.Some? != endAt.Some? <==> r == Failure(WindowIncomplete)
    ensures r.Success? ==> ValidWindow(r.value)
    ensures r.Success? && startAt.Some? ==> endAt.Some? && r.value == PeriodWindow(startAt.value, endAt.value)
    ensures startAt.Some? && endAt.Some? && ValidWindow(PeriodWindow(startAt.value, endAt.value)) ==> r.Success?
    ensures r.Success? && startAt.None? ==>
              && r.value.endAt == (if now.Some? then now.value else Moment(clock, true))
              && r.value.endAt.instant - r.value.startAt.instant == 7 * 86400 * 1000000
    ensures startAt.None? && endAt.None? ==> (r.Failure? <==> now.Some? && !now.value.aware)
  {
    if startAt.None? != endAt.None? then Failure(WindowIncomplete)
    else if startAt.Some? then MakeWindow(startAt.value, endAt.value)
    else
      var end := if now.Some? then now.value else Moment(clock, true);
      MakeWindow(Moment(end.instant - WEEK, end.aware), end)
  }

  function PreviousWindow(w: PeriodWindow): PeriodWindow {
    var duration := w.endAt.instant - w.startAt.instant;
    PeriodWindow(Moment(w.startAt.instant - duration, w.startAt.aware), w.startAt)
  }

  /** The window before a valid window is valid, adjacent and equally long. */
  lemma {:induction false} PreviousWindowIsValid(w: PeriodWindow)
    requires ValidWindow(w)
    ensures var p := PreviousWindow(w);
            && MakeWindow(p.startAt, p.endAt) == Success(p) && p.endAt == w.startAt
            && p.endAt.instant - p.startAt.instant == w.endAt.instant - w.startAt.instant
  {
  }

  function RequestFault(dbIdentifier: string, limit: int): Option<RequestError> {
    if limit <= 0 then Some(LimitNotPositive)
    else if dbIdentifier == "" then Some(IdentifierRequired)
    else None
  }

  /** Which requests are accepted, and why the others are not. */
  lemma {:induction false} RequestIsAcceptedExactly(dbIdentifier: string, limit: int)
    ensures RequestFault(dbIdentifier, limit).None? <==> limit > 0 && dbIdentifier != ""
    ensures limit <= 0 ==> RequestFault(dbIdentifier, limit) == Some(LimitNotPositive)
    ensures limit > 0 && dbIdentifier == "" ==> RequestFault(dbIdentifier, limit) == Some(IdentifierRequired)
  {
  }

  // ----- What a period result is

  function CapturedAt(point: Option<QuerySnapshotPoint>): Option<int> {
    if point.None? then None else Some(point.value.capturedAt)
  }

  ghost predicate IsPeriodResultOf(r: PeriodResult, start: Option<QuerySnapshotPoint>, end: Option<QuerySnapshotPoint>) {
    && r.limit > 0
    && r.snapshotStartAt == CapturedAt(start) && r.snapshotEndAt == CapturedAt(end)
    && exists deltas :: AreDeltasBetween(deltas, start, end) && IsTop(r.items, deltas, r.sortBy, r.limit)
  }

  /** The period result over a stored table: the deltas between the latest points at or before each bound, ranked and cut. */
  ghost predicate IsPeriodResult(r: PeriodResult, rows: seq<QueryRow>) {
    IsPeriodResultOf(
      r,
      LatestAtOrBefore(rows, r.dbIdentifier, r.window.startAt.instant),
      LatestAtOrBefore(rows, r.dbIdentifier, r.window.endAt.instant))
  }

  /** A lookup in a table that keeps the unique constraint finds a point with unique, ordered rows. */
  lemma {:induction false} FoundPointsAreProper(rows: seq<QueryRow>, db: string, ts: int)
    requires UniquePoints(rows)
    ensures UniqueIn(LatestAtOrBefore(rows, db, ts))
    ensures LatestAtOrBefore(rows, db, ts).Some? ==> Sorted(RowLe, LatestAtOrBefore(rows, db, ts).value.rows)
  {
    LatestMeaning(rows, db, ts);
    if LatestAtOrBefore(rows, db, ts).Some? {
      var p := LatestAtOrBefore(rows, db, ts).value;
      PointRowsUnique(rows, db, p.capturedAt);
      forall i, j | 0 <= i < j < |p.rows| ensures p.rows[i].metric.key != p.rows[j].metric.key {
        assert p.rows[i] in p.rows && p.rows[j] in p.rows;
        assert PointKeyOf(p.rows[i]) != PointKeyOf(p.rows[j]);
      }
    }
  }

  method BuildPeriodResult(dbIdentifier: string, window: PeriodWindow, startPoint: Option<QuerySnapshotPoint>, endPoint: Option<QuerySnapshotPoint>, limit: int, sortBy: SortBy)
    returns (r: PeriodResult)
    requires limit > 0
    requires UniqueIn(endPoint) && (endPoint.Some? ==> Sorted(RowLe, endPoint.value.rows))
    ensures r.dbIdentifier == dbIdentifier && r.window == window && r.limit == limit && r.sortBy == sortBy
    ensures IsPeriodResultOf(r, startPoint, endPoint)
  {
    var deltas := BuildQueryDeltas(startPoint, endPoint);
    DeltasKeepOrder(deltas, startPoint, if endPoint.None? then [] else endPoint.value.rows);
    SortAndCutIsTop(deltas, sortBy, limit);
    var limited := Take(SortDeltas(deltas, sortBy), limit);
    return PeriodResult(dbIdentifier, window, CapturedAt(startPoint), CapturedAt(endPoint), sortBy, limit, limited);
  }

  /** The two weeks of a comparison, sharing the point at the boundary. */
  ghost predicate IsComparison(r: WeekOverWeekResult, rows: seq<QueryRow>) {
    && r.currentWeek.dbIdentifier == r.previousWeek.dbIdentifier == r.dbIdentifier
    && r.currentWeek.limit == r.previousWeek.limit == r.limit
    && r.currentWeek.sortBy == r.previousWeek.sortBy == r.sortBy
    && r.previousWeek.window == PreviousWindow(r.currentWeek.window)
    && IsPeriodResult(r.currentWeek, rows) && IsPeriodResult(r.previousWeek, rows)
  }

  method BuildWeekOverWeekResult(dbIdentifier: string, current: PeriodWindow, previous: PeriodWindow, points: Points, limit: int, sortBy: SortBy, ghost rows: seq<QueryRow>)
    returns (r: WeekOverWeekResult)
    requires limit > 0 && UniquePoints(rows) && previous == PreviousWindow(current)
    requires points == PointsAt(rows, dbIdentifier, [previous.startAt.instant, current.startAt.instant, current.endAt.instant])
    ensures r.dbIdentifier == dbIdentifier && r.limit == limit && r.sortBy == sortBy
    ensures r.currentWeek.window == current && IsComparison(r, rows)
  {
    FoundPointsAreProper(rows, dbIdentifier, current.endAt.instant);
    FoundPointsAreProper(rows, dbIdentifier, previous.endAt.instant);
    var previousStart := points[previous.startAt.instant];
    var boundary := points[previous.endAt.instant];
    var currentEnd := points[current.endAt.instant];
    var currentWeek := BuildPeriodResult(dbIdentifier, current, boundary, currentEnd, limit, sortBy);
    var previousWeek := BuildPeriodResult(dbIdentifier, previous, previousStart, boundary, limit, sortBy);
    return WeekOverWeekResult(dbIdentifier, sortBy, limit, currentWeek, previousWeek);
  }

  // ----- Loading points

  /** The exception the per-timestamp loop ends with. */
  function LoopFault(rows: seq<QueryRow>, db: string, timestamps: seq<int>, env: Environment): Option<Exception> {
    if timestamps == [] then None
    else if SelectLatestTime in env.faults then Some(Wrap(env.faults[SelectLatestTime], StorageReadError))
    else if SelectPoint in env.faults && exists ts :: ts in timestamps && LatestAtOrBefore(rows, db, ts).Some? then
      Some(Wrap(env.faults[SelectPoint], StorageReadError))
    else None
  }

  /** The exception the load ends with inside the unit of work. */
  function LoadFault(rows: seq<QueryRow>, db: string, timestamps: seq<int>, hasBulkLoader: bool, env: Environment): Option<Exception> {
    if hasBulkLoader then BulkFault(rows, db, timestamps, env) else LoopFault(rows, db, timestamps, env)
  }

  function LoadRaises(rows: seq<QueryRow>, db: string, timestamps: seq<int>, hasBulkLoader: bool, env: Environment): Option<Exception> {
    LeavesWith(LoadFault(rows, db, timestamps, hasBulkLoader, env), env)
  }

  method LoadOneByOne(repository: QuerySnapshotRepository, dbIdentifier: string, timestamps: seq<int>, env: Environment)
    returns (r: Result<Points, Exception>)
    ensures var rows := repository.session.store.queries;
            match LoopFault(rows, dbIdentifier, timestamps, env)
            case Some(e) => r == Failure(e)
            case None => r == Success(PointsAt(rows, dbIdentifier, timestamps))
  {
    ghost var rows := repository.session.store.queries;
    var points: Points := map[];
    for i := 0 to |timestamps|
      invariant points == PointsAt(rows, dbIdentifier, timestamps[..i])
      invariant i > 0 ==> SelectLatestTime !in env.faults
      invariant forall j :: 0 <= j < i && SelectPoint in env.faults ==> LatestAtOrBefore(rows, dbIdentifier, timestamps[j]).None?
    {
      var ts := timestamps[i];
      var point := repository.GetLatestSnapshotAtOrBefore(dbIdentifier, ts, env);
      if point.Failure? {
        assert ts in timestamps;
        return Failure(point.error);
      }
      points := points[ts := point.value];
      assert timestamps[..i + 1] == timestamps[..i] + [ts];
    }
    assert timestamps[..|timestamps|] == timestamps;
    return Success(points);
  }

  class QueryAnalyticsService {
    const db: Database
    /** Whether the reader offers the bulk lookup. */
    const hasBulkLoader: bool

    constructor (db: Database, hasBulkLoader: bool)
      ensures this.db == db && this.hasBulkLoader == hasBulkLoader
    {
      this.db, this.hasBulkLoader := db, hasBulkLoader;
    }

    /** Both loading paths give the simple lookup's answer at every timestamp. */
    method LoadSnapshotPoints(dbIdentifier: string, timestamps: seq<int>, env: Environment) returns (r: Result<Points, Exception>)
      modifies db`store, db`trace
      ensures db.store == old(db.store)
      ensures db.trace == old(db.trace) + SessionEvents(LoadFault(db.store.queries, dbIdentifier, timestamps, hasBulkLoader, env))
      ensures match LoadRaises(db.store.queries, dbIdentifier, timestamps, hasBulkLoader, env)
              case Some(e) => r == Failure(e)
              case None => r == Success(PointsAt(db.store.queries, dbIdentifier, timestamps))
    {
      ghost var rows := db.store.queries;
      var orderedUnique := OrderedUnique(timestamps);
      assert PointsAt(rows, dbIdentifier, timestamps) == PointsAt(rows, dbIdentifier, orderedUnique);
      assert timestamps != [] ==> timestamps[0] in timestamps;
      assert orderedUnique != [] ==> orderedUnique[0] in orderedUnique;
      var uow := new StorageUnitOfWork(db);
      uow.Enter();
      var repository := uow.QuerySnapshots();
      var points;
      if hasBulkLoader {
        points := repository.value.GetLatestSnapshotsAtOrBefore(dbIdentifier, orderedUnique, env);
      } else {
        points := LoadOneByOne(repository.value, dbIdentifier, orderedUnique, env);
      }
      var raised := uow.Exit(if points.Failure? then Some(points.error) else None, env);
      if raised.Some? {
        return Failure(raised.value);
      }
      return points;
    }

    method GetPeriodTopQueries(dbIdentifier: string, window: PeriodWindow, limit: int, sortBy: SortBy, env: Environment)
      returns (r: Result<PeriodResult, RequestError>)
      requires ValidWindow(window) && UniquePoints(db.store.queries)
      modifies db`store, db`trace
      ensures db.store == old(db.store)
      ensures db.trace == old(db.trace) +
                PeriodEvents(db.store.queries, dbIdentifier, [window.startAt.instant, window.endAt.instant], limit, hasBulkLoader, env)
      ensures r.Failure? ==>
                Some(r.error) == PeriodFault(db.store.queries, dbIdentifier, [window.startAt.instant, window.endAt.instant], limit, hasBulkLoader, env)
      ensures r.Success? ==>
                && PeriodFault(db.store.queries, dbIdentifier, [window.startAt.instant, window.endAt.instant], limit, hasBulkLoader, env) == None
                && r.value.dbIdentifier == dbIdentifier && r.value.window == window
                && r.value.limit == limit && r.value.sortBy == sortBy
                && IsPeriodResult(r.value, db.store.queries)
    {
      if RequestFault(dbIdentifier, limit).Some? {
        return Failure(RequestFault(dbIdentifier, limit).value);
      }
      var points := LoadSnapshotPoints(dbIdentifier, [window.startAt.instant, window.endAt.instant], env);
      if points.Failure? {
        return Failure(StorageRaised(points.error));
      }
      FoundPointsAreProper(db.store.queries, dbIdentifier, window.endAt.instant);
      var result := BuildPeriodResult(
        dbIdentifier, window, points.value[window.startAt.instant], points.value[window.endAt.instant], limit, sortBy);
      return Success(result);
    }

    method GetWeeklyTopQueries(dbIdentifier: string, limit: int, sortBy: SortBy, startAt: Option<Moment>, endAt: Option<Moment>, now: Option<Moment>, clock: int, env: Environment)
      returns (r: Result<PeriodResult, RequestError>)
      requires UniquePoints(db.store.queries)
      modifies db`store, db`trace
      ensures db.store == old(db.store)
      ensures match ResolveCurrentWindow(startAt, endAt, now, clock)
              case Failure(e) => r == Failure(e) && db.trace == old(db.trace)
              case Success(w) =>
                var timestamps := [w.startAt.instant, w.endAt.instant];
                var fault := PeriodFault(db.store.queries, dbIdentifier, timestamps, limit, hasBulkLoader, env);
                && db.trace == old(db.trace) + PeriodEvents(db.store.queries, dbIdentifier, timestamps, limit, hasBulkLoader, env)
                && (r.Failure? <==> fault.Some?) && (r.Failure? ==> r.error == fault.value)
                && (r.Success? ==> r.value.window == w)
      ensures r.Success? ==>
                && r.value.dbIdentifier == dbIdentifier && r.value.limit == limit && r.value.sortBy == sortBy
                && IsPeriodResult(r.value, db.store.queries)
    {
      var window := ResolveCurrentWindow(startAt, endAt, now, clock);
      if window.Failure? {
        return Failure(window.error);
      }
      r := GetPeriodTopQueries(dbIdentifier, window.value, limit, sortBy, env);
    }

    /** The request is checked first, then the bounds, then the three points are loaded. */
    function WeekOverWeekFault(dbIdentifier: string, limit: int, startAt: Option<Moment>, endAt: Option<Moment>, now: Option<Moment>, clock: int, env: Environment)
      : Option<RequestError>
      reads db
    {
      if RequestFault(dbIdentifier, limit).Some? then RequestFault(dbIdentifier, limit)
      else
        match ResolveCurrentWindow(startAt, endAt, now, clock)
        case Failure(e) => Some(e)
        case Success(w) =>
          var timestamps := [PreviousWindow(w).startAt.instant, w.startAt.instant, w.endAt.instant];
          PeriodFault(db.store.queries, dbIdentifier, timestamps, limit, hasBulkLoader, env)
    }

    /** Two adjacent windows of equal length, each with the period result of its own bounds; the boundary point is loaded once. */
    method GetWeekOverWeekQueries(dbIdentifier: string, limit: int, sortBy: SortBy, startAt: Option<Moment>, endAt: Option<Moment>, now: Option<Moment>, clock: int, env: Environment)
      returns (r: Result<WeekOverWeekResult, RequestError>)
      requires UniquePoints(db.store.queries)
      modifies db`store, db`trace
      ensures db.store == old(db.store)
      ensures db.trace == old(db.trace) + match ResolveCurrentWindow(startAt, endAt, now, clock)
              case Failure(_) => []
              case Success(w) =>
                PeriodEvents(db.store.queries, dbIdentifier,
                             [PreviousWindow(w).startAt.instant, w.startAt.instant, w.endAt.instant], limit, hasBulkLoader, env)
      ensures r.Failure? <==> WeekOverWeekFault(dbIdentifier, limit, startAt, endAt, now, clock, env).Some?
      ensures r.Failure? ==> r.error == WeekOverWeekFault(dbIdentifier, limit, startAt, endAt, now, clock, env).value
      ensures r.Success? ==>
                && r.value.dbIdentifier == dbIdentifier && r.value.limit == limit && r.value.sortBy == sortBy
                && ResolveCurrentWindow(startAt, endAt, now, clock) == Success(r.value.currentWeek.window)
                && IsComparison(r.value, db.store.queries)
    {
      if RequestFault(dbIdentifier, limit).Some? {
        return Failure(RequestFault(dbIdentifier, limit).value);
      }
      var resolved := ResolveCurrentWindow(startAt, endAt, now, clock);
      if resolved.Failure? {
        return Failure(resolved.error);
      }
      var current := resolved.value;
      var duration := current.endAt.instant - current.startAt.instant;
      var made := MakeWindow(Moment(current.startAt.instant - duration, current.startAt.aware), current.startAt);
      var previous := made.value;
      var points := LoadSnapshotPoints(
        dbIdentifier, [previous.startAt.instant, previous.endAt.instant, current.endAt.instant], env);
      if points.Failure? {
        return Failure(StorageRaised(points.error));
      }
      var result := BuildWeekOverWeekResult(dbIdentifier, current, previous, points.value, limit, sortBy, db.store.queries);
      return Success(result);
    }
  }

  function PeriodFault(rows: seq<QueryRow>, db: string, timestamps: seq<int>, limit: int, hasBulkLoader: bool, env: Environment): Option<RequestError> {
    if RequestFault(db, limit).Some? then RequestFault(db, limit)
    else
      match LoadRaises(rows, db, timestamps, hasBulkLoader, env)
      case Some(e) => Some(StorageRaised(e))
      case None => None
  }

  /** A proper request is answered whenever no storage call it can make raises, through either loading path. */
  lemma {:induction false} ProperRequestsAreAnswered(rows: seq<QueryRow>, db: string, timestamps: seq<int>, limit: int, hasBulkLoader: bool, env: Environment)
    requires limit > 0 && db != ""
    requires CommitCall !in env.faults && CloseCall !in env.faults
    requires if hasBulkLoader then SelectTimes !in env.faults && SelectPoints !in env.faults
             else SelectLatestTime !in env.faults && SelectPoint !in env.faults
    ensures PeriodFault(rows, db, timestamps, limit, hasBulkLoader, env) == None
  {
    BulkFaultIsSelect(rows, db, timestamps, env);
    WhatLeaves(None, env);
  }

  /** The same for a comparison: only its bounds can then be refused. */
  lemma {:induction false} ProperComparisonsAreAnswered(service: QueryAnalyticsService, db: string, limit: int, startAt: Option<Moment>, endAt: Option<Moment>, now: Option<Moment>, clock: int, env: Environment)
    requires limit > 0 && db != ""
    requires CommitCall !in env.faults && CloseCall !in env.faults
    requires if service.hasBulkLoader then SelectTimes !in env.faults && SelectPoints !in env.faults
             else SelectLatestTime !in env.faults && SelectPoint !in env.faults
    ensures service.WeekOverWeekFault(db, limit, startAt, endAt, now, clock, env) ==
              match ResolveCurrentWindow(startAt, endAt, now, clock)
              case Failure(e) => Some(e)
              case Success(_) => None
  {
    match ResolveCurrentWindow(startAt, endAt, now, clock)
    case Failure(_) =>
    case Success(w) =>
      ProperRequestsAreAnswered(
        service.db.store.queries, db, [PreviousWindow(w).startAt.instant, w.startAt.instant, w.endAt.instant], limit,
        service.hasBulkLoader, env);
  }

  /** If calls raise only database errors and closing works, a load that fails raises a storage error. */
  lemma {:induction false} LoadErrorsAreWrapped(rows: seq<QueryRow>, db: string, timestamps: seq<int>, hasBulkLoader: bool, env: Environment)
    requires forall c :: c in env.faults ==> env.faults[c] == SqlAlchemyError
    requires CloseCall !in env.faults
    ensures LoadRaises(rows, db, timestamps, hasBulkLoader, env).Some? ==>
              LoadRaises(rows, db, timestamps, hasBulkLoader, env).value in {StorageReadError, StorageWriteError, StorageError}
  {
  }

  /** A request that is refused opens no session. */
  function PeriodEvents(rows: seq<QueryRow>, db: string, timestamps: seq<int>, limit: int, hasBulkLoader: bool, env: Environment): seq<SessionEvent> {
    if RequestFault(db, limit).Some? then [] else SessionEvents(LoadFault(rows, db, timestamps, hasBulkLoader, env))
  }

  // ----- What the results mean

  /** Any two answers to the same request over the same rows, in whatever order they were inserted, are equal. */
  lemma {:induction false} PeriodResultIsDetermined(a: PeriodResult, b: PeriodResult, rows: seq<QueryRow>, other: seq<QueryRow>)
    requires multiset(rows) == multiset(other) && UniquePoints(rows)
    requires a.(snapshotStartAt := None, snapshotEndAt := None, items := []) == b.(snapshotStartAt := None, snapshotEndAt := None, items := [])
    requires IsPeriodResult(a, rows) && IsPeriodResult(b, other)
    ensures a == b
  {
    var db, s, e := a.dbIdentifier, a.window.startAt.instant, a.window.endAt.instant;
    LatestIgnoresInsertionOrder(rows, other, db, s);
    LatestIgnoresInsertionOrder(rows, other, db, e);
    FoundPointsAreProper(rows, db, e);
    var start, end := LatestAtOrBefore(rows, db, s), LatestAtOrBefore(rows, db, e);
    var endRows := if end.None? then [] else end.value.rows;
    var da :| AreDeltasBetween(da, start, end) && IsTop(a.items, da, a.sortBy, a.limit);
    var ds :| AreDeltasBetween(ds, start, end) && IsTop(b.items, ds, a.sortBy, a.limit);
    DeltasAreUnique(da, ds, start, endRows);
    DeltasKeepOrder(da, start, endRows);
    TopIsUnique(a.items, b.items, da, a.sortBy, a.limit);
  }

  predicate HasRows(rows: seq<QueryRow>, db: string, at: int) {
    exists row :: row in rows && row.dbIdentifier == db && row.capturedAt == at
  }

  /** A start point is found only if an end point is, in order and within the window; found points have rows. */
  lemma {:induction false} BoundariesAreOrdered(r: PeriodResult, rows: seq<QueryRow>)
    requires ValidWindow(r.window) && IsPeriodResult(r, rows)
    ensures r.snapshotStartAt.Some? ==> r.snapshotEndAt.Some? && r.snapshotStartAt.value <= r.snapshotEndAt.value
    ensures r.snapshotStartAt.Some? ==> r.snapshotStartAt.value <= r.window.startAt.instant
    ensures r.snapshotEndAt.Some? ==> r.snapshotEndAt.value <= r.window.endAt.instant
    ensures r.snapshotStartAt.Some? ==> HasRows(rows, r.dbIdentifier, r.snapshotStartAt.value)
    ensures r.snapshotEndAt.Some? ==> HasRows(rows, r.dbIdentifier, r.snapshotEndAt.value)
    ensures r.snapshotEndAt.None? ==> r.items == []
  {
    var s, e := r.window.startAt.instant, r.window.endAt.instant;
    LatestMeaning(rows, r.dbIdentifier, s);
    LatestMeaning(rows, r.dbIdentifier, e);
    if r.snapshotStartAt.Some? {
      LatestIsMonotone(rows, r.dbIdentifier, s, e);
      var p := LatestAtOrBefore(rows, r.dbIdentifier, s).value;
      assert p.rows[0] in p.rows;
    }
    if r.snapshotEndAt.Some? {
      var p := LatestAtOrBefore(rows, r.dbIdentifier, e).value;
      assert p.rows[0] in p.rows;
    } else {
      var deltas :| AreDeltasBetween(deltas, LatestAtOrBefore(rows, r.dbIdentifier, s), None) && IsTop(r.items, deltas, r.sortBy, r.limit);
      TopMeaning(r.items, deltas, r.sortBy, r.limit);
    }
  }

  /** Every item is its key's change between the two points, and a key missing from an uncut list did not change. */
  lemma {:induction false} ItemsAreChanges(r: PeriodResult, rows: seq<QueryRow>)
    requires UniquePoints(rows) && IsPeriodResult(r, rows)
    ensures var start := LatestAtOrBefore(rows, r.dbIdentifier, r.window.startAt.instant);
            var end := LatestAtOrBefore(rows, r.dbIdentifier, r.window.endAt.instant);
            && (forall d :: d in r.items ==> KeyReported(start, end, d.key) && d.counters == Change(start, end, d.key))
            && (|r.items| < r.limit ==> forall k :: KeyReported(start, end, k) ==> exists d :: d in r.items && d.key == k)
  {
    var start := LatestAtOrBefore(rows, r.dbIdentifier, r.window.startAt.instant);
    var end := LatestAtOrBefore(rows, r.dbIdentifier, r.window.endAt.instant);
    FoundPointsAreProper(rows, r.dbIdentifier, r.window.endAt.instant);
    var deltas :| AreDeltasBetween(deltas, start, end) && IsTop(r.items, deltas, r.sortBy, r.limit);
    ChangesAreDeltas(deltas, start, end);
    TopMeaning(r.items, deltas, r.sortBy, r.limit);
    forall d | d in r.items ensures d in deltas {
      assert d in multiset(r.items);
    }
    if |r.items| < r.limit {
      SameElements(r.items, deltas);
    }
  }

  lemma {:induction false} ReportedDelta(deltas: seq<QueryDelta>, start: Option<QuerySnapshotPoint>, end: Option<QuerySnapshotPoint>, key: RowKey)
    returns (d: QueryDelta)
    requires UniqueIn(end) && AreDeltasBetween(deltas, start, end) && KeyReported(start, end, key)
    ensures d in deltas && d.key == key && d.counters == Change(start, end, key)
  {
    ChangesAreDeltas(deltas, start, end);
    d :| d in deltas && d.key == key;
  }

  /** The items are in order, and no reported key left out has a pair above an item's. */
  lemma {:induction false} ItemsAreOrdered(r: PeriodResult, rows: seq<QueryRow>)
    requires UniquePoints(rows) && IsPeriodResult(r, rows)
    ensures forall i, j :: 0 <= i < j < |r.items| ==> RanksFirst(r.sortBy, r.items[i], r.items[j])
    ensures var start := LatestAtOrBefore(rows, r.dbIdentifier, r.window.startAt.instant);
            var end := LatestAtOrBefore(rows, r.dbIdentifier, r.window.endAt.instant);
            forall k, x :: KeyReported(start, end, k) && !Lists(r, k) && x in r.items ==>
              PairNotBelow(r.sortBy, x.counters, Change(start, end, k))
  {
    var start := LatestAtOrBefore(rows, r.dbIdentifier, r.window.startAt.instant);
    var end := LatestAtOrBefore(rows, r.dbIdentifier, r.window.endAt.instant);
    FoundPointsAreProper(rows, r.dbIdentifier, r.window.endAt.instant);
    var deltas :| AreDeltasBetween(deltas, start, end) && IsTop(r.items, deltas, r.sortBy, r.limit);
    TopIsOrdered(r.items, deltas, r.sortBy, r.limit);
    forall k, x | KeyReported(start, end, k) && !Lists(r, k) && x in r.items
      ensures PairNotBelow(r.sortBy, x.counters, Change(start, end, k))
    {
      var d := ReportedDelta(deltas, start, end, k);
      assert d !in r.items;
      assert RanksFirst(r.sortBy, x, d);
    }
  }

  predicate Lists(r: PeriodResult, key: RowKey) {
    exists d :: d in r.items && d.key == key
  }

  /** A result says what a key did if it lists the key or was not cut. */
  predicate Tells(r: PeriodResult, key: RowKey) {
    Lists(r, key) || |r.items| < r.limit
  }

  /** The counters a result gives for a key, zero when it does not list it. */
  ghost function Amount(r: PeriodResult, key: RowKey): Counters {
    if Lists(r, key) then
      var d :| d in r.items && d.key == key;
      d.counters
    else ZERO
  }

  function PointAt(rows: seq<QueryRow>, db: string, at: Moment): Option<QuerySnapshotPoint> {
    LatestAtOrBefore(rows, db, at.instant)
  }

  /** A result that tells about a key tells its change between the two points. */
  lemma {:induction false} AmountBetween(r: PeriodResult, rows: seq<QueryRow>, key: RowKey, start: Option<QuerySnapshotPoint>, end: Option<QuerySnapshotPoint>)
    requires UniquePoints(rows) && IsPeriodResult(r, rows) && Tells(r, key)
    requires start == PointAt(rows, r.dbIdentifier, r.window.startAt) && end == PointAt(rows, r.dbIdentifier, r.window.endAt)
    ensures Amount(r, key) == Change(start, end, key) && Lists(r, key) == KeyReported(start, end, key)
  {
    ItemsAreChanges(r, rows);
  }

  /** The one window that spans both weeks. */
  ghost predicate Spans(whole: PeriodResult, w: WeekOverWeekResult, rows: seq<QueryRow>) {
    && IsPeriodResult(whole, rows) && whole.dbIdentifier == w.dbIdentifier
    && whole.window == PeriodWindow(w.previousWeek.window.startAt, w.currentWeek.window.endAt)
  }

  /** The values of a key at the three boundaries of a comparison. */
  function StartValue(w: WeekOverWeekResult, rows: seq<QueryRow>, key: RowKey): Counters {
    ValueAt(PointAt(rows, w.dbIdentifier, w.previousWeek.window.startAt), key)
  }

  function MiddleValue(w: WeekOverWeekResult, rows: seq<QueryRow>, key: RowKey): Counters {
    ValueAt(PointAt(rows, w.dbIdentifier, w.currentWeek.window.startAt), key)
  }

  function EndValue(w: WeekOverWeekResult, rows: seq<QueryRow>, key: RowKey): Counters {
    ValueAt(PointAt(rows, w.dbIdentifier, w.currentWeek.window.endAt), key)
  }

  /** What a result tells about a key follows from the key's values at its two bounds. */
  lemma {:induction false} ToldIsGrowth(r: PeriodResult, rows: seq<QueryRow>, key: RowKey, start: Counters, end: Counters)
    requires UniquePoints(rows) && NonNegativeRows(rows) && IsPeriodResult(r, rows) && Tells(r, key)
    requires start == ValueAt(PointAt(rows, r.dbIdentifier, r.window.startAt), key)
    requires end == ValueAt(PointAt(rows, r.dbIdentifier, r.window.endAt), key)
    ensures Amount(r, key) == Growth(start, end)
    ensures Lists(r, key) <==> Reported(start, end)
  {
    var s, e := PointAt(rows, r.dbIdentifier, r.window.startAt), PointAt(rows, r.dbIdentifier, r.window.endAt);
    AmountBetween(r, rows, key, s, e);
    FoundIsProperAndNonNegative(rows, r.dbIdentifier, r.window.startAt.instant);
    FoundIsProperAndNonNegative(rows, r.dbIdentifier, r.window.endAt.instant);
    ChangeByValues(s, e, key);
  }

  lemma {:induction false} WeeksTold(w: WeekOverWeekResult, whole: PeriodResult, rows: seq<QueryRow>, key: RowKey, a: Counters, b: Counters, c: Counters)
    requires UniquePoints(rows) && NonNegativeRows(rows) && IsComparison(w, rows) && Spans(whole, w, rows)
    requires Tells(w.currentWeek, key) && Tells(w.previousWeek, key) && Tells(whole, key)
    requires a == StartValue(w, rows, key) && b == MiddleValue(w, rows, key) && c == EndValue(w, rows, key)
    ensures Amount(w.previousWeek, key) == Growth(a, b) && (Lists(w.previousWeek, key) <==> Reported(a, b))
    ensures Amount(w.currentWeek, key) == Growth(b, c) && (Lists(w.currentWeek, key) <==> Reported(b, c))
    ensures Amount(whole, key) == Growth(a, c) && (Lists(whole, key) <==> Reported(a, c))
  {
    ToldIsGrowth(w.previousWeek, rows, key, a, b);
    ToldIsGrowth(w.currentWeek, rows, key, b, c);
    ToldIsGrowth(whole, rows, key, a, c);
  }

  /**
    Week over week against the one window spanning both weeks, for a key each result tells about: the two
    weeks' counts sum to the whole's if and only if the key's values at the three boundaries compose.
   */
  lemma {:induction false} WeeksAddUp(w: WeekOverWeekResult, whole: PeriodResult, rows: seq<QueryRow>, key: RowKey)
    requires UniquePoints(rows) && NonNegativeRows(rows) && IsComparison(w, rows) && Spans(whole, w, rows)
    requires Tells(w.currentWeek, key) && Tells(w.previousWeek, key) && Tells(whole, key)
    ensures Amount(whole, key) == Plus(Amount(w.previousWeek, key), Amount(w.currentWeek, key)) <==>
            Composes(StartValue(w, rows, key), MiddleValue(w, rows, key), EndValue(w, rows, key))
  {
    var a, b, c := StartValue(w, rows, key), MiddleValue(w, rows, key), EndValue(w, rows, key);
    var x, y, z := Amount(whole, key), Amount(w.previousWeek, key), Amount(w.currentWeek, key);
    assert x == Plus(y, z) <==> Composes(a, b, c) by {
      WeeksTold(w, whole, rows, key, a, b, c);
      AmountsAdd(a, b, c, x, y, z);
    }
  }

  /** When they add up, the whole lists the key exactly when one of the weeks does. */
  lemma {:induction false} WeeksListTogether(w: WeekOverWeekResult, whole: PeriodResult, rows: seq<QueryRow>, key: RowKey)
    requires UniquePoints(rows) && NonNegativeRows(rows) && IsComparison(w, rows) && Spans(whole, w, rows)
    requires Tells(w.currentWeek, key) && Tells(w.previousWeek, key) && Tells(whole, key)
    requires Composes(StartValue(w, rows, key), MiddleValue(w, rows, key), EndValue(w, rows, key))
    ensures Lists(whole, key) <==> Lists(w.previousWeek, key) || Lists(w.currentWeek, key)
  {
    var a, b, c := StartValue(w, rows, key), MiddleValue(w, rows, key), EndValue(w, rows, key);
    WeeksTold(w, whole, rows, key, a, b, c);
    ComposingValuesReport(a, b, c);
  }

  ghost predicate NonNegativeRows(rows: seq<QueryRow>) {
    forall r :: r in rows ==> AtMost(ZERO, r.metric.counters)
  }

  lemma {:induction false} FoundIsProperAndNonNegative(rows: seq<QueryRow>, db: string, ts: int)
    requires UniquePoints(rows) && NonNegativeRows(rows)
    ensures UniqueIn(LatestAtOrBefore(rows, db, ts)) && NonNegativeIn(LatestAtOrBefore(rows, db, ts))
  {
    FoundPointsAreProper(rows, db, ts);
    LatestMeaning(rows, db, ts);
  }
}
