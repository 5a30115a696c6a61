/** Period results against what the statements really did: from a history of executions and resets to the answer. */
module AnalyticsHistory {
  import opened Wrappers
  import opened Models
  import opened QueryTable
  import opened QueryLookup
  import opened Delta
  import opened CounterHistory
  import opened Scheduler
  import opened Analytics
  import opened AnalyticsLog

  /** The statistics of one server: what happened to them, and how much of it had happened at each capture time. */
  datatype History = History(events: seq<StatEvent>, position: int -> nat)

  predicate Reaches(h: History, t: int) {
    h.position(t) <= |h.events|
  }

  function StatsAt(h: History, t: int): Stats
    requires Reaches(h, t)
  {
    AfterEvents(map[], h.events[..h.position(t)])
  }

  ghost predicate InOrder(h: History) {
    && CostsAreNonNegative(h.events)
    && (forall t :: Reaches(h, t))
    && (forall t, u :: t <= u ==> h.position(t) <= h.position(u))
  }

  /** Every non-empty logged snapshot of `db` holds exactly the statistics there were at its capture time. */
  ghost predicate Observes(log: seq<QuerySnapshot>, db: string, h: History) {
    && InOrder(h)
    && forall t, m :: Logged(log, db, t, m) ==> HoldsAll(log, db, t, StatsAt(h, t))
  }

  ghost predicate HoldsAll(log: seq<QuerySnapshot>, db: string, t: int, stats: Stats) {
    && (forall m :: Logged(log, db, t, m) ==> m.key in stats && stats[m.key] == m.counters)
    && (forall k :: k in stats ==> exists m :: Logged(log, db, t, m) && m.key == k)
  }

  /** What happened between two capture times. */
  function Between(h: History, t: int, u: int): seq<StatEvent>
    requires Reaches(h, u) && h.position(t) <= h.position(u)
  {
    h.events[h.position(t)..h.position(u)]
  }

  lemma {:induction false} AfterConcat(stats: Stats, a: seq<StatEvent>, b: seq<StatEvent>)
    ensures AfterEvents(stats, a + b) == AfterEvents(AfterEvents(stats, a), b)
  {
    if b == [] {
      assert a + b == a;
    } else {
      var n := |b| - 1;
      assert (a + b)[..|a + b| - 1] == a + b[..n];
      AfterConcat(stats, a, b[..n]);
    }
  }

  lemma {:induction false} StatsAdvance(h: History, t: int, u: int)
    requires InOrder(h) && t <= u
    ensures StatsAt(h, u) == AfterEvents(StatsAt(h, t), Between(h, t, u))
    ensures StatsAreNonNegative(StatsAt(h, t)) && CostsAreNonNegative(Between(h, t, u))
  {
    assert Reaches(h, t) && Reaches(h, u);
    var before := h.events[..h.position(t)];
    assert h.events[..h.position(u)] == before + Between(h, t, u);
    AfterConcat(map[], before, Between(h, t, u));
    forall i | 0 <= i < |before| && before[i].Executed? ensures AtMost(ZERO, before[i].cost) {
      assert h.events[i].Executed?;
    }
    StaysNonNegative(map[], before);
  }

  /** A point found in the stored rows is a snapshot of the statistics at its capture time. */
  lemma {:induction false} PointIsSnapshot(log: seq<QuerySnapshot>, db: string, h: History, ts: int)
    requires UniquePoints(LogRows(log)) && Observes(log, db, h)
    requires LatestAtOrBefore(LogRows(log), db, ts).Some?
    ensures var p := LatestAtOrBefore(LogRows(log), db, ts).value;
            Reaches(h, p.capturedAt) && IsSnapshotOf(p, StatsAt(h, p.capturedAt))
  {
    var p := LatestAtOrBefore(LogRows(log), db, ts).value;
    var at := p.capturedAt;
    assert Reaches(h, at);
    LookupIsLatestLogged(log, db, ts);
    FoundPointsAreProper(LogRows(log), db, ts);
    IndexExact(p.rows);
    var any :| Logged(log, db, at, any);
    assert HoldsAll(log, db, at, StatsAt(h, at));
    forall k ensures (k in KeysOf(Some(p)) <==> k in StatsAt(h, at)) && ValueAt(Some(p), k) == Value(StatsAt(h, at), k) {
      if k in IndexRows(p.rows) {
        assert Logged(log, db, at, IndexRows(p.rows)[k].metric);
      }
      if k in StatsAt(h, at) {
        var m :| Logged(log, db, at, m) && m.key == k;
        assert QueryRow(at, db, m) in p.rows;
      }
    }
  }

  /** What a change says about the activity it stands for. */
  ghost predicate Honest(change: Counters, h: History, t: int, u: int, key: RowKey)
    requires Reaches(h, u) && h.position(t) <= h.position(u)
  {
    var between := Between(h, t, u);
    && AtMost(change, Activity(between, key))
    && ((forall i :: 0 <= i < |between| ==> !Drops(between[i], key)) ==> change == Activity(between, key))
  }

  lemma {:induction false} ChangeIsHonest(p: QuerySnapshotPoint, q: QuerySnapshotPoint, h: History, key: RowKey)
    requires InOrder(h) && p.capturedAt <= q.capturedAt && Reaches(h, p.capturedAt) && Reaches(h, q.capturedAt)
    requires IsSnapshotOf(p, StatsAt(h, p.capturedAt)) && IsSnapshotOf(q, StatsAt(h, q.capturedAt))
    ensures Honest(Change(Some(p), Some(q), key), h, p.capturedAt, q.capturedAt, key)
  {
    var stats, between := StatsAt(h, p.capturedAt), Between(h, p.capturedAt, q.capturedAt);
    StatsAdvance(h, p.capturedAt, q.capturedAt);
    DeltasNeverOverReport(p, q, stats, between, key);
    if forall i :: 0 <= i < |between| ==> !Drops(between[i], key) {
      UndroppedIsExact(p, q, stats, between, key);
    }
  }

  /**
    A period result with a start point, against the history its snapshots observed: no item exceeds what its
    statement did between the two boundary snapshots; it is exact if the statement was not dropped in between;
    and a statement missing from an uncut list was dropped or did nothing.
   */
  lemma {:induction false} ItemsAreHonest(r: PeriodResult, log: seq<QuerySnapshot>, h: History, key: RowKey)
    requires UniquePoints(LogRows(log)) && Observes(log, r.dbIdentifier, h)
    requires ValidWindow(r.window) && IsPeriodResult(r, LogRows(log)) && r.snapshotStartAt.Some? && Tells(r, key)
    ensures r.snapshotEndAt.Some? && r.snapshotStartAt.value <= r.snapshotEndAt.value
    ensures Reaches(h, r.snapshotEndAt.value) && h.position(r.snapshotStartAt.value) <= h.position(r.snapshotEndAt.value)
    ensures Honest(Amount(r, key), h, r.snapshotStartAt.value, r.snapshotEndAt.value, key)
  {
    var db, rows := r.dbIdentifier, LogRows(log);
    var s, e := r.window.startAt, r.window.endAt;
    LatestIsMonotone(rows, db, s.instant, e.instant);
    PointIsSnapshot(log, db, h, s.instant);
    PointIsSnapshot(log, db, h, e.instant);
    AmountBetween(r, rows, key, PointAt(rows, db, s), PointAt(rows, db, e));
    ChangeIsHonest(PointAt(rows, db, s).value, PointAt(rows, db, e).value, h, key);
  }

  /** The same after any sequence of job runs, failing anywhere. */
  lemma {:induction false} ReportsAreHonest(jobs: seq<Job>, r: PeriodResult, h: History, key: RowKey)
    requires Observes(QueryLog(jobs), r.dbIdentifier, h)
    requires ValidWindow(r.window) && IsPeriodResult(r, RunJobs(jobs).store.queries)
    requires r.snapshotStartAt.Some? && Tells(r, key)
    ensures r.snapshotEndAt.Some? && Reaches(h, r.snapshotEndAt.value)
    ensures h.position(r.snapshotStartAt.value) <= h.position(r.snapshotEndAt.value)
    ensures Honest(Amount(r, key), h, r.snapshotStartAt.value, r.snapshotEndAt.value, key)
  {
    RunsKeepView(jobs);
    ItemsAreHonest(r, QueryLog(jobs), h, key);
  }
}
