/** Period results read directly off the log of committed query snapshots. */
module AnalyticsLog {
  import opened Wrappers
  import opened Sorting
  import opened Models
  import opened QueryTable
  import opened QueryLookup
  import opened Delta
  import opened Ranking
  import opened Scheduler
  import opened Analytics

  /** A committed snapshot of `db` taken at `at` contains the statement. */
  ghost predicate Logged(log: seq<QuerySnapshot>, db: string, at: int, m: StatementMetric) {
    exists i :: 0 <= i < |log| && log[i].dbIdentifier == db && log[i].capturedAt == at && m in log[i].statements
  }

  /** The latest time not after `ts` at which a non-empty snapshot of `db` was taken. */
  ghost predicate LatestLogged(log: seq<QuerySnapshot>, db: string, ts: int, at: Option<int>) {
    match at
    case None => forall t, m :: Logged(log, db, t, m) ==> t > ts
    case Some(latest) =>
      && latest <= ts && (exists m :: Logged(log, db, latest, m))
      && forall t, m :: Logged(log, db, t, m) && t <= ts ==> t <= latest
  }

  /** The counters logged for a key at that time, zero when there are none. */
  ghost predicate CountersLogged(log: seq<QuerySnapshot>, db: string, at: Option<int>, key: RowKey, c: Counters) {
    if at.Some? && exists m :: Logged(log, db, at.value, m) && m.key == key
    then exists m :: Logged(log, db, at.value, m) && m.key == key && m.counters == c
    else c == ZERO
  }

  /** The end snapshot has the statement, its counters did not fall since the start snapshot, and some rose. */
  ghost predicate Grew(r: PeriodResult, log: seq<QuerySnapshot>, m: StatementMetric, c: Counters) {
    && r.snapshotEndAt.Some? && Logged(log, r.dbIdentifier, r.snapshotEndAt.value, m)
    && CountersLogged(log, r.dbIdentifier, r.snapshotStartAt, m.key, c) && Reported(c, m.counters)
  }

  /** The item that would report the growth from `c`. */
  function ItemOf(m: StatementMetric, c: Counters): QueryDelta {
    QueryDelta(m.key, m.query, Minus(m.counters, c),
               if m.counters.calls == c.calls then None
               else Some((m.counters.totalExecTimeMs - c.totalExecTimeMs) / (m.counters.calls - c.calls) as real))
  }

  /**
    The answer in terms of what was collected, with no table, point or delta list in between: the boundary
    times, one item for every statement that grew, and if there are too many, those that rank first.
   */
  ghost predicate AnswersFrom(r: PeriodResult, log: seq<QuerySnapshot>) {
    var db := r.dbIdentifier;
    && r.limit > 0 && |r.items| <= r.limit
    && LatestLogged(log, db, r.window.startAt.instant, r.snapshotStartAt)
    && LatestLogged(log, db, r.window.endAt.instant, r.snapshotEndAt)
    && (forall i, j :: 0 <= i < j < |r.items| ==> RanksFirst(r.sortBy, r.items[i], r.items[j])) && UniqueDeltaKeys(r.items)
    && (forall d :: d in r.items ==> exists m, c :: Grew(r, log, m, c) && d == ItemOf(m, c))
    && (forall m, c :: Grew(r, log, m, c) ==> KeptOrOutranked(r, ItemOf(m, c)))
  }

  ghost predicate KeptOrOutranked(r: PeriodResult, d: QueryDelta) {
    d in r.items || (|r.items| == r.limit && forall i :: i in r.items ==> RanksFirst(r.sortBy, i, d))
  }

  lemma {:induction false} LogRowsExact(log: seq<QuerySnapshot>)
    ensures forall r :: r in LogRows(log) <==> Logged(log, r.dbIdentifier, r.capturedAt, r.metric)
  {
    if log == [] {
    } else {
      var n := |log| - 1;
      LogRowsExact(log[..n]);
      forall r ensures r in LogRows(log) <==> Logged(log, r.dbIdentifier, r.capturedAt, r.metric) {
        if r in LogRows(log[..n]) {
          var i :| 0 <= i < n && log[..n][i].dbIdentifier == r.dbIdentifier && log[..n][i].capturedAt == r.capturedAt
                   && r.metric in log[..n][i].statements;
          assert log[i] == log[..n][i];
        } else if r in QueryRowsOf(log[n]) {
          assert r.metric in log[n].statements;
        }
        if Logged(log, r.dbIdentifier, r.capturedAt, r.metric) {
          var i :| 0 <= i < |log| && log[i].dbIdentifier == r.dbIdentifier && log[i].capturedAt == r.capturedAt
                   && r.metric in log[i].statements;
          if i < n {
            assert log[..n][i] == log[i];
            assert Logged(log[..n], r.dbIdentifier, r.capturedAt, r.metric);
          } else {
            var j :| 0 <= j < |log[n].statements| && log[n].statements[j] == r.metric;
            assert QueryRowsOf(log[n])[j] == r;
          }
        }
      }
    }
  }

  lemma {:induction false} LookupIsLatestLogged(log: seq<QuerySnapshot>, db: string, ts: int)
    ensures LatestLogged(log, db, ts, CapturedAt(LatestAtOrBefore(LogRows(log), db, ts)))
    ensures var p := LatestAtOrBefore(LogRows(log), db, ts);
            p.Some? ==> forall row :: row in p.value.rows <==>
              row.dbIdentifier == db && row.capturedAt == p.value.capturedAt && Logged(log, db, p.value.capturedAt, row.metric)
  {
    var rows := LogRows(log);
    LogRowsExact(log);
    LatestMeaning(rows, db, ts);
    forall t, m | Logged(log, db, t, m) ensures QueryRow(t, db, m) in rows {}
    var p := LatestAtOrBefore(rows, db, ts);
    if p.Some? {
      var first := p.value.rows[0];
      assert first in p.value.rows;
      assert Logged(log, db, p.value.capturedAt, first.metric);
      forall t, m | Logged(log, db, t, m) && t <= ts ensures t <= p.value.capturedAt {
        assert QueryRow(t, db, m) in rows;
      }
    } else {
      forall t, m | Logged(log, db, t, m) ensures t > ts {
        assert QueryRow(t, db, m) in rows;
      }
    }
  }

  lemma {:induction false} LoggedIsValue(log: seq<QuerySnapshot>, db: string, ts: int, key: RowKey, c: Counters)
    requires UniquePoints(LogRows(log))
    requires CountersLogged(log, db, CapturedAt(LatestAtOrBefore(LogRows(log), db, ts)), key, c)
    ensures c == ValueAt(LatestAtOrBefore(LogRows(log), db, ts), key)
  {
    var p := LatestAtOrBefore(LogRows(log), db, ts);
    LookupIsLatestLogged(log, db, ts);
    FoundPointsAreProper(LogRows(log), db, ts);
    if p.Some? {
      var at, rows := p.value.capturedAt, p.value.rows;
      IndexExact(rows);
      assert key in IndexRows(rows) ==> Logged(log, db, at, IndexRows(rows)[key].metric);
      if m :| Logged(log, db, at, m) && m.key == key && m.counters == c {
        assert QueryRow(at, db, m) in rows;
      }
    }
  }

  lemma {:induction false} ValueIsLogged(log: seq<QuerySnapshot>, db: string, ts: int, key: RowKey)
    requires UniquePoints(LogRows(log))
    ensures var p := LatestAtOrBefore(LogRows(log), db, ts);
            CountersLogged(log, db, CapturedAt(p), key, ValueAt(p, key))
  {
    var p := LatestAtOrBefore(LogRows(log), db, ts);
    LookupIsLatestLogged(log, db, ts);
    FoundPointsAreProper(LogRows(log), db, ts);
    if p.Some? {
      var at, rows := p.value.capturedAt, p.value.rows;
      IndexExact(rows);
      if m :| Logged(log, db, at, m) && m.key == key {
        assert QueryRow(at, db, m) in rows;
        assert ValueAt(p, key) == m.counters;
      }
    }
  }

  lemma {:induction false} ItemIsDelta(m: StatementMetric, c: Counters, row: QueryRow)
    requires row.metric == m
    ensures IsDeltaOf(ItemOf(m, c), row, c)
  {
  }

  function Start(r: PeriodResult, log: seq<QuerySnapshot>): Option<QuerySnapshotPoint> {
    LatestAtOrBefore(LogRows(log), r.dbIdentifier, r.window.startAt.instant)
  }

  function End(r: PeriodResult, log: seq<QuerySnapshot>): Option<QuerySnapshotPoint> {
    LatestAtOrBefore(LogRows(log), r.dbIdentifier, r.window.endAt.instant)
  }

  function EndRows(r: PeriodResult, log: seq<QuerySnapshot>): seq<QueryRow> {
    if End(r, log).None? then [] else End(r, log).value.rows
  }

  ghost predicate HasBoundaries(r: PeriodResult, log: seq<QuerySnapshot>) {
    r.snapshotStartAt == CapturedAt(Start(r, log)) && r.snapshotEndAt == CapturedAt(End(r, log))
  }

  /** Rows that are reported are statements that grew, and each gives the same item either way. */
  lemma {:induction false} DeltaIsGrowth(r: PeriodResult, log: seq<QuerySnapshot>, deltas: seq<QueryDelta>, d: QueryDelta)
    requires UniquePoints(LogRows(log)) && HasBoundaries(r, log)
    requires AreDeltas(deltas, Start(r, log), EndRows(r, log)) && d in deltas
    ensures exists m, c :: Grew(r, log, m, c) && d == ItemOf(m, c)
  {
    DeltasComeFromRows(deltas, Start(r, log), EndRows(r, log));
    var row :| row in EndRows(r, log) && Reports(d, Start(r, log), row);
    var m, c := row.metric, ValueAt(Start(r, log), row.metric.key);
    LookupIsLatestLogged(log, r.dbIdentifier, r.window.endAt.instant);
    ValueIsLogged(log, r.dbIdentifier, r.window.startAt.instant, m.key);
    ItemIsDelta(m, c, row);
    DeltaIsUnique(d, ItemOf(m, c), row, c);
    assert Grew(r, log, m, c);
  }

  lemma {:induction false} GrowthIsDelta(r: PeriodResult, log: seq<QuerySnapshot>, deltas: seq<QueryDelta>, m: StatementMetric, c: Counters)
    requires UniquePoints(LogRows(log)) && HasBoundaries(r, log)
    requires AreDeltas(deltas, Start(r, log), EndRows(r, log)) && Grew(r, log, m, c)
    ensures ItemOf(m, c) in deltas
  {
    LoggedIsValue(log, r.dbIdentifier, r.window.startAt.instant, m.key, c);
    LookupIsLatestLogged(log, r.dbIdentifier, r.window.endAt.instant);
    var row := QueryRow(r.snapshotEndAt.value, r.dbIdentifier, m);
    assert row in EndRows(r, log);
    RowsGiveDeltas(deltas, Start(r, log), EndRows(r, log));
    var d :| d in deltas && Reports(d, Start(r, log), row);
    ItemIsDelta(m, c, row);
    DeltaIsUnique(d, ItemOf(m, c), row, c);
  }

  lemma {:induction false} DeltasAreProper(r: PeriodResult, log: seq<QuerySnapshot>, deltas: seq<QueryDelta>)
    requires UniquePoints(LogRows(log)) && AreDeltas(deltas, Start(r, log), EndRows(r, log))
    ensures UniqueDeltaKeys(deltas)
  {
    FoundPointsAreProper(LogRows(log), r.dbIdentifier, r.window.endAt.instant);
    DeltasKeepOrder(deltas, Start(r, log), EndRows(r, log));
  }

  /** A period result over the stored rows is the answer the log itself gives. */
  lemma {:induction false} ResultAnswersFromLog(r: PeriodResult, log: seq<QuerySnapshot>)
    requires UniquePoints(LogRows(log)) && IsPeriodResult(r, LogRows(log))
    ensures AnswersFrom(r, log)
  {
    LookupIsLatestLogged(log, r.dbIdentifier, r.window.startAt.instant);
    LookupIsLatestLogged(log, r.dbIdentifier, r.window.endAt.instant);
    var deltas :| AreDeltasBetween(deltas, Start(r, log), End(r, log)) && IsTop(r.items, deltas, r.sortBy, r.limit);
    DeltasAreProper(r, log, deltas);
    TopMeaning(r.items, deltas, r.sortBy, r.limit);
    TopIsOrdered(r.items, deltas, r.sortBy, r.limit);
    PartKeepsUniqueKeys(r.items, deltas);
    forall d | d in r.items ensures exists m, c :: Grew(r, log, m, c) && d == ItemOf(m, c) {
      assert d in multiset(r.items);
      DeltaIsGrowth(r, log, deltas, d);
    }
    forall m, c | Grew(r, log, m, c) ensures KeptOrOutranked(r, ItemOf(m, c)) {
      GrowthIsDelta(r, log, deltas, m, c);
      if |r.items| < r.limit {
        SameElements(r.items, deltas);
      }
    }
  }

  lemma {:induction false} LatestLoggedIsUnique(log: seq<QuerySnapshot>, db: string, ts: int, a: Option<int>, b: Option<int>)
    requires LatestLogged(log, db, ts, a) && LatestLogged(log, db, ts, b)
    ensures a == b
  {
    if a.Some? {
      var m :| Logged(log, db, a.value, m);
    }
    if b.Some? {
      var m :| Logged(log, db, b.value, m);
    }
  }

  /** Whatever the log answers is a period result over the stored rows. */
  lemma {:induction false} AnswerIsResult(r: PeriodResult, log: seq<QuerySnapshot>)
    requires UniquePoints(LogRows(log)) && AnswersFrom(r, log)
    ensures IsPeriodResult(r, LogRows(log))
  {
    var db, s, e := r.dbIdentifier, r.window.startAt.instant, r.window.endAt.instant;
    LookupIsLatestLogged(log, db, s);
    LookupIsLatestLogged(log, db, e);
    LatestLoggedIsUnique(log, db, s, r.snapshotStartAt, CapturedAt(Start(r, log)));
    LatestLoggedIsUnique(log, db, e, r.snapshotEndAt, CapturedAt(End(r, log)));
    var deltas := DeltasExist(Start(r, log), EndRows(r, log));
    DeltasAreProper(r, log, deltas);
    forall d | d in r.items ensures d in deltas {
      var m, c :| Grew(r, log, m, c) && d == ItemOf(m, c);
      GrowthIsDelta(r, log, deltas, m, c);
    }
    forall d | d in deltas && d !in r.items
      ensures |r.items| == r.limit && forall i :: i in r.items ==> Rank(r.sortBy)(i, d)
    {
      DeltaIsGrowth(r, log, deltas, d);
      assert KeptOrOutranked(r, d);
      forall i | i in r.items ensures Rank(r.sortBy)(i, d) {
        RankMeaning(r.sortBy, i, d);
      }
    }
    forall i, j | 0 <= i < j < |r.items| ensures Rank(r.sortBy)(r.items[i], r.items[j]) {
      RankMeaning(r.sortBy, r.items[i], r.items[j]);
    }
    ChoiceIsTop(r.items, deltas, r.sortBy, r.limit);
    assert AreDeltasBetween(deltas, Start(r, log), End(r, log));
  }

  /**
    End to end: after any sequence of job runs, failing anywhere, the period results over the stored rows are
    exactly the answers of the committed query snapshots themselves.
   */
  lemma {:induction false} ResultsAfterRuns(jobs: seq<Job>, r: PeriodResult)
    ensures IsPeriodResult(r, RunJobs(jobs).store.queries) <==> AnswersFrom(r, QueryLog(jobs))
  {
    RunsKeepView(jobs);
    if IsPeriodResult(r, RunJobs(jobs).store.queries) {
      ResultAnswersFromLog(r, QueryLog(jobs));
    }
    if AnswersFrom(r, QueryLog(jobs)) {
      AnswerIsResult(r, QueryLog(jobs));
    }
  }

  /** The log gives one answer to a request. */
  lemma {:induction false} AnswerIsUnique(a: PeriodResult, b: PeriodResult, log: seq<QuerySnapshot>)
    requires UniquePoints(LogRows(log)) && AnswersFrom(a, log) && AnswersFrom(b, log)
    requires a.(snapshotStartAt := None, snapshotEndAt := None, items := []) == b.(snapshotStartAt := None, snapshotEndAt := None, items := [])
    ensures a == b
  {
    AnswerIsResult(a, log);
    AnswerIsResult(b, log);
    PeriodResultIsDetermined(a, b, LogRows(log), LogRows(log));
  }
}
