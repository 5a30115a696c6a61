/** Counter deltas between two query snapshot points. */
module Delta {
  import opened Wrappers
  import opened Sorting
  import opened Models
  import opened QueryLookup

  const ZERO := Counters(0, 0.0, 0, 0, 0, 0, 0)

  function Plus(a: Counters, b: Counters): Counters {
    Counters(a.calls + b.calls, a.totalExecTimeMs + b.totalExecTimeMs, a.rows + b.rows,
             a.sharedBlksHit + b.sharedBlksHit, a.sharedBlksRead + b.sharedBlksRead,
             a.sharedBlksDirtied + b.sharedBlksDirtied, a.sharedBlksWritten + b.sharedBlksWritten)
  }

  function Minus(a: Counters, b: Counters): Counters {
    Counters(a.calls - b.calls, a.totalExecTimeMs - b.totalExecTimeMs, a.rows - b.rows,
             a.sharedBlksHit - b.sharedBlksHit, a.sharedBlksRead - b.sharedBlksRead,
             a.sharedBlksDirtied - b.sharedBlksDirtied, a.sharedBlksWritten - b.sharedBlksWritten)
  }

  /** No counter of `a` is above that of `b`. */
  predicate AtMost(a: Counters, b: Counters) {
    && a.calls <= b.calls && a.totalExecTimeMs <= b.totalExecTimeMs && a.rows <= b.rows
    && a.sharedBlksHit <= b.sharedBlksHit && a.sharedBlksRead <= b.sharedBlksRead
    && a.sharedBlksDirtied <= b.sharedBlksDirtied && a.sharedBlksWritten <= b.sharedBlksWritten
  }

  datatype QueryDelta = QueryDelta(
    key: RowKey, query: string, counters: Counters, meanExecTimeMs: Option<real>)

  /** `_index_rows`: a later row with the same key wins. */
  function IndexRows(rows: seq<QueryRow>): map<RowKey, QueryRow> {
    if rows == [] then map[] else
      IndexRows(rows[..|rows| - 1])[rows[|rows| - 1].metric.key := rows[|rows| - 1]]
  }

  predicate UniqueKeys(rows: seq<QueryRow>) {
    forall i, j :: 0 <= i < j < |rows| ==> rows[i].metric.key != rows[j].metric.key
  }

  // ----- What a delta is

  /** The counters a point holds for a key; zero when it has no row for it. */
  function ValueAt(point: Option<QuerySnapshotPoint>, key: RowKey): Counters {
    if point.Some? && key in IndexRows(point.value.rows) then IndexRows(point.value.rows)[key].metric.counters else ZERO
  }

  /** A row is reported when nothing fell and something rose. */
  predicate Reported(start: Counters, end: Counters) {
    AtMost(start, end) && start != end
  }

  predicate IsDeltaOf(d: QueryDelta, row: QueryRow, start: Counters) {
    && d.key == row.metric.key && d.query == row.metric.query
    && Plus(start, d.counters) == row.metric.counters
    && (d.meanExecTimeMs.None? <==> d.counters.calls == 0)
    && (d.meanExecTimeMs.Some? ==> d.meanExecTimeMs.value * d.counters.calls as real == d.counters.totalExecTimeMs)
  }

  /** Reported: no column fell and some column rose. */
  lemma {:induction false} ReportedInColumns(start: Counters, end: Counters)
    ensures Reported(start, end) <==>
              && end.calls - start.calls >= 0 && end.totalExecTimeMs - start.totalExecTimeMs >= 0.0
              && end.rows - start.rows >= 0 && end.sharedBlksHit - start.sharedBlksHit >= 0
              && end.sharedBlksRead - start.sharedBlksRead >= 0 && end.sharedBlksDirtied - start.sharedBlksDirtied >= 0
              && end.sharedBlksWritten - start.sharedBlksWritten >= 0
              && !(end.calls == start.calls && end.totalExecTimeMs == start.totalExecTimeMs
                   && end.rows == start.rows && end.sharedBlksHit == start.sharedBlksHit
                   && end.sharedBlksRead == start.sharedBlksRead && end.sharedBlksDirtied == start.sharedBlksDirtied
                   && end.sharedBlksWritten == start.sharedBlksWritten)
  {
  }

  /** A delta holds, column by column, the difference of its end row to the start counters. */
  lemma {:induction false} DeltaInColumns(d: QueryDelta, row: QueryRow, start: Counters)
    requires IsDeltaOf(d, row, start)
    ensures var c, end := d.counters, row.metric.counters;
            && c.calls == end.calls - start.calls && c.totalExecTimeMs == end.totalExecTimeMs - start.totalExecTimeMs
            && c.rows == end.rows - start.rows && c.sharedBlksHit == end.sharedBlksHit - start.sharedBlksHit
            && c.sharedBlksRead == end.sharedBlksRead - start.sharedBlksRead
            && c.sharedBlksDirtied == end.sharedBlksDirtied - start.sharedBlksDirtied
            && c.sharedBlksWritten == end.sharedBlksWritten - start.sharedBlksWritten
  {
  }

  /** The reported rows of `rows`, in order, with one delta each. */
  ghost predicate AreDeltas(deltas: seq<QueryDelta>, start: Option<QuerySnapshotPoint>, rows: seq<QueryRow>)
    decreases |rows|
  {
    if rows == [] then deltas == [] else
      var n := |rows| - 1;
      var before := ValueAt(start, rows[n].metric.key);
      if Reported(before, rows[n].metric.counters) then
        && deltas != []
        && IsDeltaOf(deltas[|deltas| - 1], rows[n], before)
        && AreDeltas(deltas[..|deltas| - 1], start, rows[..n])
      else AreDeltas(deltas, start, rows[..n])
  }

  ghost predicate AreDeltasBetween(deltas: seq<QueryDelta>, start: Option<QuerySnapshotPoint>, end: Option<QuerySnapshotPoint>) {
    AreDeltas(deltas, start, if end.None? then [] else end.value.rows)
  }

  lemma {:induction false} SkippedRow(deltas: seq<QueryDelta>, start: Option<QuerySnapshotPoint>, rows: seq<QueryRow>, i: int)
    requires 0 <= i < |rows| && AreDeltas(deltas, start, rows[..i])
    requires !Reported(ValueAt(start, rows[i].metric.key), rows[i].metric.counters)
    ensures AreDeltas(deltas, start, rows[..i + 1])
  {
    assert rows[..i + 1][..i] == rows[..i];
  }

  lemma {:induction false} ReportedRow(deltas: seq<QueryDelta>, d: QueryDelta, start: Option<QuerySnapshotPoint>, rows: seq<QueryRow>, i: int)
    requires 0 <= i < |rows| && AreDeltas(deltas, start, rows[..i])
    requires Reported(ValueAt(start, rows[i].metric.key), rows[i].metric.counters)
    requires IsDeltaOf(d, rows[i], ValueAt(start, rows[i].metric.key))
    ensures AreDeltas(deltas + [d], start, rows[..i + 1])
  {
    assert rows[..i + 1][..i] == rows[..i];
    assert (deltas + [d])[..|deltas|] == deltas;
  }

  method BuildQueryDeltas(startPoint: Option<QuerySnapshotPoint>, endPoint: Option<QuerySnapshotPoint>)
    returns (deltas: seq<QueryDelta>)
    ensures AreDeltasBetween(deltas, startPoint, endPoint)
  {
    deltas := [];
    if endPoint.None? {
      return;
    }
    var startRows := if startPoint.None? then map[] else IndexRows(startPoint.value.rows);
    var rows := endPoint.value.rows;
    for i := 0 to |rows|
      invariant AreDeltas(deltas, startPoint, rows[..i])
    {
      var endRow := rows[i];
      var end := endRow.metric.counters;
      var start := if endRow.metric.key in startRows then startRows[endRow.metric.key].metric.counters else ZERO;
      var callsDelta := end.calls - start.calls;
      var totalExecTimeMsDelta := end.totalExecTimeMs - start.totalExecTimeMs;
      var rowsDelta := end.rows - start.rows;
      var hitDelta := end.sharedBlksHit - start.sharedBlksHit;
      var readDelta := end.sharedBlksRead - start.sharedBlksRead;
      var dirtiedDelta := end.sharedBlksDirtied - start.sharedBlksDirtied;
      var writtenDelta := end.sharedBlksWritten - start.sharedBlksWritten;
      if callsDelta < 0 || totalExecTimeMsDelta < 0.0 || rowsDelta < 0 || hitDelta < 0 || readDelta < 0
         || dirtiedDelta < 0 || writtenDelta < 0 {
        SkippedRow(deltas, startPoint, rows, i);
        continue;
      }
      if callsDelta == 0 && totalExecTimeMsDelta == 0.0 && rowsDelta == 0 && hitDelta == 0 && readDelta == 0
         && dirtiedDelta == 0 && writtenDelta == 0 {
        SkippedRow(deltas, startPoint, rows, i);
        continue;
      }
      var mean := if callsDelta > 0 then Some(totalExecTimeMsDelta / callsDelta as real) else None;
      var delta := QueryDelta(
        endRow.metric.key, endRow.metric.query,
        Counters(callsDelta, totalExecTimeMsDelta, rowsDelta, hitDelta, readDelta, dirtiedDelta, writtenDelta), mean);
      ReportedRow(deltas, delta, startPoint, rows, i);
      deltas := deltas + [delta];
    }
    assert rows[..|rows|] == rows;
  }

  // ----- Exactness

  lemma {:induction false} IndexHolds(rows: seq<QueryRow>, i: int)
    requires UniqueKeys(rows) && 0 <= i < |rows|
    ensures rows[i].metric.key in IndexRows(rows) && IndexRows(rows)[rows[i].metric.key] == rows[i]
  {
    var n := |rows| - 1;
    if i < n {
      IndexHolds(rows[..n], i);
      assert rows[i].metric.key != rows[n].metric.key;
    }
  }

  lemma {:induction false} IndexFrom(rows: seq<QueryRow>, key: RowKey)
    requires key in IndexRows(rows)
    ensures IndexRows(rows)[key] in rows && IndexRows(rows)[key].metric.key == key
  {
    var n := |rows| - 1;
    if key != rows[n].metric.key {
      IndexFrom(rows[..n], key);
    }
  }

  lemma {:induction false} IndexExact(rows: seq<QueryRow>)
    requires UniqueKeys(rows)
    ensures forall r :: r in rows ==> r.metric.key in IndexRows(rows) && IndexRows(rows)[r.metric.key] == r
    ensures forall k :: k in IndexRows(rows) ==> IndexRows(rows)[k] in rows && IndexRows(rows)[k].metric.key == k
  {
    forall r | r in rows ensures r.metric.key in IndexRows(rows) && IndexRows(rows)[r.metric.key] == r {
      var i :| 0 <= i < |rows| && rows[i] == r;
      IndexHolds(rows, i);
    }
    forall k | k in IndexRows(rows) ensures IndexRows(rows)[k] in rows && IndexRows(rows)[k].metric.key == k {
      IndexFrom(rows, k);
    }
  }

  /** Some row is reported as this delta. */
  ghost predicate Reports(d: QueryDelta, start: Option<QuerySnapshotPoint>, row: QueryRow) {
    Reported(ValueAt(start, row.metric.key), row.metric.counters) && IsDeltaOf(d, row, ValueAt(start, row.metric.key))
  }

  /** Every delta comes from a reported row. */
  lemma {:induction false} DeltasComeFromRows(deltas: seq<QueryDelta>, start: Option<QuerySnapshotPoint>, rows: seq<QueryRow>)
    requires AreDeltas(deltas, start, rows)
    ensures forall d :: d in deltas ==> exists r :: r in rows && Reports(d, start, r)
  {
    if rows == [] {
    } else {
      var n := |rows| - 1;
      var own := Reported(ValueAt(start, rows[n].metric.key), rows[n].metric.counters);
      var before := if own then deltas[..|deltas| - 1] else deltas;
      DeltasComeFromRows(before, start, rows[..n]);
      forall d | d in deltas ensures exists r :: r in rows && Reports(d, start, r) {
        if d in before {
          var r :| r in rows[..n] && Reports(d, start, r);
          assert r in rows;
        } else {
          assert deltas == before + [deltas[|deltas| - 1]];
          assert rows[n] in rows && Reports(d, start, rows[n]);
        }
      }
    }
  }

  /** Every reported row gives a delta. */
  lemma {:induction false} RowsGiveDeltas(deltas: seq<QueryDelta>, start: Option<QuerySnapshotPoint>, rows: seq<QueryRow>)
    requires AreDeltas(deltas, start, rows)
    ensures forall r :: r in rows && Reported(ValueAt(start, r.metric.key), r.metric.counters) ==>
              exists d :: d in deltas && Reports(d, start, r)
  {
    if rows == [] {
    } else {
      var n := |rows| - 1;
      var own := Reported(ValueAt(start, rows[n].metric.key), rows[n].metric.counters);
      var before := if own then deltas[..|deltas| - 1] else deltas;
      RowsGiveDeltas(before, start, rows[..n]);
      forall r | r in rows && Reported(ValueAt(start, r.metric.key), r.metric.counters)
        ensures exists d :: d in deltas && Reports(d, start, r)
      {
        if r in rows[..n] {
          var d :| d in before && Reports(d, start, r);
          assert d in deltas;
        } else {
          assert rows == rows[..n] + [rows[n]];
          assert deltas[|deltas| - 1] in deltas && Reports(deltas[|deltas| - 1], start, r);
        }
      }
    }
  }

  predicate DeltaLe(a: QueryDelta, b: QueryDelta) {
    KeyLe(a.key, b.key)
  }

  predicate UniqueDeltaKeys(deltas: seq<QueryDelta>) {
    forall i, j :: 0 <= i < j < |deltas| ==> deltas[i].key != deltas[j].key
  }

  lemma {:induction false} InitKeepsOrder(rows: seq<QueryRow>)
    requires rows != [] && UniqueKeys(rows) && Sorted(RowLe, rows)
    ensures var n := |rows| - 1;
            && UniqueKeys(rows[..n]) && Sorted(RowLe, rows[..n])
            && forall r :: r in rows[..n] ==> KeyLe(r.metric.key, rows[n].metric.key) && r.metric.key != rows[n].metric.key
  {
    var n := |rows| - 1;
    forall r | r in rows[..n] ensures KeyLe(r.metric.key, rows[n].metric.key) && r.metric.key != rows[n].metric.key {
      var j :| 0 <= j < n && rows[..n][j] == r;
      assert RowLe(rows[j], rows[n]);
    }
  }

  lemma {:induction false} GreaterGoesLast(deltas: seq<QueryDelta>, d: QueryDelta)
    requires UniqueDeltaKeys(deltas) && Sorted(DeltaLe, deltas)
    requires forall x :: x in deltas ==> DeltaLe(x, d) && x.key != d.key
    ensures UniqueDeltaKeys(deltas + [d]) && Sorted(DeltaLe, deltas + [d])
  {
  }

  /** Unique keys stay unique and ordered rows give ordered deltas. */
  lemma {:induction false} DeltasKeepOrder(deltas: seq<QueryDelta>, start: Option<QuerySnapshotPoint>, rows: seq<QueryRow>)
    requires AreDeltas(deltas, start, rows) && UniqueKeys(rows) && Sorted(RowLe, rows)
    ensures UniqueDeltaKeys(deltas) && Sorted(DeltaLe, deltas)
  {
    if rows == [] {
    } else {
      var n := |rows| - 1;
      InitKeepsOrder(rows);
      if Reported(ValueAt(start, rows[n].metric.key), rows[n].metric.counters) {
        var m := |deltas| - 1;
        DeltasKeepOrder(deltas[..m], start, rows[..n]);
        DeltasComeFromRows(deltas[..m], start, rows[..n]);
        GreaterGoesLast(deltas[..m], deltas[m]);
        assert deltas == deltas[..m] + [deltas[m]];
      } else {
        DeltasKeepOrder(deltas, start, rows[..n]);
      }
    }
  }

  /** The list is determined by the two points. */
  lemma {:induction false} DeltasAreUnique(a: seq<QueryDelta>, b: seq<QueryDelta>, start: Option<QuerySnapshotPoint>, rows: seq<QueryRow>)
    requires AreDeltas(a, start, rows) && AreDeltas(b, start, rows)
    ensures a == b
  {
    if rows == [] {
    } else {
      var n := |rows| - 1;
      var before := ValueAt(start, rows[n].metric.key);
      if Reported(before, rows[n].metric.counters) {
        DeltasAreUnique(a[..|a| - 1], b[..|b| - 1], start, rows[..n]);
        DeltaIsUnique(a[|a| - 1], b[|b| - 1], rows[n], before);
        assert a == a[..|a| - 1] + [a[|a| - 1]] && b == b[..|b| - 1] + [b[|b| - 1]];
      } else {
        DeltasAreUnique(a, b, start, rows[..n]);
      }
    }
  }

  lemma {:induction false} DeltaIsUnique(a: QueryDelta, b: QueryDelta, row: QueryRow, start: Counters)
    requires IsDeltaOf(a, row, start) && IsDeltaOf(b, row, start)
    ensures a == b
  {
    assert a.counters == b.counters;
    if a.meanExecTimeMs.Some? {
      SameQuotient(a.meanExecTimeMs.value, b.meanExecTimeMs.value, a.counters.calls as real);
    }
  }

  lemma {:induction false} SameQuotient(x: real, y: real, n: real)
    requires n != 0.0 && x * n == y * n
    ensures x == y
  {
    assert (x - y) * n == 0.0;
  }

  lemma {:induction false} DeltasExist(start: Option<QuerySnapshotPoint>, rows: seq<QueryRow>) returns (deltas: seq<QueryDelta>)
    ensures AreDeltas(deltas, start, rows)
  {
    deltas := [];
    for i := 0 to |rows|
      invariant AreDeltas(deltas, start, rows[..i])
    {
      var before, after := ValueAt(start, rows[i].metric.key), rows[i].metric.counters;
      if Reported(before, after) {
        var d := DeltaExists(rows[i], before);
        ReportedRow(deltas, d, start, rows, i);
        deltas := deltas + [d];
      } else {
        SkippedRow(deltas, start, rows, i);
      }
    }
    assert rows[..|rows|] == rows;
  }

  lemma {:induction false} DeltaExists(row: QueryRow, start: Counters) returns (d: QueryDelta)
    ensures IsDeltaOf(d, row, start)
  {
    var c := Minus(row.metric.counters, start);
    d := QueryDelta(row.metric.key, row.metric.query, c,
                    if c.calls == 0 then None else Some(c.totalExecTimeMs / c.calls as real));
  }

  lemma {:induction false} NothingReported(deltas: seq<QueryDelta>, start: Option<QuerySnapshotPoint>, rows: seq<QueryRow>)
    requires AreDeltas(deltas, start, rows)
    requires forall r :: r in rows ==> !Reported(ValueAt(start, r.metric.key), r.metric.counters)
    ensures deltas == []
  {
    if rows == [] {
    } else {
      assert rows[|rows| - 1] in rows;
      NothingReported(deltas, start, rows[..|rows| - 1]);
    }
  }

  /** Points with the same rows give no delta. */
  lemma {:induction false} SameRowsNoDeltas(deltas: seq<QueryDelta>, p: QuerySnapshotPoint, q: QuerySnapshotPoint)
    requires UniqueKeys(p.rows) && p.rows == q.rows && AreDeltasBetween(deltas, Some(p), Some(q))
    ensures deltas == []
  {
    IndexExact(p.rows);
    forall r | r in q.rows ensures !Reported(ValueAt(Some(p), r.metric.key), r.metric.counters) {
      assert ValueAt(Some(p), r.metric.key) == r.metric.counters;
    }
    NothingReported(deltas, Some(p), q.rows);
  }

  // ----- Per key

  function KeysOf(point: Option<QuerySnapshotPoint>): set<RowKey> {
    if point.None? then {} else IndexRows(point.value.rows).Keys
  }

  predicate KeyReported(start: Option<QuerySnapshotPoint>, end: Option<QuerySnapshotPoint>, key: RowKey) {
    key in KeysOf(end) && Reported(ValueAt(start, key), ValueAt(end, key))
  }

  /** What the report says a key did: its delta, or zero when it is absent. */
  function Change(start: Option<QuerySnapshotPoint>, end: Option<QuerySnapshotPoint>, key: RowKey): Counters {
    if KeyReported(start, end, key) then Minus(ValueAt(end, key), ValueAt(start, key)) else ZERO
  }

  ghost predicate UniqueIn(point: Option<QuerySnapshotPoint>) {
    point.Some? ==> UniqueKeys(point.value.rows)
  }

  ghost predicate NonNegativeIn(point: Option<QuerySnapshotPoint>) {
    point.Some? ==> forall r :: r in point.value.rows ==> AtMost(ZERO, r.metric.counters)
  }

  /** `KeyReported` and `Change` are what the list holds, key by key. */
  lemma {:induction false} ChangesAreDeltas(deltas: seq<QueryDelta>, start: Option<QuerySnapshotPoint>, end: Option<QuerySnapshotPoint>)
    requires UniqueIn(end) && AreDeltasBetween(deltas, start, end)
    ensures forall k :: KeyReported(start, end, k) <==> exists d :: d in deltas && d.key == k
    ensures forall d :: d in deltas ==> d.counters == Change(start, end, d.key)
  {
    if end.Some? {
      IndexExact(end.value.rows);
      DeltasComeFromRows(deltas, start, end.value.rows);
      RowsGiveDeltas(deltas, start, end.value.rows);
      forall d | d in deltas ensures KeyReported(start, end, d.key) && d.counters == Change(start, end, d.key) {
        var r :| r in end.value.rows && Reports(d, start, r);
      }
      forall k | KeyReported(start, end, k) ensures exists d :: d in deltas && d.key == k {
        var r := IndexRows(end.value.rows)[k];
        var d :| d in deltas && Reports(d, start, r);
        assert d.key == k;
      }
    }
  }

  /** The change the two values alone account for. */
  function Growth(start: Counters, end: Counters): Counters {
    if AtMost(start, end) then Minus(end, start) else ZERO
  }

  /** With non-negative counters the change depends on the two values alone. */
  lemma {:induction false} ChangeByValues(start: Option<QuerySnapshotPoint>, end: Option<QuerySnapshotPoint>, key: RowKey)
    requires UniqueIn(start) && UniqueIn(end) && NonNegativeIn(start) && NonNegativeIn(end)
    ensures AtMost(ZERO, ValueAt(start, key)) && AtMost(ZERO, ValueAt(end, key))
    ensures KeyReported(start, end, key) <==> Reported(ValueAt(start, key), ValueAt(end, key))
    ensures Change(start, end, key) == Growth(ValueAt(start, key), ValueAt(end, key))
  {
    if start.Some? {
      IndexExact(start.value.rows);
    }
    if end.Some? {
      IndexExact(end.value.rows);
    }
  }

  lemma {:induction false} ChangeIsGrowth(start: Option<QuerySnapshotPoint>, end: Option<QuerySnapshotPoint>, key: RowKey)
    requires UniqueIn(start) && UniqueIn(end) && NonNegativeIn(start) && NonNegativeIn(end)
    ensures Change(start, end, key) == Growth(ValueAt(start, key), ValueAt(end, key))
  {
    ChangeByValues(start, end, key);
  }

  // ----- Windows compose

  predicate NoFall(a: Option<QuerySnapshotPoint>, b: Option<QuerySnapshotPoint>, key: RowKey) {
    AtMost(ValueAt(a, key), ValueAt(b, key))
  }

  /** When is the change over a window the sum of the changes over its halves: a test on the three values. */
  predicate Composes(a: Counters, b: Counters, c: Counters) {
    if AtMost(a, b) then AtMost(b, c) || a == b
    else if AtMost(b, c) then b == c
    else !AtMost(a, c) || a == c
  }

  lemma {:induction false} RisesAdd(a: Counters, b: Counters, c: Counters)
    requires AtMost(a, b) && AtMost(b, c)
    ensures Growth(a, c) == Plus(Growth(a, b), Growth(b, c))
  {
  }

  lemma {:induction false} DifferencesCancel(x: Counters, y: Counters, z: Counters)
    ensures Minus(x, z) == Minus(y, z) <==> x == y
    ensures Minus(z, x) == Minus(z, y) <==> x == y
    ensures Minus(x, y) == ZERO <==> x == y
  {
  }

  lemma {:induction false} PlusZero(x: Counters)
    ensures Plus(x, ZERO) == x && Plus(ZERO, x) == x
  {
  }

  lemma {:induction false} RiseThenFall(a: Counters, b: Counters, c: Counters)
    requires AtMost(a, b) && !AtMost(b, c)
    ensures Growth(a, c) == Plus(Growth(a, b), Growth(b, c)) <==> a == b
  {
    PlusZero(Minus(b, a));
    DifferencesCancel(b, c, a);
    DifferencesCancel(b, a, c);
  }

  lemma {:induction false} FallThenRise(a: Counters, b: Counters, c: Counters)
    requires !AtMost(a, b) && AtMost(b, c)
    ensures Growth(a, c) == Plus(Growth(a, b), Growth(b, c)) <==> b == c
  {
    PlusZero(Minus(c, b));
    DifferencesCancel(a, b, c);
    DifferencesCancel(c, b, a);
  }

  lemma {:induction false} FallThenFall(a: Counters, b: Counters, c: Counters)
    requires !AtMost(a, b) && !AtMost(b, c)
    ensures Growth(a, c) == Plus(Growth(a, b), Growth(b, c)) <==> !AtMost(a, c) || a == c
  {
    PlusZero(ZERO);
    DifferencesCancel(c, a, b);
  }

  lemma {:induction false} GrowthsAdd(a: Counters, b: Counters, c: Counters)
    ensures Growth(a, c) == Plus(Growth(a, b), Growth(b, c)) <==> Composes(a, b, c)
  {
    if AtMost(a, b) {
      if AtMost(b, c) {
        RisesAdd(a, b, c);
      } else {
        RiseThenFall(a, b, c);
      }
    } else {
      if AtMost(b, c) {
        FallThenRise(a, b, c);
      } else {
        FallThenFall(a, b, c);
      }
    }
  }

  lemma {:induction false} AmountsAdd(a: Counters, b: Counters, c: Counters, whole: Counters, first: Counters, second: Counters)
    requires whole == Growth(a, c) && first == Growth(a, b) && second == Growth(b, c)
    ensures whole == Plus(first, second) <==> Composes(a, b, c)
  {
    GrowthsAdd(a, b, c);
  }

  /** Adjacent windows add up, key by key, exactly when no counter falls or the falls cannot be seen in either sum. */
  lemma {:induction false} WindowsComposeExactly(a: Option<QuerySnapshotPoint>, b: Option<QuerySnapshotPoint>, c: Option<QuerySnapshotPoint>, key: RowKey)
    requires UniqueIn(a) && UniqueIn(b) && UniqueIn(c)
    requires NonNegativeIn(a) && NonNegativeIn(b) && NonNegativeIn(c)
    ensures Change(a, c, key) == Plus(Change(a, b, key), Change(b, c, key)) <==>
            Composes(ValueAt(a, key), ValueAt(b, key), ValueAt(c, key))
  {
    ChangeIsGrowth(a, b, key);
    ChangeIsGrowth(b, c, key);
    ChangeIsGrowth(a, c, key);
    GrowthsAdd(ValueAt(a, key), ValueAt(b, key), ValueAt(c, key));
  }

  lemma {:induction false} ComposingValuesReport(a: Counters, b: Counters, c: Counters)
    requires Composes(a, b, c)
    ensures Reported(a, c) <==> Reported(a, b) || Reported(b, c)
  {
  }

  /** When the windows add up, a key is reported for the whole exactly when it is reported for a half. */
  lemma {:induction false} ComposingWindowsReport(a: Option<QuerySnapshotPoint>, b: Option<QuerySnapshotPoint>, c: Option<QuerySnapshotPoint>, key: RowKey)
    requires UniqueIn(a) && UniqueIn(b) && UniqueIn(c)
    requires NonNegativeIn(a) && NonNegativeIn(b) && NonNegativeIn(c)
    requires Composes(ValueAt(a, key), ValueAt(b, key), ValueAt(c, key))
    ensures KeyReported(a, c, key) <==> KeyReported(a, b, key) || KeyReported(b, c, key)
  {
    ChangeByValues(a, b, key);
    ChangeByValues(b, c, key);
    ChangeByValues(a, c, key);
    ComposingValuesReport(ValueAt(a, key), ValueAt(b, key), ValueAt(c, key));
  }

  /** If no counter falls in either half, the halves add up and a key is reported for the whole iff for a half. */
  lemma {:induction false} WindowsCompose(a: Option<QuerySnapshotPoint>, b: Option<QuerySnapshotPoint>, c: Option<QuerySnapshotPoint>, key: RowKey)
    requires UniqueIn(a) && UniqueIn(b) && UniqueIn(c)
    requires NonNegativeIn(a) && NonNegativeIn(b) && NonNegativeIn(c)
    requires NoFall(a, b, key) && NoFall(b, c, key)
    ensures Change(a, c, key) == Plus(Change(a, b, key), Change(b, c, key))
    ensures KeyReported(a, c, key) <==> KeyReported(a, b, key) || KeyReported(b, c, key)
  {
    WindowsComposeExactly(a, b, c, key);
    ComposingWindowsReport(a, b, c, key);
  }
}
