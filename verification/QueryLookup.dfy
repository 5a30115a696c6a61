/** Which stored point answers "latest at or before": the selects, as functions on the table. */
module QueryLookup {
  import opened Wrappers
  import opened Sorting
  import opened Text
  import opened Models
  import opened QueryTable
  import opened Instants

  // ----- Row order: (queryid, dbid, userid), optionally under captured_at

  predicate KeyLe(a: RowKey, b: RowKey) {
    if a.queryid != b.queryid then TextLe(a.queryid, b.queryid)
    else if a.dbid != b.dbid then a.dbid < b.dbid
    else a.userid <= b.userid
  }

  predicate RowLe(a: QueryRow, b: QueryRow) {
    KeyLe(a.metric.key, b.metric.key)
  }

  predicate TimedRowLe(a: QueryRow, b: QueryRow) {
    if a.capturedAt != b.capturedAt then a.capturedAt < b.capturedAt else RowLe(a, b)
  }

  lemma {:induction false} KeyLeTotalOrder(a: RowKey, b: RowKey, c: RowKey)
    ensures KeyLe(a, b) || KeyLe(b, a)
    ensures KeyLe(a, b) && KeyLe(b, c) ==> KeyLe(a, c)
    ensures KeyLe(a, b) && KeyLe(b, a) ==> a == b
  {
    TextLeTotal(a.queryid, b.queryid);
    if KeyLe(a, b) && KeyLe(b, c) && a.queryid != b.queryid && b.queryid != c.queryid {
      TextLeTransitive(a.queryid, b.queryid, c.queryid);
      if a.queryid == c.queryid {
        TextLeAntisymmetric(a.queryid, b.queryid);
      }
    }
    if KeyLe(a, b) && KeyLe(b, a) && a.queryid != b.queryid {
      TextLeAntisymmetric(a.queryid, b.queryid);
    }
  }

  lemma {:induction false} RowOrders()
    ensures TotalPreorder(RowLe) && TotalPreorder(TimedRowLe)
  {
    forall a: QueryRow, b: QueryRow, c: QueryRow
      ensures RowLe(a, b) || RowLe(b, a)
      ensures RowLe(a, b) && RowLe(b, c) ==> RowLe(a, c)
    {
      KeyLeTotalOrder(a.metric.key, b.metric.key, c.metric.key);
    }
  }

  // ----- Selects

  function AtTime(at: int): QueryRow -> bool {
    (r: QueryRow) => r.capturedAt == at
  }

  function OfPoint(db: string, at: int): QueryRow -> bool {
    (r: QueryRow) => r.dbIdentifier == db && r.capturedAt == at
  }

  function OfPoints(db: string, ats: seq<int>): QueryRow -> bool {
    (r: QueryRow) => r.dbIdentifier == db && r.capturedAt in ats
  }

  /** `SELECT ... WHERE captured_at = at ORDER BY queryid, dbid, userid`. */
  function PointRows(rows: seq<QueryRow>, db: string, at: int): seq<QueryRow> {
    StableSort(RowLe, Filter(OfPoint(db, at), rows))
  }

  /** `SELECT ... WHERE captured_at IN (...) ORDER BY captured_at, queryid, dbid, userid`. */
  function RowsIn(rows: seq<QueryRow>, db: string, ats: seq<int>): seq<QueryRow> {
    StableSort(TimedRowLe, Filter(OfPoints(db, ats), rows))
  }

  function Times(rows: seq<QueryRow>, db: string, ts: int): set<int> {
    set r | r in rows && r.dbIdentifier == db && r.capturedAt <= ts :: r.capturedAt
  }

  /** The point at the latest capture time not after `ts`. */
  function LatestAtOrBefore(rows: seq<QueryRow>, db: string, ts: int): Option<QuerySnapshotPoint> {
    match Greatest(Times(rows, db, ts))
    case None => None
    case Some(at) => Some(QuerySnapshotPoint(at, PointRows(rows, db, at)))
  }

  // ----- What the lookups mean

  /** The answer is the latest stored point not after `ts`, with exactly its rows, in key order. */
  lemma {:induction false} LatestMeaning(rows: seq<QueryRow>, db: string, ts: int)
    ensures var p := LatestAtOrBefore(rows, db, ts);
            && (p.None? <==> forall r :: r in rows && r.dbIdentifier == db ==> r.capturedAt > ts)
            && (p.Some? ==>
                  && p.value.capturedAt <= ts && p.value.rows != []
                  && (forall r :: r in rows && r.dbIdentifier == db && r.capturedAt <= ts ==> r.capturedAt <= p.value.capturedAt)
                  && (forall r :: r in p.value.rows <==> r in rows && r.dbIdentifier == db && r.capturedAt == p.value.capturedAt)
                  && Sorted(RowLe, p.value.rows))
  {
    var times := Times(rows, db, ts);
    forall r | r in rows && r.dbIdentifier == db && r.capturedAt <= ts ensures r.capturedAt in times {}
    match Greatest(times)
    case None =>
    case Some(at) =>
      var kept := Filter(OfPoint(db, at), rows);
      FilterMembers(OfPoint(db, at), rows);
      StableSortIsPermutation(RowLe, kept);
      RowOrders();
      StableSortSorts(RowLe, kept);
      var r :| r in rows && r.dbIdentifier == db && r.capturedAt <= ts && r.capturedAt == at;
      assert r in PointRows(rows, db, at);
  }

  /** A later timestamp never finds an earlier point, and finds one whenever the earlier did. */
  lemma {:induction false} LatestIsMonotone(rows: seq<QueryRow>, db: string, ts: int, later: int)
    requires ts <= later && LatestAtOrBefore(rows, db, ts).Some?
    ensures LatestAtOrBefore(rows, db, later).Some?
    ensures LatestAtOrBefore(rows, db, ts).value.capturedAt <= LatestAtOrBefore(rows, db, later).value.capturedAt
  {
    LatestMeaning(rows, db, ts);
    LatestMeaning(rows, db, later);
    assert LatestAtOrBefore(rows, db, ts).value.rows[0] in rows;
  }

  /** Rows of a stored point have pairwise different keys and so only one order. */
  lemma {:induction false} PointRowsUnique(rows: seq<QueryRow>, db: string, at: int)
    requires UniquePoints(rows)
    ensures NoTies(RowLe, PointRows(rows, db, at))
    ensures UniquePoints(PointRows(rows, db, at))
  {
    var kept := Filter(OfPoint(db, at), rows);
    FilterMembers(OfPoint(db, at), rows);
    StableSortIsPermutation(RowLe, kept);
    forall a, b | a in PointRows(rows, db, at) && b in PointRows(rows, db, at) && RowLe(a, b) && RowLe(b, a)
      ensures a == b
    {
      KeyLeTotalOrder(a.metric.key, b.metric.key, a.metric.key);
      var i :| 0 <= i < |rows| && rows[i] == a;
      var j :| 0 <= j < |rows| && rows[j] == b;
      assert i == j;
    }
    FilterUnique(OfPoint(db, at), rows);
    UniqueIsPermutationInvariant(kept, PointRows(rows, db, at));
  }

  lemma {:induction false} FilterUnique(p: QueryRow -> bool, rows: seq<QueryRow>)
    requires UniquePoints(rows)
    ensures UniquePoints(Filter(p, rows))
  {
    if rows == [] {
    } else {
      FilterUnique(p, rows[1..]);
      FilterMembers(p, rows[1..]);
      var rest := Filter(p, rows[1..]);
      forall j | 0 <= j < |rest| ensures PointKeyOf(rest[j]) != PointKeyOf(rows[0]) {
        assert rest[j] in rest;
        var k :| 0 <= k < |rows[1..]| && rows[1..][k] == rest[j];
        assert rows[k + 1] == rest[j];
      }
    }
  }

  /** The unique constraint does not depend on the order rows are kept in. */
  lemma {:induction false} UniqueIsPermutationInvariant(a: seq<QueryRow>, b: seq<QueryRow>)
    requires multiset(a) == multiset(b) && UniquePoints(a)
    ensures UniquePoints(b)
  {
    forall i, j | 0 <= i < j < |b| ensures PointKeyOf(b[i]) != PointKeyOf(b[j]) {
      if b[i] == b[j] {
        TwiceWhenRepeated(b, i, j);
        OnceInUnique(a, b[i]);
      } else {
        SameElements(a, b);
        assert b[i] in b && b[j] in b;
        var k :| 0 <= k < |a| && a[k] == b[i];
        var l :| 0 <= l < |a| && a[l] == b[j];
      }
    }
  }

  lemma {:induction false} OnceInUnique(a: seq<QueryRow>, r: QueryRow)
    requires UniquePoints(a)
    ensures multiset(a)[r] <= 1
  {
    if a == [] {
    } else {
      assert a == [a[0]] + a[1..];
      forall i, j | 0 <= i < j < |a[1..]| ensures PointKeyOf(a[1..][i]) != PointKeyOf(a[1..][j]) {
        assert a[i + 1] == a[1..][i] && a[j + 1] == a[1..][j];
      }
      OnceInUnique(a[1..], r);
      forall k | 0 <= k < |a[1..]| ensures a[1..][k] != a[0] {
        assert a[k + 1] == a[1..][k];
      }
    }
  }

  /** Lookups do not depend on the order rows were inserted in. */
  lemma {:induction false} LatestIgnoresInsertionOrder(a: seq<QueryRow>, b: seq<QueryRow>, db: string, ts: int)
    requires multiset(a) == multiset(b) && UniquePoints(a)
    ensures LatestAtOrBefore(a, db, ts) == LatestAtOrBefore(b, db, ts)
  {
    SameElements(a, b);
    assert Times(a, db, ts) == Times(b, db, ts);
    match Greatest(Times(a, db, ts))
    case None =>
    case Some(at) =>
      FilterPermuted(OfPoint(db, at), a, b);
      var fa, fb := Filter(OfPoint(db, at), a), Filter(OfPoint(db, at), b);
      StableSortIsPermutation(RowLe, fa);
      StableSortIsPermutation(RowLe, fb);
      RowOrders();
      StableSortSorts(RowLe, fa);
      StableSortSorts(RowLe, fb);
      PointRowsUnique(a, db, at);
      SortedIsUnique(RowLe, PointRows(a, db, at), PointRows(b, db, at));
  }

  // ----- Why the bulk lookup gives the same answers

  lemma {:induction false} FilterTwice<T(!new)>(p: T -> bool, q: T -> bool, r: T -> bool, xs: seq<T>)
    requires forall x :: p(x) && q(x) <==> r(x)
    ensures Filter(p, Filter(q, xs)) == Filter(r, xs)
  {
    if xs == [] {
    } else {
      FilterTwice(p, q, r, xs[1..]);
    }
  }

  /** Regrouping the rows of many points by capture time gives each point's own ordered rows. */
  lemma {:induction false} RegroupedRows(rows: seq<QueryRow>, db: string, ats: seq<int>, at: int)
    requires at in ats
    ensures Filter(AtTime(at), RowsIn(rows, db, ats)) == PointRows(rows, db, at)
  {
    var kept := Filter(OfPoints(db, ats), rows);
    RowOrders();
    FilterOfSort(AtTime(at), TimedRowLe, RowLe, kept);
    FilterTwice(AtTime(at), OfPoints(db, ats), OfPoint(db, at), rows);
  }

  /** The element before the insertion point is the latest capture time not after `ts`. */
  lemma {:induction false} BoundaryIsLatest(rows: seq<QueryRow>, db: string, maxTs: int, ts: int, lo: int)
    requires ts <= maxTs
    requires var xs := SortedSet(Times(rows, db, maxTs));
             && 0 <= lo <= |xs| && (forall i :: 0 <= i < lo ==> xs[i] <= ts) && (forall i :: lo <= i < |xs| ==> ts < xs[i])
    ensures Greatest(Times(rows, db, ts)) ==
            if lo == 0 then None else Some(SortedSet(Times(rows, db, maxTs))[lo - 1])
  {
    var xs := SortedSet(Times(rows, db, maxTs));
    forall t | t in Times(rows, db, ts) ensures exists i :: 0 <= i < lo && xs[i] == t {
      assert t in Times(rows, db, maxTs);
      assert t in xs;
    }
    if lo > 0 {
      assert xs[lo - 1] in Times(rows, db, maxTs);
      assert xs[lo - 1] in Times(rows, db, ts);
    }
  }
}
