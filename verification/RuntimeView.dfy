/** The current tables as a materialised view of the committed snapshots, in any arrival order. */
module RuntimeView {
  import opened Models
  import opened RuntimeTables

  predicate Mentions(log: seq<RuntimeSnapshot>, d: string) {
    exists i :: 0 <= i < |log| && log[i].dbIdentifier == d
  }

  lemma {:induction false} NewestExists(log: seq<RuntimeSnapshot>, d: string)
    requires Mentions(log, d)
    ensures exists i :: IsNewestAt(log, d, i)
  {
    var n := |log| - 1;
    var init := log[..n];
    if Mentions(init, d) {
      NewestExists(init, d);
      var i :| IsNewestAt(init, d, i);
      assert IsNewestAt(log, d, i) || IsNewestAt(log, d, n);
    } else {
      forall j | 0 <= j < n ensures log[j].dbIdentifier != d {
        assert init[j] == log[j];
      }
      assert IsNewestAt(log, d, n);
    }
  }

  lemma {:induction false} EmptyIsView()
    ensures View(EMPTY, [])
  {
    forall d ensures ViewAt(EMPTY, [], d) {
      assert Slice(EMPTY.databaseCurrent, d) == map[];
    }
  }

  /** Every database row carries the capture time of its identifier's current row. */
  lemma {:induction false} ViewStamps(t: Tables, log: seq<RuntimeSnapshot>)
    requires View(t, log)
    ensures forall k :: k in t.databaseCurrent ==>
              k.dbIdentifier in t.current && t.databaseCurrent[k].capturedAt == t.current[k.dbIdentifier].capturedAt
  {
    forall k | k in t.databaseCurrent
      ensures k.dbIdentifier in t.current
      ensures t.databaseCurrent[k].capturedAt == t.current[k.dbIdentifier].capturedAt
    {
      var d := k.dbIdentifier;
      assert ViewAt(t, log, d);
      assert k in Slice(t.databaseCurrent, d);
      assert Mentions(log, d);
      NewestExists(log, d);
      var i :| IsNewestAt(log, d, i);
      RowsOfKeys(log[i], log[i].database);
    }
  }

  /** An identifier is current exactly when the log mentions it. */
  lemma {:induction false} ViewKeys(t: Tables, log: seq<RuntimeSnapshot>, d: string)
    requires View(t, log)
    ensures d in t.current <==> Mentions(log, d)
  {
    assert ViewAt(t, log, d);
    if Mentions(log, d) {
      NewestExists(log, d);
    }
  }

  lemma {:induction false} Replaced(rows: DatabaseRows, s: RuntimeSnapshot)
    ensures var rows' := rows - Departed(rows, s) + RowsOf(s, s.database);
            && Slice(rows', s.dbIdentifier) == RowsOf(s, s.database)
            && forall d :: d != s.dbIdentifier ==> Slice(rows', d) == Slice(rows, d)
  {
    RowsOfKeys(s, s.database);
  }

  /** The whole effect of a write that is not stale: the identifier's rows are replaced, nothing else moves. */
  lemma {:induction false} FreshWriteReplaces(t: Tables, id: int, s: RuntimeSnapshot)
    requires !IsStale(t.current, s) && NoneNewer(t.databaseCurrent, s)
    ensures ApplySnapshot(t, id, s).Some? <==> DistinctNames(s.database)
    ensures ApplySnapshot(t, id, s).Some? ==>
              var t' := ApplySnapshot(t, id, s).value;
              && t'.current == t.current[s.dbIdentifier := CurrentRow(s.capturedAt, s.activity, s.locks)]
              && Slice(t'.databaseCurrent, s.dbIdentifier) == RowsOf(s, s.database)
              && forall d :: d != s.dbIdentifier ==> Slice(t'.databaseCurrent, d) == Slice(t.databaseCurrent, d)
  {
    UpsertReplaces(t.databaseCurrent - Departed(t.databaseCurrent, s), s, s.database);
    Replaced(t.databaseCurrent, s);
  }

  lemma {:induction false} ViewMeansNoneNewer(t: Tables, log: seq<RuntimeSnapshot>, s: RuntimeSnapshot)
    requires View(t, log) && !IsStale(t.current, s)
    ensures NoneNewer(t.databaseCurrent, s)
  {
    ViewStamps(t, log);
  }

  lemma {:induction false} StaleWriteKeepsCurrent(t: Tables, id: int, s: RuntimeSnapshot)
    requires IsStale(t.current, s)
    ensures ApplySnapshot(t, id, s).Some?
    ensures ApplySnapshot(t, id, s).value.current == t.current
    ensures ApplySnapshot(t, id, s).value.databaseCurrent == t.databaseCurrent
    ensures ApplySnapshot(t, id, s).value.snapshots == t.snapshots[id := SnapshotRowOf(s)]
    ensures ApplySnapshot(t, id, s).value.databaseSnapshots == t.databaseSnapshots + DatabaseSnapshotRowsOf(id, s.database)
  {
  }

  /** A write fails exactly when it would replace the identifier's rows and repeats a database name. */
  lemma {:induction false} WriteFailsExactly(t: Tables, log: seq<RuntimeSnapshot>, id: int, s: RuntimeSnapshot)
    requires View(t, log)
    ensures ApplySnapshot(t, id, s).None? <==> !IsStale(t.current, s) && !DistinctNames(s.database)
  {
    if !IsStale(t.current, s) {
      ViewMeansNoneNewer(t, log, s);
      FreshWriteReplaces(t, id, s);
    }
  }

  lemma {:induction false} NewestAfter(log: seq<RuntimeSnapshot>, s: RuntimeSnapshot, d: string, i: int)
    requires IsNewestAt(log + [s], d, i)
    ensures i < |log| ==> IsNewestAt(log, d, i) && (s.dbIdentifier == d ==> s.capturedAt < log[i].capturedAt)
    ensures i == |log| ==> s.dbIdentifier == d && forall j :: 0 <= j < |log| && log[j].dbIdentifier == d ==> log[j].capturedAt <= s.capturedAt
  {
    var log' := log + [s];
    assert log'[|log|] == s;
    forall j | 0 <= j < |log| ensures log'[j] == log[j] {}
  }

  lemma {:induction false} NewestMeansNotStale(t: Tables, log: seq<RuntimeSnapshot>, s: RuntimeSnapshot)
    requires View(t, log)
    ensures IsStale(t.current, s) <==>
            exists i :: 0 <= i < |log| && log[i].dbIdentifier == s.dbIdentifier && log[i].capturedAt > s.capturedAt
  {
    var d := s.dbIdentifier;
    ViewKeys(t, log, d);
    assert ViewAt(t, log, d);
    if Mentions(log, d) {
      NewestExists(log, d);
      var i :| IsNewestAt(log, d, i);
      assert Shows(t, d, log[i]);
    }
  }

  /** One committed write, early or late, keeps the current tables equal to the view of the longer log. */
  lemma {:induction false} WriteKeepsView(t: Tables, log: seq<RuntimeSnapshot>, id: int, s: RuntimeSnapshot)
    requires View(t, log) && ApplySnapshot(t, id, s).Some?
    ensures View(ApplySnapshot(t, id, s).value, log + [s])
  {
    var t' := ApplySnapshot(t, id, s).value;
    var log' := log + [s];
    NewestMeansNotStale(t, log, s);
    if !IsStale(t.current, s) {
      ViewMeansNoneNewer(t, log, s);
      FreshWriteReplaces(t, id, s);
    }
    forall d ensures ViewAt(t', log', d) {
      assert ViewAt(t, log, d);
      forall i | IsNewestAt(log', d, i) ensures Shows(t', d, log'[i]) {
        NewestAfter(log, s, d, i);
        if i < |log| {
          assert log'[i] == log[i];
          assert Shows(t, d, log[i]);
        } else {
          assert log'[i] == s;
        }
      }
      if forall i :: 0 <= i < |log'| ==> log'[i].dbIdentifier != d {
        assert log'[|log|] == s;
        forall i | 0 <= i < |log| ensures log[i].dbIdentifier != d {
          assert log'[i] == log[i];
        }
        assert ShowsNothing(t, d);
      }
    }
  }

  /** Per identifier, the current capture time never goes back and the identifier never disappears. */
  lemma {:induction false} WriteNeverGoesBack(t: Tables, id: int, s: RuntimeSnapshot, d: string)
    requires d in t.current && ApplySnapshot(t, id, s).Some?
    ensures var t' := ApplySnapshot(t, id, s).value;
            d in t'.current && t.current[d].capturedAt <= t'.current[d].capturedAt
  {
  }

  // ----- Arrival order

  /** Two tables that are views of logs with the same newest snapshots agree on everything current. */
  lemma {:induction false} ViewsAgree(t: Tables, log: seq<RuntimeSnapshot>, u: Tables, log': seq<RuntimeSnapshot>)
    requires View(t, log) && View(u, log')
    requires forall d :: Mentions(log, d) <==> Mentions(log', d)
    requires forall d, i, j :: IsNewestAt(log, d, i) && IsNewestAt(log', d, j) ==> SameShape(log[i], log'[j])
    ensures t.current == u.current && t.databaseCurrent == u.databaseCurrent
  {
    forall d
      ensures d in t.current <==> d in u.current
      ensures d in t.current ==> t.current[d] == u.current[d]
      ensures Slice(t.databaseCurrent, d) == Slice(u.databaseCurrent, d)
    {
      assert ViewAt(t, log, d) && ViewAt(u, log', d);
      if Mentions(log, d) {
        NewestExists(log, d);
        NewestExists(log', d);
        var i :| IsNewestAt(log, d, i);
        var j :| IsNewestAt(log', d, j);
        assert SameShape(log[i], log'[j]);
      }
    }
    forall k
      ensures k in t.databaseCurrent <==> k in u.databaseCurrent
      ensures k in t.databaseCurrent ==> t.databaseCurrent[k] == u.databaseCurrent[k]
    {
      var d := k.dbIdentifier;
      assert k in t.databaseCurrent <==> k in Slice(t.databaseCurrent, d);
      assert k in u.databaseCurrent <==> k in Slice(u.databaseCurrent, d);
    }
  }

  /** Two snapshots that leave the same current rows behind. */
  predicate SameShape(a: RuntimeSnapshot, b: RuntimeSnapshot) {
    && a.dbIdentifier == b.dbIdentifier && a.capturedAt == b.capturedAt && a.activity == b.activity && a.locks == b.locks
    && RowsOf(a, a.database) == RowsOf(b, b.database)
  }

  predicate IsLatest(log: seq<RuntimeSnapshot>, s: RuntimeSnapshot) {
    && s in log
    && forall r :: r in log && r.dbIdentifier == s.dbIdentifier ==> r.capturedAt <= s.capturedAt
  }

  /** No identifier has two latest snapshots that differ: what a caller must ensure for order not to matter. */
  ghost predicate LatestAgree(log: seq<RuntimeSnapshot>) {
    forall a, b :: IsLatest(log, a) && IsLatest(log, b) && a.dbIdentifier == b.dbIdentifier ==> SameShape(a, b)
  }

  lemma {:induction false} NewestIsLatest(log: seq<RuntimeSnapshot>, d: string, i: int)
    requires IsNewestAt(log, d, i)
    ensures IsLatest(log, log[i])
  {
    forall r | r in log && r.dbIdentifier == d ensures r.capturedAt <= log[i].capturedAt {
      var j :| 0 <= j < |log| && log[j] == r;
    }
  }
}
