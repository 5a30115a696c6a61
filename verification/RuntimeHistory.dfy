/** Runs of committed writes: what they leave in the history tables and in the current tables. */
module RuntimeHistory {
  import opened Wrappers
  import opened Models
  import opened Sorting
  import opened RuntimeTables
  import opened RuntimeView

  /** A committed write and the id its `runtime_snapshots` row was given. */
  datatype Entry = Entry(id: int, snapshot: RuntimeSnapshot)

  function Snapshots(entries: seq<Entry>): (log: seq<RuntimeSnapshot>)
    ensures |log| == |entries|
    ensures forall i :: 0 <= i < |log| ==> log[i] == entries[i].snapshot
  {
    seq(|entries|, i requires 0 <= i < |entries| => entries[i].snapshot)
  }

  /** Serial application of the writes, in order. */
  function Replay(entries: seq<Entry>): Option<Tables> {
    if entries == [] then Some(EMPTY) else
      var n := |entries| - 1;
      match Replay(entries[..n])
      case None => None
      case Some(t) => ApplySnapshot(t, entries[n].id, entries[n].snapshot)
  }

  lemma {:induction false} ReplayAppend(entries: seq<Entry>, e: Entry)
    requires Replay(entries).Some?
    ensures Replay(entries + [e]) == ApplySnapshot(Replay(entries).value, e.id, e.snapshot)
    ensures Snapshots(entries + [e]) == Snapshots(entries) + [e.snapshot]
  {
    assert (entries + [e])[..|entries|] == entries;
  }

  lemma {:induction false} ReplayIsView(entries: seq<Entry>)
    requires Replay(entries).Some?
    ensures View(Replay(entries).value, Snapshots(entries))
  {
    if entries == [] {
      EmptyIsView();
      assert Snapshots(entries) == [];
    } else {
      var n := |entries| - 1;
      ReplayIsView(entries[..n]);
      WriteKeepsView(Replay(entries[..n]).value, Snapshots(entries[..n]), entries[n].id, entries[n].snapshot);
      assert Snapshots(entries) == Snapshots(entries[..n]) + [entries[n].snapshot];
    }
  }

  // ----- Arrivals, failing writes included

  /** Writes in order of arrival; one that fails is rolled back. */
  function Arrive(entries: seq<Entry>): Tables {
    if entries == [] then EMPTY else
      var n := |entries| - 1;
      var t := Arrive(entries[..n]);
      match ApplySnapshot(t, entries[n].id, entries[n].snapshot)
      case None => t
      case Some(t') => t'
  }

  /** The snapshots that could be stored whenever they came. */
  function Sound(log: seq<RuntimeSnapshot>): seq<RuntimeSnapshot> {
    Filter((s: RuntimeSnapshot) => DistinctNames(s.database), log)
  }

  /** What is current is the view of the sound arrivals alone: the others fail, or come too late to show. */
  lemma {:induction false} ArrivalsShowSound(entries: seq<Entry>)
    ensures View(Arrive(entries), Sound(Snapshots(entries)))
  {
    if entries == [] {
      EmptyIsView();
      assert Snapshots(entries) == [];
    } else {
      var n := |entries| - 1;
      var s := entries[n].snapshot;
      ArrivalsShowSound(entries[..n]);
      assert Snapshots(entries) == Snapshots(entries[..n]) + [s];
      SoundAppend(Snapshots(entries[..n]), s);
      ArrivalKeepsView(Arrive(entries[..n]), Sound(Snapshots(entries[..n])), entries[n]);
    }
  }

  lemma {:induction false} SoundAppend(log: seq<RuntimeSnapshot>, s: RuntimeSnapshot)
    ensures Sound(log + [s]) == Sound(log) + if DistinctNames(s.database) then [s] else []
  {
    var p := (s: RuntimeSnapshot) => DistinctNames(s.database);
    FilterConcat(p, log, [s]);
    assert Filter(p, [s][1..]) == [];
  }

  lemma {:induction false} ArrivalKeepsView(t: Tables, log: seq<RuntimeSnapshot>, e: Entry)
    requires View(t, log)
    ensures var after := ApplySnapshot(t, e.id, e.snapshot);
            View(if after.None? then t else after.value,
                 log + if DistinctNames(e.snapshot.database) then [e.snapshot] else [])
  {
    WriteFailsExactly(t, log, e.id, e.snapshot);
    if DistinctNames(e.snapshot.database) {
      WriteKeepsView(t, log, e.id, e.snapshot);
    } else {
      assert log + [] == log;
      if IsStale(t.current, e.snapshot) {
        StaleWriteKeepsCurrent(t, e.id, e.snapshot);
        SameCurrentSameView(t, ApplySnapshot(t, e.id, e.snapshot).value, log);
      }
    }
  }

  lemma {:induction false} SameCurrentSameView(t: Tables, u: Tables, log: seq<RuntimeSnapshot>)
    requires View(t, log) && SameCurrent(t, u)
    ensures View(u, log)
  {
    forall d ensures ViewAt(u, log, d) {
      assert ViewAt(t, log, d);
    }
  }

  predicate SameCurrent(t: Tables, u: Tables) {
    t.current == u.current && t.databaseCurrent == u.databaseCurrent
  }

  // ----- Arrival order

  ghost predicate OrderIrrelevant(entries: seq<Entry>) {
    forall other: seq<Entry> :: multiset(Snapshots(other)) == multiset(Snapshots(entries)) ==>
      SameCurrent(Arrive(entries), Arrive(other))
  }

  lemma {:induction false} SameNewest(a: seq<RuntimeSnapshot>, b: seq<RuntimeSnapshot>)
    requires multiset(a) == multiset(b) && LatestAgree(a)
    ensures forall d :: Mentions(a, d) <==> Mentions(b, d)
    ensures forall d, i, j :: IsNewestAt(a, d, i) && IsNewestAt(b, d, j) ==> SameShape(a[i], b[j])
  {
    SameElements(a, b);
    forall d ensures Mentions(a, d) <==> Mentions(b, d) {
      if Mentions(a, d) {
        var i :| 0 <= i < |a| && a[i].dbIdentifier == d;
        assert a[i] in b;
      }
      if Mentions(b, d) {
        var i :| 0 <= i < |b| && b[i].dbIdentifier == d;
        assert b[i] in a;
      }
    }
    forall d, i, j | IsNewestAt(a, d, i) && IsNewestAt(b, d, j) ensures SameShape(a[i], b[j]) {
      NewestIsLatest(a, d, i);
      NewestIsLatest(b, d, j);
      assert IsLatest(a, b[j]);
    }
  }

  /** Every arrival order leaves the same current tables, provided no identifier has two differing latest sound snapshots. */
  lemma {:induction false} OrderIsIrrelevant(entries: seq<Entry>, other: seq<Entry>)
    requires LatestAgree(Sound(Snapshots(entries)))
    requires multiset(Snapshots(other)) == multiset(Snapshots(entries))
    ensures SameCurrent(Arrive(entries), Arrive(other))
  {
    var a, b := Sound(Snapshots(entries)), Sound(Snapshots(other));
    FilterPermuted((s: RuntimeSnapshot) => DistinctNames(s.database), Snapshots(entries), Snapshots(other));
    SameNewest(a, b);
    ArrivalsShowSound(entries);
    ArrivalsShowSound(other);
    ViewsAgree(Arrive(entries), a, Arrive(other), b);
  }

  lemma {:induction false} SnapshotsConcat(a: seq<Entry>, b: seq<Entry>)
    ensures Snapshots(a + b) == Snapshots(a) + Snapshots(b)
  {
  }

  lemma {:induction false} MovedSnapshots(a: seq<Entry>, e: Entry, b: seq<Entry>)
    ensures multiset(Snapshots(a + b + [e])) == multiset(Snapshots(a + [e] + b))
    ensures multiset(Snapshots([e] + a + b)) == multiset(Snapshots(a + [e] + b))
  {
    SnapshotsConcat(a + b, [e]);
    SnapshotsConcat(a, b);
    SnapshotsConcat(a + [e], b);
    SnapshotsConcat(a, [e]);
    SnapshotsConcat([e] + a, b);
    SnapshotsConcat([e], a);
  }

  lemma {:induction false} MoveToEnd(entries: seq<Entry>, s: RuntimeSnapshot) returns (moved: seq<Entry>)
    requires s in Snapshots(entries)
    ensures multiset(Snapshots(moved)) == multiset(Snapshots(entries))
    ensures moved != [] && moved[|moved| - 1].snapshot == s
  {
    var i :| 0 <= i < |entries| && Snapshots(entries)[i] == s;
    moved := entries[..i] + entries[i + 1..] + [entries[i]];
    MovedSnapshots(entries[..i], entries[i], entries[i + 1..]);
    assert entries == entries[..i] + [entries[i]] + entries[i + 1..];
  }

  /** A latest sound snapshot is what shows when it comes last. */
  lemma {:induction false} LatestCanShow(entries: seq<Entry>, s: RuntimeSnapshot) returns (moved: seq<Entry>)
    requires IsLatest(Sound(Snapshots(entries)), s)
    ensures multiset(Snapshots(moved)) == multiset(Snapshots(entries))
    ensures Shows(Arrive(moved), s.dbIdentifier, s)
  {
    var p := (s: RuntimeSnapshot) => DistinctNames(s.database);
    FilterMembers(p, Snapshots(entries));
    moved := MoveToEnd(entries, s);
    var n := |moved| - 1;
    var log := Sound(Snapshots(moved));
    assert Snapshots(moved) == Snapshots(moved[..n]) + [s];
    SoundAppend(Snapshots(moved[..n]), s);
    FilterPermuted(p, Snapshots(moved), Snapshots(entries));
    SameElements(log, Sound(Snapshots(entries)));
    forall j | 0 <= j < |log| && log[j].dbIdentifier == s.dbIdentifier ensures log[j].capturedAt <= s.capturedAt {
      assert log[j] in log;
    }
    ArrivalsShowSound(moved);
    assert IsNewestAt(log, s.dbIdentifier, |log| - 1);
    assert ViewAt(Arrive(moved), log, s.dbIdentifier);
  }

  /**
    For every list of arrivals: their order is irrelevant if and only if, per identifier, all latest snapshots
    among those without a repeated database name agree.
   */
  lemma {:induction false} OrderIrrelevantExactly(entries: seq<Entry>)
    ensures OrderIrrelevant(entries) <==> LatestAgree(Sound(Snapshots(entries)))
  {
    var log := Sound(Snapshots(entries));
    if LatestAgree(log) {
      forall other: seq<Entry> | multiset(Snapshots(other)) == multiset(Snapshots(entries))
        ensures SameCurrent(Arrive(entries), Arrive(other))
      {
        OrderIsIrrelevant(entries, other);
      }
    }
    if OrderIrrelevant(entries) {
      forall a, b | IsLatest(log, a) && IsLatest(log, b) && a.dbIdentifier == b.dbIdentifier ensures SameShape(a, b) {
        var p := LatestCanShow(entries, a);
        var q := LatestCanShow(entries, b);
        assert SameCurrent(Arrive(p), Arrive(q));
      }
    }
  }

  predicate DistinctTimes(log: seq<RuntimeSnapshot>) {
    forall i, j :: 0 <= i < j < |log| && log[i].dbIdentifier == log[j].dbIdentifier ==> log[i].capturedAt != log[j].capturedAt
  }

  /** Pairwise distinct capture times per identifier are enough. */
  lemma {:induction false} DistinctTimesSuffice(entries: seq<Entry>)
    requires DistinctTimes(Snapshots(entries))
    ensures OrderIrrelevant(entries)
  {
    var all := Snapshots(entries);
    var log := Sound(all);
    FilterMembers((s: RuntimeSnapshot) => DistinctNames(s.database), all);
    forall a, b | IsLatest(log, a) && IsLatest(log, b) && a.dbIdentifier == b.dbIdentifier ensures SameShape(a, b) {
      var i :| 0 <= i < |all| && all[i] == a;
      var j :| 0 <= j < |all| && all[j] == b;
      assert a.capturedAt <= b.capturedAt && b.capturedAt <= a.capturedAt;
      assert i == j;
    }
    OrderIrrelevantExactly(entries);
  }

  lemma {:induction false} SoundPair(a: RuntimeSnapshot, b: RuntimeSnapshot)
    requires DistinctNames(a.database) && DistinctNames(b.database)
    ensures Sound([a, b]) == [a, b]
  {
    SoundAppend([], a);
    SoundAppend([a], b);
    assert [] + [a] == [a] && [a] + [b] == [a, b];
  }

  lemma {:induction false} BothLatest(a: RuntimeSnapshot, b: RuntimeSnapshot)
    requires a.dbIdentifier == b.dbIdentifier && a.capturedAt == b.capturedAt && !SameShape(a, b)
    ensures !LatestAgree([a, b])
  {
    assert a in [a, b] && b in [a, b];
    assert IsLatest([a, b], a) && IsLatest([a, b], b);
  }

  /** Two snapshots taken at the same time with different contents: the one that comes last shows. */
  lemma {:induction false} EqualTimesDependOnOrder(a: RuntimeSnapshot, b: RuntimeSnapshot)
    requires a == RuntimeSnapshot(0, "d", ActivitySnapshot(1, 0, None), LocksSnapshot(0, 0), [])
    requires b == a.(activity := ActivitySnapshot(2, 0, None))
    ensures !OrderIrrelevant([Entry(1, a), Entry(2, b)])
  {
    assert Snapshots([Entry(1, a), Entry(2, b)]) == [a, b];
    SoundPair(a, b);
    BothLatest(a, b);
    OrderIrrelevantExactly([Entry(1, a), Entry(2, b)]);
  }

  // ----- When no write ever fails

  ghost predicate AllDistinctNames(log: seq<RuntimeSnapshot>) {
    forall s :: s in log ==> DistinctNames(s.database)
  }

  lemma {:induction false} ReplaySucceeds(entries: seq<Entry>)
    requires AllDistinctNames(Snapshots(entries))
    ensures Replay(entries).Some?
  {
    if entries == [] {
    } else {
      var n := |entries| - 1;
      var log := Snapshots(entries);
      forall s | s in Snapshots(entries[..n]) ensures s in log {
        var i :| 0 <= i < n && Snapshots(entries[..n])[i] == s;
        assert log[i] == s;
      }
      ReplaySucceeds(entries[..n]);
      ReplayIsView(entries[..n]);
      assert log[n] in log;
      WriteFailsExactly(Replay(entries[..n]).value, Snapshots(entries[..n]), entries[n].id, entries[n].snapshot);
    }
  }

  lemma {:induction false} PrefixReplays(entries: seq<Entry>, n: nat)
    requires n <= |entries| && Replay(entries).Some?
    ensures Replay(entries[..n]).Some?
  {
    if n < |entries| {
      var init := entries[..|entries| - 1];
      PrefixReplays(init, n);
      assert init[..n] == entries[..n];
    } else {
      assert entries[..n] == entries;
    }
  }

  /** A snapshot that repeats a name fails when it comes first. */
  lemma {:induction false} UnsoundFirstFails(entries: seq<Entry>, s: RuntimeSnapshot) returns (moved: seq<Entry>)
    requires s in Snapshots(entries) && !DistinctNames(s.database)
    ensures multiset(Snapshots(moved)) == multiset(Snapshots(entries)) && Replay(moved).None?
  {
    var i :| 0 <= i < |entries| && Snapshots(entries)[i] == s;
    moved := [entries[i]] + entries[..i] + entries[i + 1..];
    MovedSnapshots(entries[..i], entries[i], entries[i + 1..]);
    assert entries == entries[..i] + [entries[i]] + entries[i + 1..];
    EmptyIsView();
    WriteFailsExactly(EMPTY, [], entries[i].id, s);
    assert moved[..1] == [entries[i]] && [entries[i]][..0] == [];
    assert Replay(moved[..1]) == None;
    if Replay(moved).Some? {
      PrefixReplays(moved, 1);
    }
  }

  /** All orders of arrival are stored whole if and only if no snapshot repeats a database name. */
  lemma {:induction false} AllOrdersStoredExactly(entries: seq<Entry>)
    ensures (forall other: seq<Entry> :: multiset(Snapshots(other)) == multiset(Snapshots(entries)) ==> Replay(other).Some?)
            <==> AllDistinctNames(Snapshots(entries))
  {
    if AllDistinctNames(Snapshots(entries)) {
      forall other: seq<Entry> | multiset(Snapshots(other)) == multiset(Snapshots(entries)) ensures Replay(other).Some? {
        SameElements(Snapshots(other), Snapshots(entries));
        ReplaySucceeds(other);
      }
    } else {
      var s :| s in Snapshots(entries) && !DistinctNames(s.database);
      var moved := UnsoundFirstFails(entries, s);
    }
  }

  /** Re-applying the snapshot in force changes neither current table. */
  lemma {:induction false} ReapplyChangesNothing(t: Tables, id: int, s: RuntimeSnapshot)
    requires Shows(t, s.dbIdentifier, s)
    ensures ApplySnapshot(t, id, s).Some? && SameCurrent(t, ApplySnapshot(t, id, s).value)
  {
    RowsOfKeys(s, s.database);
    forall k | k in t.databaseCurrent && k.dbIdentifier == s.dbIdentifier
      ensures t.databaseCurrent[k].capturedAt <= s.capturedAt
    {
      assert k in Slice(t.databaseCurrent, s.dbIdentifier);
    }
    FreshWriteReplaces(t, id, s);
    var t' := ApplySnapshot(t, id, s).value;
    forall k
      ensures k in t.databaseCurrent <==> k in t'.databaseCurrent
      ensures k in t.databaseCurrent ==> t.databaseCurrent[k] == t'.databaseCurrent[k]
    {
      var d := k.dbIdentifier;
      assert Slice(t.databaseCurrent, d) == Slice(t'.databaseCurrent, d);
      assert k in t.databaseCurrent <==> k in Slice(t.databaseCurrent, d);
      assert k in t'.databaseCurrent <==> k in Slice(t'.databaseCurrent, d);
    }
    assert t.databaseCurrent == t'.databaseCurrent;
  }

  // ----- The append-only history

  /** The databases recorded under one `runtime_snapshots` id, in insertion order. */
  function Children(rows: seq<DatabaseSnapshotRow>, id: int): seq<DatabaseMetric> {
    if rows == [] then []
    else if rows[0].runtimeSnapshotId == id then [rows[0].metric] + Children(rows[1..], id)
    else Children(rows[1..], id)
  }

  /** A snapshot read back from its history rows. */
  function ReadBack(t: Tables, id: int): RuntimeSnapshot
    requires id in t.snapshots
  {
    var row := t.snapshots[id];
    RuntimeSnapshot(row.capturedAt, row.dbIdentifier, row.activity, row.locks, Children(t.databaseSnapshots, id))
  }

  ghost predicate DistinctIds(entries: seq<Entry>) {
    forall i, j :: 0 <= i < j < |entries| ==> entries[i].id != entries[j].id
  }

  /** The history tables hold the entries, each once, with every child row under an existing parent. */
  ghost predicate Records(t: Tables, entries: seq<Entry>) {
    && (forall id :: id in t.snapshots <==> exists i :: 0 <= i < |entries| && entries[i].id == id)
    && (forall i :: 0 <= i < |entries| ==>
          entries[i].id in t.snapshots && ReadBack(t, entries[i].id) == entries[i].snapshot)
    && (forall r :: r in t.databaseSnapshots ==> r.runtimeSnapshotId in t.snapshots)
  }

  lemma {:induction false} ChildrenConcat(a: seq<DatabaseSnapshotRow>, b: seq<DatabaseSnapshotRow>, id: int)
    ensures Children(a + b, id) == Children(a, id) + Children(b, id)
  {
    if a == [] {
      assert a + b == b;
    } else {
      assert a + b == [a[0]] + (a[1..] + b);
      ChildrenConcat(a[1..], b, id);
    }
  }

  lemma {:induction false} ChildrenOfOne(owner: int, metrics: seq<DatabaseMetric>, id: int)
    ensures Children(DatabaseSnapshotRowsOf(owner, metrics), id) == if id == owner then metrics else []
  {
    var rows := DatabaseSnapshotRowsOf(owner, metrics);
    if metrics == [] {
    } else {
      assert rows[1..] == DatabaseSnapshotRowsOf(owner, metrics[1..]);
      ChildrenOfOne(owner, metrics[1..], id);
    }
  }

  lemma {:induction false} NoChildren(rows: seq<DatabaseSnapshotRow>, id: int)
    requires forall r :: r in rows ==> r.runtimeSnapshotId != id
    ensures Children(rows, id) == []
  {
    if rows == [] {
    } else {
      assert rows[0] in rows;
      NoChildren(rows[1..], id);
    }
  }

  lemma {:induction false} WriteRecords(t: Tables, entries: seq<Entry>, e: Entry)
    requires Records(t, entries) && e.id !in t.snapshots
    requires ApplySnapshot(t, e.id, e.snapshot).Some?
    ensures Records(ApplySnapshot(t, e.id, e.snapshot).value, entries + [e])
  {
    var t' := ApplySnapshot(t, e.id, e.snapshot).value;
    var added := DatabaseSnapshotRowsOf(e.id, e.snapshot.database);
    var entries' := entries + [e];
    assert t'.databaseSnapshots == t.databaseSnapshots + added;
    NoChildren(t.databaseSnapshots, e.id);
    forall i | 0 <= i < |entries'|
      ensures entries'[i].id in t'.snapshots && ReadBack(t', entries'[i].id) == entries'[i].snapshot
    {
      ChildrenConcat(t.databaseSnapshots, added, entries'[i].id);
      ChildrenOfOne(e.id, e.snapshot.database, entries'[i].id);
      assert i < |entries| ==> entries'[i] == entries[i];
    }
    forall id ensures id in t'.snapshots <==> exists i :: 0 <= i < |entries'| && entries'[i].id == id {
      if id in t.snapshots {
        var i :| 0 <= i < |entries| && entries[i].id == id;
        assert entries'[i].id == id;
      }
      assert entries'[|entries|] == e;
    }
  }

  lemma {:induction false} LastIdIsFresh(t: Tables, entries: seq<Entry>)
    requires entries != [] && DistinctIds(entries) && Records(t, entries[..|entries| - 1])
    ensures entries[|entries| - 1].id !in t.snapshots
  {
    var n := |entries| - 1;
    forall i | 0 <= i < n ensures entries[..n][i].id != entries[n].id {
      assert entries[i].id != entries[n].id;
    }
  }

  lemma {:induction false} PrefixHasDistinctIds(entries: seq<Entry>, n: nat)
    requires n <= |entries| && DistinctIds(entries)
    ensures DistinctIds(entries[..n])
  {
    forall i, j | 0 <= i < j < n ensures entries[..n][i].id != entries[..n][j].id {
      assert entries[i].id != entries[j].id;
    }
  }

  /** After any run of writes with fresh ids, the history tables read back as exactly the committed snapshots. */
  lemma {:induction false} ReplayRecords(entries: seq<Entry>)
    requires DistinctIds(entries) && Replay(entries).Some?
    ensures Records(Replay(entries).value, entries)
  {
    if entries == [] {
    } else {
      var n := |entries| - 1;
      var init, last := entries[..n], entries[n];
      assert init + [last] == entries;
      PrefixHasDistinctIds(entries, n);
      ReplayRecords(init);
      LastIdIsFresh(Replay(init).value, entries);
      WriteRecords(Replay(init).value, init, last);
    }
  }

  /** The current tables hold the header and the databases of the recorded snapshot, column by column. */
  ghost predicate IsCurrent(t: Tables, d: string, id: int)
    requires d in t.current && id in t.snapshots
  {
    var header, stored := t.current[d], t.snapshots[id];
    && stored.dbIdentifier == d
    && header.capturedAt == stored.capturedAt && header.activity == stored.activity && header.locks == stored.locks
    && (forall m :: m in Children(t.databaseSnapshots, id) <==>
          DatabaseKey(d, m.datname) in t.databaseCurrent
          && t.databaseCurrent[DatabaseKey(d, m.datname)] == DatabaseCurrentRow(stored.capturedAt, m.stats))
  }

  lemma {:induction false} ShownIsCurrent(t: Tables, d: string, id: int)
    requires id in t.snapshots && t.snapshots[id].dbIdentifier == d && Shows(t, d, ReadBack(t, id))
    ensures IsCurrent(t, d, id)
  {
    var s := ReadBack(t, id);
    forall m
      ensures m in s.database <==>
                DatabaseKey(d, m.datname) in t.databaseCurrent
                && t.databaseCurrent[DatabaseKey(d, m.datname)] == DatabaseCurrentRow(s.capturedAt, m.stats)
    {
      ShownRow(t, d, s, m);
    }
  }

  lemma {:induction false} ShownRow(t: Tables, d: string, s: RuntimeSnapshot, m: DatabaseMetric)
    requires s.dbIdentifier == d && Shows(t, d, s)
    ensures m in s.database <==>
              DatabaseKey(d, m.datname) in t.databaseCurrent
              && t.databaseCurrent[DatabaseKey(d, m.datname)] == DatabaseCurrentRow(s.capturedAt, m.stats)
  {
    var key := DatabaseKey(d, m.datname);
    RowsOfKeys(s, s.database);
    assert key in t.databaseCurrent <==> key in Slice(t.databaseCurrent, d);
    if m in s.database {
      var i :| 0 <= i < |s.database| && s.database[i] == m;
      RowsOfExact(s, s.database, i);
    } else if key in t.databaseCurrent {
      assert m.datname in Names(s.database);
      var i :| 0 <= i < |s.database| && s.database[i].datname == m.datname;
      RowsOfExact(s, s.database, i);
      assert s.database[i] in s.database;
    }
  }

  /** The current row of an identifier is the current row of some recorded snapshot of it, and none recorded is later. */
  lemma {:induction false} CurrentIsNewestInHistory(entries: seq<Entry>, d: string)
    requires DistinctIds(entries) && Replay(entries).Some?
    ensures var t := Replay(entries).value;
            && (d in t.current <==> exists id :: id in t.snapshots && t.snapshots[id].dbIdentifier == d)
            && (d in t.current ==> exists id :: id in t.snapshots && IsCurrent(t, d, id))
            && (forall id :: id in t.snapshots && t.snapshots[id].dbIdentifier == d ==>
                  d in t.current && t.snapshots[id].capturedAt <= t.current[d].capturedAt)
  {
    var t, log := Replay(entries).value, Snapshots(entries);
    ReplayIsView(entries);
    ReplayRecords(entries);
    ViewKeys(t, log, d);
    assert ViewAt(t, log, d);
    if Mentions(log, d) {
      NewestExists(log, d);
      var i :| IsNewestAt(log, d, i);
      assert entries[i].id in t.snapshots && ReadBack(t, entries[i].id) == log[i];
      assert Shows(t, d, ReadBack(t, entries[i].id));
      ShownIsCurrent(t, d, entries[i].id);
    }
    forall id | id in t.snapshots && t.snapshots[id].dbIdentifier == d
      ensures Mentions(log, d) && t.snapshots[id].capturedAt <= t.current[d].capturedAt
    {
      var j :| 0 <= j < |entries| && entries[j].id == id;
      assert log[j] == ReadBack(t, id);
    }
  }
}
