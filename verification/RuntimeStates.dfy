/** What the readers of the current tables return. */
module RuntimeStates {
  import opened Wrappers
  import opened Sorting
  import opened Text
  import opened Models
  import opened RuntimeTables
  import opened RuntimeView

  datatype RuntimeState = RuntimeState(
    capturedAt: int, dbIdentifier: string,
    activity: ActivitySnapshot, locks: LocksSnapshot, database: seq<DatabaseMetric>)

  predicate DatabaseKeyLe(a: DatabaseKey, b: DatabaseKey) {
    if a.dbIdentifier != b.dbIdentifier then TextLe(a.dbIdentifier, b.dbIdentifier) else TextLe(a.datname, b.datname)
  }

  predicate NameLe(a: DatabaseMetric, b: DatabaseMetric) {
    TextLe(a.datname, b.datname)
  }

  predicate StateLe(a: RuntimeState, b: RuntimeState) {
    TextLe(a.dbIdentifier, b.dbIdentifier)
  }

  lemma {:induction false} TextOrders()
    ensures TotalPreorder(TextLe) && TotalPreorder(DatabaseKeyLe)
  {
    forall a, b, c: string
      ensures TextLe(a, b) || TextLe(b, a)
      ensures TextLe(a, b) && TextLe(b, c) ==> TextLe(a, c)
    {
      TextLeTotal(a, b);
      if TextLe(a, b) && TextLe(b, c) {
        TextLeTransitive(a, b, c);
      }
    }
    forall a, b, c: DatabaseKey
      ensures DatabaseKeyLe(a, b) || DatabaseKeyLe(b, a)
      ensures DatabaseKeyLe(a, b) && DatabaseKeyLe(b, c) ==> DatabaseKeyLe(a, c)
    {
      if DatabaseKeyLe(a, b) && DatabaseKeyLe(b, c) && a.dbIdentifier == c.dbIdentifier && a.dbIdentifier != b.dbIdentifier {
        TextLeAntisymmetric(a.dbIdentifier, b.dbIdentifier);
      }
    }
  }

  // ----- The answer

  predicate SortedNames(metrics: seq<DatabaseMetric>) {
    forall i, j :: 0 <= i < j < |metrics| ==>
      NameLe(metrics[i], metrics[j]) && metrics[i].datname != metrics[j].datname
  }

  /** Exactly the identifier's rows, each once, sorted by database name. */
  ghost predicate ListsDatabases(t: Tables, d: string, metrics: seq<DatabaseMetric>) {
    && SortedNames(metrics)
    && (forall m :: m in metrics <==>
          DatabaseKey(d, m.datname) in t.databaseCurrent && t.databaseCurrent[DatabaseKey(d, m.datname)].stats == m.stats)
  }

  ghost predicate IsStateOf(t: Tables, state: RuntimeState) {
    && state.dbIdentifier in t.current
    && CurrentRow(state.capturedAt, state.activity, state.locks) == t.current[state.dbIdentifier]
    && ListsDatabases(t, state.dbIdentifier, state.database)
  }

  predicate Wanted(d: string, only: Option<string>) {
    only.Some? ==> d == only.value
  }

  /** One state per wanted current identifier, sorted by identifier. */
  ghost predicate ListsStates(t: Tables, only: Option<string>, states: seq<RuntimeState>) {
    && (forall i, j :: 0 <= i < j < |states| ==>
          StateLe(states[i], states[j]) && states[i].dbIdentifier != states[j].dbIdentifier)
    && (forall i :: 0 <= i < |states| ==> Wanted(states[i].dbIdentifier, only) && IsStateOf(t, states[i]))
    && (forall d :: d in t.current && Wanted(d, only) ==> exists i :: 0 <= i < |states| && states[i].dbIdentifier == d)
  }

  /** There is only one such list of databases. */
  lemma {:induction false} DatabasesAreUnique(t: Tables, d: string, a: seq<DatabaseMetric>, b: seq<DatabaseMetric>)
    requires ListsDatabases(t, d, a) && ListsDatabases(t, d, b)
    ensures a == b
  {
    forall x, y | x in a && y in a && NameLe(x, y) && NameLe(y, x) ensures x == y {
      TextLeAntisymmetric(x.datname, y.datname);
    }
    DistinctSortedIsUnique(NameLe, a, b);
  }

  lemma {:induction false} StatesOfOne(t: Tables, a: RuntimeState, b: RuntimeState)
    requires IsStateOf(t, a) && IsStateOf(t, b) && a.dbIdentifier == b.dbIdentifier
    ensures a == b
  {
    DatabasesAreUnique(t, a.dbIdentifier, a.database, b.database);
  }

  /** The full list is determined by the tables. */
  lemma {:induction false} StatesAreUnique(t: Tables, only: Option<string>, a: seq<RuntimeState>, b: seq<RuntimeState>)
    requires ListsStates(t, only, a) && ListsStates(t, only, b)
    ensures a == b
  {
    forall x ensures x in a <==> x in b {
      if x in a {
        var i :| 0 <= i < |b| && b[i].dbIdentifier == x.dbIdentifier;
        StatesOfOne(t, x, b[i]);
      }
      if x in b {
        var i :| 0 <= i < |a| && a[i].dbIdentifier == x.dbIdentifier;
        StatesOfOne(t, x, a[i]);
      }
    }
    forall x, y | x in a && y in a && StateLe(x, y) && StateLe(y, x) ensures x == y {
      TextLeAntisymmetric(x.dbIdentifier, y.dbIdentifier);
      StatesOfOne(t, x, y);
    }
    DistinctSortedIsUnique(StateLe, a, b);
  }

  /** The single-identifier read is the listed state of that identifier, or nothing when none is listed. */
  lemma {:induction false} SingleReadAgrees(t: Tables, d: string, all: seq<RuntimeState>, one: seq<RuntimeState>)
    requires ListsStates(t, None, all) && ListsStates(t, Some(d), one)
    ensures one == [] <==> forall s :: s in all ==> s.dbIdentifier != d
    ensures one != [] ==> one[0] in all && one[0].dbIdentifier == d
  {
    if one != [] {
      assert IsStateOf(t, one[0]);
      var i :| 0 <= i < |all| && all[i].dbIdentifier == d;
      StatesOfOne(t, one[0], all[i]);
    } else {
      forall s | s in all ensures s.dbIdentifier != d {
        assert s.dbIdentifier in t.current;
      }
    }
  }

  /** In a store that is a view of a log, every listed state is the newest snapshot of its identifier. */
  lemma {:induction false} ReadsShowNewest(t: Tables, log: seq<RuntimeSnapshot>, states: seq<RuntimeState>)
    requires View(t, log) && ListsStates(t, None, states)
    ensures forall d :: Mentions(log, d) <==> exists s :: s in states && s.dbIdentifier == d
    ensures forall s, i :: s in states && IsNewestAt(log, s.dbIdentifier, i) ==>
              && s.capturedAt == log[i].capturedAt && s.activity == log[i].activity && s.locks == log[i].locks
              && multiset(s.database) == multiset(log[i].database)
  {
    forall d ensures Mentions(log, d) <==> exists s :: s in states && s.dbIdentifier == d {
      ViewKeys(t, log, d);
      if d in t.current {
        var i :| 0 <= i < |states| && states[i].dbIdentifier == d;
        assert states[i] in states;
      }
    }
    forall s, i | s in states && IsNewestAt(log, s.dbIdentifier, i)
      ensures s.capturedAt == log[i].capturedAt && s.activity == log[i].activity && s.locks == log[i].locks
      ensures multiset(s.database) == multiset(log[i].database)
    {
      assert ViewAt(t, log, s.dbIdentifier);
      ListedAreRecorded(t, log[i], s.database);
    }
  }

  lemma {:induction false} ListedAreRecorded(t: Tables, w: RuntimeSnapshot, listed: seq<DatabaseMetric>)
    requires Shows(t, w.dbIdentifier, w) && ListsDatabases(t, w.dbIdentifier, listed)
    ensures multiset(listed) == multiset(w.database)
  {
    var d := w.dbIdentifier;
    RowsOfKeys(w, w.database);
    forall m ensures multiset(listed)[m] == multiset(w.database)[m] {
      var key := DatabaseKey(d, m.datname);
      assert key in t.databaseCurrent <==> key in Slice(t.databaseCurrent, d);
      if key in t.databaseCurrent {
        assert m.datname in Names(w.database);
        var i :| 0 <= i < |w.database| && w.database[i].datname == m.datname;
        RowsOfExact(w, w.database, i);
        assert w.database[i] in w.database;
        if m in w.database {
          var j :| 0 <= j < |w.database| && w.database[j] == m;
          assert i == j;
        }
      }
      assert m in listed <==> m in w.database;
      OnceWhenDistinct(listed, m);
      OnceWhenDistinct(w.database, m);
    }
    assert multiset(listed) == multiset(w.database);
  }

  // ----- Grouping the database rows

  /** The selected rows of one identifier, in the order selected. */
  function Grouped(t: Tables, keys: seq<DatabaseKey>, d: string): seq<DatabaseMetric>
    requires forall i :: 0 <= i < |keys| ==> keys[i] in t.databaseCurrent
  {
    if keys == [] then [] else
      var k := keys[|keys| - 1];
      Grouped(t, keys[..|keys| - 1], d) +
        if k.dbIdentifier == d then [DatabaseMetric(k.datname, t.databaseCurrent[k].stats)] else []
  }

  lemma {:induction false} GroupedMembers(t: Tables, keys: seq<DatabaseKey>, d: string)
    requires forall i :: 0 <= i < |keys| ==> keys[i] in t.databaseCurrent
    ensures forall m :: m in Grouped(t, keys, d) <==>
              DatabaseKey(d, m.datname) in keys && t.databaseCurrent[DatabaseKey(d, m.datname)].stats == m.stats
  {
    if keys == [] {
    } else {
      var n := |keys| - 1;
      assert keys == keys[..n] + [keys[n]];
      assert keys[n] in keys;
      GroupedMembers(t, keys[..n], d);
    }
  }

  lemma {:induction false} GroupedSorted(t: Tables, keys: seq<DatabaseKey>, d: string)
    requires forall i :: 0 <= i < |keys| ==> keys[i] in t.databaseCurrent
    requires Sorted(DatabaseKeyLe, keys) && Distinct(keys)
    ensures SortedNames(Grouped(t, keys, d))
  {
    if keys == [] {
    } else {
      var n := |keys| - 1;
      GroupedSorted(t, keys[..n], d);
      GroupedMembers(t, keys[..n], d);
      var g := Grouped(t, keys[..n], d);
      forall i | 0 <= i < |g| && keys[n].dbIdentifier == d
        ensures TextLe(g[i].datname, keys[n].datname) && g[i].datname != keys[n].datname
      {
        assert g[i] in g;
        var j :| 0 <= j < n && keys[..n][j] == DatabaseKey(d, g[i].datname);
        assert DatabaseKeyLe(keys[j], keys[n]);
      }
      var all := Grouped(t, keys, d);
      forall i, j | 0 <= i < j < |all| ensures NameLe(all[i], all[j]) && all[i].datname != all[j].datname {
        assert all[i] == g[i];
        if j < |g| {
          assert all[j] == g[j];
        } else {
          assert all[j].datname == keys[n].datname;
        }
      }
    }
  }

  lemma {:induction false} GroupedLists(t: Tables, keys: seq<DatabaseKey>, d: string)
    requires forall i :: 0 <= i < |keys| ==> keys[i] in t.databaseCurrent
    requires forall k :: k in t.databaseCurrent && k.dbIdentifier == d ==> k in keys
    requires Sorted(DatabaseKeyLe, keys) && Distinct(keys)
    ensures ListsDatabases(t, d, Grouped(t, keys, d))
  {
    GroupedSorted(t, keys, d);
    GroupedMembers(t, keys, d);
  }
}
