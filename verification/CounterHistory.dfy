/**
  Where the counters come from: `pg_stat_statements` entries that grow with every execution and vanish when
  they are evicted or reset. A delta is judged against the activity between the two snapshots.
 */
module CounterHistory {
  import opened Wrappers
  import opened Models
  import opened Delta

  type Stats = map<RowKey, Counters>

  datatype StatEvent = Executed(key: RowKey, cost: Counters) | Removed(key: RowKey) | ResetAll

  function Value(stats: Stats, key: RowKey): Counters {
    if key in stats then stats[key] else ZERO
  }

  function AfterEvent(stats: Stats, e: StatEvent): Stats {
    match e
    case Executed(key, cost) => stats[key := Plus(Value(stats, key), cost)]
    case Removed(key) => stats - {key}
    case ResetAll => map[]
  }

  function AfterEvents(stats: Stats, events: seq<StatEvent>): Stats {
    if events == [] then stats else AfterEvent(AfterEvents(stats, events[..|events| - 1]), events[|events| - 1])
  }

  predicate Drops(e: StatEvent, key: RowKey) {
    e.ResetAll? || e == Removed(key)
  }

  function Cost(e: StatEvent, key: RowKey): Counters {
    if e.Executed? && e.key == key then e.cost else ZERO
  }

  /** What the key's executions cost in all. */
  function Activity(events: seq<StatEvent>, key: RowKey): Counters {
    if events == [] then ZERO else
      Plus(Activity(events[..|events| - 1], key), Cost(events[|events| - 1], key))
  }

  /** The counts thrown away with the key's entry. */
  function Lost(stats: Stats, events: seq<StatEvent>, key: RowKey): Counters {
    if events == [] then ZERO else
      var before := events[..|events| - 1];
      Plus(Lost(stats, before, key),
           if Drops(events[|events| - 1], key) then Value(AfterEvents(stats, before), key) else ZERO)
  }

  ghost predicate CostsAreNonNegative(events: seq<StatEvent>) {
    forall i :: 0 <= i < |events| && events[i].Executed? ==> AtMost(ZERO, events[i].cost)
  }

  ghost predicate StatsAreNonNegative(stats: Stats) {
    forall k :: k in stats ==> AtMost(ZERO, stats[k])
  }

  /** The point holds exactly the entries there are. */
  ghost predicate IsSnapshotOf(p: QuerySnapshotPoint, stats: Stats) {
    && UniqueKeys(p.rows)
    && forall k :: (k in KeysOf(Some(p)) <==> k in stats) && ValueAt(Some(p), k) == Value(stats, k)
  }

  lemma {:induction false} StaysNonNegative(stats: Stats, events: seq<StatEvent>)
    requires StatsAreNonNegative(stats) && CostsAreNonNegative(events)
    ensures StatsAreNonNegative(AfterEvents(stats, events))
  {
    if events == [] {
    } else {
      var n := |events| - 1;
      StaysNonNegative(stats, events[..n]);
      assert events[n].Executed? ==> AtMost(ZERO, events[n].cost);
    }
  }

  lemma {:induction false} TotalsAreNonNegative(stats: Stats, events: seq<StatEvent>, key: RowKey)
    requires StatsAreNonNegative(stats) && CostsAreNonNegative(events)
    ensures AtMost(ZERO, Lost(stats, events, key)) && AtMost(ZERO, Activity(events, key))
  {
    if events == [] {
    } else {
      var n := |events| - 1;
      TotalsAreNonNegative(stats, events[..n], key);
      StaysNonNegative(stats, events[..n]);
      var before := AfterEvents(stats, events[..n]);
      assert AtMost(ZERO, Value(before, key));
      assert events[n].Executed? ==> AtMost(ZERO, events[n].cost);
    }
  }

  lemma {:induction false} NothingLost(stats: Stats, events: seq<StatEvent>, key: RowKey)
    requires forall i :: 0 <= i < |events| ==> !Drops(events[i], key)
    ensures Lost(stats, events, key) == ZERO
  {
    if events == [] {
    } else {
      NothingLost(stats, events[..|events| - 1], key);
    }
  }

  lemma {:induction false} EventConserves(stats: Stats, e: StatEvent, key: RowKey)
    ensures Plus(Value(AfterEvent(stats, e), key), if Drops(e, key) then Value(stats, key) else ZERO) ==
            Plus(Value(stats, key), Cost(e, key))
  {
    var before, after := Value(stats, key), Value(AfterEvent(stats, e), key);
    if Drops(e, key) {
      assert after == ZERO;
      PlusZero(before);
    } else if e.Executed? && e.key == key {
      assert after == Plus(before, e.cost);
      PlusZero(after);
    } else {
      assert after == before;
    }
  }

  lemma {:induction false} BalancesAdd(start: Counters, mid: Counters, end: Counters, l1: Counters, l2: Counters, d1: Counters, d2: Counters)
    requires Plus(mid, l1) == Plus(start, d1) && Plus(end, l2) == Plus(mid, d2)
    ensures Plus(end, Plus(l1, l2)) == Plus(start, Plus(d1, d2))
  {
  }

  /** Counts are neither made nor mislaid: what is there at the end was there before or was done since, less what was dropped. */
  lemma {:induction false} CountsAreConserved(stats: Stats, events: seq<StatEvent>, key: RowKey)
    ensures Plus(Value(AfterEvents(stats, events), key), Lost(stats, events, key)) ==
            Plus(Value(stats, key), Activity(events, key))
  {
    if events == [] {
    } else {
      var n := |events| - 1;
      var e, mid := events[n], AfterEvents(stats, events[..n]);
      CountsAreConserved(stats, events[..n], key);
      EventConserves(mid, e, key);
      BalancesAdd(Value(stats, key), Value(mid, key), Value(AfterEvent(mid, e), key),
                  Lost(stats, events[..n], key), if Drops(e, key) then Value(mid, key) else ZERO,
                  Activity(events[..n], key), Cost(e, key));
    }
  }

  lemma {:induction false} SnapshotIsNonNegative(p: QuerySnapshotPoint, stats: Stats)
    requires IsSnapshotOf(p, stats) && StatsAreNonNegative(stats)
    ensures NonNegativeIn(Some(p))
  {
    IndexExact(p.rows);
    forall r | r in p.rows ensures AtMost(ZERO, r.metric.counters) {
      assert ValueAt(Some(p), r.metric.key) == r.metric.counters;
      assert r.metric.key in KeysOf(Some(p));
    }
  }

  /** `before`, `after`, `done` and `lost` as one history leaves them for one key. */
  predicate Balanced(before: Counters, after: Counters, done: Counters, lost: Counters) {
    AtMost(ZERO, done) && AtMost(ZERO, lost) && Plus(after, lost) == Plus(before, done)
  }

  lemma {:induction false} GrowthNeverExceeds(before: Counters, after: Counters, done: Counters, lost: Counters)
    requires Balanced(before, after, done, lost)
    ensures AtMost(Growth(before, after), done)
  {
  }

  lemma {:induction false} GrowthBalances(before: Counters, after: Counters, done: Counters, lost: Counters)
    requires Balanced(before, after, done, lost) && AtMost(before, after)
    ensures Plus(Growth(before, after), lost) == done
  {
  }

  lemma {:induction false} GrowthIsExactWhen(before: Counters, after: Counters, done: Counters, lost: Counters)
    requires Balanced(before, after, done, lost)
    ensures Growth(before, after) == done <==> lost == ZERO || done == ZERO
  {
  }

  lemma {:induction false} KeptMeansNoFall(before: Counters, after: Counters, done: Counters)
    requires Balanced(before, after, done, ZERO)
    ensures AtMost(before, after)
  {
  }

  lemma {:induction false} HistoryBalances(p: QuerySnapshotPoint, q: QuerySnapshotPoint, stats: Stats, events: seq<StatEvent>, key: RowKey)
    requires StatsAreNonNegative(stats) && CostsAreNonNegative(events)
    requires IsSnapshotOf(p, stats) && IsSnapshotOf(q, AfterEvents(stats, events))
    ensures Balanced(ValueAt(Some(p), key), ValueAt(Some(q), key), Activity(events, key), Lost(stats, events, key))
    ensures Change(Some(p), Some(q), key) == Growth(ValueAt(Some(p), key), ValueAt(Some(q), key))
  {
    CountsAreConserved(stats, events, key);
    TotalsAreNonNegative(stats, events, key);
    StaysNonNegative(stats, events);
    SnapshotIsNonNegative(p, stats);
    SnapshotIsNonNegative(q, AfterEvents(stats, events));
    ChangeIsGrowth(Some(p), Some(q), key);
  }

  /** No history makes a delta exceed the activity between its two snapshots, in any counter. */
  lemma {:induction false} DeltasNeverOverReport(p: QuerySnapshotPoint, q: QuerySnapshotPoint, stats: Stats, events: seq<StatEvent>, key: RowKey)
    requires StatsAreNonNegative(stats) && CostsAreNonNegative(events)
    requires IsSnapshotOf(p, stats) && IsSnapshotOf(q, AfterEvents(stats, events))
    ensures AtMost(Change(Some(p), Some(q), key), Activity(events, key))
  {
    HistoryBalances(p, q, stats, events, key);
    GrowthNeverExceeds(ValueAt(Some(p), key), ValueAt(Some(q), key), Activity(events, key), Lost(stats, events, key));
  }

  /** A reported delta is the activity less the counts that were thrown away with the entry. */
  lemma {:induction false} ReportedDeltasBalance(p: QuerySnapshotPoint, q: QuerySnapshotPoint, stats: Stats, events: seq<StatEvent>, key: RowKey)
    requires StatsAreNonNegative(stats) && CostsAreNonNegative(events)
    requires IsSnapshotOf(p, stats) && IsSnapshotOf(q, AfterEvents(stats, events))
    requires KeyReported(Some(p), Some(q), key)
    ensures Plus(Change(Some(p), Some(q), key), Lost(stats, events, key)) == Activity(events, key)
  {
    HistoryBalances(p, q, stats, events, key);
    GrowthBalances(ValueAt(Some(p), key), ValueAt(Some(q), key), Activity(events, key), Lost(stats, events, key));
  }

  /** The report is exact if and only if nothing was thrown away or nothing was done. */
  lemma {:induction false} ReportIsExactWhen(p: QuerySnapshotPoint, q: QuerySnapshotPoint, stats: Stats, events: seq<StatEvent>, key: RowKey)
    requires StatsAreNonNegative(stats) && CostsAreNonNegative(events)
    requires IsSnapshotOf(p, stats) && IsSnapshotOf(q, AfterEvents(stats, events))
    ensures Change(Some(p), Some(q), key) == Activity(events, key) <==>
              Lost(stats, events, key) == ZERO || Activity(events, key) == ZERO
  {
    HistoryBalances(p, q, stats, events, key);
    GrowthIsExactWhen(ValueAt(Some(p), key), ValueAt(Some(q), key), Activity(events, key), Lost(stats, events, key));
  }

  /** A key left out because a counter fell was evicted or reset in between. */
  lemma {:induction false} FallMeansDropped(p: QuerySnapshotPoint, q: QuerySnapshotPoint, stats: Stats, events: seq<StatEvent>, key: RowKey)
    requires StatsAreNonNegative(stats) && CostsAreNonNegative(events)
    requires IsSnapshotOf(p, stats) && IsSnapshotOf(q, AfterEvents(stats, events))
    requires !NoFall(Some(p), Some(q), key)
    ensures exists i :: 0 <= i < |events| && Drops(events[i], key)
  {
    if forall i :: 0 <= i < |events| ==> !Drops(events[i], key) {
      HistoryBalances(p, q, stats, events, key);
      NothingLost(stats, events, key);
      KeptMeansNoFall(ValueAt(Some(p), key), ValueAt(Some(q), key), Activity(events, key));
      assert false;
    }
  }

  /** A reported change is never zero. */
  lemma {:induction false} ReportedIsNonZero(start: Option<QuerySnapshotPoint>, end: Option<QuerySnapshotPoint>, key: RowKey)
    ensures KeyReported(start, end, key) <==> Change(start, end, key) != ZERO
  {
    DifferencesCancel(ValueAt(end, key), ValueAt(start, key), ZERO);
  }

  /** A key that was not dropped is reported with exactly its activity, or left out because it had none. */
  lemma {:induction false} UndroppedIsExact(p: QuerySnapshotPoint, q: QuerySnapshotPoint, stats: Stats, events: seq<StatEvent>, key: RowKey)
    requires StatsAreNonNegative(stats) && CostsAreNonNegative(events)
    requires IsSnapshotOf(p, stats) && IsSnapshotOf(q, AfterEvents(stats, events))
    requires forall i :: 0 <= i < |events| ==> !Drops(events[i], key)
    ensures Change(Some(p), Some(q), key) == Activity(events, key)
    ensures KeyReported(Some(p), Some(q), key) <==> Activity(events, key) != ZERO
  {
    ReportIsExactWhen(p, q, stats, events, key);
    NothingLost(stats, events, key);
    ReportedIsNonZero(Some(p), Some(q), key);
  }

  /**
    Without a start point the change is the whole count, so it stays within the window's activity exactly when
    everything counted before the window was dropped inside it.
   */
  lemma {:induction false} MissingStartOverReports(q: QuerySnapshotPoint, stats: Stats, events: seq<StatEvent>, key: RowKey)
    requires StatsAreNonNegative(stats) && CostsAreNonNegative(events)
    requires IsSnapshotOf(q, AfterEvents(stats, events))
    ensures Change(None, Some(q), key) == Value(AfterEvents(stats, events), key)
    ensures AtMost(Change(None, Some(q), key), Activity(events, key)) <==>
            AtMost(Value(stats, key), Lost(stats, events, key))
  {
    CountsAreConserved(stats, events, key);
    StaysNonNegative(stats, events);
    SnapshotIsNonNegative(q, AfterEvents(stats, events));
    ChangeIsGrowth(None, Some(q), key);
  }

  // ----- Where reports and activity part

  function Calls(n: int): Counters {
    Counters(n, 0.0, 0, 0, 0, 0, 0)
  }

  /** A point with one statement. */
  function OneRow(at: int, key: RowKey, c: Counters): QuerySnapshotPoint {
    QuerySnapshotPoint(at, [QueryRow(at, "d", StatementMetric(key, "select 1", c, 0.0))])
  }

  lemma {:induction false} OneRowIsSnapshot(at: int, key: RowKey, c: Counters)
    ensures IsSnapshotOf(OneRow(at, key, c), map[key := c])
  {
    IndexExact(OneRow(at, key, c).rows);
  }

  /** Five calls made before the window are reported for it when there is no start point. */
  lemma {:induction false} MissingStartExample(key: RowKey)
    ensures IsSnapshotOf(OneRow(0, key, Calls(5)), AfterEvents(map[key := Calls(5)], []))
    ensures Change(None, Some(OneRow(0, key, Calls(5))), key) == Calls(5) && Activity([], key) == ZERO
  {
    OneRowIsSnapshot(0, key, Calls(5));
    ChangeIsGrowth(None, Some(OneRow(0, key, Calls(5))), key);
  }

  lemma {:induction false} StatsAfterTwo(stats: Stats, x: StatEvent, y: StatEvent)
    ensures AfterEvents(stats, [x, y]) == AfterEvent(AfterEvent(stats, x), y)
  {
    assert [x, y][..1] == [x] && [x][..0] == [];
    assert AfterEvents(stats, [x]) == AfterEvent(AfterEvents(stats, []), x);
  }

  lemma {:induction false} ActivityOfTwo(x: StatEvent, y: StatEvent, key: RowKey)
    ensures Activity([x, y], key) == Plus(Plus(ZERO, Cost(x, key)), Cost(y, key))
  {
    assert [x, y][..1] == [x] && [x][..0] == [];
    assert Activity([x], key) == Plus(Activity([], key), Cost(x, key));
  }

  lemma {:induction false} CaughtUpHistory(key: RowKey)
    ensures var events := [Removed(key), Executed(key, Calls(7))];
            AfterEvents(map[key := Calls(5)], events) == map[key := Calls(7)] && Activity(events, key) == Calls(7)
  {
    StatsAfterTwo(map[key := Calls(5)], Removed(key), Executed(key, Calls(7)));
    ActivityOfTwo(Removed(key), Executed(key, Calls(7)), key);
    assert AfterEvent(map[key := Calls(5)], Removed(key)) == map[];
    PlusZero(ZERO);
    PlusZero(Calls(7));
  }

  /** Five calls are thrown away and seven more made: the two snapshots differ by two, and two is what is reported. */
  lemma {:induction false} CaughtUpResetExample(key: RowKey)
    ensures var events := [Removed(key), Executed(key, Calls(7))];
            var p, q := OneRow(0, key, Calls(5)), OneRow(1, key, Calls(7));
            && IsSnapshotOf(p, map[key := Calls(5)]) && IsSnapshotOf(q, AfterEvents(map[key := Calls(5)], events))
            && Change(Some(p), Some(q), key) == Calls(2) && Activity(events, key) == Calls(7)
  {
    var p, q := OneRow(0, key, Calls(5)), OneRow(1, key, Calls(7));
    CaughtUpHistory(key);
    OneRowIsSnapshot(0, key, Calls(5));
    OneRowIsSnapshot(1, key, Calls(7));
    ChangeIsGrowth(Some(p), Some(q), key);
  }
}
