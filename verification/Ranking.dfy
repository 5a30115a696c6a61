/** Sorting deltas and keeping the first few. */
module Ranking {
  import opened Text
  import opened Models
  import opened Sorting
  import opened QueryLookup
  import opened Delta

  datatype SortBy = ByTotalExecTime | ByCalls

  /** `sorted(..., key=..., reverse=True)`: greater keys first, equal keys in either order. */
  predicate CallsFirst(a: QueryDelta, b: QueryDelta) {
    if a.counters.calls != b.counters.calls then a.counters.calls > b.counters.calls
    else a.counters.totalExecTimeMs >= b.counters.totalExecTimeMs
  }

  predicate TimeFirst(a: QueryDelta, b: QueryDelta) {
    if a.counters.totalExecTimeMs != b.counters.totalExecTimeMs then a.counters.totalExecTimeMs > b.counters.totalExecTimeMs
    else a.counters.calls >= b.counters.calls
  }

  function Descending(sortBy: SortBy): (QueryDelta, QueryDelta) -> bool {
    if sortBy == ByCalls then CallsFirst else TimeFirst
  }

  /** The order of the answer: descending, ties ascending by (queryid, dbid, userid). */
  function Rank(sortBy: SortBy): (QueryDelta, QueryDelta) -> bool {
    Then(Descending(sortBy), DeltaLe)
  }

  function SortDeltas(deltas: seq<QueryDelta>, sortBy: SortBy): seq<QueryDelta> {
    StableSort(Descending(sortBy), deltas)
  }

  function Take<T>(xs: seq<T>, n: nat): seq<T> {
    if n < |xs| then xs[..n] else xs
  }

  /** The items come first in some ranking of all the deltas, and there are as many as the limit allows. */
  ghost predicate IsTop(items: seq<QueryDelta>, deltas: seq<QueryDelta>, sortBy: SortBy, limit: nat) {
    exists rest :: IsTopBefore(items, rest, deltas, sortBy, limit)
  }

  ghost predicate IsTopBefore(items: seq<QueryDelta>, rest: seq<QueryDelta>, deltas: seq<QueryDelta>, sortBy: SortBy, limit: nat) {
    && multiset(items + rest) == multiset(deltas)
    && Sorted(Rank(sortBy), items + rest)
    && |items| <= limit && (|items| < limit ==> rest == [])
  }

  lemma {:induction false} DescendingOrder(sortBy: SortBy)
    ensures TotalPreorder(Descending(sortBy))
  {
  }

  lemma {:induction false} RankHasNoTies(sortBy: SortBy, deltas: seq<QueryDelta>)
    requires UniqueDeltaKeys(deltas)
    ensures NoTies(Rank(sortBy), deltas)
  {
    forall a, b | a in deltas && b in deltas && Rank(sortBy)(a, b) && Rank(sortBy)(b, a) ensures a == b {
      assert DeltaLe(a, b) && DeltaLe(b, a);
      KeyLeTotalOrder(a.key, b.key, a.key);
      var i :| 0 <= i < |deltas| && deltas[i] == a;
      var j :| 0 <= j < |deltas| && deltas[j] == b;
      assert i == j;
    }
  }

  /** Sorting deltas that come in key order and cutting the list gives the top of the ranking. */
  lemma {:induction false} SortAndCutIsTop(deltas: seq<QueryDelta>, sortBy: SortBy, limit: nat)
    requires Sorted(DeltaLe, deltas)
    ensures IsTop(Take(SortDeltas(deltas, sortBy), limit), deltas, sortBy, limit)
  {
    var sorted := SortDeltas(deltas, sortBy);
    DescendingOrder(sortBy);
    StableSortBreaksTies(Descending(sortBy), DeltaLe, deltas);
    StableSortIsPermutation(Descending(sortBy), deltas);
    var items := Take(sorted, limit);
    var rest := sorted[|items|..];
    assert items + rest == sorted;
    assert IsTopBefore(items, rest, deltas, sortBy, limit);
  }

  /** The top is determined by the deltas as a collection. */
  lemma {:induction false} TopIsUnique(a: seq<QueryDelta>, b: seq<QueryDelta>, deltas: seq<QueryDelta>, sortBy: SortBy, limit: nat)
    requires UniqueDeltaKeys(deltas) && IsTop(a, deltas, sortBy, limit) && IsTop(b, deltas, sortBy, limit)
    ensures a == b
  {
    var r :| IsTopBefore(a, r, deltas, sortBy, limit);
    var s :| IsTopBefore(b, s, deltas, sortBy, limit);
    RankHasNoTies(sortBy, deltas);
    SameElements(a + r, deltas);
    SameElements(b + s, deltas);
    SortedIsUnique(Rank(sortBy), a + r, b + s);
    assert |a| == |b|;
    assert (a + r)[..|a|] == a && (b + s)[..|b|] == b;
  }

  /** Size, membership, order, and nothing better left out. */
  lemma {:induction false} TopMeaning(items: seq<QueryDelta>, deltas: seq<QueryDelta>, sortBy: SortBy, limit: nat)
    requires IsTop(items, deltas, sortBy, limit)
    ensures |items| == if limit < |deltas| then limit else |deltas|
    ensures multiset(items) <= multiset(deltas) && Sorted(Rank(sortBy), items)
    ensures forall d, i :: d in deltas && d !in items && i in items ==> Rank(sortBy)(i, d)
    ensures |items| < limit ==> multiset(items) == multiset(deltas)
  {
    var rest :| IsTopBefore(items, rest, deltas, sortBy, limit);
    SameElements(items + rest, deltas);
    assert multiset(items + rest) == multiset(items) + multiset(rest);
    forall i, j | 0 <= i < j < |items| ensures Rank(sortBy)(items[i], items[j]) {
      assert (items + rest)[i] == items[i] && (items + rest)[j] == items[j];
    }
    forall d, x | d in deltas && d !in items && x in items ensures Rank(sortBy)(x, d) {
      var i :| 0 <= i < |items| && items[i] == x;
      assert d in items + rest;
      var j :| 0 <= j < |rest| && rest[j] == d;
      assert (items + rest)[i] == x && (items + rest)[|items| + j] == d;
    }
    if |items| < limit {
      assert items + rest == items;
    }
  }

  /** A smaller limit gives a prefix. */
  lemma {:induction false} SmallerLimitIsPrefix(a: seq<QueryDelta>, b: seq<QueryDelta>, deltas: seq<QueryDelta>, sortBy: SortBy, limit: nat, larger: nat)
    requires UniqueDeltaKeys(deltas) && limit <= larger
    requires IsTop(a, deltas, sortBy, limit) && IsTop(b, deltas, sortBy, larger)
    ensures a == Take(b, limit)
  {
    var s :| IsTopBefore(b, s, deltas, sortBy, larger);
    var cut := Take(b, limit);
    assert cut + (b[|cut|..] + s) == b + s;
    SameElements(b + s, deltas);
    assert IsTopBefore(cut, b[|cut|..] + s, deltas, sortBy, limit);
    TopIsUnique(a, cut, deltas, sortBy, limit);
  }

  /** Part of a list with unique keys has unique keys. */
  lemma {:induction false} PartKeepsUniqueKeys(items: seq<QueryDelta>, deltas: seq<QueryDelta>)
    requires UniqueDeltaKeys(deltas) && multiset(items) <= multiset(deltas)
    ensures UniqueDeltaKeys(items)
  {
    forall i, j | 0 <= i < j < |items| ensures items[i].key != items[j].key {
      assert items[i] in multiset(items) && items[j] in multiset(items);
      assert items[i] in deltas && items[j] in deltas;
      if items[i] == items[j] {
        TwiceWhenRepeated(items, i, j);
        OnceWhenDistinct(deltas, items[i]);
        assert false;
      }
      var k :| 0 <= k < |deltas| && deltas[k] == items[i];
      var l :| 0 <= l < |deltas| && deltas[l] == items[j];
    }
  }

  lemma {:induction false} KeyOrder()
    ensures TotalPreorder(DeltaLe)
  {
    forall a: QueryDelta, b: QueryDelta ensures DeltaLe(a, b) || DeltaLe(b, a) {
      KeyLeTotalOrder(a.key, b.key, a.key);
    }
    forall a: QueryDelta, b: QueryDelta, c: QueryDelta | DeltaLe(a, b) && DeltaLe(b, c) ensures DeltaLe(a, c) {
      KeyLeTotalOrder(a.key, b.key, c.key);
    }
  }

  lemma {:induction false} RankOrder(sortBy: SortBy)
    ensures TotalPreorder(Rank(sortBy))
  {
    KeyOrder();
    DescendingOrder(sortBy);
    ThenIsTotal(Descending(sortBy), DeltaLe);
  }

  predicate NotIn(items: seq<QueryDelta>, d: QueryDelta) {
    d !in items
  }

  lemma {:induction false} PartsMakeWhole(items: seq<QueryDelta>, deltas: seq<QueryDelta>, rest: seq<QueryDelta>)
    requires Distinct(items) && Distinct(deltas) && forall d :: d in items ==> d in deltas
    requires multiset(rest) == multiset(Filter((d: QueryDelta) => NotIn(items, d), deltas))
    ensures multiset(items + rest) == multiset(deltas)
  {
    forall d ensures multiset(items + rest)[d] == multiset(deltas)[d] {
      assert multiset(items + rest) == multiset(items) + multiset(rest);
      FilterMultiset((d: QueryDelta) => NotIn(items, d), deltas, d);
      OnceWhenDistinct(items, d);
      OnceWhenDistinct(deltas, d);
    }
  }

  /** An ordered choice of deltas is the top if it is full, or complete, and nothing left out ranks before it. */
  lemma {:induction false} ChoiceIsTop(items: seq<QueryDelta>, deltas: seq<QueryDelta>, sortBy: SortBy, limit: nat)
    requires UniqueDeltaKeys(deltas) && UniqueDeltaKeys(items) && forall d :: d in items ==> d in deltas
    requires Sorted(Rank(sortBy), items) && |items| <= limit
    requires forall d :: d in deltas && d !in items ==> |items| == limit && forall i :: i in items ==> Rank(sortBy)(i, d)
    ensures IsTop(items, deltas, sortBy, limit)
  {
    var others := Filter((d: QueryDelta) => NotIn(items, d), deltas);
    var rest := StableSort(Rank(sortBy), others);
    FilterMembers((d: QueryDelta) => NotIn(items, d), deltas);
    StableSortIsPermutation(Rank(sortBy), others);
    SameElements(rest, others);
    RankOrder(sortBy);
    StableSortSorts(Rank(sortBy), others);
    PartsMakeWhole(items, deltas, rest);
    forall i, j | 0 <= i < |items| && 0 <= j < |rest| ensures Rank(sortBy)(items[i], rest[j]) {
      assert rest[j] in rest && items[i] in items;
    }
    assert rest != [] ==> rest[0] in rest;
    assert IsTopBefore(items, rest, deltas, sortBy, limit);
  }

  // ----- The order in terms of counters and keys

  /** (calls, total time), or (total time, calls), compared lexicographically. */
  predicate PairNotBelow(sortBy: SortBy, a: Counters, b: Counters) {
    match sortBy
    case ByCalls => a.calls > b.calls || (a.calls == b.calls && a.totalExecTimeMs >= b.totalExecTimeMs)
    case ByTotalExecTime =>
      a.totalExecTimeMs > b.totalExecTimeMs || (a.totalExecTimeMs == b.totalExecTimeMs && a.calls >= b.calls)
  }

  predicate SamePair(a: Counters, b: Counters) {
    a.calls == b.calls && a.totalExecTimeMs == b.totalExecTimeMs
  }

  predicate KeysAscend(a: RowKey, b: RowKey) {
    || (a.queryid != b.queryid && TextLe(a.queryid, b.queryid))
    || (a.queryid == b.queryid && a.dbid < b.dbid)
    || (a.queryid == b.queryid && a.dbid == b.dbid && a.userid <= b.userid)
  }

  /** The first ranks no lower than the second: by its pair, and by its key when the pairs are equal. */
  predicate RanksFirst(sortBy: SortBy, a: QueryDelta, b: QueryDelta) {
    PairNotBelow(sortBy, a.counters, b.counters) && (SamePair(a.counters, b.counters) ==> KeysAscend(a.key, b.key))
  }

  lemma {:induction false} RankMeaning(sortBy: SortBy, a: QueryDelta, b: QueryDelta)
    ensures Rank(sortBy)(a, b) <==> RanksFirst(sortBy, a, b)
  {
    var first := Descending(sortBy);
    assert Rank(sortBy)(a, b) <==> first(a, b) && (first(b, a) ==> DeltaLe(a, b));
    assert first(a, b) <==> PairNotBelow(sortBy, a.counters, b.counters);
    assert first(b, a) <==> PairNotBelow(sortBy, b.counters, a.counters);
    assert DeltaLe(a, b) <==> KeysAscend(a.key, b.key);
  }

  /** The top is in descending order of the chosen pair, ties by ascending key, and nothing omitted has a pair above. */
  lemma {:induction false} TopIsOrdered(items: seq<QueryDelta>, deltas: seq<QueryDelta>, sortBy: SortBy, limit: nat)
    requires IsTop(items, deltas, sortBy, limit)
    ensures forall i, j :: 0 <= i < j < |items| ==> RanksFirst(sortBy, items[i], items[j])
    ensures forall d, x :: d in deltas && d !in items && x in items ==> RanksFirst(sortBy, x, d)
  {
    TopMeaning(items, deltas, sortBy, limit);
    forall i, j | 0 <= i < j < |items| ensures RanksFirst(sortBy, items[i], items[j]) {
      RankMeaning(sortBy, items[i], items[j]);
    }
    forall d, x | d in deltas && d !in items && x in items ensures RanksFirst(sortBy, x, d) {
      RankMeaning(sortBy, x, d);
    }
  }
}
