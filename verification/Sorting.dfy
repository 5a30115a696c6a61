/** Ordering and filtering of lists: what SQL's `ORDER BY` and Python's `sorted` do to rows. */
module Sorting {

  ghost predicate TotalPreorder<T(!new)>(le: (T, T) -> bool) {
    && (forall a, b :: le(a, b) || le(b, a))
    && (forall a, b, c :: le(a, b) && le(b, c) ==> le(a, c))
  }

  predicate Sorted<T>(le: (T, T) -> bool, xs: seq<T>) {
    forall i, j :: 0 <= i < j < |xs| ==> le(xs[i], xs[j])
  }

  function Filter<T>(p: T -> bool, xs: seq<T>): seq<T> {
    if xs == [] then []
    else if p(xs[0]) then [xs[0]] + Filter(p, xs[1..])
    else Filter(p, xs[1..])
  }

  /** Puts x in front of the first element it may precede. */
  function Insert<T>(le: (T, T) -> bool, x: T, xs: seq<T>): seq<T> {
    if xs == [] || le(x, xs[0]) then [x] + xs else [xs[0]] + Insert(le, x, xs[1..])
  }

  function StableSort<T>(le: (T, T) -> bool, xs: seq<T>): seq<T> {
    if xs == [] then [] else Insert(le, xs[0], StableSort(le, xs[1..]))
  }

  /** Order by `le`, ties by `tie`. */
  function Then<T>(le: (T, T) -> bool, tie: (T, T) -> bool): (T, T) -> bool {
    (a, b) => le(a, b) && (le(b, a) ==> tie(a, b))
  }

  lemma {:induction false} ThenIsTotal<T(!new)>(le: (T, T) -> bool, tie: (T, T) -> bool)
    requires TotalPreorder(le) && TotalPreorder(tie)
    ensures TotalPreorder(Then(le, tie))
  {
    var both := Then(le, tie);
    forall a, b ensures both(a, b) || both(b, a) {
      assert le(a, b) || le(b, a);
      assert tie(a, b) || tie(b, a);
    }
    forall a, b, c | both(a, b) && both(b, c) ensures both(a, c) {
      assert le(a, c);
      if le(c, a) {
        assert le(b, a) && le(c, b);
        assert tie(a, c);
      }
    }
  }

  lemma {:induction false} InsertIsPermutation<T(!new)>(le: (T, T) -> bool, x: T, xs: seq<T>)
    ensures multiset(Insert(le, x, xs)) == multiset(xs) + multiset{x}
  {
    if xs == [] || le(x, xs[0]) {
    } else {
      InsertIsPermutation(le, x, xs[1..]);
      assert xs == [xs[0]] + xs[1..];
    }
  }

  lemma {:induction false} StableSortIsPermutation<T(!new)>(le: (T, T) -> bool, xs: seq<T>)
    ensures multiset(StableSort(le, xs)) == multiset(xs)
    ensures |StableSort(le, xs)| == |xs|
    ensures forall x :: x in StableSort(le, xs) <==> x in xs
  {
    if xs == [] {
    } else {
      StableSortIsPermutation(le, xs[1..]);
      InsertIsPermutation(le, xs[0], StableSort(le, xs[1..]));
      assert xs == [xs[0]] + xs[1..];
    }
    SameElements(StableSort(le, xs), xs);
  }

  lemma {:induction false} SameElements<T(!new)>(xs: seq<T>, ys: seq<T>)
    requires multiset(xs) == multiset(ys)
    ensures |xs| == |ys|
    ensures forall x :: x in xs <==> x in ys
  {
    assert |multiset(xs)| == |xs| && |multiset(ys)| == |ys|;
    forall x ensures x in xs <==> x in ys {
      assert x in xs <==> x in multiset(xs);
      assert x in ys <==> x in multiset(ys);
    }
  }

  /** A stable sort turns a list ordered by `tie` into one ordered by `le` with ties broken by `tie`. */
  lemma {:induction false} StableSortBreaksTies<T(!new)>(le: (T, T) -> bool, tie: (T, T) -> bool, xs: seq<T>)
    requires TotalPreorder(le) && Sorted(tie, xs)
    ensures Sorted(Then(le, tie), StableSort(le, xs))
    ensures Sorted(le, StableSort(le, xs))
  {
    if xs == [] {
    } else {
      StableSortBreaksTies(le, tie, xs[1..]);
      StableSortIsPermutation(le, xs[1..]);
      InsertBreaksTies(le, tie, xs[0], StableSort(le, xs[1..]));
    }
  }

  lemma {:induction false} InsertBreaksTies<T(!new)>(le: (T, T) -> bool, tie: (T, T) -> bool, x: T, xs: seq<T>)
    requires TotalPreorder(le) && Sorted(Then(le, tie), xs)
    requires forall y :: y in xs ==> tie(x, y)
    ensures Sorted(Then(le, tie), Insert(le, x, xs))
  {
    if xs == [] {
    } else if le(x, xs[0]) {
      forall j | 0 <= j < |xs| ensures Then(le, tie)(x, xs[j]) {
        assert xs[j] in xs && (j == 0 || Then(le, tie)(xs[0], xs[j]));
      }
    } else {
      InsertBreaksTies(le, tie, x, xs[1..]);
      var rest := Insert(le, x, xs[1..]);
      InsertIsPermutation(le, x, xs[1..]);
      forall j | 0 <= j < |rest| ensures Then(le, tie)(xs[0], rest[j]) {
        assert rest[j] in multiset(rest);
        assert rest[j] == x || rest[j] in multiset(xs[1..]);
        if rest[j] != x {
          assert rest[j] in xs[1..];
        }
      }
    }
  }

  lemma {:induction false} StableSortSorts<T(!new)>(le: (T, T) -> bool, xs: seq<T>)
    requires TotalPreorder(le)
    ensures Sorted(le, StableSort(le, xs))
  {
    StableSortBreaksTies(le, (a: T, b: T) => true, xs);
  }

  ghost predicate NoTies<T(!new)>(le: (T, T) -> bool, xs: seq<T>) {
    forall a, b :: a in xs && b in xs && le(a, b) && le(b, a) ==> a == b
  }

  lemma {:induction false} LeastComesFirst<T(!new)>(le: (T, T) -> bool, xs: seq<T>, x: T)
    requires Sorted(le, xs) && x in xs
    ensures xs[0] == x || le(xs[0], x)
  {
    var i :| 0 <= i < |xs| && xs[i] == x;
  }

  lemma {:induction false} WithoutFirst<T(!new)>(xs: seq<T>)
    requires xs != []
    ensures multiset(xs[1..]) == multiset(xs) - multiset{xs[0]}
    ensures forall x :: x in xs[1..] ==> x in xs
  {
    assert xs == [xs[0]] + xs[1..];
  }

  /** A list with no ties has only one sorted arrangement. */
  lemma {:induction false} SortedIsUnique<T(!new)>(le: (T, T) -> bool, xs: seq<T>, ys: seq<T>)
    requires Sorted(le, xs) && Sorted(le, ys) && multiset(xs) == multiset(ys)
    requires NoTies(le, xs)
    ensures xs == ys
  {
    SameElements(xs, ys);
    if xs == [] {
    } else {
      assert xs[0] in ys && ys[0] in xs;
      LeastComesFirst(le, xs, ys[0]);
      LeastComesFirst(le, ys, xs[0]);
      WithoutFirst(xs);
      WithoutFirst(ys);
      SortedIsUnique(le, xs[1..], ys[1..]);
    }
  }

  lemma {:induction false} FilterMembers<T(!new)>(p: T -> bool, xs: seq<T>)
    ensures forall x :: x in Filter(p, xs) <==> x in xs && p(x)
    ensures |Filter(p, xs)| <= |xs|
  {
    if xs == [] {
    } else {
      FilterMembers(p, xs[1..]);
      assert xs == [xs[0]] + xs[1..];
    }
  }

  lemma {:induction false} FilterConcat<T(!new)>(p: T -> bool, xs: seq<T>, ys: seq<T>)
    ensures Filter(p, xs + ys) == Filter(p, xs) + Filter(p, ys)
  {
    if xs == [] {
      assert xs + ys == ys;
    } else {
      assert xs + ys == [xs[0]] + (xs[1..] + ys);
      FilterConcat(p, xs[1..], ys);
    }
  }

  lemma {:induction false} FilterMultiset<T(!new)>(p: T -> bool, xs: seq<T>, x: T)
    ensures multiset(Filter(p, xs))[x] == if p(x) then multiset(xs)[x] else 0
  {
    if xs == [] {
    } else {
      FilterMultiset(p, xs[1..], x);
      assert xs == [xs[0]] + xs[1..];
    }
  }

  lemma {:induction false} FilterPermuted<T(!new)>(p: T -> bool, xs: seq<T>, ys: seq<T>)
    requires multiset(xs) == multiset(ys)
    ensures multiset(Filter(p, xs)) == multiset(Filter(p, ys))
  {
    forall x ensures multiset(Filter(p, xs))[x] == multiset(Filter(p, ys))[x] {
      FilterMultiset(p, xs, x);
      FilterMultiset(p, ys, x);
    }
    assert multiset(Filter(p, xs)) == multiset(Filter(p, ys));
  }

  lemma {:induction false} FilterSorted<T(!new)>(p: T -> bool, le: (T, T) -> bool, xs: seq<T>)
    requires Sorted(le, xs)
    ensures Sorted(le, Filter(p, xs))
  {
    if xs == [] {
    } else {
      FilterSorted(p, le, xs[1..]);
      FilterMembers(p, xs[1..]);
      var rest := Filter(p, xs[1..]);
      forall j | 0 <= j < |rest| ensures le(xs[0], rest[j]) {
        assert rest[j] in rest;
        assert rest[j] in xs[1..];
      }
    }
  }

  /** Filtering commutes with sorting when, among the kept elements, two orders agree. */
  lemma {:induction false} FilterOfSort<T(!new)>(p: T -> bool, le: (T, T) -> bool, le': (T, T) -> bool, xs: seq<T>)
    requires TotalPreorder(le)
    requires forall a, b :: p(a) && p(b) ==> le(a, b) == le'(a, b)
    ensures Filter(p, StableSort(le, xs)) == StableSort(le', Filter(p, xs))
  {
    if xs == [] {
    } else {
      FilterOfSort(p, le, le', xs[1..]);
      StableSortSorts(le, xs[1..]);
      FilterOfInsert(p, le, le', xs[0], StableSort(le, xs[1..]));
    }
  }

  lemma {:induction false} FilterOfInsert<T(!new)>(p: T -> bool, le: (T, T) -> bool, le': (T, T) -> bool, x: T, xs: seq<T>)
    requires TotalPreorder(le) && Sorted(le, xs)
    requires forall a, b :: p(a) && p(b) ==> le(a, b) == le'(a, b)
    ensures Filter(p, Insert(le, x, xs)) == if p(x) then Insert(le', x, Filter(p, xs)) else Filter(p, xs)
  {
    if xs == [] {
    } else if le(x, xs[0]) {
      assert ([x] + xs)[1..] == xs;
      var kept := Filter(p, xs);
      FilterMembers(p, xs);
      if p(x) && kept != [] {
        assert kept[0] in xs;
        assert le(x, kept[0]);
      }
    } else {
      FilterOfInsert(p, le, le', x, xs[1..]);
      assert ([xs[0]] + Insert(le, x, xs[1..]))[1..] == Insert(le, x, xs[1..]);
    }
  }

  predicate Distinct<T(==)>(xs: seq<T>) {
    forall i, j :: 0 <= i < j < |xs| ==> xs[i] != xs[j]
  }

  /** `ORDER BY` over rows the table keeps in no particular order. */
  method Arrange<T(==,!new)>(le: (T, T) -> bool, s: set<T>) returns (xs: seq<T>)
    requires TotalPreorder(le)
    ensures Sorted(le, xs) && Distinct(xs)
    ensures forall x :: x in xs <==> x in s
  {
    xs := [];
    var rest := s;
    while exists x :: x in rest
      invariant rest <= s
      invariant Sorted(le, xs) && Distinct(xs)
      invariant forall x :: x in xs <==> x in s && x !in rest
      decreases |rest|
    {
      var x :| x in rest;
      InsertSorted(le, x, xs);
      rest, xs := rest - {x}, Insert(le, x, xs);
    }
  }

  lemma {:induction false} InsertSorted<T(!new)>(le: (T, T) -> bool, x: T, xs: seq<T>)
    requires TotalPreorder(le) && Sorted(le, xs) && Distinct(xs) && x !in xs
    ensures Sorted(le, Insert(le, x, xs)) && Distinct(Insert(le, x, xs))
    ensures forall y :: y in Insert(le, x, xs) <==> y in xs || y == x
  {
    var tie := (a: T, b: T) => true;
    InsertBreaksTies(le, tie, x, xs);
    InsertIsPermutation(le, x, xs);
    assert multiset(Insert(le, x, xs)) == multiset([x] + xs);
    SameElements(Insert(le, x, xs), [x] + xs);
    DistinctPermuted([x] + xs, Insert(le, x, xs));
  }

  lemma {:induction false} OnceWhenDistinct<T(!new)>(xs: seq<T>, x: T)
    requires Distinct(xs)
    ensures multiset(xs)[x] == if x in xs then 1 else 0
  {
    if xs == [] {
    } else {
      assert xs == [xs[0]] + xs[1..];
      OnceWhenDistinct(xs[1..], x);
    }
  }

  lemma {:induction false} TwiceWhenRepeated<T(!new)>(xs: seq<T>, i: int, j: int)
    requires 0 <= i < j < |xs| && xs[i] == xs[j]
    ensures multiset(xs)[xs[i]] >= 2
  {
    assert xs == xs[..j] + xs[j..];
    assert xs[..j][i] in multiset(xs[..j]);
    assert xs[j..][0] in multiset(xs[j..]);
  }

  lemma {:induction false} DistinctPermuted<T(!new)>(xs: seq<T>, ys: seq<T>)
    requires multiset(xs) == multiset(ys) && Distinct(xs)
    ensures Distinct(ys)
  {
    forall i, j | 0 <= i < j < |ys| ensures ys[i] != ys[j] {
      OnceWhenDistinct(xs, ys[i]);
      if ys[i] == ys[j] {
        TwiceWhenRepeated(ys, i, j);
        assert false;
      }
    }
  }

  /** Two distinct sorted lists of the same elements are the same list. */
  lemma {:induction false} DistinctSortedIsUnique<T(!new)>(le: (T, T) -> bool, xs: seq<T>, ys: seq<T>)
    requires Sorted(le, xs) && Sorted(le, ys) && Distinct(xs) && Distinct(ys) && NoTies(le, xs)
    requires forall x :: x in xs <==> x in ys
    ensures xs == ys
  {
    forall x ensures multiset(xs)[x] == multiset(ys)[x] {
      OnceWhenDistinct(xs, x);
      OnceWhenDistinct(ys, x);
    }
    assert multiset(xs) == multiset(ys);
    SortedIsUnique(le, xs, ys);
  }
}
