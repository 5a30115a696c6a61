/** Sets of capture times: greatest element, sorted list, and `bisect_right`. */
module Instants {
  import opened Wrappers

  predicate IsLeast(s: set<int>, x: int) {
    x in s && forall y :: y in s ==> x <= y
  }

  predicate IsGreatest(s: set<int>, x: int) {
    x in s && forall y :: y in s ==> y <= x
  }

  lemma {:induction false} LeastExists(s: set<int>, w: int)
    requires w in s
    ensures exists x :: IsLeast(s, x)
    decreases |s|
  {
    if y :| y in s && y < w {
      var rest := s - {w};
      LeastExists(rest, y);
      var z :| IsLeast(rest, z);
      forall v | v in s ensures z <= v {
        assert v == w || v in rest;
      }
      assert IsLeast(s, z);
    } else {
      assert IsLeast(s, w);
    }
  }

  lemma {:induction false} GreatestExists(s: set<int>, w: int)
    requires w in s
    ensures exists x :: IsGreatest(s, x)
    decreases |s|
  {
    if y :| y in s && w < y {
      var rest := s - {w};
      GreatestExists(rest, y);
      var z :| IsGreatest(rest, z);
      forall v | v in s ensures v <= z {
        assert v == w || v in rest;
      }
      assert IsGreatest(s, z);
    } else {
      assert IsGreatest(s, w);
    }
  }

  /** `SELECT max(captured_at)`: None over no rows. */
  function Greatest(s: set<int>): (r: Option<int>)
    ensures r.None? ==> forall x :: x !in s
    ensures r.Some? ==> IsGreatest(s, r.value)
  {
    if w :| w in s then
      GreatestExists(s, w);
      var x :| IsGreatest(s, x);
      Some(x)
    else None
  }

  predicate Increasing(xs: seq<int>) {
    forall i, j :: 0 <= i < j < |xs| ==> xs[i] < xs[j]
  }

  function SortedSet(s: set<int>): (xs: seq<int>)
    ensures Increasing(xs)
    ensures forall x :: x in xs <==> x in s
    decreases |s|
  {
    if exists w :: w in s then
      var x := Least(s);
      [x] + SortedSet(s - {x})
    else []
  }

  function Least(s: set<int>): (x: int)
    requires exists w :: w in s
    ensures IsLeast(s, x)
  {
    assert exists x :: IsLeast(s, x) by {
      var w :| w in s;
      LeastExists(s, w);
    }
    var x :| IsLeast(s, x);
    x
  }

  /** Insertion point after every equal element. */
  method BisectRight(xs: seq<int>, x: int) returns (lo: int)
    requires Increasing(xs)
    ensures 0 <= lo <= |xs|
    ensures forall i :: 0 <= i < lo ==> xs[i] <= x
    ensures forall i :: lo <= i < |xs| ==> x < xs[i]
  {
    lo := 0;
    var hi := |xs|;
    while lo < hi
      invariant 0 <= lo <= hi <= |xs|
      invariant forall i :: 0 <= i < lo ==> xs[i] <= x
      invariant forall i :: hi <= i < |xs| ==> x < xs[i]
    {
      var mid := (lo + hi) / 2;
      if x < xs[mid] {
        hi := mid;
      } else {
        lo := mid + 1;
      }
    }
  }

  /** Distinct values in order of first appearance. */
  function OrderedUnique(xs: seq<int>): (us: seq<int>)
    ensures forall x :: x in us <==> x in xs
  {
    if xs == [] then [] else
      var us := OrderedUnique(xs[..|xs| - 1]);
      if xs[|xs| - 1] in us then us else us + [xs[|xs| - 1]]
  }
}
