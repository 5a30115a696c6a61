/** Text ordered by code point: the order `ORDER BY` gives text columns under the C collation. */
module Text {

  predicate TextLe(a: string, b: string) {
    a == [] || (b != [] && (a[0] < b[0] || (a[0] == b[0] && TextLe(a[1..], b[1..]))))
  }

  lemma {:induction false} TextLeTotal(a: string, b: string)
    ensures TextLe(a, b) || TextLe(b, a)
  {
    if a != [] && b != [] && a[0] == b[0] {
      TextLeTotal(a[1..], b[1..]);
    }
  }

  lemma {:induction false} TextLeTransitive(a: string, b: string, c: string)
    requires TextLe(a, b) && TextLe(b, c)
    ensures TextLe(a, c)
  {
    if a != [] && a[0] == b[0] == c[0] {
      TextLeTransitive(a[1..], b[1..], c[1..]);
    }
  }

  lemma {:induction false} TextLeAntisymmetric(a: string, b: string)
    requires TextLe(a, b) && TextLe(b, a)
    ensures a == b
  {
    if a == [] {
    } else {
      TextLeAntisymmetric(a[1..], b[1..]);
      assert a == [a[0]] + a[1..] && b == [b[0]] + b[1..];
    }
  }

  predicate LessAt(a: string, b: string, n: int) {
    0 <= n < |a| && n < |b| && a[..n] == b[..n] && a[n] < b[n]
  }

  lemma {:induction false} LessAtShifts(a: string, b: string, n: int)
    requires a != [] && b != [] && a[0] == b[0] && n > 0
    ensures LessAt(a, b, n) <==> LessAt(a[1..], b[1..], n - 1)
  {
    if n <= |a| && n <= |b| {
      assert a[..n] == [a[0]] + a[1..][..n - 1] && b[..n] == [b[0]] + b[1..][..n - 1];
      assert a[..n][1..] == a[1..][..n - 1] && b[..n][1..] == b[1..][..n - 1];
    }
  }

  lemma {:induction false} PrefixesDiffer(a: string, b: string, n: int)
    requires a != [] && b != [] && a[0] != b[0] && 0 < n <= |a| && n <= |b|
    ensures a[..n] != b[..n]
  {
    assert a[..n][0] == a[0] && b[..n][0] == b[0];
  }

  /** Shorter prefixes first, then the first character that differs decides. */
  lemma {:induction false} TextLeMeaning(a: string, b: string)
    ensures TextLe(a, b) <==> a <= b || exists n :: LessAt(a, b, n)
  {
    if a == [] || b == [] {
    } else if a[0] == b[0] {
      TextLeMeaning(a[1..], b[1..]);
      assert a <= b <==> a[1..] <= b[1..] by {
        assert a == [a[0]] + a[1..] && b == [b[0]] + b[1..];
      }
      if n :| LessAt(a[1..], b[1..], n) {
        LessAtShifts(a, b, n + 1);
      }
      if n :| LessAt(a, b, n) {
        LessAtShifts(a, b, n);
      }
    } else {
      assert a[0] < b[0] ==> LessAt(a, b, 0);
      forall n | 0 < n < |a| && n < |b| ensures !LessAt(a, b, n) {
        PrefixesDiffer(a, b, n);
      }
    }
  }
}
