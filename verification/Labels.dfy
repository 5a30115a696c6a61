/** Label values of the Prometheus text format: the three-pass escaper and the reader that undoes it. */
module Labels {
  import opened Wrappers

  /** `str.replace` of a one-character pattern. */
  function Replace(s: string, c: char, text: string): string {
    if s == "" then "" else (if s[0] == c then text else [s[0]]) + Replace(s[1..], c, text)
  }

  function EscapeLabel(value: string): string {
    var escaped := Replace(value, '\\', "\\\\");
    var escaped' := Replace(escaped, '\n', "\\n");
    Replace(escaped', '"', "\\\"")
  }

  function EscapeChar(c: char): string {
    match c
    case '\\' => "\\\\"
    case '\n' => "\\n"
    case '"' => "\\\""
    case _ => [c]
  }

  /** One pass over the characters. */
  function EscapeEach(s: string): string {
    if s == "" then "" else EscapeChar(s[0]) + EscapeEach(s[1..])
  }

  /** Reads an escaped value left to right; None on a raw quote or line feed, or an unknown or cut-off escape. */
  function Unescape(t: string): Option<string> {
    if t == "" then Some("")
    else if t[0] == '"' || t[0] == '\n' then None
    else if t[0] != '\\' then Prepend(t[0], Unescape(t[1..]))
    else if |t| == 1 then None
    else if t[1] == '\\' then Prepend('\\', Unescape(t[2..]))
    else if t[1] == 'n' then Prepend('\n', Unescape(t[2..]))
    else if t[1] == '"' then Prepend('"', Unescape(t[2..]))
    else None
  }

  function Prepend(c: char, rest: Option<string>): Option<string> {
    match rest
    case None => None
    case Some(s) => Some([c] + s)
  }

  lemma {:induction false} ReplaceConcat(a: string, b: string, c: char, text: string)
    ensures Replace(a + b, c, text) == Replace(a, c, text) + Replace(b, c, text)
  {
    if a == "" {
      assert a + b == b;
    } else {
      var first := if a[0] == c then text else [a[0]];
      assert (a + b)[0] == a[0] && (a + b)[1..] == a[1..] + b;
      ReplaceConcat(a[1..], b, c, text);
      assert first + (Replace(a[1..], c, text) + Replace(b, c, text)) == first + Replace(a[1..], c, text) + Replace(b, c, text);
    }
  }

  lemma {:induction false} ReplaceOne(x: char, c: char, text: string)
    ensures Replace([x], c, text) == if x == c then text else [x]
  {
    assert [x][1..] == "";
  }

  lemma {:induction false} ReplaceTwo(x: char, y: char, c: char, text: string)
    requires x != c && y != c
    ensures Replace([x, y], c, text) == [x, y]
  {
    assert [x, y] == [x] + [y];
    ReplaceConcat([x], [y], c, text);
    ReplaceOne(x, c, text);
    ReplaceOne(y, c, text);
  }

  lemma {:induction false} PassesEscapeChar(x: char)
    ensures EscapeLabel([x]) == EscapeChar(x)
  {
    ReplaceOne(x, '\\', "\\\\");
    ReplaceOne(x, '\n', "\\n");
    ReplaceOne(x, '"', "\\\"");
    ReplaceTwo('\\', '\\', '\n', "\\n");
    ReplaceTwo('\\', '\\', '"', "\\\"");
    ReplaceTwo('\\', 'n', '"', "\\\"");
  }

  /** Exactly backslash, line feed and double quote are escaped, each by its two-character sequence. */
  lemma {:induction false} EscapesExactlyThree(x: char)
    ensures EscapeLabel([x]) ==
              if x == '\\' then ['\\', '\\'] else if x == '\n' then ['\\', 'n'] else if x == '"' then ['\\', '"'] else [x]
  {
    PassesEscapeChar(x);
  }

  lemma {:induction false} PassesConcat(a: string, b: string)
    ensures EscapeLabel(a + b) == EscapeLabel(a) + EscapeLabel(b)
  {
    ReplaceConcat(a, b, '\\', "\\\\");
    var a1, b1 := Replace(a, '\\', "\\\\"), Replace(b, '\\', "\\\\");
    ReplaceConcat(a1, b1, '\n', "\\n");
    ReplaceConcat(Replace(a1, '\n', "\\n"), Replace(b1, '\n', "\\n"), '"', "\\\"");
  }

  /** The three passes, in this order, escape each character once. */
  lemma {:induction false} PassesEscapeEach(s: string)
    ensures EscapeLabel(s) == EscapeEach(s)
  {
    if s == "" {
    } else {
      assert s == [s[0]] + s[1..];
      PassesConcat([s[0]], s[1..]);
      PassesEscapeChar(s[0]);
      PassesEscapeEach(s[1..]);
    }
  }

  /** Reading an escaped value gives the value back. */
  lemma {:induction false} UnescapeUndoes(s: string)
    ensures Unescape(EscapeLabel(s)) == Some(s)
  {
    PassesEscapeEach(s);
    if s == "" {
    } else {
      var rest := EscapeEach(s[1..]);
      PassesEscapeEach(s[1..]);
      UnescapeUndoes(s[1..]);
      var t := EscapeEach(s);
      assert s == [s[0]] + s[1..];
      if s[0] == '\\' || s[0] == '\n' || s[0] == '"' {
        assert t[2..] == rest;
      } else {
        assert t[1..] == rest;
      }
    }
  }

  /** How much of a readable text its first character takes. */
  function Width(t: string): nat {
    if t != "" && t[0] == '\\' then 2 else 1
  }

  lemma {:induction false} ReadsOne(t: string)
    requires t != "" && Unescape(t).Some?
    ensures Width(t) <= |t| && Unescape(t[Width(t)..]).Some?
    ensures Unescape(t).value != "" && Unescape(t).value[1..] == Unescape(t[Width(t)..]).value
    ensures EscapeChar(Unescape(t).value[0]) == t[..Width(t)]
  {
  }

  lemma {:induction false} EachUndoes(t: string)
    requires Unescape(t).Some?
    ensures EscapeEach(Unescape(t).value) == t
  {
    if t == "" {
    } else {
      ReadsOne(t);
      EachUndoes(t[Width(t)..]);
      assert t == t[..Width(t)] + t[Width(t)..];
    }
  }

  /** Whatever can be read is the escape of what was read: the escaped values are exactly the readable ones. */
  lemma {:induction false} EscapeUndoes(t: string)
    requires Unescape(t).Some?
    ensures EscapeLabel(Unescape(t).value) == t
  {
    EachUndoes(t);
    PassesEscapeEach(Unescape(t).value);
  }

  lemma {:induction false} EscapeIsInjective(a: string, b: string)
    requires EscapeLabel(a) == EscapeLabel(b)
    ensures a == b
  {
    UnescapeUndoes(a);
    UnescapeUndoes(b);
  }

  /** A quote closes the value unless a backslash run of odd length stands before it. */
  function Backslashes(t: string, i: nat): nat
    requires i <= |t|
  {
    if i > 0 && t[i - 1] == '\\' then 1 + Backslashes(t, i - 1) else 0
  }

  predicate InsideAt(t: string, i: nat)
    requires i < |t|
  {
    t[i] != '\n' && (t[i] == '"' ==> Backslashes(t, i) % 2 == 1)
  }

  /** No line feed, and no quote that would close the value. */
  ghost predicate StaysInside(t: string) {
    forall i: nat :: i < |t| ==> InsideAt(t, i)
  }

  lemma {:induction false} BackslashesShift(h: string, t: string, i: nat)
    requires i <= |t|
    ensures Backslashes(h + t, |h| + i) == if Backslashes(t, i) == i then i + Backslashes(h, |h|) else Backslashes(t, i)
    ensures Backslashes(t, i) <= i
  {
    if i > 0 {
      assert (h + t)[|h| + i - 1] == t[i - 1];
      if t[i - 1] == '\\' {
        BackslashesShift(h, t, i - 1);
      }
    } else {
      BackslashesPrefix(h, t, |h|);
    }
  }

  lemma {:induction false} BackslashesPrefix(h: string, t: string, i: nat)
    requires i <= |h|
    ensures Backslashes(h + t, i) == Backslashes(h, i)
  {
    if i > 0 {
      BackslashesPrefix(h, t, i - 1);
    }
  }

  /** An escaped value never leaves its quotes. */
  lemma {:induction false} EscapedStaysInside(s: string)
    ensures StaysInside(EscapeLabel(s))
  {
    PassesEscapeEach(s);
    EachStaysInside(s);
  }

  lemma {:induction false} CharStaysInside(c: char)
    ensures StaysInside(EscapeChar(c)) && Backslashes(EscapeChar(c), |EscapeChar(c)|) % 2 == 0
  {
    var e := EscapeChar(c);
    assert Backslashes(e, 0) == 0;
    assert Backslashes(e, 1) == if e[0] == '\\' then 1 else 0;
    assert |e| == 2 ==> Backslashes(e, 2) == if e[1] == '\\' then 2 else 0;
  }

  lemma {:induction false} InsideFirst(h: string, t: string, i: nat)
    requires i < |h| && InsideAt(h, i)
    ensures InsideAt(h + t, i)
  {
    BackslashesPrefix(h, t, i);
    assert (h + t)[i] == h[i];
  }

  lemma {:induction false} InsideSecond(h: string, t: string, i: nat)
    requires i < |t| && InsideAt(t, i) && Backslashes(h, |h|) % 2 == 0
    ensures InsideAt(h + t, |h| + i)
  {
    BackslashesShift(h, t, i);
    assert (h + t)[|h| + i] == t[i];
  }

  lemma {:induction false} InsideConcat(h: string, t: string)
    requires StaysInside(h) && StaysInside(t) && Backslashes(h, |h|) % 2 == 0
    ensures StaysInside(h + t)
  {
    forall i: nat | i < |h + t| ensures InsideAt(h + t, i) {
      if i < |h| {
        InsideFirst(h, t, i);
      } else {
        InsideSecond(h, t, i - |h|);
      }
    }
  }

  lemma {:induction false} EachStaysInside(s: string)
    ensures StaysInside(EscapeEach(s))
  {
    if s == "" {
    } else {
      EachStaysInside(s[1..]);
      CharStaysInside(s[0]);
      InsideConcat(EscapeChar(s[0]), EscapeEach(s[1..]));
    }
  }
}
