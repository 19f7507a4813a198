/**
  The pieces of Go's `strings` package that the program uses, over strings of
  code points: `HasPrefix`, `HasSuffix`, `TrimSuffix`, `Split` (with a
  one-character separator, the only kind the program passes) and `TrimSpace`.
  `Join` is the inverse of `Split` and serves as its reference definition.
 */
module GoStrings {

  predicate HasPrefix(s: string, prefix: string) {
    |prefix| <= |s| && s[..|prefix|] == prefix
  }

  predicate HasSuffix(s: string, suffix: string) {
    |suffix| <= |s| && s[|s| - |suffix|..] == suffix
  }

  /** `strings.TrimSuffix`: removes ONE trailing copy of `suffix`, if present. */
  function TrimSuffix(s: string, suffix: string): (r: string)
    ensures HasSuffix(s, suffix) ==> r + suffix == s
    ensures !HasSuffix(s, suffix) ==> r == s
  {
    if HasSuffix(s, suffix) then s[..|s| - |suffix|] else s
  }

  /** Number of occurrences of `c` in `s`. */
  function Count(s: string, c: char): nat {
    if s == [] then 0
    else (if s[0] == c then 1 else 0) + Count(s[1..], c)
  }

  /** The pieces joined back together with one `sep` between neighbours. */
  function Join(parts: seq<string>, sep: char): string
    requires |parts| >= 1
  {
    if |parts| == 1 then parts[0]
    else parts[0] + [sep] + Join(parts[1..], sep)
  }

  /**
    `strings.Split(s, string(sep))`: the pieces of `s` between occurrences of
    `sep`. There is always one more piece than separators, so the empty string
    splits into one empty piece.
   */
  function Split(s: string, sep: char): (parts: seq<string>)
    ensures |parts| == Count(s, sep) + 1
    ensures forall i :: 0 <= i < |parts| ==> sep !in parts[i]
    ensures Join(parts, sep) == s
    decreases |s|
  {
    if s == [] then [[]]
    else
      var rest := Split(s[1..], sep);
      if s[0] == sep then
        [[]] + rest
      else
        JoinExtendHead(rest, [s[0]], sep);
        assert s == [s[0]] + s[1..];
        [[s[0]] + rest[0]] + rest[1..]
  }

  /** Prepending text to the first piece prepends it to the joined string. */
  lemma {:induction false} JoinExtendHead(parts: seq<string>, x: string, sep: char)
    requires |parts| >= 1
    ensures Join([x + parts[0]] + parts[1..], sep) == x + Join(parts, sep)
  {
    var p := [x + parts[0]] + parts[1..];
    assert p[1..] == parts[1..];
  }

  /** A string without the separator is a single piece. */
  lemma {:induction false} SplitNoSeparator(s: string, sep: char)
    requires sep !in s
    ensures Split(s, sep) == [s]
    decreases |s|
  {
    if s != [] {
      assert sep !in s[1..];
      SplitNoSeparator(s[1..], sep);
    }
  }

  /** Splitting around one occurrence of the separator splits both sides independently. */
  lemma {:induction false} SplitAround(a: string, b: string, sep: char)
    ensures Split(a + [sep] + b, sep) == Split(a, sep) + Split(b, sep)
    decreases |a|
  {
    var s := a + [sep] + b;
    if a == [] {
      assert s[1..] == b;
    } else {
      assert s[1..] == a[1..] + [sep] + b;
      SplitAround(a[1..], b, sep);
    }
  }

  /** Text with exactly one separator splits into the two sides of it. */
  lemma SplitOnce(a: string, b: string, sep: char)
    requires sep !in a && sep !in b
    ensures Split(a + [sep] + b, sep) == [a, b]
  {
    SplitAround(a, b, sep);
    SplitNoSeparator(a, sep);
    SplitNoSeparator(b, sep);
  }

  /** The last three pieces of text ending in three separator-free parts. */
  lemma SplitLastThree(prefix: string, a: string, b: string, c: string, sep: char)
    requires sep !in a && sep !in b && sep !in c
    ensures var parts := Split(prefix + [sep] + a + [sep] + b + [sep] + c, sep);
            |parts| >= 4 && parts[|parts| - 3] == a && parts[|parts| - 2] == b && parts[|parts| - 1] == c
  {
    var bc := b + [sep] + c;
    var tail := a + [sep] + bc;
    SplitOnce(b, c, sep);
    SplitAround(a, bc, sep);
    SplitNoSeparator(a, sep);
    assert Split(tail, sep) == [a, b, c];
    SplitAround(prefix, tail, sep);
    RegroupThree(prefix, a, b, c, sep);
  }

  lemma RegroupTwo(prefix: string, a: string, b: string, sep: char)
    ensures prefix + [sep] + a + [sep] + b == prefix + [sep] + (a + [sep] + b)
  {
  }

  lemma RegroupThree(prefix: string, a: string, b: string, c: string, sep: char)
    ensures prefix + [sep] + a + [sep] + b + [sep] + c == prefix + [sep] + (a + [sep] + (b + [sep] + c))
  {
  }

  /** `Split` inverts `Join` whenever no piece contains the separator. */
  lemma {:induction false} SplitJoin(parts: seq<string>, sep: char)
    requires |parts| >= 1
    requires forall i :: 0 <= i < |parts| ==> sep !in parts[i]
    ensures Split(Join(parts, sep), sep) == parts
    decreases |parts|
  {
    SplitNoSeparator(parts[0], sep);
    if |parts| > 1 {
      SplitJoin(parts[1..], sep);
      SplitAround(parts[0], Join(parts[1..], sep), sep);
      assert [parts[0]] + parts[1..] == parts;
    }
  }

  /** The joined string ends with the last piece, preceded by a separator when there are several. */
  lemma {:induction false} JoinLast(parts: seq<string>, sep: char)
    requires |parts| >= 2
    ensures Join(parts, sep) == Join(parts[..|parts| - 1], sep) + [sep] + parts[|parts| - 1]
    decreases |parts|
  {
    if |parts| > 2 {
      JoinLast(parts[1..], sep);
      assert parts[1..][..|parts| - 2] == parts[..|parts| - 1][1..];
    }
  }

  /** With three or more pieces, the joined string ends with a separator, the last-but-one piece, a separator and the last piece. */
  lemma JoinLastTwo(parts: seq<string>, sep: char)
    requires |parts| >= 3
    ensures HasSuffix(Join(parts, sep), [sep] + parts[|parts| - 2] + [sep] + parts[|parts| - 1])
  {
    var q := parts[..|parts| - 1];
    JoinLast(parts, sep);
    JoinLast(q, sep);
    SuffixAfterTwoSeparators(Join(q[..|q| - 1], sep), Join(q, sep), q[|q| - 1], parts[|parts| - 1], sep);
  }

  lemma SuffixAfterTwoSeparators(pre: string, mid: string, a: string, b: string, sep: char)
    requires mid == pre + [sep] + a
    ensures HasSuffix(mid + [sep] + b, [sep] + a + [sep] + b)
  {
    var tail := [sep] + a + [sep] + b;
    assert mid + [sep] + b == pre + tail;
    HasSuffixOfConcat(pre, tail);
  }

  lemma HasSuffixOfConcat(p: string, x: string)
    ensures HasSuffix(p + x, x)
  {
    assert (p + x)[|p|..] == x;
  }

  lemma JoinTwo(parts: seq<string>, sep: char)
    requires |parts| == 2
    ensures Join(parts, sep) == parts[0] + [sep] + parts[1]
  {
    assert parts[1..] == [parts[1]];
  }

  /** A character absent from `a + [sep] + b` is absent from both sides. */
  lemma AbsentFromPieces(a: string, b: string, sep: char, c: char)
    requires c !in a + [sep] + b
    ensures c !in a && c !in b
  {
    var s := a + [sep] + b;
    forall i | 0 <= i < |a| ensures a[i] != c {
      assert a[i] == s[i];
    }
    forall i | 0 <= i < |b| ensures b[i] != c {
      assert b[i] == s[|a| + 1 + i];
    }
  }

  /** The text after the last `sep` (all of `s` when there is none). */
  function LastSegment(s: string, sep: char): string {
    var parts := Split(s, sep);
    parts[|parts| - 1]
  }

  /** Characterises `LastSegment`: it has no separator, and it is either all of `s` or preceded by one. */
  lemma LastSegmentIsSuffix(s: string, sep: char)
    ensures sep !in LastSegment(s, sep)
    ensures LastSegment(s, sep) == s || HasSuffix(s, [sep] + LastSegment(s, sep))
  {
    var parts := Split(s, sep);
    if |parts| >= 2 {
      JoinLast(parts, sep);
      var pre := Join(parts[..|parts| - 1], sep);
      assert s == pre + ([sep] + parts[|parts| - 1]);
    }
  }

  /** The segment after a final separator is exactly what follows it. */
  lemma {:induction false} LastSegmentAfter(prefix: string, last: string, sep: char)
    requires sep !in last
    ensures LastSegment(prefix + [sep] + last, sep) == last
  {
    SplitAround(prefix, last, sep);
    SplitNoSeparator(last, sep);
  }

  /** Go's `unicode.IsSpace`: the Latin-1 spaces plus the remaining Unicode White_Space code points. */
  predicate IsSpace(c: char) {
    || c == '\t' || c == '\n' || c == '\U{000B}' || c == '\U{000C}' || c == '\r' || c == ' '
    || c == '\U{0085}' || c == '\U{00A0}' || c == '\U{1680}'
    || ('\U{2000}' <= c <= '\U{200A}')
    || c == '\U{2028}' || c == '\U{2029}' || c == '\U{202F}' || c == '\U{205F}' || c == '\U{3000}'
  }

  predicate AllSpace(s: string) {
    forall i :: 0 <= i < |s| ==> IsSpace(s[i])
  }

  /** Neither starts nor ends with white space. */
  predicate Trimmed(s: string) {
    s == [] || (!IsSpace(s[0]) && !IsSpace(s[|s| - 1]))
  }

  function TrimLeftSpace(s: string): (r: string)
    ensures HasSuffix(s, r) && AllSpace(s[..|s| - |r|])
    ensures r == [] || !IsSpace(r[0])
    decreases |s|
  {
    if s != [] && IsSpace(s[0]) then
      var r := TrimLeftSpace(s[1..]);
      assert s[..|s| - |r|] == [s[0]] + s[1..][..|s| - 1 - |r|];
      r
    else s
  }

  function TrimRightSpace(s: string): (r: string)
    ensures HasPrefix(s, r) && AllSpace(s[|r|..])
    ensures r == [] || !IsSpace(r[|r| - 1])
    decreases |s|
  {
    if s != [] && IsSpace(s[|s| - 1]) then
      var r := TrimRightSpace(s[..|s| - 1]);
      assert s[|r|..] == s[..|s| - 1][|r|..] + [s[|s| - 1]];
      r
    else s
  }

  /** `strings.TrimSpace`: drops leading and trailing white space. */
  function TrimSpace(s: string): (r: string)
    ensures Trimmed(r)
    ensures |r| <= |s|
    ensures exists a, b :: AllSpace(a) && AllSpace(b) && s == a + r + b
  {
    var l := TrimLeftSpace(s);
    var r := TrimRightSpace(l);
    assert r != [] ==> r[0] == l[0];
    SurroundedBySpace(s, l, r);
    r
  }

  /** Peeling white space off the front and then the back leaves the core of the string. */
  lemma SurroundedBySpace(s: string, l: string, r: string)
    requires HasSuffix(s, l) && AllSpace(s[..|s| - |l|])
    requires HasPrefix(l, r) && AllSpace(l[|r|..])
    ensures exists a, b :: AllSpace(a) && AllSpace(b) && s == a + r + b
  {
    var a, b := s[..|s| - |l|], l[|r|..];
    assert l == r + b;
    assert s == a + l;
    assert s == a + r + b;
  }

  lemma {:induction false} TrimLeftSpacePadded(a: string, t: string)
    requires AllSpace(a)
    requires t == [] || !IsSpace(t[0])
    ensures TrimLeftSpace(a + t) == t
    decreases |a|
  {
    if a != [] {
      assert (a + t)[1..] == a[1..] + t;
      TrimLeftSpacePadded(a[1..], t);
    }
  }

  lemma {:induction false} TrimRightSpacePadded(t: string, b: string)
    requires AllSpace(b)
    requires t == [] || !IsSpace(t[|t| - 1])
    ensures TrimRightSpace(t + b) == t
    decreases |b|
  {
    if b != [] {
      assert (t + b)[..|t + b| - 1] == t + b[..|b| - 1];
      TrimRightSpacePadded(t, b[..|b| - 1]);
    }
  }

  /**
    Together with `Trimmed(TrimSpace(s))` this pins `TrimSpace` down: it returns
    the unique trimmed core of any string that is white space around that core.
   */
  lemma TrimSpacePadded(a: string, t: string, b: string)
    requires AllSpace(a) && AllSpace(b)
    requires Trimmed(t)
    ensures TrimSpace(a + t + b) == t
  {
    if t == [] {
      assert a + t + b == (a + b) + [];
      assert AllSpace(a + b);
      TrimLeftSpacePadded(a + b, []);
    } else {
      assert a + t + b == a + (t + b);
      TrimLeftSpacePadded(a, t + b);
      TrimRightSpacePadded(t, b);
    }
  }

  /** Trailing white space, such as the newline ending a command's output, is dropped. */
  lemma TrimSpaceTrailing(s: string, pad: string)
    requires Trimmed(s) && AllSpace(pad)
    ensures TrimSpace(s + pad) == s
  {
    if s == [] {
      assert s + pad == pad + [];
      TrimLeftSpacePadded(pad, []);
    } else {
      assert (s + pad)[0] == s[0];
      TrimRightSpacePadded(s, pad);
    }
  }

  /** `TrimSpace` leaves an already trimmed string alone, so it is idempotent. */
  lemma TrimSpaceTrimmed(s: string)
    requires Trimmed(s)
    ensures TrimSpace(s) == s
  {
    TrimSpacePadded([], s, []);
    assert [] + s + [] == s;
  }
}
