/** The Python 2 string primitives that master/package.py relies on:
    `str.strip()`, `str.split(sep)`, `str.rfind(c)` and slicing with
    Python's clamping and negative-index rules. Strings are `seq<char>`
    and are taken to be byte strings (`str`, not `unicode`), on which
    `strip` removes ASCII whitespace only. */
module Text {

  /** Python 2 `str.isspace` on one byte: space, \t, \n, \v, \f, \r. */
  predicate IsSpace(c: char) {
    c == ' ' || c == '\t' || c == '\n' || c == '\U{0B}' || c == '\U{0C}' || c == '\r'
  }

  predicate AllSpace(s: string) {
    forall k :: 0 <= k < |s| ==> IsSpace(s[k])
  }

  predicate StartsWith(s: string, prefix: string) {
    prefix <= s
  }

  predicate EndsWith(s: string, suffix: string) {
    |suffix| <= |s| && s[|s| - |suffix|..] == suffix
  }

  /** Python's `s[:k]`: a bound past the end is clamped, a negative bound
      counts from the end (so `s[:-1]` drops the last character). */
  function Take(s: string, k: int): string {
    if k >= 0 then (if k <= |s| then s[..k] else s)
    else if |s| + k >= 0 then s[..|s| + k]
    else []
  }

  /** Python's `s[k:]` for a non-negative `k`, clamped at the end. */
  function Drop(s: string, k: nat): string {
    if k <= |s| then s[k..] else []
  }

  // ---------------------------------------------------------------- strip

  /** The number of whitespace characters `str.lstrip()` removes. */
  function LeadingSpace(s: string): (n: nat)
    ensures n <= |s|
    ensures forall k :: 0 <= k < n ==> IsSpace(s[k])
    ensures n < |s| ==> !IsSpace(s[n])
  {
    if |s| > 0 && IsSpace(s[0]) then 1 + LeadingSpace(s[1..]) else 0
  }

  /** The number of whitespace characters `str.rstrip()` removes. */
  function TrailingSpace(s: string): (n: nat)
    ensures n <= |s|
    ensures forall k :: |s| - n <= k < |s| ==> IsSpace(s[k])
    ensures n < |s| ==> !IsSpace(s[|s| - 1 - n])
  {
    if |s| > 0 && IsSpace(s[|s| - 1]) then 1 + TrailingSpace(s[..|s| - 1]) else 0
  }

  /** Python's `str.strip()`: the infix of `s` left once all leading and
      trailing whitespace is gone; it neither starts nor ends with whitespace. */
  function Strip(s: string): (r: string)
    ensures LeadingSpace(s) + |r| <= |s|
    ensures r == s[LeadingSpace(s)..LeadingSpace(s) + |r|]
    ensures forall k :: LeadingSpace(s) + |r| <= k < |s| ==> IsSpace(s[k])
    ensures r != [] ==> !IsSpace(r[0]) && !IsSpace(r[|r| - 1])
  {
    var t := s[LeadingSpace(s)..];
    t[..|t| - TrailingSpace(t)]
  }

  /** The leading whitespace of `s` is exactly its first `m` characters
      when those are whitespace and the next one is not. */
  lemma LeadingSpaceIs(s: string, m: nat)
    requires m <= |s|
    requires forall k :: 0 <= k < m ==> IsSpace(s[k])
    requires m < |s| ==> !IsSpace(s[m])
    ensures LeadingSpace(s) == m
  {
  }

  /** The trailing counterpart of LeadingSpaceIs. */
  lemma TrailingSpaceIs(s: string, m: nat)
    requires m <= |s|
    requires forall k :: |s| - m <= k < |s| ==> IsSpace(s[k])
    requires m < |s| ==> !IsSpace(s[|s| - 1 - m])
    ensures TrailingSpace(s) == m
  {
  }

  /** Strip is determined by its contract: any decomposition of `s` into
      whitespace, a core that does not start or end with whitespace, and
      whitespace yields that core. */
  lemma StripPadded(before: string, core: string, after: string)
    requires AllSpace(before) && AllSpace(after)
    requires core != [] ==> !IsSpace(core[0]) && !IsSpace(core[|core| - 1])
    ensures Strip(before + core + after) == core
  {
    var s := before + core + after;
    if core == [] {
      assert forall k :: 0 <= k < |s| ==> IsSpace(s[k]) by {
        forall k | 0 <= k < |s| ensures IsSpace(s[k]) {
          if k < |before| { assert s[k] == before[k]; } else { assert s[k] == after[k - |before|]; }
        }
      }
      LeadingSpaceIs(s, |s|);
    } else {
      assert forall k :: 0 <= k < |before| ==> IsSpace(s[k]) by {
        forall k | 0 <= k < |before| ensures s[k] == before[k] { }
      }
      assert s[|before|] == core[0];
      LeadingSpaceIs(s, |before|);
      var t := s[|before|..];
      assert t == core + after;
      assert forall k :: |t| - |after| <= k < |t| ==> IsSpace(t[k]) by {
        forall k | |t| - |after| <= k < |t| ensures t[k] == after[k - |core|] { }
      }
      assert t[|t| - 1 - |after|] == core[|core| - 1];
      TrailingSpaceIs(t, |after|);
      assert t[..|core|] == core;
    }
  }

  /** Stripping a string that neither starts nor ends with whitespace is the identity. */
  lemma StripNoop(s: string)
    requires s != [] ==> !IsSpace(s[0]) && !IsSpace(s[|s| - 1])
    ensures Strip(s) == s
  {
    StripPadded([], s, []);
    assert [] + s + [] == s;
  }

  /** Stripping twice is stripping once. */
  lemma StripIdempotent(s: string)
    ensures Strip(Strip(s)) == Strip(s)
  {
    StripNoop(Strip(s));
  }

  // ---------------------------------------------------------------- rfind

  /** Python's `str.rfind(c)`: the index of the last `c`, or -1 when there is none. */
  function RFind(s: string, c: char): (i: int)
    ensures -1 <= i < |s|
    ensures i >= 0 ==> s[i] == c
    ensures forall k :: i < k < |s| ==> s[k] != c
  {
    if s == [] then -1
    else if s[|s| - 1] == c then |s| - 1
    else RFind(s[..|s| - 1], c)
  }

  // ---------------------------------------------------------------- split

  /** The number of occurrences of `c` in `s`. */
  function Occurrences(s: string, c: char): (n: nat)
    ensures n > 0 <==> c in s
  {
    if s == [] then 0
    else
      var rest := Occurrences(s[1..], c);
      assert c in s <==> s[0] == c || c in s[1..];
      (if s[0] == c then 1 else 0) + rest
  }

  /** Python's `str.split(sep)` for a one-character separator; there is
      always at least one piece. */
  function Split(s: string, sep: char): (parts: seq<string>)
    ensures |parts| >= 1
  {
    if s == [] then [[]]
    else
      var rest := Split(s[1..], sep);
      if s[0] == sep then [[]] + rest
      else [[s[0]] + rest[0]] + rest[1..]
  }

  /** A split has one more piece than there are separators. */
  lemma {:induction false} SplitCount(s: string, sep: char)
    ensures |Split(s, sep)| == Occurrences(s, sep) + 1
  {
    if s != [] {
      SplitCount(s[1..], sep);
    }
  }

  /** No piece of a split holds the separator. */
  lemma {:induction false} SplitPiecesSepFree(s: string, sep: char)
    ensures forall i :: 0 <= i < |Split(s, sep)| ==> sep !in Split(s, sep)[i]
  {
    if s != [] {
      SplitPiecesSepFree(s[1..], sep);
      var rest := Split(s[1..], sep);
      if s[0] != sep {
        assert sep !in [s[0]] + rest[0];
      }
    }
  }

  /** Python's `sep.join(parts)`. */
  function Join(parts: seq<string>, sep: char): string
    requires |parts| >= 1
  {
    if |parts| == 1 then parts[0] else parts[0] + [sep] + Join(parts[1..], sep)
  }

  /** Joining the pieces of a split gives back the original string. */
  lemma {:induction false} JoinSplit(s: string, sep: char)
    ensures Join(Split(s, sep), sep) == s
  {
    if s != [] {
      var rest := Split(s[1..], sep);
      JoinSplit(s[1..], sep);
      if s[0] != sep && |rest| > 1 {
        assert rest == [rest[0]] + rest[1..];
        assert Join(rest, sep) == rest[0] + [sep] + Join(rest[1..], sep);
        assert s == [s[0]] + s[1..];
      }
    }
  }

  /** A separator-free prefix glues onto the first piece of what follows it. */
  lemma {:induction false} SplitPrefix(a: string, t: string, sep: char)
    requires sep !in a
    ensures Split(a + t, sep) == [a + Split(t, sep)[0]] + Split(t, sep)[1..]
  {
    var st := Split(t, sep);
    if a == [] {
      assert a + t == t && a + st[0] == st[0];
      assert st == [st[0]] + st[1..];
    } else {
      var u := a + t;
      assert u[0] == a[0] && u[1..] == a[1..] + t;
      SplitPrefix(a[1..], t, sep);
      var rest := Split(a[1..] + t, sep);
      calc {
        Split(u, sep);
        [[a[0]] + rest[0]] + rest[1..];
        [[a[0]] + (a[1..] + st[0])] + st[1..];
        { assert [a[0]] + (a[1..] + st[0]) == a + st[0]; }
        [a + st[0]] + st[1..];
      }
    }
  }

  /** A separator-free last piece: splitting `x + sep + y` adds `y` to the pieces of `x`. */
  lemma {:induction false} SplitSnoc(x: string, y: string, sep: char)
    requires sep !in y
    ensures Split(x + [sep] + y, sep) == Split(x, sep) + [y]
  {
    if x == [] {
      SplitPrefix(y, [], sep);
      assert y + [] == y;
      assert x + [sep] + y == [sep] + y;
    } else {
      var u := x + [sep] + y;
      assert u[0] == x[0] && u[1..] == x[1..] + [sep] + y;
      SplitSnoc(x[1..], y, sep);
      var px := Split(x[1..], sep);
      if x[0] != sep {
        calc {
          Split(u, sep);
          [[x[0]] + (px + [y])[0]] + (px + [y])[1..];
          { assert (px + [y])[0] == px[0] && (px + [y])[1..] == px[1..] + [y]; }
          [[x[0]] + px[0]] + px[1..] + [y];
        }
      }
    }
  }

  /** Splitting a join of separator-free pieces gives back the pieces. */
  lemma {:induction false} SplitJoin(parts: seq<string>, sep: char)
    requires |parts| >= 1
    requires forall i :: 0 <= i < |parts| ==> sep !in parts[i]
    ensures Split(Join(parts, sep), sep) == parts
  {
    if |parts| == 1 {
      SplitPrefix(parts[0], [], sep);
      assert parts[0] + [] == parts[0];
    } else {
      var tail := Join(parts[1..], sep);
      SplitJoin(parts[1..], sep);
      SplitCons(parts[0], tail, sep);
      assert parts == [parts[0]] + parts[1..];
    }
  }

  /** The lines of `first + "\n" + rest`, for a separator-free `first`. */
  lemma SplitCons(first: string, rest: string, sep: char)
    requires sep !in first
    ensures Split(first + [sep] + rest, sep) == [first] + Split(rest, sep)
  {
    SplitPrefix(first, [sep] + rest, sep);
    assert first + [sep] + rest == first + ([sep] + rest);
    assert ([sep] + rest)[0] == sep && ([sep] + rest)[1..] == rest;
    assert Split([sep] + rest, sep) == [[]] + Split(rest, sep);
    assert first + [] == first;
  }
}
