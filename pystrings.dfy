/** The pieces of Python's `str` and `list` behaviour the navigators rely on:
    the order `<` on strings, `sorted` of a key set, `sep.join`, `s.split(sep)`,
    `s.strip(chars)` and list comprehensions that drop some elements. */
module PyStrings {

  // ---------------------------------------------------------------------------
  // Ordering: Python compares str values lexicographically by code point.
  // ---------------------------------------------------------------------------

  /** `a < b` on Python strings: the first differing code point decides, and a
      proper prefix is smaller than the longer string. */
  predicate Less(a: string, b: string)
    decreases |a|
  {
    if a == [] then b != []
    else if b == [] then false
    else if a[0] != b[0] then a[0] < b[0]
    else Less(a[1..], b[1..])
  }

  /** A prefix is smaller exactly when it is a proper one. */
  lemma {:induction false} LessOfPrefix(a: string, b: string)
    requires StartsWith(b, a)
    ensures Less(a, b) <==> |a| < |b|
    decreases |a|
  {
    if a != [] {
      assert b[0] == a[0] && StartsWith(b[1..], a[1..]);
      LessOfPrefix(a[1..], b[1..]);
    }
  }

  lemma {:induction false} LessIrreflexive(a: string)
    ensures !Less(a, a)
    decreases |a|
  {
    if a != [] {
      LessIrreflexive(a[1..]);
    }
  }

  lemma {:induction false} LessAsymmetric(a: string, b: string)
    ensures Less(a, b) ==> !Less(b, a)
    decreases |a|
  {
    if a != [] && b != [] && a[0] == b[0] {
      LessAsymmetric(a[1..], b[1..]);
    }
  }

  lemma {:induction false} LessTransitive(a: string, b: string, c: string)
    requires Less(a, b) && Less(b, c)
    ensures Less(a, c)
    decreases |a|
  {
    if a != [] && a[0] == b[0] && b[0] == c[0] {
      LessTransitive(a[1..], b[1..], c[1..]);
    }
  }

  /** Any two different strings are ordered one way or the other. */
  lemma {:induction false} LessTotal(a: string, b: string)
    ensures a == b || Less(a, b) || Less(b, a)
    decreases |a|
  {
    if a != [] && b != [] && a[0] == b[0] {
      LessTotal(a[1..], b[1..]);
      if a[1..] == b[1..] {
        assert a == [a[0]] + a[1..] && b == [b[0]] + b[1..];
      }
    }
  }

  lemma LessAsymmetricAll()
    ensures forall a, b :: Less(a, b) ==> !Less(b, a)
  {
    forall a, b
      ensures Less(a, b) ==> !Less(b, a)
    {
      LessAsymmetric(a, b);
    }
  }

  /** Strictly ascending, hence free of duplicates. */
  predicate StrictlySorted(s: seq<string>)
  {
    forall i, j :: 0 <= i < j < |s| ==> Less(s[i], s[j])
  }

  predicate NoDuplicates<T(==)>(s: seq<T>)
  {
    forall i, j :: 0 <= i < j < |s| ==> s[i] != s[j]
  }

  lemma StrictlySortedHasNoDuplicates(s: seq<string>)
    requires StrictlySorted(s)
    ensures NoDuplicates(s)
  {
    forall i, j | 0 <= i < j < |s|
      ensures s[i] != s[j]
    {
      LessIrreflexive(s[i]);
    }
  }

  // ---------------------------------------------------------------------------
  // sorted(keys): the keys of a dict in ascending order.
  // ---------------------------------------------------------------------------

  predicate IsLeast(m: string, s: set<string>)
  {
    m in s && forall y :: y in s && y != m ==> Less(m, y)
  }

  lemma {:induction false} LeastExists(s: set<string>)
    requires s != {}
    ensures exists m :: IsLeast(m, s)
    decreases |s|
  {
    var x :| x in s;
    if s == {x} {
      assert IsLeast(x, s);
    } else {
      var t := s - {x};
      LeastExists(t);
      var m :| IsLeast(m, t);
      LessTotal(x, m);
      if Less(x, m) {
        forall y | y in s && y != x
          ensures Less(x, y)
        {
          if y != m {
            LessTransitive(x, m, y);
          }
        }
        assert IsLeast(x, s);
      } else {
        assert IsLeast(m, s);
      }
    }
  }

  /** The smallest string of a non-empty set. */
  function Least(s: set<string>): (m: string)
    requires s != {}
    ensures IsLeast(m, s)
  {
    LeastExists(s);
    LessAsymmetricAll();
    var m :| IsLeast(m, s);
    m
  }

  /** Python's `sorted(d.keys())`. */
  function SortedSet(s: set<string>): (r: seq<string>)
    ensures StrictlySorted(r)
    ensures forall x :: x in r <==> x in s
    ensures |r| == |s|
    decreases |s|
  {
    if s == {} then []
    else
      var m := Least(s);
      var rest := SortedSet(s - {m});
      assert forall k :: 0 <= k < |rest| ==> rest[k] in rest && rest[k] in s - {m};
      SortedCons(m, rest);
      [m] + rest
  }

  lemma SortedCons(m: string, rest: seq<string>)
    requires StrictlySorted(rest)
    requires forall k :: 0 <= k < |rest| ==> Less(m, rest[k])
    ensures StrictlySorted([m] + rest)
  {
    var r := [m] + rest;
    forall i, j | 0 <= i < j < |r|
      ensures Less(r[i], r[j])
    {
      assert r[j] == rest[j - 1];
      if i > 0 {
        assert r[i] == rest[i - 1];
      }
    }
  }

  /** The first element of a strictly ascending list of exactly `s` is the least of `s`. */
  lemma SortedHeadIsLeast(s: set<string>, r: seq<string>)
    requires StrictlySorted(r) && r != []
    requires forall x :: x in r <==> x in s
    ensures s != {} && r[0] == Least(s)
  {
    assert r[0] in r;
    var m := Least(s);
    assert IsLeast(r[0], s) by {
      forall y | y in s && y != r[0]
        ensures Less(r[0], y)
      {
        var j :| 0 <= j < |r| && r[j] == y;
      }
    }
    LessAsymmetricAll();
  }

  /** Past its first element, such a list holds exactly the rest of `s`. */
  lemma SortedTailElements(s: set<string>, r: seq<string>)
    requires StrictlySorted(r) && r != []
    requires forall x :: x in r <==> x in s
    ensures forall x :: x in r[1..] <==> x in s - {r[0]}
  {
    var tail := r[1..];
    StrictlySortedHasNoDuplicates(r);
    forall x
      ensures x in tail <==> x in s - {r[0]}
    {
      if x in tail {
        var j :| 0 <= j < |tail| && tail[j] == x;
        assert r[j + 1] == x;
      }
      if x in s - {r[0]} {
        assert x in r;
        var j :| 0 <= j < |r| && r[j] == x;
        assert j != 0;
        assert tail[j - 1] == x;
      }
    }
  }

  lemma SortedTail(r: seq<string>)
    requires StrictlySorted(r) && r != []
    ensures StrictlySorted(r[1..])
  {
    var t := r[1..];
    forall i, j | 0 <= i < j < |t|
      ensures Less(t[i], t[j])
    {
      assert t[i] == r[i + 1] && t[j] == r[j + 1];
    }
  }

  /** A strictly ascending list of exactly the elements of `s` is `sorted(s)`:
      the sorted listing is the only one there is. */
  lemma {:induction false} SortedSetUnique(s: set<string>, r: seq<string>)
    requires StrictlySorted(r)
    requires forall x :: x in r <==> x in s
    ensures r == SortedSet(s)
    decreases |s|
  {
    if r == [] {
      assert forall x :: x !in s;
      assert s == {};
    } else {
      SortedHeadIsLeast(s, r);
      SortedTailElements(s, r);
      var m := r[0];
      SortedTail(r);
      SortedSetUnique(s - {m}, r[1..]);
      assert SortedSet(s) == [m] + SortedSet(s - {m});
      assert r == [m] + r[1..];
    }
  }

  // ---------------------------------------------------------------------------
  // sep.join(parts), s.split(sep), s.startswith(p), s.strip(chars)
  // ---------------------------------------------------------------------------

  /** `sep.join(parts)`. */
  function Join(parts: seq<string>, sep: string): string
  {
    if |parts| == 0 then ""
    else if |parts| == 1 then parts[0]
    else parts[0] + sep + Join(parts[1..], sep)
  }

  /** `s.split(sep)` for a one-character separator: always at least one piece,
      empty pieces between adjacent separators kept, no piece contains `sep`. */
  function Split(s: string, sep: char): (r: seq<string>)
    ensures |r| >= 1
    ensures forall k :: 0 <= k < |r| ==> sep !in r[k]
  {
    if s == [] then [""]
    else
      var rest := Split(s[1..], sep);
      if s[0] == sep then [""] + rest
      else [[s[0]] + rest[0]] + rest[1..]
  }

  lemma {:induction false} SplitAfterPlainPrefix(x: string, t: string, sep: char)
    requires sep !in x
    ensures Split(x + t, sep) == [x + Split(t, sep)[0]] + Split(t, sep)[1..]
  {
    if x != [] {
      assert (x + t)[1..] == x[1..] + t;
      assert (x + t)[0] == x[0];
      SplitAfterPlainPrefix(x[1..], t, sep);
      assert [x[0]] + (x[1..] + Split(t, sep)[0]) == x + Split(t, sep)[0];
    } else {
      var p := Split(t, sep);
      assert x + t == t;
      assert x + p[0] == p[0];
      assert p == [p[0]] + p[1..];
    }
  }

  /** A string without the separator splits into itself. */
  lemma SplitPlain(x: string, sep: char)
    requires sep !in x
    ensures Split(x, sep) == [x]
  {
    SplitAfterPlainPrefix(x, "", sep);
    assert x + "" == x;
  }

  /** `sep.join(parts).split(sep) == parts` when no part contains `sep`
      (and there is at least one part: `"".split(sep)` is `[""]`). */
  lemma {:induction false} SplitJoin(parts: seq<string>, sep: char)
    requires |parts| >= 1
    requires forall k :: 0 <= k < |parts| ==> sep !in parts[k]
    ensures Split(Join(parts, [sep]), sep) == parts
  {
    if |parts| == 1 {
      SplitAfterPlainPrefix(parts[0], "", sep);
      assert parts[0] + "" == parts[0];
    } else {
      var tail := Join(parts[1..], [sep]);
      SplitJoin(parts[1..], sep);
      assert Join(parts, [sep]) == parts[0] + ([sep] + tail);
      SplitAfterPlainPrefix(parts[0], [sep] + tail, sep);
      assert ([sep] + tail)[1..] == tail;
      assert Split([sep] + tail, sep) == [""] + parts[1..];
      assert parts[0] + "" == parts[0];
      assert parts == [parts[0]] + parts[1..];
    }
  }

  /** A join starts where its first part does. */
  lemma JoinStart(parts: seq<string>, sep: string)
    requires |parts| >= 1 && parts[0] != []
    ensures var j := Join(parts, sep); j != [] && j[0] == parts[0][0]
  {
    if |parts| > 1 {
      assert Join(parts, sep) == parts[0] + (sep + Join(parts[1..], sep));
    }
  }

  /** A join ends where its last part does. */
  lemma {:induction false} JoinEnd(parts: seq<string>, sep: string)
    requires |parts| >= 1 && parts[|parts| - 1] != []
    ensures var j, last := Join(parts, sep), parts[|parts| - 1];
            j != [] && j[|j| - 1] == last[|last| - 1]
  {
    if |parts| > 1 {
      JoinEnd(parts[1..], sep);
      assert parts[1..][|parts| - 2] == parts[|parts| - 1];
    }
  }

  /** `s.startswith(p)`. */
  predicate StartsWith(s: string, p: string)
  {
    |p| <= |s| && s[..|p|] == p
  }

  /** `s.lstrip(chars)`: the suffix left after dropping leading characters in `chars`. */
  function TrimStart(s: string, chars: set<char>): (r: string)
    ensures |r| <= |s| && r == s[|s| - |r|..]
    ensures forall k :: 0 <= k < |s| - |r| ==> s[k] in chars
    ensures r == [] || r[0] !in chars
  {
    if s != [] && s[0] in chars then TrimStart(s[1..], chars) else s
  }

  /** `s.rstrip(chars)`: the prefix left after dropping trailing characters in `chars`. */
  function TrimEnd(s: string, chars: set<char>): (r: string)
    ensures |r| <= |s| && r == s[..|r|]
    ensures forall k :: |r| <= k < |s| ==> s[k] in chars
    ensures r == [] || r[|r| - 1] !in chars
  {
    if s != [] && s[|s| - 1] in chars then TrimEnd(s[..|s| - 1], chars) else s
  }

  /** `s.strip(chars)`: what is left between the leading and trailing runs of `chars`. */
  function Strip(s: string, chars: set<char>): (r: string)
    ensures Stripped(r, chars) && |r| <= |s|
  {
    TrimEnd(TrimStart(s, chars), chars)
  }

  /** Neither end of `s` is in `chars`: what `strip(chars)` leaves. */
  predicate Stripped(s: string, chars: set<char>)
  {
    s == [] || (s[0] !in chars && s[|s| - 1] !in chars)
  }

  /** A stripped string starts and ends outside `chars`, so stripping again changes nothing. */
  lemma StripIdempotent(s: string, chars: set<char>)
    ensures var r := Strip(s, chars);
            Stripped(r, chars) && Strip(r, chars) == r
  {
    var l := TrimStart(s, chars);
    var r := TrimEnd(l, chars);
    if r != [] {
      assert r[0] == l[0];
    }
  }

  /** A string made only of characters in `chars` strips to nothing. */
  lemma StripAllOf(s: string, chars: set<char>)
    ensures (forall k :: 0 <= k < |s| ==> s[k] in chars) ==> Strip(s, chars) == ""
  {
  }

  /** Stripping a stripped string with one more stripped character in front
      removes just that character. */
  lemma StripLeadingOne(c: char, s: string, chars: set<char>)
    requires c in chars && Stripped(s, chars)
    ensures Strip([c] + s, chars) == s
  {
    assert ([c] + s)[1..] == s;
    assert TrimStart([c] + s, chars) == TrimStart(s, chars);
    assert TrimStart(s, chars) == s;
  }

  /** The characters `str.strip()` removes when called without arguments
      (those for which Python's `str.isspace` holds). */
  const WHITESPACE: set<char> := {
    '\U{9}', '\U{A}', '\U{B}', '\U{C}', '\U{D}', '\U{1C}', '\U{1D}', '\U{1E}',
    '\U{1F}', '\U{20}', '\U{85}', '\U{A0}', '\U{1680}', '\U{2000}', '\U{2001}', '\U{2002}',
    '\U{2003}', '\U{2004}', '\U{2005}', '\U{2006}', '\U{2007}', '\U{2008}', '\U{2009}', '\U{200A}',
    '\U{2028}', '\U{2029}', '\U{202F}', '\U{205F}', '\U{3000}'
  }

  // ---------------------------------------------------------------------------
  // repr(s) and the `%.200R` of CPython's error messages.
  // ---------------------------------------------------------------------------

  /** A lower-case hexadecimal digit. */
  function HexDigit(d: int): char
    requires 0 <= d < 16
  {
    "0123456789abcdef"[d]
  }

  /** A character `repr` writes as itself, quotes and backslash aside: every
      character from the space up, except the non-printable ones of Latin-1
      (DEL, the C1 controls, the no-break space and the soft hyphen). */
  predicate ShownAsIs(c: char)
  {
    ' ' <= c && !('\U{7F}' <= c <= '\U{A0}') && c != '\U{AD}'
  }

  /** How `repr` writes one character inside quotes `q`: the quote and the
      backslash escaped, tab, newline and carriage return by name, any other
      character not shown as itself as `\xhh`. */
  function EscapeChar(c: char, q: char): (r: string)
    ensures |r| >= 1
    ensures r == [c] <==> c != q && c != '\\' && ShownAsIs(c)
    ensures r != [c] ==> |r| >= 2 && r[0] == '\\'
  {
    if c == q || c == '\\' then ['\\', c]
    else if c == '\t' then "\\t"
    else if c == '\n' then "\\n"
    else if c == '\r' then "\\r"
    else if !ShownAsIs(c) then "\\x" + [HexDigit(c as int / 16), HexDigit(c as int % 16)]
    else [c]
  }

  function EscapeAll(s: string, q: char): (r: string)
    ensures |r| >= |s|
  {
    if s == [] then [] else EscapeChar(s[0], q) + EscapeAll(s[1..], q)
  }

  /** Python's `repr` of a string: single quotes unless the string holds a
      single quote and no double quote. */
  function Repr(s: string): (r: string)
    ensures |r| >= |s| + 2
    ensures r[0] == r[|r| - 1] && (r[0] == '\'' <==> !('\'' in s && '"' !in s))
  {
    var q := if '\'' in s && '"' !in s then '"' else '\'';
    [q] + EscapeAll(s, q) + [q]
  }

  /** A string with no double quote, no backslash and only characters shown as
      themselves is written as itself: in single quotes, or in double quotes
      when it holds a single quote. */
  lemma ReprOfPlain(s: string)
    requires forall k :: 0 <= k < |s| ==> s[k] != '"' && s[k] != '\\' && ShownAsIs(s[k])
    ensures '\'' !in s ==> Repr(s) == "'" + s + "'"
    ensures '\'' in s ==> Repr(s) == "\"" + s + "\""
  {
    EscapeAllPlain(s, if '\'' in s then '"' else '\'');
  }

  lemma {:induction false} EscapeAllPlain(s: string, q: char)
    requires forall k :: 0 <= k < |s| ==> s[k] != q && s[k] != '\\' && ShownAsIs(s[k])
    ensures EscapeAll(s, q) == s
  {
    if s != [] {
      EscapeAllPlain(s[1..], q);
      assert s == [s[0]] + s[1..];
    }
  }

  /** The `.200` precision of `%.200R`: at most the first `n` characters. */
  function Truncate(s: string, n: nat): (r: string)
    ensures |r| <= n && r <= s
    ensures |s| <= n ==> r == s
  {
    if |s| <= n then s else s[..n]
  }

  // ---------------------------------------------------------------------------
  // List comprehensions that drop some values: `[c for c in s if c not in drop]`.
  // ---------------------------------------------------------------------------

  function Keep(s: seq<string>, drop: set<string>): (r: seq<string>)
    ensures forall x :: x in r <==> x in s && x !in drop
    ensures |r| <= |s|
  {
    if s == [] then []
    else (if s[0] in drop then [] else [s[0]]) + Keep(s[1..], drop)
  }

  lemma {:induction false} KeepNothingDropped(s: seq<string>, drop: set<string>)
    requires forall k :: 0 <= k < |s| ==> s[k] !in drop
    ensures Keep(s, drop) == s
  {
    if s != [] {
      KeepNothingDropped(s[1..], drop);
      assert s == [s[0]] + s[1..];
    }
  }

  /** `"/" + "/".join(parts)`, the form both navigators' `pwd` prints. */
  function Rooted(parts: seq<string>): (r: string)
    ensures StartsWith(r, "/")
    ensures parts == [] ==> r == "/"
  {
    "/" + Join(parts, "/")
  }
}
