/** The few Python `str` operations the extension relies on, on `seq<char>`. */
module Text {

  /** `s.startswith(prefix)`. */
  predicate StartsWith(s: string, prefix: string) {
    |prefix| <= |s| && s[..|prefix|] == prefix
  }

  /** `s.endswith(suffix)`. */
  predicate EndsWith(s: string, suffix: string) {
    |suffix| <= |s| && s[|s| - |suffix|..] == suffix
  }

  /** The characters for which Python's `str.isspace` holds: what `s.strip()` removes. */
  const PythonWhitespace: set<char> :=
    {'\t', '\n', '\U{B}', '\U{C}', '\r', '\U{1C}', '\U{1D}', '\U{1E}', '\U{1F}', ' ',
     '\U{85}', '\U{A0}', '\U{1680}', '\U{2000}', '\U{2001}', '\U{2002}', '\U{2003}',
     '\U{2004}', '\U{2005}', '\U{2006}', '\U{2007}', '\U{2008}', '\U{2009}', '\U{200A}',
     '\U{2028}', '\U{2029}', '\U{202F}', '\U{205F}', '\U{3000}'}

  /** What `s.strip('\n')` removes. */
  const Newline: set<char> := {'\n'}

  /** `s.lstrip(chars)`: drops the longest prefix made of characters in `cs`. */
  function TrimStart(s: string, cs: set<char>): (r: string)
    ensures |r| <= |s| && r == s[|s| - |r|..]
    ensures forall i :: 0 <= i < |s| - |r| ==> s[i] in cs
    ensures r == [] || r[0] !in cs
    decreases |s|
  {
    if s != [] && s[0] in cs then TrimStart(s[1..], cs) else s
  }

  /** `s.rstrip(chars)`: drops the longest suffix made of characters in `cs`. */
  function TrimEnd(s: string, cs: set<char>): (r: string)
    ensures |r| <= |s| && r == s[..|r|]
    ensures forall i :: |r| <= i < |s| ==> s[i] in cs
    ensures r == [] || r[|r| - 1] !in cs
    decreases |s|
  {
    if s != [] && s[|s| - 1] in cs then TrimEnd(s[..|s| - 1], cs) else s
  }

  /** `s.strip(chars)`: the result neither starts nor ends with a character of `cs`,
      and it is empty only when every character of `s` is in `cs`. */
  function Strip(s: string, cs: set<char>): (r: string)
    ensures |r| <= |s|
    ensures r == [] || (r[0] !in cs && r[|r| - 1] !in cs)
    ensures r == [] <==> forall i :: 0 <= i < |s| ==> s[i] in cs
  {
    var t := TrimStart(s, cs);
    assert forall i :: 0 <= i < |t| ==> t[i] == s[|s| - |t| + i];
    TrimEnd(t, cs)
  }

  /** Every character of `s` is in `cs`. */
  predicate AllIn(s: string, cs: set<char>) {
    forall i :: 0 <= i < |s| ==> s[i] in cs
  }

  lemma {:induction false} TrimStartOfPadded(a: string, m: string, cs: set<char>)
    requires AllIn(a, cs)
    requires m == [] || m[0] !in cs
    ensures TrimStart(a + m, cs) == m
    decreases |a|
  {
    if a == [] {
      assert a + m == m;
    } else {
      assert (a + m)[1..] == a[1..] + m;
      TrimStartOfPadded(a[1..], m, cs);
    }
  }

  lemma {:induction false} TrimEndOfPadded(m: string, b: string, cs: set<char>)
    requires AllIn(b, cs)
    requires m == [] || m[|m| - 1] !in cs
    ensures TrimEnd(m + b, cs) == m
    decreases |b|
  {
    if b == [] {
      assert m + b == m;
    } else {
      assert (m + b)[..|m + b| - 1] == m + b[..|b| - 1];
      TrimEndOfPadded(m, b[..|b| - 1], cs);
    }
  }

  /** An independent description of `Strip`: whatever padding of characters from `cs`
      surrounds a core that neither starts nor ends with one, `Strip` returns that core. */
  lemma {:induction false} StripPadded(a: string, m: string, b: string, cs: set<char>)
    requires AllIn(a, cs) && AllIn(b, cs)
    requires m == [] || (m[0] !in cs && m[|m| - 1] !in cs)
    ensures Strip(a + m + b, cs) == m
  {
    if m == [] {
      assert AllIn(a + m + b, cs);
    } else {
      assert a + m + b == a + (m + b);
      TrimStartOfPadded(a, m + b, cs);
      TrimEndOfPadded(m, b, cs);
    }
  }

  /** Stripping twice is the same as stripping once. */
  lemma {:induction false} StripIdempotent(s: string, cs: set<char>)
    ensures Strip(Strip(s, cs), cs) == Strip(s, cs)
  {
    var m := Strip(s, cs);
    assert TrimStart(m, cs) == m;
    assert TrimEnd(m, cs) == m;
  }

  /** `sep.join(parts)`, for a one-character separator. */
  function Join(parts: seq<string>, sep: char): string {
    if parts == [] then []
    else if |parts| == 1 then parts[0]
    else parts[0] + [sep] + Join(parts[1..], sep)
  }

  /** No parts join to the empty text; otherwise the text starts with the first part and
      ends with the last. */
  lemma {:induction false} JoinEnds(parts: seq<string>, sep: char)
    ensures parts == [] ==> Join(parts, sep) == []
    ensures parts != [] ==> StartsWith(Join(parts, sep), parts[0])
                            && EndsWith(Join(parts, sep), parts[|parts| - 1])
    decreases |parts|
  {
    if |parts| > 1 {
      var tail := Join(parts[1..], sep);
      JoinEnds(parts[1..], sep);
      var r := parts[0] + [sep] + tail;
      assert r[..|parts[0]|] == parts[0];
      assert r[|r| - |tail|..] == tail;
    }
  }

  /** `s.split(sep)`, for a one-character separator: the inverse of `Join`. */
  function Split(s: string, sep: char): (r: seq<string>)
    ensures |r| >= 1
    decreases |s|
  {
    if s == [] then [[]]
    else
      var rest := Split(s[1..], sep);
      if s[0] == sep then [[]] + rest else [[s[0]] + rest[0]] + rest[1..]
  }

  lemma {:induction false} SplitAfterPlainPrefix(a: string, b: string, sep: char)
    requires sep !in a
    ensures Split(a + b, sep) == [a + Split(b, sep)[0]] + Split(b, sep)[1..]
    decreases |a|
  {
    if a == [] {
      var r := Split(b, sep);
      assert a + b == b && a + r[0] == r[0];
      assert r == [r[0]] + r[1..];
    } else {
      assert (a + b)[1..] == a[1..] + b;
      SplitAfterPlainPrefix(a[1..], b, sep);
      assert [a[0]] + (a[1..] + Split(b, sep)[0]) == a + Split(b, sep)[0];
    }
  }

  /** Joining and splitting again gives back the parts, when no part holds the separator. */
  lemma {:induction false} SplitJoin(parts: seq<string>, sep: char)
    requires parts != []
    requires forall i :: 0 <= i < |parts| ==> sep !in parts[i]
    ensures Split(Join(parts, sep), sep) == parts
    decreases |parts|
  {
    if |parts| == 1 {
      SplitAfterPlainPrefix(parts[0], [], sep);
      assert parts[0] + [] == parts[0];
    } else {
      var tail := Join(parts[1..], sep);
      SplitJoin(parts[1..], sep);
      assert parts[0] + [sep] + tail == parts[0] + ([sep] + tail);
      SplitAfterPlainPrefix(parts[0], [sep] + tail, sep);
      assert ([sep] + tail)[1..] == tail;
      assert Split([sep] + tail, sep) == [[]] + Split(tail, sep);
      assert parts[0] + [] == parts[0];
      assert parts == [parts[0]] + parts[1..];
    }
  }

  /** Splitting and joining again gives back the text. */
  lemma {:induction false} JoinSplit(s: string, sep: char)
    ensures Join(Split(s, sep), sep) == s
    decreases |s|
  {
    if s != [] {
      var rest := Split(s[1..], sep);
      JoinSplit(s[1..], sep);
      assert s == [s[0]] + s[1..];
      if s[0] == sep {
        var parts := [[]] + rest;
        assert parts[1..] == rest;
        assert Join(parts, sep) == [] + [sep] + Join(rest, sep);
      } else {
        var parts := [[s[0]] + rest[0]] + rest[1..];
        assert parts[1..] == rest[1..];
        if |rest| == 1 {
          assert Join(parts, sep) == [s[0]] + rest[0];
        } else {
          assert Join(rest, sep) == rest[0] + [sep] + Join(rest[1..], sep);
          assert Join(parts, sep) == [s[0]] + rest[0] + [sep] + Join(rest[1..], sep);
        }
      }
    }
  }
}
