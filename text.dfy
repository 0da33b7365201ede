/**
 * String handling shared by the Python and PHP code: whitespace trimming
 * (`str.strip()`, PHP `trim`), substring search (`in`), `split`, line reading,
 * ASCII lower-casing, digit checks, truncation and decimal rendering.
 */
module Text {
  import opened Basics

  /** Python `str.isspace` for one character: the set `str.strip()` removes. */
  predicate IsPySpace(c: char) {
    || ('\t' <= c <= '\r')
    || ('\U{1C}' <= c <= '\U{1F}')
    || c == ' ' || c == '\U{85}' || c == '\U{A0}' || c == '\U{1680}'
    || ('\U{2000}' <= c <= '\U{200A}')
    || c == '\U{2028}' || c == '\U{2029}' || c == '\U{202F}' || c == '\U{205F}' || c == '\U{3000}'
  }

  /** The characters PHP's `trim` removes by default: " \t\n\r\0\x0B". */
  predicate IsPhpSpace(c: char) {
    c == ' ' || c == '\t' || c == '\n' || c == '\r' || c == '\0' || c == '\U{0B}'
  }

  function TrimStart(s: string, ws: char -> bool): (r: string)
    ensures |r| <= |s|
    ensures r == [] || !ws(r[0])
    ensures forall i :: 0 <= i < |s| - |r| ==> ws(s[i])
  {
    if s != [] && ws(s[0]) then TrimStart(s[1..], ws) else s
  }

  function TrimEnd(s: string, ws: char -> bool): (r: string)
    ensures |r| <= |s|
    ensures r == [] || !ws(r[|r| - 1])
    ensures forall i :: |r| <= i < |s| ==> ws(s[i])
  {
    if s != [] && ws(s[|s| - 1]) then TrimEnd(s[..|s| - 1], ws) else s
  }

  /** What `TrimStart` keeps is a suffix of its input. */
  lemma {:induction false} TrimStartSuffix(s: string, ws: char -> bool)
    ensures TrimStart(s, ws) == s[|s| - |TrimStart(s, ws)|..]
    decreases |s|
  {
    if s != [] && ws(s[0]) {
      TrimStartSuffix(s[1..], ws);
    }
  }

  /** What `TrimEnd` keeps is a prefix of its input. */
  lemma {:induction false} TrimEndPrefix(s: string, ws: char -> bool)
    ensures TrimEnd(s, ws) == s[..|TrimEnd(s, ws)|]
    decreases |s|
  {
    if s != [] && ws(s[|s| - 1]) {
      TrimEndPrefix(s[..|s| - 1], ws);
    }
  }

  /** Removes the leading and trailing characters of class `ws`. */
  function Trim(s: string, ws: char -> bool): (r: string)
    ensures |r| <= |s|
    ensures r == [] || (!ws(r[0]) && !ws(r[|r| - 1]))
    ensures (s == [] || (!ws(s[0]) && !ws(s[|s| - 1]))) ==> r == s
  {
    var t := TrimStart(s, ws);
    TrimEndPrefix(t, ws);
    TrimEnd(t, ws)
  }

  /** Trimming leaves nothing exactly when every character is of class `ws`. */
  lemma TrimEmpty(s: string, ws: char -> bool)
    ensures Trim(s, ws) == [] <==> forall i :: 0 <= i < |s| ==> ws(s[i])
  {
    var t := TrimStart(s, ws);
    TrimStartSuffix(s, ws);
    TrimEndPrefix(t, ws);
    if t != [] {
      assert !ws(t[0]) && t == s[|s| - |t|..];
      assert !ws(s[|s| - |t|]);
    }
  }

  /** Trailing characters of class `ws` after a part that does not end in
      one are exactly what `Trim` removes. */
  lemma {:induction false} TrimPadding(u: string, pad: string, ws: char -> bool)
    requires u != [] && !ws(u[0]) && !ws(u[|u| - 1])
    requires forall i :: 0 <= i < |pad| ==> ws(pad[i])
    ensures Trim(u + pad, ws) == u
  {
    assert TrimStart(u + pad, ws) == u + pad;
    TrimEndPadding(u, pad, ws);
  }

  lemma {:induction false} TrimEndPadding(u: string, pad: string, ws: char -> bool)
    requires u != [] && !ws(u[|u| - 1])
    requires forall i :: 0 <= i < |pad| ==> ws(pad[i])
    ensures TrimEnd(u + pad, ws) == u
    decreases |pad|
  {
    if pad == [] {
      assert u + pad == u;
    } else {
      var p := pad[..|pad| - 1];
      assert (u + pad)[..|u + pad| - 1] == u + p;
      TrimEndPadding(u, p, ws);
    }
  }

  /** Python `s.strip()`. */
  function Strip(s: string): string {
    Trim(s, IsPySpace)
  }

  /** Stripping adds no character. */
  lemma StripAvoids(s: string, c: char)
    requires c !in s
    ensures c !in Strip(s)
  {
    var t := TrimStart(s, IsPySpace);
    TrimStartSuffix(s, IsPySpace);
    TrimEndPrefix(t, IsPySpace);
    assert forall i :: 0 <= i < |t| ==> t[i] == s[|s| - |t| + i];
  }

  /** PHP `trim($s)`. */
  function PhpTrim(s: string): string {
    Trim(s, IsPhpSpace)
  }

  predicate StartsWith<T(==)>(s: seq<T>, p: seq<T>) {
    |p| <= |s| && s[..|p|] == p
  }

  /** `p` occurs in `s` at `i`. */
  predicate ContainsAtIndex<T(==)>(s: seq<T>, p: seq<T>, i: int) {
    0 <= i && i + |p| <= |s| && s[i..i + |p|] == p
  }

  /** `p` occurs in `s` as a contiguous run: Python `p in s` for strings. */
  predicate Contains<T(==)>(s: seq<T>, p: seq<T>) {
    exists i :: 0 <= i <= |s| - |p| && ContainsAtIndex(s, p, i)
  }

  /** An occurrence at a known position is found by `Contains`. */
  lemma ContainsAt<T>(s: seq<T>, p: seq<T>, i: nat)
    requires i + |p| <= |s| && s[i..i + |p|] == p
    ensures Contains(s, p)
  {
    assert ContainsAtIndex(s, p, i);
  }

  /** The middle part of a concatenation is contained in it. */
  lemma ContainsInside<T>(a: seq<T>, p: seq<T>, b: seq<T>)
    ensures Contains(a + p + b, p)
  {
    assert (a + p + b)[|a|..|a| + |p|] == p;
    ContainsAt(a + p + b, p, |a|);
  }

  /** Where `Contains` finds its pattern. */
  lemma ContainsIndex<T>(s: seq<T>, p: seq<T>) returns (k: nat)
    requires Contains(s, p)
    ensures k + |p| <= |s| && s[k..k + |p|] == p
  {
    var i :| 0 <= i <= |s| - |p| && ContainsAtIndex(s, p, i);
    k := i;
  }

  /** Containment is transitive. */
  lemma ContainsWithin<T>(s: seq<T>, t: seq<T>, p: seq<T>)
    requires Contains(s, t) && Contains(t, p)
    ensures Contains(s, p)
  {
    var k := ContainsIndex(s, t);
    var k' := ContainsIndex(t, p);
    assert t == s[k..k + |t|];
    forall i | 0 <= i < |p|
      ensures s[k + k'..k + k' + |p|][i] == p[i]
    {
      assert p[i] == t[k' + i] == s[k + k' + i];
    }
    ContainsAt(s, p, k + k');
  }

  /** A string made only of characters of class `cls` cannot contain `p`
      when some character of `p` lies outside that class. */
  lemma NotContainsForeign(s: string, p: string, k: nat, cls: char -> bool)
    requires k < |p| && !cls(p[k])
    requires forall i :: 0 <= i < |s| ==> cls(s[i])
    ensures !Contains(s, p)
  {
    forall i | 0 <= i <= |s| - |p|
      ensures !ContainsAtIndex(s, p, i)
    {
      assert s[i..i + |p|][k] == s[i + k];
    }
  }

  function LowerChar(c: char): char {
    if 'A' <= c <= 'Z' then (c as int + 32) as char else c
  }

  /** `str.lower()` restricted to ASCII letters. */
  function Lower(s: string): (r: string)
    ensures |r| == |s|
  {
    seq(|s|, i requires 0 <= i < |s| => LowerChar(s[i]))
  }

  /** Lower-casing twice is lower-casing once. */
  lemma LowerIdempotent(s: string)
    ensures Lower(Lower(s)) == Lower(s)
  {
    forall i | 0 <= i < |s| ensures Lower(Lower(s))[i] == Lower(s)[i] {
      var c := s[i];
      assert Lower(s)[i] == LowerChar(c);
    }
  }

  /** A string without upper-case ASCII letters is its own lower case. */
  lemma LowerOfLowercase(s: string)
    requires forall i :: 0 <= i < |s| ==> !('A' <= s[i] <= 'Z')
    ensures Lower(s) == s
  {
  }

  predicate IsAsciiDigit(c: char) {
    '0' <= c <= '9'
  }

  /** `str.isdigit()` over ASCII digits: false for the empty string. */
  predicate IsDigits(s: string) {
    |s| > 0 && forall i :: 0 <= i < |s| ==> IsAsciiDigit(s[i])
  }

  /** Python `s.split(sep)` for a one-character separator. */
  function Split(s: string, sep: char): (r: seq<string>)
    ensures |r| >= 1
    ensures forall i :: 0 <= i < |r| ==> sep !in r[i]
    decreases |s|
  {
    if s == [] then [""]
    else if s[0] == sep then [""] + Split(s[1..], sep)
    else
      var t := Split(s[1..], sep);
      [[s[0]] + t[0]] + t[1..]
  }

  /** The first piece of a split is the text before the first separator. */
  lemma {:induction false} SplitHead(s: string, sep: char)
    ensures var h := Split(s, sep)[0];
      StartsWith(s, h) && (|h| < |s| ==> s[|h|] == sep)
    decreases |s|
  {
    if s != [] && s[0] != sep {
      SplitHead(s[1..], sep);
    }
  }

  /** Python `sep.join(parts)`. */
  function Join(parts: seq<string>, sep: char): string
    decreases |parts|
  {
    if parts == [] then ""
    else if |parts| == 1 then parts[0]
    else parts[0] + [sep] + Join(parts[1..], sep)
  }

  /** A join ends with the last part, and starts with the first part when
      that one is not empty. */
  lemma {:induction false} JoinEnds(parts: seq<string>, sep: char)
    requires parts != [] && parts[|parts| - 1] != []
    ensures var j := Join(parts, sep);
      && j != [] && j[|j| - 1] == parts[|parts| - 1][|parts[|parts| - 1]| - 1]
      && (parts[0] != [] ==> j[0] == parts[0][0])
    decreases |parts|
  {
    if |parts| > 1 {
      JoinEnds(parts[1..], sep);
    }
  }

  /** Every part is contained in the join. */
  lemma {:induction false} JoinHasPart(parts: seq<string>, sep: char, i: nat)
    requires i < |parts|
    ensures Contains(Join(parts, sep), parts[i])
    decreases |parts|
  {
    if |parts| == 1 {
      ContainsInside([], parts[0], []);
      assert [] + parts[0] + [] == Join(parts, sep);
    } else {
      var rest := Join(parts[1..], sep);
      assert Join(parts, sep) == parts[0] + [sep] + rest;
      if i == 0 {
        ContainsInside([], parts[0], [sep] + rest);
        assert [] + parts[0] + ([sep] + rest) == Join(parts, sep);
      } else {
        JoinHasPart(parts[1..], sep, i - 1);
        ContainsInside(parts[0] + [sep], rest, []);
        assert parts[0] + [sep] + rest + [] == Join(parts, sep);
        ContainsWithin(Join(parts, sep), rest, parts[i]);
      }
    }
  }

  /** Joining the pieces of a split gives back the original string. */
  lemma {:induction false} JoinSplit(s: string, sep: char)
    ensures Join(Split(s, sep), sep) == s
    decreases |s|
  {
    if s == [] {
    } else if s[0] == sep {
      JoinSplit(s[1..], sep);
      var parts := [""] + Split(s[1..], sep);
      assert parts[1..] == Split(s[1..], sep);
      assert s == [s[0]] + s[1..];
    } else {
      JoinSplit(s[1..], sep);
      var t := Split(s[1..], sep);
      var parts := [[s[0]] + t[0]] + t[1..];
      assert parts[1..] == t[1..];
      if |t| == 1 {
        assert s == [s[0]] + t[0];
      } else {
        assert Join(t, sep) == t[0] + [sep] + Join(t[1..], sep);
        assert s == [s[0]] + s[1..];
      }
    }
  }

  lemma {:induction false} SplitSingle(a: string, sep: char)
    requires sep !in a
    ensures Split(a, sep) == [a]
    decreases |a|
  {
    if a != [] {
      SplitSingle(a[1..], sep);
      assert a == [a[0]] + a[1..];
    }
  }

  lemma {:induction false} SplitCons(a: string, b: string, sep: char)
    requires sep !in a
    ensures Split(a + [sep] + b, sep) == [a] + Split(b, sep)
    decreases |a|
  {
    var s := a + [sep] + b;
    if a == [] {
      assert s[1..] == b;
    } else {
      assert s[1..] == a[1..] + [sep] + b;
      SplitCons(a[1..], b, sep);
      assert a == [a[0]] + a[1..];
    }
  }

  /** Splitting a join of separator-free pieces gives back the pieces. */
  lemma {:induction false} SplitJoin(parts: seq<string>, sep: char)
    requires |parts| >= 1
    requires forall i :: 0 <= i < |parts| ==> sep !in parts[i]
    ensures Split(Join(parts, sep), sep) == parts
    decreases |parts|
  {
    if |parts| == 1 {
      SplitSingle(parts[0], sep);
    } else {
      SplitJoin(parts[1..], sep);
      SplitCons(parts[0], Join(parts[1..], sep), sep);
      assert parts == [parts[0]] + parts[1..];
    }
  }

  lemma {:induction false} JoinAvoids(parts: seq<string>, sep: char, c: char)
    requires c != sep
    requires forall i :: 0 <= i < |parts| ==> c !in parts[i]
    ensures c !in Join(parts, sep)
    decreases |parts|
  {
    if |parts| > 1 {
      JoinAvoids(parts[1..], sep, c);
    }
  }

  /** Python text-mode reading: "\r\n" and a lone "\r" both become "\n". */
  function NormalizeNewlines(s: string): (r: string)
    ensures '\r' !in r
    decreases |s|
  {
    if s == [] then []
    else if s[0] == '\r' then
      if |s| > 1 && s[1] == '\n' then "\n" + NormalizeNewlines(s[2..])
      else "\n" + NormalizeNewlines(s[1..])
    else [s[0]] + NormalizeNewlines(s[1..])
  }

  lemma {:induction false} NormalizeWithoutCr(s: string)
    requires '\r' !in s
    ensures NormalizeNewlines(s) == s
    decreases |s|
  {
    if s != [] {
      NormalizeWithoutCr(s[1..]);
      assert s == [s[0]] + s[1..];
    }
  }

  /** The lines stripped, in order, with the blank ones dropped. */
  function StrippedNonBlank(lines: seq<string>): (r: seq<string>)
    ensures |r| <= |lines|
    ensures forall i :: 0 <= i < |r| ==> r[i] != "" && Strip(r[i]) == r[i]
    decreases |lines|
  {
    if lines == [] then []
    else
      var t := StrippedNonBlank(lines[1..]);
      if Strip(lines[0]) != "" then [Strip(lines[0])] + t else t
  }

  /** The lines of a text file, stripped, blank ones dropped, in file order. */
  function NonBlankLines(text: string): seq<string> {
    StrippedNonBlank(Split(NormalizeNewlines(text), '\n'))
  }

  /** `[l.strip() for l in f if l.strip()]` over a file that may be missing:
      its stripped non-blank lines in file order, none when it is missing. */
  function ReadLines(file: Option<string>): (r: seq<string>)
    ensures file.None? ==> r == []
    ensures forall i :: 0 <= i < |r| ==> r[i] != "" && Strip(r[i]) == r[i]
  {
    if file.None? then [] else NonBlankLines(file.value)
  }

  /** A file of clean lines, one per line, is read back as those lines in order. */
  lemma ReadLinesRoundTrip(lines: seq<string>)
    requires forall i :: 0 <= i < |lines| ==> IsCleanLine(lines[i])
    ensures ReadLines(Some(Join(lines, '\n'))) == lines
  {
    LinesRoundTrip(lines);
  }

  /** `f.read().strip()` on a file opened in text mode: newlines translated,
      then the whitespace at both ends removed. */
  function ReadStripped(text: string): (r: string)
    ensures Strip(r) == r
  {
    Strip(NormalizeNewlines(text))
  }

  /** A stripped value without carriage returns is read back as itself. */
  lemma ReadStrippedStable(v: string)
    requires Strip(v) == v && '\r' !in v
    ensures ReadStripped(v) == v
  {
    NormalizeWithoutCr(v);
  }

  /** A line that survives reading unchanged. */
  predicate IsCleanLine(m: string) {
    m != "" && Strip(m) == m && '\n' !in m && '\r' !in m
  }

  lemma {:induction false} StrippedNonBlankKeepsClean(lines: seq<string>)
    requires forall i :: 0 <= i < |lines| ==> IsCleanLine(lines[i])
    ensures StrippedNonBlank(lines) == lines
    decreases |lines|
  {
    if lines != [] {
      StrippedNonBlankKeepsClean(lines[1..]);
      assert lines == [lines[0]] + lines[1..];
    }
  }

  /** Writing clean lines one per line and reading the file back gives them back in order. */
  lemma LinesRoundTrip(msgs: seq<string>)
    requires forall i :: 0 <= i < |msgs| ==> IsCleanLine(msgs[i])
    ensures NonBlankLines(Join(msgs, '\n')) == msgs
  {
    if msgs == [] {
      assert NormalizeNewlines("") == "";
      assert Split("", '\n') == [""];
      assert Strip("") == "";
    } else {
      JoinAvoids(msgs, '\n', '\r');
      NormalizeWithoutCr(Join(msgs, '\n'));
      SplitJoin(msgs, '\n');
      StrippedNonBlankKeepsClean(msgs);
    }
  }

  /** A text cut to its first `n` characters, with "..." appended, when it is longer than `n`. */
  function Truncate(s: string, n: nat): (r: string)
    ensures |s| <= n ==> r == s
    ensures |s| > n ==> |r| == n + 3 && StartsWith(r, s[..n]) && r[n..] == "..."
  {
    if |s| > n then s[..n] + "..." else s
  }

  function DigitChar(d: nat): (c: char)
    requires d < 10
    ensures IsAsciiDigit(c)
  {
    ('0' as int + d) as char
  }

  function DigitValue(c: char): nat
    requires IsAsciiDigit(c)
  {
    c as int - '0' as int
  }

  /** Decimal rendering of a natural number, as PHP's string conversion of an int. */
  function NatToString(n: nat): (r: string)
    ensures IsDigits(r)
    decreases n
  {
    if n < 10 then [DigitChar(n)] else NatToString(n / 10) + [DigitChar(n % 10)]
  }

  /** Value of a string of ASCII digits (0 for the empty string). */
  function DigitsToNat(d: string): nat
    requires forall i :: 0 <= i < |d| ==> IsAsciiDigit(d[i])
    decreases |d|
  {
    if d == [] then 0 else DigitsToNat(d[..|d| - 1]) * 10 + DigitValue(d[|d| - 1])
  }

  /** Reading a rendered number back gives the number. */
  lemma {:induction false} DigitsRoundTrip(n: nat)
    ensures DigitsToNat(NatToString(n)) == n
    decreases n
  {
    var r := NatToString(n);
    if n >= 10 {
      DigitsRoundTrip(n / 10);
      assert r[..|r| - 1] == NatToString(n / 10);
    }
  }
}
