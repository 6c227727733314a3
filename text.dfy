/**
 * Text primitives shared by the document-analysis engine: the character
 * classes that Python's `str` methods and its `re` module use, the
 * per-character `lower()`, `strip`, `find`, `count`, `split` and
 * `splitlines`, all over `string` (a sequence of Unicode scalar values).
 *
 * The character classes are exact for the Latin-1 range U+0000..U+00FF
 * and for every Unicode whitespace and line-break character; letters,
 * digits and case mappings above U+00FF are not modelled.
 */
module Text {

  // ---------------------------------------------------------------------
  // Character classes
  // ---------------------------------------------------------------------

  /** `\d` on the ASCII and Latin-1 range: the ten ASCII decimal digits. */
  predicate IsDigit(c: char) {
    '0' <= c <= '9'
  }

  /** Python's `str.isspace()`, which is also what `\s` and `strip()` use. */
  predicate IsSpace(c: char) {
    c == ' ' || c == '\t' || c == '\n' || c == '\r' || c == '\U{0B}' || c == '\U{0C}'
    || ('\U{1C}' <= c <= '\U{1F}') || c == '\U{85}' || c == '\U{A0}' || c == '\U{1680}'
    || ('\U{2000}' <= c <= '\U{200A}') || c == '\U{2028}' || c == '\U{2029}'
    || c == '\U{202F}' || c == '\U{205F}' || c == '\U{3000}'
  }

  /** The characters at which `str.splitlines()` breaks a line. */
  predicate IsLineBreak(c: char) {
    c == '\n' || c == '\r' || c == '\U{0B}' || c == '\U{0C}'
    || ('\U{1C}' <= c <= '\U{1E}') || c == '\U{85}' || c == '\U{2028}' || c == '\U{2029}'
  }

  predicate IsLineChar(c: char) {
    !IsLineBreak(c)
  }

  predicate NotSpace(c: char) {
    !IsSpace(c)
  }

  predicate NotDigit(c: char) {
    !IsDigit(c)
  }

  /** `\w`: alphanumeric (letters, decimal and other digits, numerics) or `_`, on Latin-1. */
  predicate IsWordChar(c: char) {
    ('a' <= c <= 'z') || ('A' <= c <= 'Z') || IsDigit(c) || c == '_'
    || c == '\U{AA}' || c == '\U{B2}' || c == '\U{B3}' || c == '\U{B5}' || c == '\U{B9}'
    || c == '\U{BA}' || ('\U{BC}' <= c <= '\U{BE}')
    || ('\U{C0}' <= c <= '\U{FF}' && c != '\U{D7}' && c != '\U{F7}')
  }

  lemma SpaceIsNotDigit(c: char)
    ensures IsSpace(c) ==> !IsDigit(c)
    ensures IsDigit(c) ==> !IsSpace(c) && IsWordChar(c)
    ensures IsLineBreak(c) ==> IsSpace(c)
  {
  }

  /** `str.lower()` on one character: ASCII and Latin-1 capitals map to their small letters. */
  function LowerChar(c: char): char {
    if 'A' <= c <= 'Z' || ('\U{C0}' <= c <= '\U{DE}' && c != '\U{D7}') then
      (c as int + 32) as char
    else
      c
  }

  /** `str.lower()`: a length-preserving, per-character map. */
  function Lower(s: string): (r: string)
    ensures |r| == |s|
    ensures forall i :: 0 <= i < |s| ==> r[i] == LowerChar(s[i])
  {
    seq(|s|, i requires 0 <= i < |s| => LowerChar(s[i]))
  }

  // ---------------------------------------------------------------------
  // Scanning
  // ---------------------------------------------------------------------

  /** The end of the longest run of `p`-characters starting at `i`. */
  function SkipWhile(s: string, i: nat, p: char -> bool): (j: nat)
    requires i <= |s|
    ensures i <= j <= |s|
    ensures forall k :: i <= k < j ==> p(s[k])
    ensures j == |s| || !p(s[j])
    decreases |s| - i
  {
    if i == |s| || !p(s[i]) then i else SkipWhile(s, i + 1, p)
  }

  /** The start of the longest run of `p`-characters ending at `j`. */
  function SkipBackWhile(s: string, j: nat, p: char -> bool): (i: nat)
    requires j <= |s|
    ensures i <= j
    ensures forall k :: i <= k < j ==> p(s[k])
    ensures i == 0 || !p(s[i - 1])
  {
    if j == 0 || !p(s[j - 1]) then j else SkipBackWhile(s, j - 1, p)
  }

  /** A run of `p`-characters that cannot be extended to the right is the one `SkipWhile` finds. */
  lemma SkipWhileUnique(s: string, i: nat, j: nat, p: char -> bool)
    requires i <= j <= |s|
    requires forall k :: i <= k < j ==> p(s[k])
    requires j == |s| || !p(s[j])
    ensures SkipWhile(s, i, p) == j
  {
  }

  /** `SkipWhile` stops at the first character that is not a `p`-character. */
  lemma SkipWhileStops(s: string, i: nat, j: nat, p: char -> bool)
    requires i <= j < |s| && !p(s[j])
    ensures SkipWhile(s, i, p) <= j
  {
  }

  /** A run of `p`-characters that cannot be extended to the left is the one `SkipBackWhile` finds. */
  lemma SkipBackWhileUnique(s: string, i: nat, j: nat, p: char -> bool)
    requires i <= j <= |s|
    requires forall k :: i <= k < j ==> p(s[k])
    requires i == 0 || !p(s[i - 1])
    ensures SkipBackWhile(s, j, p) == i
  {
  }

  /** A run of `p`-characters from `i` to `j` is passed over by `SkipWhile`. */
  lemma {:induction false} SkipWhileCovers(s: string, i: nat, j: nat, p: char -> bool)
    requires i <= j <= |s|
    requires forall k :: i <= k < j ==> p(s[k])
    ensures SkipWhile(s, i, p) >= j
    decreases j - i
  {
    if i < j {
      SkipWhileCovers(s, i + 1, j, p);
    }
  }

  /** A run of `p`-characters from `i` to `j` is passed over by `SkipBackWhile`. */
  lemma {:induction false} SkipBackWhileCovers(s: string, i: nat, j: nat, p: char -> bool)
    requires i <= j <= |s|
    requires forall k :: i <= k < j ==> p(s[k])
    ensures SkipBackWhile(s, j, p) <= i
    decreases j - i
  {
    if i < j {
      SkipBackWhileCovers(s, i, j - 1, p);
    }
  }

  predicate All(s: string, p: char -> bool) {
    forall k :: 0 <= k < |s| ==> p(s[k])
  }

  // ---------------------------------------------------------------------
  // strip
  // ---------------------------------------------------------------------

  /** `s.strip(chars)` where `p` says which characters belong to `chars`. */
  function StripBy(s: string, p: char -> bool): (r: string)
    ensures |r| <= |s|
    ensures r == [] || (!p(r[0]) && !p(r[|r| - 1]))
    ensures exists lo, hi ::
              0 <= lo <= hi <= |s| && r == s[lo..hi] && All(s[..lo], p) && All(s[hi..], p)
  {
    var lo := SkipWhile(s, 0, p);
    if lo == |s| then
      assert s == s[0..0] + s[0..];
      s[0..0]
    else
      var hi := SkipBackWhile(s, |s|, p);
      assert lo < hi by {
        assert !p(s[lo]);
      }
      s[lo..hi]
  }

  /** `s.strip()`: removes leading and trailing whitespace. */
  function Strip(s: string): (r: string) {
    StripBy(s, IsSpace)
  }

  /** A whitespace-only string strips to nothing. */
  lemma StripAllSpace(s: string)
    requires All(s, IsSpace)
    ensures Strip(s) == []
  {
  }

  /** A string whose ends are not whitespace is its own `strip()`. */
  lemma StripKeeps(s: string)
    requires |s| > 0 && !IsSpace(s[0]) && !IsSpace(s[|s| - 1])
    ensures Strip(s) == s
  {
    SkipWhileUnique(s, 0, 0, IsSpace);
    SkipBackWhileUnique(s, |s|, |s|, IsSpace);
  }

  /** Indentation and trailing blanks around a word are what `strip()` removes. */
  lemma StripPadded(pad: string, s: string)
    requires All(pad, IsSpace) && |s| > 0 && !IsSpace(s[0]) && !IsSpace(s[|s| - 1])
    ensures Strip(pad + s) == s
  {
    var t := pad + s;
    SkipWhileUnique(t, 0, |pad|, IsSpace);
    SkipBackWhileUnique(t, |t|, |t|, IsSpace);
    assert t[|pad|..|t|] == s;
  }

  /** A string with a character that is not whitespace does not strip to nothing. */
  lemma StripNonBlank(s: string, k: nat)
    requires k < |s| && !IsSpace(s[k])
    ensures Strip(s) != []
  {
    var lo, hi :| 0 <= lo <= hi <= |s| && Strip(s) == s[lo..hi] && All(s[..lo], IsSpace) && All(s[hi..], IsSpace);
    if lo == hi {
      if k < lo {
        assert s[..lo][k] == s[k];
      } else {
        assert s[hi..][k - hi] == s[k];
      }
    }
  }

  // ---------------------------------------------------------------------
  // find, in, count
  // ---------------------------------------------------------------------

  /** `w` occurs in `s` starting at index `k`. */
  predicate OccursAt(s: string, w: string, k: nat) {
    k + |w| <= |s| && AgreeFrom(s, w, k, 0)
  }

  lemma OccursAtSlice(s: string, w: string, k: nat)
    ensures OccursAt(s, w, k) <==> k + |w| <= |s| && s[k..k + |w|] == w
  {
    if k + |w| <= |s| {
      AgreeFromIff(s, w, k, 0);
    }
  }

  /** `s[k + j..]` starts with `w[j..]`, compared one character at a time. */
  predicate AgreeFrom(s: string, w: string, k: nat, j: nat)
    requires k + |w| <= |s| && j <= |w|
    decreases |w| - j
  {
    j == |w| || (s[k + j] == w[j] && AgreeFrom(s, w, k, j + 1))
  }

  lemma {:induction false} AgreeFromIff(s: string, w: string, k: nat, j: nat)
    requires k + |w| <= |s| && j <= |w|
    ensures AgreeFrom(s, w, k, j) <==> s[k + j..k + |w|] == w[j..]
    decreases |w| - j
  {
    if j < |w| {
      AgreeFromIff(s, w, k, j + 1);
      assert s[k + j..k + |w|] == [s[k + j]] + s[k + j + 1..k + |w|];
      assert w[j..] == [w[j]] + w[j + 1..];
    }
  }

  /** `s.find(w, i)`: the first occurrence of `w` at or after `i`, or -1. */
  function FindFrom(s: string, w: string, i: nat): (r: int)
    ensures r == -1 || (i <= r && OccursAt(s, w, r))
    ensures r == -1 ==> forall k :: i <= k ==> !OccursAt(s, w, k)
    ensures r != -1 ==> forall k :: i <= k < r ==> !OccursAt(s, w, k)
    decreases |s| - i
  {
    if i + |w| > |s| then -1
    else if OccursAt(s, w, i) then i
    else FindFrom(s, w, i + 1)
  }

  /** `s.find(w)`. */
  function Find(s: string, w: string): (r: int) {
    FindFrom(s, w, 0)
  }

  /** `w in s`. */
  predicate Contains(s: string, w: string) {
    Find(s, w) != -1
  }

  lemma ContainsIff(s: string, w: string)
    ensures Contains(s, w) <==> exists k :: OccursAt(s, w, k)
  {
  }

  /** `s.count(w)` restricted to `s[i..]`: non-overlapping occurrences, scanning left to right. */
  function CountFrom(s: string, w: string, i: nat): (n: nat)
    requires i <= |s|
    decreases |s| - i
  {
    if |w| == 0 then |s| - i + 1
    else if i + |w| > |s| then 0
    else if OccursAt(s, w, i) then 1 + CountFrom(s, w, i + |w|)
    else CountFrom(s, w, i + 1)
  }

  /** `s.count(w)`. */
  function Count(s: string, w: string): (n: nat) {
    CountFrom(s, w, 0)
  }

  /** A non-empty word is counted at least once exactly when it occurs at or after `i`. */
  lemma {:induction false} CountFromPositive(s: string, w: string, i: nat)
    requires i <= |s| && |w| > 0
    ensures CountFrom(s, w, i) > 0 <==> FindFrom(s, w, i) != -1
    decreases |s| - i
  {
    if i + |w| <= |s| && !OccursAt(s, w, i) {
      CountFromPositive(s, w, i + 1);
    }
  }

  lemma CountPositive(s: string, w: string)
    requires |w| > 0
    ensures Count(s, w) > 0 <==> Contains(s, w)
  {
    CountFromPositive(s, w, 0);
  }

  // ---------------------------------------------------------------------
  // splitlines
  // ---------------------------------------------------------------------

  /** Where the line after the break at `e` starts; `\r\n` is one break. */
  function NextLineStart(s: string, e: nat): (n: nat)
    requires e < |s|
    ensures e < n <= |s|
  {
    if s[e] == '\r' && e + 1 < |s| && s[e + 1] == '\n' then e + 2 else e + 1
  }

  /** `s[i..].splitlines()`. */
  function LinesFrom(s: string, i: nat): (lines: seq<string>)
    requires i <= |s|
    decreases |s| - i
  {
    if i == |s| then []
    else
      var e := SkipWhile(s, i, IsLineChar);
      if e == |s| then [s[i..]] else [s[i..e]] + LinesFrom(s, NextLineStart(s, e))
  }

  /** `s.splitlines()`: the lines of `s` without their terminators; no trailing empty line. */
  function SplitLines(s: string): (lines: seq<string>) {
    LinesFrom(s, 0)
  }

  /** No line that `splitlines` produces holds a line break. */
  lemma {:induction false} LinesFromHaveNoBreaks(s: string, i: nat)
    requires i <= |s|
    ensures forall n :: 0 <= n < |LinesFrom(s, i)| ==> All(LinesFrom(s, i)[n], IsLineChar)
    decreases |s| - i
  {
    if i < |s| {
      var e := SkipWhile(s, i, IsLineChar);
      if e < |s| {
        LinesFromHaveNoBreaks(s, NextLineStart(s, e));
      }
    }
  }

  /**
   * The lines hold exactly the characters of `s[i..]` that are not line breaks,
   * in order: splitting loses nothing but the terminators.
   */
  lemma {:induction false} LinesFromKeepText(s: string, i: nat)
    requires i <= |s|
    ensures Concat(LinesFrom(s, i)) == Filter(s[i..], IsLineChar)
    decreases |s| - i
  {
    if i < |s| {
      var e := SkipWhile(s, i, IsLineChar);
      if e == |s| {
        LastLineKeepsText(s, i);
      } else {
        var n := NextLineStart(s, e);
        LinesFromKeepText(s, n);
        InnerLineKeepsText(s, i, e, n);
      }
    }
  }

  lemma LastLineKeepsText(s: string, i: nat)
    requires i < |s| && SkipWhile(s, i, IsLineChar) == |s|
    ensures Concat(LinesFrom(s, i)) == Filter(s[i..], IsLineChar)
  {
    assert LinesFrom(s, i) == [s[i..]];
    FilterAll(s[i..], IsLineChar);
    ConcatCons(s[i..], []);
  }

  lemma InnerLineKeepsText(s: string, i: nat, e: nat, n: nat)
    requires i < |s| && e == SkipWhile(s, i, IsLineChar) && e < |s| && n == NextLineStart(s, e)
    requires Concat(LinesFrom(s, n)) == Filter(s[n..], IsLineChar)
    ensures Concat(LinesFrom(s, i)) == Filter(s[i..], IsLineChar)
  {
    assert LinesFrom(s, i) == [s[i..e]] + LinesFrom(s, n);
    FilterAll(s[i..e], IsLineChar);
    FilterNone(s[e..n], IsLineChar);
    SplitFilter(s, i, e, n);
    ConcatCons(s[i..e], LinesFrom(s, n));
  }

  lemma SplitFilter(s: string, i: nat, e: nat, n: nat)
    requires i <= e <= n <= |s|
    requires Filter(s[e..n], IsLineChar) == []
    requires Filter(s[i..e], IsLineChar) == s[i..e]
    ensures Filter(s[i..], IsLineChar) == s[i..e] + Filter(s[n..], IsLineChar)
  {
    SliceAt(s, i, e);
    SliceAt(s, e, n);
    FilterAppend(s[i..e], s[e..], IsLineChar);
    FilterAppend(s[e..n], s[n..], IsLineChar);
  }

  /** The text from `i` is its piece up to `e` followed by the text from `e`. */
  lemma SliceAt(s: string, i: nat, e: nat)
    requires i <= e <= |s|
    ensures s[i..] == s[i..e] + s[e..]
  {
  }

  lemma ConcatCons(a: string, rest: seq<string>)
    ensures Concat([a] + rest) == a + Concat(rest)
  {
    assert ([a] + rest)[1..] == rest;
  }

  function Concat(lines: seq<string>): string {
    if lines == [] then [] else lines[0] + Concat(lines[1..])
  }

  /** The characters of `s` that satisfy `p`, in order. */
  function Filter(s: string, p: char -> bool): (r: string) {
    if s == [] then [] else (if p(s[0]) then [s[0]] else []) + Filter(s[1..], p)
  }

  lemma {:induction false} FilterAppend(a: string, b: string, p: char -> bool)
    ensures Filter(a + b, p) == Filter(a, p) + Filter(b, p)
  {
    if a == [] {
      assert a + b == b;
    } else {
      var h := if p(a[0]) then [a[0]] else [];
      assert (a + b)[0] == a[0];
      assert (a + b)[1..] == a[1..] + b;
      assert Filter(a + b, p) == h + Filter(a[1..] + b, p);
      FilterAppend(a[1..], b, p);
      assert h + (Filter(a[1..], p) + Filter(b, p)) == (h + Filter(a[1..], p)) + Filter(b, p);
    }
  }

  lemma {:induction false} FilterAll(a: string, p: char -> bool)
    requires All(a, p)
    ensures Filter(a, p) == a
  {
    if a != [] {
      FilterAll(a[1..], p);
    }
  }

  lemma {:induction false} FilterNone(a: string, p: char -> bool)
    requires forall k :: 0 <= k < |a| ==> !p(a[k])
    ensures Filter(a, p) == []
  {
    if a != [] {
      FilterNone(a[1..], p);
    }
  }

  // ---------------------------------------------------------------------
  // split, join, replace, slicing
  // ---------------------------------------------------------------------

  /** `s.split(sep)` for a one-character separator: never empty, pieces free of `sep`. */
  function Split(s: string, sep: char): (pieces: seq<string>)
    ensures |pieces| >= 1
    ensures forall n :: 0 <= n < |pieces| ==> sep !in pieces[n]
  {
    if sep !in s then [s]
    else
      var k := FirstIndexOf(s, sep);
      [s[..k]] + Split(s[k + 1..], sep)
  }

  function FirstIndexOf(s: string, c: char): (k: nat)
    requires c in s
    ensures k < |s| && s[k] == c && c !in s[..k]
  {
    if s[0] == c then 0 else 1 + FirstIndexOf(s[1..], c)
  }

  /** A position holding `c` with no `c` before it is the first index of `c`. */
  lemma FirstIndexOfAt(s: string, c: char, k: nat)
    requires k < |s| && s[k] == c && c !in s[..k]
    ensures FirstIndexOf(s, c) == k
  {
  }

  /** `sep.join(pieces)`. */
  function Join(pieces: seq<string>, sep: string): (r: string) {
    if pieces == [] then []
    else if |pieces| == 1 then pieces[0]
    else pieces[0] + sep + Join(pieces[1..], sep)
  }

  /** Joining a piece in front of more pieces puts the separator between them. */
  lemma JoinCons(p: string, rest: seq<string>, sep: string)
    requires rest != []
    ensures Join([p] + rest, sep) == p + sep + Join(rest, sep)
  {
    assert ([p] + rest)[1..] == rest;
  }

  /** The character of `r` at `x`. */
  function CharAt(r: string, x: nat): char
    requires x < |r|
  {
    r[x]
  }

  /**
   * `r` is the text `s` from position `k` on (stated through `CharAt`, so
   * that it is used only where a proof asks for it).
   */
  predicate ShiftedBy(s: string, r: string, k: nat) {
    |s| == k + |r| && forall x: nat :: x < |r| ==> CharAt(r, x) == s[k + x]
  }

  /** Skipping line characters from `k + i` in `s` skips them from `i` in `r`. */
  lemma ShiftSkip(s: string, r: string, k: nat, i: nat)
    requires ShiftedBy(s, r, k) && i <= |r|
    ensures SkipWhile(s, k + i, IsLineChar) == k + SkipWhile(r, i, IsLineChar)
  {
    var e := SkipWhile(r, i, IsLineChar);
    forall y | k + i <= y < k + e
      ensures IsLineChar(s[y])
    {
      assert s[y] == CharAt(r, y - k);
    }
    if k + e < |s| {
      assert s[k + e] == CharAt(r, e);
    }
    SkipWhileUnique(s, k + i, k + e, IsLineChar);
  }

  /** A piece of `r` is the same piece of `s`, shifted by `k`. */
  lemma ShiftSlice(s: string, r: string, k: nat, i: nat, e: nat)
    requires ShiftedBy(s, r, k) && i <= e <= |r|
    ensures s[k + i..k + e] == r[i..e]
  {
    forall x | 0 <= x < e - i
      ensures s[k + i..k + e][x] == r[i..e][x]
    {
      assert CharAt(r, i + x) == s[k + (i + x)];
    }
  }

  /** The line after a break at `e` in `r` starts where it does in `s`, shifted by `k`. */
  lemma ShiftNext(s: string, r: string, k: nat, e: nat)
    requires ShiftedBy(s, r, k) && e < |r|
    ensures NextLineStart(s, k + e) == k + NextLineStart(r, e)
  {
    assert s[k + e] == CharAt(r, e);
    if e + 1 < |r| {
      assert s[k + e + 1] == CharAt(r, e + 1);
    }
  }

  /**
   * When `r` is `s` from `k` on and their lines after the break ending at `e`
   * agree, so do their lines from `i`.
   */
  lemma ShiftLine(s: string, r: string, k: nat, i: nat, e: nat)
    requires ShiftedBy(s, r, k) && i <= e < |r|
    requires SkipWhile(r, i, IsLineChar) == e
    requires LinesFrom(s, k + NextLineStart(r, e)) == LinesFrom(r, NextLineStart(r, e))
    ensures LinesFrom(s, k + i) == LinesFrom(r, i)
  {
    ShiftSkip(s, r, k, i);
    ShiftSlice(s, r, k, i, e);
    ShiftNext(s, r, k, e);
  }

  /** The lines of `s` from `k + i` are the lines of `r` from `i`. */
  lemma {:induction false} LinesFromShift(s: string, r: string, k: nat, i: nat)
    requires ShiftedBy(s, r, k) && i <= |r|
    ensures LinesFrom(s, k + i) == LinesFrom(r, i)
    decreases |r| - i
  {
    if i < |r| {
      var e := SkipWhile(r, i, IsLineChar);
      if e < |r| {
        LinesFromShift(s, r, k, NextLineStart(r, e));
        ShiftLine(s, r, k, i, e);
      } else {
        ShiftSkip(s, r, k, i);
        ShiftSlice(s, r, k, i, e);
        assert s[k + i..] == s[k + i..k + e];
        assert r[i..] == r[i..e];
      }
    }
  }

  /** A line free of breaks, a line feed and a text split into that line and the text's lines. */
  lemma SplitLinesCons(p: string, j: string)
    requires All(p, IsLineChar)
    ensures SplitLines(p + "\n" + j) == [p] + SplitLines(j)
  {
    var s := p + "\n" + j;
    assert s[|p|] == '\n';
    SkipWhileUnique(s, 0, |p|, IsLineChar);
    assert s[0..|p|] == p;
    assert NextLineStart(s, |p|) == |p| + 1 + 0;
    LinesFromShift(s, j, |p| + 1, 0);
  }

  /**
   * Lines free of breaks, joined with line feeds, split back into the same
   * lines, provided the last is not empty (`splitlines` drops a trailing
   * empty line).
   */
  lemma {:induction false} SplitLinesJoin(ps: seq<string>)
    requires |ps| > 0 && ps[|ps| - 1] != []
    requires forall i :: 0 <= i < |ps| ==> All(ps[i], IsLineChar)
    ensures SplitLines(Join(ps, "\n")) == ps
  {
    var p := ps[0];
    if |ps| == 1 {
      SkipWhileUnique(p, 0, |p|, IsLineChar);
      assert p[0..] == p;
    } else {
      var rest := ps[1..];
      assert ps == [p] + rest;
      JoinCons(p, rest, "\n");
      SplitLinesCons(p, Join(rest, "\n"));
      SplitLinesJoin(rest);
    }
  }

  /** Each piece of a join stands between what comes before it and what comes after. */
  lemma {:induction false} JoinHasPiece(ps: seq<string>, i: nat, sep: string)
    requires i < |ps|
    ensures exists a, b :: Join(ps, sep) == a + ps[i] + b
  {
    if |ps| == 1 {
      assert Join(ps, sep) == [] + ps[0] + [];
    } else {
      var rest := ps[1..];
      assert ps == [ps[0]] + rest;
      JoinCons(ps[0], rest, sep);
      if i == 0 {
        assert Join(ps, sep) == [] + ps[0] + (sep + Join(rest, sep));
      } else {
        JoinHasPiece(rest, i - 1, sep);
        var a, b :| Join(rest, sep) == a + rest[i - 1] + b;
        assert Join(ps, sep) == (ps[0] + sep + a) + ps[i] + b;
      }
    }
  }

  /** A word found in the lower-cased middle of a text is found in the lower-cased text. */
  lemma ContainsWithin(a: string, p: string, b: string, w: string)
    requires Contains(Lower(p), w)
    ensures Contains(Lower(a + p + b), w)
  {
    var lp := Lower(p);
    var big := Lower(a + p + b);
    ContainsIff(lp, w);
    var k': nat :| OccursAt(lp, w, k');
    OccursAtSlice(lp, w, k');
    forall j | 0 <= j < |w|
      ensures big[|a| + k' + j] == w[j]
    {
      assert (a + p + b)[|a| + k' + j] == p[k' + j];
      assert lp[k' + j] == w[j];
    }
    assert big[|a| + k'..|a| + k' + |w|] == w;
    OccursAtSlice(big, w, |a| + k');
    ContainsIff(big, w);
  }

  /** A word found in one lower-cased piece of a join is found in the lower-cased join. */
  lemma ContainsInPiece(ps: seq<string>, i: nat, sep: string, w: string)
    requires i < |ps| && Contains(Lower(ps[i]), w)
    ensures Contains(Lower(Join(ps, sep)), w)
  {
    JoinHasPiece(ps, i, sep);
    var a, b :| Join(ps, sep) == a + ps[i] + b;
    ContainsWithin(a, ps[i], b, w);
  }

  /** Joining the pieces of a split with the separator gives back the text. */
  lemma {:induction false} SplitJoin(s: string, sep: char)
    ensures Join(Split(s, sep), [sep]) == s
  {
    if sep in s {
      var k := FirstIndexOf(s, sep);
      var rest := Split(s[k + 1..], sep);
      SplitJoin(s[k + 1..], sep);
      assert Split(s, sep) == [s[..k]] + rest;
      JoinCons(s[..k], rest, [sep]);
      assert s == s[..k] + [sep] + s[k + 1..];
    }
  }

  /** Python's slice `s[lo:hi]` with non-negative bounds: clamped to the string. */
  function Slice(s: string, lo: nat, hi: nat): (r: string)
    ensures |r| == (if lo < hi && lo < |s| then Min(hi, |s|) - lo else 0)
    ensures lo < hi && lo < |s| ==> r == s[lo..Min(hi, |s|)]
  {
    if lo < hi && lo < |s| then s[lo..Min(hi, |s|)] else []
  }

  function Min(a: int, b: int): int {
    if a <= b then a else b
  }

  /** `s.replace(a, b)` for single characters. */
  function ReplaceChar(s: string, a: char, b: char): (r: string)
    ensures |r| == |s|
    ensures forall i :: 0 <= i < |s| ==> r[i] == (if s[i] == a then b else s[i])
  {
    seq(|s|, i requires 0 <= i < |s| => if s[i] == a then b else s[i])
  }
}
