/**
 * The invoice total (`extract_invoice_data`, app/ai_utils.py): the last
 * number on the last line that mentions "total" and holds a number, else
 * the last number in the whole text, else nothing. A number is what
 * `re.findall(r"(\d[\d\.,]*)", ...)` yields: a digit followed by digits,
 * dots and commas.
 */
module Totals {
  import opened Wrappers
  import opened Text
  import opened Patterns
  import opened Scan
  import Numbers

  /** `[\d\.,]`. */
  predicate IsTokChar(c: char) {
    IsDigit(c) || c == '.' || c == ','
  }

  /** A number `findall` yields, at `g`: a digit, then as many number characters as follow. */
  predicate IsToken(L: string, g: Span) {
    && g.lo < g.hi <= |L| && IsDigit(L[g.lo]) && AllIn(L, g.lo, g.hi, IsTokChar)
    && (g.hi == |L| || !IsTokChar(L[g.hi]))
  }

  predicate HasDigit(s: string) {
    exists k :: 0 <= k < |s| && IsDigit(s[k])
  }

  /**
   * `re.findall(r"(\d[\d\.,]*)", L[i..])` as spans: the next digit starts a
   * number, which runs greedily, and the search resumes after it.
   */
  function TokensFrom(L: string, i: nat): (r: seq<Span>)
    requires i <= |L|
    ensures forall k :: 0 <= k < |r| ==> i <= r[k].lo && IsToken(L, r[k])
    decreases |L| - i
  {
    var d := SkipWhile(L, i, NotDigit);
    if d == |L| then []
    else
      var e := SkipWhile(L, d + 1, IsTokChar);
      [Span(d, e)] + TokensFrom(L, e)
  }

  /** `nums[-1].strip()` where `nums = re.findall(...)`, or empty when there is no number. */
  function LastToken(L: string): string {
    var ts := TokensFrom(L, 0);
    if ts == [] then [] else Strip(L[ts[|ts| - 1].lo..ts[|ts| - 1].hi])
  }

  /**
   * `findall` finds nothing exactly when there is no digit; otherwise its
   * last number reaches past every digit of the text.
   */
  lemma {:induction false} TokensCoverDigits(L: string, i: nat)
    requires i <= |L|
    ensures TokensFrom(L, i) == [] <==> forall k :: i <= k < |L| ==> !IsDigit(L[k])
    ensures TokensFrom(L, i) != [] ==>
      forall k :: i <= k < |L| && IsDigit(L[k]) ==> k < TokensFrom(L, i)[|TokensFrom(L, i)| - 1].hi
    decreases |L| - i
  {
    var d := SkipWhile(L, i, NotDigit);
    if d < |L| {
      var e := SkipWhile(L, d + 1, IsTokChar);
      TokensCoverDigits(L, e);
      var ts := TokensFrom(L, i);
      assert ts == [Span(d, e)] + TokensFrom(L, e);
      assert IsDigit(L[d]);
    }
  }

  /**
   * The numbers are exactly the ones `findall` scans: in order and apart,
   * the first starting at the first digit from `i`, each next one at the
   * first digit after the one before, and every digit inside one of them.
   */
  lemma TokensExact(L: string, i: nat)
    requires i <= |L|
    ensures var r := TokensFrom(L, i);
      && (r != [] ==> AllIn(L, i, r[0].lo, NotDigit))
      && Apart(L, r)
      && (forall j :: i <= j < |L| && IsDigit(L[j]) ==> Covered(r, j))
  {
    TokensFirst(L, i);
    TokensApart(L, i);
    TokensCover(L, i);
  }

  /** The first number starts at the first digit from `i`. */
  lemma TokensFirst(L: string, i: nat)
    requires i <= |L|
    ensures var r := TokensFrom(L, i); r != [] ==> AllIn(L, i, r[0].lo, NotDigit)
  {
    var d := SkipWhile(L, i, NotDigit);
    if d < |L| {
      var e := SkipWhile(L, d + 1, IsTokChar);
      assert TokensFrom(L, i)[0] == Span(d, e);
    }
  }

  /** Each span of `r` ends before the next starts, with no digit of `L` between them. */
  predicate Apart(L: string, r: seq<Span>) {
    forall k :: 0 <= k < |r| - 1 ==> r[k].hi < r[k + 1].lo && AllIn(L, r[k].hi, r[k + 1].lo, NotDigit)
  }

  /** One number ends before the next starts, with no digit between them. */
  lemma {:induction false} TokensApart(L: string, i: nat)
    requires i <= |L|
    ensures Apart(L, TokensFrom(L, i))
    decreases |L| - i
  {
    var d := SkipWhile(L, i, NotDigit);
    if d < |L| {
      var e := SkipWhile(L, d + 1, IsTokChar);
      var rest := TokensFrom(L, e);
      assert TokensFrom(L, i) == [Span(d, e)] + rest;
      TokensApart(L, e);
      if rest != [] {
        TokensFirst(L, e);
        assert e < |L| && !IsDigit(L[e]);
      }
      ApartCons(L, Span(d, e), rest);
    }
  }

  lemma ApartCons(L: string, g: Span, rest: seq<Span>)
    requires Apart(L, rest)
    requires rest != [] ==> g.hi < rest[0].lo && AllIn(L, g.hi, rest[0].lo, NotDigit)
    ensures Apart(L, [g] + rest)
  {
    var r := [g] + rest;
    forall k | 0 <= k < |r| - 1
      ensures r[k].hi < r[k + 1].lo && AllIn(L, r[k].hi, r[k + 1].lo, NotDigit)
    {
      assert r[k + 1] == rest[k];
      if k > 0 {
        assert r[k] == rest[k - 1];
      }
    }
  }

  /** Position `j` lies inside one of the spans `r`. */
  predicate Covered(r: seq<Span>, j: nat) {
    exists k :: 0 <= k < |r| && r[k].lo <= j < r[k].hi
  }

  /** Every digit from `i` on lies inside one of the numbers. */
  lemma {:induction false} TokensCover(L: string, i: nat)
    requires i <= |L|
    ensures var r := TokensFrom(L, i); forall j :: i <= j < |L| && IsDigit(L[j]) ==> Covered(r, j)
    decreases |L| - i
  {
    var d := SkipWhile(L, i, NotDigit);
    if d < |L| {
      var e := SkipWhile(L, d + 1, IsTokChar);
      var rest := TokensFrom(L, e);
      var r := TokensFrom(L, i);
      assert r == [Span(d, e)] + rest;
      TokensCover(L, e);
      forall j | i <= j < |L| && IsDigit(L[j])
        ensures Covered(r, j)
      {
        CoveredCons(Span(d, e), rest, j);
      }
    }
  }

  lemma CoveredCons(g: Span, rest: seq<Span>, j: nat)
    requires g.lo <= j < g.hi || Covered(rest, j)
    ensures Covered([g] + rest, j)
  {
    var r := [g] + rest;
    if !(g.lo <= j < g.hi) {
      var k :| 0 <= k < |rest| && rest[k].lo <= j < rest[k].hi;
      assert r[k + 1] == rest[k];
    } else {
      assert r[0] == g;
    }
  }

  /**
   * No number of the text can be stretched to the left: reading number
   * characters back from where it starts never reaches a digit.
   */
  lemma TokenStartsRun(L: string, t: nat)
    requires t < |TokensFrom(L, 0)|
    ensures var lo := TokensFrom(L, 0)[t].lo;
      forall k: nat :: k < lo && AllIn(L, k, lo, IsTokChar) ==> !IsDigit(L[k])
  {
    var r := TokensFrom(L, 0);
    if t == 0 {
      TokensFirst(L, 0);
      NoRunIntoGap(L, 0, r[0].lo);
    } else {
      TokensApart(L, 0);
      assert r[t - 1].hi < r[t].lo && AllIn(L, r[t - 1].hi, r[t].lo, NotDigit);
      assert IsToken(L, r[t - 1]);
      NoRunIntoGap(L, r[t - 1].hi, r[t].lo);
    }
  }

  /**
   * A run of number characters that ends at `lo` cannot start with a digit
   * when the characters from `p` to `lo` are no digits and `p` is the start
   * of the text or a character that is not a number character.
   */
  lemma NoRunIntoGap(L: string, p: nat, lo: nat)
    requires AllIn(L, p, lo, NotDigit)
    requires p == 0 || (p < lo && !IsTokChar(L[p]))
    ensures forall k: nat :: k < lo && AllIn(L, k, lo, IsTokChar) ==> !IsDigit(L[k])
  {
  }

  /** A number cut out of the text keeps its characters and has nothing for `strip` to remove. */
  lemma TokenText(L: string, g: Span)
    requires IsToken(L, g)
    ensures var w := L[g.lo..g.hi]; Strip(w) == w && IsDigit(w[0]) && All(w, IsTokChar)
  {
    TokenChars(L, g);
    NumberStripped(L[g.lo..g.hi]);
  }

  lemma TokenChars(L: string, g: Span)
    requires IsToken(L, g)
    ensures var w := L[g.lo..g.hi]; IsDigit(w[0]) && All(w, IsTokChar)
  {
    var w := L[g.lo..g.hi];
    assert forall k :: 0 <= k < |w| ==> w[k] == L[g.lo + k];
  }

  /** A number starts and ends with a non-space, so `strip` keeps it whole. */
  lemma NumberStripped(w: string)
    requires w != [] && IsDigit(w[0]) && All(w, IsTokChar)
    ensures Strip(w) == w
  {
    assert IsTokChar(w[|w| - 1]);
    assert "" + w == w;
    StripPadded("", w);
  }

  /** The last number is empty exactly when there is no digit, and otherwise a number. */
  lemma LastTokenShape(L: string)
    ensures LastToken(L) == [] <==> !HasDigit(L)
    ensures LastToken(L) != [] ==> IsDigit(LastToken(L)[0]) && All(LastToken(L), IsTokChar)
  {
    TokensCoverDigits(L, 0);
    var ts := TokensFrom(L, 0);
    if ts != [] {
      TokenText(L, ts[|ts| - 1]);
      assert IsDigit(L[ts[0].lo]);
    }
  }

  // ---------------------------------------------------------------------
  // The total
  // ---------------------------------------------------------------------

  /** What one line contributes: its last number when it mentions a total, else nothing. */
  function LineTotal(line: string): string {
    var lower := Lower(line);
    if Contains(lower, "importe total") || Contains(lower, "total") then LastToken(line) else []
  }

  /** The loop over the lines: each line that yields a number overwrites the ones before. */
  function LinesTotal(lines: seq<string>): string {
    LastNonEmpty(lines, LineTotal)
  }

  /** The total `extract_invoice_data` reports. */
  function Total(text: string): string {
    var t := LinesTotal(SplitLines(text));
    if t != [] then t else LastToken(text)
  }

  /**
   * The total loop as the source writes it: over every line, keeping the
   * last number of each line that mentions a total; then, if none did, the
   * last number of the text.
   */
  method TotalOf(text: string) returns (total: string)
    ensures total == Total(text)
  {
    var lines := SplitLines(text);
    total := [];
    for i := 0 to |lines|
      invariant total == LinesTotal(lines[..i])
    {
      LinesTotalNext(lines, i);
      var t := LineTotalOf(lines[i]);
      if t != [] {
        total := t;
      }
    }
    assert lines[..|lines|] == lines;
    if total == [] {
      var nums := TokensFrom(text, 0);
      if |nums| > 0 {
        total := Strip(text[nums[|nums| - 1].lo..nums[|nums| - 1].hi]);
      }
    }
  }

  /** The body of the total loop for one line: its last number, if it mentions a total. */
  method LineTotalOf(line: string) returns (t: string)
    ensures t == LineTotal(line)
  {
    t := [];
    var lineLower := Lower(line);
    if Contains(lineLower, "importe total") || Contains(lineLower, "total") {
      var nums := TokensFrom(line, 0);
      if |nums| > 0 {
        t := Strip(line[nums[|nums| - 1].lo..nums[|nums| - 1].hi]);
      }
    }
  }

  /** One step of the loop: a line that yields a number replaces the total so far. */
  lemma LinesTotalNext(lines: seq<string>, i: nat)
    requires i < |lines|
    ensures LinesTotal(lines[..i + 1]) ==
      if LineTotal(lines[i]) != [] then LineTotal(lines[i]) else LinesTotal(lines[..i])
  {
    assert lines[..i + 1][..i] == lines[..i];
    assert lines[..i + 1][i] == lines[i];
  }

  // ---------------------------------------------------------------------
  // Properties
  // ---------------------------------------------------------------------

  /**
   * The lines are read in order and the last one that yields a number
   * wins: the result is empty exactly when no line yields one.
   */
  lemma LinesTotalIsLast(lines: seq<string>)
    ensures LinesTotal(lines) == [] <==> forall n :: 0 <= n < |lines| ==> LineTotal(lines[n]) == []
    ensures LinesTotal(lines) != [] ==>
      exists n :: 0 <= n < |lines| && LinesTotal(lines) == LineTotal(lines[n])
                  && forall m :: n < m < |lines| ==> LineTotal(lines[m]) == []
  {
    LastNonEmptyIsLast(lines, LineTotal);
  }

  /** Every character of a line `splitlines` produces is a character of the text. */
  lemma {:induction false} LinesFromChars(s: string, i: nat)
    requires i <= |s|
    ensures forall n, k :: 0 <= n < |LinesFrom(s, i)| && 0 <= k < |LinesFrom(s, i)[n]| ==>
      LinesFrom(s, i)[n][k] in s[i..]
    decreases |s| - i
  {
    if i < |s| {
      var e := SkipWhile(s, i, IsLineChar);
      if e < |s| {
        var next := NextLineStart(s, e);
        LinesFromChars(s, next);
        var lines := LinesFrom(s, i);
        assert lines == [s[i..e]] + LinesFrom(s, next);
        forall n, k | 0 <= n < |lines| && 0 <= k < |lines[n]|
          ensures lines[n][k] in s[i..]
        {
          if n == 0 {
            assert lines[n][k] == s[i..][k];
          } else {
            assert lines[n] == LinesFrom(s, next)[n - 1];
            var j :| 0 <= j < |s[next..]| && s[next..][j] == lines[n][k];
            assert s[i..][next - i + j] == s[next..][j];
          }
        }
      } else {
        assert LinesFrom(s, i) == [s[i..]];
      }
    }
  }

  /** A line of a text with no digit has none either, so yields no total. */
  lemma NoDigitNoLineTotal(text: string)
    requires !HasDigit(text)
    ensures LinesTotal(SplitLines(text)) == []
  {
    var lines := SplitLines(text);
    LinesFromChars(text, 0);
    assert text[0..] == text;
    forall n | 0 <= n < |lines|
      ensures LineTotal(lines[n]) == []
    {
      LastTokenShape(lines[n]);
    }
    LinesTotalIsLast(lines);
  }

  /**
   * The total is empty exactly when the text holds no digit; otherwise it
   * is a number: a digit followed by digits, dots and commas.
   */
  lemma TotalShape(text: string)
    ensures Total(text) == [] <==> !HasDigit(text)
    ensures Total(text) != [] ==> IsDigit(Total(text)[0]) && All(Total(text), IsTokChar)
  {
    LastTokenShape(text);
    var lines := SplitLines(text);
    if !HasDigit(text) {
      NoDigitNoLineTotal(text);
    }
    var t := LinesTotal(lines);
    if t != [] {
      LinesTotalIsLast(lines);
      var n :| 0 <= n < |lines| && t == LineTotal(lines[n])
               && forall m :: n < m < |lines| ==> LineTotal(lines[m]) == [];
      LastTokenShape(lines[n]);
    }
  }

  /**
   * A line that mentions a total and holds a digit takes precedence over
   * the fallback: the total is then read from the last such line.
   */
  lemma TotalLinePriority(text: string, n: nat)
    requires n < |SplitLines(text)| && LineTotal(SplitLines(text)[n]) != []
    ensures Total(text) != []
    ensures exists m :: n <= m < |SplitLines(text)| && Total(text) == LineTotal(SplitLines(text)[m])
  {
    var lines := SplitLines(text);
    LinesTotalIsLast(lines);
    var m :| 0 <= m < |lines| && LinesTotal(lines) == LineTotal(lines[m])
             && forall j :: m < j < |lines| ==> LineTotal(lines[j]) == [];
    assert n <= m;
  }
}
