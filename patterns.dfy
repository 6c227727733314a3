/**
 * The three line-item patterns of `_parse_invoice_items` (app/ai_utils.py),
 * each written as a deterministic matcher over one line of text.
 *
 * A pattern is described twice:
 *  - a `Shape` predicate: the set of ways the regular expression can match
 *    the whole line, one conjunct per piece of the pattern, with the named
 *    groups as spans of the line;
 *  - a matcher that scans the line and returns the groups.
 * Each matcher is proved sound (what it returns is a shape) and complete
 * with the regular expression's preference among several shapes
 * (greedy or lazy quantifiers), so it returns exactly the groups that
 * `re.match` reports.
 */
module Patterns {
  import opened Wrappers
  import opened Text

  /** The half-open index range `[lo, hi)` of a group in the line. */
  datatype Span = Span(lo: nat, hi: nat)

  /** The groups of the two patterns with a quantity. */
  datatype Groups = Groups(code: Span, desc: Span, qty: Span, price: Span, total: Span)

  /** The groups of the pattern without a quantity. */
  datatype NoQtyGroups = NoQtyGroups(code: Span, desc: Span, price: Span, total: Span)

  /** Every character of `s[lo..hi]` satisfies `p` (and the range is inside `s`). */
  predicate AllIn(s: string, lo: nat, hi: nat, p: char -> bool) {
    lo <= hi <= |s| && forall k :: lo <= k < hi ==> p(s[k])
  }

  predicate IsSep(c: char) {
    c == '.' || c == ','
  }

  predicate IsNumChar(c: char) {
    IsDigit(c) || IsSep(c)
  }

  /**
   * `s[lo..hi]` matches `\d+(?:[.,]\d*)?`: a digit first, then digits and
   * separators, with only digits after a separator (so at most one).
   */
  predicate IsNumber(s: string, lo: nat, hi: nat) {
    && lo < hi <= |s|
    && IsDigit(s[lo])
    && AllIn(s, lo, hi, IsNumChar)
    && forall k :: lo <= k < hi && IsSep(s[k]) ==> AllIn(s, k + 1, hi, IsDigit)
  }

  /** `s[lo..hi]` matches `\d+(?:[.,]\d{1,2})?`: a separator leaves one or two digits after it. */
  predicate IsNumber2(s: string, lo: nat, hi: nat) {
    && IsNumber(s, lo, hi)
    && forall k :: lo <= k < hi && IsSep(s[k]) ==> hi - 3 <= k <= hi - 2
  }

  /** The literal `Producto` under `re.IGNORECASE`. */
  const Producto: string := "producto"

  /** `s[at..]` starts with `w` ignoring case (`w` is lower case). */
  predicate WordCI(s: string, at: nat, w: string) {
    at + |w| <= |s| && forall k :: 0 <= k < |w| ==> LowerChar(s[at + k]) == w[k]
  }

  /** Two words in a row make their concatenation. */
  lemma WordCIAppend(s: string, at: nat, u: string, v: string)
    requires WordCI(s, at, u) && WordCI(s, at + |u|, v)
    ensures WordCI(s, at, u + v)
  {
    forall k | 0 <= k < |u + v|
      ensures LowerChar(s[at + k]) == (u + v)[k]
    {
      if k >= |u| {
        assert LowerChar(s[at + |u| + (k - |u|)]) == v[k - |u|];
      }
    }
  }

  /** `\w` never matches whitespace. */
  lemma WordCharIsNotSpace(c: char)
    ensures IsWordChar(c) ==> !IsSpace(c)
  {
  }

  // ---------------------------------------------------------------------
  // The tail shared by all three patterns: `\s+ price \s+ total \s*$`
  // ---------------------------------------------------------------------

  /**
   * The cut points at the end of a line: `e` ends its last non-space
   * character, `t0` starts the last token, `wt` starts the whitespace
   * before it, `p0` starts the token before that and `w` the whitespace
   * before `p0`.
   */
  datatype Cuts = Cuts(e: nat, t0: nat, wt: nat, p0: nat, w: nat)

  function TailCuts(line: string): (c: Cuts)
    ensures c.w <= c.p0 <= c.wt <= c.t0 <= c.e <= |line|
    ensures AllIn(line, c.e, |line|, IsSpace) && (c.e == 0 || !IsSpace(line[c.e - 1]))
    ensures AllIn(line, c.t0, c.e, NotSpace) && (c.t0 == 0 || IsSpace(line[c.t0 - 1]))
    ensures AllIn(line, c.wt, c.t0, IsSpace) && (c.wt == 0 || !IsSpace(line[c.wt - 1]))
    ensures AllIn(line, c.p0, c.wt, NotSpace) && (c.p0 == 0 || IsSpace(line[c.p0 - 1]))
    ensures AllIn(line, c.w, c.p0, IsSpace) && (c.w == 0 || !IsSpace(line[c.w - 1]))
  {
    var e := SkipBackWhile(line, |line|, IsSpace);
    var t0 := SkipBackWhile(line, e, NotSpace);
    var wt := SkipBackWhile(line, t0, IsSpace);
    var p0 := SkipBackWhile(line, wt, NotSpace);
    var w := SkipBackWhile(line, p0, IsSpace);
    Cuts(e, t0, wt, p0, w)
  }

  /** The trailing `\s+ price \s+ total \s*$` of a match. */
  predicate TailShape(line: string, w: nat, price: Span, total: Span) {
    && w < price.lo && AllIn(line, w, price.lo, IsSpace)
    && IsNumber(line, price.lo, price.hi)
    && price.hi < total.lo && AllIn(line, price.hi, total.lo, IsSpace)
    && IsNumber(line, total.lo, total.hi)
    && AllIn(line, total.hi, |line|, IsSpace)
  }

  /** The number chars are not whitespace. */
  lemma NumberNotSpace(s: string, lo: nat, hi: nat)
    requires IsNumber(s, lo, hi)
    ensures AllIn(s, lo, hi, NotSpace)
  {
    forall k | lo <= k < hi
      ensures NotSpace(s[k])
    {
      assert IsNumChar(s[k]);
    }
  }

  /**
   * Whatever the rest of a match, its tail is pinned down: the total is
   * the last token, the price the one before, and the whitespace before
   * the price starts where `TailCuts` says.
   */
  lemma TailIsFixed(line: string, w: nat, price: Span, total: Span)
    requires TailShape(line, w, price, total) && 0 < w && !IsSpace(line[w - 1])
    ensures TailCuts(line) == Cuts(total.hi, total.lo, price.hi, price.lo, w)
  {
    LastTokenFixed(line, price, total);
    NumberNotSpace(line, price.lo, price.hi);
    SkipBackWhileUnique(line, price.lo, price.hi, NotSpace);
    SkipBackWhileUnique(line, w, price.lo, IsSpace);
  }

  /** A number, whitespace and a final number: the last token and the gap before it are fixed. */
  lemma LastTokenFixed(line: string, price: Span, total: Span)
    requires IsNumber(line, price.lo, price.hi)
    requires price.hi < total.lo && AllIn(line, price.hi, total.lo, IsSpace)
    requires IsNumber(line, total.lo, total.hi) && AllIn(line, total.hi, |line|, IsSpace)
    ensures var c := TailCuts(line); c.e == total.hi && c.t0 == total.lo && c.wt == price.hi
  {
    NumberNotSpace(line, total.lo, total.hi);
    assert IsNumChar(line[total.hi - 1]) && IsNumChar(line[price.hi - 1]);
    SkipBackWhileUnique(line, total.hi, |line|, IsSpace);
    SkipBackWhileUnique(line, total.lo, total.hi, NotSpace);
    SkipBackWhileUnique(line, price.hi, total.lo, IsSpace);
  }

  // ---------------------------------------------------------------------
  // Pattern 1: Producto with a quantity
  //   ^\s*(Producto)\s*(\d+)\s*[^\d]*(\d+)\s+(NUM)\s+(NUM)\s*$   (IGNORECASE)
  // ---------------------------------------------------------------------

  /**
   * The matches of pattern 1 on `line`. `\s*[^\d]*` between the
   * description and the quantity matches the same strings as `[^\d]*`.
   */
  predicate ProductShape(line: string, m: Groups) {
    && AllIn(line, 0, m.code.lo, IsSpace)
    && m.code.hi == m.code.lo + |Producto| && WordCI(line, m.code.lo, Producto)
    && AllIn(line, m.code.hi, m.desc.lo, IsSpace)
    && m.desc.lo < m.desc.hi && AllIn(line, m.desc.lo, m.desc.hi, IsDigit)
    && AllIn(line, m.desc.hi, m.qty.lo, NotDigit)
    && m.qty.lo < m.qty.hi && AllIn(line, m.qty.lo, m.qty.hi, IsDigit)
    && TailShape(line, m.qty.hi, m.price, m.total)
  }

  /**
   * `_product_line_regex.match(line)`. The description is the longest digit
   * run the rest of the pattern allows: with one run of digits before the
   * price, the quantity is its last digit.
   */
  function MatchProduct(line: string): (r: Option<Groups>)
    ensures r.Some? ==> ProductShape(line, r.value)
  {
    var s0 := SkipWhile(line, 0, IsSpace);
    var c := TailCuts(line);
    if ProductTail(line, s0, c) then
      ProductRunsSound(line, s0, c);
      ProductRuns(line, s0, c)
    else None
  }

  /** The description and quantity of pattern 1, once the code and the tail are in place. */
  function ProductRuns(line: string, s0: nat, c: Cuts): Option<Groups>
    requires s0 + |Producto| <= c.w <= |line|
  {
    var r0 := SkipWhile(line, s0 + |Producto|, IsSpace);
    if !(r0 < c.w && IsDigit(line[r0])) then None
    else
      var d1 := SkipWhile(line, r0, IsDigit);
      if d1 >= c.w then
        if c.w - r0 >= 2 then Some(ProductGroups(s0, c, Span(r0, c.w - 1), Span(c.w - 1, c.w)))
        else None
      else
        var g := SkipWhile(line, d1, NotDigit);
        if g < c.w && SkipWhile(line, g, IsDigit) == c.w then
          Some(ProductGroups(s0, c, Span(r0, d1), Span(g, c.w)))
        else None
  }

  lemma ProductRunsSound(line: string, s0: nat, c: Cuts)
    requires s0 == SkipWhile(line, 0, IsSpace) && c == TailCuts(line) && ProductTail(line, s0, c)
    ensures ProductRuns(line, s0, c).Some? ==> ProductShape(line, ProductRuns(line, s0, c).value)
  {
    var r0 := SkipWhile(line, s0 + |Producto|, IsSpace);
    if r0 < c.w && IsDigit(line[r0]) {
      var d1 := SkipWhile(line, r0, IsDigit);
      if d1 >= c.w {
        if c.w - r0 >= 2 {
          ProductRunsOne(line, s0, c, r0);
          ProductOneRun(line, s0, c, r0);
        } else {
          ProductRunsNone(line, s0, c);
        }
      } else {
        var g := SkipWhile(line, d1, NotDigit);
        if g < c.w && SkipWhile(line, g, IsDigit) == c.w {
          ProductRunsTwo(line, s0, c, r0, d1, g);
          ProductTwoRunsFound(line, s0, c, r0, d1, g);
        } else {
          ProductRunsNone(line, s0, c);
        }
      }
    } else {
      ProductRunsNone(line, s0, c);
    }
  }

  /** The remaining cases of `ProductRuns` fail. */
  lemma ProductRunsNone(line: string, s0: nat, c: Cuts)
    requires s0 + |Producto| <= c.w <= |line|
    requires var r0 := SkipWhile(line, s0 + |Producto|, IsSpace);
      !(r0 < c.w && IsDigit(line[r0]))
      || (var d1 := SkipWhile(line, r0, IsDigit);
          if d1 >= c.w then c.w - r0 < 2
          else var g := SkipWhile(line, d1, NotDigit); !(g < c.w && SkipWhile(line, g, IsDigit) == c.w))
    ensures ProductRuns(line, s0, c) == None
  {
  }

  lemma ProductRunsTwo(line: string, s0: nat, c: Cuts, r0: nat, d1: nat, g: nat)
    requires s0 + |Producto| <= c.w <= |line|
    requires r0 == SkipWhile(line, s0 + |Producto|, IsSpace) && r0 < c.w && IsDigit(line[r0])
    requires d1 == SkipWhile(line, r0, IsDigit) && d1 < c.w
    requires g == SkipWhile(line, d1, NotDigit) && g < c.w && SkipWhile(line, g, IsDigit) == c.w
    ensures ProductRuns(line, s0, c) == Some(ProductGroups(s0, c, Span(r0, d1), Span(g, c.w)))
  {
  }

  /** The code and the tail of pattern 1 at the cut points. */
  predicate ProductTail(line: string, s0: nat, c: Cuts) {
    && s0 + |Producto| <= c.w && WordCI(line, s0, Producto) && c.w < c.p0 && c.wt < c.t0
    && IsNumber(line, c.p0, c.wt) && IsNumber(line, c.t0, c.e)
  }

  function ProductGroups(s0: nat, c: Cuts, desc: Span, qty: Span): Groups {
    Groups(Span(s0, s0 + |Producto|), desc, qty, Span(c.p0, c.wt), Span(c.t0, c.e))
  }

  /** One run of digits before the price: the quantity is its last digit. */
  lemma ProductOneRun(line: string, s0: nat, c: Cuts, r0: nat)
    requires s0 == SkipWhile(line, 0, IsSpace) && c == TailCuts(line) && ProductTail(line, s0, c)
    requires r0 == SkipWhile(line, s0 + |Producto|, IsSpace) && r0 + 2 <= c.w && IsDigit(line[r0])
    requires SkipWhile(line, r0, IsDigit) >= c.w
    ensures ProductShape(line, ProductGroups(s0, c, Span(r0, c.w - 1), Span(c.w - 1, c.w)))
  {
  }

  /** Two runs of digits before the price: description and quantity. */
  lemma ProductTwoRunsFound(line: string, s0: nat, c: Cuts, r0: nat, d1: nat, g: nat)
    requires s0 == SkipWhile(line, 0, IsSpace) && c == TailCuts(line) && ProductTail(line, s0, c)
    requires r0 == SkipWhile(line, s0 + |Producto|, IsSpace) && r0 < c.w && IsDigit(line[r0])
    requires d1 == SkipWhile(line, r0, IsDigit) && d1 < c.w
    requires g == SkipWhile(line, d1, NotDigit) && g < c.w && SkipWhile(line, g, IsDigit) == c.w
    ensures ProductShape(line, ProductGroups(s0, c, Span(r0, d1), Span(g, c.w)))
  {
  }

  /** A case-insensitive literal letter is not whitespace. */
  lemma LetterNotSpace(c: char, l: char)
    requires 'a' <= l <= 'z' && LowerChar(c) == l
    ensures !IsSpace(c) && !IsDigit(c)
  {
  }

  /** The code of a match starts at the first non-space character. */
  lemma ProductCodeFixed(line: string, m: Groups)
    requires ProductShape(line, m)
    ensures SkipWhile(line, 0, IsSpace) == m.code.lo
  {
    assert LowerChar(line[m.code.lo + 0]) == Producto[0];
    LetterNotSpace(line[m.code.lo], 'p');
    SkipWhileUnique(line, 0, m.code.lo, IsSpace);
  }

  /**
   * Completeness and preference: whenever pattern 1 matches the line in
   * some way, the matcher succeeds, agrees on the code, the price, the total
   * and the end of the quantity, and returns the longest description; a
   * match with a description as long is the matcher's.
   */
  lemma ProductPriority(line: string, m': Groups)
    requires ProductShape(line, m')
    ensures MatchProduct(line).Some?
    ensures var m := MatchProduct(line).value;
      && m.code == m'.code && m.price == m'.price && m.total == m'.total
      && m.desc.lo == m'.desc.lo && m.qty.hi == m'.qty.hi
      && m'.desc.hi <= m.desc.hi
      && (m'.desc.hi == m.desc.hi ==> m' == m)
  {
    if SkipWhile(line, m'.desc.lo, IsDigit) >= m'.qty.hi {
      ProductOneCase(line, m');
    } else {
      ProductTwoCase(line, m');
    }
  }

  /** With digits all the way from the description to the price, the quantity is the last digit. */
  lemma ProductOneCase(line: string, m': Groups)
    requires ProductShape(line, m') && SkipWhile(line, m'.desc.lo, IsDigit) >= m'.qty.hi
    ensures m'.desc.hi == m'.qty.lo
    ensures MatchProduct(line) ==
      Some(Groups(m'.code, Span(m'.desc.lo, m'.qty.hi - 1), Span(m'.qty.hi - 1, m'.qty.hi), m'.price, m'.total))
  {
    ProductOneRunAdjacent(line, m');
    ProductFixed(line, m');
    assert IsDigit(line[m'.desc.lo]);
    OneRunMatch(line, m', m'.code.lo, TailCuts(line));
  }

  /** The matcher's view of a match whose digits run from the description to the price. */
  lemma OneRunMatch(line: string, m': Groups, s0: nat, c: Cuts)
    requires s0 == SkipWhile(line, 0, IsSpace) && c == TailCuts(line) && ProductTail(line, s0, c)
    requires c == Cuts(m'.total.hi, m'.total.lo, m'.price.hi, m'.price.lo, m'.qty.hi)
    requires s0 == m'.code.lo && m'.code.hi == s0 + |Producto|
    requires SkipWhile(line, m'.code.hi, IsSpace) == m'.desc.lo
    requires m'.desc.lo + 2 <= m'.qty.hi && IsDigit(line[m'.desc.lo])
    requires SkipWhile(line, m'.desc.lo, IsDigit) >= m'.qty.hi
    ensures MatchProduct(line) ==
      Some(Groups(m'.code, Span(m'.desc.lo, m'.qty.hi - 1), Span(m'.qty.hi - 1, m'.qty.hi), m'.price, m'.total))
  {
    MatchProductRuns(line, s0, c);
    ProductRunsOne(line, s0, c, m'.desc.lo);
    OneRunGroups(m', s0, c);
  }

  lemma OneRunGroups(m': Groups, s0: nat, c: Cuts)
    requires 0 < m'.qty.hi && s0 == m'.code.lo && m'.code.hi == s0 + |Producto|
    requires c == Cuts(m'.total.hi, m'.total.lo, m'.price.hi, m'.price.lo, m'.qty.hi)
    ensures ProductGroups(s0, c, Span(m'.desc.lo, c.w - 1), Span(c.w - 1, c.w))
         == Groups(m'.code, Span(m'.desc.lo, m'.qty.hi - 1), Span(m'.qty.hi - 1, m'.qty.hi), m'.price, m'.total)
  {
  }

  lemma ProductOneRunAdjacent(line: string, m': Groups)
    requires ProductShape(line, m') && SkipWhile(line, m'.desc.lo, IsDigit) >= m'.qty.hi
    ensures m'.desc.hi == m'.qty.lo
  {
    if m'.desc.hi < m'.qty.lo {
      SkipWhileStops(line, m'.desc.lo, m'.desc.hi, IsDigit);
      assert false;
    }
  }

  /** With a non-digit between them, the description and the quantity are the match's. */
  lemma ProductTwoCase(line: string, m': Groups)
    requires ProductShape(line, m') && SkipWhile(line, m'.desc.lo, IsDigit) < m'.qty.hi
    ensures MatchProduct(line) == Some(m')
  {
    var s0, c := m'.code.lo, TailCuts(line);
    var d1 := SkipWhile(line, m'.desc.lo, IsDigit);
    ProductFixed(line, m');
    MatchProductRuns(line, s0, c);
    ProductTwoRuns(line, m', d1);
    ProductRunsTwo(line, s0, c, m'.desc.lo, d1, m'.qty.lo);
  }

  /** The code, the tail and the start of the description of a match are where the matcher looks. */
  lemma ProductFixed(line: string, m': Groups)
    requires ProductShape(line, m')
    ensures SkipWhile(line, 0, IsSpace) == m'.code.lo
    ensures TailCuts(line) == Cuts(m'.total.hi, m'.total.lo, m'.price.hi, m'.price.lo, m'.qty.hi)
    ensures ProductTail(line, m'.code.lo, TailCuts(line))
    ensures SkipWhile(line, m'.code.hi, IsSpace) == m'.desc.lo
  {
    var w := m'.qty.hi;
    assert IsDigit(line[w - 1]);
    TailIsFixed(line, w, m'.price, m'.total);
    ProductCodeFixed(line, m');
    SkipWhileUnique(line, m'.code.hi, m'.desc.lo, IsSpace);
  }

  /** Once the code and the tail are in place, pattern 1 is decided by the runs before the price. */
  lemma MatchProductRuns(line: string, s0: nat, c: Cuts)
    requires s0 == SkipWhile(line, 0, IsSpace) && c == TailCuts(line) && ProductTail(line, s0, c)
    ensures MatchProduct(line) == ProductRuns(line, s0, c)
  {
  }

  lemma ProductRunsOne(line: string, s0: nat, c: Cuts, r0: nat)
    requires s0 + |Producto| <= c.w <= |line|
    requires r0 == SkipWhile(line, s0 + |Producto|, IsSpace) && r0 + 2 <= c.w && IsDigit(line[r0])
    requires SkipWhile(line, r0, IsDigit) >= c.w
    ensures ProductRuns(line, s0, c) == Some(ProductGroups(s0, c, Span(r0, c.w - 1), Span(c.w - 1, c.w)))
  {
  }

  /** With a non-digit between the description and the quantity, both digit runs are forced. */
  lemma ProductTwoRuns(line: string, m': Groups, d1: nat)
    requires ProductShape(line, m')
    requires d1 == SkipWhile(line, m'.desc.lo, IsDigit) && d1 < m'.qty.hi
    ensures m'.desc.hi == d1
    ensures SkipWhile(line, d1, NotDigit) == m'.qty.lo
    ensures SkipWhile(line, m'.qty.lo, IsDigit) == m'.qty.hi
  {
    if m'.desc.hi == m'.qty.lo {
      SkipWhileCovers(line, m'.desc.lo, m'.qty.hi, IsDigit);
      assert false;
    }
    SkipWhileUnique(line, m'.desc.lo, m'.desc.hi, IsDigit);
    assert IsSpace(line[m'.qty.hi]);
    SkipWhileUnique(line, d1, m'.qty.lo, NotDigit);
    SkipWhileUnique(line, m'.qty.lo, m'.qty.hi, IsDigit);
  }

  // ---------------------------------------------------------------------
  // Pattern 3: Producto without a quantity
  //   ^\s*(Producto)\s*(\d+)\s*[^\d]+(NUM)\s+(NUM)\s*$   (IGNORECASE)
  // ---------------------------------------------------------------------

  /**
   * The matches of pattern 3 on `line`. `\s*[^\d]+` between the
   * description and the price matches the same strings as `[^\d]+`.
   */
  predicate NoQtyShape(line: string, m: NoQtyGroups) {
    && AllIn(line, 0, m.code.lo, IsSpace)
    && m.code.hi == m.code.lo + |Producto| && WordCI(line, m.code.lo, Producto)
    && AllIn(line, m.code.hi, m.desc.lo, IsSpace)
    && m.desc.lo < m.desc.hi && AllIn(line, m.desc.lo, m.desc.hi, IsDigit)
    && m.desc.hi < m.price.lo && AllIn(line, m.desc.hi, m.price.lo, NotDigit)
    && IsNumber(line, m.price.lo, m.price.hi)
    && m.price.hi < m.total.lo && AllIn(line, m.price.hi, m.total.lo, IsSpace)
    && IsNumber(line, m.total.lo, m.total.hi)
    && AllIn(line, m.total.hi, |line|, IsSpace)
  }

  /**
   * `_product_line_noqty_regex.match(line)`. The price starts at the first
   * digit after the description, and need not start a token.
   */
  function MatchNoQty(line: string): (r: Option<NoQtyGroups>)
    ensures r.Some? ==> NoQtyShape(line, r.value)
  {
    var s0 := SkipWhile(line, 0, IsSpace);
    var c := TailCuts(line);
    if NoQtyTail(line, s0, c) then
      NoQtyRunsSound(line, s0, c);
      NoQtyRuns(line, s0, c)
    else None
  }

  /** The code and the total of pattern 3 at the cut points. */
  predicate NoQtyTail(line: string, s0: nat, c: Cuts) {
    s0 + |Producto| <= c.wt && WordCI(line, s0, Producto) && c.wt < c.t0 && IsNumber(line, c.t0, c.e)
  }

  /** The description and the price of pattern 3, once the code and the total are in place. */
  function NoQtyRuns(line: string, s0: nat, c: Cuts): Option<NoQtyGroups>
    requires s0 + |Producto| <= c.wt <= |line|
  {
    var r0 := SkipWhile(line, s0 + |Producto|, IsSpace);
    if !(r0 < c.wt && IsDigit(line[r0])) then None
    else
      var d1 := SkipWhile(line, r0, IsDigit);
      var p := SkipWhile(line, d1, NotDigit);
      if d1 < p && IsNumber(line, p, c.wt) then
        Some(NoQtyGroups(Span(s0, s0 + |Producto|), Span(r0, d1), Span(p, c.wt), Span(c.t0, c.e)))
      else None
  }

  lemma NoQtyRunsSound(line: string, s0: nat, c: Cuts)
    requires s0 == SkipWhile(line, 0, IsSpace) && c == TailCuts(line) && NoQtyTail(line, s0, c)
    ensures NoQtyRuns(line, s0, c).Some? ==> NoQtyShape(line, NoQtyRuns(line, s0, c).value)
  {
    var r0 := SkipWhile(line, s0 + |Producto|, IsSpace);
    if r0 < c.wt && IsDigit(line[r0]) {
      var d1 := SkipWhile(line, r0, IsDigit);
      var p := SkipWhile(line, d1, NotDigit);
      if d1 < p && IsNumber(line, p, c.wt) {
        NoQtyRunsSome(line, s0, c, r0, d1, p);
        NoQtyFound(line, s0, c, r0, d1, p);
      } else {
        NoQtyRunsNone(line, s0, c);
      }
    } else {
      NoQtyRunsNone(line, s0, c);
    }
  }

  lemma NoQtyFound(line: string, s0: nat, c: Cuts, r0: nat, d1: nat, p: nat)
    requires s0 == SkipWhile(line, 0, IsSpace) && c == TailCuts(line) && NoQtyTail(line, s0, c)
    requires r0 == SkipWhile(line, s0 + |Producto|, IsSpace) && r0 < c.wt && IsDigit(line[r0])
    requires d1 == SkipWhile(line, r0, IsDigit) && p == SkipWhile(line, d1, NotDigit)
    requires d1 < p && IsNumber(line, p, c.wt)
    ensures NoQtyShape(line, NoQtyGroups(Span(s0, s0 + |Producto|), Span(r0, d1), Span(p, c.wt), Span(c.t0, c.e)))
  {
  }

  lemma NoQtyRunsSome(line: string, s0: nat, c: Cuts, r0: nat, d1: nat, p: nat)
    requires s0 + |Producto| <= c.wt <= |line|
    requires r0 == SkipWhile(line, s0 + |Producto|, IsSpace) && r0 < c.wt && IsDigit(line[r0])
    requires d1 == SkipWhile(line, r0, IsDigit) && p == SkipWhile(line, d1, NotDigit)
    requires d1 < p && IsNumber(line, p, c.wt)
    ensures NoQtyRuns(line, s0, c)
      == Some(NoQtyGroups(Span(s0, s0 + |Producto|), Span(r0, d1), Span(p, c.wt), Span(c.t0, c.e)))
  {
  }

  lemma NoQtyRunsNone(line: string, s0: nat, c: Cuts)
    requires s0 + |Producto| <= c.wt <= |line|
    requires var r0 := SkipWhile(line, s0 + |Producto|, IsSpace);
      !(r0 < c.wt && IsDigit(line[r0]))
      || (var d1 := SkipWhile(line, r0, IsDigit);
          var p := SkipWhile(line, d1, NotDigit);
          !(d1 < p && IsNumber(line, p, c.wt)))
    ensures NoQtyRuns(line, s0, c) == None
  {
  }

  /** Pattern 3 matches a line in at most one way, and the matcher finds it. */
  lemma NoQtyUnique(line: string, m': NoQtyGroups)
    requires NoQtyShape(line, m')
    ensures MatchNoQty(line) == Some(m')
  {
    NoQtyFixed(line, m');
    NoQtyMatch(line, m', m'.code.lo, TailCuts(line));
  }

  /** The code, the total and the runs before the price of a match are where the matcher looks. */
  lemma NoQtyFixed(line: string, m': NoQtyGroups)
    requires NoQtyShape(line, m')
    ensures SkipWhile(line, 0, IsSpace) == m'.code.lo
    ensures var c := TailCuts(line); c.e == m'.total.hi && c.t0 == m'.total.lo && c.wt == m'.price.hi
    ensures NoQtyTail(line, m'.code.lo, TailCuts(line))
    ensures SkipWhile(line, m'.code.hi, IsSpace) == m'.desc.lo
    ensures SkipWhile(line, m'.desc.lo, IsDigit) == m'.desc.hi
    ensures SkipWhile(line, m'.desc.hi, NotDigit) == m'.price.lo
  {
    assert LowerChar(line[m'.code.lo + 0]) == Producto[0];
    LetterNotSpace(line[m'.code.lo], 'p');
    SkipWhileUnique(line, 0, m'.code.lo, IsSpace);
    LastTokenFixed(line, m'.price, m'.total);
    assert IsDigit(line[m'.desc.lo]);
    SpaceIsNotDigit(line[m'.desc.lo]);
    SkipWhileUnique(line, m'.code.hi, m'.desc.lo, IsSpace);
    assert NotDigit(line[m'.desc.hi]);
    SkipWhileUnique(line, m'.desc.lo, m'.desc.hi, IsDigit);
    assert IsDigit(line[m'.price.lo]);
    SkipWhileUnique(line, m'.desc.hi, m'.price.lo, NotDigit);
  }

  /** The matcher's view of a match of pattern 3 whose runs are in place. */
  lemma NoQtyMatch(line: string, m': NoQtyGroups, s0: nat, c: Cuts)
    requires s0 == SkipWhile(line, 0, IsSpace) && c == TailCuts(line) && NoQtyTail(line, s0, c)
    requires s0 == m'.code.lo && m'.code.hi == s0 + |Producto|
    requires c.e == m'.total.hi && c.t0 == m'.total.lo && c.wt == m'.price.hi
    requires SkipWhile(line, m'.code.hi, IsSpace) == m'.desc.lo
    requires m'.desc.lo < m'.desc.hi && IsDigit(line[m'.desc.lo])
    requires SkipWhile(line, m'.desc.lo, IsDigit) == m'.desc.hi
    requires SkipWhile(line, m'.desc.hi, NotDigit) == m'.price.lo
    requires IsNumber(line, m'.price.lo, m'.price.hi)
    ensures MatchNoQty(line) == Some(m')
  {
    NoQtyRunsSome(line, s0, c, m'.desc.lo, m'.desc.hi, m'.price.lo);
  }

  // ---------------------------------------------------------------------
  // Pattern 2: the generic table row
  //   ^\s*(\w+)\s+([\w\s\-\~\.]+?)\s+(\d+)\s+(NUM2)\s+(NUM2)\s*$
  // ---------------------------------------------------------------------

  /** The characters the description class `[\w\s\-\~\.]` admits. */
  predicate IsDescChar(c: char) {
    IsWordChar(c) || IsSpace(c) || c == '-' || c == '~' || c == '.'
  }

  /** The matches of pattern 2 on `line`. */
  predicate GenericShape(line: string, m: Groups) {
    && AllIn(line, 0, m.code.lo, IsSpace)
    && m.code.lo < m.code.hi && AllIn(line, m.code.lo, m.code.hi, IsWordChar)
    && m.code.hi < m.desc.lo && AllIn(line, m.code.hi, m.desc.lo, IsSpace)
    && m.desc.lo < m.desc.hi && AllIn(line, m.desc.lo, m.desc.hi, IsDescChar)
    && m.desc.hi < m.qty.lo && AllIn(line, m.desc.hi, m.qty.lo, IsSpace)
    && m.qty.lo < m.qty.hi && AllIn(line, m.qty.lo, m.qty.hi, IsDigit)
    && TailShape(line, m.qty.hi, m.price, m.total)
    && IsNumber2(line, m.price.lo, m.price.hi) && IsNumber2(line, m.total.lo, m.total.hi)
  }

  /**
   * `_item_line_regex.match(line)`. The code is the first token, the
   * quantity, price and total the last three. The greedy `\s+` after the
   * code takes all the whitespace it can and the lazy description stops at
   * the whitespace before the quantity; when only whitespace lies between
   * code and quantity the description is its last-but-one character.
   */
  function MatchGeneric(line: string): (r: Option<Groups>)
    ensures r.Some? ==> GenericShape(line, r.value)
  {
    var s0 := SkipWhile(line, 0, IsSpace);
    var c := TailCuts(line);
    if GenericTail(line, c) then
      GenericRestSound(line, s0, c);
      GenericRest(line, s0, c)
    else None
  }

  /** The quantity, price and total of pattern 2 at the cut points. */
  predicate GenericTail(line: string, c: Cuts) {
    && c.w < c.p0 && c.wt < c.t0
    && IsNumber2(line, c.p0, c.wt) && IsNumber2(line, c.t0, c.e)
  }

  /** Where the code ends and where the quantity token and the gap before it start. */
  datatype Middle = Middle(c1: nat, wq: nat, q0: nat)

  function GenericMiddle(line: string, s0: nat, w: nat): (md: Middle)
    requires s0 <= |line| && w <= |line|
    ensures s0 <= md.c1 <= |line| && md.wq <= md.q0 <= w
    ensures AllIn(line, s0, md.c1, IsWordChar) && (md.c1 == |line| || !IsWordChar(line[md.c1]))
    ensures AllIn(line, md.q0, w, NotSpace) && (md.q0 == 0 || IsSpace(line[md.q0 - 1]))
    ensures AllIn(line, md.wq, md.q0, IsSpace) && (md.wq == 0 || !IsSpace(line[md.wq - 1]))
  {
    var q0 := SkipBackWhile(line, w, NotSpace);
    Middle(SkipWhile(line, s0, IsWordChar), SkipBackWhile(line, q0, IsSpace), q0)
  }

  /** The code, the quantity and the stretch between them admit a match. */
  predicate GenericFrame(line: string, s0: nat, c: Cuts, md: Middle)
    requires s0 <= md.c1 <= |line| && md.wq <= md.q0 <= c.w <= |line|
  {
    && md.q0 < c.w && AllIn(line, md.q0, c.w, IsDigit)
    && md.wq < md.q0
    && s0 < md.c1 <= md.wq && IsSpace(line[md.c1])
    && AllIn(line, md.c1, md.q0, IsDescChar)
  }

  /** The description of pattern 2, once the code and the tail are in place. */
  function GenericRest(line: string, s0: nat, c: Cuts): Option<Groups>
    requires s0 <= |line| && c.w <= c.p0 <= c.wt <= c.t0 <= c.e <= |line|
  {
    var md := GenericMiddle(line, s0, c.w);
    if !GenericFrame(line, s0, c, md) then None
    else
      var a := SkipWhile(line, md.c1, IsSpace);
      if a < md.wq then Some(GenericGroups(s0, c, md, Span(a, md.wq)))
      else if md.q0 - md.c1 >= 3 then Some(GenericGroups(s0, c, md, Span(md.q0 - 2, md.q0 - 1)))
      else None
  }

  function GenericGroups(s0: nat, c: Cuts, md: Middle, desc: Span): Groups {
    Groups(Span(s0, md.c1), desc, Span(md.q0, c.w), Span(c.p0, c.wt), Span(c.t0, c.e))
  }

  lemma GenericRestSound(line: string, s0: nat, c: Cuts)
    requires s0 == SkipWhile(line, 0, IsSpace) && c == TailCuts(line) && GenericTail(line, c)
    ensures GenericRest(line, s0, c).Some? ==> GenericShape(line, GenericRest(line, s0, c).value)
  {
    var md := GenericMiddle(line, s0, c.w);
    if GenericFrame(line, s0, c, md) {
      var a := SkipWhile(line, md.c1, IsSpace);
      if a < md.wq {
        GenericRestSpread(line, s0, c, md, a);
        GenericSpreadFound(line, s0, c, md, a);
      } else if md.q0 - md.c1 >= 3 {
        GenericRestBlank(line, s0, c, md, a);
        GenericBlankFound(line, s0, c, md, a);
      } else {
        GenericRestNone(line, s0, c);
      }
    } else {
      GenericRestNone(line, s0, c);
    }
  }

  lemma GenericSpreadFound(line: string, s0: nat, c: Cuts, md: Middle, a: nat)
    requires s0 == SkipWhile(line, 0, IsSpace) && c == TailCuts(line) && GenericTail(line, c)
    requires md == GenericMiddle(line, s0, c.w) && GenericFrame(line, s0, c, md)
    requires a == SkipWhile(line, md.c1, IsSpace) && a < md.wq
    ensures GenericShape(line, GenericGroups(s0, c, md, Span(a, md.wq)))
  {
  }

  lemma GenericBlankFound(line: string, s0: nat, c: Cuts, md: Middle, a: nat)
    requires s0 == SkipWhile(line, 0, IsSpace) && c == TailCuts(line) && GenericTail(line, c)
    requires md == GenericMiddle(line, s0, c.w) && GenericFrame(line, s0, c, md)
    requires a == SkipWhile(line, md.c1, IsSpace) && a >= md.wq && md.q0 - md.c1 >= 3
    ensures GenericShape(line, GenericGroups(s0, c, md, Span(md.q0 - 2, md.q0 - 1)))
  {
    var g := GenericGroups(s0, c, md, Span(md.q0 - 2, md.q0 - 1));
    assert AllIn(line, md.c1, md.q0, IsSpace);
    assert IsDescChar(line[md.q0 - 2]);
  }

  lemma GenericRestSpread(line: string, s0: nat, c: Cuts, md: Middle, a: nat)
    requires s0 <= |line| && c.w <= c.p0 <= c.wt <= c.t0 <= c.e <= |line|
    requires md == GenericMiddle(line, s0, c.w) && GenericFrame(line, s0, c, md)
    requires a == SkipWhile(line, md.c1, IsSpace) && a < md.wq
    ensures GenericRest(line, s0, c) == Some(GenericGroups(s0, c, md, Span(a, md.wq)))
  {
  }

  lemma GenericRestBlank(line: string, s0: nat, c: Cuts, md: Middle, a: nat)
    requires s0 <= |line| && c.w <= c.p0 <= c.wt <= c.t0 <= c.e <= |line|
    requires md == GenericMiddle(line, s0, c.w) && GenericFrame(line, s0, c, md)
    requires a == SkipWhile(line, md.c1, IsSpace) && a >= md.wq && md.q0 - md.c1 >= 3
    ensures GenericRest(line, s0, c) == Some(GenericGroups(s0, c, md, Span(md.q0 - 2, md.q0 - 1)))
  {
  }

  lemma GenericRestNone(line: string, s0: nat, c: Cuts)
    requires s0 <= |line| && c.w <= c.p0 <= c.wt <= c.t0 <= c.e <= |line|
    requires var md := GenericMiddle(line, s0, c.w);
      !GenericFrame(line, s0, c, md)
      || (SkipWhile(line, md.c1, IsSpace) >= md.wq && md.q0 - md.c1 < 3)
    ensures GenericRest(line, s0, c) == None
  {
  }

  /**
   * Completeness and preference: whenever pattern 2 matches the line in
   * some way, the matcher succeeds with the same code, quantity, price and
   * total, and its description is the one the regular expression prefers:
   * it starts no earlier than any other (the greedy `\s+`) and, among those
   * starting there, ends first (the lazy `+?`).
   */
  lemma GenericPriority(line: string, m': Groups)
    requires GenericShape(line, m')
    ensures MatchGeneric(line).Some?
    ensures var m := MatchGeneric(line).value;
      && m.code == m'.code && m.qty == m'.qty && m.price == m'.price && m.total == m'.total
      && (m'.desc.lo < m.desc.lo || (m'.desc.lo == m.desc.lo && m.desc.hi <= m'.desc.hi))
  {
    var w := m'.qty.hi;
    assert IsDigit(line[w - 1]);
    TailIsFixed(line, w, m'.price, m'.total);
    WordCharIsNotSpace(line[m'.code.lo]);
    SkipWhileUnique(line, 0, m'.code.lo, IsSpace);
    var s0, c := m'.code.lo, TailCuts(line);
    assert GenericTail(line, c);
    var md := GenericMiddle(line, s0, c.w);
    GenericMiddleFixed(line, m', md);
    GenericFrameHolds(line, m', md);
    var a := SkipWhile(line, md.c1, IsSpace);
    SkipWhileCovers(line, md.c1, m'.desc.lo, IsSpace);
    if a < md.wq {
      GenericRestSpread(line, s0, c, md, a);
    } else {
      GenericRestBlank(line, s0, c, md, a);
    }
  }

  /** The code and the quantity of any match are the ones the matcher finds. */
  lemma GenericMiddleFixed(line: string, m': Groups, md: Middle)
    requires GenericShape(line, m')
    requires md == GenericMiddle(line, m'.code.lo, m'.qty.hi)
    ensures md.c1 == m'.code.hi && md.q0 == m'.qty.lo && md.wq <= m'.desc.hi
  {
    CodeEnd(line, m'.code.lo, m'.code.hi);
    QtyStart(line, m'.qty.lo, m'.qty.hi);
    SkipBackWhileCovers(line, m'.desc.hi, m'.qty.lo, IsSpace);
  }

  lemma CodeEnd(line: string, lo: nat, hi: nat)
    requires AllIn(line, lo, hi, IsWordChar) && hi < |line| && IsSpace(line[hi])
    ensures SkipWhile(line, lo, IsWordChar) == hi
  {
    WordCharIsNotSpace(line[hi]);
    SkipWhileUnique(line, lo, hi, IsWordChar);
  }

  lemma QtyStart(line: string, lo: nat, hi: nat)
    requires 0 < lo && AllIn(line, lo, hi, IsDigit) && IsSpace(line[lo - 1])
    ensures SkipBackWhile(line, hi, NotSpace) == lo
  {
    SkipBackWhileUnique(line, lo, hi, NotSpace);
  }

  lemma GenericFrameHolds(line: string, m': Groups, md: Middle)
    requires GenericShape(line, m') && TailCuts(line).w == m'.qty.hi
    requires md == GenericMiddle(line, m'.code.lo, m'.qty.hi)
    requires md.c1 == m'.code.hi && md.q0 == m'.qty.lo && md.wq <= m'.desc.hi
    ensures GenericFrame(line, m'.code.lo, TailCuts(line), md)
  {
    assert IsWordChar(line[m'.code.hi - 1]);
    WordCharIsNotSpace(line[m'.code.hi - 1]);
    DescStretch(line, m'.code.hi, m'.desc.lo, m'.desc.hi, m'.qty.lo);
  }

  /** Whitespace, description characters and whitespace again are all description characters. */
  lemma DescStretch(line: string, lo: nat, a: nat, b: nat, hi: nat)
    requires AllIn(line, lo, a, IsSpace) && AllIn(line, a, b, IsDescChar) && AllIn(line, b, hi, IsSpace)
    ensures AllIn(line, lo, hi, IsDescChar)
  {
    forall k | lo <= k < hi
      ensures IsDescChar(line[k])
    {
      if k < a || k >= b {
        assert IsSpace(line[k]);
      }
    }
  }
}
