/**
 * The invoice date (`extract_invoice_data`, app/ai_utils.py): a date
 * `d/m/y` after a "fecha emisión", "fecha factura" or "fecha comprobante"
 * label (at most 15 non-digits in between), else the first date standing
 * on its own in the text. Day and month have one or two digits, the year
 * two to four, and the separators are `/` or `-`.
 */
module Dates {
  import opened Wrappers
  import opened Text
  import opened Patterns
  import opened Scan
  import Numbers

  /** `[/-]`. */
  predicate IsDateSep(c: char) {
    c == '/' || c == '-'
  }

  /**
   * The ways `\d{1,2}[/-]\d{1,2}[/-]\d{2,4}` matches from `D`: the
   * separators at `a` and `b`, the year ending at `e`.
   */
  predicate DateShape(L: string, D: nat, a: nat, b: nat, e: nat) {
    && D < a <= D + 2 && AllIn(L, D, a, IsDigit) && a < |L| && IsDateSep(L[a])
    && a + 1 < b <= a + 3 && AllIn(L, a + 1, b, IsDigit) && b < |L| && IsDateSep(L[b])
    && b + 3 <= e <= b + 5 && AllIn(L, b + 1, e, IsDigit)
  }

  /**
   * Where the date the engine matches from `D` ends. A separator follows
   * day and month, so their digit runs must be one or two long exactly;
   * the year takes up to four digits.
   */
  function DatePart(L: string, D: nat): (r: Option<nat>)
    requires D <= |L|
    ensures r.Some? ==> D < r.value <= |L|
  {
    var a := SkipWhile(L, D, IsDigit);
    if !(D < a <= D + 2 && a < |L| && IsDateSep(L[a])) then None
    else
      var b := SkipWhile(L, a + 1, IsDigit);
      if !(a + 1 < b <= a + 3 && b < |L| && IsDateSep(L[b])) then None
      else
        var y := SkipWhile(L, b + 1, IsDigit);
        if y < b + 3 then None else Some(Min(y, b + 5))
  }

  /** What `DatePart` finds is a date. */
  lemma DatePartSound(L: string, D: nat)
    requires D <= |L| && DatePart(L, D).Some?
    ensures exists a, b :: DateShape(L, D, a, b, DatePart(L, D).value)
  {
    var a := SkipWhile(L, D, IsDigit);
    var b := SkipWhile(L, a + 1, IsDigit);
    assert DateShape(L, D, a, b, DatePart(L, D).value);
  }

  /**
   * Whenever a date starts at `D`, `DatePart` finds one, and its year is
   * the longest a date from `D` can have.
   */
  lemma DatePriority(L: string, D: nat, a: nat, b: nat, e: nat)
    requires DateShape(L, D, a, b, e)
    ensures DatePart(L, D).Some? && e <= DatePart(L, D).value
  {
    SkipWhileUnique(L, D, a, IsDigit);
    SkipWhileUnique(L, a + 1, b, IsDigit);
    SkipWhileCovers(L, b + 1, e, IsDigit);
  }

  /** A date read at `D` and cut out of the text is a date from its first character. */
  lemma DateShapeSlice(L: string, D: nat, a: nat, b: nat, e: nat)
    requires DateShape(L, D, a, b, e)
    ensures DateShape(L[D..e], 0, a - D, b - D, e - D)
  {
    var w := L[D..e];
    assert forall k :: 0 <= k < e - D ==> w[k] == L[D + k];
  }

  // ---------------------------------------------------------------------
  // The labelled date: fecha\s+(?:emisi[oó]n|factura|comprobante)[^\d]{0,15}
  // ---------------------------------------------------------------------

  /** `[oó]` ignoring case. */
  predicate IsO(c: char) {
    LowerChar(c) == 'o' || LowerChar(c) == '\U{F3}'
  }

  /** Where the word after "fecha" ends, when it is one of the three; their first letters differ. */
  function LabelWordEnd(L: string, f: nat): (r: Option<nat>)
    ensures r.Some? ==> f < r.value <= |L|
  {
    if WordCI(L, f, "emisi") && f + 7 <= |L| && IsO(L[f + 5]) && LowerChar(L[f + 6]) == 'n' then Some(f + 7)
    else if WordCI(L, f, "factura") then Some(f + 7)
    else if WordCI(L, f, "comprobante") then Some(f + 11)
    else None
  }

  /** Where the label of the first date pattern starting at `s` ends. */
  function DateLabelEnd(L: string, s: nat): (r: Option<nat>)
    ensures r.Some? ==> r.value <= |L|
  {
    if WordCI(L, s, "fecha") then
      var f := SkipWhile(L, s + 5, IsSpace);
      if f == s + 5 then None else LabelWordEnd(L, f)
    else None
  }

  /** The ways the first date pattern matches at `s`. */
  predicate Date1Shape(L: string, s: nat, f: nat, D: nat, a: nat, b: nat, e: nat) {
    && WordCI(L, s, "fecha") && s + 5 < f && AllIn(L, s + 5, f, IsSpace) && LabelWordEnd(L, f).Some?
    && LabelWordEnd(L, f).value <= D <= LabelWordEnd(L, f).value + 15
    && AllIn(L, LabelWordEnd(L, f).value, D, NotDigit)
    && DateShape(L, D, a, b, e)
  }

  /**
   * The date the first pattern matches at `s`. The non-digits after the
   * label must be followed by a digit, so the engine skips all of them,
   * and matches only when there are at most 15.
   */
  function Date1At(L: string, s: nat): (r: Option<Span>)
    ensures r.Some? ==> r.value.lo < r.value.hi <= |L|
  {
    match DateLabelEnd(L, s)
    case None => None
    case Some(w) =>
      var D := SkipWhile(L, w, NotDigit);
      if D > w + 15 then None
      else
        match DatePart(L, D)
        case None => None
        case Some(e) => Some(Span(D, e))
  }

  function Start1(L: string): Option<nat> {
    FirstIn(0, |L|, (s: nat) => Date1At(L, s).Some?)
  }

  /** `re.search` with the first date pattern: its date group, if it matches. */
  function Search1(L: string): (r: Option<Span>)
    ensures r.Some? ==> r.value.lo < r.value.hi <= |L|
  {
    match Start1(L)
    case None => None
    case Some(s) => Date1At(L, s)
  }

  lemma Start1Of(L: string, s: nat)
    requires s < |L| && Date1At(L, s).Some?
    ensures Start1(L).Some? && Start1(L).value <= s
  {
    var p := (k: nat) => Date1At(L, k).Some?;
    assert p(s);
  }

  /** The three words start with a letter, so the whitespace before them ends where they start. */
  lemma LabelWordStart(L: string, f: nat)
    requires LabelWordEnd(L, f).Some?
    ensures f < |L| && !IsSpace(L[f])
  {
    if WordCI(L, f, "emisi") {
      assert LowerChar(L[f + 0]) == "emisi"[0];
    } else if WordCI(L, f, "factura") {
      assert LowerChar(L[f + 0]) == "factura"[0];
    } else {
      assert LowerChar(L[f + 0]) == "comprobante"[0];
    }
  }

  lemma Date1AtOf(L: string, s: nat, f: nat, D: nat, a: nat, b: nat, e: nat)
    requires Date1Shape(L, s, f, D, a, b, e)
    ensures s < |L| && Date1At(L, s).Some?
    ensures Date1At(L, s).value.lo == D && e <= Date1At(L, s).value.hi
  {
    LabelWordStart(L, f);
    SkipWhileUnique(L, s + 5, f, IsSpace);
    var w := LabelWordEnd(L, f).value;
    assert DateLabelEnd(L, s) == Some(w);
    assert !NotDigit(L[D]);
    SkipWhileUnique(L, w, D, NotDigit);
    DatePriority(L, D, a, b, e);
  }

  /**
   * Whenever the first date pattern can match, the search succeeds at the
   * leftmost start; at that start the date begins after all the non-digits
   * and has the longest year.
   */
  lemma Search1Priority(L: string, s: nat, f: nat, D: nat, a: nat, b: nat, e: nat)
    requires Date1Shape(L, s, f, D, a, b, e)
    ensures Search1(L).Some? && Start1(L).value <= s
    ensures Start1(L).value == s ==> Search1(L).value.lo == D && e <= Search1(L).value.hi
  {
    Date1AtOf(L, s, f, D, a, b, e);
    Start1Of(L, s);
  }

  /** What `Date1At` reads is a match of the first date pattern at `s`. */
  lemma Date1AtSound(L: string, s: nat)
    requires Date1At(L, s).Some?
    ensures exists f, a, b :: Date1Shape(L, s, f, Date1At(L, s).value.lo, a, b, Date1At(L, s).value.hi)
  {
    var w := DateLabelEnd(L, s).value;
    var f := SkipWhile(L, s + 5, IsSpace);
    var D := SkipWhile(L, w, NotDigit);
    DatePartSound(L, D);
    var a, b :| DateShape(L, D, a, b, DatePart(L, D).value);
    assert Date1Shape(L, s, f, D, a, b, DatePart(L, D).value);
  }

  /**
   * A date the search reports follows a "fecha emisión", "fecha factura"
   * or "fecha comprobante" label at the start it chose, after at most 15
   * non-digits.
   */
  lemma Search1Sound(L: string)
    requires Search1(L).Some?
    ensures Start1(L).Some?
    ensures exists f, a, b :: Date1Shape(L, Start1(L).value, f, Search1(L).value.lo, a, b, Search1(L).value.hi)
  {
    Date1AtSound(L, Start1(L).value);
  }

  // ---------------------------------------------------------------------
  // The bare date: \b(\d{1,2}[/-]\d{1,2}[/-]\d{2,4})\b
  // ---------------------------------------------------------------------

  /** `\b` before a digit at `s`: the start, or a character that is not `\w`. */
  predicate BoundaryBefore(L: string, s: nat) {
    s == 0 || (s <= |L| && !IsWordChar(L[s - 1]))
  }

  /** `\b` after a digit ending at `e`: the end, or a character that is not `\w`. */
  predicate BoundaryAfter(L: string, e: nat) {
    e == |L| || (e < |L| && !IsWordChar(L[e]))
  }

  /**
   * The date the second pattern matches at `s`: a shorter year would be
   * followed by a digit, where `\b` fails, so only the longest year can
   * end the match.
   */
  function Date2At(L: string, s: nat): (r: Option<Span>)
    ensures r.Some? ==> r.value.lo < r.value.hi <= |L|
  {
    if s < |L| && BoundaryBefore(L, s) then
      match DatePart(L, s)
      case None => None
      case Some(e) => if BoundaryAfter(L, e) then Some(Span(s, e)) else None
    else None
  }

  function Start2(L: string): Option<nat> {
    FirstIn(0, |L|, (s: nat) => Date2At(L, s).Some?)
  }

  /** `re.search` with the second date pattern: its group, if it matches. */
  function Search2(L: string): (r: Option<Span>)
    ensures r.Some? ==> r.value.lo < r.value.hi <= |L|
  {
    match Start2(L)
    case None => None
    case Some(s) => Date2At(L, s)
  }

  lemma Start2Of(L: string, s: nat)
    requires s < |L| && Date2At(L, s).Some?
    ensures Start2(L).Some? && Start2(L).value <= s
  {
    var p := (k: nat) => Date2At(L, k).Some?;
    assert p(s);
  }

  lemma Date2AtOf(L: string, s: nat, a: nat, b: nat, e: nat)
    requires BoundaryBefore(L, s) && DateShape(L, s, a, b, e) && BoundaryAfter(L, e)
    ensures s < |L| && Date2At(L, s) == Some(Span(s, e))
  {
    DatePriority(L, s, a, b, e);
  }

  /**
   * Whenever a date stands on its own at `s` (no word character on either
   * side), the search succeeds no later, and at `s` it reads exactly that
   * date.
   */
  lemma Search2Priority(L: string, s: nat, a: nat, b: nat, e: nat)
    requires BoundaryBefore(L, s) && DateShape(L, s, a, b, e) && BoundaryAfter(L, e)
    ensures Search2(L).Some? && Start2(L).value <= s
    ensures Start2(L).value == s ==> Search2(L) == Some(Span(s, e))
  {
    Date2AtOf(L, s, a, b, e);
    Start2Of(L, s);
  }

  /**
   * A date the search reports stands on its own at the start it chose:
   * `\b` holds on both sides and a date runs from there to its end.
   */
  lemma Search2Sound(L: string)
    requires Search2(L).Some?
    ensures Start2(L).Some? && Search2(L).value.lo == Start2(L).value
    ensures var g := Search2(L).value;
      && BoundaryBefore(L, g.lo) && BoundaryAfter(L, g.hi) && exists a, b :: DateShape(L, g.lo, a, b, g.hi)
  {
    var s := Start2(L).value;
    DatePartSound(L, s);
  }

  // ---------------------------------------------------------------------
  // The date
  // ---------------------------------------------------------------------

  /** A group, stripped. */
  function GroupText(L: string, g: Span): string
    requires g.lo <= g.hi <= |L|
  {
    Strip(L[g.lo..g.hi])
  }

  /** The date `extract_invoice_data` reports; empty when neither pattern matches. */
  function Date(text: string): string {
    match Search1(text)
    case Some(g) => GroupText(text, g)
    case None =>
      match Search2(text)
      case Some(g) => GroupText(text, g)
      case None => []
  }

  /** A labelled date wins; a bare date is read only when there is none. */
  lemma DateChain(text: string)
    ensures Search1(text).Some? ==>
      Date(text) == text[Search1(text).value.lo..Search1(text).value.hi]
    ensures Search1(text).None? && Search2(text).Some? ==>
      Date(text) == text[Search2(text).value.lo..Search2(text).value.hi]
    ensures Search1(text).None? && Search2(text).None? ==> Date(text) == []
  {
    if Search1(text).Some? {
      var s := Start1(text).value;
      var w := DateLabelEnd(text, s).value;
      var D := SkipWhile(text, w, NotDigit);
      DateIsToken(text, D);
    } else if Search2(text).Some? {
      DateIsToken(text, Start2(text).value);
    }
  }

  /** A whole date: one or two digits, a separator, one or two digits, a separator, two to four digits. */
  ghost predicate IsDate(w: string) {
    exists a, b :: DateShape(w, 0, a, b, |w|)
  }

  /** A date cut out of the text is a whole date, with nothing for `strip` to remove. */
  lemma SliceIsDate(L: string, D: nat, a: nat, b: nat, e: nat)
    requires DateShape(L, D, a, b, e)
    ensures IsDate(L[D..e]) && Strip(L[D..e]) == L[D..e]
  {
    DateShapeSlice(L, D, a, b, e);
    var w := L[D..e];
    assert DateShape(w, 0, a - D, b - D, |w|);
    assert IsDigit(w[0]) && IsDigit(w[|w| - 1]);
    assert "" + w == w;
    StripPadded("", w);
  }

  lemma DateIsToken(L: string, D: nat)
    requires D <= |L| && DatePart(L, D).Some?
    ensures var e := DatePart(L, D).value;
      Strip(L[D..e]) == L[D..e] && IsDate(L[D..e])
  {
    var e := DatePart(L, D).value;
    DatePartSound(L, D);
    var a, b :| DateShape(L, D, a, b, e);
    SliceIsDate(L, D, a, b, e);
  }

  /** The date reported is empty or a whole date. */
  lemma DateIsDate(text: string)
    ensures Date(text) == [] || IsDate(Date(text))
  {
    if Search1(text).Some? {
      var s := Start1(text).value;
      var w := DateLabelEnd(text, s).value;
      DateIsToken(text, SkipWhile(text, w, NotDigit));
    } else if Search2(text).Some? {
      DateIsToken(text, Start2(text).value);
    }
  }
}
