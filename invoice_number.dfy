/**
 * The invoice number (`extract_invoice_data`, app/ai_utils.py): a
 * "número de factura" label followed by a number token, else one of the
 * shorter labels ("nº factura", "nro. factura", "factura nº", ...), else
 * the first line after one of four literal labels within 40 characters.
 *
 * Both patterns end with the same tail `[^\S\r\n]*[:#\-]?\s*([A-Z0-9\-/\.]+)`
 * and are searched case-insensitively; the number is the group.
 */
module InvoiceNumber {
  import opened Wrappers
  import opened Text
  import opened Patterns
  import opened Scan
  import opened Labels

  // ---------------------------------------------------------------------
  // The tail shared by both patterns
  // ---------------------------------------------------------------------

  /** `[^\S\r\n]`: whitespace other than `\r` and `\n`. */
  predicate IsHSpace(c: char) {
    IsSpace(c) && c != '\r' && c != '\n'
  }

  /** `[:#\-]`. */
  predicate IsMark(c: char) {
    c == ':' || c == '#' || c == '-'
  }

  /** `[A-Z0-9\-/\.]` ignoring case. */
  predicate IsNumberChar(c: char) {
    'a' <= c <= 'z' || 'A' <= c <= 'Z' || IsDigit(c) || c == '-' || c == '/' || c == '.'
  }

  /**
   * The ways the tail matches from `t`: horizontal whitespace to `h`, an
   * optional mark (taken when `o == h + 1`), whitespace to the group, and
   * the group, which is greedy and ends the pattern, so it runs as far as
   * it can.
   */
  predicate NumberTailShape(L: string, t: nat, h: nat, o: nat, g: Span) {
    && t <= h && AllIn(L, t, h, IsHSpace)
    && (o == h || (o == h + 1 && h < |L| && IsMark(L[h])))
    && o <= g.lo && AllIn(L, o, g.lo, IsSpace)
    && g.lo < g.hi && AllIn(L, g.lo, g.hi, IsNumberChar)
    && (g.hi == |L| || !IsNumberChar(L[g.hi]))
  }

  /** The group run from `o`, after the whitespace, if it is not empty. */
  function GroupFrom(L: string, o: nat): (r: Option<Span>)
    requires o <= |L|
  {
    var lo := SkipWhile(L, o, IsSpace);
    var hi := SkipWhile(L, lo, IsNumberChar);
    if hi == lo then None else Some(Span(lo, hi))
  }

  /**
   * The tail from `t` in backtracking order: the longest horizontal
   * whitespace and the mark taken first; if nothing follows the mark, the
   * mark is left to the group (a `-` starts a number).
   */
  function NumberTail(L: string, t: nat): (r: Option<Span>)
    requires t <= |L|
  {
    var h := SkipWhile(L, t, IsHSpace);
    if h < |L| && IsMark(L[h]) && GroupFrom(L, h + 1).Some? then GroupFrom(L, h + 1)
    else GroupFrom(L, h)
  }

  /** What the tail finds is a way the tail matches. */
  lemma NumberTailSound(L: string, t: nat)
    requires t <= |L| && NumberTail(L, t).Some?
    ensures var h := SkipWhile(L, t, IsHSpace);
      NumberTailShape(L, t, h, h + 1, NumberTail(L, t).value) || NumberTailShape(L, t, h, h, NumberTail(L, t).value)
  {
  }

  lemma GroupFromOf(L: string, o: nat, g: Span)
    requires o <= g.lo && AllIn(L, o, g.lo, IsSpace)
    requires g.lo < g.hi && AllIn(L, g.lo, g.hi, IsNumberChar) && (g.hi == |L| || !IsNumberChar(L[g.hi]))
    ensures GroupFrom(L, o) == Some(g)
  {
    assert !IsSpace(L[g.lo]);
    SkipWhileUnique(L, o, g.lo, IsSpace);
    SkipWhileUnique(L, g.lo, g.hi, IsNumberChar);
  }

  /**
   * Whenever the tail can match from `t`, the tail succeeds, and the group
   * it reports starts no earlier than any other way's: the mark is taken
   * when it can be, as the backtracking engine tries it first.
   */
  lemma NumberTailPriority(L: string, t: nat, h: nat, o: nat, g: Span)
    requires NumberTailShape(L, t, h, o, g)
    ensures NumberTail(L, t).Some? && g.lo <= NumberTail(L, t).value.lo
    ensures g.lo == NumberTail(L, t).value.lo ==> NumberTail(L, t).value == g
  {
    var hmax := SkipWhile(L, t, IsHSpace);
    SkipWhileCovers(L, t, h, IsHSpace);
    if o == h + 1 {
      TailWithMark(L, t, h, g);
    } else if hmax < |L| && IsMark(L[hmax]) && GroupFrom(L, hmax + 1).Some? {
      TailMarkTaken(L, t, h, g, hmax);
    } else {
      TailMarkLeft(L, t, h, g, hmax);
    }
  }

  /** Neither a mark nor a number character is whitespace. */
  lemma MarkAndNumberNotSpace(c: char)
    ensures IsMark(c) ==> !IsSpace(c)
    ensures IsNumberChar(c) ==> !IsSpace(c)
  {
  }

  /** A way with the mark: the run of horizontal whitespace stopped at the mark, so the tail takes it too. */
  lemma TailWithMark(L: string, t: nat, h: nat, g: Span)
    requires NumberTailShape(L, t, h, h + 1, g)
    ensures NumberTail(L, t) == Some(g)
  {
    MarkAndNumberNotSpace(L[h]);
    SkipWhileUnique(L, t, h, IsHSpace);
    GroupFromOf(L, h + 1, g);
  }

  /** A way without the mark, when the tail takes one: the tail's group lies beyond this one. */
  lemma TailMarkTaken(L: string, t: nat, h: nat, g: Span, hmax: nat)
    requires NumberTailShape(L, t, h, h, g)
    requires hmax == SkipWhile(L, t, IsHSpace) && h <= hmax
    requires hmax < |L| && IsMark(L[hmax]) && GroupFrom(L, hmax + 1).Some?
    ensures NumberTail(L, t).Some? && g.lo < NumberTail(L, t).value.lo
  {
    MarkAndNumberNotSpace(L[hmax]);
  }

  /** A way without the mark, when the tail takes none: both start their group after the same whitespace. */
  lemma TailMarkLeft(L: string, t: nat, h: nat, g: Span, hmax: nat)
    requires NumberTailShape(L, t, h, h, g)
    requires hmax == SkipWhile(L, t, IsHSpace) && h <= hmax
    requires !(hmax < |L| && IsMark(L[hmax]) && GroupFrom(L, hmax + 1).Some?)
    ensures NumberTail(L, t) == Some(g)
  {
    MarkAndNumberNotSpace(L[g.lo]);
    assert AllIn(L, hmax, g.lo, IsSpace);
    GroupFromOf(L, hmax, g);
  }

  // ---------------------------------------------------------------------
  // The first pattern: n[uú]mero\s+de\s+factura
  // ---------------------------------------------------------------------

  /** `[uú]` ignoring case. */
  predicate IsU(c: char) {
    LowerChar(c) == 'u' || LowerChar(c) == '\U{FA}'
  }

  /**
   * The cut points of the first label at `s`: `de` at `b` and `factura` at
   * `c`, each after a run of whitespace (its second spelling, `numero`,
   * is one of the first's and adds no match).
   */
  predicate Label1Shape(L: string, s: nat, b: nat, c: nat) {
    && s + 2 <= |L| && LowerChar(L[s]) == 'n' && IsU(L[s + 1]) && WordCI(L, s + 2, "mero")
    && s + 6 < b && AllIn(L, s + 6, b, IsSpace) && WordCI(L, b, "de")
    && b + 2 < c && AllIn(L, b + 2, c, IsSpace) && WordCI(L, c, "factura")
  }

  /** Where the first label starting at `s` ends, if it starts there. */
  function Label1End(L: string, s: nat): (r: Option<nat>)
    ensures r.Some? ==> r.value <= |L|
  {
    if s + 6 <= |L| && LowerChar(L[s]) == 'n' && IsU(L[s + 1]) && WordCI(L, s + 2, "mero") then
      var b := SkipWhile(L, s + 6, IsSpace);
      if b == s + 6 || !WordCI(L, b, "de") then None
      else
        var c := SkipWhile(L, b + 2, IsSpace);
        if c == b + 2 || !WordCI(L, c, "factura") then None else Some(c + 7)
    else None
  }

  lemma Label1Unique(L: string, s: nat, b: nat, c: nat)
    requires Label1Shape(L, s, b, c)
    ensures Label1End(L, s) == Some(c + 7)
  {
    assert LowerChar(L[b + 0]) == "de"[0] == 'd';
    SkipWhileUnique(L, s + 6, b, IsSpace);
    assert LowerChar(L[c + 0]) == "factura"[0] == 'f';
    SkipWhileUnique(L, b + 2, c, IsSpace);
  }

  lemma Label1Sound(L: string, s: nat)
    requires Label1End(L, s).Some?
    ensures exists b, c :: Label1Shape(L, s, b, c) && Label1End(L, s) == Some(c + 7)
  {
    var b := SkipWhile(L, s + 6, IsSpace);
    var c := SkipWhile(L, b + 2, IsSpace);
    assert Label1Shape(L, s, b, c);
  }

  /** The first pattern's group when its match starts at `s`. */
  function Match1At(L: string, s: nat): Option<Span> {
    match Label1End(L, s)
    case None => None
    case Some(t) => NumberTail(L, t)
  }

  /** Where `re.search` with the first pattern finds its match: the leftmost start. */
  function Start1(L: string): Option<nat> {
    FirstIn(0, |L|, (s: nat) => Match1At(L, s).Some?)
  }

  /** `re.search` with the first pattern: its group, if it matches. */
  function Search1(L: string): Option<Span> {
    match Start1(L)
    case None => None
    case Some(s) => Match1At(L, s)
  }

  /** When the first pattern matches nowhere before `s0`, the search reports its match at `s0`. */
  lemma Search1First(L: string, s0: nat)
    requires s0 < |L| && Match1At(L, s0).Some?
    requires forall s: nat :: s < s0 ==> Match1At(L, s).None?
    ensures Search1(L) == Match1At(L, s0)
  {
    Start1Of(L, s0);
  }

  /** A start where the first pattern matches bounds the start the search reports. */
  lemma Start1Of(L: string, s: nat)
    requires s < |L| && Match1At(L, s).Some?
    ensures Start1(L).Some? && Start1(L).value <= s
  {
    var p := (k: nat) => Match1At(L, k).Some?;
    assert p(s);
  }

  /**
   * Whenever the first pattern can match `L`, the search succeeds, at the
   * leftmost start, and reports the group the engine does.
   */
  lemma Search1Priority(L: string, s: nat, b: nat, c: nat, h: nat, o: nat, g: Span)
    requires Label1Shape(L, s, b, c) && NumberTailShape(L, c + 7, h, o, g)
    ensures Search1(L).Some?
    ensures Start1(L).value <= s && (Start1(L).value == s ==> g.lo <= Search1(L).value.lo)
  {
    var t := c + 7;
    assert Label1End(L, s) == Some(t) by {
      Label1Unique(L, s, b, c);
    }
    assert NumberTail(L, t).Some? && g.lo <= NumberTail(L, t).value.lo by {
      NumberTailPriority(L, t, h, o, g);
    }
    Search1After(L, s, t, g);
  }

  /**
   * A label ending at `t` and followed by a number that starts no earlier
   * than `g` bounds the search, which from `s` reads that number.
   */
  lemma Search1After(L: string, s: nat, t: nat, g: Span)
    requires Label1End(L, s) == Some(t) && NumberTail(L, t).Some? && g.lo <= NumberTail(L, t).value.lo
    ensures Search1(L).Some? && Start1(L).value <= s
    ensures Start1(L).value == s ==> Search1(L) == NumberTail(L, t) && g.lo <= Search1(L).value.lo
  {
    Match1AtOf(L, s, t);
    Start1Of(L, s);
  }

  lemma Match1AtOf(L: string, s: nat, t: nat)
    requires Label1End(L, s) == Some(t)
    ensures s < |L| && Match1At(L, s) == NumberTail(L, t)
  {
  }

  // ---------------------------------------------------------------------
  // The second pattern: n[°ºo]\s*factura | nro\.?\s*factura | factura\s*n[°ºo]?
  // ---------------------------------------------------------------------

  /** `[°ºo]` ignoring case. */
  predicate IsOrdinal(c: char) {
    c == '\U{B0}' || c == '\U{BA}' || LowerChar(c) == 'o'
  }

  /**
   * The label ends of the second pattern at `s`, in the order the
   * backtracking engine tries them. The three spellings start
   * differently (`n` then an ordinal, `nr`, `f`), so at most one applies;
   * only the last has an optional part, tried taken first.
   */
  function Label2Ends(L: string, s: nat): (r: seq<nat>)
    ensures forall k :: 0 <= k < |r| ==> r[k] <= |L|
    ensures |r| <= 2 && (|r| == 2 ==> r[0] == r[1] + 1 && r[1] < |L| && IsOrdinal(L[r[1]]))
  {
    if s + 2 <= |L| && LowerChar(L[s]) == 'n' && IsOrdinal(L[s + 1]) then
      var f := SkipWhile(L, s + 2, IsSpace);
      if WordCI(L, f, "factura") then [f + 7] else []
    else if s + 3 <= |L| && WordCI(L, s, "nro") then
      var d := if s + 3 < |L| && L[s + 3] == '.' then s + 4 else s + 3;
      var f := SkipWhile(L, d, IsSpace);
      if WordCI(L, f, "factura") then [f + 7] else []
    else if WordCI(L, s, "factura") then
      var n := SkipWhile(L, s + 7, IsSpace);
      if n < |L| && LowerChar(L[n]) == 'n' then
        if n + 1 < |L| && IsOrdinal(L[n + 1]) then [n + 2, n + 1] else [n + 1]
      else []
    else []
  }

  /** `n[°ºo]\s*factura` spans `s` to `t`. */
  predicate OrdinalLabel(L: string, s: nat, t: nat) {
    && s + 9 <= t && AllIn(L, s + 2, t - 7, IsSpace) && WordCI(L, t - 7, "factura")
    && LowerChar(L[s]) == 'n' && IsOrdinal(L[s + 1])
  }

  /** `nro\.?\s*factura` spans `s` to `t`, without or with the dot. */
  predicate NroLabel(L: string, s: nat, t: nat) {
    || (s + 10 <= t && AllIn(L, s + 3, t - 7, IsSpace) && WordCI(L, t - 7, "factura") && WordCI(L, s, "nro"))
    || (&& s + 11 <= t && AllIn(L, s + 4, t - 7, IsSpace) && WordCI(L, t - 7, "factura")
        && WordCI(L, s, "nro") && L[s + 3] == '.')
  }

  /** `factura\s*n[°ºo]?` spans `s` to `t`, without or with the ordinal. */
  predicate FacturaLabel(L: string, s: nat, t: nat) {
    || (s + 8 <= t <= |L| && AllIn(L, s + 7, t - 1, IsSpace) && WordCI(L, s, "factura") && LowerChar(L[t - 1]) == 'n')
    || (&& s + 9 <= t <= |L| && AllIn(L, s + 7, t - 2, IsSpace) && WordCI(L, s, "factura")
        && LowerChar(L[t - 2]) == 'n' && IsOrdinal(L[t - 1]))
  }

  /** The ways a label of the second pattern spans `s` to `t`: one of its three spellings. */
  predicate Label2Shape(L: string, s: nat, t: nat) {
    OrdinalLabel(L, s, t) || NroLabel(L, s, t) || FacturaLabel(L, s, t)
  }

  lemma WordHead(L: string, at: nat, w: string)
    requires |w| > 0 && WordCI(L, at, w)
    ensures at < |L| && LowerChar(L[at]) == w[0]
  {
    assert LowerChar(L[at + 0]) == w[0];
  }

  /** `factura` ending at `t` is preceded by a non-space. */
  lemma FacturaEnd(L: string, t: nat)
    requires t >= 7 && WordCI(L, t - 7, "factura")
    ensures t <= |L| && !IsSpace(L[t - 7])
  {
    WordHead(L, t - 7, "factura");
    LetterNotSpace(L[t - 7], 'f');
  }

  /** The label ends the matcher tries at `s` are exactly the ends of the label spellings. */
  lemma Label2EndsExact(L: string, s: nat, t: nat)
    ensures t in Label2Ends(L, s) <==> Label2Shape(L, s, t)
  {
    if s + 2 <= |L| && LowerChar(L[s]) == 'n' && IsOrdinal(L[s + 1]) {
      OrdinalEnds(L, s, t);
    } else if s + 3 <= |L| && WordCI(L, s, "nro") {
      NroEnds(L, s, t);
    } else if WordCI(L, s, "factura") {
      FacturaEnds(L, s, t);
    } else {
      assert !FacturaLabel(L, s, t);
      assert !NroLabel(L, s, t);
    }
  }

  lemma OrdinalEnds(L: string, s: nat, t: nat)
    requires s + 2 <= |L| && LowerChar(L[s]) == 'n' && IsOrdinal(L[s + 1])
    ensures t in Label2Ends(L, s) <==> Label2Shape(L, s, t)
  {
    assert !WordCI(L, s, "nro") by {
      assert LowerChar(L[s + 1]) != "nro"[1];
    }
    assert !WordCI(L, s, "factura") by {
      if WordCI(L, s, "factura") { WordHead(L, s, "factura"); }
    }
    assert !NroLabel(L, s, t) && !FacturaLabel(L, s, t);
    if OrdinalLabel(L, s, t) {
      FacturaEnd(L, t);
      SkipWhileUnique(L, s + 2, t - 7, IsSpace);
    }
  }

  lemma NroEnds(L: string, s: nat, t: nat)
    requires !(s + 2 <= |L| && LowerChar(L[s]) == 'n' && IsOrdinal(L[s + 1]))
    requires s + 3 <= |L| && WordCI(L, s, "nro")
    ensures t in Label2Ends(L, s) <==> Label2Shape(L, s, t)
  {
    NroOnly(L, s, t);
    var d := if s + 3 < |L| && L[s + 3] == '.' then s + 4 else s + 3;
    SpacesThenFactura(L, d, t);
    NroLabelAfter(L, s, t, d);
  }

  /** At `nro`, neither of the other two spellings applies. */
  lemma NroOnly(L: string, s: nat, t: nat)
    requires !(s + 2 <= |L| && LowerChar(L[s]) == 'n' && IsOrdinal(L[s + 1]))
    requires s + 3 <= |L| && WordCI(L, s, "nro")
    ensures !OrdinalLabel(L, s, t) && !FacturaLabel(L, s, t) && !WordCI(L, s, "factura")
  {
    WordHead(L, s, "nro");
    if WordCI(L, s, "factura") {
      WordHead(L, s, "factura");
    }
  }

  /** `nro`, the optional dot, then whitespace and `factura` ending at `t`. */
  lemma NroLabelAfter(L: string, s: nat, t: nat, d: nat)
    requires s + 3 <= |L| && WordCI(L, s, "nro")
    requires d == if s + 3 < |L| && L[s + 3] == '.' then s + 4 else s + 3
    ensures NroLabel(L, s, t) <==> (d + 7 <= t && AllIn(L, d, t - 7, IsSpace) && WordCI(L, t - 7, "factura"))
  {
    if d == s + 4 && s + 10 <= t && AllIn(L, s + 3, t - 7, IsSpace) && WordCI(L, t - 7, "factura") {
      // The dot is neither whitespace nor the `f` of `factura`.
      assert LowerChar(L[s + 3]) == '.';
      if t - 7 == s + 3 {
        WordHead(L, t - 7, "factura");
      } else {
        assert IsSpace(L[s + 3]);
      }
    }
  }

  /** Whitespace from `d` and then `factura` ending at `t`: what the skip finds, and only that. */
  lemma SpacesThenFactura(L: string, d: nat, t: nat)
    requires d <= |L|
    ensures (var f := SkipWhile(L, d, IsSpace); WordCI(L, f, "factura") && t == f + 7)
        <==> (d + 7 <= t && AllIn(L, d, t - 7, IsSpace) && WordCI(L, t - 7, "factura"))
  {
    if d + 7 <= t && AllIn(L, d, t - 7, IsSpace) && WordCI(L, t - 7, "factura") {
      FacturaEnd(L, t);
      SkipWhileUnique(L, d, t - 7, IsSpace);
    }
  }

  lemma FacturaEnds(L: string, s: nat, t: nat)
    requires !(s + 2 <= |L| && LowerChar(L[s]) == 'n' && IsOrdinal(L[s + 1]))
    requires !(s + 3 <= |L| && WordCI(L, s, "nro"))
    requires WordCI(L, s, "factura")
    ensures t in Label2Ends(L, s) <==> Label2Shape(L, s, t)
  {
    assert !OrdinalLabel(L, s, t) && !NroLabel(L, s, t);
    SpacesThenN(L, s + 7, t);
  }

  /** Whitespace from `d`, then `n` and an optional ordinal ending at `t`: what the skip finds, and only that. */
  lemma SpacesThenN(L: string, d: nat, t: nat)
    requires d <= |L|
    ensures (var n := SkipWhile(L, d, IsSpace);
             && n < |L| && LowerChar(L[n]) == 'n'
             && (t == n + 1 || (t == n + 2 && n + 1 < |L| && IsOrdinal(L[n + 1]))))
        <==> (|| (d + 1 <= t <= |L| && AllIn(L, d, t - 1, IsSpace) && LowerChar(L[t - 1]) == 'n')
              || (&& d + 2 <= t <= |L| && AllIn(L, d, t - 2, IsSpace)
                  && LowerChar(L[t - 2]) == 'n' && IsOrdinal(L[t - 1])))
  {
    if d + 1 <= t <= |L| && AllIn(L, d, t - 1, IsSpace) && LowerChar(L[t - 1]) == 'n' {
      LetterNotSpace(L[t - 1], 'n');
      SkipWhileUnique(L, d, t - 1, IsSpace);
    }
    if d + 2 <= t <= |L| && AllIn(L, d, t - 2, IsSpace) && LowerChar(L[t - 2]) == 'n' && IsOrdinal(L[t - 1]) {
      LetterNotSpace(L[t - 2], 'n');
      SkipWhileUnique(L, d, t - 2, IsSpace);
    }
  }


  /** The group of the first label end from which the tail matches. */
  function FirstTail(L: string, ends: seq<nat>): (r: Option<Span>)
    requires forall k :: 0 <= k < |ends| ==> ends[k] <= |L|
  {
    if ends == [] then None
    else if NumberTail(L, ends[0]).Some? then NumberTail(L, ends[0])
    else FirstTail(L, ends[1..])
  }

  function Match2At(L: string, s: nat): Option<Span> {
    FirstTail(L, Label2Ends(L, s))
  }

  /** Where `re.search` with the second pattern finds its match: the leftmost start. */
  function Start2(L: string): Option<nat> {
    FirstIn(0, |L|, (s: nat) => Match2At(L, s).Some?)
  }

  /** `re.search` with the second pattern: its group, if it matches. */
  function Search2(L: string): Option<Span> {
    match Start2(L)
    case None => None
    case Some(s) => Match2At(L, s)
  }

  /** A start where the second pattern matches bounds the start the search reports. */
  lemma Start2Of(L: string, s: nat)
    requires s < |L| && Match2At(L, s).Some?
    ensures Start2(L).Some? && Start2(L).value <= s
  {
    var p := (k: nat) => Match2At(L, k).Some?;
    assert p(s);
  }

  /** A group the second pattern reports follows one of its labels at the start the search picks. */
  lemma {:induction false} FirstTailSound(L: string, ends: seq<nat>)
    requires forall k :: 0 <= k < |ends| ==> ends[k] <= |L|
    ensures FirstTail(L, ends).Some? ==>
      exists k :: 0 <= k < |ends| && NumberTail(L, ends[k]) == FirstTail(L, ends)
                  && forall j :: 0 <= j < k ==> NumberTail(L, ends[j]).None?
  {
    if ends != [] && NumberTail(L, ends[0]).None? {
      var rest := ends[1..];
      FirstTailSkip(L, ends);
      FirstTailSound(L, rest);
      if FirstTail(L, rest).Some? {
        var k :| 0 <= k < |rest| && NumberTail(L, rest[k]) == FirstTail(L, rest)
                 && forall j :: 0 <= j < k ==> NumberTail(L, rest[j]).None?;
        FirstTailLater(L, ends, k, FirstTail(L, rest));
      }
    }
  }

  /** Past a label end without a tail, the search goes on with the next one. */
  lemma FirstTailSkip(L: string, ends: seq<nat>)
    requires forall k :: 0 <= k < |ends| ==> ends[k] <= |L|
    requires ends != [] && NumberTail(L, ends[0]).None?
    ensures FirstTail(L, ends) == FirstTail(L, ends[1..])
  {
  }

  /** A first tail among the later label ends, after a first end without one. */
  lemma FirstTailLater(L: string, ends: seq<nat>, k: nat, g: Option<Span>)
    requires forall k :: 0 <= k < |ends| ==> ends[k] <= |L|
    requires ends != [] && NumberTail(L, ends[0]).None?
    requires k < |ends| - 1 && NumberTail(L, ends[1..][k]) == g
    requires forall j :: 0 <= j < k ==> NumberTail(L, ends[1..][j]).None?
    ensures NumberTail(L, ends[k + 1]) == g
    ensures forall j :: 0 <= j < k + 1 ==> NumberTail(L, ends[j]).None?
  {
    forall j | 0 <= j < k + 1
      ensures NumberTail(L, ends[j]).None?
    {
      if j > 0 {
        assert ends[j] == ends[1..][j - 1];
      }
    }
  }

  /** Whenever a label of the second pattern is followed by its tail, the search succeeds no later. */
  lemma Search2Complete(L: string, s: nat, k: nat)
    requires k < |Label2Ends(L, s)| && NumberTail(L, Label2Ends(L, s)[k]).Some?
    ensures Search2(L).Some?
    ensures Start2(L).value <= s
  {
    var ends := Label2Ends(L, s);
    FirstTailComplete(L, ends, k);
    Start2Of(L, s);
  }

  lemma {:induction false} FirstTailComplete(L: string, ends: seq<nat>, k: nat)
    requires forall j :: 0 <= j < |ends| ==> ends[j] <= |L|
    requires k < |ends| && NumberTail(L, ends[k]).Some?
    ensures FirstTail(L, ends).Some?
  {
    if k > 0 && NumberTail(L, ends[0]).None? {
      assert ends[1..][k - 1] == ends[k];
      FirstTailComplete(L, ends[1..], k - 1);
    }
  }

  /**
   * Whenever the second pattern can match `L`, the search succeeds at the
   * leftmost start. From a start `s` it reads the tail after the longest
   * label whose tail matches, so an ordinal after `factura n` is taken when
   * it can be. When that label is the given one, the group starts no
   * earlier than any other way's.
   */
  lemma Search2Priority(L: string, s: nat, t: nat, h: nat, o: nat, g: Span)
    requires Label2Shape(L, s, t) && NumberTailShape(L, t, h, o, g)
    ensures Search2(L).Some? && Start2(L).value <= s
    ensures Start2(L).value == s ==>
      exists u :: && t <= u <= |L| && Label2Shape(L, s, u) && Search2(L) == NumberTail(L, u)
                  && (forall v :: u < v <= |L| && Label2Shape(L, s, v) ==> NumberTail(L, v).None?)
                  && (u == t ==> g.lo <= Search2(L).value.lo)
  {
    assert t in Label2Ends(L, s) by {
      Label2EndsExact(L, s, t);
    }
    assert NumberTail(L, t).Some? && g.lo <= NumberTail(L, t).value.lo by {
      NumberTailPriority(L, t, h, o, g);
    }
    var k :| 0 <= k < |Label2Ends(L, s)| && Label2Ends(L, s)[k] == t;
    Search2Complete(L, s, k);
    if Start2(L).value == s {
      var i := Search2Longest(L, s, k);
      var u := Label2Ends(L, s)[i];
      LongestLabel(L, s, i);
      assert && t <= u <= |L| && Label2Shape(L, s, u) && Search2(L) == NumberTail(L, u)
             && (forall v :: u < v <= |L| && Label2Shape(L, s, v) ==> NumberTail(L, v).None?)
             && (u == t ==> g.lo <= Search2(L).value.lo);
    }
  }

  /** A label end is longest among those whose tail matches, in the terms of the label spellings. */
  lemma LongestLabel(L: string, s: nat, i: nat)
    requires i < |Label2Ends(L, s)|
    requires forall j :: 0 <= j < i ==> NumberTail(L, Label2Ends(L, s)[j]).None?
    ensures Label2Shape(L, s, Label2Ends(L, s)[i])
    ensures forall v :: Label2Ends(L, s)[i] < v <= |L| && Label2Shape(L, s, v) ==> NumberTail(L, v).None?
  {
    var ends := Label2Ends(L, s);
    assert Label2Shape(L, s, ends[i]) by {
      Label2EndsExact(L, s, ends[i]);
    }
    forall v | ends[i] < v <= |L| && Label2Shape(L, s, v)
      ensures NumberTail(L, v).None?
    {
      assert v in ends by {
        Label2EndsExact(L, s, v);
      }
      var j :| 0 <= j < |ends| && ends[j] == v;
      assert j < i;
    }
  }

  /** From the start it picks, the search reads the tail after the first label end whose tail matches. */
  lemma Search2Longest(L: string, s: nat, k: nat) returns (i: nat)
    requires Start2(L) == Some(s) && k < |Label2Ends(L, s)| && NumberTail(L, Label2Ends(L, s)[k]).Some?
    ensures i <= k && Search2(L) == NumberTail(L, Label2Ends(L, s)[i])
    ensures forall j :: 0 <= j < i ==> NumberTail(L, Label2Ends(L, s)[j]).None?
  {
    var ends := Label2Ends(L, s);
    assert Search2(L) == FirstTail(L, ends);
    i := FirstTailAt(L, ends, k);
  }

  /** The first label end whose tail matches comes no later than any that does. */
  lemma FirstTailAt(L: string, ends: seq<nat>, k: nat) returns (i: nat)
    requires forall j :: 0 <= j < |ends| ==> ends[j] <= |L|
    requires k < |ends| && NumberTail(L, ends[k]).Some?
    ensures i <= k && FirstTail(L, ends) == NumberTail(L, ends[i])
    ensures forall j :: 0 <= j < i ==> NumberTail(L, ends[j]).None?
  {
    FirstTailSound(L, ends);
    i :| 0 <= i < |ends| && NumberTail(L, ends[i]) == FirstTail(L, ends)
         && forall j :: 0 <= j < i ==> NumberTail(L, ends[j]).None?;
  }

  /** A group the second search reports follows a label of the second pattern at the start it picks. */
  lemma Search2Sound(L: string)
    ensures Search2(L).Some? ==>
      Start2(L).Some? && exists u: nat :: u <= |L| && Label2Shape(L, Start2(L).value, u) && Search2(L) == NumberTail(L, u)
  {
    if Search2(L).Some? {
      var s := Start2(L).value;
      var ends := Label2Ends(L, s);
      FirstTailSound(L, ends);
      var i :| 0 <= i < |ends| && NumberTail(L, ends[i]) == FirstTail(L, ends);
      Label2EndsExact(L, s, ends[i]);
    }
  }

  // ---------------------------------------------------------------------
  // The invoice number
  // ---------------------------------------------------------------------

  const NumberLabels: seq<string> := ["n\U{B0} factura", "no. factura", "nro factura", "n\U{B0} comprobante"]
  const NumberWindow: nat := 40

  /** The group of a match, stripped. */
  function GroupText(L: string, g: Option<Span>): string {
    if g.Some? && g.value.lo <= g.value.hi <= |L| then Strip(L[g.value.lo..g.value.hi]) else []
  }

  /** The invoice number `extract_invoice_data` reports. */
  function Number(text: string): string {
    var n1 := GroupText(text, Search1(text));
    if n1 != [] then n1
    else
      var n2 := GroupText(text, Search2(text));
      if n2 != [] then n2 else AfterAnyLabel(text, NumberLabels, NumberWindow)
  }

  /** A number read by a pattern is a non-empty run of number characters. */
  lemma GroupIsToken(L: string, t: nat)
    requires t <= |L| && NumberTail(L, t).Some?
    ensures var g := NumberTail(L, t).value;
      g.lo < g.hi <= |L| && All(L[g.lo..g.hi], IsNumberChar)
      && GroupText(L, Some(g)) == L[g.lo..g.hi]
  {
    var g := NumberTail(L, t).value;
    assert forall k :: 0 <= k < g.hi - g.lo ==> L[g.lo..g.hi][k] == L[g.lo + k];
    StripToken(L[g.lo..g.hi]);
  }

  lemma StripToken(w: string)
    requires |w| > 0 && All(w, IsNumberChar)
    ensures Strip(w) == w
  {
    SkipWhileUnique(w, 0, 0, IsSpace);
    SkipBackWhileUnique(w, |w|, |w|, IsSpace);
  }

  /**
   * The fallback chain: the first pattern wins whenever it matches; the
   * second is used only when the first does not; the labels only when
   * neither does.
   */
  lemma NumberChain(text: string)
    ensures Search1(text).Some? ==> Number(text) == GroupText(text, Search1(text))
    ensures Search1(text).None? && Search2(text).Some? ==> Number(text) == GroupText(text, Search2(text))
    ensures Search1(text).None? && Search2(text).None? ==>
      Number(text) == AfterAnyLabel(text, NumberLabels, NumberWindow)
  {
    if Search1(text).Some? {
      NonEmptyGroup1(text);
    } else if Search2(text).Some? {
      NonEmptyGroup2(text);
    }
  }

  lemma NonEmptyGroup1(text: string)
    requires Search1(text).Some?
    ensures GroupText(text, Search1(text)) != []
  {
    var s := Start1(text).value;
    GroupIsToken(text, Label1End(text, s).value);
  }

  lemma NonEmptyGroup2(text: string)
    requires Search2(text).Some?
    ensures GroupText(text, Search2(text)) != []
  {
    var s := Start2(text).value;
    var ends := Label2Ends(text, s);
    assert Search2(text) == FirstTail(text, ends);
    FirstTailSound(text, ends);
    var k :| 0 <= k < |ends| && NumberTail(text, ends[k]) == FirstTail(text, ends);
    TailGroupNonEmpty(text, ends[k]);
  }

  /** The group the tail finds is never empty once stripped. */
  lemma TailGroupNonEmpty(L: string, t: nat)
    requires t <= |L| && NumberTail(L, t).Some?
    ensures GroupText(L, NumberTail(L, t)) != []
  {
    GroupIsToken(L, t);
  }

  /** A number character is never a line break. */
  lemma NumberCharsOnOneLine(w: string)
    requires All(w, IsNumberChar)
    ensures All(w, IsLineChar)
  {
  }

  /** What the label fallback finds fits its window and lies on one line. */
  lemma LabelNumberShape(text: string)
    ensures var n := AfterAnyLabel(text, NumberLabels, NumberWindow);
      |n| <= NumberWindow && All(n, IsLineChar)
  {
    AfterAnyLabelIsFirst(text, NumberLabels, NumberWindow);
    var n := AfterAnyLabel(text, NumberLabels, NumberWindow);
    if n != [] {
      var k :| 0 <= k < |NumberLabels| && n == AfterLabel(text, NumberLabels[k], NumberWindow)
               && forall m :: 0 <= m < k ==> AfterLabel(text, NumberLabels[m], NumberWindow) == [];
      AfterLabelShape(text, NumberLabels[k], NumberWindow);
    }
  }

  /**
   * The invoice number lies on one line, and is either a token of number
   * characters read by a pattern or a label value of at most 40 characters.
   */
  lemma NumberShape(text: string)
    ensures var n := Number(text);
      All(n, IsLineChar) && ((n != [] && All(n, IsNumberChar)) || |n| <= NumberWindow)
  {
    NumberChain(text);
    if Search1(text).Some? {
      GroupIsToken(text, Label1End(text, Start1(text).value).value);
      NumberCharsOnOneLine(Number(text));
    } else if Search2(text).Some? {
      var s := Start2(text).value;
      var ends := Label2Ends(text, s);
      FirstTailSound(text, ends);
      var k :| 0 <= k < |ends| && NumberTail(text, ends[k]) == FirstTail(text, ends);
      GroupIsToken(text, ends[k]);
      NumberCharsOnOneLine(Number(text));
    } else {
      LabelNumberShape(text);
    }
  }
}
