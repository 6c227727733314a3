/**
 * `_parse_invoice_items` (app/ai_utils.py): every stripped, non-blank line
 * of the text is tried against the three item patterns in a fixed order
 * (Producto with quantity, the generic row, Producto without quantity);
 * the first that matches yields at most one item, and a line without a
 * quantity whose quantity cannot be inferred is dropped.
 */
module Items {
  import opened Wrappers
  import opened Text
  import opened Numbers
  import opened Patterns
  import opened Scan

  /** One row of an invoice. */
  datatype LineItem = LineItem(
    code: string,
    description: string,
    quantity: int,
    unitPrice: real,
    total: real)

  /** The text of a group. */
  function Group(line: string, sp: Span): string
    requires sp.lo <= sp.hi <= |line|
  {
    line[sp.lo..sp.hi]
  }

  lemma AllInSlice(s: string, lo: nat, hi: nat, p: char -> bool)
    requires AllIn(s, lo, hi, p)
    ensures All(s[lo..hi], p)
  {
    assert forall k :: 0 <= k < hi - lo ==> s[lo..hi][k] == s[lo + k];
  }

  /** `int(group)` for a group of digits. */
  function GroupInt(line: string, sp: Span): nat
    requires AllIn(line, sp.lo, sp.hi, IsDigit)
  {
    AllInSlice(line, sp.lo, sp.hi, IsDigit);
    DigitsValue(Group(line, sp))
  }

  /** `_to_float(group)`. */
  function GroupFloat(line: string, sp: Span): real
    requires sp.lo <= sp.hi <= |line|
  {
    ToFloat(Group(line, sp))
  }

  /** The characters `strip(" -~")` removes from a generic description. */
  predicate IsDescTrim(c: char) {
    c == ' ' || c == '-' || c == '~'
  }

  /** The item built from a match of pattern 1. */
  function ProductItem(line: string, g: Groups): LineItem
    requires ProductShape(line, g)
  {
    LineItem(Strip(Group(line, g.code)), Strip(Group(line, g.desc)), GroupInt(line, g.qty),
             GroupFloat(line, g.price), GroupFloat(line, g.total))
  }

  /** The item built from a match of pattern 2. */
  function GenericItem(line: string, g: Groups): LineItem
    requires GenericShape(line, g)
  {
    LineItem(Strip(Group(line, g.code)), StripBy(Group(line, g.desc), IsDescTrim), GroupInt(line, g.qty),
             GroupFloat(line, g.price), GroupFloat(line, g.total))
  }

  /** The item built from a match of pattern 3, once its quantity is inferred. */
  function NoQtyItem(line: string, g: NoQtyGroups): Option<LineItem>
    requires NoQtyShape(line, g)
  {
    var price := GroupFloat(line, g.price);
    var total := GroupFloat(line, g.total);
    match InferQty(price, total)
    case Some(q) => Some(LineItem(Strip(Group(line, g.code)), Strip(Group(line, g.desc)), q, price, total))
    case None => None
  }

  /** Pattern 3 with the quantity inferred, on a stripped line. */
  function FromNoQty(line: string): (r: Option<LineItem>)
    ensures r.Some? ==> 1 <= r.value.quantity <= MaxInferredQty
    ensures r.Some? ==> r.value.unitPrice >= 0.0 && r.value.total >= 0.0
  {
    match MatchNoQty(line)
    case Some(g) => NoQtyItem(line, g)
    case None => None
  }

  /** Patterns 2 then 3, on a stripped line. */
  function FromGeneric(line: string): (r: Option<LineItem>)
    ensures r.Some? ==> r.value.quantity >= 0 && r.value.unitPrice >= 0.0 && r.value.total >= 0.0
    ensures MatchGeneric(line).None? ==> r == FromNoQty(line)
  {
    match MatchGeneric(line)
    case Some(g) => Some(GenericItem(line, g))
    case None => FromNoQty(line)
  }

  /** Patterns 1, 2 then 3, on a stripped line. */
  function FromPatterns(line: string): (r: Option<LineItem>)
    ensures r.Some? ==> r.value.quantity >= 0 && r.value.unitPrice >= 0.0 && r.value.total >= 0.0
    ensures MatchProduct(line).None? ==> r == FromGeneric(line)
  {
    match MatchProduct(line)
    case Some(g) => Some(ProductItem(line, g))
    case None => FromGeneric(line)
  }

  /**
   * The item one raw line of text yields, if any: the line is stripped,
   * a blank line yields nothing, and the patterns are tried 1, 2, 3.
   * Quantities, prices and totals are never negative, and a quantity
   * inferred by pattern 3 lies in `[1, MaxInferredQty]`.
   */
  function ItemFromLine(raw: string): (r: Option<LineItem>)
    ensures r.Some? ==> r.value.quantity >= 0 && r.value.unitPrice >= 0.0 && r.value.total >= 0.0
    ensures (r.Some? && MatchProduct(Strip(raw)).None? && MatchGeneric(Strip(raw)).None?) ==>
              1 <= r.value.quantity <= MaxInferredQty
  {
    var line := Strip(raw);
    if line == [] then None else FromPatterns(line)
  }

  // ---------------------------------------------------------------------
  // What one line yields
  // ---------------------------------------------------------------------

  ghost predicate ProductMatches(line: string) {
    exists g :: ProductShape(line, g)
  }

  ghost predicate GenericMatches(line: string) {
    exists g :: GenericShape(line, g)
  }

  ghost predicate NoQtyMatches(line: string) {
    exists g :: NoQtyShape(line, g)
  }

  /**
   * Soundness: a line yields an item only when it is not blank and one of
   * the three patterns matches it.
   */
  lemma ItemNeedsMatch(raw: string)
    ensures ItemFromLine(raw).Some? ==>
      var line := Strip(raw);
      line != [] && (ProductMatches(line) || GenericMatches(line) || NoQtyMatches(line))
  {
    var line := Strip(raw);
    if ItemFromLine(raw).Some? {
      if MatchProduct(line).Some? {
        assert ProductShape(line, MatchProduct(line).value);
      } else if MatchGeneric(line).Some? {
        assert GenericShape(line, MatchGeneric(line).value);
      } else {
        assert NoQtyShape(line, MatchNoQty(line).value);
      }
    }
  }

  /**
   * Strategy 1 wins: a line that pattern 1 matches yields its item from
   * pattern 1 (with the longest description pattern 1 allows), even when
   * the generic pattern matches it too.
   */
  lemma ProductFirst(raw: string, g': Groups)
    requires ProductShape(Strip(raw), g')
    ensures var line := Strip(raw);
      MatchProduct(line).Some? && ItemFromLine(raw) == Some(ProductItem(line, MatchProduct(line).value))
  {
    var line := Strip(raw);
    ProductPriority(line, g');
    assert line != [] by {
      assert |line| >= g'.code.hi;
      assert g'.code.hi == g'.code.lo + |Producto|;
    }
  }

  /** Strategy 2 applies when pattern 1 does not match and pattern 2 does. */
  lemma GenericSecond(raw: string, g': Groups)
    requires MatchProduct(Strip(raw)).None? && GenericShape(Strip(raw), g')
    ensures var line := Strip(raw);
      MatchGeneric(line).Some? && ItemFromLine(raw) == Some(GenericItem(line, MatchGeneric(line).value))
  {
    var line := Strip(raw);
    GenericPriority(line, g');
    assert line != [] by {
      assert |line| > g'.code.lo;
    }
  }

  /**
   * Strategy 3: when only the pattern without quantity matches, the line
   * yields an item exactly when the quantity can be inferred from price
   * and total, and then the quantity is the inferred one.
   */
  lemma NoQtyThird(raw: string, g: NoQtyGroups)
    requires MatchProduct(Strip(raw)).None? && MatchGeneric(Strip(raw)).None?
    requires NoQtyShape(Strip(raw), g)
    ensures var line := Strip(raw);
      var q := InferQty(GroupFloat(line, g.price), GroupFloat(line, g.total));
      && (q.None? ==> ItemFromLine(raw) == None)
      && (q.Some? ==> ItemFromLine(raw).Some? && ItemFromLine(raw).value.quantity == q.value
                      && 1 <= q.value <= MaxInferredQty)
  {
    var line := Strip(raw);
    NoQtyUnique(line, g);
    assert line != [] by {
      assert |line| > g.code.lo;
    }
  }

  /** A blank line yields nothing. */
  lemma BlankLineYieldsNothing(raw: string)
    requires All(raw, IsSpace)
    ensures ItemFromLine(raw) == None
  {
    StripAllSpace(raw);
  }

  // ---------------------------------------------------------------------
  // All the lines of a text
  // ---------------------------------------------------------------------

  /** The items of a sequence of raw lines, in line order, at most one per line. */
  function ItemsOf(lines: seq<string>): (items: seq<LineItem>)
    ensures |items| <= |lines|
  {
    Collect(lines, ItemFromLine)
  }

  /** `_parse_invoice_items(text)`. */
  function ParseItems(text: string): seq<LineItem> {
    ItemsOf(SplitLines(text))
  }

  /**
   * The items of consecutive stretches of lines follow each other: the
   * items come in line order.
   */
  lemma ItemsOfAppend(a: seq<string>, b: seq<string>)
    ensures ItemsOf(a + b) == ItemsOf(a) + ItemsOf(b)
  {
    CollectAppend(a, b, ItemFromLine);
  }

  /** An item is listed exactly when some line yields it. */
  lemma ItemsOfMembers(lines: seq<string>, it: LineItem)
    ensures it in ItemsOf(lines) <==> exists j :: 0 <= j < |lines| && ItemFromLine(lines[j]) == Some(it)
  {
    CollectMembers(lines, ItemFromLine, it);
  }

  /** Every item in a parsed text is a yield of one of its lines. */
  lemma ParseItemsSources(text: string, it: LineItem)
    ensures it in ParseItems(text) <==>
      exists j :: 0 <= j < |SplitLines(text)| && ItemFromLine(SplitLines(text)[j]) == Some(it)
  {
    ItemsOfMembers(SplitLines(text), it);
  }

  /**
   * The body of the loop of `_parse_invoice_items` for one raw line:
   * strip it, skip it when blank, and take the item of the first pattern
   * that matches.
   */
  method ParseLine(raw: string) returns (r: Option<LineItem>)
    ensures r == ItemFromLine(raw)
  {
    var line := Strip(raw);
    if line == [] {
      return None;
    }
    var m := MatchProduct(line);
    if m.Some? {
      return Some(ProductItem(line, m.value));
    }
    m := MatchGeneric(line);
    if m.Some? {
      return Some(GenericItem(line, m.value));
    }
    var n := MatchNoQty(line);
    if n.None? {
      return None;
    }
    r := NoQtyItem(line, n.value);
  }

  /** The loop of `_parse_invoice_items`, appending items in line order. */
  method ParseInvoiceItems(text: string) returns (items: seq<LineItem>)
    ensures items == ParseItems(text)
  {
    var lines := SplitLines(text);
    items := [];
    var i := 0;
    while i < |lines|
      invariant 0 <= i <= |lines|
      invariant items == ItemsOf(lines[..i])
    {
      ItemsOfNext(lines, i);
      var r := ParseLine(lines[i]);
      if r.Some? {
        items := items + [r.value];
      }
      i := i + 1;
    }
    assert lines[..|lines|] == lines;
  }

  lemma ItemsOfNext(lines: seq<string>, i: nat)
    requires i < |lines|
    ensures ItemsOf(lines[..i + 1]) == ItemsOf(lines[..i]) + AsSeq(ItemFromLine(lines[i]))
  {
    CollectNext(lines, i, ItemFromLine);
  }
}
