/**
 * The numeric helpers of the analysis engine (app/ai_utils.py):
 * `_to_float`, which reads a number written in the Spanish locale
 * ("1.308,80": `.` groups thousands, `,` is the decimal point), and
 * `_infer_qty_from_total`, which recovers an item quantity that OCR lost
 * from the unit price and the line total.
 *
 * Numbers are exact reals: the binary floating point of the source is not
 * modelled.
 */
module Numbers {
  import opened Wrappers
  import opened Text

  // ---------------------------------------------------------------------
  // Digits and decimal values
  // ---------------------------------------------------------------------

  function DigitValue(c: char): nat
    requires IsDigit(c)
  {
    c as int - '0' as int
  }

  /** `int(s)` for a string of ASCII digits (0 for the empty string). */
  function DigitsValue(s: string): nat
    requires All(s, IsDigit)
  {
    if s == [] then 0
    else
      assert All(s[..|s| - 1], IsDigit) by {
        assert forall k :: 0 <= k < |s| - 1 ==> s[..|s| - 1][k] == s[k];
      }
      10 * DigitsValue(s[..|s| - 1]) + DigitValue(s[|s| - 1])
  }

  function Pow10(n: nat): (p: nat)
    ensures p >= 1
  {
    if n == 0 then 1 else 10 * Pow10(n - 1)
  }

  /** The value of the decimal numeral `whole.frac`. */
  function DecimalValue(whole: string, frac: string): (x: real)
    requires All(whole, IsDigit) && All(frac, IsDigit)
    ensures x >= 0.0
  {
    DigitsValue(whole) as real + DigitsValue(frac) as real / Pow10(|frac|) as real
  }

  predicate IsDigitOrDot(c: char) {
    IsDigit(c) || c == '.'
  }

  // ---------------------------------------------------------------------
  // float() and _to_float
  // ---------------------------------------------------------------------

  /**
   * Python's `float(s)` on the unsigned decimal forms `ddd`, `ddd.`, `.ddd`
   * and `ddd.ddd`, with surrounding whitespace allowed; every other string
   * is rejected (`None` stands for the `ValueError`).
   */
  function ParseFloat(s: string): (r: Option<real>)
    ensures r.Some? ==> r.value >= 0.0
  {
    var t := Strip(s);
    if '.' in t then
      var k := FirstIndexOf(t, '.');
      var whole, frac := t[..k], t[k + 1..];
      if All(whole, IsDigit) && All(frac, IsDigit) && |whole| + |frac| > 0 then
        Some(DecimalValue(whole, frac))
      else
        None
    else if |t| > 0 && All(t, IsDigit) then
      Some(DigitsValue(t) as real)
    else
      None
  }

  /** `s.replace(c, "")`. */
  function RemoveChar(s: string, c: char): (r: string)
    ensures |r| <= |s|
    ensures c !in r
  {
    if s == [] then []
    else
      assert s == [s[0]] + s[1..];
      (if s[0] == c then [] else [s[0]]) + RemoveChar(s[1..], c)
  }

  /**
   * The rewriting `_to_float` applies before parsing: drop every `€` and
   * space, delete the grouping dots, and turn the decimal comma into a point.
   */
  function Normalize(t: string): (v: string)
    ensures |v| <= |t|
  {
    ReplaceChar(RemoveChar(RemoveChar(RemoveChar(t, '€'), ' '), '.'), ',', '.')
  }

  /**
   * `_to_float(s)`: strip, give 0 for a blank string, normalise, and parse;
   * a string that does not parse gives 0.
   */
  function ToFloat(s: string): (x: real)
    ensures x >= 0.0
  {
    var t := Strip(s);
    if t == [] then 0.0
    else
      match ParseFloat(Normalize(t))
      case Some(x) => x
      case None => 0.0
  }

  // ---------------------------------------------------------------------
  // Properties of _to_float
  // ---------------------------------------------------------------------

  /** Empty or whitespace-only input gives 0. */
  lemma ToFloatBlank(s: string)
    requires All(s, IsSpace)
    ensures ToFloat(s) == 0.0
  {
    StripAllSpace(s);
  }

  lemma {:induction false} RemoveCharAppend(a: string, b: string, c: char)
    ensures RemoveChar(a + b, c) == RemoveChar(a, c) + RemoveChar(b, c)
  {
    if a == [] {
      assert a + b == b;
    } else {
      assert (a + b)[0] == a[0];
      assert (a + b)[1..] == a[1..] + b;
      RemoveCharAppend(a[1..], b, c);
    }
  }

  lemma {:induction false} RemoveCharAbsent(s: string, c: char)
    requires c !in s
    ensures RemoveChar(s, c) == s
  {
    if s != [] {
      RemoveCharAbsent(s[1..], c);
      assert s == [s[0]] + s[1..];
    }
  }

  /** Removing a character leaves the count of every other character alone. */
  lemma {:induction false} RemoveCharCount(s: string, c: char, x: char)
    requires x != c
    ensures multiset(RemoveChar(s, c))[x] == multiset(s)[x]
  {
    if s != [] {
      RemoveCharCount(s[1..], c, x);
      assert s == [s[0]] + s[1..];
    }
  }

  lemma {:induction false} RemoveDotsKeepsDigits(s: string)
    requires All(s, IsDigitOrDot)
    ensures All(RemoveChar(s, '.'), IsDigit)
  {
    if s != [] {
      assert All(s[1..], IsDigitOrDot) by {
        assert forall k :: 0 <= k < |s| - 1 ==> s[1..][k] == s[k + 1];
      }
      RemoveDotsKeepsDigits(s[1..]);
      assert IsDigitOrDot(s[0]);
    }
  }

  /** The digits and the decimal point of `d.f` leave the point where it is. */
  lemma ParseFloatDecimal(d: string, f: string)
    requires All(d, IsDigit) && All(f, IsDigit) && |d| + |f| > 0
    ensures ParseFloat(d + "." + f) == Some(DecimalValue(d, f))
  {
    var t := d + "." + f;
    DecimalEnds(d, f);
    StripKeeps(t);
    DecimalParts(d, f);
    ParseFloatPoint(t, |d|);
  }

  /** A numeral with a decimal point neither starts nor ends with whitespace. */
  lemma DecimalEnds(d: string, f: string)
    requires All(d, IsDigit) && All(f, IsDigit)
    ensures var t := d + "." + f; |t| > 0 && !IsSpace(t[0]) && !IsSpace(t[|t| - 1])
  {
    var t := d + "." + f;
    if |d| > 0 {
      assert t[0] == d[0] && IsDigit(d[0]);
      SpaceIsNotDigit(d[0]);
    }
    if |f| > 0 {
      assert t[|t| - 1] == f[|f| - 1] && IsDigit(f[|f| - 1]);
      SpaceIsNotDigit(f[|f| - 1]);
    }
  }

  /** The point of `d.f` is its first one, with `d` before it and `f` after it. */
  lemma DecimalParts(d: string, f: string)
    requires All(d, IsDigit)
    ensures var t := d + "." + f;
      && |d| < |t| && t[|d|] == '.' && '.' !in t[..|d|]
      && t[..|d|] == d && t[|d| + 1..] == f
  {
    var t := d + "." + f;
    assert t[..|d|] == d;
    assert t[|d| + 1..] == f;
  }

  /** How `float` reads a stripped string at its first point. */
  lemma ParseFloatPoint(t: string, k: nat)
    requires Strip(t) == t && k < |t| && t[k] == '.' && '.' !in t[..k]
    ensures ParseFloat(t) ==
      if All(t[..k], IsDigit) && All(t[k + 1..], IsDigit) && |t| > 1
      then Some(DecimalValue(t[..k], t[k + 1..]))
      else None
  {
    FirstIndexOfAt(t, '.', k);
  }

  /** A run of digits is parsed as the integer it spells. */
  lemma ParseFloatInteger(d: string)
    requires All(d, IsDigit) && |d| > 0
    ensures ParseFloat(d) == Some(DigitsValue(d) as real)
  {
    StripKeeps(d);
    assert forall k :: 0 <= k < |d| ==> d[k] != '.';
  }

  /** Replacing a character that does not occur changes nothing. */
  lemma ReplaceAbsent(s: string, a: char, b: char)
    requires a !in s
    ensures ReplaceChar(s, a, b) == s
  {
  }

  /** The normalised form of a locale number `grouped,frac`. */
  lemma NormalizeLocale(grouped: string, frac: string)
    requires All(grouped, IsDigitOrDot) && All(frac, IsDigit)
    ensures Normalize(grouped + "," + frac) == RemoveChar(grouped, '.') + "." + frac
  {
    var s := grouped + "," + frac;
    NoEuroNorSpace(grouped, frac);
    RemoveCharAbsent(s, '€');
    RemoveCharAbsent(s, ' ');
    RemoveDotsLocale(grouped, frac);
    RemoveDotsKeepsDigits(grouped);
    ReplaceComma(RemoveChar(grouped, '.'), frac);
  }

  lemma NoEuroNorSpace(grouped: string, frac: string)
    requires All(grouped, IsDigitOrDot) && All(frac, IsDigit)
    ensures '€' !in grouped + "," + frac && ' ' !in grouped + "," + frac
  {
    var s := grouped + "," + frac;
    forall k | 0 <= k < |s|
      ensures s[k] != '€' && s[k] != ' '
    {
      if k < |grouped| {
        assert s[k] == grouped[k];
      } else if k > |grouped| {
        assert s[k] == frac[k - |grouped| - 1];
      }
    }
  }

  lemma RemoveDotsLocale(grouped: string, frac: string)
    requires All(frac, IsDigit)
    ensures RemoveChar(grouped + "," + frac, '.') == RemoveChar(grouped, '.') + "," + frac
  {
    assert grouped + "," + frac == grouped + ("," + frac);
    RemoveCharAppend(grouped, "," + frac, '.');
    RemoveCharAppend(",", frac, '.');
    assert '.' !in frac;
    RemoveCharAbsent(frac, '.');
    RemoveCharAbsent(",", '.');
  }

  lemma ReplaceComma(d: string, frac: string)
    requires All(d, IsDigit) && All(frac, IsDigit)
    ensures ReplaceChar(d + "," + frac, ',', '.') == d + "." + frac
  {
    var s := d + "," + frac;
    ReplaceAbsent(d, ',', '.');
    ReplaceAbsent(frac, ',', '.');
    ReplaceAppend(d, "," + frac, ',', '.');
    ReplaceAppend(",", frac, ',', '.');
  }

  lemma ReplaceAppend(a: string, b: string, x: char, y: char)
    ensures ReplaceChar(a + b, x, y) == ReplaceChar(a, x, y) + ReplaceChar(b, x, y)
  {
  }

  /** The normalised form of a number with grouping dots and no comma. */
  lemma NormalizeGrouped(grouped: string)
    requires All(grouped, IsDigitOrDot)
    ensures Normalize(grouped) == RemoveChar(grouped, '.')
  {
    assert '€' !in grouped && ' ' !in grouped;
    RemoveCharAbsent(grouped, '€');
    RemoveCharAbsent(grouped, ' ');
    RemoveDotsKeepsDigits(grouped);
    ReplaceAbsent(RemoveChar(grouped, '.'), ',', '.');
  }

  /**
   * A Spanish-locale number: `grouped` holds digits and grouping dots, `frac`
   * the decimals after the comma. Its value drops the dots and reads the
   * comma as the decimal point.
   */
  lemma ToFloatLocale(grouped: string, frac: string)
    requires All(grouped, IsDigitOrDot) && All(frac, IsDigit)
    requires |RemoveChar(grouped, '.')| + |frac| > 0
    ensures All(RemoveChar(grouped, '.'), IsDigit)
      && ToFloat(grouped + "," + frac) == DecimalValue(RemoveChar(grouped, '.'), frac)
  {
    var s := grouped + "," + frac;
    assert !IsSpace(s[0]) && !IsSpace(s[|s| - 1]) by {
      if |grouped| > 0 { assert s[0] == grouped[0]; } else { assert s[0] == ','; }
      if |frac| > 0 { assert s[|s| - 1] == frac[|frac| - 1]; } else { assert s[|s| - 1] == ','; }
    }
    StripKeeps(s);
    NormalizeLocale(grouped, frac);
    RemoveDotsKeepsDigits(grouped);
    ParseFloatDecimal(RemoveChar(grouped, '.'), frac);
  }

  /** A locale number without decimal comma is an integer once the dots are dropped. */
  lemma ToFloatGrouped(grouped: string)
    requires All(grouped, IsDigitOrDot) && |RemoveChar(grouped, '.')| > 0
    ensures All(RemoveChar(grouped, '.'), IsDigit)
      && ToFloat(grouped) == DigitsValue(RemoveChar(grouped, '.')) as real
  {
    assert !IsSpace(grouped[0]) && !IsSpace(grouped[|grouped| - 1]);
    StripKeeps(grouped);
    NormalizeGrouped(grouped);
    RemoveDotsKeepsDigits(grouped);
    ParseFloatInteger(RemoveChar(grouped, '.'));
  }

  /** Characters that are not whitespace all survive `strip()`. */
  lemma StripKeepsCount(s: string, c: char)
    requires !IsSpace(c)
    ensures multiset(Strip(s))[c] == multiset(s)[c]
  {
    var r := Strip(s);
    var lo, hi :| 0 <= lo <= hi <= |s| && r == s[lo..hi] && All(s[..lo], IsSpace) && All(s[hi..], IsSpace);
    CountInsideSpaces(s, lo, hi, c);
  }

  /** Cutting whitespace from both ends of a string keeps every other character. */
  lemma CountInsideSpaces(s: string, lo: nat, hi: nat, c: char)
    requires lo <= hi <= |s| && All(s[..lo], IsSpace) && All(s[hi..], IsSpace) && !IsSpace(c)
    ensures multiset(s[lo..hi])[c] == multiset(s)[c]
  {
    NoneOf(s[..lo], c);
    NoneOf(s[hi..], c);
    assert s == s[..lo] + s[lo..hi] + s[hi..];
    CountBetween(s[..lo], s[lo..hi], s[hi..], c);
  }

  /** Counting a character that occurs only in the middle part of a string. */
  lemma CountBetween(p: string, r: string, q: string, c: char)
    requires multiset(p)[c] == 0 && multiset(q)[c] == 0
    ensures multiset(p + r + q)[c] == multiset(r)[c]
  {
    assert multiset(p + r + q) == multiset(p) + multiset(r) + multiset(q);
  }

  /** A character outside a whitespace-only string is not counted in it. */
  lemma NoneOf(s: string, c: char)
    requires All(s, IsSpace) && !IsSpace(c)
    ensures multiset(s)[c] == 0
  {
    assert c !in s;
  }

  /** A string with two decimal points does not parse. */
  lemma ParseFloatTwoDots(v: string)
    requires multiset(v)['.'] >= 2
    ensures ParseFloat(v) == None
  {
    StripKeepsCount(v, '.');
    TwoDotsBadFraction(Strip(v));
    ParseFloatBadFraction(v);
  }

  /** With two points, the part after the first one is not all digits. */
  lemma TwoDotsBadFraction(t: string)
    requires multiset(t)['.'] >= 2
    ensures '.' in t && !All(t[FirstIndexOf(t, '.') + 1..], IsDigit)
  {
    SecondDot(t);
    PointNotDigits(t[FirstIndexOf(t, '.') + 1..]);
  }

  /** A string holding a point is not all digits. */
  lemma PointNotDigits(s: string)
    requires '.' in s
    ensures !All(s, IsDigit)
  {
    var j :| 0 <= j < |s| && s[j] == '.';
    assert !IsDigit(s[j]);
  }

  /** `float` rejects a string whose part after the first point is not all digits. */
  lemma ParseFloatBadFraction(v: string)
    requires var t := Strip(v); '.' in t && !All(t[FirstIndexOf(t, '.') + 1..], IsDigit)
    ensures ParseFloat(v) == None
  {
  }

  /** With two points, another one follows the first. */
  lemma SecondDot(t: string)
    requires multiset(t)['.'] >= 2
    ensures '.' in t && '.' in t[FirstIndexOf(t, '.') + 1..]
  {
    assert '.' in multiset(t);
    var k := FirstIndexOf(t, '.');
    assert t == t[..k] + [t[k]] + t[k + 1..];
    assert multiset(t) == multiset(t[..k]) + multiset([t[k]]) + multiset(t[k + 1..]);
    assert multiset(t[..k])['.'] == 0;
    assert multiset(t[k + 1..])['.'] >= 1;
  }

  /** Every comma turns into a point: the point count is at least the comma count. */
  lemma {:induction false} ReplaceCountsComma(w: string)
    ensures multiset(ReplaceChar(w, ',', '.'))['.'] >= multiset(w)[',']
  {
    if w != [] {
      var r := ReplaceChar(w, ',', '.');
      ReplaceCountsComma(w[1..]);
      ReplaceCharTail(w, ',', '.');
      CountHead(r, '.');
      CountHead(w, ',');
    }
  }

  lemma ReplaceCharTail(w: string, a: char, b: char)
    requires w != []
    ensures ReplaceChar(w, a, b)[1..] == ReplaceChar(w[1..], a, b)
  {
  }

  /** Counting a character in a string: its first character, then the rest. */
  lemma CountHead(w: string, c: char)
    requires w != []
    ensures multiset(w)[c] == (if w[0] == c then 1 else 0) + multiset(w[1..])[c]
  {
    assert w == [w[0]] + w[1..];
    assert multiset(w) == multiset([w[0]]) + multiset(w[1..]);
  }

  /** Two commas survive normalisation as two points. */
  lemma NormalizeTwoCommas(t: string)
    requires multiset(t)[','] >= 2
    ensures multiset(Normalize(t))['.'] >= 2
  {
    var u := RemoveChar(RemoveChar(t, '€'), ' ');
    var w := RemoveChar(u, '.');
    RemoveCharCount(t, '€', ',');
    RemoveCharCount(RemoveChar(t, '€'), ' ', ',');
    RemoveCharCount(u, '.', ',');
    ReplaceCountsComma(w);
  }

  /** Two decimal commas make the string unparsable, so it gives 0. */
  lemma ToFloatTwoCommas(s: string)
    requires multiset(s)[','] >= 2
    ensures ToFloat(s) == 0.0
  {
    var t := Strip(s);
    StripKeepsCount(s, ',');
    NormalizeTwoCommas(t);
    ParseFloatTwoDots(Normalize(t));
  }

  // ---------------------------------------------------------------------
  // _infer_qty_from_total
  // ---------------------------------------------------------------------

  /** The tolerance for OCR rounding noise. */
  const QtyTolerance: real := 0.05

  /** The largest quantity that inference will propose. */
  const MaxInferredQty: int := 10000

  function Abs(x: real): real {
    if x < 0.0 then -x else x
  }

  /** `n` lies within the tolerance of `q`. */
  predicate NearInt(q: real, n: int) {
    Abs(q - n as real) < QtyTolerance
  }

  /** Python's `round(x)`: the nearest integer, halves going to the even neighbour. */
  function RoundHalfEven(x: real): (r: int)
    ensures -0.5 <= x - r as real <= 0.5
    ensures x - r as real == 0.5 || x - r as real == -0.5 ==> r % 2 == 0
  {
    var f := x.Floor;
    var d := x - f as real;
    if d < 0.5 then f
    else if d > 0.5 then f + 1
    else if f % 2 == 0 then f
    else f + 1
  }

  /**
   * `_infer_qty_from_total(price, total)`: `None` unless the price is
   * positive, `total / price` lies within the tolerance of an integer and
   * that integer is in `[1, MaxInferredQty]`.
   */
  function InferQty(price: real, total: real): (r: Option<int>)
    ensures price <= 0.0 ==> r == None
    ensures r.Some? ==> price > 0.0 && 1 <= r.value <= MaxInferredQty && NearInt(total / price, r.value)
  {
    if price <= 0.0 then None
    else
      var q := total / price;
      var n := RoundHalfEven(q);
      if Abs(q - n as real) < QtyTolerance && 1 <= n <= MaxInferredQty then Some(n) else None
  }

  /**
   * The converse: whenever an integer in range lies within the tolerance of
   * `total / price`, inference returns exactly that integer.
   */
  lemma InferQtyAccepts(price: real, total: real, n: int)
    requires price > 0.0 && 1 <= n <= MaxInferredQty
    requires NearInt(total / price, n)
    ensures InferQty(price, total) == Some(n)
  {
    var q := total / price;
    var r := RoundHalfEven(q);
    assert -1.0 < r as real - n as real < 1.0;
    assert r == n;
  }
}
