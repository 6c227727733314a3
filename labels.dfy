/**
 * `find_after_any` (app/ai_utils.py), the label-anchored search behind
 * most invoice fields: for each label in turn, find its first occurrence
 * in the lower-cased text, take the `maxChars` characters of the original
 * text that follow it, and return the first of their lines that is not
 * empty once the characters ` :;-•\t` are stripped from both ends.
 */
module Labels {
  import opened Wrappers
  import opened Text

  /** The characters `strip(" :;-•\t")` removes around a labelled value. */
  predicate IsLabelTrim(c: char) {
    c == ' ' || c == ':' || c == ';' || c == '-' || c == '\U{2022}' || c == '\t'
  }

  /** The default window of `find_after_any`. */
  const DefaultWindow: nat := 100

  /** A line with the label trimming applied. */
  function Trimmed(line: string): string {
    StripBy(line, IsLabelTrim)
  }

  /** The first line that is not empty once trimmed, trimmed; empty when there is none. */
  function FirstValue(lines: seq<string>): (v: string)
    ensures v == [] || (!IsLabelTrim(v[0]) && !IsLabelTrim(v[|v| - 1]))
  {
    if lines == [] then []
    else if Trimmed(lines[0]) != [] then Trimmed(lines[0])
    else FirstValue(lines[1..])
  }

  /**
   * The characters after the first occurrence of `tag` in the lower-cased
   * text, at most `maxChars` of them, cut from the original text; `None`
   * when the label does not occur.
   */
  function Window(text: string, tag: string, maxChars: nat): (r: Option<string>)
    ensures r.Some? ==> |r.value| <= maxChars
  {
    var idx := Find(Lower(text), tag);
    if idx == -1 then None
    else Some(Slice(text, idx + |tag|, idx + |tag| + maxChars))
  }

  /** What one label yields: the first non-blank line of its window. */
  function AfterLabel(text: string, tag: string, maxChars: nat): string {
    match Window(text, tag, maxChars)
    case None => []
    case Some(fragment) => FirstValue(SplitLines(fragment))
  }

  /** `find_after_any(labels, max_chars)` on `text`: the first label that yields a value. */
  function AfterAnyLabel(text: string, labels: seq<string>, maxChars: nat): string {
    if labels == [] then []
    else if AfterLabel(text, labels[0], maxChars) != [] then AfterLabel(text, labels[0], maxChars)
    else AfterAnyLabel(text, labels[1..], maxChars)
  }

  // ---------------------------------------------------------------------
  // The search as the source writes it
  // ---------------------------------------------------------------------

  /**
   * `find_after_any`: a loop over the labels and, inside it, a loop over
   * the lines of the label's window, returning at the first non-blank
   * trimmed line.
   */
  method FindAfterAny(text: string, labels: seq<string>, maxChars: nat) returns (v: string)
    ensures v == AfterAnyLabel(text, labels, maxChars)
  {
    var tl := Lower(text);
    var i := 0;
    while i < |labels|
      invariant 0 <= i <= |labels|
      invariant AfterAnyLabel(text, labels, maxChars) == AfterAnyLabel(text, labels[i..], maxChars)
    {
      AfterAnyLabelStep(text, labels, i, maxChars);
      var tag := labels[i];
      var idx := Find(tl, tag);
      if idx == -1 {
        AfterLabelMissing(text, tag, maxChars);
      } else {
        var fragment := Slice(text, idx + |tag|, idx + |tag| + maxChars);
        var lines := SplitLines(fragment);
        AfterLabelFound(text, tag, maxChars, idx, lines);
        var j := 0;
        while j < |lines|
          invariant 0 <= j <= |lines|
          invariant FirstValue(lines) == FirstValue(lines[j..])
        {
          assert lines[j..][1..] == lines[j + 1..];
          var line := Trimmed(lines[j]);
          if line != [] {
            assert FirstValue(lines[j..]) == line;
            return line;
          }
          j := j + 1;
        }
        assert lines[j..] == [];
      }
      i := i + 1;
    }
    assert labels[i..] == [];
    return [];
  }

  /** A label that does not occur yields nothing. */
  lemma AfterLabelMissing(text: string, tag: string, maxChars: nat)
    requires Find(Lower(text), tag) == -1
    ensures AfterLabel(text, tag, maxChars) == []
  {
  }

  /** A label that occurs yields the first value of its window. */
  lemma AfterLabelFound(text: string, tag: string, maxChars: nat, idx: nat, lines: seq<string>)
    requires idx == Find(Lower(text), tag)
    requires lines == SplitLines(Slice(text, idx + |tag|, idx + |tag| + maxChars))
    ensures AfterLabel(text, tag, maxChars) == FirstValue(lines)
  {
    var fragment := Slice(text, idx + |tag|, idx + |tag| + maxChars);
    WindowFound(text, tag, maxChars, idx);
    AfterLabelOfWindow(text, tag, maxChars, fragment);
  }

  /** The window of a label that occurs at `idx`. */
  lemma WindowFound(text: string, tag: string, maxChars: nat, idx: nat)
    requires idx == Find(Lower(text), tag)
    ensures Window(text, tag, maxChars) == Some(Slice(text, idx + |tag|, idx + |tag| + maxChars))
  {
  }

  /** What a label yields is read off its window. */
  lemma AfterLabelOfWindow(text: string, tag: string, maxChars: nat, fragment: string)
    requires Window(text, tag, maxChars) == Some(fragment)
    ensures AfterLabel(text, tag, maxChars) == FirstValue(SplitLines(fragment))
  {
  }

  /** One step of the search over the labels. */
  lemma AfterAnyLabelStep(text: string, labels: seq<string>, i: nat, maxChars: nat)
    requires i < |labels|
    ensures AfterAnyLabel(text, labels[i..], maxChars) ==
      if AfterLabel(text, labels[i], maxChars) != [] then AfterLabel(text, labels[i], maxChars)
      else AfterAnyLabel(text, labels[i + 1..], maxChars)
  {
    assert labels[i..][1..] == labels[i + 1..];
  }

  // ---------------------------------------------------------------------
  // Properties
  // ---------------------------------------------------------------------

  /**
   * A label's value is the first line of its window that is not blank once
   * trimmed; the value is empty exactly when every line is blank.
   */
  lemma {:induction false} FirstValueIsFirst(lines: seq<string>)
    ensures FirstValue(lines) == [] <==> forall n :: 0 <= n < |lines| ==> Trimmed(lines[n]) == []
    ensures FirstValue(lines) != [] ==>
      exists n :: 0 <= n < |lines| && FirstValue(lines) == Trimmed(lines[n])
                  && forall m :: 0 <= m < n ==> Trimmed(lines[m]) == []
  {
    if lines != [] {
      var rest := lines[1..];
      FirstValueIsFirst(rest);
      assert forall n :: 0 < n < |lines| ==> lines[n] == rest[n - 1];
      if Trimmed(lines[0]) == [] && FirstValue(rest) != [] {
        var n :| 0 <= n < |rest| && FirstValue(rest) == Trimmed(rest[n])
                 && forall m :: 0 <= m < n ==> Trimmed(rest[m]) == [];
        assert FirstValue(lines) == Trimmed(lines[n + 1]);
        forall m | 0 <= m < n + 1
          ensures Trimmed(lines[m]) == []
        {
          if m > 0 {
            assert lines[m] == rest[m - 1];
          }
        }
      }
    }
  }

  /**
   * The labels are tried in order: the result is empty exactly when no
   * label yields a value, and otherwise it is the value of the first label
   * that yields one (a label whose window holds only blank lines falls
   * through to the next).
   */
  lemma {:induction false} AfterAnyLabelIsFirst(text: string, labels: seq<string>, maxChars: nat)
    ensures AfterAnyLabel(text, labels, maxChars) == [] <==>
      forall n :: 0 <= n < |labels| ==> AfterLabel(text, labels[n], maxChars) == []
    ensures AfterAnyLabel(text, labels, maxChars) != [] ==>
      exists n :: 0 <= n < |labels| && AfterAnyLabel(text, labels, maxChars) == AfterLabel(text, labels[n], maxChars)
                  && forall m :: 0 <= m < n ==> AfterLabel(text, labels[m], maxChars) == []
  {
    if labels != [] {
      var rest := labels[1..];
      AfterAnyLabelIsFirst(text, rest, maxChars);
      assert forall n :: 0 < n < |labels| ==> labels[n] == rest[n - 1];
      if AfterLabel(text, labels[0], maxChars) == [] && AfterAnyLabel(text, rest, maxChars) != [] {
        var n :| 0 <= n < |rest| && AfterAnyLabel(text, rest, maxChars) == AfterLabel(text, rest[n], maxChars)
                 && forall m :: 0 <= m < n ==> AfterLabel(text, rest[m], maxChars) == [];
        assert AfterAnyLabel(text, labels, maxChars) == AfterLabel(text, labels[n + 1], maxChars);
        forall m | 0 <= m < n + 1
          ensures AfterLabel(text, labels[m], maxChars) == []
        {
          if m > 0 {
            assert labels[m] == rest[m - 1];
          }
        }
      }
    }
  }

  /** A label that does not occur in the lower-cased text yields nothing. */
  lemma AbsentLabelYieldsNothing(text: string, tag: string, maxChars: nat)
    requires !Contains(Lower(text), tag)
    ensures AfterLabel(text, tag, maxChars) == []
  {
  }

  /** Every line `splitlines` produces is a piece of the text, so no longer than it. */
  lemma {:induction false} LinesFromBounded(s: string, i: nat)
    requires i <= |s|
    ensures forall n :: 0 <= n < |LinesFrom(s, i)| ==> |LinesFrom(s, i)[n]| <= |s| - i
    decreases |s| - i
  {
    if i < |s| {
      var e := SkipWhile(s, i, IsLineChar);
      if e < |s| {
        LinesFromBounded(s, NextLineStart(s, e));
      }
    }
  }

  /** Trimming keeps a piece of the line. */
  lemma TrimmedInside(line: string)
    ensures |Trimmed(line)| <= |line|
    ensures All(line, IsLineChar) ==> All(Trimmed(line), IsLineChar)
  {
    var v := Trimmed(line);
    var lo, hi :| 0 <= lo <= hi <= |line| && v == line[lo..hi]
                  && All(line[..lo], IsLabelTrim) && All(line[hi..], IsLabelTrim);
    if All(line, IsLineChar) {
      AllOfPiece(line, lo, hi, IsLineChar);
    }
  }

  /** A piece of a string whose characters all satisfy `p` has only such characters. */
  lemma AllOfPiece(s: string, lo: nat, hi: nat, p: char -> bool)
    requires lo <= hi <= |s| && All(s, p)
    ensures All(s[lo..hi], p)
  {
    forall k | 0 <= k < hi - lo
      ensures p(s[lo..hi][k])
    {
      assert s[lo..hi][k] == s[lo + k];
    }
  }

  /** The value of lines that are short and free of breaks is short and free of breaks. */
  lemma FirstValueInside(lines: seq<string>, bound: nat)
    requires forall n :: 0 <= n < |lines| ==> |lines[n]| <= bound && All(lines[n], IsLineChar)
    ensures |FirstValue(lines)| <= bound && All(FirstValue(lines), IsLineChar)
  {
    FirstValueIsFirst(lines);
    if FirstValue(lines) != [] {
      var n :| 0 <= n < |lines| && FirstValue(lines) == Trimmed(lines[n])
               && forall m :: 0 <= m < n ==> Trimmed(lines[m]) == [];
      TrimmedInside(lines[n]);
    }
  }

  /**
   * A value read after a label lies on one line of the window: it holds no
   * line break, is no longer than the window, and has none of the trimmed
   * characters at either end.
   */
  lemma AfterLabelShape(text: string, tag: string, maxChars: nat)
    ensures var v := AfterLabel(text, tag, maxChars);
      && |v| <= maxChars
      && All(v, IsLineChar)
      && (v == [] || (!IsLabelTrim(v[0]) && !IsLabelTrim(v[|v| - 1])))
  {
    match Window(text, tag, maxChars)
    case None =>
    case Some(fragment) =>
      LinesFromBounded(fragment, 0);
      LinesFromHaveNoBreaks(fragment, 0);
      FirstValueInside(SplitLines(fragment), maxChars);
  }

  /** Every line `splitlines` produces from `i` on is a piece of the text after `i`. */
  lemma {:induction false} LinesFromArePieces(s: string, i: nat)
    requires i <= |s|
    ensures forall n :: 0 <= n < |LinesFrom(s, i)| ==>
      exists x, y :: i <= x <= y <= |s| && LinesFrom(s, i)[n] == s[x..y]
    decreases |s| - i
  {
    if i < |s| {
      var e := SkipWhile(s, i, IsLineChar);
      if e < |s| {
        var j := NextLineStart(s, e);
        LinesFromArePieces(s, j);
        assert LinesFrom(s, i) == [s[i..e]] + LinesFrom(s, j);
        forall n | 0 <= n < |LinesFrom(s, i)|
          ensures exists x, y :: i <= x <= y <= |s| && LinesFrom(s, i)[n] == s[x..y]
        {
          if n == 0 {
            assert LinesFrom(s, i)[0] == s[i..e];
          } else {
            assert LinesFrom(s, i)[n] == LinesFrom(s, j)[n - 1];
            var x, y :| j <= x <= y <= |s| && LinesFrom(s, j)[n - 1] == s[x..y];
          }
        }
      } else {
        assert LinesFrom(s, i) == [s[i..|s|]] by {
          assert s[i..] == s[i..|s|];
        }
        forall n | 0 <= n < |LinesFrom(s, i)|
          ensures exists x, y :: i <= x <= y <= |s| && LinesFrom(s, i)[n] == s[x..y]
        {
          assert LinesFrom(s, i)[n] == s[i..|s|];
        }
      }
    } else {
      assert LinesFrom(s, i) == [];
    }
  }

  /** The value of a window is a piece of the window. */
  lemma ValueIsPiece(fragment: string)
    ensures var v := FirstValue(SplitLines(fragment));
      v != [] ==> exists x, y :: 0 <= x <= y <= |fragment| && v == fragment[x..y]
  {
    var lines := SplitLines(fragment);
    var v := FirstValue(lines);
    if v != [] {
      assert exists n :: 0 <= n < |lines| && v == Trimmed(lines[n]) by {
        FirstValueIsFirst(lines);
      }
      var n :| 0 <= n < |lines| && v == Trimmed(lines[n]);
      assert exists x, y :: 0 <= x <= y <= |fragment| && lines[n] == fragment[x..y] by {
        LinesFromArePieces(fragment, 0);
      }
      var x, y :| 0 <= x <= y <= |fragment| && lines[n] == fragment[x..y];
      TrimmedPiece(fragment, x, y);
    }
  }

  /** Trimming a piece of a string leaves a piece of it. */
  lemma TrimmedPiece(s: string, x: nat, y: nat)
    requires x <= y <= |s|
    ensures exists x', y' :: x <= x' <= y' <= y && Trimmed(s[x..y]) == s[x'..y']
  {
    var line := s[x..y];
    var lo, hi :| 0 <= lo <= hi <= |line| && Trimmed(line) == line[lo..hi];
    forall k | 0 <= k < hi - lo
      ensures line[lo..hi][k] == s[x + lo..x + hi][k]
    {
      assert line[lo..hi][k] == line[lo + k] == s[x + lo + k];
    }
    assert line[lo..hi] == s[x + lo..x + hi];
  }

  /**
   * A value read after a label is a piece of the text that follows the
   * label's first occurrence in the lower-cased text, within `maxChars`
   * characters of the label's end.
   */
  lemma AfterLabelInside(text: string, tag: string, maxChars: nat)
    ensures var v := AfterLabel(text, tag, maxChars);
      v != [] ==>
        var idx := Find(Lower(text), tag);
        && 0 <= idx
        && exists p, q :: && idx + |tag| <= p <= q <= idx + |tag| + maxChars
                          && q <= |text| && v == text[p..q]
  {
    var idx := Find(Lower(text), tag);
    WindowAt(text, tag, maxChars, idx);
    match Window(text, tag, maxChars)
    case None =>
    case Some(fragment) =>
      ValueInWindow(text, idx + |tag|, maxChars, fragment);
  }

  /** The value read from a window cut from the text is a piece of the text inside the window. */
  lemma ValueInWindow(text: string, a: nat, n: nat, fragment: string)
    requires fragment == Slice(text, a, a + n)
    ensures var v := FirstValue(SplitLines(fragment));
      v != [] ==> exists p, q :: a <= p <= q <= a + n && q <= |text| && v == text[p..q]
  {
    ValueIsPiece(fragment);
    var v := FirstValue(SplitLines(fragment));
    if v != [] {
      var x, y :| 0 <= x <= y <= |fragment| && v == fragment[x..y];
      PieceOfSlice(text, a, n, x, y);
      assert fragment[x..y] == text[a + x..a + y];
    }
  }

  /** A window, when there is one, starts right after the label's first occurrence. */
  lemma WindowAt(text: string, tag: string, maxChars: nat, idx: int)
    requires idx == Find(Lower(text), tag)
    ensures Window(text, tag, maxChars).Some? ==>
      && 0 <= idx
      && Window(text, tag, maxChars).value == Slice(text, idx + |tag|, idx + |tag| + maxChars)
  {
  }

  /** A piece of a slice of the text is a piece of the text. */
  lemma PieceOfSlice(text: string, a: nat, n: nat, x: nat, y: nat)
    requires x < y <= |Slice(text, a, a + n)|
    ensures && y <= n && a + y <= |text|
            && Slice(text, a, a + n)[x..y] == text[a + x..a + y]
  {
  }

}
