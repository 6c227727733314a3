/**
 * Information documents and the entry point (app/ai_utils.py):
 * `simple_sentiment`, `summarize` and `analyze_document`, which classifies
 * a text and returns either the fields of an invoice or a description, a
 * summary and a sentiment.
 */
module Info {
  import opened Text
  import opened Classifier
  import opened Invoice

  // ---------------------------------------------------------------------
  // simple_sentiment
  // ---------------------------------------------------------------------

  datatype Sentiment = Positivo | Negativo | Neutral

  const PositiveWords: seq<string> := ["bueno", "excelente", "positivo", "satisfactorio", "feliz"]
  const NegativeWords: seq<string> := ["malo", "negativo", "problema", "queja", "insatisfecho"]

  /** `sum(tl.count(w) for w in words)`. */
  function WordScore(tl: string, words: seq<string>): nat {
    if words == [] then 0 else Count(tl, words[0]) + WordScore(tl, words[1..])
  }

  /** The sentiment: the side with strictly more occurrences of its words; a tie is neutral. */
  function SimpleSentiment(text: string): Sentiment {
    var tl := Lower(text);
    var pos := WordScore(tl, PositiveWords);
    var neg := WordScore(tl, NegativeWords);
    if pos > neg then Positivo else if neg > pos then Negativo else Neutral
  }

  /** A list of non-empty words scores zero exactly when none of them occurs. */
  lemma {:induction false} WordScoreZero(tl: string, words: seq<string>)
    requires forall n :: 0 <= n < |words| ==> |words[n]| > 0
    ensures WordScore(tl, words) == 0 <==> forall n :: 0 <= n < |words| ==> !Contains(tl, words[n])
  {
    if words != [] {
      CountPositive(tl, words[0]);
      WordScoreZero(tl, words[1..]);
      assert forall n :: 0 < n < |words| ==> words[n] == words[1..][n - 1];
    }
  }

  /** Whether some word of the list occurs in the lower-cased text. */
  predicate Mentions(text: string, words: seq<string>) {
    exists n :: 0 <= n < |words| && Contains(Lower(text), words[n])
  }

  /**
   * A text that mentions only positive words is positive, one that mentions
   * only negative words is negative, and one that mentions neither is
   * neutral.
   */
  lemma SentimentByPresence(text: string)
    ensures Mentions(text, PositiveWords) && !Mentions(text, NegativeWords) ==> SimpleSentiment(text) == Positivo
    ensures !Mentions(text, PositiveWords) && Mentions(text, NegativeWords) ==> SimpleSentiment(text) == Negativo
    ensures !Mentions(text, PositiveWords) && !Mentions(text, NegativeWords) ==> SimpleSentiment(text) == Neutral
  {
    var tl := Lower(text);
    WordScoreZero(tl, PositiveWords);
    WordScoreZero(tl, NegativeWords);
  }

  // ---------------------------------------------------------------------
  // summarize
  // ---------------------------------------------------------------------

  /** `[s.strip() for s in pieces if s.strip()]`. */
  function Sentences(pieces: seq<string>): (r: seq<string>)
    ensures |r| <= |pieces|
  {
    if pieces == [] then []
    else if Strip(pieces[0]) != [] then [Strip(pieces[0])] + Sentences(pieces[1..])
    else Sentences(pieces[1..])
  }

  /** `xs[:n]` for a non-negative `n`. */
  function Take(xs: seq<string>, n: nat): (r: seq<string>)
    ensures |r| == Min(n, |xs|)
  {
    if n >= |xs| then xs else xs[..n]
  }

  /** `summarize(text, maxSentences)`: the first sentences, stripped, joined by ". ". */
  function Summarize(text: string, maxSentences: nat): string {
    Join(Take(Sentences(Split(text, '.')), maxSentences), ". ")
  }

  /** Stripping keeps a piece of the string, so adds no character. */
  lemma StripKeepsNoDot(p: string)
    requires '.' !in p
    ensures var s := Strip(p); '.' !in s && (s == [] || (!IsSpace(s[0]) && !IsSpace(s[|s| - 1])))
  {
    var s := Strip(p);
    var lo, hi :| 0 <= lo <= hi <= |p| && s == p[lo..hi] && All(p[..lo], IsSpace) && All(p[hi..], IsSpace);
    forall k | 0 <= k < |s|
      ensures s[k] != '.'
    {
      assert s[k] == p[lo + k];
    }
  }

  /**
   * Every sentence kept is a piece of the text between dots, stripped: it
   * is not empty, holds no dot, and starts and ends with a non-space.
   */
  lemma {:induction false} SentencesAreStripped(pieces: seq<string>)
    requires forall n :: 0 <= n < |pieces| ==> '.' !in pieces[n]
    ensures forall n :: 0 <= n < |Sentences(pieces)| ==>
      var s := Sentences(pieces)[n];
      s != [] && '.' !in s && !IsSpace(s[0]) && !IsSpace(s[|s| - 1])
  {
    if pieces != [] {
      SentencesAreStripped(pieces[1..]);
      StripKeepsNoDot(pieces[0]);
    }
  }

  /**
   * A sentence is kept exactly when it is the stripped form of some piece
   * and not empty: no piece with text is lost.
   */
  lemma {:induction false} SentencesKept(pieces: seq<string>, s: string)
    ensures s in Sentences(pieces) <==> s != [] && exists n :: 0 <= n < |pieces| && Strip(pieces[n]) == s
  {
    if pieces != [] {
      var rest := pieces[1..];
      SentencesKept(rest, s);
      var head := Strip(pieces[0]);
      if head != [] {
        assert Sentences(pieces) == [head] + Sentences(rest);
      } else {
        assert Sentences(pieces) == Sentences(rest);
      }
      if s != [] && head != s && (exists n :: 0 <= n < |pieces| && Strip(pieces[n]) == s) {
        var n :| 0 <= n < |pieces| && Strip(pieces[n]) == s;
        assert rest[n - 1] == pieces[n];
      }
      if s != [] && (exists n :: 0 <= n < |rest| && Strip(rest[n]) == s) {
        var n :| 0 <= n < |rest| && Strip(rest[n]) == s;
        assert pieces[n + 1] == rest[n];
      }
    }
  }

  /** A string with no dot has no dot in its multiset of characters. */
  lemma NoDotCount(s: string)
    requires '.' !in s
    ensures multiset(s)['.'] == 0
  {
  }

  /** Joining pieces free of dots with ". " puts exactly one dot between consecutive pieces. */
  lemma {:induction false} JoinDots(pieces: seq<string>)
    requires forall n :: 0 <= n < |pieces| ==> '.' !in pieces[n]
    ensures multiset(Join(pieces, ". "))['.'] == if pieces == [] then 0 else |pieces| - 1
  {
    if |pieces| == 1 {
      NoDotCount(pieces[0]);
    } else if |pieces| > 1 {
      JoinDots(pieces[1..]);
      NoDotCount(pieces[0]);
      var rest := Join(pieces[1..], ". ");
      assert Join(pieces, ". ") == pieces[0] + ". " + rest;
      assert multiset(pieces[0] + ". " + rest) == multiset(pieces[0]) + multiset(". ") + multiset(rest);
      assert multiset(". ")['.'] == 1;
    }
  }

  /**
   * The summary holds at most `maxSentences` sentences: it is empty when
   * the text has no sentence, and otherwise has one dot fewer than the
   * sentences it keeps, none of which is empty.
   */
  lemma SummaryShape(text: string, maxSentences: nat)
    ensures var kept := Take(Sentences(Split(text, '.')), maxSentences);
      && |kept| <= maxSentences
      && (forall n :: 0 <= n < |kept| ==> kept[n] != [] && '.' !in kept[n])
      && multiset(Summarize(text, maxSentences))['.'] == (if kept == [] then 0 else |kept| - 1)
      && (Summarize(text, maxSentences) == [] <==> kept == [])
  {
    var pieces := Split(text, '.');
    SentencesAreStripped(pieces);
    var all := Sentences(pieces);
    var kept := Take(all, maxSentences);
    assert forall n :: 0 <= n < |kept| ==> kept[n] == all[n];
    JoinDots(kept);
    if kept != [] {
      JoinNonEmpty(kept);
    }
  }

  /** Joining non-empty pieces, of which there is at least one, is not empty. */
  lemma JoinNonEmpty(pieces: seq<string>)
    requires pieces != [] && pieces[0] != []
    ensures Join(pieces, ". ") != []
  {
    if |pieces| > 1 {
      assert |Join(pieces, ". ")| >= |pieces[0]|;
    }
  }

  // ---------------------------------------------------------------------
  // analyze_document
  // ---------------------------------------------------------------------

  const DescriptionLength: nat := 200

  /** `text[:200].replace("\n", " ")`. */
  function Description(text: string): string {
    ReplaceChar(Slice(text, 0, DescriptionLength), '\n', ' ')
  }

  /**
   * The description is the start of the text, at most 200 characters,
   * with no line feed: each of its characters is the text's, except that
   * line feeds become spaces. Other line breaks such as `\r` are kept.
   */
  lemma DescriptionShape(text: string)
    ensures var d := Description(text);
      && |d| == Min(|text|, DescriptionLength)
      && '\n' !in d
      && forall k :: 0 <= k < |d| ==> d[k] == (if text[k] == '\n' then ' ' else text[k])
  {
  }

  /** The dictionary `analyze_document` returns, one constructor per kind of document. */
  datatype Analysis =
    | InvoiceAnalysis(docType: DocType, kind: DocType, rawTextLength: nat, data: InvoiceData)
    | InfoAnalysis(docType: DocType, kind: DocType, rawTextLength: nat,
                   description: string, summary: string, sentiment: Sentiment)

  const SummarySentences: nat := 3

  /** `analyze_document(text)`. */
  function Analyze(text: string): Analysis {
    var docType := Classify(text);
    if docType == Factura then
      InvoiceAnalysis(docType, Factura, |text|, InvoiceFields(text))
    else
      InfoAnalysis(docType, Informacion, |text|, Description(text),
                   Summarize(text, SummarySentences), SimpleSentiment(text))
  }

  /**
   * `analyze_document` step by step: classify, then either extract the
   * invoice fields or describe, summarise and rate the text.
   */
  method AnalyzeDocument(text: string) returns (a: Analysis)
    ensures a == Analyze(text)
  {
    var docType := Classify(text);
    if docType == Factura {
      var data := ExtractInvoiceData(text);
      a := InvoiceAnalysis(docType, Factura, |text|, data);
    } else {
      var description := Description(text);
      var summary := Summarize(text, SummarySentences);
      var sentiment := SimpleSentiment(text);
      a := InfoAnalysis(docType, Informacion, |text|, description, summary, sentiment);
    }
  }

  /**
   * The kind always agrees with the classification, the length is the
   * text's, an invoice carries its fields, and an information document
   * its description, a summary of at most three sentences and its
   * sentiment.
   */
  lemma AnalysisShape(text: string)
    ensures var a := Analyze(text);
      && a.kind == a.docType == Classify(text)
      && a.rawTextLength == |text|
      && (a.InvoiceAnalysis? <==> Classify(text) == Factura)
      && (a.InvoiceAnalysis? ==> a.data == InvoiceFields(text))
      && (a.InfoAnalysis? ==>
            |a.description| <= DescriptionLength && '\n' !in a.description
            && multiset(a.summary)['.'] < SummarySentences
            && a.sentiment == SimpleSentiment(text))
  {
    DescriptionShape(text);
    SummaryShape(text, SummarySentences);
  }
}
