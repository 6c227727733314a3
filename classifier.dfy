/**
 * `classify_document` (app/ai_utils.py): a document is an invoice when at
 * least two distinct keywords of a fixed list occur in its lower-cased text.
 */
module Classifier {
  import opened Text

  /** The two kinds of document the engine distinguishes. */
  datatype DocType = Factura | Informacion

  /** The invoice keywords, in the order the source lists them. */
  const InvoiceKeywords: seq<string> := [
    "factura",
    "factura proforma",
    "invoice",
    "subtotal",
    "iva",
    "rfc",
    "cuit",
    "total a pagar",
    "número de factura",
    "numero de factura",
    "no. factura"
  ]

  /** The number of entries of `kws` that occur in `tl`. */
  function ScoreOf(tl: string, kws: seq<string>): (n: nat)
    ensures n <= |kws|
  {
    if kws == [] then 0
    else (if Contains(tl, kws[0]) then 1 else 0) + ScoreOf(tl, kws[1..])
  }

  /** The keywords of `kws` that occur in `tl`. */
  function Hits(tl: string, kws: seq<string>): set<string> {
    set w | w in kws && Contains(tl, w)
  }

  predicate Distinct(kws: seq<string>) {
    forall i, j :: 0 <= i < j < |kws| ==> kws[i] != kws[j]
  }

  /** The score of a document: the keywords found in its lower-cased text. */
  function Score(text: string): nat {
    ScoreOf(Lower(text), InvoiceKeywords)
  }

  /** `classify_document(text)`. */
  function Classify(text: string): (d: DocType) {
    if Score(text) >= 2 then Factura else Informacion
  }

  /**
   * Over a list without repeats, the score is the number of distinct
   * keywords found: a keyword found twice still counts once.
   */
  lemma {:induction false} ScoreOfCountsHits(tl: string, kws: seq<string>)
    requires Distinct(kws)
    ensures ScoreOf(tl, kws) == |Hits(tl, kws)|
  {
    if kws != [] {
      var rest := kws[1..];
      assert Distinct(rest) by {
        forall i, j | 0 <= i < j < |rest| ensures rest[i] != rest[j] {
          assert rest[i] == kws[i + 1] && rest[j] == kws[j + 1];
        }
      }
      ScoreOfCountsHits(tl, rest);
      assert kws[0] !in rest by {
        forall j | 0 <= j < |rest| ensures rest[j] != kws[0] {
          assert rest[j] == kws[j + 1];
        }
      }
      assert kws[0] !in Hits(tl, rest);
      assert kws == [kws[0]] + rest;
      if Contains(tl, kws[0]) {
        assert Hits(tl, kws) == {kws[0]} + Hits(tl, rest);
      } else {
        assert Hits(tl, kws) == Hits(tl, rest);
      }
    }
  }

  lemma KeywordsDistinct()
    ensures Distinct(InvoiceKeywords)
  {
    forall i, j | 0 <= i < j < |InvoiceKeywords|
      ensures InvoiceKeywords[i] != InvoiceKeywords[j]
    {
      KeywordsDiffer(i, j);
    }
  }

  /** Two keywords differ in length or in one of their first characters. */
  lemma KeywordsDiffer(i: nat, j: nat)
    requires i < j < |InvoiceKeywords|
    ensures InvoiceKeywords[i] != InvoiceKeywords[j]
  {
    var a, b := InvoiceKeywords[i], InvoiceKeywords[j];
    if |a| == |b| {
      // Only three pairs share a length; each differs in a leading character.
      if i == 4 {
        assert a[0] != b[0];
      } else if i == 8 {
        assert a[1] != b[1];
      } else {
        assert a[0] != b[0];
      }
    }
  }

  /**
   * The classification rule: a document is an invoice exactly when at least
   * two distinct keywords occur in its lower-cased text.
   */
  lemma ClassifyByDistinctKeywords(text: string)
    ensures Classify(text) == Factura <==> |Hits(Lower(text), InvoiceKeywords)| >= 2
  {
    KeywordsDistinct();
    ScoreOfCountsHits(Lower(text), InvoiceKeywords);
  }

  /** A text that occurs inside another occurs wherever its container does. */
  lemma ContainsInside(s: string, big: string, w: string, off: nat)
    requires OccursAt(big, w, off) && Contains(s, big)
    ensures Contains(s, w)
  {
    var k := Find(s, big);
    OccursAtSlice(s, big, k);
    OccursAtSlice(big, w, off);
    assert s[k..k + |big|] == big;
    assert s[k + off..k + off + |w|] == s[k..k + |big|][off..off + |w|];
    OccursAtSlice(s, w, k + off);
  }

  /**
   * "numero de factura" contains the keyword "factura", so a document that
   * mentions it scores two on its own and is an invoice.
   */
  lemma NumeroDeFacturaIsInvoice(text: string)
    requires Contains(Lower(text), "numero de factura")
    ensures Classify(text) == Factura
  {
    var tl := Lower(text);
    FacturaInsideNumero();
    ContainsInside(tl, "numero de factura", "factura", 10);
    assert InvoiceKeywords[0] == "factura" && InvoiceKeywords[9] == "numero de factura";
    TwoHits(tl, InvoiceKeywords, "factura", "numero de factura");
    ClassifyByDistinctKeywords(text);
  }

  lemma FacturaInsideNumero()
    ensures OccursAt("numero de factura", "factura", 10)
  {
    OccursAtSlice("numero de factura", "factura", 10);
    assert "numero de factura"[10..17] == "factura";
  }

  /** Two different keywords found give at least two hits. */
  lemma TwoHits(tl: string, kws: seq<string>, a: string, b: string)
    requires a in kws && b in kws && a != b && Contains(tl, a) && Contains(tl, b)
    ensures |Hits(tl, kws)| >= 2
  {
    var h := Hits(tl, kws);
    assert {a, b} <= h;
    assert h == {a, b} + (h - {a, b});
    assert |{a, b}| == 2;
  }

  /** A document in which at most one keyword occurs is not an invoice. */
  lemma OneKeywordIsInformation(text: string)
    requires |Hits(Lower(text), InvoiceKeywords)| <= 1
    ensures Classify(text) == Informacion
  {
    ClassifyByDistinctKeywords(text);
  }
}
