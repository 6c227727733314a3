/**
 * The two documents the test suite feeds `analyze_document`
 * (app/tests/test_documents.py), with the answers the suite expects: a
 * sentence that mentions "factura" once is an information document, and
 * the sample invoice is an invoice whose client, vendor, number, total and
 * first item row are the ones its lines carry.
 *
 * A word is shown absent from a text by a pair of adjacent characters (or a
 * single character) of the word that the text never holds.
 */
module SuiteSamples {
  import opened Wrappers
  import opened Text
  import opened Patterns
  import opened Scan
  import opened Labels
  import opened Classifier
  import Parties
  import InvoiceNumber
  import Totals
  import Items
  import Samples
  import InvoiceSamples
  import Invoice
  import Info

  // ---------------------------------------------------------------------
  // Showing a word absent
  // ---------------------------------------------------------------------

  /** No character of `s` lower-cases to `c`. */
  predicate LacksChar(s: string, c: char) {
    forall k :: 0 <= k < |s| ==> LowerChar(s[k]) != c
  }

  /** No character of `s` that lower-cases to `x` is followed by one that lower-cases to `y`. */
  predicate LacksPair(s: string, x: char, y: char) {
    forall k :: 0 <= k < |s| - 1 ==> !(LowerChar(s[k]) == x && LowerChar(s[k + 1]) == y)
  }

  /** A text lacking one of a word's characters does not contain the word. */
  lemma MissingChar(s: string, w: string, j: nat, c: char)
    requires j < |w| && w[j] == c && LacksChar(s, c)
    ensures !Contains(Lower(s), w)
  {
    ContainedHasChar(s, w, j);
  }

  /** A text lacking one of a word's adjacent pairs does not contain the word. */
  lemma MissingPair(s: string, w: string, j: nat, x: char, y: char)
    requires j + 1 < |w| && w[j] == x && w[j + 1] == y && LacksPair(s, x, y)
    ensures !Contains(Lower(s), w)
  {
    ContainedHasPair(s, w, j);
  }

  /** A word found in the lower-cased text puts each of its characters there. */
  lemma ContainedHasChar(s: string, w: string, j: nat)
    requires j < |w|
    ensures Contains(Lower(s), w) ==> !LacksChar(s, w[j])
  {
    if Contains(Lower(s), w) {
      ContainsIff(Lower(s), w);
      var k: nat :| OccursAt(Lower(s), w, k);
      OccursAtSlice(Lower(s), w, k);
      assert Lower(s)[k..k + |w|][j] == w[j];
    }
  }

  /** A word found in the lower-cased text puts each pair of its adjacent characters there. */
  lemma ContainedHasPair(s: string, w: string, j: nat)
    requires j + 1 < |w|
    ensures Contains(Lower(s), w) ==> !LacksPair(s, w[j], w[j + 1])
  {
    if Contains(Lower(s), w) {
      ContainsIff(Lower(s), w);
      var k: nat :| OccursAt(Lower(s), w, k);
      OccursAtSlice(Lower(s), w, k);
      assert Lower(s)[k..k + |w|][j] == w[j];
      assert Lower(s)[k..k + |w|][j + 1] == w[j + 1];
    }
  }

  /**
   * On literal text it is cheaper to look for the letter in both cases
   * than to lower-case every character: a text holding neither `c` nor
   * its capital `C` lacks `c`.
   */
  lemma LacksLetter(s: string, c: char, C: char)
    requires 'a' <= c <= 'z' && C as int + 32 == c as int
    requires forall k :: 0 <= k < |s| ==> s[k] != c && s[k] != C
    ensures LacksChar(s, c)
  {
  }

  /** The same for a pair of adjacent letters, each in either case. */
  lemma LacksLetterPair(s: string, x: char, X: char, y: char, Y: char)
    requires 'a' <= x <= 'z' && X as int + 32 == x as int
    requires 'a' <= y <= 'z' && Y as int + 32 == y as int
    requires forall k :: 0 <= k < |s| - 1 ==> !((s[k] == x || s[k] == X) && (s[k + 1] == y || s[k + 1] == Y))
    ensures LacksPair(s, x, y)
  {
  }

  /** A text that lacks one letter of a pair lacks the pair. */
  lemma CharGivesPair(s: string, x: char, y: char)
    requires LacksChar(s, x) || LacksChar(s, y)
    ensures LacksPair(s, x, y)
  {
  }

  lemma LacksCharAppend(a: string, b: string, c: char)
    requires LacksChar(a, c) && LacksChar(b, c)
    ensures LacksChar(a + b, c)
  {
    forall k | 0 <= k < |a + b|
      ensures LowerChar((a + b)[k]) != c
    {
      if k >= |a| {
        assert (a + b)[k] == b[k - |a|];
      }
    }
  }

  lemma LacksPairAppend(a: string, b: string, x: char, y: char)
    requires LacksPair(a, x, y) && LacksPair(b, x, y)
    requires |a| > 0 && |b| > 0 ==> !(LowerChar(a[|a| - 1]) == x && LowerChar(b[0]) == y)
    ensures LacksPair(a + b, x, y)
  {
    var s := a + b;
    forall k | 0 <= k < |s| - 1
      ensures !(LowerChar(s[k]) == x && LowerChar(s[k + 1]) == y)
    {
      if k + 1 < |a| {
        assert s[k] == a[k] && s[k + 1] == a[k + 1];
      } else if k + 1 == |a| {
        assert s[k] == a[|a| - 1] && s[k + 1] == b[0];
      } else {
        assert s[k] == b[k - |a|] && s[k + 1] == b[k - |a| + 1];
      }
    }
  }

  /** Lines that lack a character, joined with line feeds, lack it. */
  lemma {:induction false} LacksCharJoin(ps: seq<string>, c: char)
    requires c != '\n' && forall i :: 0 <= i < |ps| ==> LacksChar(ps[i], c)
    ensures LacksChar(Join(ps, "\n"), c)
  {
    if |ps| > 1 {
      var rest := ps[1..];
      assert ps == [ps[0]] + rest;
      JoinCons(ps[0], rest, "\n");
      LacksCharJoin(rest, c);
      LacksCharAppend(ps[0], "\n", c);
      LacksCharAppend(ps[0] + "\n", Join(rest, "\n"), c);
    }
  }

  /** Lines that lack a pair, joined with line feeds, lack it, as a line feed is in neither. */
  lemma {:induction false} LacksPairJoin(ps: seq<string>, x: char, y: char)
    requires x != '\n' && y != '\n' && forall i :: 0 <= i < |ps| ==> LacksPair(ps[i], x, y)
    ensures LacksPair(Join(ps, "\n"), x, y)
  {
    if |ps| > 1 {
      var rest := ps[1..];
      assert ps == [ps[0]] + rest;
      JoinCons(ps[0], rest, "\n");
      LacksPairJoin(rest, x, y);
      LacksPairAppend(ps[0], "\n", x, y);
      LacksPairAppend(ps[0] + "\n", Join(rest, "\n"), x, y);
    }
  }

  /** A word found at some index, ignoring case, is in the lower-cased text. */
  lemma WordGivesContains(s: string, at: nat, w: string)
    requires WordCI(s, at, w)
    ensures Contains(Lower(s), w)
  {
    var l := Lower(s);
    forall j | 0 <= j < |w|
      ensures l[at..at + |w|][j] == w[j]
    {
    }
    assert l[at..at + |w|] == w;
    OccursAtSlice(l, w, at);
    ContainsIff(l, w);
  }

  // ---------------------------------------------------------------------
  // The information document
  // ---------------------------------------------------------------------

  /** The text of the second analysis test, written as two halves. */
  const InfoHead: string := "Este es un texto cualquiera, "
  const InfoTail: string := "sin palabras de factura."
  const InfoText: string := InfoHead + InfoTail

  /** What the sentence lacks: `v`, `m` and `g`, and the pairs `su`, `rf`, `it` and `no`. */
  predicate LacksForInfo(s: string) {
    && LacksChar(s, 'v') && LacksChar(s, 'm') && LacksChar(s, 'g')
    && LacksPair(s, 's', 'u') && LacksPair(s, 'r', 'f') && LacksPair(s, 'i', 't') && LacksPair(s, 'n', 'o')
  }

  lemma InfoHeadLetters()
    ensures LacksChar(InfoHead, 'v') && LacksChar(InfoHead, 'm') && LacksChar(InfoHead, 'g')
    ensures LacksPair(InfoHead, 'r', 'f')
  {
    LacksLetter(InfoHead, 'v', 'V');
    LacksLetter(InfoHead, 'm', 'M');
    LacksLetter(InfoHead, 'g', 'G');
    LacksLetter(InfoHead, 'f', 'F');
    CharGivesPair(InfoHead, 'r', 'f');
  }

  lemma InfoHeadSu()
    ensures LacksPair(InfoHead, 's', 'u')
  {
    LacksLetterPair(InfoHead, 's', 'S', 'u', 'U');
  }

  lemma InfoHeadIt()
    ensures LacksPair(InfoHead, 'i', 't')
  {
    LacksLetterPair(InfoHead, 'i', 'I', 't', 'T');
  }

  lemma InfoHeadNo()
    ensures LacksPair(InfoHead, 'n', 'o')
  {
    LacksLetterPair(InfoHead, 'n', 'N', 'o', 'O');
  }

  lemma InfoTailLetters()
    ensures LacksChar(InfoTail, 'v') && LacksChar(InfoTail, 'm') && LacksChar(InfoTail, 'g')
    ensures LacksPair(InfoTail, 'n', 'o')
  {
    LacksLetter(InfoTail, 'v', 'V');
    LacksLetter(InfoTail, 'm', 'M');
    LacksLetter(InfoTail, 'g', 'G');
    LacksLetter(InfoTail, 'o', 'O');
    CharGivesPair(InfoTail, 'n', 'o');
  }

  lemma InfoTailSu()
    ensures LacksPair(InfoTail, 's', 'u')
  {
    LacksLetterPair(InfoTail, 's', 'S', 'u', 'U');
  }

  lemma InfoTailRf()
    ensures LacksPair(InfoTail, 'r', 'f')
  {
    LacksLetterPair(InfoTail, 'r', 'R', 'f', 'F');
  }

  lemma InfoTailIt()
    ensures LacksPair(InfoTail, 'i', 't')
  {
    LacksLetterPair(InfoTail, 'i', 'I', 't', 'T');
  }

  lemma InfoTextLacks()
    ensures LacksForInfo(InfoText)
  {
    InfoHeadLetters();
    InfoHeadSu();
    InfoHeadIt();
    InfoHeadNo();
    InfoTailLetters();
    InfoTailSu();
    InfoTailRf();
    InfoTailIt();
    var a, b := InfoHead, InfoTail;
    assert a[|a| - 1] == ' ';
    LacksCharAppend(a, b, 'v');
    LacksCharAppend(a, b, 'm');
    LacksCharAppend(a, b, 'g');
    LacksPairAppend(a, b, 's', 'u');
    LacksPairAppend(a, b, 'r', 'f');
    LacksPairAppend(a, b, 'i', 't');
    LacksPairAppend(a, b, 'n', 'o');
  }

  lemma MissesFirstKeywords(s: string)
    requires LacksForInfo(s)
    ensures !Contains(Lower(s), "factura proforma") && !Contains(Lower(s), "invoice")
    ensures !Contains(Lower(s), "subtotal") && !Contains(Lower(s), "iva") && !Contains(Lower(s), "rfc")
  {
    MissingChar(s, "factura proforma", 14, 'm');
    MissingChar(s, "invoice", 2, 'v');
    MissingPair(s, "subtotal", 0, 's', 'u');
    MissingChar(s, "iva", 1, 'v');
    MissingPair(s, "rfc", 0, 'r', 'f');
  }

  lemma MissesLastKeywords(s: string)
    requires LacksForInfo(s)
    ensures !Contains(Lower(s), "cuit") && !Contains(Lower(s), "total a pagar")
    ensures !Contains(Lower(s), "número de factura") && !Contains(Lower(s), "numero de factura")
    ensures !Contains(Lower(s), "no. factura")
  {
    MissesCuit(s);
    MissesTotalAPagar(s);
    MissesNumeroAccented(s);
    MissesNumero(s);
    MissesNoFactura(s);
  }

  lemma MissesCuit(s: string)
    requires LacksForInfo(s)
    ensures !Contains(Lower(s), "cuit")
  {
    MissingPair(s, "cuit", 2, 'i', 't');
  }

  lemma MissesTotalAPagar(s: string)
    requires LacksForInfo(s)
    ensures !Contains(Lower(s), "total a pagar")
  {
    MissingChar(s, "total a pagar", 10, 'g');
  }

  lemma MissesNumeroAccented(s: string)
    requires LacksForInfo(s)
    ensures !Contains(Lower(s), "número de factura")
  {
    MissingChar(s, "número de factura", 2, 'm');
  }

  lemma MissesNumero(s: string)
    requires LacksForInfo(s)
    ensures !Contains(Lower(s), "numero de factura")
  {
    MissingChar(s, "numero de factura", 2, 'm');
  }

  lemma MissesNoFactura(s: string)
    requires LacksForInfo(s)
    ensures !Contains(Lower(s), "no. factura")
  {
    MissingPair(s, "no. factura", 0, 'n', 'o');
  }

  /** A text lacking what the sentence lacks holds no invoice keyword but "factura". */
  lemma MissesKeywords(s: string)
    requires LacksForInfo(s)
    ensures forall w :: w in InvoiceKeywords && w != "factura" ==> !Contains(Lower(s), w)
  {
    MissesFirstKeywords(s);
    MissesLastKeywords(s);
  }

  /** Of the invoice keywords, the sentence holds at most "factura". */
  lemma InfoTextHits()
    ensures Hits(Lower(InfoText), InvoiceKeywords) <= {"factura"}
  {
    InfoTextLacks();
    MissesKeywords(InfoText);
  }

  /**
   * "Este es un texto cualquiera, sin palabras de factura." holds one
   * keyword, "factura", and is an information document.
   */
  lemma InfoTextIsInformation()
    ensures Classify(InfoText) == Informacion
    ensures Info.Analyze(InfoText).InfoAnalysis? && Info.Analyze(InfoText).kind == Informacion
  {
    var h := Hits(Lower(InfoText), InvoiceKeywords);
    InfoTextHits();
    if "factura" in h {
      assert h == {"factura"};
    } else {
      assert h == {};
    }
    OneKeywordIsInformation(InfoText);
  }

  // ---------------------------------------------------------------------
  // The invoice
  // ---------------------------------------------------------------------

  /** The second item row of the invoice. */
  const ItemLine: string := "    Producto 3 7 93 651,00"

  /**
   * The lines of the invoice text of the first analysis test: it opens with
   * a line feed and closes with a line of four spaces.
   */
  const TestLines: seq<string> := [
    "",
    "    Factura",
    InvoiceSamples.DateLine,
    InvoiceSamples.NumberLine,
    InvoiceSamples.PartyLine,
    "    " + Samples.SampleRow,
    ItemLine,
    InvoiceSamples.TotalLine,
    "    "
  ]

  const TestInvoice: string := Join(TestLines, "\n")

  /** Printable ASCII holds no line break. */
  lemma PrintableLine(s: string)
    requires forall k :: 0 <= k < |s| ==> ' ' <= s[k] <= '~'
    ensures All(s, IsLineChar)
  {
  }

  lemma DateLinePrintable()
    ensures All(InvoiceSamples.DateLine, IsLineChar)
  {
    PrintableLine(InvoiceSamples.DateLine);
  }

  lemma NumberLinePrintable()
    ensures All(InvoiceSamples.NumberLine, IsLineChar)
  {
    PrintableLine(InvoiceSamples.NumberLine);
  }

  lemma PartyLinePrintable()
    ensures All(InvoiceSamples.PartyLine, IsLineChar)
  {
    PrintableLine(InvoiceSamples.PartyLine);
  }

  lemma SampleLinePrintable()
    ensures All("    " + Samples.SampleRow, IsLineChar)
  {
    PrintableLine("    " + Samples.SampleRow);
  }

  lemma ItemLinePrintable()
    ensures All(ItemLine, IsLineChar)
  {
    PrintableLine(ItemLine);
  }

  lemma TotalLinePrintable()
    ensures All(InvoiceSamples.TotalLine, IsLineChar)
  {
    PrintableLine(InvoiceSamples.TotalLine);
  }

  /** `splitlines` gives back the nine lines the text is written as. */
  lemma TestInvoiceLines()
    ensures SplitLines(TestInvoice) == TestLines
  {
    DateLinePrintable();
    NumberLinePrintable();
    PartyLinePrintable();
    SampleLinePrintable();
    ItemLinePrintable();
    TotalLinePrintable();
    PrintableLine("    Factura");
    PrintableLine("    ");
    SplitLinesJoin(TestLines);
  }

  /** The number line holds "numero de factura", so the invoice is one. */
  lemma TestInvoiceIsInvoice()
    ensures Classify(TestInvoice) == Factura
  {
    TestInvoicePhrase();
    NumeroDeFacturaIsInvoice(TestInvoice);
  }

  lemma TestInvoicePhrase()
    ensures Contains(Lower(TestInvoice), "numero de factura")
  {
    NumberLinePhraseContained();
    ContainsInPiece(TestLines, 3, "\n", "numero de factura");
  }

  lemma NumberLinePhraseContained()
    ensures Contains(Lower(InvoiceSamples.NumberLine), "numero de factura")
  {
    InvoiceSamples.NumberLinePhrase();
    WordGivesContains(InvoiceSamples.NumberLine, 4, "numero de factura");
  }

  // The client and the vendor

  /** What no line of the invoice holds: `v`, `z`, `cl` and `mi`. */
  predicate LacksPartyLetters(s: string) {
    LacksChar(s, 'v') && LacksChar(s, 'z') && LacksPair(s, 'c', 'l') && LacksPair(s, 'm', 'i')
  }

  lemma PartyLettersBy(s: string)
    requires LacksChar(s, 'v') && LacksChar(s, 'z')
    requires LacksChar(s, 'c') || LacksChar(s, 'l')
    requires LacksChar(s, 'm') || LacksChar(s, 'i')
    ensures LacksPartyLetters(s)
  {
    CharGivesPair(s, 'c', 'l');
    CharGivesPair(s, 'm', 'i');
  }

  /** A line with neither `v`, `z`, `l` nor `m`. */
  lemma PlainLineLetters(s: string)
    requires forall k :: 0 <= k < |s| ==> s[k] !in "vVzZlLmM"
    ensures LacksPartyLetters(s)
  {
    PartyLettersBy(s);
  }

  lemma DateLineLetters()
    ensures LacksPartyLetters(InvoiceSamples.DateLine)
  {
    PlainLineLetters(InvoiceSamples.DateLine);
  }

  lemma NumberLineVz()
    ensures LacksChar(InvoiceSamples.NumberLine, 'v') && LacksChar(InvoiceSamples.NumberLine, 'z')
  {
    LacksLetter(InvoiceSamples.NumberLine, 'v', 'V');
    LacksLetter(InvoiceSamples.NumberLine, 'z', 'Z');
  }

  lemma NumberLineLetters()
    ensures LacksPartyLetters(InvoiceSamples.NumberLine)
  {
    var L := InvoiceSamples.NumberLine;
    NumberLineVz();
    LacksLetter(L, 'l', 'L');
    LacksLetter(L, 'i', 'I');
    PartyLettersBy(L);
  }

  lemma SampleLineLetters()
    ensures LacksPartyLetters("    " + Samples.SampleRow)
  {
    PlainLineLetters("    " + Samples.SampleRow);
  }

  lemma ItemLineLetters()
    ensures LacksPartyLetters(ItemLine)
  {
    PlainLineLetters(ItemLine);
  }

  lemma TotalLineLetters()
    ensures LacksPartyLetters(InvoiceSamples.TotalLine)
  {
    var L := InvoiceSamples.TotalLine;
    LacksLetter(L, 'v', 'V');
    LacksLetter(L, 'z', 'Z');
    LacksLetter(L, 'c', 'C');
    LacksLetter(L, 'm', 'M');
    PartyLettersBy(L);
  }

  lemma PartyHeadLetters()
    ensures LacksPartyLetters("    Orlando Juan Loban ")
  {
    var L := "    Orlando Juan Loban ";
    LacksLetter(L, 'v', 'V');
    LacksLetter(L, 'z', 'Z');
    LacksLetter(L, 'c', 'C');
    LacksLetter(L, 'm', 'M');
    PartyLettersBy(L);
  }

  lemma PartyTailLetters()
    ensures LacksChar("Empresa de logistica, S. L.", 'v') && LacksChar("Empresa de logistica, S. L.", 'z')
  {
    LacksLetter("Empresa de logistica, S. L.", 'v', 'V');
    LacksLetter("Empresa de logistica, S. L.", 'z', 'Z');
  }

  lemma PartyTailCl()
    ensures LacksPair("Empresa de logistica, S. L.", 'c', 'l')
  {
    LacksLetterPair("Empresa de logistica, S. L.", 'c', 'C', 'l', 'L');
  }

  lemma PartyTailMi()
    ensures LacksPair("Empresa de logistica, S. L.", 'm', 'i')
  {
    LacksLetterPair("Empresa de logistica, S. L.", 'm', 'M', 'i', 'I');
  }

  lemma PartyLineLetters()
    ensures LacksPartyLetters(InvoiceSamples.PartyLine)
  {
    var a, b := "    Orlando Juan Loban ", "Empresa de logistica, S. L.";
    PartyHeadLetters();
    PartyTailLetters();
    PartyTailCl();
    PartyTailMi();
    assert a[|a| - 1] == ' ';
    LacksCharAppend(a, b, 'v');
    LacksCharAppend(a, b, 'z');
    LacksPairAppend(a, b, 'c', 'l');
    LacksPairAppend(a, b, 'm', 'i');
  }

  lemma TestLineLetters(i: nat)
    requires i < |TestLines|
    ensures LacksPartyLetters(TestLines[i])
  {
    if i == 2 {
      DateLineLetters();
    } else if i == 3 {
      NumberLineLetters();
    } else if i == 4 {
      PartyLineLetters();
    } else if i == 5 {
      SampleLineLetters();
    } else if i == 6 {
      ItemLineLetters();
    } else if i == 7 {
      TotalLineLetters();
    } else {
      PlainLineLetters(TestLines[i]);
    }
  }

  lemma TestInvoiceLetters()
    ensures LacksPartyLetters(TestInvoice)
  {
    forall i | 0 <= i < |TestLines|
      ensures LacksPartyLetters(TestLines[i])
    {
      TestLineLetters(i);
    }
    LacksCharJoin(TestLines, 'v');
    LacksCharJoin(TestLines, 'z');
    LacksPairJoin(TestLines, 'c', 'l');
    LacksPairJoin(TestLines, 'm', 'i');
  }

  /** A text without those letters holds no client, vendor or "razón social" label. */
  lemma NoPartyLabels(s: string)
    requires LacksPartyLetters(s)
    ensures AfterAnyLabel(s, Parties.ClientLabels, DefaultWindow) == []
    ensures AfterAnyLabel(s, Parties.VendorLabels, DefaultWindow) == []
    ensures AfterAnyLabel(s, Parties.CompanyLabels, DefaultWindow) == []
  {
    MissingPair(s, "cliente", 0, 'c', 'l');
    MissingPair(s, "client", 0, 'c', 'l');
    MissingPair(s, "emisor", 1, 'm', 'i');
    MissingChar(s, "proveedor", 3, 'v');
    MissingChar(s, "vendedor", 0, 'v');
    MissingChar(s, "razón social", 2, 'z');
    MissingChar(s, "razon social", 2, 'z');
    AbsentLabelsYieldNothing(s, Parties.ClientLabels);
    AbsentLabelsYieldNothing(s, Parties.VendorLabels);
    AbsentLabelsYieldNothing(s, Parties.CompanyLabels);
  }

  lemma AbsentLabelsYieldNothing(s: string, labels: seq<string>)
    requires forall n :: 0 <= n < |labels| ==> !Contains(Lower(s), labels[n])
    ensures AfterAnyLabel(s, labels, DefaultWindow) == []
  {
    forall n | 0 <= n < |labels|
      ensures AfterLabel(s, labels[n], DefaultWindow) == []
    {
      AbsentLabelYieldsNothing(s, labels[n], DefaultWindow);
    }
    AfterAnyLabelIsFirst(s, labels, DefaultWindow);
  }

  /** A line without `p` does not mention "empresa de". */
  lemma Unmentioned(s: string)
    requires forall k :: 0 <= k < |s| ==> s[k] != 'p' && s[k] != 'P'
    ensures !Parties.Mentions(s)
  {
    LacksLetter(s, 'p', 'P');
    MissingChar(s, Parties.CompanyMark, 2, 'p');
  }

  lemma EarlyLineUnmentioned(i: nat)
    requires i < 4
    ensures !Parties.Mentions(TestLines[i])
  {
    if i == 2 {
      Unmentioned(InvoiceSamples.DateLine);
    } else if i == 3 {
      Unmentioned(InvoiceSamples.NumberLine);
    } else {
      Unmentioned(TestLines[i]);
    }
  }

  lemma PartyLineMentioned()
    ensures Parties.Mentions(InvoiceSamples.PartyLine)
  {
    assert WordCI(InvoiceSamples.PartyLine, 23, Parties.CompanyMark);
    WordGivesContains(InvoiceSamples.PartyLine, 23, Parties.CompanyMark);
  }

  lemma TestInvoiceMentions()
    ensures Parties.Mentions(TestInvoice)
  {
    var L := TestLines[4];
    assert L == InvoiceSamples.PartyLine;
    PartyLineMentioned();
    ContainsInPiece(TestLines, 4, "\n", Parties.CompanyMark);
  }

  /** The first line that mentions "empresa de" is the party line, and it splits. */
  lemma TestLinesSplit()
    ensures Parties.FirstSplit(TestLines) == Some(("Orlando Juan Loban", "Empresa de logistica, S. L."))
  {
    var f := Parties.MentionedSplit;
    assert TestLines[0..] == TestLines;
    forall i | 0 <= i < 4
      ensures f(TestLines[i]).None?
    {
      EarlyLineUnmentioned(i);
    }
    FirstSomeStep(TestLines, 0, f);
    FirstSomeStep(TestLines, 1, f);
    FirstSomeStep(TestLines, 2, f);
    FirstSomeStep(TestLines, 3, f);
    FirstSomeStep(TestLines, 4, f);
    PartyLineMentioned();
    InvoiceSamples.PartyLineSplit();
  }

  /**
   * In a text where no label names a party but a line mentions "empresa
   * de" and splits, both parties come from the first such line.
   */
  lemma PartiesFromSplit(text: string, c: string, v: string)
    requires LacksPartyLetters(text) && Parties.Mentions(text)
    requires Parties.FirstSplit(SplitLines(text)) == Some((c, v))
    ensures Parties.Parties(text) == (c, v)
  {
    NoPartyLabels(text);
    Parties.ClientSources(text);
    Parties.VendorSources(text);
  }

  /** The invoice's parties are "Orlando Juan Loban" and "Empresa de logistica, S. L.". */
  lemma TestInvoiceParties()
    ensures Parties.Parties(TestInvoice) == ("Orlando Juan Loban", "Empresa de logistica, S. L.")
  {
    TestInvoiceLines();
    TestInvoiceLetters();
    TestLinesSplit();
    TestInvoiceMentions();
    PartiesFromSplit(TestInvoice, "Orlando Juan Loban", "Empresa de logistica, S. L.");
  }

  // The total and the items

  /** The closing line of four spaces mentions no total. */
  lemma BlankLineNoTotal()
    ensures Totals.LineTotal("    ") == []
  {
    LacksLetter("    ", 't', 'T');
    ContainedHasChar("    ", "importe total", 8);
    ContainedHasChar("    ", "total", 0);
  }

  /** The last line that yields a number is the total line. */
  lemma TestLinesTotal()
    ensures Totals.LinesTotal(TestLines) == "1.308,8"
  {
    BlankLineNoTotal();
    InvoiceSamples.TotalLineReadsTotal();
    assert TestLines[..9] == TestLines;
    assert TestLines[8] == "    ";
    assert TestLines[7] == InvoiceSamples.TotalLine;
    Totals.LinesTotalNext(TestLines, 8);
    Totals.LinesTotalNext(TestLines, 7);
  }

  /** The invoice's total is "1.308,8". */
  lemma TestInvoiceTotal()
    ensures Totals.Total(TestInvoice) == "1.308,8"
  {
    TestInvoiceLines();
    TestLinesTotal();
  }

  /** What a line yields is among the items of the lines. */
  lemma ItemOfLine(lines: seq<string>, j: nat, it: Items.LineItem)
    requires j < |lines| && Items.ItemFromLine(lines[j]) == Some(it)
    ensures it in Items.ItemsOf(lines)
  {
    Items.ItemsOfMembers(lines, it);
  }

  lemma TestLinesItem()
    ensures Items.LineItem("Producto", "1", 2, 100.0, 200.0) in Items.ItemsOf(TestLines)
  {
    var L := TestLines[5];
    assert L == "    " + Samples.SampleRow;
    Samples.SampleRowItem();
    ItemOfLine(TestLines, 5, Items.LineItem("Producto", "1", 2, 100.0, 200.0));
  }

  /** The first item row is among the invoice's items. */
  lemma TestInvoiceItem()
    ensures Items.LineItem("Producto", "1", 2, 100.0, 200.0) in Items.ParseItems(TestInvoice)
  {
    TestInvoiceLines();
    TestLinesItem();
  }

  // The invoice number

  /** `T` holds the number line after `P` and before a line break. */
  predicate NumberLineIn(T: string, P: string, R: string) {
    T == P + InvoiceSamples.NumberLine + R && |R| > 0 && R[0] == '\n'
  }

  lemma NumberLineChars(T: string, P: string, R: string)
    requires NumberLineIn(T, P, R)
    ensures |T| > |P| + 32
    ensures forall i :: 0 <= i < 32 ==> T[|P| + i] == InvoiceSamples.NumberLine[i]
    ensures T[|P| + 32] == '\n'
  {
    assert |InvoiceSamples.NumberLine| == 32;
  }

  /** A word found in a piece of a text is found in the text, shifted by what precedes the piece. */
  lemma WordShift(T: string, P: string, L: string, R: string, at: nat, w: string)
    requires T == P + L + R && WordCI(L, at, w)
    ensures WordCI(T, |P| + at, w)
  {
    forall k | 0 <= k < |w|
      ensures LowerChar(T[|P| + at + k]) == w[k]
    {
      assert T[|P| + at + k] == L[at + k];
    }
  }

  lemma NumberLabelIn(T: string, P: string, R: string)
    requires NumberLineIn(T, P, R)
    ensures InvoiceNumber.Label1End(T, |P| + 4) == Some(|P| + 21)
  {
    var n, L := |P|, InvoiceSamples.NumberLine;
    NumberLineChars(T, P, R);
    InvoiceSamples.NumberLineWords();
    WordShift(T, P, L, R, 6, "mero");
    WordShift(T, P, L, R, 11, "de");
    WordShift(T, P, L, R, 14, "factura");
    assert T[n + 4] == L[4] && T[n + 5] == L[5] && T[n + 10] == L[10] && T[n + 13] == L[13];
    assert LowerChar(T[n + 4]) == 'n' && InvoiceNumber.IsU(T[n + 5]);
    assert AllIn(T, n + 10, n + 11, IsSpace) && AllIn(T, n + 13, n + 14, IsSpace);
    InvoiceNumber.Label1Unique(T, n + 4, n + 11, n + 14);
  }

  lemma NumberTailIn(T: string, P: string, R: string)
    requires NumberLineIn(T, P, R)
    ensures InvoiceNumber.NumberTail(T, |P| + 21) == Some(Span(|P| + 23, |P| + 32))
  {
    var n, L := |P|, InvoiceSamples.NumberLine;
    NumberLineChars(T, P, R);
    assert L[21] == ':' && L[22] == ' ' && L[23] == '2';
    assert forall k :: 23 <= k < 32 ==> InvoiceNumber.IsNumberChar(L[k]);
    SkipWhileUnique(T, n + 21, n + 21, InvoiceNumber.IsHSpace);
    SkipWhileUnique(T, n + 22, n + 23, IsSpace);
    SkipWhileUnique(T, n + 23, n + 32, InvoiceNumber.IsNumberChar);
  }

  /** Before the label, no character lower-cases to "n", so no label starts there. */
  lemma NoLabelBefore(T: string, P: string, R: string, s: nat)
    requires NumberLineIn(T, P, R) && LacksChar(P, 'n') && s < |P| + 4
    ensures InvoiceNumber.Match1At(T, s).None?
  {
    NumberLineChars(T, P, R);
    if s < |P| {
      assert T[s] == P[s];
    } else {
      assert T[s] == InvoiceSamples.NumberLine[s - |P|];
    }
  }

  /** The search with the first pattern starts at the label and finds the number after it. */
  lemma Search1In(T: string, P: string, R: string)
    requires NumberLineIn(T, P, R) && LacksChar(P, 'n')
    ensures InvoiceNumber.Search1(T) == Some(Span(|P| + 23, |P| + 32))
  {
    var n := |P|;
    NumberLabelIn(T, P, R);
    NumberTailIn(T, P, R);
    InvoiceNumber.Match1AtOf(T, n + 4, n + 21);
    forall s: nat | s < n + 4
      ensures InvoiceNumber.Match1At(T, s).None?
    {
      NoLabelBefore(T, P, R, s);
    }
    InvoiceNumber.Search1First(T, n + 4);
  }

  lemma NumberSliceIn(T: string, P: string, R: string)
    requires NumberLineIn(T, P, R)
    ensures T[|P| + 23..|P| + 32] == "2024-0001"
  {
    var n := |P|;
    NumberLineChars(T, P, R);
    forall k | 0 <= k < 9
      ensures T[n + 23..n + 32][k] == "2024-0001"[k]
    {
      assert T[n + 23 + k] == InvoiceSamples.NumberLine[23 + k];
    }
  }

  /**
   * A text that holds the number line after no "n" and before a line
   * break reads the number "2024-0001" there, with the first pattern.
   */
  lemma NumberIn(T: string, P: string, R: string)
    requires NumberLineIn(T, P, R) && LacksChar(P, 'n')
    ensures InvoiceNumber.Number(T) == "2024-0001"
  {
    NumberLineChars(T, P, R);
    NumberTailIn(T, P, R);
    Search1In(T, P, R);
    InvoiceNumber.GroupIsToken(T, |P| + 21);
    NumberSliceIn(T, P, R);
    InvoiceNumber.NumberChain(T);
  }

  /** What precedes the number line in the invoice: the first three lines and their line feeds. */
  const NumberPrefix: string := "\n" + "    Factura" + "\n" + InvoiceSamples.DateLine + "\n"

  lemma NumberPrefixLacksN()
    ensures LacksChar(NumberPrefix, 'n')
  {
    var nl, f, d := "\n", "    Factura", InvoiceSamples.DateLine;
    LacksLetter(nl, 'n', 'N');
    LacksLetter(f, 'n', 'N');
    LacksLetter(d, 'n', 'N');
    LacksCharAppend(nl, f, 'n');
    LacksCharAppend(nl + f, nl, 'n');
    LacksCharAppend(nl + f + nl, d, 'n');
    LacksCharAppend(nl + f + nl + d, nl, 'n');
  }

  /** Joining the lines from `i` on puts line `i` first. */
  lemma JoinStep(ps: seq<string>, i: nat, sep: string)
    requires i + 1 < |ps|
    ensures Join(ps[i..], sep) == ps[i] + sep + Join(ps[i + 1..], sep)
  {
    assert ps[i..] == [ps[i]] + ps[i + 1..];
    JoinCons(ps[i], ps[i + 1..], sep);
  }

  lemma Regroup(a: string, b: string, c: string, d: string, e: string, sep: string)
    ensures a + (b + sep + (c + sep + (d + sep + e))) == a + b + sep + c + sep + d + (sep + e)
  {
  }

  /** The invoice is its first three lines, the number line, and the rest after a line feed. */
  lemma TestInvoiceAroundNumber()
    ensures NumberLineIn(TestInvoice, NumberPrefix, "\n" + Join(TestLines[4..], "\n"))
  {
    var nl, ls := "\n", TestLines;
    var j1, j4 := Join(ls[1..], nl), Join(ls[4..], nl);
    JoinStep(ls, 0, nl);
    assert ls[0..] == ls && ls[0] == "";
    assert TestInvoice == nl + j1;
    JoinStep(ls, 1, nl);
    JoinStep(ls, 2, nl);
    JoinStep(ls, 3, nl);
    assert ls[1] == "    Factura" && ls[2] == InvoiceSamples.DateLine && ls[3] == InvoiceSamples.NumberLine;
    Regroup(nl, "    Factura", InvoiceSamples.DateLine, InvoiceSamples.NumberLine, j4, nl);
  }

  /** The invoice's number is "2024-0001". */
  lemma TestInvoiceNumber()
    ensures InvoiceNumber.Number(TestInvoice) == "2024-0001"
  {
    TestInvoiceAroundNumber();
    NumberPrefixLacksN();
    NumberIn(TestInvoice, NumberPrefix, "\n" + Join(TestLines[4..], "\n"));
  }

  // The analysis

  /** An invoice's analysis carries the fields it reads. */
  lemma InvoiceAnalysisOf(text: string, c: string, v: string, n: string, t: string, it: Items.LineItem)
    requires Classify(text) == Factura && Parties.Parties(text) == (c, v)
    requires InvoiceNumber.Number(text) == n && Totals.Total(text) == t && it in Items.ParseItems(text)
    ensures var a := Info.Analyze(text);
      && a.InvoiceAnalysis? && a.docType == Factura && a.kind == Factura
      && a.data.cliente == c && a.data.proveedor == v && a.data.numeroFactura == n
      && a.data.total == t && it in a.data.items
  {
  }

  /**
   * The invoice of the first analysis test is an invoice whose client is
   * "Orlando Juan Loban", whose vendor is "Empresa de logistica, S. L.",
   * whose number is "2024-0001" and whose total is "1.308,8", with the
   * first item row among its items.
   */
  lemma TestInvoiceAnalysis()
    ensures var a := Info.Analyze(TestInvoice);
      && a.InvoiceAnalysis? && a.docType == Factura && a.kind == Factura
      && a.data.cliente == "Orlando Juan Loban" && a.data.proveedor == "Empresa de logistica, S. L."
      && a.data.numeroFactura == "2024-0001" && a.data.total == "1.308,8"
      && Items.LineItem("Producto", "1", 2, 100.0, 200.0) in a.data.items
  {
    TestInvoiceIsInvoice();
    TestInvoiceParties();
    TestInvoiceNumber();
    TestInvoiceTotal();
    TestInvoiceItem();
    InvoiceAnalysisOf(TestInvoice, "Orlando Juan Loban", "Empresa de logistica, S. L.", "2024-0001", "1.308,8",
                      Items.LineItem("Producto", "1", 2, 100.0, 200.0));
  }
}
