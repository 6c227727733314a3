/**
 * Worked instances of the field heuristics on the lines of the sample
 * invoice the test suite feeds the engine (app/tests/test_documents.py),
 * each indented by four spaces as in the document.
 */
module InvoiceSamples {
  import opened Wrappers
  import opened Text
  import opened Patterns
  import opened Scan
  import Parties
  import InvoiceNumber
  import Dates
  import Totals
  import Numbers

  // ---------------------------------------------------------------------
  // The invoice number
  // ---------------------------------------------------------------------

  const NumberLine: string := "    Numero de factura: 2024-0001"

  lemma NumberLineWords()
    ensures WordCI(NumberLine, 6, "mero") && WordCI(NumberLine, 11, "de") && WordCI(NumberLine, 14, "factura")
  {
    NumberLineMero();
    NumberLineDe();
    NumberLineFactura();
  }

  lemma NumberLineMero()
    ensures WordCI(NumberLine, 6, "mero")
  {
  }

  lemma NumberLineDe()
    ensures WordCI(NumberLine, 11, "de")
  {
  }

  lemma NumberLineFactura()
    ensures WordCI(NumberLine, 14, "factura")
  {
  }

  /** The line opens, after its indentation, with "numero de factura". */
  lemma NumberLinePhrase()
    ensures WordCI(NumberLine, 4, "numero de factura")
  {
    NumberLineNumero();
    NumberLineSpacedDe();
    NumberLineFactura();
    PhraseParts();
    WordCIAppend(NumberLine, 4, "numero", " de ");
    WordCIAppend(NumberLine, 4, "numero de ", "factura");
  }

  lemma PhraseParts()
    ensures "numero" + " de " == "numero de "
    ensures "numero de " + "factura" == "numero de factura"
  {
  }

  lemma NumberLineNumero()
    ensures WordCI(NumberLine, 4, "numero")
  {
  }

  lemma NumberLineSpacedDe()
    ensures WordCI(NumberLine, 10, " de ")
  {
  }

  lemma NumberLineLabel()
    ensures InvoiceNumber.Label1End(NumberLine, 4) == Some(21)
  {
    NumberLineWords();
    NumberLineLabelChars();
    InvoiceNumber.Label1Unique(NumberLine, 4, 11, 14);
  }

  lemma NumberLineLabelChars()
    ensures |NumberLine| == 32
    ensures LowerChar(NumberLine[4]) == 'n' && InvoiceNumber.IsU(NumberLine[5])
    ensures AllIn(NumberLine, 10, 11, IsSpace) && AllIn(NumberLine, 13, 14, IsSpace)
  {
    var L := NumberLine;
    assert L[4] == 'N' && L[5] == 'u' && L[10] == ' ' && L[13] == ' ';
  }

  lemma NumberLineTail()
    ensures InvoiceNumber.NumberTail(NumberLine, 21) == Some(Span(23, 32))
  {
    var L := NumberLine;
    assert |L| == 32;
    SkipWhileUnique(L, 21, 21, InvoiceNumber.IsHSpace);
    SkipWhileUnique(L, 22, 23, IsSpace);
    SkipWhileUnique(L, 23, 32, InvoiceNumber.IsNumberChar);
  }

  /** The indentation is no "n", so no label starts there. */
  lemma NumberLineIndent(j: nat)
    requires j < 4
    ensures InvoiceNumber.Match1At(NumberLine, j).None?
  {
    assert NumberLine[j] == ' ';
  }

  lemma NumberLineStart()
    ensures InvoiceNumber.Start1(NumberLine) == Some(4)
  {
    var L := NumberLine;
    NumberLineLabel();
    NumberLineTail();
    InvoiceNumber.Match1AtOf(L, 4, 21);
    InvoiceNumber.Start1Of(L, 4);
    var s := InvoiceNumber.Start1(L).value;
    if s < 4 {
      NumberLineIndent(s);
    }
  }

  lemma NumberLineSlice()
    ensures NumberLine[23..32] == "2024-0001"
  {
  }

  /** The first number pattern reads "2024-0001" after "Numero de factura:". */
  lemma NumberLineReadsNumber()
    ensures InvoiceNumber.Number(NumberLine) == "2024-0001"
  {
    NumberLineGroup();
    InvoiceNumber.NumberChain(NumberLine);
  }

  lemma NumberLineGroup()
    ensures InvoiceNumber.Search1(NumberLine).Some?
    ensures InvoiceNumber.GroupText(NumberLine, InvoiceNumber.Search1(NumberLine)) == "2024-0001"
  {
    NumberLineStart();
    NumberLineLabel();
    NumberLineTail();
    InvoiceNumber.GroupIsToken(NumberLine, 21);
    NumberLineSlice();
  }

  // ---------------------------------------------------------------------
  // The date
  // ---------------------------------------------------------------------

  const DateLine: string := "    Fecha de factura: 17/04/2024"

  /** The only 'h' of the date line is the one of "Fecha". */
  lemma DateLineH(j: nat)
    requires j < |DateLine| && LowerChar(DateLine[j]) == 'h'
    ensures j == 7
  {
  }

  /** The line has no digit before the date. */
  lemma DateLineDigit(j: nat)
    requires j < |DateLine| && IsDigit(DateLine[j])
    ensures 22 <= j
  {
  }

  /** Only at index 4 does "fecha" start, and "de" follows it, not one of the three words. */
  lemma DateLineNoLabelAt(s: nat)
    ensures Dates.DateLabelEnd(DateLine, s).None?
  {
    var L := DateLine;
    if WordCI(L, s, "fecha") {
      assert LowerChar(L[s + 3]) == "fecha"[3];
      DateLineH(s + 3);
      assert s == 4;
      SkipWhileUnique(L, 9, 10, IsSpace);
      assert LowerChar(L[10 + 0]) == 'd';
      assert "emisi"[0] == 'e' && "factura"[0] == 'f' && "comprobante"[0] == 'c';
    }
  }

  /** "Fecha de factura" is not one of the labels the first date pattern knows. */
  lemma DateLineHasNoLabelledDate()
    ensures Dates.Search1(DateLine).None?
  {
    if Dates.Start1(DateLine).Some? {
      var s := Dates.Start1(DateLine).value;
      DateLineNoLabelAt(s);
    }
  }

  lemma DateLineShape()
    ensures Dates.DateShape(DateLine, 22, 24, 27, 32)
  {
    var L := DateLine;
    assert |L| == 32;
    assert L[22] == '1' && L[23] == '7' && L[24] == '/' && L[25] == '0' && L[26] == '4' && L[27] == '/';
    assert L[28] == '2' && L[29] == '0' && L[30] == '2' && L[31] == '4';
  }

  /** A bare date starts with a digit. */
  lemma DateLineStartDigit(s: nat)
    requires s < |DateLine| && Dates.Date2At(DateLine, s).Some?
    ensures IsDigit(DateLine[s])
  {
    Dates.DatePartSound(DateLine, s);
  }

  lemma DateLineStart()
    ensures Dates.Start2(DateLine) == Some(22) && Dates.Search2(DateLine) == Some(Span(22, 32))
  {
    var L := DateLine;
    DateLineShape();
    assert Dates.BoundaryBefore(L, 22) by {
      assert L[21] == ' ';
    }
    assert Dates.BoundaryAfter(L, 32);
    Dates.Search2Priority(L, 22, 24, 27, 32);
    var s := Dates.Start2(L).value;
    DateLineStartDigit(s);
    DateLineDigit(s);
  }

  lemma DateLineSlice()
    ensures DateLine[22..32] == "17/04/2024"
  {
  }

  /** The bare date pattern then reads the date standing on its own. */
  lemma DateLineReadsDate()
    ensures Dates.Date(DateLine) == "17/04/2024"
  {
    DateLineHasNoLabelledDate();
    DateLineStart();
    Dates.DateIsToken(DateLine, 22);
    DateLineSlice();
  }

  // ---------------------------------------------------------------------
  // The parties
  // ---------------------------------------------------------------------

  /** The party line, written as its client half and its vendor half. */
  const PartyLine: string := "    Orlando Juan Loban " + "Empresa de logistica, S. L."

  lemma PartyLineHead()
    ensures Parties.IsNameHead(PartyLine[4]) && AllIn(PartyLine, 5, 11, Parties.IsNameRunChar)
  {
    var L := PartyLine;
    assert |L| == 50;
    assert L[4] == 'O';
  }

  lemma PartyLineWords()
    ensures Parties.Words(PartyLine, 11, 22)
  {
    var L := PartyLine;
    assert |L| == 50;
    assert L[11] == ' ' && L[21] == 'n';
  }

  lemma PartyLineVendor()
    ensures Parties.VendorShape(PartyLine, 22, Parties.Vendor(23, 31, 50))
  {
    PartyLineGaps();
    PartyLineEmpresa();
    PartyLineDe();
  }

  lemma PartyLineGaps()
    ensures |PartyLine| == 50 && PartyLine[22] == ' ' && PartyLine[30] == ' '
    ensures AllIn(PartyLine, 33, 50, Parties.NotNewline)
  {
  }

  lemma PartyLineEmpresa()
    ensures WordCI(PartyLine, 23, Parties.Empresa)
  {
    var L := PartyLine;
    assert L[23] == 'E' && L[24] == 'm' && L[25] == 'p' && L[26] == 'r' && L[27] == 'e' && L[28] == 's' && L[29] == 'a';
  }

  lemma PartyLineDe()
    ensures WordCI(PartyLine, 31, Parties.De)
  {
    assert PartyLine[31] == 'd' && PartyLine[32] == 'e';
  }

  /** The split pattern matches the party line with the client "Orlando Juan Loban". */
  lemma PartyLineShape()
    ensures Parties.SplitShape(PartyLine, Parties.Split(4, 11, 22, Parties.Vendor(23, 31, 50)))
  {
    PartyLineHead();
    PartyLineWords();
    PartyLineVendor();
  }

  /** The line is indented by spaces, so no match starts before the name. */
  lemma PartyLineIndent(j: nat)
    requires j < 4
    ensures !Parties.IsNameHead(PartyLine[j])
  {
  }

  /** The `[^ \n]+` run after the name's first letter stops at the space after "Orlando". */
  lemma PartyLineRun(a: nat)
    requires AllIn(PartyLine, 5, a, Parties.IsNameRunChar)
    ensures a <= 11
  {
    assert PartyLine[11] == ' ';
  }

  /** The spaces of the line between "Loban" and the comma. */
  lemma PartyLineSpace(j: nat)
    requires 22 < j < 44 && IsSpace(PartyLine[j])
    ensures j == 30 || j == 33
  {
  }

  /** "Empresa" follows neither of those spaces. */
  lemma PartyLineNoEmpresa(p: nat)
    requires p == 31 || p == 34
    ensures !WordCI(PartyLine, p, Parties.Empresa)
  {
    assert LowerChar(PartyLine[p + 0]) != Parties.Empresa[0];
  }

  /** No client longer than "Orlando Juan Loban" is followed by "Empresa de". */
  lemma PartyLineEnd(e: nat, v: Parties.Vendor)
    requires 22 <= e && Parties.Words(PartyLine, 11, e) && Parties.VendorShape(PartyLine, e, v)
    ensures e == 22
  {
    var L := PartyLine;
    assert |L| == 50;
    if e > 22 {
      assert L[43] == ',';
      assert e <= 43;
      PartyLineSpace(e);
      assert L[31] == 'd' && L[34] == 'l';
      assert v.p == e + 1;
      PartyLineNoEmpresa(v.p);
      assert false;
    }
  }

  lemma PartyLineSlices()
    ensures PartyLine[4..22] == "Orlando Juan Loban"
    ensures PartyLine[23..50] == "Empresa de logistica, S. L."
  {
  }

  /** The search for the split finds the match that starts at the name and ends the client after "Loban". */
  lemma PartyLineSearch()
    ensures Parties.SearchSplit(PartyLine) == Some(Parties.Split(4, 11, 22, Parties.Vendor(23, 31, 50)))
  {
    var L := PartyLine;
    var v := Parties.Vendor(23, 31, 50);
    PartyLineShape();
    Parties.SplitPriority(L, Parties.Split(4, 11, 22, v));
    var m := Parties.SearchSplit(L).value;
    if m.s < 4 {
      PartyLineIndent(m.s);
    }
    PartyLineRun(m.a);
    PartyLineEnd(m.e, m.v);
    Parties.VendorUnique(L, 22, v);
    Parties.VendorUnique(L, 22, m.v);
  }

  /**
   * The "empresa de" split of the party line gives the client "Orlando
   * Juan Loban" and the vendor "Empresa de logistica, S. L.".
   */
  lemma PartyLineSplit()
    ensures Parties.SplitOf(PartyLine) == Some(("Orlando Juan Loban", "Empresa de logistica, S. L."))
  {
    PartyLineSearch();
    PartyLineSlices();
    ClientStripped();
    VendorStripped();
  }

  lemma ClientStripped()
    ensures Strip("Orlando Juan Loban") == "Orlando Juan Loban"
  {
    var w := "Orlando Juan Loban";
    assert "" + w == w;
    StripPadded("", w);
  }

  lemma VendorStripped()
    ensures Strip("Empresa de logistica, S. L.") == "Empresa de logistica, S. L."
  {
    var w := "Empresa de logistica, S. L.";
    assert "" + w == w;
    StripPadded("", w);
  }

  // ---------------------------------------------------------------------
  // The total
  // ---------------------------------------------------------------------

  const TotalLine: string := "    Total: 1.308,8"

  lemma TotalLineMentionsTotal()
    ensures Contains(Lower(TotalLine), "total")
  {
    var tl := Lower(TotalLine);
    assert |tl| == 18;
    assert tl[4..9] == "total";
    OccursAtSlice(tl, "total", 4);
    ContainsIff(tl, "total");
  }

  lemma TotalLineTokens()
    ensures Totals.TokensFrom(TotalLine, 0) == [Span(11, 18)]
  {
    var L := TotalLine;
    assert |L| == 18;
    SkipWhileUnique(L, 0, 11, NotDigit);
    SkipWhileUnique(L, 12, 18, Totals.IsTokChar);
    assert Totals.TokensFrom(L, 18) == [];
  }

  /** The total line yields its last number, "1.308,8", unnormalised. */
  lemma TotalLineReadsTotal()
    ensures Totals.LineTotal(TotalLine) == "1.308,8"
  {
    TotalLineMentionsTotal();
    TotalLineTokens();
    Totals.TokenText(TotalLine, Totals.TokensFrom(TotalLine, 0)[0]);
    TotalLineSlice();
  }

  lemma TotalLineSlice()
    ensures TotalLine[11..18] == "1.308,8"
  {
  }

  /** On its own, the total line is one line, so its total is the one it mentions. */
  lemma TotalLineTotal()
    ensures Totals.Total(TotalLine) == "1.308,8"
  {
    var L := TotalLine;
    assert |L| == 18;
    SkipWhileUnique(L, 0, 18, IsLineChar);
    assert L[0..] == L;
    assert SplitLines(L) == [L];
    TotalLineReadsTotal();
    assert Totals.LinesTotal([L]) == Totals.LineTotal(L);
  }
}
