/**
 * Worked instances of the rules on the values of the sample invoice the
 * test suite feeds the engine (app/tests/test_documents.py).
 */
module Samples {
  import opened Wrappers
  import opened Text
  import opened Numbers
  import opened Patterns
  import opened Items

  /** The total of the sample invoice, written with a grouping dot and a decimal comma. */
  lemma ToFloatGroupedTotal()
    ensures ToFloat("1.308,8") == 1308.8
  {
    assert "1.308" + "," + "8" == "1.308,8";
    GroupedThousand();
    assert DigitsValue("8") == 8 by {
      assert "8"[..0] == "";
    }
    ToFloatLocale("1.308", "8");
    OneDecimal("1308", "8");
  }

  /** Dropping the grouping dot from "1.308" leaves the numeral 1308. */
  lemma GroupedThousand()
    ensures RemoveChar("1.308", '.') == "1308" && DigitsValue("1308") == 1308
  {
    assert "1.308"[1..] == ".308" && ".308"[1..] == "308";
    RemoveCharAbsent("308", '.');
    assert "1308"[..3] == "130" && "130"[..2] == "13" && "13"[..1] == "1";
  }

  /** A line total of the sample invoice, with a decimal comma. */
  lemma ToFloatDecimalComma()
    ensures ToFloat("200,00") == 200.0
  {
    var s := "200" + "," + "00";
    assert s == "200,00";
    RemoveCharAbsent("200", '.');
    assert DigitsValue("200") == 200 by {
      assert "200"[..2] == "20" && "20"[..1] == "2";
    }
    assert DigitsValue("00") == 0 by {
      assert "00"[..1] == "0";
    }
    ToFloatLocale("200", "00");
    ZeroFraction("200", "00");
  }

  /** One decimal digit counts in tenths. */
  lemma OneDecimal(whole: string, frac: string)
    requires All(whole, IsDigit) && All(frac, IsDigit) && |frac| == 1
    ensures DecimalValue(whole, frac) == DigitsValue(whole) as real + DigitsValue(frac) as real / 10.0
  {
    assert Pow10(1) == 10;
  }

  /** A fraction of zeros adds nothing to the value of a numeral. */
  lemma ZeroFraction(whole: string, frac: string)
    requires All(whole, IsDigit) && All(frac, IsDigit) && DigitsValue(frac) == 0
    ensures DecimalValue(whole, frac) == DigitsValue(whole) as real
  {
  }

  /** A unit price of the sample invoice, a plain integer. */
  lemma ToFloatInteger()
    ensures ToFloat("100") == 100.0
  {
    RemoveCharAbsent("100", '.');
    assert DigitsValue("100") == 100 by {
      assert "100"[..2] == "10" && "10"[..1] == "1";
    }
    ToFloatGrouped("100");
  }

  /** The three conversions `_to_float` documents: "1.308,80", "600,00" and "1451". */
  lemma ToFloatDocumented()
    ensures ToFloat("1.308,80") == 1308.80
    ensures ToFloat("600,00") == 600.0
    ensures ToFloat("1451") == 1451.0
  {
    ToFloatTwoDecimals();
    ToFloatSixHundred();
    ToFloatPlain();
  }

  lemma ToFloatTwoDecimals()
    ensures ToFloat("1.308,80") == 1308.80
  {
    assert "1.308" + "," + "80" == "1.308,80";
    GroupedThousand();
    assert DigitsValue("80") == 80 by {
      assert "80"[..1] == "8";
    }
    ToFloatLocale("1.308", "80");
    TwoDecimals("1308", "80");
  }

  /** Two decimal digits count in hundredths. */
  lemma TwoDecimals(whole: string, frac: string)
    requires All(whole, IsDigit) && All(frac, IsDigit) && |frac| == 2
    ensures DecimalValue(whole, frac) == DigitsValue(whole) as real + DigitsValue(frac) as real / 100.0
  {
    assert Pow10(2) == 100;
  }

  lemma ToFloatSixHundred()
    ensures ToFloat("600,00") == 600.0
  {
    assert "600" + "," + "00" == "600,00";
    RemoveCharAbsent("600", '.');
    assert DigitsValue("600") == 600 by {
      assert "600"[..2] == "60" && "60"[..1] == "6";
    }
    assert DigitsValue("00") == 0 by {
      assert "00"[..1] == "0";
    }
    ToFloatLocale("600", "00");
    ZeroFraction("600", "00");
  }

  lemma ToFloatPlain()
    ensures ToFloat("1451") == 1451.0
  {
    RemoveCharAbsent("1451", '.');
    assert DigitsValue("1451") == 1451 by {
      assert "1451"[..3] == "145" && "145"[..2] == "14" && "14"[..1] == "1";
    }
    ToFloatGrouped("1451");
  }

  /**
   * Quantity inference: 200 at 100 each is 2, 651 at 93 each is 7, and
   * 601 at 150 each is 4, because 601/150 is within the tolerance of 4.
   */
  lemma InferQtySamples()
    ensures InferQty(100.0, 200.0) == Some(2)
    ensures InferQty(93.0, 651.0) == Some(7)
    ensures InferQty(150.0, 601.0) == Some(4)
    ensures InferQty(0.0, 100.0) == None
    ensures InferQty(1.0, 15000.0) == None
  {
    InferQtyAccepts(100.0, 200.0, 2);
    InferQtyAccepts(93.0, 651.0, 7);
    InferQtyAccepts(150.0, 601.0, 4);
  }

  /** The first item row of the sample invoice. */
  const SampleRow: string := "Producto 1 2 100 200,00"

  /** The groups pattern 1 gives the sample row. */
  const SampleGroups: Groups := Groups(Span(0, 8), Span(9, 10), Span(11, 12), Span(13, 16), Span(17, 23))

  lemma SampleRowShape()
    ensures ProductShape(SampleRow, SampleGroups)
  {
    SampleRowHead();
    SampleRowPrice();
    SampleRowTotal();
  }

  /** The literal, the spaces and the two digit runs that open the row. */
  lemma SampleRowHead()
    ensures |SampleRow| == 23 && WordCI(SampleRow, 0, Producto)
    ensures AllIn(SampleRow, 8, 9, IsSpace) && AllIn(SampleRow, 9, 10, IsDigit)
    ensures AllIn(SampleRow, 10, 11, NotDigit) && AllIn(SampleRow, 11, 12, IsDigit)
    ensures AllIn(SampleRow, 12, 13, IsSpace) && AllIn(SampleRow, 16, 17, IsSpace)
  {
    SampleRowWord();
    SampleRowChars();
  }

  lemma SampleRowWord()
    ensures WordCI(SampleRow, 0, Producto)
  {
  }

  lemma SampleRowChars()
    ensures |SampleRow| == 23
    ensures AllIn(SampleRow, 8, 9, IsSpace) && AllIn(SampleRow, 9, 10, IsDigit)
    ensures AllIn(SampleRow, 10, 11, NotDigit) && AllIn(SampleRow, 11, 12, IsDigit)
    ensures AllIn(SampleRow, 12, 13, IsSpace) && AllIn(SampleRow, 16, 17, IsSpace)
  {
    var line := SampleRow;
    assert line[8] == ' ' && line[9] == '1' && line[10] == ' ' && line[11] == '2';
    assert line[12] == ' ' && line[16] == ' ';
  }

  lemma SampleRowPrice()
    ensures IsNumber(SampleRow, 13, 16)
  {
  }

  lemma SampleRowTotal()
    ensures IsNumber(SampleRow, 17, 23)
  {
    var line := SampleRow;
    forall k | 17 <= k < 23 && IsSep(line[k])
      ensures AllIn(line, k + 1, 23, IsDigit)
    {
      assert k == 20;
    }
  }

  /** Pattern 1 matches the sample row with exactly the groups above. */
  lemma SampleRowMatch()
    ensures MatchProduct(SampleRow) == Some(SampleGroups)
  {
    SampleRowShape();
    ProductPriority(SampleRow, SampleGroups);
    var m := MatchProduct(SampleRow).value;
    assert m.desc.lo == 9;
    assert !IsDigit(SampleRow[10]);
    assert m.desc.hi <= 10;
  }

  lemma SampleRowSlices()
    ensures SampleRow[0..8] == "Producto" && SampleRow[9..10] == "1" && SampleRow[11..12] == "2"
    ensures SampleRow[13..16] == "100" && SampleRow[17..23] == "200,00"
  {
  }

  /** The item pattern 1's groups make of the sample row. */
  lemma SampleRowFields()
    ensures ProductShape(SampleRow, SampleGroups)
      && ProductItem(SampleRow, SampleGroups) == LineItem("Producto", "1", 2, 100.0, 200.0)
  {
    SampleRowShape();
    SampleRowSlices();
    StripKeeps("Producto");
    StripKeeps("1");
    assert DigitsValue("2") == 2 by {
      assert "2"[..0] == "";
    }
    ToFloatInteger();
    ToFloatDecimalComma();
  }

  /**
   * The first item row of the sample invoice, indented as in the document,
   * is read by pattern 1 as one Producto of description "1", quantity 2,
   * unit price 100 and total 200.
   */
  lemma SampleRowItem()
    ensures ItemFromLine("    " + SampleRow) == Some(LineItem("Producto", "1", 2, 100.0, 200.0))
  {
    StripPadded("    ", SampleRow);
    SampleRowMatch();
    SampleRowFields();
  }
}
