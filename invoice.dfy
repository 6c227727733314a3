/**
 * `extract_invoice_data` (app/ai_utils.py): the fields of an invoice read
 * by the heuristics of the other modules, in the order the source runs
 * them.
 */
module Invoice {
  import opened Wrappers
  import opened Text
  import opened Labels
  import opened Items
  import Parties
  import InvoiceNumber
  import Dates
  import Totals

  /** The dictionary `extract_invoice_data` returns; a missing field is empty. */
  datatype InvoiceData = InvoiceData(
    cliente: string,
    proveedor: string,
    numeroFactura: string,
    fecha: string,
    total: string,
    items: seq<LineItem>)

  /** The fields of the invoice in `text`. */
  function InvoiceFields(text: string): InvoiceData {
    var parties := Parties.Parties(text);
    InvoiceData(parties.0, parties.1, InvoiceNumber.Number(text), Dates.Date(text),
                Totals.Total(text), ParseItems(text))
  }

  /**
   * `extract_invoice_data` step by step: the parties, the number with its
   * two patterns and its labels, the date with its two patterns, the total
   * loop and the item loop.
   */
  method ExtractInvoiceData(text: string) returns (d: InvoiceData)
    ensures d == InvoiceFields(text)
  {
    var cliente, proveedor := Parties.FindParties(text);

    var numero := InvoiceNumber.GroupText(text, InvoiceNumber.Search1(text));
    if numero == [] {
      numero := InvoiceNumber.GroupText(text, InvoiceNumber.Search2(text));
    }
    if numero == [] {
      numero := FindAfterAny(text, InvoiceNumber.NumberLabels, InvoiceNumber.NumberWindow);
    }

    var fecha: string := [];
    var m := Dates.Search1(text);
    if m.Some? {
      fecha := Strip(text[m.value.lo..m.value.hi]);
    } else {
      m := Dates.Search2(text);
      if m.Some? {
        fecha := Strip(text[m.value.lo..m.value.hi]);
      }
    }

    var total := Totals.TotalOf(text);
    var items := ParseInvoiceItems(text);
    d := InvoiceData(cliente, proveedor, numero, fecha, total, items);
  }

  /**
   * What each field of an invoice is: the number lies on one line and is a
   * number token or a short label value; the date is empty or a whole
   * date; the total is empty exactly when the text has no digit and is
   * otherwise a number; there is at most one item per line, each read from
   * a line of the text, with no negative quantity or amount.
   */
  lemma InvoiceFieldsShape(text: string)
    ensures var d := InvoiceFields(text);
      && All(d.numeroFactura, IsLineChar)
      && ((d.numeroFactura != [] && All(d.numeroFactura, InvoiceNumber.IsNumberChar))
          || |d.numeroFactura| <= InvoiceNumber.NumberWindow)
      && (d.fecha == [] || Dates.IsDate(d.fecha))
      && (d.total == [] <==> !Totals.HasDigit(text))
      && (d.total != [] ==> IsDigit(d.total[0]) && All(d.total, Totals.IsTokChar))
      && |d.items| <= |SplitLines(text)|
      && forall it :: it in d.items ==>
           it.quantity >= 0 && it.unitPrice >= 0.0 && it.total >= 0.0
           && exists j :: 0 <= j < |SplitLines(text)| && ItemFromLine(SplitLines(text)[j]) == Some(it)
  {
    InvoiceNumber.NumberShape(text);
    Dates.DateIsDate(text);
    Totals.TotalShape(text);
    forall it | it in ParseItems(text)
      ensures it.quantity >= 0 && it.unitPrice >= 0.0 && it.total >= 0.0
              && exists j :: 0 <= j < |SplitLines(text)| && ItemFromLine(SplitLines(text)[j]) == Some(it)
    {
      ParseItemsSources(text, it);
    }
  }
}
