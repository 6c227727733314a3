# Document analysis heuristics, modelled in Dafny

This project models the heuristic document-analysis engine of
`app/ai_utils.py`. The engine gets the text already extracted from a PDF
or a scanned image. It decides whether the document is an invoice
(`factura`) or an information document (`informacion`), and returns a
record:

- for an invoice: the client, the vendor, the invoice number, the date,
  the total and the item rows;
- for an information document: a description with its line feeds turned
  into spaces, a summary of at most three sentences and a sentiment.

Text is `string` (a sequence of Unicode scalar values), numbers are exact
reals, and every regular expression of the source is written as a
deterministic matcher. Each matcher is paired with a predicate that
describes every way the expression can match, and proved to return the
match that Python's backtracking engine reports.

Modules, in dependency order:

| module | file | what it holds |
|---|---|---|
| `Wrappers` | wrappers.dfy | `Option` |
| `Scan` | scan.dfy | generic first/last searches over ranges and sequences |
| `Text` | text.dfy | character classes, `lower`, `strip`, `find`, `count`, `split`, `splitlines`, `join` |
| `Numbers` | numbers.dfy | `_to_float`, `_infer_qty_from_total` |
| `Classifier` | classifier.dfy | `classify_document` |
| `Patterns` | patterns.dfy | the three item patterns |
| `Items` | items.dfy | `_parse_invoice_items` |
| `Labels` | labels.dfy | `find_after_any` |
| `Parties` | parties.dfy | client and vendor, with the "empresa de" split |
| `InvoiceNumber` | invoice_number.dfy | the invoice number chain |
| `Dates` | dates.dfy | the date chain |
| `Totals` | totals.dfy | the total |
| `Invoice` | invoice.dfy | `extract_invoice_data` |
| `Info` | info.dfy | `simple_sentiment`, `summarize`, `analyze_document` |
| `Samples`, `InvoiceSamples` | samples.dfy, invoice_samples.dfy | the sample invoice of the test suite, line by line |
| `SuiteSamples` | suite_samples.dfy | the two documents of the analysis tests, as whole texts |

The loops of the source are methods with loop invariants. Each is proved
equal to a function, and the properties are lemmas about those functions:

- the item loop (`Items.ParseInvoiceItems`, with its body `Items.ParseLine`);
- both loops of `find_after_any` (`Labels.FindAfterAny`);
- the "empresa de" loop that breaks at the first match (`Parties.FindSplit`);
- the total loop that keeps overwriting (`Totals.TotalOf`, with its body `Totals.LineTotalOf`);
- the step-by-step field assignments (`Invoice.ExtractInvoiceData`, `Info.AnalyzeDocument`).

`_infer_qty_from_total(150, 601)` returns 4, because |601/150 − 4| ≈ 0.0067
is below the 0.05 tolerance (`Samples.InferQtySamples`).

## Model

| member | source | states |
|---|---|---|
| `Numbers.ToFloat` | app/ai_utils.py:26-41 | the value is never negative |
| `Numbers.ToFloatBlank` | app/ai_utils.py:33-35 | empty or whitespace-only input gives 0 |
| `Numbers.ToFloatLocale` | app/ai_utils.py:36-39 | a Spanish-locale number `grouped,frac` reads as the decimal with the grouping dots dropped and the comma as the point |
| `Numbers.ToFloatGrouped` | app/ai_utils.py:36-39 | digits with grouping dots and no comma read as the integer the digits spell |
| `Numbers.ToFloatTwoCommas` | app/ai_utils.py:37-41 | a string with two commas becomes unparsable and gives 0 |
| `Numbers.ParseFloatTwoDots` | app/ai_utils.py:38-41 | `float()` rejects a string with two decimal points |
| `Numbers.ParseFloatDecimal` | app/ai_utils.py:39 | `d.f` parses as the decimal it spells |
| `Numbers.ParseFloatInteger` | app/ai_utils.py:39 | a run of digits parses as its integer |
| `Numbers.NormalizeLocale` | app/ai_utils.py:36-37 | the rewrite of `grouped,frac` is the digits of `grouped`, a point, then `frac` |
| `Numbers.NormalizeTwoCommas` | app/ai_utils.py:37 | two commas survive the rewrite as two points |
| `Numbers.RoundHalfEven` | app/ai_utils.py:52 | Python's `round`: the nearest integer, halves to the even one |
| `Numbers.InferQty` | app/ai_utils.py:44-56 | no quantity for a price ≤ 0; any quantity returned is in [1, 10000] and within 0.05 of total/price |
| `Numbers.InferQtyAccepts` | app/ai_utils.py:51-55 | conversely, every integer in [1, 10000] within 0.05 of total/price is the one returned |
| `Samples.InferQtySamples` | app/ai_utils.py:44-56 | 200/100 gives 2, 651/93 gives 7, 601/150 gives 4, price 0 and 15000/1 give nothing |
| `Samples.ToFloatGroupedTotal` | app/tests/test_documents.py:23 | "1.308,8" reads as 1308.8 |
| `Samples.ToFloatDocumented` | app/ai_utils.py:27-32 | the documented conversions hold: "1.308,80" reads as 1308.80, "600,00" as 600 and "1451" as 1451 |
| `Samples.ToFloatDecimalComma` | app/tests/test_documents.py:21 | the sample row's total "200,00" reads as 200 |
| `Samples.ToFloatInteger` | app/tests/test_documents.py:21 | the sample row's price "100" reads as 100 |
| `Classifier.ScoreOfCountsHits` | app/ai_utils.py:127 | over a list without repeats, the score is the number of distinct keywords found |
| `Classifier.ClassifyByDistinctKeywords` | app/ai_utils.py:107-128 | invoice exactly when at least two distinct keywords occur in the lower-cased text |
| `Classifier.NumeroDeFacturaIsInvoice` | app/ai_utils.py:113-128 | "numero de factura" alone scores two, so the text is an invoice |
| `Classifier.OneKeywordIsInformation` | app/ai_utils.py:127-128 | a text with at most one keyword is an information document |
| `Patterns.MatchProduct` | app/ai_utils.py:150-162 | whatever the matcher returns is a way pattern 1 matches the whole line |
| `Patterns.ProductPriority` | app/ai_utils.py:150-162 | if pattern 1 matches at all, the matcher succeeds with the same code, price, total and quantity end and the longest description |
| `Patterns.ProductFixed` | app/ai_utils.py:152-159 | in every match of pattern 1, the code, the tail numbers and the start of the description are at fixed places |
| `Patterns.MatchGeneric` | app/ai_utils.py:136-147 | whatever the matcher returns is a way pattern 2 matches the whole line |
| `Patterns.GenericPriority` | app/ai_utils.py:136-147 | if pattern 2 matches at all, the matcher succeeds with the same code, quantity, price and total, and the description the greedy `\s+` and lazy `+?` prefer |
| `Patterns.MatchNoQty` | app/ai_utils.py:165-176 | whatever the matcher returns is a way pattern 3 matches the whole line |
| `Patterns.NoQtyUnique` | app/ai_utils.py:165-176 | pattern 3 matches a line in at most one way, and the matcher returns it |
| `Patterns.TailIsFixed` | app/ai_utils.py:142-144 | in any match, the total is the last token and the price the one before it |
| `Items.ItemFromLine` | app/ai_utils.py:189-253 | an item has no negative quantity, price or total; a pattern-3 quantity is in [1, 10000] |
| `Items.ItemNeedsMatch` | app/ai_utils.py:189-253 | a line yields an item only when it is not blank and one of the three patterns matches it |
| `Items.ProductFirst` | app/ai_utils.py:194-211 | a line pattern 1 matches yields pattern 1's item, even when pattern 2 matches too |
| `Items.GenericSecond` | app/ai_utils.py:213-230 | when pattern 1 fails and pattern 2 matches, the line yields pattern 2's item |
| `Items.NoQtyThird` | app/ai_utils.py:232-253 | when only pattern 3 matches, the line yields an item exactly when a quantity is inferred, and that quantity is the item's |
| `Items.BlankLineYieldsNothing` | app/ai_utils.py:190-192 | a blank line yields nothing |
| `Items.ItemsOf` | app/ai_utils.py:187-255 | at most one item per line |
| `Items.ItemsOfAppend` | app/ai_utils.py:189-255 | items come in line order: consecutive stretches of lines give consecutive items |
| `Items.ItemsOfMembers` | app/ai_utils.py:189-255 | an item is listed exactly when some line yields it |
| `Items.ParseItemsSources` | app/ai_utils.py:179-255 | every parsed item comes from a line of the text, and every line's item is parsed |
| `Items.ParseLine` | app/ai_utils.py:190-253 | the loop body for one line computes that line's item |
| `Items.ParseInvoiceItems` | app/ai_utils.py:179-255 | the item loop computes the items of all lines, in order |
| `Samples.SampleRowMatch` | app/tests/test_documents.py:21 | pattern 1 matches "Producto 1 2 100 200,00" with the expected groups |
| `Samples.SampleRowItem` | app/tests/test_documents.py:21 | the indented sample row is read by strategy 1 as Producto "1", quantity 2, price 100, total 200 |
| `Labels.Window` | app/ai_utils.py:274-277 | a label's window holds at most `max_chars` characters |
| `Labels.FirstValue` | app/ai_utils.py:278-281 | the value has none of the trimmed characters at either end |
| `Labels.FirstValueIsFirst` | app/ai_utils.py:278-282 | the value is the first line that is not blank once trimmed; empty exactly when all are blank |
| `Labels.AfterAnyLabelIsFirst` | app/ai_utils.py:267-282 | labels are tried in order; the result is the first label's non-empty value, empty exactly when no label gives one |
| `Labels.AfterLabelInside` | app/ai_utils.py:272-281 | a value read after a label occurs in the original text after the label's first occurrence in the lower-cased text, within `max_chars` characters of the label's end |
| `Labels.AbsentLabelYieldsNothing` | app/ai_utils.py:274-276 | a label absent from the lower-cased text yields nothing |
| `Labels.AfterLabelShape` | app/ai_utils.py:277-281 | a value lies on one line, fits the window and is trimmed at both ends |
| `Labels.FindAfterAny` | app/ai_utils.py:267-282 | the nested loops with early return compute the first label's value |
| `Parties.SearchSplit` | app/ai_utils.py:298-303 | whatever the search returns is a way the split pattern matches the line |
| `Parties.SplitPriority` | app/ai_utils.py:298-303 | if the split pattern matches at all, the search succeeds at the leftmost start, with the longest run and then the longest client |
| `Parties.VendorUnique` | app/ai_utils.py:300 | the vendor part after a given point is unique |
| `Parties.FirstSplitIsFirst` | app/ai_utils.py:296-307 | the split comes from the first line that mentions "empresa de" and matches; nothing exactly when no line does |
| `Parties.ClientSources` | app/ai_utils.py:285-307 | the client is the first non-empty of: the client labels' value, the "razón social" labels' value, and, when the text mentions "empresa de", the client of the first line that splits; it is empty exactly when all three give nothing |
| `Parties.VendorSources` | app/ai_utils.py:290-307 | the same for the vendor, with the vendor labels first |
| `Parties.SplitNonEmpty` | app/ai_utils.py:298-306 | both parts of a split are non-empty after stripping |
| `Parties.LabelledClientKept` | app/ai_utils.py:285-305 | a client found by a label is never overwritten by the split |
| `Parties.LabelledVendorKept` | app/ai_utils.py:290-306 | a vendor found by a label is never overwritten by the split |
| `Parties.SplitClient` | app/ai_utils.py:295-305 | a client no label gives comes from the first matching "empresa de" line, and only when the text mentions "empresa de" |
| `Parties.SplitVendor` | app/ai_utils.py:295-306 | the same for the vendor |
| `Parties.FindSplit` | app/ai_utils.py:296-307 | the loop that breaks at the first match computes the first split |
| `Parties.FindParties` | app/ai_utils.py:285-307 | the client and vendor steps compute the reported pair |
| `InvoiceNumber.NumberTailPriority` | app/ai_utils.py:313 | if the tail after a label can match, it succeeds, and its group starts no earlier than any other way's |
| `InvoiceNumber.Search1Priority` | app/ai_utils.py:311-316 | if the first number pattern can match, the search succeeds at the leftmost start and reads the group the engine does |
| `InvoiceNumber.Label2Ends` | app/ai_utils.py:322 | at most two label ends are tried from a start; when there are two, the one with the ordinal taken comes first |
| `InvoiceNumber.Label2EndsExact` | app/ai_utils.py:322 | the label ends tried from `s` are exactly the ends of `n[°ºo]\s*factura`, `nro\.?\s*factura` and `factura\s*n[°ºo]?` written out one spelling at a time (`Label2Shape`) |
| `InvoiceNumber.Search2Priority` | app/ai_utils.py:321-328 | if the second number pattern can match, the search succeeds at the leftmost start; from that start the group is the tail after the longest label whose tail matches (an ordinal is taken when it can be), and after the given label it starts no earlier than any other way's |
| `InvoiceNumber.Search2Sound` | app/ai_utils.py:321-328 | a group the second search reports is the tail after a label of the second pattern at the start it picks |
| `InvoiceNumber.FirstTailSound` | app/ai_utils.py:322-323 | the second pattern's group follows the first of its label spellings after which a number matches |
| `InvoiceNumber.NumberChain` | app/ai_utils.py:309-334 | the first pattern wins; the second is used only when it fails; the labels only when both fail |
| `InvoiceNumber.NumberShape` | app/ai_utils.py:309-334 | the number lies on one line and is either a run of number characters or a label value of at most 40 characters |
| `Dates.DatePartSound` | app/ai_utils.py:340 | what the date scanner finds is a whole `d/m/y` date |
| `Dates.DatePriority` | app/ai_utils.py:340 | if a date starts at a place, the scanner finds one there with the longest year |
| `Dates.Search1Priority` | app/ai_utils.py:338-343 | if the labelled date pattern can match, the search succeeds at the leftmost start, after all the non-digits, with the longest year |
| `Dates.Search1Sound` | app/ai_utils.py:338-343 | a reported labelled date follows "fecha", whitespace, "emisión", "factura" or "comprobante" and at most 15 non-digits at the chosen start, and is a whole date |
| `Dates.Search2Priority` | app/ai_utils.py:347 | a date with no word character on either side is found no later, and exactly |
| `Dates.Search2Sound` | app/ai_utils.py:347 | a reported bare date starts at the chosen start, has `\b` on both sides and is a whole date |
| `Dates.DateChain` | app/ai_utils.py:337-349 | a labelled date wins; a bare date only when there is none; otherwise empty |
| `Dates.DateIsDate` | app/ai_utils.py:337-349 | the reported date is empty or a whole date |
| `Totals.TokensFrom` | app/ai_utils.py:356 | each number `findall` yields starts with a digit and runs as far as digits, dots and commas go |
| `Totals.TokensExact` | app/ai_utils.py:356 | the numbers `findall` yields are in order and apart; the first starts at the first digit, each next one at the first digit after the one before, and every digit lies in one of them |
| `Totals.TokenStartsRun` | app/ai_utils.py:356 | no number can be stretched to the left: the number characters right before it hold no digit |
| `Totals.TokensCoverDigits` | app/ai_utils.py:356-358 | `findall` finds nothing exactly when there is no digit; its last number reaches past every digit |
| `Totals.LinesTotalIsLast` | app/ai_utils.py:353-358 | the last line that mentions a total and holds a number gives the total |
| `Totals.TotalLinePriority` | app/ai_utils.py:353-363 | such a line takes precedence over the whole-text fallback |
| `Totals.TotalShape` | app/ai_utils.py:352-363 | the total is empty exactly when the text has no digit, and otherwise a number |
| `Totals.LineTotalOf` | app/ai_utils.py:354-358 | the loop body for one line computes that line's number |
| `Totals.TotalOf` | app/ai_utils.py:352-363 | the overwriting loop and the fallback compute the total |
| `Invoice.ExtractInvoiceData` | app/ai_utils.py:261-375 | the step-by-step assignments compute the fields of the invoice |
| `Invoice.InvoiceFieldsShape` | app/ai_utils.py:261-375 | number, date, total and items each have the shape their heuristic promises |
| `InvoiceSamples.NumberLineReadsNumber` | app/tests/test_documents.py:19 | the sample number line gives the number "2024-0001" |
| `InvoiceSamples.DateLineReadsDate` | app/tests/test_documents.py:18 | the sample date line gives "17/04/2024", through the bare-date pattern |
| `InvoiceSamples.PartyLineSplit` | app/tests/test_documents.py:20 | the sample line splits into "Orlando Juan Loban" and "Empresa de logistica, S. L." |
| `InvoiceSamples.TotalLineTotal` | app/tests/test_documents.py:23 | the sample total line gives "1.308,8" |
| `SuiteSamples.InfoTextIsInformation` | app/tests/test_documents.py:44-55 | "Este es un texto cualquiera, sin palabras de factura." is an information document: its only keyword is "factura" |
| `SuiteSamples.TestInvoiceLines` | app/tests/test_documents.py:16-24 | `splitlines` gives the nine lines of the test's invoice, the empty first and the blank last included |
| `SuiteSamples.TestInvoiceIsInvoice` | app/tests/test_documents.py:34 | the test's invoice holds "numero de factura" and is classified as an invoice |
| `SuiteSamples.TestInvoiceParties` | app/tests/test_documents.py:36-37 | no label names a party, so the client is "Orlando Juan Loban" and the vendor "Empresa de logistica, S. L.", from the first line that mentions "empresa de" |
| `SuiteSamples.TestInvoiceNumber` | app/tests/test_documents.py:38 | the first number pattern reads "2024-0001" in the whole text |
| `SuiteSamples.NumberIn` | app/ai_utils.py:310-318 | any text holding the number line after no "n" and before a line break reads "2024-0001" there |
| `SuiteSamples.TestInvoiceTotal` | app/tests/test_documents.py:39 | the last line that yields a number is the total line, so the total is "1.308,8" |
| `SuiteSamples.TestInvoiceItem` | app/tests/test_documents.py:40 | the row "Producto 1 2 100 200,00" is among the items |
| `SuiteSamples.TestInvoiceAnalysis` | app/tests/test_documents.py:13-40 | the analysis of the test's invoice is an invoice with that client, vendor, number, total and item |
| `Info.WordScoreZero` | app/ai_utils.py:386-387 | a list of words scores zero exactly when none occurs |
| `Info.SentimentByPresence` | app/ai_utils.py:381-393 | only positive words: positive; only negative words: negative; neither: neutral |
| `Info.SentencesAreStripped` | app/ai_utils.py:397 | every kept sentence is non-empty, has no dot and is stripped |
| `Info.SentencesKept` | app/ai_utils.py:397 | a sentence is kept exactly when it is the non-empty strip of some piece |
| `Info.JoinDots` | app/ai_utils.py:398 | joining dot-free pieces with ". " puts one dot between consecutive pieces |
| `Info.SummaryShape` | app/ai_utils.py:396-398 | the summary keeps at most `max_sentences` sentences, has one dot fewer than it keeps, and is empty exactly when none are kept |
| `Info.DescriptionShape` | app/ai_utils.py:416 | the description is the text's first 200 characters, with line feeds turned into spaces |
| `Info.AnalyzeDocument` | app/ai_utils.py:404-427 | the step-by-step entry point computes the analysis |
| `Info.AnalysisShape` | app/ai_utils.py:404-427 | kind equals the classification, the length is the text's; an invoice carries its fields; an information document a description of ≤ 200 characters holding no line feed (`\r` and other breaks are kept), a summary of ≤ 3 sentences and its sentiment |

## Left out

- `extract_text_from_document`, `_extract_with_tesseract_image` and the `TESSERACT_CMD` setup (app/ai_utils.py:16-18, 62-101) are calls into pypdf, PIL and Tesseract. The model starts from the extracted text.
- The other files of the repository (routers, security, storage, validators, models, schemas, configuration) are not part of this model. They hold no decisions of the analysis engine.
- `text or ""`: a `string` is never `None`, so the empty string stands for a missing text.
- Numbers.ToFloat: parsing accepts only unsigned decimal forms (`ddd`, `ddd.`, `.ddd`, `ddd.ddd`), because every string the item patterns pass to it has this form. Python's `float()` also accepts signs, exponents, `inf`, `nan` and underscores; on such input the model gives 0.
- Numbers.InferQty: numbers are exact reals, not binary floating point, so `total / price` and the tolerance test are exact. A ratio within a rounding error of the 0.05 boundary may be decided differently.
- Numbers.ToFloat, Numbers.InferQty, Items.ParseLine: Python's `float()` (app/ai_utils.py:39) overflows to `inf` on a digit string of about 309 or more digits, while the model keeps the exact real. From there `int(round(qty))` (app/ai_utils.py:52, reached from :240) raises `OverflowError` when the ratio is infinite and `ValueError` when it is `nan` (`inf / inf`). `int(m.group("cantidad"))` (app/ai_utils.py:199 and :218) raises `ValueError` on Python 3.11 and later for a quantity of more than 4300 digits. The model returns a value in all these cases where the source raises an exception that ends the analysis.
- Character classes (`\d`, `\w`, `\s`, `str.isspace`, `str.lower`) are exact on U+0000..U+00FF and for all whitespace and line breaks. Letters, digits and case mappings above U+00FF are not modelled. Nor are the extra case-insensitive matches of `re.IGNORECASE` (`ſ`, `K` sign, `ı`, `İ`), or a `lower()` that changes the length of the text.
- Info.Summarize: the sentence count is a `nat`. The source only calls `summarize` with 3, so Python's negative slice bound is not modelled.
- Labels.FindAfterAny: the branch for a single label passed as a string is not modelled. Every call in the source passes a list.
- The dictionaries the source returns are datatypes (`InvoiceData`, `Analysis`). `analyze_document`'s `**invoice_data` merge is the `data` field.
- The number pattern `(?:n[uú]mero\s+de\s+factura|numero\s+de\s+factura)` keeps only its first alternative. The second matches a subset of the first's strings, so no match is lost.
