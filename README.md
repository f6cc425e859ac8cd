# PI-Creator core in Dafny

PI-Creator is a single Streamlit script (`Search.py`) for building a proforma
invoice (PI). The user uploads a price list with columns EAN, DESCRIPTION and
RATE and searches it by keyword. Chosen rows are collected into an order list
(the "cart"), and the cart is written into an uploaded spreadsheet template at
fixed cell coordinates. This project models the logic inside that script:

- `Catalog` (`catalog.dfy`): a price-list row, and the required-column check
  that discards a file whose header lacks EAN, DESCRIPTION or RATE.
- `Search` (`search.dfy`): the keyword search. The fuzzy branch's matched
  description texts are mapped back to the first row with that exact text. The
  EAN branch selects every row whose EAN contains the keyword, ignoring case.
  The two position lists are concatenated and deduplicated, first occurrence
  kept (`dict.fromkeys`).
- `Cart` (`cart.dfy`): the cart as a list of line items keyed by EAN. There are
  pure definitions of add and remove with lemmas about them, and the class
  `SessionCart` whose `Add` runs the source's scan-merge-or-append loop and
  whose `Remove` applies the EAN filter and reports whether anything was dropped.
- `Export` (`export.dfy`): the date and PI-number texts, numeric coercion,
  totals and the worksheet layout. A worksheet is a map from cell address to
  value. The method `Export` writes it cell by cell, as the source's loop does.
- `Money` (`money.dfy`) and `Text` (`text.dfy`) hold the helpers: amounts in
  hundredths, `str.strip` whitespace, case folding, and zero-padded digits.

Quantities, rates and amounts are integers counting hundredths. An AMOUNT is
QTY × RATE rounded to the nearest hundredth, with halves rounded up. A blank
RATE cell in the price list is read as NaN (`Money.Cell`'s `NotNumeric`).
Adding such a row stores a NaN RATE and a NaN AMOUNT. The export coerces both
to 0.

Every `SessionCart` is created empty by its constructor, and only `Add` and
`Remove` change it. So its invariant `Valid()` holds for every cart: at most
one entry per EAN, positive quantities, and each AMOUNT matching its own QTY
and RATE. The methods therefore require it and keep it.

Once the cart has 18 or more lines, the line block reaches row 31, where the
totals are written afterwards, and C31 and E31 of the 18th line are lost. From
21 lines on, E34 of the 21st line is lost as well. `Export.TotalsOverwriteLines`
states exactly which line cells are overwritten, and `Export.LinePlacement`
that all others hold their values. `Export.LinesFitAboveTotals` states that up
to 17 lines are written intact.

## Model

| member | source | states |
|---|---|---|
| `Money.Amount` | Search.py:29 | AMOUNT is QTY × RATE rounded to the nearest hundredth: within half a hundredth of the exact product |
| `Money.Price` | Search.py:29-38 | the stored AMOUNT is NaN exactly when the RATE is NaN, and coerced to 0 it equals the AMOUNT recomputed from the coerced RATE |
| `Money.Coerce` | Search.py:200-201 | numeric coercion keeps a number as it is and turns NaN into 0 |
| `Money.AmountOfZero` | Search.py:200-202 | a zero quantity or a zero rate gives AMOUNT 0 |
| `Text.Strip` | Search.py:197 | the stripped text is empty exactly when the input is all whitespace, and otherwise neither starts nor ends with whitespace |
| `Text.StripCutsSpace` | Search.py:197 | the stripped text is a slice of the input with only whitespace before and after it |
| `Text.StripKeepsTrimmed` | Search.py:197 | text with no surrounding whitespace is left unchanged by stripping |
| `Text.TrimLeftDropsSpace` | Search.py:197 | everything stripping removes at the front is whitespace |
| `Text.TrimRightDropsSpace` | Search.py:197 | everything stripping removes at the back is whitespace |
| `Text.PadDigitsRoundTrip` | Search.py:192 | a number written zero-padded to a width it fits in reads back as the same number |
| `Text.ContainsIgnoringCaseIffRun` | Search.py:78 | an EAN matches a keyword exactly when some run of the EAN equals the keyword up to letter case |
| `Catalog.MissingFrom` | Search.py:58 | the missing list holds exactly the required names absent from the header, and is empty iff all are present |
| `Catalog.MissingColumns` | Search.py:56-61 | a header is accepted (nothing missing) iff it contains EAN, DESCRIPTION and RATE; each missing name is reported |
| `Catalog.MissingOfAppend` | Search.py:58 | the missing names of two lists of required names are the first list's missing names, then the second's, each in required order |
| `Catalog.MissingKeepsRequiredOrder` | Search.py:58 | when none of the required names is present, all are reported, in the required order |
| `Search.FirstWithDescription` | Search.py:75 | the position returned carries the matched text, and no earlier row does |
| `Search.FuzzyIndices` | Search.py:71-75 | one position per matched text, in matcher order; each is the first row whose description equals that text |
| `Search.EqualTextsSameRow` | Search.py:75 | equal matched texts map to the same row, so rows with duplicate descriptions collapse to one |
| `Search.EanIndicesFrom` | Search.py:78-79 | ascending positions; a position is listed iff its row's EAN contains the keyword ignoring case |
| `Search.DedupMembers` | Search.py:82 | deduplication holds exactly the values of the input |
| `Search.DedupHasNoDuplicates` | Search.py:82 | the deduplicated list has no value twice |
| `Search.ExceptMembers` | Search.py:82 | removing the values of a list keeps exactly the elements not in that list |
| `Search.ExceptKeepsIncreasing` | Search.py:79-82 | dropping elements from an ascending list leaves it ascending |
| `Search.DedupOfDistinct` | Search.py:82 | a list without duplicates is unchanged by deduplication |
| `Search.DedupSnocPresent` | Search.py:82 | a value already present is not added again by deduplication |
| `Search.DedupSnocNew` | Search.py:82 | a new value is kept at the end by deduplication |
| `Search.ExceptSnoc` | Search.py:82 | a value at the end survives removal exactly when it is not among the removed values |
| `Search.DedupOfAppend` | Search.py:82 | deduplicating a concatenation whose second part has no repeats gives the deduplicated first part, then the second part less what the first holds |
| `Search.SearchIndices` | Search.py:69-82 | an empty keyword selects nothing; otherwise a position is selected iff the fuzzy or the EAN branch yields it; no position appears twice; all are valid rows |
| `Search.SearchOrder` | Search.py:75-82 | fuzzy positions come first in matcher order with repeats dropped, then the EAN-matched positions not already present, ascending |
| `Cart.IndexOfEan` | Search.py:25-27 | finds the first entry with the EAN, or reports that none has it |
| `Cart.AddToCart` | Search.py:14-39 | qty ≤ 0 leaves the cart as it was; an existing EAN changes only that entry (QTY + qty, AMOUNT from its own RATE, description/rate/length/positions kept); a new EAN appends exactly one entry after unchanged earlier ones |
| `Cart.AddKeepsWellFormed` | Search.py:24-39 | adding keeps at most one entry per EAN, positive quantities and consistent amounts |
| `Cart.AddTwiceIsAddSum` | Search.py:24-39 | adding q1 then q2 of the same EAN equals one add of q1 + q2, with description and rate from the first add |
| `Cart.AddExample` | Search.py:14-39 | 3 then 2 units of a 10.00 item give one line of 5 units with AMOUNT 50.00 |
| `Cart.RemoveMembers` | Search.py:137 | the filtered cart holds exactly the entries whose EAN differs from the target |
| `Cart.RemoveReport` | Search.py:136-142 | the cart gets shorter ("deleted") iff some entry had the EAN; it is unchanged ("not found") iff none had |
| `Cart.RemoveOfAppend` | Search.py:137 | removal distributes over concatenation, so surviving entries keep their order |
| `Cart.RemoveEan` | Search.py:137 | the filtered cart is never longer than the cart (which entries survive is `Cart.RemoveMembers`) |
| `Cart.RemoveFromWellFormed` | Search.py:137 | in a cart with one entry per EAN, removal deletes just that entry and keeps all others in place |
| `Cart.RemoveKeepsWellFormed` | Search.py:137 | removal keeps the cart well-formed |
| `Cart.SessionCart.constructor` | Search.py:11-12 | a session starts with an empty cart |
| `Cart.SessionCart.Add` | Search.py:14-40 | the scan-and-merge loop leaves the cart equal to `AddToCart` of the old cart, reports acceptance iff qty > 0, and keeps the invariant |
| `Cart.SessionCart.Remove` | Search.py:133-142 | the cart becomes `RemoveEan` of the old cart; "deleted" iff it got shorter, "not found" iff it is unchanged |
| `Export.Yymmdd` | Search.py:192 | the `%y%m%d` text is six digits |
| `Export.YymmddFields` | Search.py:192 | the `%y%m%d` text is two digits each of year (mod 100), month and day, which read back as those values |
| `Export.IsoDate` | Search.py:216 | the `%Y-%m-%d` text is ten characters with dashes at positions 4 and 7 |
| `Export.IsoDateFields` | Search.py:216 | the year, month and day fields of the `%Y-%m-%d` text are digits and read back as the date's own |
| `Export.DefaultPiNumber` | Search.py:191-194 | the default PI number is 15 characters long |
| `Export.DefaultPiNumberFields` | Search.py:191-194 | the default PI number is `PIM`, then the `%y%m%d` text (two digits each of year, month and day, reading back as the date's), then `KSA001` |
| `Export.DefaultPiNumberEnds` | Search.py:191-194 | the default PI number neither starts nor ends with whitespace, so it survives stripping intact |
| `Export.PiNumber` | Search.py:196-197 | input that is all whitespace (strips to empty) gives the default PI number, otherwise the stripped input |
| `Export.PiNumberTrimmed` | Search.py:191-197 | the PI number is never empty and neither starts nor ends with whitespace |
| `Export.NonNumericLineAmount` | Search.py:200-202 | a non-numeric QTY or RATE coerces to 0, so the line's AMOUNT is 0 |
| `Export.LineAmount` | Search.py:202 | the recomputed AMOUNT is the coerced QTY times the coerced RATE, rounded to the nearest hundredth |
| `Export.TotalsOfAppend` | Search.py:204-206 | the QTY and AMOUNT totals are column sums: the totals of a table split in two add up |
| `Export.ExportQtyTotalMatchesCart` | Search.py:199-204 | for every cart, the exported QTY total equals the sum of the cart's own QTY column |
| `Export.ExportTotalsMatchCart` | Search.py:199-205 | for a cart whose amounts are consistent, the exported QTY and AMOUNT totals equal the sums of the cart's own columns, a NaN AMOUNT counted as 0 |
| `Export.WriteLinesCells` | Search.py:221-228 | after the line loop, line i's values sit in row 14 + i, columns A..E, and every other cell is as before |
| `Export.HeaderAndTotals` | Search.py:216-233 | E3 holds the date after a space, E4 the PI number, C31 the QTY total, E31 the AMOUNT total, and E34 equals E31 |
| `Export.LinePlacement` | Search.py:221-233 | line i's cell in columns A..E of row 14 + i holds its value, except cells later taken by a total (C31, E31, E34) |
| `Export.LinesFitAboveTotals` | Search.py:221-233 | with at most 17 lines every line cell holds its value |
| `Export.TotalsOverwriteLines` | Search.py:221-233 | a total overwrites a line cell exactly for QTY and AMOUNT of the 18th line (row 31) and AMOUNT of the 21st line (row 34) |
| `Export.OtherCellsUntouched` | Search.py:211-233 | every cell outside the header, the line block and the totals keeps the template's content |
| `Export.Export` | Search.py:216-233 | writing header, lines one by one and totals yields exactly the filled sheet `Filled` |
| `Export.ExportCart` | Search.py:174-233 | no export without a template or with an empty cart; otherwise E3 holds the date, E4 the resolved PI number, C31 the cart's QTY sum, and for a consistent cart E31 and E34 its AMOUNT sum |
| `Export.ExportCartLines` | Search.py:199-228 | with at most 17 entries, row 14 + i holds entry i's EAN, DESCRIPTION, QTY, RATE and AMOUNT, a NaN RATE or AMOUNT written as 0 |

## Left out

- Streamlit widgets, page layout, messages, `st.stop`, the data_editor checkbox selection and the download button: user interface. The success and warning messages are modelled as the boolean each cart method returns.
- Reading the price list with `pd.read_csv` / `pd.read_excel`, and the error path for a malformed file: library I/O. Only the header check is modelled.
- Loading and saving the workbook with openpyxl, and choosing the "Invoice" sheet or the active one: library I/O. The chosen sheet is the `template` map.
- Export.ExportCart: writing a fixed cell can fail in openpyxl, and then no file is produced. This happens for a cell inside a merged range other than its top-left cell, whose value is read-only, and for text holding control characters that a worksheet cannot store. A worksheet here is a plain map from address to value, which cannot express merged cells or reject characters, so the model always produces a sheet. Text starting with "=" is stored by openpyxl as a formula; the model stores it as text.
- The rapidfuzz `partial_ratio` scoring and the top-50 ranking: a library call. The matched description texts are an input.
- Search.FuzzyIndices: requires that every matched text is the description of some row. The library returns texts taken from the description column, so this always holds in the source.
- Search.EanIndicesFrom: pandas `str.contains` treats the keyword as a regular expression by default. The model tests for a literal substring. The two agree for keywords without regular-expression metacharacters, such as digit strings. A keyword that is not a valid pattern, such as `(` or `[`, makes `str.contains` raise at Search.py:78, so the source's search fails; the model returns the literal substring matches instead.
- Search.EanIndicesFrom: case is folded for ASCII letters only. Python's IGNORECASE also folds other alphabets.
- Row positions stand for pandas index labels. These are the same for a freshly read file, which gets a default 0..n-1 index.
- Money.Amount: binary floating point and Python's round-half-to-even on floats are not modelled. Values are exact hundredths, rounded half up. Quantities are likewise summed exactly.
- `float(row["RATE"])` raising on a RATE that is text and not a number, when adding: a catalog row's RATE is a number or NaN here. A blank RATE cell, read as NaN, is modelled.
- QTY and RATE pass through `float()` before they enter the cart (Search.py:18-19), so `pd.to_numeric` at export only ever meets numbers and NaN. The model's lines carry exactly those two kinds of value.
- `str()` of numeric EAN columns (for example "4006381333931.0" from a float column): EANs are given as text.
- `date.today()` and `strftime`: the date is a parameter with a four-digit year (1000 to 9999).
- Text.Strip: whitespace is the set of characters Python's `str.isspace` accepts.
- Cart entries are dicts mutated in place. The model replaces the entry's value in the sequence. No other reference to an entry exists in the source, so no aliasing is lost.
