/**
 * The export step: the cart is coerced to numbers, totalled, and written
 * into the template's worksheet at fixed coordinates. A worksheet is a map
 * from cell address to the value the cell holds; writing a cell is a map
 * update, so later writes win.
 */
module Export {
  import opened Wrappers
  import opened Text
  import opened Money
  import opened Cart

  /** A calendar date (the day the export runs). */
  datatype Date = Date(year: int, month: int, day: int)

  predicate ValidDate(d: Date)
  {
    1000 <= d.year <= 9999 && 1 <= d.month <= 12 && 1 <= d.day <= 31
  }

  /** The date as `%y%m%d`: two digits each of year, month and day. */
  function Yymmdd(d: Date): (s: string)
    requires ValidDate(d)
    ensures |s| == 6 && AllDigits(s)
  {
    PadDigits(d.year % 100, 2) + PadDigits(d.month, 2) + PadDigits(d.day, 2)
  }

  /** The `%y%m%d` text is two digits each of year (mod 100), month and day, reading back as those values. */
  lemma YymmddFields(d: Date)
    requires ValidDate(d)
    ensures var s := Yymmdd(d);
      && AllDigits(s[..2]) && AllDigits(s[2..4]) && AllDigits(s[4..])
      && DecimalValue(s[..2]) == d.year % 100
      && DecimalValue(s[2..4]) == d.month
      && DecimalValue(s[4..]) == d.day
  {
    var s := Yymmdd(d);
    assert s[..2] == PadDigits(d.year % 100, 2);
    assert s[2..4] == PadDigits(d.month, 2);
    assert s[4..] == PadDigits(d.day, 2);
    assert Pow10(2) == 100;
    PadDigitsRoundTrip(d.year % 100, 2);
    PadDigitsRoundTrip(d.month, 2);
    PadDigitsRoundTrip(d.day, 2);
  }

  /** The date as `%Y-%m-%d`. */
  function IsoDate(d: Date): (s: string)
    requires ValidDate(d)
    ensures |s| == 10 && s[4] == '-' && s[7] == '-'
  {
    PadDigits(d.year, 4) + "-" + PadDigits(d.month, 2) + "-" + PadDigits(d.day, 2)
  }

  /** The fields of the `%Y-%m-%d` text are digits, and reading them back gives the date. */
  lemma IsoDateFields(d: Date)
    requires ValidDate(d)
    ensures var s := IsoDate(d);
      && AllDigits(s[..4]) && AllDigits(s[5..7]) && AllDigits(s[8..])
      && DecimalValue(s[..4]) == d.year && DecimalValue(s[5..7]) == d.month && DecimalValue(s[8..]) == d.day
  {
    var s := IsoDate(d);
    assert s[..4] == PadDigits(d.year, 4);
    assert s[5..7] == PadDigits(d.month, 2);
    assert s[8..] == PadDigits(d.day, 2);
    assert Pow10(4) == 10000 && Pow10(2) == 100;
    PadDigitsRoundTrip(d.year, 4);
    PadDigitsRoundTrip(d.month, 2);
    PadDigitsRoundTrip(d.day, 2);
  }

  const PiPrefix: string := "PIM"
  const RegionSuffix: string := "KSA001"

  /** The suggested PI number for a date: prefix, `%y%m%d`, region suffix. */
  function DefaultPiNumber(d: Date): (s: string)
    requires ValidDate(d)
    ensures |s| == 15
  {
    PiPrefix + Yymmdd(d) + RegionSuffix
  }

  /**
   * The default PI number carries the prefix, the `%y%m%d` text and the
   * suffix, in that order: two digits each of year, month and day, which
   * read back as the date's.
   */
  lemma DefaultPiNumberFields(d: Date)
    requires ValidDate(d)
    ensures var s := DefaultPiNumber(d);
      && s[..3] == "PIM" && s[3..9] == Yymmdd(d) && s[9..] == "KSA001"
      && AllDigits(s[3..5]) && AllDigits(s[5..7]) && AllDigits(s[7..9])
      && DecimalValue(s[3..5]) == d.year % 100
      && DecimalValue(s[5..7]) == d.month
      && DecimalValue(s[7..9]) == d.day
  {
    var s := DefaultPiNumber(d);
    var y := Yymmdd(d);
    assert s[3..9] == y;
    assert s[3..5] == y[..2] && s[5..7] == y[2..4] && s[7..9] == y[4..];
    YymmddFields(d);
  }

  /**
   * The PI number used for the export: what the user typed, stripped of
   * surrounding whitespace, or the default when nothing but whitespace was
   * typed.
   */
  function PiNumber(input: string, d: Date): (r: string)
    requires ValidDate(d)
    ensures AllSpace(input) ==> r == DefaultPiNumber(d)
    ensures !AllSpace(input) ==> r == Strip(input)
  {
    var typed := Strip(input);
    if typed == [] then DefaultPiNumber(d) else typed
  }

  /** Whatever was typed, the PI number is never empty and has no surrounding whitespace. */
  lemma PiNumberTrimmed(input: string, d: Date)
    requires ValidDate(d)
    ensures var r := PiNumber(input, d); r != [] && !IsSpace(r[0]) && !IsSpace(r[|r| - 1])
  {
    if AllSpace(input) {
      DefaultPiNumberEnds(d);
    }
  }

  /** The default PI number starts with `P` and ends with `1`, neither of them whitespace. */
  lemma DefaultPiNumberEnds(d: Date)
    requires ValidDate(d)
    ensures var s := DefaultPiNumber(d); !IsSpace(s[0]) && !IsSpace(s[14])
  {
    var s := DefaultPiNumber(d);
    assert s[0] == 'P' && s[14] == '1';
    NotSpaceAbove32('P');
    NotSpaceAbove32('1');
  }

  /** A cart line as the export sees it, QTY and RATE before numeric coercion. */
  datatype Line = Line(ean: string, description: string, qty: Cell, rate: Cell)

  /** A cart entry as a line; a NaN RATE stays NaN until the export coerces it. */
  function LineOf(item: Item): Line
  {
    Line(item.ean, item.description, Number(item.qty), item.rate)
  }

  /** The cart as a table of lines, one per entry, same order. */
  function Lines(items: seq<Item>): (lines: seq<Line>)
    ensures |lines| == |items|
  {
    seq(|items|, i requires 0 <= i < |items| => LineOf(items[i]))
  }

  /** AMOUNT recomputed at export from the coerced QTY and RATE. */
  function LineAmount(l: Line): (a: int)
    ensures Scale * a - Scale / 2 <= Coerce(l.qty) * Coerce(l.rate) < Scale * a + Scale / 2
  {
    Amount(Coerce(l.qty), Coerce(l.rate))
  }

  /** A QTY or RATE that is not a number counts as 0, so its AMOUNT is 0. */
  lemma NonNumericLineAmount(l: Line)
    requires l.qty.NotNumeric? || l.rate.NotNumeric?
    ensures LineAmount(l) == 0
  {
    AmountOfZero(Coerce(l.qty), Coerce(l.rate));
  }

  /** Sum of the coerced QTY column. */
  function QtyTotal(lines: seq<Line>): int
  {
    if lines == [] then 0 else QtyTotal(lines[..|lines| - 1]) + Coerce(lines[|lines| - 1].qty)
  }

  /** Sum of the recomputed AMOUNT column: the subtotal, and also the grand total. */
  function AmountTotal(lines: seq<Line>): int
  {
    if lines == [] then 0 else AmountTotal(lines[..|lines| - 1]) + LineAmount(lines[|lines| - 1])
  }

  /** The column totals of a table split in two are the sums of the parts' totals. */
  lemma {:induction false} TotalsOfAppend(a: seq<Line>, b: seq<Line>)
    ensures QtyTotal(a + b) == QtyTotal(a) + QtyTotal(b)
    ensures AmountTotal(a + b) == AmountTotal(a) + AmountTotal(b)
  {
    if b == [] {
      assert a + b == a;
    } else {
      var init := b[..|b| - 1];
      assert (a + b)[..|a + b| - 1] == a + init;
      TotalsOfAppend(a, init);
    }
  }

  /** Sum of the AMOUNT values the cart itself stores, a NaN AMOUNT counted as 0. */
  function StoredAmountTotal(items: seq<Item>): int
  {
    if items == [] then 0 else StoredAmountTotal(items[..|items| - 1]) + Coerce(items[|items| - 1].amount)
  }

  /** Sum of the QTY values the cart itself stores. */
  function StoredQtyTotal(items: seq<Item>): int
  {
    if items == [] then 0 else StoredQtyTotal(items[..|items| - 1]) + items[|items| - 1].qty
  }

  /** The exported QTY total is the sum of the cart's own QTY column, for every cart. */
  lemma {:induction false} ExportQtyTotalMatchesCart(items: seq<Item>)
    ensures QtyTotal(Lines(items)) == StoredQtyTotal(items)
  {
    if items != [] {
      var init := items[..|items| - 1];
      assert Lines(items)[..|items| - 1] == Lines(init);
      ExportQtyTotalMatchesCart(init);
    }
  }

  /**
   * Exporting a cart whose amounts are consistent recomputes the same
   * amounts (0 for a NaN RATE, whose stored AMOUNT is NaN), so the exported
   * totals are the sums of the cart's own columns.
   */
  lemma {:induction false} ExportTotalsMatchCart(items: seq<Item>)
    requires AmountsConsistent(items)
    ensures QtyTotal(Lines(items)) == StoredQtyTotal(items)
    ensures AmountTotal(Lines(items)) == StoredAmountTotal(items)
  {
    if items != [] {
      var init := items[..|items| - 1];
      assert Lines(items)[..|items| - 1] == Lines(init);
      ExportTotalsMatchCart(init);
    }
  }

  /** A cell address: column letter and 1-based row. */
  datatype Addr = Addr(column: char, row: int)

  /** What a written cell holds: text, or a number in hundredths. */
  datatype Value = Str(text: string) | Num(hundredths: int)

  type Sheet = map<Addr, Value>

  /** The row of the first line item. */
  const StartRow: int := 14
  const DateCell: Addr := Addr('E', 3)
  const NumberCell: Addr := Addr('E', 4)
  const QtyTotalCell: Addr := Addr('C', 31)
  const SubtotalCell: Addr := Addr('E', 31)
  const GrandTotalCell: Addr := Addr('E', 34)

  /** The columns a line item occupies. */
  predicate ItemColumn(c: char)
  {
    'A' <= c <= 'E'
  }

  /** Line `i` written to row StartRow + i, columns A to E. */
  function WriteLine(ws: Sheet, i: int, l: Line): Sheet
  {
    var r := StartRow + i;
    ws[Addr('A', r) := Str(l.ean)]
      [Addr('B', r) := Str(l.description)]
      [Addr('C', r) := Num(Coerce(l.qty))]
      [Addr('D', r) := Num(Coerce(l.rate))]
      [Addr('E', r) := Num(LineAmount(l))]
  }

  /** All lines written, first to last. */
  function WriteLines(ws: Sheet, lines: seq<Line>): Sheet
  {
    if lines == [] then ws
    else WriteLine(WriteLines(ws, lines[..|lines| - 1]), |lines| - 1, lines[|lines| - 1])
  }

  /** The cell of `l` in a column. */
  function LineCell(l: Line, column: char): Value
    requires ItemColumn(column)
  {
    match column
    case 'A' => Str(l.ean)
    case 'B' => Str(l.description)
    case 'C' => Num(Coerce(l.qty))
    case 'D' => Num(Coerce(l.rate))
    case _ => Num(LineAmount(l))
  }

  /**
   * After writing the lines, the cells of line `i` hold that line's values,
   * and every cell outside the block of rows written keeps what it had.
   */
  lemma {:induction false} WriteLinesCells(ws: Sheet, lines: seq<Line>, a: Addr)
    ensures var out := WriteLines(ws, lines);
      var i := a.row - StartRow;
      if ItemColumn(a.column) && 0 <= i < |lines| then a in out && out[a] == LineCell(lines[i], a.column)
      else (a in out <==> a in ws) && (a in ws ==> out[a] == ws[a])
  {
    if lines != [] {
      WriteLinesCells(ws, lines[..|lines| - 1], a);
    }
  }

  /**
   * The filled worksheet: header cells, then the line block, then the
   * totals, written over the template in that order.
   */
  function Filled(template: Sheet, d: Date, piNo: string, lines: seq<Line>): Sheet
    requires ValidDate(d)
  {
    var header := template[DateCell := Str(" " + IsoDate(d))][NumberCell := Str(piNo)];
    var total := AmountTotal(lines);
    WriteLines(header, lines)
      [QtyTotalCell := Num(QtyTotal(lines))]
      [SubtotalCell := Num(total)]
      [GrandTotalCell := Num(total)]
  }

  /**
   * Where the header and the totals end up: E3 holds the date after a
   * space, E4 the PI number, C31 the QTY total, E31 the AMOUNT total and
   * E34 the same as E31.
   */
  lemma HeaderAndTotals(template: Sheet, d: Date, piNo: string, lines: seq<Line>)
    requires ValidDate(d)
    ensures var ws := Filled(template, d, piNo, lines);
      && DateCell in ws && ws[DateCell] == Str(" " + IsoDate(d))
      && NumberCell in ws && ws[NumberCell] == Str(piNo)
      && ws[QtyTotalCell] == Num(QtyTotal(lines))
      && ws[SubtotalCell] == Num(AmountTotal(lines))
      && ws[GrandTotalCell] == ws[SubtotalCell]
  {
    var header := template[DateCell := Str(" " + IsoDate(d))][NumberCell := Str(piNo)];
    WriteLinesCells(header, lines, DateCell);
    WriteLinesCells(header, lines, NumberCell);
  }

  /**
   * Line `i` goes to row 14 + i, columns A to E, except where a total is
   * written afterwards: row 31 (the 18th line) loses its QTY and AMOUNT
   * cells to the totals, and row 34 (the 21st line) its AMOUNT cell.
   */
  lemma LinePlacement(template: Sheet, d: Date, piNo: string, lines: seq<Line>, i: int, column: char)
    requires ValidDate(d) && 0 <= i < |lines| && ItemColumn(column)
    requires Addr(column, StartRow + i) !in {QtyTotalCell, SubtotalCell, GrandTotalCell}
    ensures var ws := Filled(template, d, piNo, lines);
      Addr(column, StartRow + i) in ws && ws[Addr(column, StartRow + i)] == LineCell(lines[i], column)
  {
    var header := template[DateCell := Str(" " + IsoDate(d))][NumberCell := Str(piNo)];
    WriteLinesCells(header, lines, Addr(column, StartRow + i));
  }

  /** Up to 17 lines fit above the totals: every cell of every line is intact. */
  lemma LinesFitAboveTotals(template: Sheet, d: Date, piNo: string, lines: seq<Line>, i: int, column: char)
    requires ValidDate(d) && |lines| <= 17 && 0 <= i < |lines| && ItemColumn(column)
    ensures var ws := Filled(template, d, piNo, lines);
      Addr(column, StartRow + i) in ws && ws[Addr(column, StartRow + i)] == LineCell(lines[i], column)
  {
    LinePlacement(template, d, piNo, lines, i, column);
  }

  /**
   * Exactly which line cells a total overwrites: QTY and AMOUNT of line 17
   * (the 18th line, row 31) and AMOUNT of line 20 (the 21st line, row 34).
   */
  lemma TotalsOverwriteLines(i: int, column: char)
    requires 0 <= i && ItemColumn(column)
    ensures Addr(column, StartRow + i) in {QtyTotalCell, SubtotalCell, GrandTotalCell} <==>
      (i == 17 && (column == 'C' || column == 'E')) || (i == 20 && column == 'E')
  {
  }

  /** Every cell the export does not address keeps the template's content. */
  lemma OtherCellsUntouched(template: Sheet, d: Date, piNo: string, lines: seq<Line>, a: Addr)
    requires ValidDate(d)
    requires a !in {DateCell, NumberCell, QtyTotalCell, SubtotalCell, GrandTotalCell}
    requires !ItemColumn(a.column) || a.row < StartRow || a.row >= StartRow + |lines|
    ensures var ws := Filled(template, d, piNo, lines);
      (a in ws <==> a in template) && (a in template ==> ws[a] == template[a])
  {
    var header := template[DateCell := Str(" " + IsoDate(d))][NumberCell := Str(piNo)];
    WriteLinesCells(header, lines, a);
  }

  /**
   * Writes the header, then each line at row StartRow + i, then the totals,
   * one cell at a time as the export loop does.
   */
  method Export(template: Sheet, d: Date, piNo: string, lines: seq<Line>) returns (ws: Sheet)
    requires ValidDate(d)
    ensures ws == Filled(template, d, piNo, lines)
  {
    ws := template;
    ws := ws[DateCell := Str(" " + IsoDate(d))];
    ws := ws[NumberCell := Str(piNo)];
    ghost var header := ws;
    var i := 0;
    while i < |lines|
      invariant 0 <= i <= |lines|
      invariant ws == WriteLines(header, lines[..i])
    {
      var r := StartRow + i;
      var line := lines[i];
      ws := ws[Addr('A', r) := Str(line.ean)];
      ws := ws[Addr('B', r) := Str(line.description)];
      ws := ws[Addr('C', r) := Num(Coerce(line.qty))];
      ws := ws[Addr('D', r) := Num(Coerce(line.rate))];
      ws := ws[Addr('E', r) := Num(LineAmount(line))];
      assert lines[..i + 1][..i] == lines[..i];
      i := i + 1;
    }
    assert lines[..i] == lines;
    var subtotal := AmountTotal(lines);
    var grandTotal := subtotal;
    ws := ws[QtyTotalCell := Num(QtyTotal(lines))];
    ws := ws[SubtotalCell := Num(subtotal)];
    ws := ws[GrandTotalCell := Num(grandTotal)];
  }

  /** The value the export writes for a cart entry in a column A..E. */
  function ItemCell(item: Item, column: char): Value
    requires ItemColumn(column)
  {
    match column
    case 'A' => Str(item.ean)
    case 'B' => Str(item.description)
    case 'C' => Num(item.qty)
    case 'D' => Num(Coerce(item.rate))
    case _ => Num(Coerce(item.amount))
  }

  /**
   * The whole export step: nothing without a template or with an empty
   * cart. Otherwise E3 and E4 hold the date and the resolved PI number,
   * C31 the cart's QTY sum, and for a cart whose amounts are consistent E31
   * and E34 its AMOUNT sum (a NaN AMOUNT counted as 0).
   */
  function ExportCart(template: Option<Sheet>, items: seq<Item>, input: string, d: Date): (r: Option<Sheet>)
    requires ValidDate(d)
    ensures r.None? <==> template.None? || items == []
    ensures r.Some? ==>
      && DateCell in r.value && r.value[DateCell] == Str(" " + IsoDate(d))
      && NumberCell in r.value && r.value[NumberCell] == Str(PiNumber(input, d))
    ensures r.Some? ==> QtyTotalCell in r.value && r.value[QtyTotalCell] == Num(StoredQtyTotal(items))
    ensures r.Some? && AmountsConsistent(items) ==>
      && SubtotalCell in r.value && r.value[SubtotalCell] == Num(StoredAmountTotal(items))
      && GrandTotalCell in r.value && r.value[GrandTotalCell] == Num(StoredAmountTotal(items))
  {
    if template.None? || items == [] then None
    else
      var lines := Lines(items);
      HeaderAndTotals(template.value, d, PiNumber(input, d), lines);
      ExportQtyTotalMatchesCart(items);
      assert AmountsConsistent(items) ==> AmountTotal(lines) == StoredAmountTotal(items) by {
        if AmountsConsistent(items) {
          ExportTotalsMatchCart(items);
        }
      }
      Some(Filled(template.value, d, PiNumber(input, d), lines))
  }

  /**
   * With at most 17 entries every entry of a consistent cart appears intact
   * in row 14 + i: EAN, DESCRIPTION, QTY, RATE (0 for NaN) and its own
   * AMOUNT (0 for NaN).
   */
  lemma ExportCartLines(template: Sheet, items: seq<Item>, input: string, d: Date, i: int, column: char)
    requires ValidDate(d) && AmountsConsistent(items)
    requires 0 <= i < |items| <= 17 && ItemColumn(column)
    ensures var r := ExportCart(Some(template), items, input, d);
      r.Some? && Addr(column, StartRow + i) in r.value && r.value[Addr(column, StartRow + i)] == ItemCell(items[i], column)
  {
    var lines := Lines(items);
    var piNo := PiNumber(input, d);
    assert ExportCart(Some(template), items, input, d) == Some(Filled(template, d, piNo, lines));
    LinesFitAboveTotals(template, d, piNo, lines, i, column);
    assert lines[i] == LineOf(items[i]);
    LineCellOfItem(items[i], column);
  }

  /** A line built from a consistent cart entry writes the entry's own values. */
  lemma LineCellOfItem(item: Item, column: char)
    requires item.amount == Price(item.qty, item.rate) && ItemColumn(column)
    ensures LineCell(LineOf(item), column) == ItemCell(item, column)
  {
  }
}
