/** The calculation table: the tiered price model, the keyword
    classification of rows and the writes of quantity and price cells. */
module Pricing {
  import opened Text
  import opened Money
  import opened Deck
  import opened Substitution

  const BasePrice: int := 15000
  const HrPrice: int := 15000
  const EmployeePrice: int := 1000
  const OnPremisePrice: int := 600000

  /** The answer that switches the on-premise line on. */
  const Yes: string := "Да"

  /** The request fields the table fill reads. */
  datatype PricingData = PricingData(hrLicenses: int, employeeLicenses: int, onPremises: string)

  /** The priced lines of the table. */
  datatype Line = Base | Hr | Employee | OnPremise

  const AllLines: seq<Line> := [Base, Hr, Employee, OnPremise]

  /** How many units a line bills: the base fee once, the licence counts as
      requested, the on-premise installation once or not at all. */
  function Quantity(line: Line, data: PricingData): int {
    match line
    case Base => 1
    case Hr => data.hrLicenses
    case Employee => data.employeeLicenses
    case OnPremise => if data.onPremises == Yes then 1 else 0
  }

  function UnitPrice(line: Line): int {
    match line
    case Base => BasePrice
    case Hr => HrPrice
    case Employee => EmployeePrice
    case OnPremise => OnPremisePrice
  }

  /** The line totals as the source computes them. */
  function LineTotal(line: Line, data: PricingData): int {
    match line
    case Base => BasePrice
    case Hr => HrPrice * data.hrLicenses
    case Employee => EmployeePrice * data.employeeLicenses
    case OnPremise => if data.onPremises == Yes then OnPremisePrice else 0
  }

  /** Every line total is its unit price times its quantity. */
  lemma LineTotalIsPriceTimesQuantity(line: Line, data: PricingData)
    ensures LineTotal(line, data) == UnitPrice(line) * Quantity(line, data)
  {
  }

  function SumLines(lines: seq<Line>, data: PricingData): int
    decreases |lines|
  {
    if |lines| == 0 then 0 else LineTotal(lines[0], data) + SumLines(lines[1..], data)
  }

  /** The grand total: the base fee, 15000 per HR licence, 1000 per employee
      licence and 600000 when an on-premise installation is requested. */
  function GrandTotal(data: PricingData): (t: int)
    ensures t == 15000 + 15000 * data.hrLicenses + 1000 * data.employeeLicenses
                 + (if data.onPremises == "Да" then 600000 else 0)
  {
    LineTotal(Base, data) + LineTotal(Hr, data) + LineTotal(Employee, data) + LineTotal(OnPremise, data)
  }

  /** The grand total is the sum of the four line totals. */
  lemma GrandTotalIsSumOfLines(data: PricingData)
    ensures GrandTotal(data) == SumLines(AllLines, data)
  {
    assert AllLines[1..] == [Hr, Employee, OnPremise];
    assert AllLines[1..][1..] == [Employee, OnPremise];
    assert AllLines[1..][1..][1..] == [OnPremise];
  }

  /** The worked example: two HR licences, fifty employee licences and no
      on-premise installation cost 95000, shown as `95 000 ₽`. */
  lemma GrandTotalExample()
    ensures GrandTotal(PricingData(2, 50, "Нет")) == 95000
    ensures GrandTotal(PricingData(2, 50, "Да")) == 695000
    ensures FormatMoney(GrandTotal(PricingData(2, 50, "Нет"))) == "95 000 ₽"
  {
    FormatExample();
  }

  // ---------------------------------------------------------------------------
  // Row classification
  // ---------------------------------------------------------------------------

  datatype RowKind = LineRow(line: Line) | TotalRow | Unmatched

  const HrWords: seq<string> := ["кадровик", "кадровика"]
  const EmployeeWords: seq<string> := ["сотрудник", "сотрудника"]
  const TotalWords: seq<string> := ["итог", "итого", "итоговая"]

  /** The row signature: the stripped cell texts joined by single spaces,
      lower-cased. */
  function RowSignature(row: Row): string {
    Lower(Join(seq(|row.cells|, i requires 0 <= i < |row.cells| => Strip(CellText(row.cells[i]))), " "))
  }

  /** Each keyword group is equivalent to its shortest word, because the
      longer words start with it. */
  lemma KeywordGroupsReduce(sig: string)
    ensures AnyContains(sig, HrWords) <==> Contains(sig, "кадровик")
    ensures AnyContains(sig, EmployeeWords) <==> Contains(sig, "сотрудник")
    ensures AnyContains(sig, TotalWords) <==> Contains(sig, "итог")
  {
    assert HrWords[0] == "кадровик";
    if Contains(sig, HrWords[1]) {
      assert HrWords[1] == "кадровик" + "а";
      ContainsPrefixOf(sig, "кадровик", "а");
    }
    assert EmployeeWords[0] == "сотрудник";
    if Contains(sig, EmployeeWords[1]) {
      assert EmployeeWords[1] == "сотрудник" + "а";
      ContainsPrefixOf(sig, "сотрудник", "а");
    }
    assert TotalWords[0] == "итог";
    if Contains(sig, TotalWords[1]) {
      assert TotalWords[1] == "итог" + "о";
      ContainsPrefixOf(sig, "итог", "о");
    }
    if Contains(sig, TotalWords[2]) {
      assert TotalWords[2] == "итог" + "овая";
      ContainsPrefixOf(sig, "итог", "овая");
    }
  }

  /** First match wins, in the order base fee, HR licences, employee
      licences, on-premise, total. */
  function Classify(sig: string): (k: RowKind)
    ensures k == LineRow(Base) <==> Contains(sig, "базовая")
    ensures k == LineRow(Hr) <==> !Contains(sig, "базовая") && Contains(sig, "кадровик")
    ensures k == LineRow(Employee) <==>
      !Contains(sig, "базовая") && !Contains(sig, "кадровик") && Contains(sig, "сотрудник")
    ensures k == LineRow(OnPremise) <==>
      !Contains(sig, "базовая") && !Contains(sig, "кадровик") && !Contains(sig, "сотрудник")
      && Contains(sig, "on-premise")
    ensures k == TotalRow <==>
      !Contains(sig, "базовая") && !Contains(sig, "кадровик") && !Contains(sig, "сотрудник")
      && !Contains(sig, "on-premise") && Contains(sig, "итог")
  {
    KeywordGroupsReduce(sig);
    if Contains(sig, "базовая") then LineRow(Base)
    else if AnyContains(sig, HrWords) then LineRow(Hr)
    else if AnyContains(sig, EmployeeWords) then LineRow(Employee)
    else if Contains(sig, "on-premise") then LineRow(OnPremise)
    else if AnyContains(sig, TotalWords) then TotalRow
    else Unmatched
  }

  // ---------------------------------------------------------------------------
  // Writing a row
  // ---------------------------------------------------------------------------

  /** The quantity cell text, e.g. `2 шт`. */
  function QuantityText(line: Line, data: PricingData): string {
    IntToString(Quantity(line, data)) + " шт"
  }

  /** The on-premise line always shows `1 шт` or `0 шт`. */
  lemma OnPremiseQuantityText(data: PricingData)
    ensures QuantityText(OnPremise, data) == (if data.onPremises == Yes then "1 шт" else "0 шт")
  {
  }

  /** Cell `col` rewritten with `text`. */
  function SetCell(row: Row, col: nat, text: string): Row
    requires col < |row.cells|
  {
    Row(row.cells[col := Rewrite(row.cells[col], text)])
  }

  /** The row after the fill: the same cells except that a line row gets
      its quantity in cell 2 (when the row has three cells) and its line
      total in cell 4 (when it has five), a total row gets `total` in cell 4
      and nothing in cell 2, and an unmatched row is left alone. */
  predicate RowFilled(before: Row, after: Row, data: PricingData, total: int) {
    var kind := Classify(RowSignature(before));
    var n := |before.cells|;
    && |after.cells| == n
    && (forall i :: 0 <= i < n && i != 2 && i != 4 ==> after.cells[i] == before.cells[i])
    && (n >= 3 ==> after.cells[2] == ExpectedQuantityCell(kind, before.cells[2], data))
    && (n >= 5 ==> after.cells[4] == ExpectedPriceCell(kind, before.cells[4], data, total))
  }

  /** Cell 2 after the fill: the quantity on a line row, untouched otherwise. */
  function ExpectedQuantityCell(kind: RowKind, c: Cell, data: PricingData): Cell {
    if kind.LineRow? then Rewrite(c, QuantityText(kind.line, data)) else c
  }

  /** Cell 4 after the fill: the line total, the grand total, or untouched. */
  function ExpectedPriceCell(kind: RowKind, c: Cell, data: PricingData, total: int): Cell {
    match kind
    case LineRow(line) => Rewrite(c, FormatMoney(LineTotal(line, data)))
    case TotalRow => Rewrite(c, FormatMoney(total))
    case Unmatched => c
  }

  /** One iteration of the row loop of `_fill_calculation_table`. */
  function FillRow(row: Row, data: PricingData, total: int): (r: Row)
    ensures RowFilled(row, r, data, total)
  {
    match Classify(RowSignature(row))
    case Unmatched => row
    case TotalRow =>
      if |row.cells| >= 5 then SetCell(row, 4, FormatMoney(total)) else row
    case LineRow(line) =>
      var r1 := if |row.cells| >= 3 then SetCell(row, 2, QuantityText(line, data)) else row;
      if |r1.cells| >= 5 then SetCell(r1, 4, FormatMoney(LineTotal(line, data))) else r1
  }

  /** `_fill_calculation_table`: the grand total is computed once, every row
      is filled, and the total row receives the very total that is
      returned. */
  function FillCalculationTable(t: Table, data: PricingData): (r: (Table, int))
    ensures r.1 == 15000 + 15000 * data.hrLicenses + 1000 * data.employeeLicenses
                   + (if data.onPremises == "Да" then 600000 else 0)
    ensures |r.0.rows| == |t.rows|
    ensures forall i :: 0 <= i < |t.rows| ==> RowFilled(t.rows[i], r.0.rows[i], data, r.1)
  {
    var total := GrandTotal(data);
    (Table(seq(|t.rows|, i requires 0 <= i < |t.rows| => FillRow(t.rows[i], data, total))), total)
  }

  /** A row that matches no keyword group is not changed. */
  lemma UnmatchedRowUnchanged(row: Row, data: PricingData, total: int)
    requires Classify(RowSignature(row)) == Unmatched
    ensures FillRow(row, data, total) == row
  {
  }
}
