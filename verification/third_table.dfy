/** `_update_third_table`: the tables of the deck are counted in slide and
    shape order and only the third one is restyled and filled. */
module ThirdTable {
  import opened Wrappers
  import opened Deck
  import opened Fonts
  import opened Pricing

  /** The position of the calculation table among the deck's tables
      (counting from zero). */
  const CalculationTableIndex: nat := 2

  /** The number of table shapes in a list of shapes. */
  function CountTables(shapes: seq<Shape>): nat
    decreases |shapes|
  {
    if |shapes| == 0 then 0
    else (if shapes[0].TableShape? then 1 else 0) + CountTables(shapes[1..])
  }

  /** The number of table shapes on a list of slides. */
  function DeckTableCount(slides: seq<Slide>): nat
    decreases |slides|
  {
    if |slides| == 0 then 0 else CountTables(slides[0].shapes) + DeckTableCount(slides[1..])
  }

  /** The index of the table that has exactly `n` tables before it in
      `shapes`, if there is one. */
  function TableIndex(shapes: seq<Shape>, n: nat): (r: Option<nat>)
    ensures r.Some? ==> r.value < |shapes| && shapes[r.value].TableShape?
                        && CountTables(shapes[..r.value]) == n
    ensures r.None? ==> CountTables(shapes) <= n
    decreases |shapes|
  {
    if |shapes| == 0 then None
    else if shapes[0].TableShape? && n == 0 then
      assert shapes[..0] == [];
      Some(0)
    else
      var n' := if shapes[0].TableShape? then n - 1 else n;
      match TableIndex(shapes[1..], n')
      case None => None
      case Some(j) =>
        assert shapes[..j + 1][1..] == shapes[1..][..j];
        Some(j + 1)
  }

  /** The slide and shape of the table that has exactly `n` tables before
      it in the deck, if there is one. */
  function NthTable(slides: seq<Slide>, n: nat): (r: Option<(nat, nat)>)
    ensures r.Some? ==>
      var (s, j) := r.value;
      && s < |slides| && j < |slides[s].shapes| && slides[s].shapes[j].TableShape?
      && DeckTableCount(slides[..s]) + CountTables(slides[s].shapes[..j]) == n
    ensures r.None? ==> DeckTableCount(slides) <= n
    decreases |slides|
  {
    if |slides| == 0 then None
    else
      match TableIndex(slides[0].shapes, n)
      case Some(j) =>
        assert slides[..0] == [];
        Some((0, j))
      case None =>
        var c := CountTables(slides[0].shapes);
        match NthTable(slides[1..], n - c)
        case None => None
        case Some(p) =>
          assert slides[..p.0 + 1][1..] == slides[1..][..p.0];
          Some((p.0 + 1, p.1))
  }

  /** The deck with shape `j` of slide `s` replaced. */
  function PutShape(d: Presentation, s: nat, j: nat, sh: Shape): Presentation
    requires s < |d.slides| && j < |d.slides[s].shapes|
  {
    Presentation(d.slides[s := Slide(d.slides[s].shapes[j := sh])])
  }

  /** `_update_third_table`: the third table is restyled with the table font
      pass and then filled, and its total is returned; every other shape of
      the deck is untouched. A deck with fewer than three tables comes back
      unchanged with total 0. */
  function UpdateThirdTable(d: Presentation, data: PricingData): (r: (Presentation, int))
    ensures NthTable(d.slides, CalculationTableIndex).None? ==> r == (d, 0)
    ensures NthTable(d.slides, CalculationTableIndex).Some? ==>
      var (s, j) := NthTable(d.slides, CalculationTableIndex).value;
      var before := d.slides[s].shapes[j].table;
      && r.1 == GrandTotal(data)
      && |r.0.slides| == |d.slides|
      && (forall s' :: 0 <= s' < |d.slides| && s' != s ==> r.0.slides[s'] == d.slides[s'])
      && |r.0.slides[s].shapes| == |d.slides[s].shapes|
      && (forall j' :: 0 <= j' < |d.slides[s].shapes| && j' != j ==> r.0.slides[s].shapes[j'] == d.slides[s].shapes[j'])
      && r.0.slides[s].shapes[j].TableShape?
      && var after := r.0.slides[s].shapes[j].table;
         && |after.rows| == |before.rows|
         && forall i :: 0 <= i < |before.rows| ==>
              RowFilled(SetTableFont(before).rows[i], after.rows[i], data, r.1)
  {
    match NthTable(d.slides, CalculationTableIndex)
    case None => (d, 0)
    case Some((s, j)) =>
      var filled := FillCalculationTable(SetTableFont(d.slides[s].shapes[j].table), data);
      (PutShape(d, s, j, TableShape(filled.0)), filled.1)
  }

  /** The third table is found exactly when the deck has at least three. */
  lemma {:induction false} NthTableFound(slides: seq<Slide>, n: nat)
    ensures NthTable(slides, n).Some? <==> n < DeckTableCount(slides)
    decreases |slides|
  {
    if |slides| > 0 {
      var c := CountTables(slides[0].shapes);
      TableIndexFound(slides[0].shapes, n);
      if n >= c {
        NthTableFound(slides[1..], n - c);
      }
    }
  }

  lemma {:induction false} TableIndexFound(shapes: seq<Shape>, n: nat)
    ensures TableIndex(shapes, n).Some? <==> n < CountTables(shapes)
    decreases |shapes|
  {
    if |shapes| > 0 {
      if shapes[0].TableShape? {
        if n > 0 {
          TableIndexFound(shapes[1..], n - 1);
        }
      } else {
        TableIndexFound(shapes[1..], n);
      }
    }
  }

  /** With fewer than three tables nothing is filled and the total is 0. */
  lemma FewTablesNoTotal(d: Presentation, data: PricingData)
    requires DeckTableCount(d.slides) < 3
    ensures UpdateThirdTable(d, data) == (d, 0)
  {
    NthTableFound(d.slides, CalculationTableIndex);
  }

  /** With three tables or more the total is always the grand total. */
  lemma ManyTablesGrandTotal(d: Presentation, data: PricingData)
    requires DeckTableCount(d.slides) >= 3
    ensures UpdateThirdTable(d, data).1 == GrandTotal(data)
  {
    NthTableFound(d.slides, CalculationTableIndex);
  }

  // ---------------------------------------------------------------------------
  // As written: the table font pass raises on a run without an RGB colour
  // ---------------------------------------------------------------------------

  /** The deck has a third table and every run of it has an RGB colour. */
  predicate ThirdTableRgb(d: Presentation) {
    match NthTable(d.slides, CalculationTableIndex)
    case None => false
    case Some((s, j)) => TableRgb(d.slides[s].shapes[j].table)
  }

  /** `_update_third_table` as written: the table font pass raises at the
      first run of the third table without an RGB colour. The handler
      catches it, so the deck keeps that table restyled up to the run and
      unfilled, and the total is 0. */
  function UpdateThirdTableAsWritten(d: Presentation, data: PricingData): (r: (Presentation, int))
    ensures r.1 == if ThirdTableRgb(d) then GrandTotal(data) else 0
    ensures NthTable(d.slides, CalculationTableIndex).None? || ThirdTableRgb(d) ==> r == UpdateThirdTable(d, data)
    ensures NthTable(d.slides, CalculationTableIndex).Some? && !ThirdTableRgb(d) ==>
      var (s, j) := NthTable(d.slides, CalculationTableIndex).value;
      var t := d.slides[s].shapes[j].table;
      && |r.0.slides| == |d.slides|
      && (forall s' :: 0 <= s' < |d.slides| && s' != s ==> r.0.slides[s'] == d.slides[s'])
      && |r.0.slides[s].shapes| == |d.slides[s].shapes|
      && (forall j' :: 0 <= j' < |d.slides[s].shapes| && j' != j ==> r.0.slides[s].shapes[j'] == d.slides[s].shapes[j'])
      && r.0.slides[s].shapes[j] == TableShape(SetTableFontAsWritten(t).0)
  {
    match NthTable(d.slides, CalculationTableIndex)
    case None => (d, 0)
    case Some((s, j)) =>
      var t := d.slides[s].shapes[j].table;
      var restyled := SetTableFontAsWritten(t);
      if restyled.1 then (PutShape(d, s, j, TableShape(restyled.0)), 0)
      else
        SetTableFontAsWrittenAgrees(t);
        var filled := FillCalculationTable(restyled.0, data);
        (PutShape(d, s, j, TableShape(filled.0)), filled.1)
  }

  /** With three tables or more, the total as written is the grand total
      when the third table's runs all have an RGB colour and 0 otherwise,
      whereas the corrected fill always returns the grand total. */
  lemma ManyTablesAsWritten(d: Presentation, data: PricingData)
    requires DeckTableCount(d.slides) >= 3
    ensures UpdateThirdTableAsWritten(d, data).1 == if ThirdTableRgb(d) then GrandTotal(data) else 0
    ensures UpdateThirdTable(d, data).1 == GrandTotal(data)
    ensures !ThirdTableRgb(d) && GrandTotal(data) != 0 ==>
      UpdateThirdTableAsWritten(d, data).1 != UpdateThirdTable(d, data).1
  {
    ManyTablesGrandTotal(d, data);
  }
}
