/** `create_kp_presentation` of the deck filler: pick the template, then run
    the font pass, the company-name replacement, the table fill and the
    price-summary update, in that order. */
module Filler {
  import opened Wrappers
  import opened Deck
  import opened Fonts
  import opened Substitution
  import opened Pricing
  import opened ThirdTable
  import opened PriceText
  import opened Money

  const LongTemplate: string := "kedo_long.pptx"
  const ShortTemplate: string := "kedo_short.pptx"

  /** The template file: the long deck exactly for the type `long`, the short
      deck for any other type. */
  function TemplateFile(templateType: string): (f: string)
    ensures f == LongTemplate <==> templateType == "long"
    ensures f == ShortTemplate <==> templateType != "long"
  {
    if templateType == "long" then LongTemplate else ShortTemplate
  }

  /** The request fields the deck filler reads. */
  datatype ProposalData = ProposalData(companyName: string, pricing: PricingData)

  /** The first three passes: fonts, company name, then the third table;
      the second component is the total the table fill returns. */
  function TablePass(template: Presentation, data: ProposalData): (r: (Presentation, int))
    ensures SameKinds(template.slides, r.0.slides)
    ensures r.1 == if DeckTableCount(template.slides) >= 3 then GrandTotal(data.pricing) else 0
  {
    var d1 := EnsureConsistentFonts(template);
    var d2 := ReplaceCompanyName(d1, data.companyName);
    FillDeckTables(template, data.companyName);
    NthTableFound(d2.slides, CalculationTableIndex);
    var r := UpdateThirdTable(d2, data.pricing);
    PassesKeepTables(template, d1, d2, data.companyName);
    TablesKeptKinds(template.slides, d2.slides);
    ThirdTableKeepsKinds(d2, data.pricing);
    SameKindsTrans(template.slides, d2.slides, r.0.slides);
    r
  }

  /** The four passes applied to a loaded template, in the order fonts,
      company name, third table, price text; the second component is the
      total written into the deck. No shape changes its kind. */
  function FillDeck(template: Presentation, data: ProposalData): (r: (Presentation, int))
    ensures SameKinds(template.slides, r.0.slides)
    ensures r.1 == if DeckTableCount(template.slides) >= 3 then GrandTotal(data.pricing) else 0
  {
    var (d3, total) := TablePass(template, data);
    var d := UpdatePriceText(d3, total);
    PricePassKeepsTables(d3, total);
    TablesKeptKinds(d3.slides, d.slides);
    SameKindsTrans(template.slides, d3.slides, d.slides);
    (d, total)
  }

  /** In the filled deck the third table keeps its place and row count,
      and every row is filled from the pricing data with the returned total
      `t`, which is the grand total. */
  lemma FillDeckTableFilled(template: Presentation, data: ProposalData)
    requires DeckTableCount(template.slides) >= 3
    ensures NthTable(template.slides, CalculationTableIndex).Some?
    ensures
      var (d, t) := FillDeck(template, data);
      var (s, j) := NthTable(template.slides, CalculationTableIndex).value;
      var before := SetTableFont(template.slides[s].shapes[j].table);
      && t == GrandTotal(data.pricing)
      && s < |d.slides| && j < |d.slides[s].shapes| && d.slides[s].shapes[j].TableShape?
      && |d.slides[s].shapes[j].table.rows| == |before.rows|
      && (forall i :: 0 <= i < |before.rows| ==>
            RowFilled(before.rows[i], d.slides[s].shapes[j].table.rows[i], data.pricing, t))
  {
    NthTableFound(template.slides, CalculationTableIndex);
    var d1 := EnsureConsistentFonts(template);
    var d2 := ReplaceCompanyName(d1, data.companyName);
    PassesKeepTables(template, d1, d2, data.companyName);
    TablesKeptKinds(template.slides, d2.slides);
    NthTableSameKinds(template.slides, d2.slides, CalculationTableIndex);
    var (d3, t) := UpdateThirdTable(d2, data.pricing);
    PricePassKeepsTables(d3, t);
  }

  /** The total row of the calculation table shows the returned total: a
      total row with five cells has `FormatMoney(t)` written into cell 4. */
  lemma FillDeckTotalsAgree(template: Presentation, data: ProposalData)
    requires DeckTableCount(template.slides) >= 3
    ensures NthTable(template.slides, CalculationTableIndex).Some?
    ensures
      var (d, t) := FillDeck(template, data);
      var (s, j) := NthTable(template.slides, CalculationTableIndex).value;
      var before := SetTableFont(template.slides[s].shapes[j].table);
      && t == GrandTotal(data.pricing)
      && s < |d.slides| && j < |d.slides[s].shapes| && d.slides[s].shapes[j].TableShape?
      && |d.slides[s].shapes[j].table.rows| == |before.rows|
      && (forall i :: 0 <= i < |before.rows| ==>
            && |d.slides[s].shapes[j].table.rows[i].cells| == |before.rows[i].cells|
            && (Classify(RowSignature(before.rows[i])) == TotalRow && |before.rows[i].cells| >= 5 ==>
                  d.slides[s].shapes[j].table.rows[i].cells[4] == Rewrite(before.rows[i].cells[4], FormatMoney(t))))
  {
    FillDeckTableFilled(template, data);
  }

  /** The price summary shows the returned total: the first captioned shape
      after the table fill has its prices rewritten to `FormatMoney(t)`. */
  lemma FillDeckCaptionPrice(template: Presentation, data: ProposalData)
    ensures
      var (d, t) := FillDeck(template, data);
      var d3 := TablePass(template, data).0;
      FirstMarkedInDeck(d3.slides, PriceMarker).Some? ==>
        var (s, j) := FirstMarkedInDeck(d3.slides, PriceMarker).value;
        d.slides[s].shapes[j] == TextShape(UpdatePriceInFrame(d3.slides[s].shapes[j].paragraphs, FormatMoney(t)))
  {
  }

  // ---------------------------------------------------------------------------
  // The passes and the tables of the deck
  // ---------------------------------------------------------------------------

  /** `b` has the shapes of `a` in the same places, and any shape that is a
      table in either is the very same shape in both: only text shapes may
      differ. */
  predicate TablesKept(a: seq<Slide>, b: seq<Slide>) {
    && |a| == |b|
    && forall s :: 0 <= s < |a| ==>
         && |a[s].shapes| == |b[s].shapes|
         && forall j :: 0 <= j < |a[s].shapes| && (a[s].shapes[j].TableShape? || b[s].shapes[j].TableShape?) ==>
              b[s].shapes[j] == a[s].shapes[j]
  }

  lemma TablesKeptKinds(a: seq<Slide>, b: seq<Slide>)
    requires TablesKept(a, b)
    ensures SameKinds(a, b)
  {
    forall s | 0 <= s < |a|
      ensures ShapeKinds(a[s].shapes) == ShapeKinds(b[s].shapes)
    {
      assert forall j :: 0 <= j < |a[s].shapes| ==> (a[s].shapes[j].TableShape? <==> b[s].shapes[j].TableShape?);
    }
  }

  lemma SameKindsTrans(a: seq<Slide>, b: seq<Slide>, c: seq<Slide>)
    requires SameKinds(a, b) && SameKinds(b, c)
    ensures SameKinds(a, c)
  {
  }

  /** The font pass and the company-name pass only rewrite text shapes. */
  lemma PassesKeepTables(template: Presentation, d1: Presentation, d2: Presentation, name: string)
    requires d1 == EnsureConsistentFonts(template) && d2 == ReplaceCompanyName(d1, name)
    ensures TablesKept(template.slides, d2.slides)
  {
    assert TablesKept(template.slides, d1.slides);
    assert TablesKept(d1.slides, d2.slides);
  }

  /** The price pass only rewrites the captioned shape, which is a text
      shape. */
  lemma PricePassKeepsTables(d: Presentation, total: int)
    ensures TablesKept(d.slides, UpdatePriceText(d, total).slides)
  {
  }

  /** The table fill puts a table where the third table was. */
  lemma ThirdTableKeepsKinds(d: Presentation, data: PricingData)
    ensures SameKinds(d.slides, UpdateThirdTable(d, data).0.slides)
  {
    var r := UpdateThirdTable(d, data).0;
    if NthTable(d.slides, CalculationTableIndex).Some? {
      var (s, j) := NthTable(d.slides, CalculationTableIndex).value;
      forall s' | 0 <= s' < |d.slides|
        ensures ShapeKinds(d.slides[s'].shapes) == ShapeKinds(r.slides[s'].shapes)
      {
        if s' == s {
          assert forall j' :: 0 <= j' < |d.slides[s].shapes| ==>
            (d.slides[s].shapes[j'].TableShape? <==> r.slides[s].shapes[j'].TableShape?);
        }
      }
      assert Kinds(d.slides) == Kinds(r.slides);
    }
  }

  /** Where the tables are depends only on which shapes are tables. */
  lemma {:induction false} NthTableSameKinds(a: seq<Slide>, b: seq<Slide>, n: nat)
    requires SameKinds(a, b)
    ensures NthTable(a, n) == NthTable(b, n)
  {
    NthTableByKinds(a, n);
    NthTableByKinds(b, n);
  }

  /** The passes before the table fill leave every shape's kind in place, so
      the table count the fill sees is the template's. */
  lemma FillDeckTables(template: Presentation, name: string)
    ensures DeckTableCount(ReplaceCompanyName(EnsureConsistentFonts(template), name).slides)
         == DeckTableCount(template.slides)
  {
    var d1 := EnsureConsistentFonts(template);
    var d2 := ReplaceCompanyName(d1, name);
    PassesKeepTables(template, d1, d2, name);
    TablesKeptKinds(template.slides, d1.slides);
    TablesKeptKinds(d1.slides, d2.slides);
    SameKindsCount(template.slides, d1.slides);
    SameKindsCount(d1.slides, d2.slides);
  }

  /** Which shapes of a slide are tables. */
  function ShapeKinds(shapes: seq<Shape>): (r: seq<bool>)
    ensures |r| == |shapes|
  {
    seq(|shapes|, j requires 0 <= j < |shapes| => shapes[j].TableShape?)
  }

  /** Which shapes of each slide are tables. */
  function Kinds(slides: seq<Slide>): (r: seq<seq<bool>>)
    ensures |r| == |slides|
  {
    seq(|slides|, s requires 0 <= s < |slides| => ShapeKinds(slides[s].shapes))
  }

  /** Two lists of slides whose shapes agree on being tables. */
  predicate SameKinds(a: seq<Slide>, b: seq<Slide>) {
    Kinds(a) == Kinds(b)
  }

  lemma ShapeKindsTail(a: seq<Shape>)
    requires |a| > 0
    ensures ShapeKinds(a[1..]) == ShapeKinds(a)[1..]
  {
  }

  lemma KindsTail(a: seq<Slide>)
    requires |a| > 0
    ensures Kinds(a[1..]) == Kinds(a)[1..]
  {
  }

  lemma {:induction false} SameKindsCount(a: seq<Slide>, b: seq<Slide>)
    requires SameKinds(a, b)
    ensures DeckTableCount(a) == DeckTableCount(b)
  {
    DeckCountByKinds(a);
    DeckCountByKinds(b);
  }

  /** The table count and search of the third-table fill, read off the
      kinds alone: a reference for showing that they depend on nothing
      else. */
  function KindCount(k: seq<bool>): nat {
    if |k| == 0 then 0 else (if k[0] then 1 else 0) + KindCount(k[1..])
  }

  function DeckKindCount(k: seq<seq<bool>>): nat {
    if |k| == 0 then 0 else KindCount(k[0]) + DeckKindCount(k[1..])
  }

  function KindIndex(k: seq<bool>, n: nat): Option<nat> {
    if |k| == 0 then None
    else if k[0] && n == 0 then Some(0)
    else
      match KindIndex(k[1..], if k[0] then n - 1 else n)
      case None => None
      case Some(j) => Some(j + 1)
  }

  function NthKind(k: seq<seq<bool>>, n: nat): Option<(nat, nat)> {
    if |k| == 0 then None
    else
      match KindIndex(k[0], n)
      case Some(j) => Some((0, j))
      case None =>
        if n < KindCount(k[0]) then None
        else
          match NthKind(k[1..], n - KindCount(k[0]))
          case None => None
          case Some(p) => Some((p.0 + 1, p.1))
  }

  lemma {:induction false} CountByKinds(shapes: seq<Shape>)
    ensures CountTables(shapes) == KindCount(ShapeKinds(shapes))
    decreases |shapes|
  {
    if |shapes| > 0 {
      ShapeKindsTail(shapes);
      CountByKinds(shapes[1..]);
    }
  }

  lemma {:induction false} DeckCountByKinds(slides: seq<Slide>)
    ensures DeckTableCount(slides) == DeckKindCount(Kinds(slides))
    decreases |slides|
  {
    if |slides| > 0 {
      KindsTail(slides);
      CountByKinds(slides[0].shapes);
      DeckCountByKinds(slides[1..]);
    }
  }

  lemma {:induction false} IndexByKinds(shapes: seq<Shape>, n: nat)
    ensures TableIndex(shapes, n) == KindIndex(ShapeKinds(shapes), n)
    decreases |shapes|
  {
    if |shapes| > 0 && !(shapes[0].TableShape? && n == 0) {
      ShapeKindsTail(shapes);
      IndexByKinds(shapes[1..], if shapes[0].TableShape? then n - 1 else n);
    }
  }

  lemma {:induction false} NthTableByKinds(slides: seq<Slide>, n: nat)
    ensures NthTable(slides, n) == NthKind(Kinds(slides), n)
    decreases |slides|
  {
    if |slides| > 0 {
      KindsTail(slides);
      IndexByKinds(slides[0].shapes, n);
      CountByKinds(slides[0].shapes);
      if TableIndex(slides[0].shapes, n).None? {
        NthTableByKinds(slides[1..], n - CountTables(slides[0].shapes));
      }
    }
  }

  /** `create_kp_presentation`: a template that cannot be loaded gives no
      deck; otherwise the filled deck and the total written into it. */
  function CreateProposal(templateType: string, load: string -> Option<Presentation>, data: ProposalData)
    : (r: Option<(Presentation, int)>)
    ensures load(TemplateFile(templateType)).None? <==> r.None?
    ensures r.Some? ==>
      var template := load(TemplateFile(templateType)).value;
      r.value.1 == if DeckTableCount(template.slides) >= 3 then GrandTotal(data.pricing) else 0
    ensures r.Some? ==> r.value == FillDeck(load(TemplateFile(templateType)).value, data)
  {
    match load(TemplateFile(templateType))
    case None => None
    case Some(template) => Some(FillDeck(template, data))
  }

  // ---------------------------------------------------------------------------
  // As written: a run without an RGB colour (see the findings in README)
  // ---------------------------------------------------------------------------

  /** The font and name passes leave the tables alone, so the deck the
      table fill sees has the template's third table, if any. */
  lemma PassesKeepThirdTable(template: Presentation, name: string)
    ensures
      var d2 := ReplaceCompanyName(EnsureConsistentFonts(template), name);
      && NthTable(d2.slides, CalculationTableIndex) == NthTable(template.slides, CalculationTableIndex)
      && ThirdTableRgb(d2) == ThirdTableRgb(template)
  {
    var d1 := EnsureConsistentFonts(template);
    var d2 := ReplaceCompanyName(d1, name);
    PassesKeepTables(template, d1, d2, name);
    TablesKeptKinds(template.slides, d2.slides);
    NthTableSameKinds(template.slides, d2.slides, CalculationTableIndex);
    NthTableFound(template.slides, CalculationTableIndex);
  }

  /** `create_kp_presentation` as written. A text run without an RGB colour
      makes the font pass raise, and the handler returns None. Otherwise the
      table fill yields 0 when the third table holds a run without an RGB
      colour. The name and price passes as written never stop here: by then
      every text run has an RGB colour (`TextRunsKeepRgb`). */
  function CreateProposalAsWritten(templateType: string, load: string -> Option<Presentation>, data: ProposalData)
    : (r: Option<(Presentation, int)>)
    ensures r.Some? <==> load(TemplateFile(templateType)).Some? && DeckTextRgb(load(TemplateFile(templateType)).value)
    ensures r.Some? ==>
      r.value.1 == if ThirdTableRgb(load(TemplateFile(templateType)).value) then GrandTotal(data.pricing) else 0
    ensures r.Some? && (DeckTableCount(load(TemplateFile(templateType)).value.slides) < 3
                        || ThirdTableRgb(load(TemplateFile(templateType)).value)) ==>
      r == CreateProposal(templateType, load, data)
  {
    match load(TemplateFile(templateType))
    case None => None
    case Some(template) =>
      match EnsureConsistentFontsAsWritten(template)
      case None => None
      case Some(d1) =>
        TextRunsKeepRgb(template, data);
        var d2 := ReplaceCompanyNameAsWritten(d1, data.companyName);
        PassesKeepThirdTable(template, data.companyName);
        NthTableFound(template.slides, CalculationTableIndex);
        var (d3, total) := UpdateThirdTableAsWritten(d2, data.pricing);
        Some((UpdatePriceTextAsWritten(d3, total), total))
  }

  /** Once the font pass as written has gone through, every text run has an
      RGB colour, and the name pass and the table fill keep it so. The name
      and price passes as written therefore never meet a run they would stop
      at. */
  lemma TextRunsKeepRgb(template: Presentation, data: ProposalData)
    requires DeckTextRgb(template)
    ensures
      var d1 := EnsureConsistentFonts(template);
      var d2 := ReplaceCompanyName(d1, data.companyName);
      && DeckTextRgb(d1) && DeckTextRgb(d2)
      && DeckTextRgb(UpdateThirdTableAsWritten(d2, data.pricing).0)
  {
    var d1 := EnsureConsistentFonts(template);
    FontPassKeepsRgb(template);
    var d2 := ReplaceCompanyName(d1, data.companyName);
    NamePassKeepsRgb(d1, data.companyName);
    TableFillKeepsRgb(d2, data.pricing);
  }

  lemma FontPassKeepsRgb(d: Presentation)
    requires DeckTextRgb(d)
    ensures DeckTextRgb(EnsureConsistentFonts(d))
  {
    var r := EnsureConsistentFonts(d);
    forall s, j | 0 <= s < |r.slides| && 0 <= j < |r.slides[s].shapes|
      ensures ShapeRgb(r.slides[s].shapes[j])
    {
      assert ShapesRgb(d.slides[s].shapes);
      assert ShapeRgb(d.slides[s].shapes[j]);
    }
  }

  lemma NamePassKeepsRgb(d: Presentation, name: string)
    requires DeckTextRgb(d)
    ensures DeckTextRgb(ReplaceCompanyName(d, name))
  {
    var r := ReplaceCompanyName(d, name);
    forall s, j | 0 <= s < |r.slides| && 0 <= j < |r.slides[s].shapes|
      ensures ShapeRgb(r.slides[s].shapes[j])
    {
      assert ShapesRgb(d.slides[s].shapes);
      assert ShapeRgb(d.slides[s].shapes[j]);
    }
  }

  lemma TableFillKeepsRgb(d: Presentation, data: PricingData)
    requires DeckTextRgb(d)
    ensures DeckTextRgb(UpdateThirdTableAsWritten(d, data).0)
  {
    var r := UpdateThirdTableAsWritten(d, data).0;
    forall s, j | 0 <= s < |r.slides| && 0 <= j < |r.slides[s].shapes|
      ensures ShapeRgb(r.slides[s].shapes[j])
    {
      assert ShapesRgb(d.slides[s].shapes);
    }
  }

  /** A template whose only run inherits its colour. */
  const InheritedColourTemplate: Presentation :=
    Presentation([Slide([TextShape([Paragraph([Run(CompanyPlaceholder, Font(None, None, None, None, None, None))])])])])

  /** As written, that template gives no proposal; corrected, it gives one. */
  lemma InheritedColourStopsProposal(data: ProposalData)
    ensures CreateProposalAsWritten("long", _ => Some(InheritedColourTemplate), data).None?
    ensures CreateProposal("long", _ => Some(InheritedColourTemplate), data).Some?
  {
    var t := InheritedColourTemplate;
    assert !HasRgb(t.slides[0].shapes[0].paragraphs[0].runs[0]);
    assert !ShapesRgb(t.slides[0].shapes);
  }
}
