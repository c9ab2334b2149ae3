/** The font passes: every run of a text shape, or of a table, gets the
    primary font name while its size, bold, italic, underline and colour are
    kept. */
module Fonts {
  import opened Wrappers
  import opened Deck

  /** `b` is run `a` after a font pass: same text, primary font name, same
      formatting. */
  predicate RunRestyledFrom(a: Run, b: Run) {
    b.text == a.text && b.font.name == Some(PrimaryFont) && SameFormatting(a.font, b.font)
  }

  predicate RunsRestyledFrom(a: seq<Run>, b: seq<Run>) {
    |a| == |b| && forall j :: 0 <= j < |a| ==> RunRestyledFrom(a[j], b[j])
  }

  /** Paragraph by paragraph and run by run, `b` is `a` after a font pass. */
  predicate ParagraphsRestyledFrom(a: seq<Paragraph>, b: seq<Paragraph>) {
    |a| == |b| && forall i :: 0 <= i < |a| ==> RunsRestyledFrom(a[i].runs, b[i].runs)
  }

  function RestyleRuns(runs: seq<Run>, withUnderline: bool): (r: seq<Run>)
    ensures RunsRestyledFrom(runs, r)
  {
    seq(|runs|, j requires 0 <= j < |runs| => runs[j].(font := Restyle(runs[j].font, withUnderline)))
  }

  /** The loop over the paragraphs and runs of one text frame. */
  function RestyleParagraphs(ps: seq<Paragraph>, withUnderline: bool): (r: seq<Paragraph>)
    ensures ParagraphsRestyledFrom(ps, r)
  {
    seq(|ps|, i requires 0 <= i < |ps| => Paragraph(RestyleRuns(ps[i].runs, withUnderline)))
  }

  /** `_set_shape_font`: a text shape has all its runs restyled (underline
      saved and restored); a shape without a text frame, tables included,
      is left alone. */
  function SetShapeFont(sh: Shape): (r: Shape)
    ensures sh.TextShape? ==> r.TextShape? && ParagraphsRestyledFrom(sh.paragraphs, r.paragraphs)
    ensures !sh.TextShape? ==> r == sh
  {
    match sh
    case TextShape(ps) => TextShape(RestyleParagraphs(ps, true))
    case _ => sh
  }

  /** `b` is table `a` after the table font pass: same grid, every cell's
      runs restyled. */
  predicate TableRestyledFrom(a: Table, b: Table) {
    && |a.rows| == |b.rows|
    && forall i :: 0 <= i < |a.rows| ==>
         && |a.rows[i].cells| == |b.rows[i].cells|
         && forall j :: 0 <= j < |a.rows[i].cells| ==>
              ParagraphsRestyledFrom(a.rows[i].cells[j].paragraphs, b.rows[i].cells[j].paragraphs)
  }

  function RestyleRow(row: Row): Row {
    Row(seq(|row.cells|, j requires 0 <= j < |row.cells| => Cell(RestyleParagraphs(row.cells[j].paragraphs, false))))
  }

  /** `_set_table_font`: every run of every cell is restyled (this pass does
      not save the underline, which the name change leaves alone anyway). */
  function SetTableFont(t: Table): (r: Table)
    ensures TableRestyledFrom(t, r)
  {
    Table(seq(|t.rows|, i requires 0 <= i < |t.rows| => RestyleRow(t.rows[i])))
  }

  /** `_ensure_consistent_fonts`: every shape of every slide goes through
      `_set_shape_font`; text shapes are restyled, everything else, tables
      included, stays as it is. */
  function EnsureConsistentFonts(d: Presentation): (r: Presentation)
    ensures |r.slides| == |d.slides|
    ensures forall s :: 0 <= s < |d.slides| ==> |r.slides[s].shapes| == |d.slides[s].shapes|
    ensures forall s, j :: 0 <= s < |d.slides| && 0 <= j < |d.slides[s].shapes| ==>
      var a := d.slides[s].shapes[j];
      var b := r.slides[s].shapes[j];
      if a.TextShape? then b.TextShape? && ParagraphsRestyledFrom(a.paragraphs, b.paragraphs) else b == a
  {
    Presentation(seq(|d.slides|, s requires 0 <= s < |d.slides| => SetSlideFont(d.slides[s])))
  }

  /** The shape loop of `_ensure_consistent_fonts` on one slide. */
  function SetSlideFont(sl: Slide): Slide {
    Slide(seq(|sl.shapes|, j requires 0 <= j < |sl.shapes| => SetShapeFont(sl.shapes[j])))
  }

  // ---------------------------------------------------------------------------
  // The passes as written: reading the colour of a run without an RGB value
  // raises, which stops the loop at that run (see the findings in README)
  // ---------------------------------------------------------------------------

  /** The position of the first run without an RGB colour, or the length
      when every run has one. */
  function FirstWithoutRgb(runs: seq<Run>): (k: nat)
    ensures k <= |runs|
    ensures forall j :: 0 <= j < k ==> HasRgb(runs[j])
    ensures k < |runs| <==> !RunsRgb(runs)
    decreases |runs|
  {
    if |runs| == 0 then 0
    else if !HasRgb(runs[0]) then 0
    else 1 + FirstWithoutRgb(runs[1..])
  }

  /** The run loop as written: runs are restyled in order up to the first
      one without an RGB colour, which stops the loop; that run and the ones
      after it stay as they were. The flag says whether the loop stopped. */
  function RestyleRunsAsWritten(runs: seq<Run>, withUnderline: bool): (r: (seq<Run>, bool))
    ensures |r.0| == |runs|
    ensures r.1 <==> !RunsRgb(runs)
    ensures forall j :: 0 <= j < |runs| ==>
      r.0[j] == if j < FirstWithoutRgb(runs) then runs[j].(font := Restyle(runs[j].font, withUnderline)) else runs[j]
    decreases |runs|
  {
    if |runs| == 0 then ([], false)
    else if !HasRgb(runs[0]) then (runs, true)
    else
      var rest := RestyleRunsAsWritten(runs[1..], withUnderline);
      ([runs[0].(font := Restyle(runs[0].font, withUnderline))] + rest.0, rest.1)
  }

  /** When every run has an RGB colour the loop as written is the loop of
      `RestyleRuns`. */
  lemma RestyleRunsAsWrittenAgrees(runs: seq<Run>, withUnderline: bool)
    requires RunsRgb(runs)
    ensures RestyleRunsAsWritten(runs, withUnderline) == (RestyleRuns(runs, withUnderline), false)
  {
    var r := RestyleRunsAsWritten(runs, withUnderline).0;
    var q := RestyleRuns(runs, withUnderline);
    forall j | 0 <= j < |runs| ensures r[j] == q[j] {
      assert q[j] == runs[j].(font := Restyle(runs[j].font, withUnderline));
    }
    assert r == q;
  }

  function FirstParagraphWithoutRgb(ps: seq<Paragraph>): (k: nat)
    ensures k <= |ps|
    ensures forall i :: 0 <= i < k ==> RunsRgb(ps[i].runs)
    ensures k < |ps| <==> !ParagraphsRgb(ps)
    decreases |ps|
  {
    if |ps| == 0 then 0
    else if !RunsRgb(ps[0].runs) then 0
    else 1 + FirstParagraphWithoutRgb(ps[1..])
  }

  /** The paragraph loop as written; see `RestyleParagraphsAsWrittenAt` for
      what it does to each paragraph. */
  function RestyleParagraphsAsWritten(ps: seq<Paragraph>, withUnderline: bool): (r: (seq<Paragraph>, bool))
    ensures |r.0| == |ps|
    ensures r.1 <==> !ParagraphsRgb(ps)
    decreases |ps|
  {
    if |ps| == 0 then ([], false)
    else
      var first := RestyleRunsAsWritten(ps[0].runs, withUnderline);
      if first.1 then ([Paragraph(first.0)] + ps[1..], true)
      else
        var rest := RestyleParagraphsAsWritten(ps[1..], withUnderline);
        ([Paragraph(first.0)] + rest.0, rest.1)
  }

  /** Paragraphs before the first one holding a run without an RGB colour
      are restyled, that paragraph is restyled up to the run, and the
      paragraphs after it stay as they were. */
  lemma {:induction false} RestyleParagraphsAsWrittenAt(ps: seq<Paragraph>, withUnderline: bool, i: nat)
    requires i < |ps|
    ensures
      var k := FirstParagraphWithoutRgb(ps);
      RestyleParagraphsAsWritten(ps, withUnderline).0[i]
        == if i < k then Paragraph(RestyleRuns(ps[i].runs, withUnderline))
           else if i == k then Paragraph(RestyleRunsAsWritten(ps[i].runs, withUnderline).0)
           else ps[i]
    decreases |ps|
  {
    if RunsRgb(ps[0].runs) {
      RestyleRunsAsWrittenAgrees(ps[0].runs, withUnderline);
      if i > 0 {
        RestyleParagraphsAsWrittenAt(ps[1..], withUnderline, i - 1);
      }
    }
  }

  lemma RestyleParagraphsAsWrittenAgrees(ps: seq<Paragraph>, withUnderline: bool)
    requires ParagraphsRgb(ps)
    ensures RestyleParagraphsAsWritten(ps, withUnderline) == (RestyleParagraphs(ps, withUnderline), false)
  {
    var r := RestyleParagraphsAsWritten(ps, withUnderline).0;
    var q := RestyleParagraphs(ps, withUnderline);
    forall i | 0 <= i < |ps| ensures r[i] == q[i] {
      RestyleParagraphsAsWrittenAt(ps, withUnderline, i);
    }
    assert r == q;
  }

  function FirstCellWithoutRgb(cells: seq<Cell>): (k: nat)
    ensures k <= |cells|
    ensures forall j :: 0 <= j < k ==> ParagraphsRgb(cells[j].paragraphs)
    ensures k < |cells| <==> !CellsRgb(cells)
    decreases |cells|
  {
    if |cells| == 0 then 0
    else if !ParagraphsRgb(cells[0].paragraphs) then 0
    else 1 + FirstCellWithoutRgb(cells[1..])
  }

  /** The cell loop of `_set_table_font` as written, for one row. */
  function RestyleCellsAsWritten(cells: seq<Cell>): (r: (seq<Cell>, bool))
    ensures |r.0| == |cells|
    ensures r.1 <==> !CellsRgb(cells)
    decreases |cells|
  {
    if |cells| == 0 then ([], false)
    else
      var first := RestyleParagraphsAsWritten(cells[0].paragraphs, false);
      if first.1 then ([Cell(first.0)] + cells[1..], true)
      else
        var rest := RestyleCellsAsWritten(cells[1..]);
        ([Cell(first.0)] + rest.0, rest.1)
  }

  lemma {:induction false} RestyleCellsAsWrittenAt(cells: seq<Cell>, j: nat)
    requires j < |cells|
    ensures
      var k := FirstCellWithoutRgb(cells);
      RestyleCellsAsWritten(cells).0[j]
        == if j < k then Cell(RestyleParagraphs(cells[j].paragraphs, false))
           else if j == k then Cell(RestyleParagraphsAsWritten(cells[j].paragraphs, false).0)
           else cells[j]
    decreases |cells|
  {
    if ParagraphsRgb(cells[0].paragraphs) {
      RestyleParagraphsAsWrittenAgrees(cells[0].paragraphs, false);
      if j > 0 {
        RestyleCellsAsWrittenAt(cells[1..], j - 1);
      }
    }
  }

  lemma RestyleCellsAsWrittenAgrees(row: Row)
    requires CellsRgb(row.cells)
    ensures RestyleCellsAsWritten(row.cells) == (RestyleRow(row).cells, false)
  {
    var r := RestyleCellsAsWritten(row.cells).0;
    var q := RestyleRow(row).cells;
    forall j | 0 <= j < |row.cells| ensures r[j] == q[j] {
      RestyleCellsAsWrittenAt(row.cells, j);
    }
    assert r == q;
  }

  function FirstRowWithoutRgb(rows: seq<Row>): (k: nat)
    ensures k <= |rows|
    ensures forall i :: 0 <= i < k ==> CellsRgb(rows[i].cells)
    ensures k < |rows| <==> !RowsRgb(rows)
    decreases |rows|
  {
    if |rows| == 0 then 0
    else if !CellsRgb(rows[0].cells) then 0
    else 1 + FirstRowWithoutRgb(rows[1..])
  }

  function RestyleRowsAsWritten(rows: seq<Row>): (r: (seq<Row>, bool))
    ensures |r.0| == |rows|
    ensures r.1 <==> !RowsRgb(rows)
    decreases |rows|
  {
    if |rows| == 0 then ([], false)
    else
      var first := RestyleCellsAsWritten(rows[0].cells);
      if first.1 then ([Row(first.0)] + rows[1..], true)
      else
        var rest := RestyleRowsAsWritten(rows[1..]);
        ([Row(first.0)] + rest.0, rest.1)
  }

  lemma {:induction false} RestyleRowsAsWrittenAt(rows: seq<Row>, i: nat)
    requires i < |rows|
    ensures
      var k := FirstRowWithoutRgb(rows);
      RestyleRowsAsWritten(rows).0[i]
        == if i < k then RestyleRow(rows[i])
           else if i == k then Row(RestyleCellsAsWritten(rows[i].cells).0)
           else rows[i]
    decreases |rows|
  {
    if CellsRgb(rows[0].cells) {
      RestyleCellsAsWrittenAgrees(rows[0]);
      if i > 0 {
        RestyleRowsAsWrittenAt(rows[1..], i - 1);
      }
    }
  }

  /** `_set_table_font` as written: the flag says whether the pass stopped,
      that is, whether the source raised. */
  function SetTableFontAsWritten(t: Table): (r: (Table, bool))
    ensures |r.0.rows| == |t.rows|
    ensures r.1 <==> !TableRgb(t)
  {
    var rows := RestyleRowsAsWritten(t.rows);
    (Table(rows.0), rows.1)
  }

  /** Rows are restyled in order up to the one holding the first run
      without an RGB colour, that row is restyled up to that run, and the
      rows after it stay as they were. */
  lemma SetTableFontAsWrittenAt(t: Table, i: nat)
    requires i < |t.rows|
    ensures
      var k := FirstRowWithoutRgb(t.rows);
      SetTableFontAsWritten(t).0.rows[i]
        == if i < k then SetTableFont(t).rows[i]
           else if i == k then Row(RestyleCellsAsWritten(t.rows[i].cells).0)
           else t.rows[i]
  {
    RestyleRowsAsWrittenAt(t.rows, i);
  }

  /** When every run of the table has an RGB colour, the table pass as
      written is `SetTableFont`. */
  lemma SetTableFontAsWrittenAgrees(t: Table)
    requires TableRgb(t)
    ensures SetTableFontAsWritten(t) == (SetTableFont(t), false)
  {
    var r := SetTableFontAsWritten(t).0;
    var q := SetTableFont(t);
    forall i | 0 <= i < |t.rows| ensures r.rows[i] == q.rows[i] {
      SetTableFontAsWrittenAt(t, i);
    }
    assert r.rows == q.rows;
  }

  /** The table pass keeps every colour, so once it has gone through, the
      cell writes of the fill meet only runs with an RGB colour. */
  lemma SetTableFontKeepsRgb(t: Table)
    requires TableRgb(t)
    ensures TableRgb(SetTableFont(t))
  {
    var r := SetTableFont(t);
    forall i, j | 0 <= i < |r.rows| && 0 <= j < |r.rows[i].cells|
      ensures ParagraphsRgb(r.rows[i].cells[j].paragraphs)
    {
      assert CellsRgb(t.rows[i].cells);
      assert ParagraphsRgb(t.rows[i].cells[j].paragraphs);
    }
  }

  /** `_set_shape_font` as written: none when the loop stops. */
  function SetShapeFontAsWritten(sh: Shape): (r: Option<Shape>)
    ensures r.Some? <==> ShapeRgb(sh)
    ensures r.Some? ==> r.value == SetShapeFont(sh)
  {
    match sh
    case TextShape(ps) =>
      var pass := RestyleParagraphsAsWritten(ps, true);
      if pass.1 then None
      else
        RestyleParagraphsAsWrittenAgrees(ps, true);
        Some(TextShape(pass.0))
    case _ => Some(sh)
  }

  lemma ShapesRgbCons(shapes: seq<Shape>)
    requires |shapes| > 0
    ensures ShapesRgb(shapes) <==> ShapeRgb(shapes[0]) && ShapesRgb(shapes[1..])
  {
    if ShapeRgb(shapes[0]) && ShapesRgb(shapes[1..]) {
      forall j | 0 <= j < |shapes| ensures ShapeRgb(shapes[j]) {
        if j > 0 {
          assert shapes[j] == shapes[1..][j - 1];
        }
      }
    }
  }

  /** The shape loop of one slide as written. */
  function SetShapesFontAsWritten(shapes: seq<Shape>): (r: Option<seq<Shape>>)
    ensures r.Some? <==> ShapesRgb(shapes)
    ensures r.Some? ==> Slide(r.value) == SetSlideFont(Slide(shapes))
    decreases |shapes|
  {
    if |shapes| == 0 then Some([])
    else
      ShapesRgbCons(shapes);
      match SetShapeFontAsWritten(shapes[0])
      case None => None
      case Some(sh) =>
        match SetShapesFontAsWritten(shapes[1..])
        case None => None
        case Some(rest) => Some([sh] + rest)
  }

  lemma DeckTextRgbCons(slides: seq<Slide>)
    requires |slides| > 0
    ensures DeckTextRgb(Presentation(slides))
        <==> ShapesRgb(slides[0].shapes) && DeckTextRgb(Presentation(slides[1..]))
  {
    if ShapesRgb(slides[0].shapes) && DeckTextRgb(Presentation(slides[1..])) {
      forall s | 0 <= s < |slides| ensures ShapesRgb(slides[s].shapes) {
        if s > 0 {
          assert slides[s] == slides[1..][s - 1];
        }
      }
    }
  }

  lemma EnsureConsistentFontsCons(slides: seq<Slide>)
    requires |slides| > 0
    ensures EnsureConsistentFonts(Presentation(slides)).slides
         == [SetSlideFont(slides[0])] + EnsureConsistentFonts(Presentation(slides[1..])).slides
  {
    var a := EnsureConsistentFonts(Presentation(slides)).slides;
    var b := EnsureConsistentFonts(Presentation(slides[1..])).slides;
    forall s | 1 <= s < |slides| ensures a[s] == b[s - 1] {
      assert slides[s] == slides[1..][s - 1];
    }
  }

  /** The slide loop of `_ensure_consistent_fonts` as written. */
  function SetSlidesFontAsWritten(slides: seq<Slide>): (r: Option<seq<Slide>>)
    ensures r.Some? <==> DeckTextRgb(Presentation(slides))
    ensures r.Some? ==> r.value == EnsureConsistentFonts(Presentation(slides)).slides
    decreases |slides|
  {
    if |slides| == 0 then Some([])
    else
      DeckTextRgbCons(slides);
      EnsureConsistentFontsCons(slides);
      match SetShapesFontAsWritten(slides[0].shapes)
      case None => None
      case Some(shapes) =>
        match SetSlidesFontAsWritten(slides[1..])
        case None => None
        case Some(rest) => Some([Slide(shapes)] + rest)
  }

  /** `_ensure_consistent_fonts` as written: the deck comes through exactly
      when every run of every text shape has an RGB colour, and then it is
      the deck of the corrected pass. Otherwise the exception reaches
      `create_kp_presentation`, so the half-restyled deck is never used. */
  function EnsureConsistentFontsAsWritten(d: Presentation): (r: Option<Presentation>)
    ensures r.Some? <==> DeckTextRgb(d)
    ensures r.Some? ==> r.value == EnsureConsistentFonts(d)
  {
    match SetSlidesFontAsWritten(d.slides)
    case None => None
    case Some(slides) => Some(Presentation(slides))
  }

  // ---------------------------------------------------------------------------
  // Properties
  // ---------------------------------------------------------------------------

  /** Runs with the same texts have the same joined text. */
  lemma {:induction false} SameRunTexts(a: seq<Run>, b: seq<Run>)
    requires |a| == |b| && forall j :: 0 <= j < |a| ==> a[j].text == b[j].text
    ensures RunsText(a) == RunsText(b)
    decreases |a|
  {
    if |a| > 0 {
      SameRunTexts(a[1..], b[1..]);
    }
  }

  /** A font pass never changes the text of a frame, so it cannot make a
      marker appear or disappear. */
  lemma RestyledKeepsText(a: seq<Paragraph>, b: seq<Paragraph>)
    requires ParagraphsRestyledFrom(a, b)
    ensures FrameText(a) == FrameText(b)
  {
    forall i | 0 <= i < |a| ensures ParagraphText(a[i]) == ParagraphText(b[i]) {
      SameRunTexts(a[i].runs, b[i].runs);
    }
    assert seq(|a|, i requires 0 <= i < |a| => ParagraphText(a[i]))
        == seq(|b|, i requires 0 <= i < |b| => ParagraphText(b[i]));
  }

  lemma RestyleParagraphsIdempotent(ps: seq<Paragraph>, u1: bool, u2: bool)
    ensures RestyleParagraphs(RestyleParagraphs(ps, u1), u2) == RestyleParagraphs(ps, u1)
  {
    var once := RestyleParagraphs(ps, u1);
    var twice := RestyleParagraphs(once, u2);
    forall i | 0 <= i < |ps| ensures twice[i] == once[i] {
      forall j | 0 <= j < |ps[i].runs| ensures twice[i].runs[j] == once[i].runs[j] {
        RestyleIdempotent(ps[i].runs[j].font, u1, u2);
      }
    }
  }

  /** The deck font pass is idempotent: running it twice gives the same
      deck as running it once. */
  lemma EnsureConsistentFontsIdempotent(d: Presentation)
    ensures EnsureConsistentFonts(EnsureConsistentFonts(d)) == EnsureConsistentFonts(d)
  {
    var once := EnsureConsistentFonts(d);
    var twice := EnsureConsistentFonts(once);
    forall s | 0 <= s < |d.slides| ensures twice.slides[s] == once.slides[s] {
      forall j | 0 <= j < |d.slides[s].shapes| ensures twice.slides[s].shapes[j] == once.slides[s].shapes[j] {
        var sh := d.slides[s].shapes[j];
        if sh.TextShape? {
          RestyleParagraphsIdempotent(sh.paragraphs, true, true);
        }
      }
    }
  }

  /** The table font pass is idempotent too. */
  lemma SetTableFontIdempotent(t: Table)
    ensures SetTableFont(SetTableFont(t)) == SetTableFont(t)
  {
    var once := SetTableFont(t);
    var twice := SetTableFont(once);
    forall i | 0 <= i < |t.rows| ensures twice.rows[i] == once.rows[i] {
      forall j | 0 <= j < |t.rows[i].cells| ensures twice.rows[i].cells[j] == once.rows[i].cells[j] {
        RestyleParagraphsIdempotent(t.rows[i].cells[j].paragraphs, false, false);
      }
    }
  }
}
