/** The slide deck as plain data: slides hold shapes; a text shape holds
    paragraphs of runs, a table shape holds rows of cells, and each cell
    holds paragraphs of runs again. A run is a piece of text together with
    its font. */
module Deck {
  import opened Wrappers
  import opened Text

  /** The font every substitution and font pass writes. */
  const PrimaryFont: string := "Montserrat"

  /** The font of one run. Each attribute may be unset (inherited), which
      `None` stands for; sizes and colours are kept as opaque numbers. */
  datatype Font = Font(
    name: Option<string>,
    size: Option<nat>,
    bold: Option<bool>,
    italic: Option<bool>,
    underline: Option<bool>,
    color: Option<nat>)

  datatype Run = Run(text: string, font: Font)

  datatype Paragraph = Paragraph(runs: seq<Run>)

  datatype Cell = Cell(paragraphs: seq<Paragraph>)

  datatype Row = Row(cells: seq<Cell>)

  datatype Table = Table(rows: seq<Row>)

  /** A shape with a text frame, a table frame, or anything else (a picture,
      a group) which none of the passes reads or writes. */
  datatype Shape =
    | TextShape(paragraphs: seq<Paragraph>)
    | TableShape(table: Table)
    | OtherShape

  datatype Slide = Slide(shapes: seq<Shape>)

  datatype Presentation = Presentation(slides: seq<Slide>)

  // ---------------------------------------------------------------------------
  // Text of a container, as the library reports it
  // ---------------------------------------------------------------------------

  /** The text of a paragraph: its runs one after another. */
  function ParagraphText(p: Paragraph): string {
    RunsText(p.runs)
  }

  function RunsText(runs: seq<Run>): string
    decreases |runs|
  {
    if |runs| == 0 then "" else runs[0].text + RunsText(runs[1..])
  }

  /** The text of a text frame or a cell: paragraphs joined by line feeds. */
  function FrameText(ps: seq<Paragraph>): string {
    Join(seq(|ps|, i requires 0 <= i < |ps| => ParagraphText(ps[i])), "\n")
  }

  function CellText(c: Cell): string {
    FrameText(c.paragraphs)
  }

  /** A shape whose text contains `marker`; only text shapes have text. */
  predicate ShapeHasText(sh: Shape, marker: string) {
    sh.TextShape? && Contains(FrameText(sh.paragraphs), marker)
  }

  // ---------------------------------------------------------------------------
  // Runs with an explicit RGB colour
  // ---------------------------------------------------------------------------

  /** A run whose colour is an explicit RGB value. The source reads
      `run.font.color.rgb` before testing it, and python-pptx raises on that
      read for an inherited or theme colour. */
  predicate HasRgb(r: Run) {
    r.font.color.Some?
  }

  predicate RunsRgb(runs: seq<Run>) {
    forall j :: 0 <= j < |runs| ==> HasRgb(runs[j])
  }

  predicate ParagraphsRgb(ps: seq<Paragraph>) {
    forall i :: 0 <= i < |ps| ==> RunsRgb(ps[i].runs)
  }

  predicate CellsRgb(cells: seq<Cell>) {
    forall j :: 0 <= j < |cells| ==> ParagraphsRgb(cells[j].paragraphs)
  }

  predicate RowsRgb(rows: seq<Row>) {
    forall i :: 0 <= i < |rows| ==> CellsRgb(rows[i].cells)
  }

  /** Every run of every cell of the table has an RGB colour. */
  predicate TableRgb(t: Table) {
    RowsRgb(t.rows)
  }

  /** A shape the deck pass gets through: a text shape only when each of its
      runs has an RGB colour. */
  predicate ShapeRgb(sh: Shape) {
    sh.TextShape? ==> ParagraphsRgb(sh.paragraphs)
  }

  predicate ShapesRgb(shapes: seq<Shape>) {
    forall j :: 0 <= j < |shapes| ==> ShapeRgb(shapes[j])
  }

  /** Every run of every text shape of the deck has an RGB colour. */
  predicate DeckTextRgb(d: Presentation) {
    forall s :: 0 <= s < |d.slides| ==> ShapesRgb(d.slides[s].shapes)
  }

  // ---------------------------------------------------------------------------
  // Capture and restore of formatting around a change
  // ---------------------------------------------------------------------------

  /** The attributes read before a run is changed. */
  datatype SavedFormat = SavedFormat(
    size: Option<nat>,
    bold: Option<bool>,
    italic: Option<bool>,
    underline: Option<bool>,
    color: Option<nat>)

  function Capture(f: Font): SavedFormat {
    SavedFormat(f.size, f.bold, f.italic, f.underline, f.color)
  }

  /** Writes the saved attributes back: a size only when it is set and
      non-zero, bold and italic always, underline only in the passes that
      save it, and a colour only when one was set. */
  function Reapply(f: Font, saved: SavedFormat, withUnderline: bool): Font {
    var f1 := if saved.size.Some? && saved.size.value != 0 then f.(size := saved.size) else f;
    var f2 := f1.(bold := saved.bold, italic := saved.italic);
    var f3 := if withUnderline then f2.(underline := saved.underline) else f2;
    if saved.color.Some? then f3.(color := saved.color) else f3
  }

  /** Every attribute but the font name agrees. */
  predicate SameFormatting(a: Font, b: Font) {
    a.size == b.size && a.bold == b.bold && a.italic == b.italic
    && a.underline == b.underline && a.color == b.color
  }

  /** The capture / set-name / restore sequence every pass performs on a
      run: the name becomes the primary font and nothing else changes. */
  function Restyle(f: Font, withUnderline: bool): (r: Font)
    ensures r.name == Some(PrimaryFont)
    ensures SameFormatting(f, r)
  {
    Reapply(f.(name := Some(PrimaryFont)), Capture(f), withUnderline)
  }

  /** Restyling is the same whether or not the underline is written back,
      and doing it twice is doing it once. */
  lemma RestyleIdempotent(f: Font, u1: bool, u2: bool)
    ensures Restyle(Restyle(f, u1), u2) == Restyle(f, u1)
    ensures Restyle(f, u1) == Restyle(f, u2)
  {
  }
}
