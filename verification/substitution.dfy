/** Text substitutions that keep a run's formatting: the company-name
    replacement on the title slide and the per-cell replacement used by the
    pricing table. */
module Substitution {
  import opened Wrappers
  import opened Text
  import opened Deck

  /** The placeholder the title slide carries where the company name goes. */
  const CompanyPlaceholder: string := "Название"

  // ---------------------------------------------------------------------------
  // Locating the first shape that contains a marker
  // ---------------------------------------------------------------------------

  /** The index of the first shape, in order, whose text contains
      `marker`. */
  function FirstMarkedShape(shapes: seq<Shape>, marker: string): (r: Option<nat>)
    ensures r.Some? ==> r.value < |shapes| && ShapeHasText(shapes[r.value], marker)
    ensures r.Some? ==> forall k :: 0 <= k < r.value ==> !ShapeHasText(shapes[k], marker)
    ensures r.None? ==> forall k :: 0 <= k < |shapes| ==> !ShapeHasText(shapes[k], marker)
    decreases |shapes|
  {
    if |shapes| == 0 then None
    else if ShapeHasText(shapes[0], marker) then Some(0)
    else
      match FirstMarkedShape(shapes[1..], marker)
      case None => None
      case Some(k) => Some(k + 1)
  }

  // ---------------------------------------------------------------------------
  // _safe_text_replace and _replace_company_name
  // ---------------------------------------------------------------------------

  /** What `_safe_text_replace` does to one run: a run containing `pat` has
      every occurrence replaced and is restyled; any other run is left as
      it is. */
  function ReplaceInRun(run: Run, pat: string, rep: string): Run {
    if Contains(run.text, pat) then Run(ReplaceAll(run.text, pat, rep), Restyle(run.font, true))
    else run
  }

  /** `_safe_text_replace` over a text frame. Runs are treated one by one, so
      a placeholder spread over several runs is never replaced. */
  function SafeTextReplace(ps: seq<Paragraph>, pat: string, rep: string): (r: seq<Paragraph>)
    ensures |r| == |ps|
    ensures forall i :: 0 <= i < |ps| ==> |r[i].runs| == |ps[i].runs|
    ensures forall i, j :: 0 <= i < |ps| && 0 <= j < |ps[i].runs| ==>
      var a := ps[i].runs[j];
      var b := r[i].runs[j];
      if Contains(a.text, pat)
      then b.text == ReplaceAll(a.text, pat, rep) && b.font.name == Some(PrimaryFont) && SameFormatting(a.font, b.font)
      else b == a
  {
    seq(|ps|, i requires 0 <= i < |ps| =>
      Paragraph(seq(|ps[i].runs|, j requires 0 <= j < |ps[i].runs| => ReplaceInRun(ps[i].runs[j], pat, rep))))
  }

  /** When no single run holds the placeholder the frame is left exactly as
      it was, even if the frame's text as a whole contains it. */
  lemma SplitPlaceholderUnchanged(ps: seq<Paragraph>, pat: string, rep: string)
    requires forall i, j :: 0 <= i < |ps| && 0 <= j < |ps[i].runs| ==> !Contains(ps[i].runs[j].text, pat)
    ensures SafeTextReplace(ps, pat, rep) == ps
  {
    var r := SafeTextReplace(ps, pat, rep);
    forall i | 0 <= i < |ps| ensures r[i] == ps[i] {
      assert r[i].runs == ps[i].runs;
    }
  }

  /** A concrete split placeholder: the title reads `Название` but the word
      is spread over two runs, so nothing is replaced. */
  lemma SplitPlaceholderExample(f: Font)
    ensures
      var ps := [Paragraph([Run("Назв", f), Run("ание", f)])];
      && Contains(FrameText(ps), CompanyPlaceholder)
      && SafeTextReplace(ps, CompanyPlaceholder, "ООО Ромашка") == ps
  {
    var ps := [Paragraph([Run("Назв", f), Run("ание", f)])];
    assert RunsText(ps[0].runs) == "Название" by {
      assert ps[0].runs[1..] == [Run("ание", f)];
      assert ps[0].runs[1..][1..] == [];
      assert RunsText([Run("ание", f)]) == "ание" + RunsText([]);
      assert "Назв" + "ание" + "" == "Название";
    }
    assert FrameText(ps) == "Название" by {
      assert seq(|ps|, i requires 0 <= i < |ps| => ParagraphText(ps[i])) == ["Название"];
    }
    assert CompanyPlaceholder <= FrameText(ps);
    NotContainedWhenShorter("Назв", CompanyPlaceholder);
    NotContainedWhenShorter("ание", CompanyPlaceholder);
    SplitPlaceholderUnchanged(ps, CompanyPlaceholder, "ООО Ромашка");
  }

  /** A text shorter than `p` cannot contain `p`. */
  lemma {:induction false} NotContainedWhenShorter(s: string, p: string)
    requires |s| < |p|
    ensures !Contains(s, p)
    decreases |s|
  {
    if |s| > 0 {
      NotContainedWhenShorter(s[1..], p);
    }
  }

  /** `_replace_company_name`: on the first slide only, the first shape
      whose text contains the placeholder has it replaced run by run; every
      other shape and every other slide is untouched, and a deck without
      slides or without such a shape comes back unchanged. */
  function ReplaceCompanyName(d: Presentation, name: string): (r: Presentation)
    ensures |r.slides| == |d.slides|
    ensures forall s :: 1 <= s < |d.slides| ==> r.slides[s] == d.slides[s]
    ensures |d.slides| > 0 ==> |r.slides[0].shapes| == |d.slides[0].shapes|
    ensures |d.slides| > 0 ==> forall k :: 0 <= k < |d.slides[0].shapes| ==>
      var a := d.slides[0].shapes[k];
      var b := r.slides[0].shapes[k];
      if ShapeHasText(a, CompanyPlaceholder)
         && forall k' :: 0 <= k' < k ==> !ShapeHasText(d.slides[0].shapes[k'], CompanyPlaceholder)
      then b == TextShape(SafeTextReplace(a.paragraphs, CompanyPlaceholder, name))
      else b == a
  {
    if |d.slides| == 0 then d
    else
      var shapes := d.slides[0].shapes;
      match FirstMarkedShape(shapes, CompanyPlaceholder)
      case None => d
      case Some(k) =>
        var replaced := TextShape(SafeTextReplace(shapes[k].paragraphs, CompanyPlaceholder, name));
        Presentation(d.slides[0 := Slide(shapes[k := replaced])])
  }

  /** Without a placeholder on the first slide the deck is unchanged. */
  lemma CompanyNameAbsentIsNoOp(d: Presentation, name: string)
    requires |d.slides| > 0
    requires forall k :: 0 <= k < |d.slides[0].shapes| ==> !ShapeHasText(d.slides[0].shapes[k], CompanyPlaceholder)
    ensures ReplaceCompanyName(d, name) == d
  {
  }

  // ---------------------------------------------------------------------------
  // _safe_cell_replace
  // ---------------------------------------------------------------------------

  /** The test `old_text in run.text or run.text.strip()`. */
  predicate Qualifies(run: Run, pat: string) {
    Contains(run.text, pat) || Strip(run.text) != []
  }

  /** Position `(i', j')` comes before `(i, j)` in paragraph/run order. */
  predicate Before(i': int, j': int, i: int, j: int) {
    i' < i || (i' == i && j' < j)
  }

  function FirstQualifyingRun(runs: seq<Run>, pat: string): (r: Option<nat>)
    ensures r.Some? ==> r.value < |runs| && Qualifies(runs[r.value], pat)
    ensures r.Some? ==> forall j :: 0 <= j < r.value ==> !Qualifies(runs[j], pat)
    ensures r.None? ==> forall j :: 0 <= j < |runs| ==> !Qualifies(runs[j], pat)
    decreases |runs|
  {
    if |runs| == 0 then None
    else if Qualifies(runs[0], pat) then Some(0)
    else
      match FirstQualifyingRun(runs[1..], pat)
      case None => None
      case Some(j) => Some(j + 1)
  }

  /** The first run, in paragraph/run order, that contains `pat` or is not
      blank. */
  function FirstQualifying(ps: seq<Paragraph>, pat: string): (r: Option<(nat, nat)>)
    ensures r.Some? ==> r.value.0 < |ps| && r.value.1 < |ps[r.value.0].runs|
    ensures r.Some? ==> Qualifies(ps[r.value.0].runs[r.value.1], pat)
    ensures r.Some? ==> forall i, j ::
      0 <= i < |ps| && 0 <= j < |ps[i].runs| && Before(i, j, r.value.0, r.value.1) ==> !Qualifies(ps[i].runs[j], pat)
    ensures r.None? ==> forall i, j :: 0 <= i < |ps| && 0 <= j < |ps[i].runs| ==> !Qualifies(ps[i].runs[j], pat)
    decreases |ps|
  {
    if |ps| == 0 then None
    else
      match FirstQualifyingRun(ps[0].runs, pat)
      case Some(j) => Some((0, j))
      case None =>
        match FirstQualifying(ps[1..], pat)
        case None => None
        case Some(loc) => Some((loc.0 + 1, loc.1))
  }

  /** `b` equals `a` except, possibly, at run `(i, j)`. */
  predicate OnlyRunChanged(a: seq<Paragraph>, b: seq<Paragraph>, i: int, j: int) {
    && |a| == |b|
    && (forall p :: 0 <= p < |a| ==> |a[p].runs| == |b[p].runs|)
    && forall p, q :: 0 <= p < |a| && 0 <= q < |a[p].runs| && (p, q) != (i, j) ==> b[p].runs[q] == a[p].runs[q]
  }

  /** `_safe_cell_replace`: exactly the first qualifying run gets the new
      text and the primary font with its formatting kept; every other run is
      untouched, and when no run qualifies the cell is unchanged. */
  function SafeCellReplace(c: Cell, pat: string, rep: string): (r: Cell)
    ensures FirstQualifying(c.paragraphs, pat).None? ==> r == c
    ensures FirstQualifying(c.paragraphs, pat).Some? ==>
      var (i, j) := FirstQualifying(c.paragraphs, pat).value;
      && OnlyRunChanged(c.paragraphs, r.paragraphs, i, j)
      && r.paragraphs[i].runs[j].text == rep
      && r.paragraphs[i].runs[j].font.name == Some(PrimaryFont)
      && SameFormatting(c.paragraphs[i].runs[j].font, r.paragraphs[i].runs[j].font)
  {
    match FirstQualifying(c.paragraphs, pat)
    case None => c
    case Some((i, j)) =>
      var p := c.paragraphs[i];
      var run := Run(rep, Restyle(p.runs[j].font, true));
      Cell(c.paragraphs[i := Paragraph(p.runs[j := run])])
  }

  /** The rewrite a filled cell receives: `_safe_cell_replace(cell,
      cell.text, text)`. */
  function Rewrite(c: Cell, text: string): Cell {
    SafeCellReplace(c, CellText(c), text)
  }

  /** A cell made of one run, as the template's cells are, ends up holding
      exactly the new text. */
  lemma SingleRunCellRewritten(run: Run, text: string)
    ensures Rewrite(Cell([Paragraph([run])]), text) == Cell([Paragraph([Run(text, Restyle(run.font, true))])])
    ensures CellText(Rewrite(Cell([Paragraph([run])]), text)) == text
  {
    var c := Cell([Paragraph([run])]);
    assert RunsText([run]) == run.text by {
      assert [run][1..] == [];
    }
    assert CellText(c) == run.text by {
      assert seq(1, i requires 0 <= i < 1 => ParagraphText(c.paragraphs[i])) == [run.text];
    }
    assert run.text <= run.text;
    assert Qualifies(run, CellText(c));
    assert FirstQualifyingRun([run], CellText(c)) == Some(0);
    assert FirstQualifying(c.paragraphs, CellText(c)) == Some((0, 0));
    var r := Rewrite(c, text);
    var nr := Run(text, Restyle(run.font, true));
    assert r == SafeCellReplace(c, CellText(c), text);
    assert [run][0 := nr] == [nr];
    assert r == Cell([Paragraph([nr])]);
    assert RunsText([nr]) == text by {
      assert [nr][1..] == [];
    }
    assert seq(1, i requires 0 <= i < 1 => ParagraphText(r.paragraphs[i])) == [text];
  }

  /** A cell without runs (an empty template cell) is never written. */
  lemma RunlessCellUnchanged(ps: seq<Paragraph>, text: string)
    requires forall i :: 0 <= i < |ps| ==> ps[i].runs == []
    ensures Rewrite(Cell(ps), text) == Cell(ps)
  {
  }

  /** With an empty pattern every run qualifies, so a cell whose text is
      empty but which has runs gets the new text in its very first run. */
  lemma EmptyCellTakesFirstRun(ps: seq<Paragraph>, text: string)
    requires CellText(Cell(ps)) == ""
    requires |ps| > 0 && |ps[0].runs| > 0
    ensures Rewrite(Cell(ps), text).paragraphs[0].runs[0].text == text
  {
    var q := FirstQualifyingRun(ps[0].runs, "");
    assert q == Some(0);
    var r := FirstQualifying(ps, "");
    assert r == Some((0, 0));
  }

  // ---------------------------------------------------------------------------
  // The text passes as written: reading the colour of a run without an RGB
  // value raises, which stops the pass at that run (see the findings in README)
  // ---------------------------------------------------------------------------

  /** A run a frame pass raises at: one it touches whose colour has no RGB
      value. */
  predicate StopsAt(run: Run, touch: Run -> bool) {
    touch(run) && !HasRgb(run)
  }

  function FirstStopRun(runs: seq<Run>, touch: Run -> bool): (r: Option<nat>)
    ensures r.Some? ==> r.value < |runs| && StopsAt(runs[r.value], touch)
    ensures r.Some? ==> forall j :: 0 <= j < r.value ==> !StopsAt(runs[j], touch)
    ensures r.None? ==> forall j :: 0 <= j < |runs| ==> !StopsAt(runs[j], touch)
    decreases |runs|
  {
    if |runs| == 0 then None
    else if StopsAt(runs[0], touch) then Some(0)
    else
      match FirstStopRun(runs[1..], touch)
      case None => None
      case Some(j) => Some(j + 1)
  }

  /** The first run, in paragraph/run order, that a frame pass raises at. */
  function FirstStop(ps: seq<Paragraph>, touch: Run -> bool): (r: Option<(nat, nat)>)
    ensures r.Some? ==> r.value.0 < |ps| && r.value.1 < |ps[r.value.0].runs|
    ensures r.Some? ==> StopsAt(ps[r.value.0].runs[r.value.1], touch)
    ensures r.Some? ==> forall i, j ::
      0 <= i < |ps| && 0 <= j < |ps[i].runs| && Before(i, j, r.value.0, r.value.1) ==> !StopsAt(ps[i].runs[j], touch)
    ensures r.None? ==> forall i, j :: 0 <= i < |ps| && 0 <= j < |ps[i].runs| ==> !StopsAt(ps[i].runs[j], touch)
    decreases |ps|
  {
    if |ps| == 0 then None
    else
      match FirstStopRun(ps[0].runs, touch)
      case Some(j) => Some((0, j))
      case None =>
        match FirstStop(ps[1..], touch)
        case None => None
        case Some(loc) => Some((loc.0 + 1, loc.1))
  }

  /** Whether a pass that raises at `stop`, if anywhere, gets to run `(i, j)`. */
  predicate Reached(stop: Option<(nat, nat)>, i: int, j: int) {
    stop.None? || Before(i, j, stop.value.0, stop.value.1)
  }

  /** A frame pass as written: in paragraph/run order each touched run gets
      `step`, until the pass raises at the first touched run without an RGB
      colour; that run and every later one are left as they were. The flag
      says whether it raised. */
  function FramePassAsWritten(ps: seq<Paragraph>, touch: Run -> bool, step: Run -> Run): (r: (seq<Paragraph>, bool))
    ensures r.1 <==> exists i, j :: 0 <= i < |ps| && 0 <= j < |ps[i].runs| && StopsAt(ps[i].runs[j], touch)
    ensures |r.0| == |ps| && forall i :: 0 <= i < |ps| ==> |r.0[i].runs| == |ps[i].runs|
    ensures forall i, j :: 0 <= i < |ps| && 0 <= j < |ps[i].runs| ==>
      r.0[i].runs[j] == if Reached(FirstStop(ps, touch), i, j) && touch(ps[i].runs[j]) then step(ps[i].runs[j]) else ps[i].runs[j]
  {
    var stop := FirstStop(ps, touch);
    (seq(|ps|, i requires 0 <= i < |ps| =>
       Paragraph(seq(|ps[i].runs|, j requires 0 <= j < |ps[i].runs| =>
         if Reached(stop, i, j) && touch(ps[i].runs[j]) then step(ps[i].runs[j]) else ps[i].runs[j]))),
     stop.Some?)
  }

  /** Two frames with the same paragraphs and runs, position by position,
      are equal. */
  lemma SameRunsSameFrame(a: seq<Paragraph>, b: seq<Paragraph>)
    requires |a| == |b| && forall i :: 0 <= i < |a| ==> |a[i].runs| == |b[i].runs|
    requires forall i, j :: 0 <= i < |a| && 0 <= j < |a[i].runs| ==> a[i].runs[j] == b[i].runs[j]
    ensures a == b
  {
    forall i | 0 <= i < |a| ensures a[i] == b[i] {
      assert a[i].runs == b[i].runs;
    }
  }

  /** The runs `_safe_text_replace` touches: those holding `pat`. */
  function HoldsText(pat: string): Run -> bool {
    (run: Run) => Contains(run.text, pat)
  }

  function ReplaceStep(pat: string, rep: string): Run -> Run {
    (run: Run) => ReplaceInRun(run, pat, rep)
  }

  /** `_safe_text_replace` as written: the runs holding `pat` are rewritten
      in order until one of them has no RGB colour; the source raises there
      and that run and every later one stay as they were. It raises iff such
      a run exists, and otherwise it is the corrected replacement. */
  function SafeTextReplaceAsWritten(ps: seq<Paragraph>, pat: string, rep: string): (r: (seq<Paragraph>, bool))
    ensures r.1 <==> exists i, j :: 0 <= i < |ps| && 0 <= j < |ps[i].runs|
                                   && Contains(ps[i].runs[j].text, pat) && !HasRgb(ps[i].runs[j])
    ensures !r.1 ==> r.0 == SafeTextReplace(ps, pat, rep)
    ensures r.1 ==>
      var (si, sj) := FirstStop(ps, HoldsText(pat)).value;
      && Contains(ps[si].runs[sj].text, pat) && !HasRgb(ps[si].runs[sj])
      && |r.0| == |ps| && (forall i :: 0 <= i < |ps| ==> |r.0[i].runs| == |ps[i].runs|)
      && forall i, j :: 0 <= i < |ps| && 0 <= j < |ps[i].runs| ==>
           r.0[i].runs[j] == if Before(i, j, si, sj) then SafeTextReplace(ps, pat, rep)[i].runs[j] else ps[i].runs[j]
  {
    var r := FramePassAsWritten(ps, HoldsText(pat), ReplaceStep(pat, rep));
    if r.1 then r
    else
      SameRunsSameFrame(r.0, SafeTextReplace(ps, pat, rep));
      r
  }

  /** A frame whose runs all have an RGB colour is never cut short. */
  lemma SafeTextReplaceAsWrittenAgrees(ps: seq<Paragraph>, pat: string, rep: string)
    requires ParagraphsRgb(ps)
    ensures SafeTextReplaceAsWritten(ps, pat, rep) == (SafeTextReplace(ps, pat, rep), false)
  {
  }

  /** `_replace_company_name` as written: the replacement in the marked
      shape stops at a run holding the placeholder without an RGB colour,
      and the handler catches the error, so the deck keeps the runs
      rewritten before it. On a deck whose text runs all have an RGB colour
      it is the corrected replacement. */
  function ReplaceCompanyNameAsWritten(d: Presentation, name: string): (r: Presentation)
    ensures |r.slides| == |d.slides|
    ensures forall s :: 1 <= s < |d.slides| ==> r.slides[s] == d.slides[s]
    ensures |d.slides| > 0 ==>
      match FirstMarkedShape(d.slides[0].shapes, CompanyPlaceholder)
      case None => r == d
      case Some(k) =>
        r.slides[0].shapes
          == d.slides[0].shapes[k := TextShape(SafeTextReplaceAsWritten(d.slides[0].shapes[k].paragraphs, CompanyPlaceholder, name).0)]
    ensures DeckTextRgb(d) ==> r == ReplaceCompanyName(d, name)
  {
    if |d.slides| == 0 then d
    else
      var shapes := d.slides[0].shapes;
      match FirstMarkedShape(shapes, CompanyPlaceholder)
      case None => d
      case Some(k) =>
        var replaced := TextShape(SafeTextReplaceAsWritten(shapes[k].paragraphs, CompanyPlaceholder, name).0);
        var r := Presentation(d.slides[0 := Slide(shapes[k := replaced])]);
        if !DeckTextRgb(d) then r
        else
          assert ShapesRgb(shapes);
          assert ShapeRgb(shapes[k]);
          SafeTextReplaceAsWrittenAgrees(shapes[k].paragraphs, CompanyPlaceholder, name);
          r
  }

  /** `_safe_cell_replace` as written: it raises when the first qualifying
      run has no RGB colour, before the text is written, so the cell stays
      as it was. It raises iff that run lacks one, and otherwise it is the
      corrected write. */
  function SafeCellReplaceAsWritten(c: Cell, pat: string, rep: string): (r: (Cell, bool))
    ensures r.1 <==> match FirstQualifying(c.paragraphs, pat)
                     case None => false
                     case Some((i, j)) => !HasRgb(c.paragraphs[i].runs[j])
    ensures r.1 ==> r.0 == c
    ensures !r.1 ==> r.0 == SafeCellReplace(c, pat, rep)
  {
    match FirstQualifying(c.paragraphs, pat)
    case None => (c, false)
    case Some((i, j)) =>
      if !HasRgb(c.paragraphs[i].runs[j]) then (c, true) else (SafeCellReplace(c, pat, rep), false)
  }

  /** A cell whose runs all have an RGB colour is always written. */
  lemma SafeCellReplaceAsWrittenAgrees(c: Cell, pat: string, rep: string)
    requires ParagraphsRgb(c.paragraphs)
    ensures SafeCellReplaceAsWritten(c, pat, rep) == (SafeCellReplace(c, pat, rep), false)
  {
    match FirstQualifying(c.paragraphs, pat)
    case None =>
    case Some((i, j)) =>
      assert RunsRgb(c.paragraphs[i].runs);
  }
}
