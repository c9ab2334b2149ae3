/** `_update_price_text`: the price summary above the calculation table is
    rewritten with the formatted grand total, in the first shape of the
    deck that carries the summary caption. */
module PriceText {
  import opened Wrappers
  import opened Text
  import opened Money
  import opened Deck
  import opened Substitution
  import opened PricePattern

  /** The caption that identifies the price summary shape. */
  const PriceMarker: string := "Стоимость HRlink на 12 месяцев"

  /** The slide and shape index of the first shape in deck order whose text
      contains `marker`. */
  function FirstMarkedInDeck(slides: seq<Slide>, marker: string): (r: Option<(nat, nat)>)
    ensures r.Some? ==>
      var (s, j) := r.value;
      && s < |slides| && j < |slides[s].shapes|
      && FirstMarkedShape(slides[s].shapes, marker) == Some(j)
      && forall s' :: 0 <= s' < s ==> FirstMarkedShape(slides[s'].shapes, marker).None?
    ensures r.None? ==> forall s :: 0 <= s < |slides| ==> FirstMarkedShape(slides[s].shapes, marker).None?
    decreases |slides|
  {
    if |slides| == 0 then None
    else
      match FirstMarkedShape(slides[0].shapes, marker)
      case Some(j) => Some((0, j))
      case None =>
        match FirstMarkedInDeck(slides[1..], marker)
        case None => None
        case Some(p) => Some((p.0 + 1, p.1))
  }

  /** One run of the summary shape: a run holding a price literal has every
      literal replaced by `price` and is restyled; any other run is left as
      it is. */
  function UpdatePriceInRun(run: Run, price: string): Run {
    if Search(run.text) then Run(Substitute(run.text, price), Restyle(run.font, true)) else run
  }

  /** The loop over the paragraphs and runs of the summary shape. */
  function UpdatePriceInFrame(ps: seq<Paragraph>, price: string): (r: seq<Paragraph>)
    ensures |r| == |ps|
    ensures forall i :: 0 <= i < |ps| ==> |r[i].runs| == |ps[i].runs|
    ensures forall i, j :: 0 <= i < |ps| && 0 <= j < |ps[i].runs| ==>
      var a := ps[i].runs[j];
      var b := r[i].runs[j];
      if Search(a.text)
      then b.text == Substitute(a.text, price) && b.font.name == Some(PrimaryFont) && SameFormatting(a.font, b.font)
      else b == a
  {
    seq(|ps|, i requires 0 <= i < |ps| =>
      Paragraph(seq(|ps[i].runs|, j requires 0 <= j < |ps[i].runs| => UpdatePriceInRun(ps[i].runs[j], price))))
  }

  /** `_update_price_text`: only the first shape of the deck whose text
      contains the caption is touched, and in it only the runs that hold a
      price; a deck without the caption comes back unchanged. */
  function UpdatePriceText(d: Presentation, total: int): (r: Presentation)
    ensures FirstMarkedInDeck(d.slides, PriceMarker).None? ==> r == d
    ensures FirstMarkedInDeck(d.slides, PriceMarker).Some? ==>
      var (s, j) := FirstMarkedInDeck(d.slides, PriceMarker).value;
      && |r.slides| == |d.slides|
      && (forall s' :: 0 <= s' < |d.slides| && s' != s ==> r.slides[s'] == d.slides[s'])
      && |r.slides[s].shapes| == |d.slides[s].shapes|
      && (forall j' :: 0 <= j' < |d.slides[s].shapes| && j' != j ==> r.slides[s].shapes[j'] == d.slides[s].shapes[j'])
      && r.slides[s].shapes[j] == TextShape(UpdatePriceInFrame(d.slides[s].shapes[j].paragraphs, FormatMoney(total)))
  {
    match FirstMarkedInDeck(d.slides, PriceMarker)
    case None => d
    case Some((s, j)) =>
      var sh := d.slides[s].shapes[j];
      var updated := TextShape(UpdatePriceInFrame(sh.paragraphs, FormatMoney(total)));
      Presentation(d.slides[s := Slide(d.slides[s].shapes[j := updated])])
  }

  // ---------------------------------------------------------------------------
  // Properties
  // ---------------------------------------------------------------------------

  /** After a substitution by a price literal the text still holds one. */
  lemma {:induction false} SearchKept(s: string, f: string)
    requires IsPriceLiteral(f)
    requires Search(s)
    ensures Search(Substitute(s, f))
    decreases |s|
  {
    if MatchAt(s) {
      LiteralRun(f, Substitute(s[MatchLength(s)..], f));
    } else {
      SearchKept(s[1..], f);
      var y := Substitute(s[1..], f);
      assert ([s[0]] + y)[1..] == y;
    }
  }

  /** Writing the same total into the summary frame twice gives the same
      frame as writing it once. */
  lemma UpdatePriceInFrameIdempotent(ps: seq<Paragraph>, total: int)
    requires total >= 0
    ensures UpdatePriceInFrame(UpdatePriceInFrame(ps, FormatMoney(total)), FormatMoney(total))
         == UpdatePriceInFrame(ps, FormatMoney(total))
  {
    var f := FormatMoney(total);
    MoneyIsPriceLiteral(total);
    var once := UpdatePriceInFrame(ps, f);
    var twice := UpdatePriceInFrame(once, f);
    forall i | 0 <= i < |ps| ensures twice[i] == once[i] {
      forall j | 0 <= j < |ps[i].runs| ensures twice[i].runs[j] == once[i].runs[j] {
        var a := ps[i].runs[j];
        if Search(a.text) {
          SearchKept(a.text, f);
          SubstituteIdempotent(a.text, f);
          RestyleIdempotent(a.font, true, true);
        }
      }
    }
  }

  /** The price update on the whole deck is idempotent as long as the
      summary shape still shows its caption after the first update. */
  lemma UpdatePriceTextIdempotent(d: Presentation, total: int)
    requires total >= 0
    requires FirstMarkedInDeck(d.slides, PriceMarker).Some? ==>
      var (s, j) := FirstMarkedInDeck(d.slides, PriceMarker).value;
      Contains(FrameText(UpdatePriceInFrame(d.slides[s].shapes[j].paragraphs, FormatMoney(total))), PriceMarker)
    ensures UpdatePriceText(UpdatePriceText(d, total), total) == UpdatePriceText(d, total)
  {
    var once := UpdatePriceText(d, total);
    var found := FirstMarkedInDeck(d.slides, PriceMarker);
    if found.Some? {
      var (s, j) := found.value;
      var f := FormatMoney(total);
      var frame := UpdatePriceInFrame(d.slides[s].shapes[j].paragraphs, f);
      var shapes := d.slides[s].shapes[j := TextShape(frame)];
      assert once == Presentation(d.slides[s := Slide(shapes)]);
      FirstMarkedShapeKept(d.slides[s].shapes, j, TextShape(frame), PriceMarker);
      FirstMarkedInDeckIs(once.slides, PriceMarker, s, j);
      UpdatePriceInFrameIdempotent(d.slides[s].shapes[j].paragraphs, total);
      assert shapes[j := TextShape(UpdatePriceInFrame(frame, f))] == shapes;
    }
  }

  /** Replacing the first marked shape by another marked shape keeps it
      the first marked shape. */
  lemma FirstMarkedShapeKept(shapes: seq<Shape>, j: nat, sh: Shape, marker: string)
    requires FirstMarkedShape(shapes, marker) == Some(j)
    requires ShapeHasText(sh, marker)
    ensures FirstMarkedShape(shapes[j := sh], marker) == Some(j)
  {
    var shapes' := shapes[j := sh];
    assert forall k :: 0 <= k < j ==> shapes'[k] == shapes[k];
    FirstMarkedShapeIs(shapes', j, marker);
  }

  /** The shape finder answers `j` exactly when `j` is marked and no earlier
      shape is. */
  lemma {:induction false} FirstMarkedShapeIs(shapes: seq<Shape>, j: nat, marker: string)
    requires j < |shapes| && ShapeHasText(shapes[j], marker)
    requires forall k :: 0 <= k < j ==> !ShapeHasText(shapes[k], marker)
    ensures FirstMarkedShape(shapes, marker) == Some(j)
    decreases j
  {
    if j > 0 {
      FirstMarkedShapeIs(shapes[1..], j - 1, marker);
    }
  }

  /** The deck-level finder answers `(s, j)` exactly when no earlier slide
      has a marked shape and `j` is the first marked shape of slide `s`. */
  lemma {:induction false} FirstMarkedInDeckIs(slides: seq<Slide>, marker: string, s: nat, j: nat)
    requires s < |slides|
    requires FirstMarkedShape(slides[s].shapes, marker) == Some(j)
    requires forall s' :: 0 <= s' < s ==> FirstMarkedShape(slides[s'].shapes, marker).None?
    ensures FirstMarkedInDeck(slides, marker) == Some((s, j))
    decreases s
  {
    if s > 0 {
      FirstMarkedInDeckIs(slides[1..], marker, s - 1, j);
    }
  }

  /** A deck without the caption keeps its text whatever the total. */
  lemma NoCaptionNoChange(d: Presentation, total: int)
    requires forall s, k :: 0 <= s < |d.slides| && 0 <= k < |d.slides[s].shapes| ==>
      !ShapeHasText(d.slides[s].shapes[k], PriceMarker)
    ensures UpdatePriceText(d, total) == d
  {
  }

  // ---------------------------------------------------------------------------
  // As written: reading the colour of a run without an RGB value raises
  // (see the findings in README)
  // ---------------------------------------------------------------------------

  /** The runs `_update_price_text` touches: those holding a price literal. */
  const HoldsPrice: Run -> bool := (run: Run) => Search(run.text)

  function PriceStep(price: string): Run -> Run {
    (run: Run) => UpdatePriceInRun(run, price)
  }

  /** The run loop of `_update_price_text` as written: the runs holding a
      price are rewritten in order until one of them has no RGB colour; the
      source raises there and that run and every later one stay as they
      were. It raises iff such a run exists, and otherwise it is the
      corrected rewrite. */
  function UpdatePriceInFrameAsWritten(ps: seq<Paragraph>, price: string): (r: (seq<Paragraph>, bool))
    ensures r.1 <==> exists i, j :: 0 <= i < |ps| && 0 <= j < |ps[i].runs|
                                   && Search(ps[i].runs[j].text) && !HasRgb(ps[i].runs[j])
    ensures !r.1 ==> r.0 == UpdatePriceInFrame(ps, price)
    ensures r.1 ==>
      var (si, sj) := FirstStop(ps, HoldsPrice).value;
      && Search(ps[si].runs[sj].text) && !HasRgb(ps[si].runs[sj])
      && |r.0| == |ps| && (forall i :: 0 <= i < |ps| ==> |r.0[i].runs| == |ps[i].runs|)
      && forall i, j :: 0 <= i < |ps| && 0 <= j < |ps[i].runs| ==>
           r.0[i].runs[j] == if Before(i, j, si, sj) then UpdatePriceInFrame(ps, price)[i].runs[j] else ps[i].runs[j]
  {
    var r := FramePassAsWritten(ps, HoldsPrice, PriceStep(price));
    if r.1 then r
    else
      SameRunsSameFrame(r.0, UpdatePriceInFrame(ps, price));
      r
  }

  /** `_update_price_text` as written: the handler catches the error, so
      the captioned shape keeps the runs rewritten before the failing one.
      On a deck whose text runs all have an RGB colour it is the corrected
      update. */
  function UpdatePriceTextAsWritten(d: Presentation, total: int): (r: Presentation)
    ensures FirstMarkedInDeck(d.slides, PriceMarker).None? ==> r == d
    ensures FirstMarkedInDeck(d.slides, PriceMarker).Some? ==>
      var (s, j) := FirstMarkedInDeck(d.slides, PriceMarker).value;
      && |r.slides| == |d.slides|
      && (forall s' :: 0 <= s' < |d.slides| && s' != s ==> r.slides[s'] == d.slides[s'])
      && r.slides[s].shapes
         == d.slides[s].shapes[j := TextShape(UpdatePriceInFrameAsWritten(d.slides[s].shapes[j].paragraphs, FormatMoney(total)).0)]
    ensures DeckTextRgb(d) ==> r == UpdatePriceText(d, total)
  {
    match FirstMarkedInDeck(d.slides, PriceMarker)
    case None => d
    case Some((s, j)) =>
      var sh := d.slides[s].shapes[j];
      var updated := TextShape(UpdatePriceInFrameAsWritten(sh.paragraphs, FormatMoney(total)).0);
      var r := Presentation(d.slides[s := Slide(d.slides[s].shapes[j := updated])]);
      if !DeckTextRgb(d) then r
      else
        assert ShapesRgb(d.slides[s].shapes);
        assert ShapeRgb(sh);
        assert !UpdatePriceInFrameAsWritten(sh.paragraphs, FormatMoney(total)).1 by {
          forall i, k | 0 <= i < |sh.paragraphs| && 0 <= k < |sh.paragraphs[i].runs|
            ensures HasRgb(sh.paragraphs[i].runs[k])
          {
            assert RunsRgb(sh.paragraphs[i].runs);
          }
        }
        r
  }
}
