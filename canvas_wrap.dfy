/**
 * The greedy wrap's bound. With a measurement that is additive (a string is
 * as wide as its halves together) and never negative, no line a part emits
 * is wider than the available width unless its last glyph starts the line,
 * that is, a single glyph wider than the line together with glyphs of no
 * width before it.
 */
module CanvasWrap {
  import opened JsNumber
  import opened LyricTypes
  import opened CanvasText

  /** Widths add up over concatenation. */
  ghost predicate Additive(m: Measure, f: Font) {
    forall a: string, b: string :: m(a + b, f) == m(a, f) + m(b, f)
  }

  ghost predicate Measured(ctx: PartCtx) {
    Additive(ctx.env.measure, FontOf(ctx)) && forall t: string :: ctx.env.measure(t, FontOf(ctx)) >= 0.0
  }

  /**
   * `measureTextWidth`'s fallback without a drawing context: 12 per
   * character (per UTF-16 unit in the source). The layout pass itself never
   * runs without that context, so this measurement serves only as a witness
   * that the hypotheses of the wrap bound can be met.
   */
  function FallbackMeasure(t: string, f: Font): real {
    |t| as real * 12.0
  }

  /** The hypotheses of the wrap bound are satisfiable: the fallback measurement meets them in every font. */
  lemma FallbackMeasured(f: Font)
    ensures Additive(FallbackMeasure, f) && forall t: string :: FallbackMeasure(t, f) >= 0.0
  {
    forall a: string, b: string
      ensures FallbackMeasure(a + b, f) == FallbackMeasure(a, f) + FallbackMeasure(b, f)
    {
      assert |a + b| == |a| + |b|;
    }
  }

  lemma MeasureEmpty(m: Measure, f: Font)
    requires Additive(m, f)
    ensures m("", f) == 0.0
  {
    assert "" + "" == "";
    assert m("" + "", f) == m("", f) + m("", f);
  }

  /** A line fits, or its last glyph starts it. */
  ghost predicate LineFits(avail: real, l: Line) {
    l.totalWidth <= avail || (|l.elements| > 0 && l.elements[|l.elements| - 1].x == 0.0)
  }

  /** The open line: `currentX` is not negative, is 0 while the line is empty, and fits or its last glyph starts it. */
  ghost predicate CursorFits(avail: real, c: Cursor) {
    c.x >= 0.0 && (|c.elements| == 0 ==> c.x == 0.0)
    && (c.x <= avail || (|c.elements| > 0 && c.elements[|c.elements| - 1].x == 0.0))
  }

  ghost predicate WrapInv(ctx: PartCtx, lines0: seq<Line>, c: Cursor) {
    var avail := AvailableWidth(ctx.env);
    lines0 <= c.lines && (forall j :: |lines0| <= j < |c.lines| ==> LineFits(avail, c.lines[j])) && CursorFits(avail, c)
  }

  lemma PushWrap(ctx: PartCtx, lines0: seq<Line>, c: Cursor)
    requires WrapInv(ctx, lines0, c) && AvailableWidth(ctx.env) >= 0.0
    ensures WrapInv(ctx, lines0, PushLine(ctx, c)) && PushLine(ctx, c).x == 0.0 && PushLine(ctx, c).elements == []
  {
    if |c.elements| > 0 {
      assert PushLine(ctx, c).lines == c.lines + [VocalLine(ctx, c)];
    }
  }

  // ---------------------------------------------------------------------------
  // A word that fits: its pieces advance `currentX` by the word's width
  // ---------------------------------------------------------------------------

  /** Without wrapping, pieces only advance `currentX`, by the width of their joined texts. */
  lemma {:induction false} PiecesAdvance(ctx: PartCtx, c: Cursor, ps: seq<Piece>, k: nat)
    requires k <= |ps| && Additive(ctx.env.measure, FontOf(ctx))
    ensures var r := PiecesFold(ctx, c, ps, false, k);
      r.lines == c.lines && r.y == c.y && |r.elements| == |c.elements| + k
      && r.x == c.x + ctx.env.measure(PieceTexts(ps[..k]), FontOf(ctx))
  {
    if k == 0 {
      assert PieceTexts(ps[..0]) == "";
      MeasureEmpty(ctx.env.measure, FontOf(ctx));
    } else {
      PiecesAdvance(ctx, c, ps, k - 1);
      assert ps[..k][..k - 1] == ps[..k - 1];
      assert PieceTexts(ps[..k]) == PieceTexts(ps[..k - 1]) + ps[k - 1].text;
    }
  }

  lemma SyllableAdvance(ctx: PartCtx, c: Cursor, s: Syllable)
    requires Additive(ctx.env.measure, FontOf(ctx))
    ensures var r := SyllableStep(ctx, c, s, false);
      var text := DisplayText(s, ctx.env.settings.forceRomanized);
      r.x == c.x + ctx.env.measure(text, FontOf(ctx))
  {
    var ps := Pieces(ctx, s, false);
    PiecesRule(ctx, s, false);
    PiecesAdvance(ctx, c.(maxHeight := MaxReal(c.maxHeight, FontHeight(ctx))), ps, |ps|);
    assert ps[..|ps|] == ps;
  }

  lemma AdvanceBy(m: Measure, f: Font, a: string, b: string)
    requires Additive(m, f)
    ensures m(a + b, f) == m(a, f) + m(b, f)
  {
  }

  /** Without wrapping, a word's syllables emit no line, and add an element unless the word's text so far is empty. */
  lemma {:induction false} SyllablesKeep(ctx: PartCtx, c: Cursor, ss: seq<Syllable>, k: nat)
    requires k <= |ss|
    ensures var r := SyllablesFold(ctx, c, ss, false, k);
      r.lines == c.lines && |r.elements| >= |c.elements|
      && (|r.elements| == |c.elements| ==> WordText(ss[..k], ctx.env.settings.forceRomanized) == "")
  {
    var fr := ctx.env.settings.forceRomanized;
    if k == 0 {
      assert ss[..0] == [];
    } else {
      SyllablesKeep(ctx, c, ss, k - 1);
      var c0 := SyllablesFold(ctx, c, ss, false, k - 1);
      var ps := Pieces(ctx, ss[k - 1], false);
      PiecesRule(ctx, ss[k - 1], false);
      assert ps[..|ps|] == ps;
      PiecesKeep(ctx, c0.(maxHeight := MaxReal(c0.maxHeight, FontHeight(ctx))), ps, |ps|);
      assert ss[..k][..k - 1] == ss[..k - 1];
      assert WordText(ss[..k], fr) == WordText(ss[..k - 1], fr) + DisplayText(ss[k - 1], fr);
    }
  }

  lemma {:induction false} PiecesKeep(ctx: PartCtx, c: Cursor, ps: seq<Piece>, k: nat)
    requires k <= |ps|
    ensures var r := PiecesFold(ctx, c, ps, false, k);
      r.lines == c.lines && |r.elements| == |c.elements| + k
  {
    if k > 0 {
      PiecesKeep(ctx, c, ps, k - 1);
    }
  }

  /** Without wrapping, a word's syllables advance `currentX` by the width of the word's text so far. */
  lemma {:induction false} SyllablesAdvance(ctx: PartCtx, c: Cursor, ss: seq<Syllable>, k: nat)
    requires k <= |ss| && Additive(ctx.env.measure, FontOf(ctx))
    ensures SyllablesFold(ctx, c, ss, false, k).x == c.x + ctx.env.measure(WordText(ss[..k], ctx.env.settings.forceRomanized), FontOf(ctx))
  {
    var fr := ctx.env.settings.forceRomanized;
    if k == 0 {
      assert ss[..0] == [];
      MeasureEmpty(ctx.env.measure, FontOf(ctx));
    } else {
      SyllablesAdvance(ctx, c, ss, k - 1);
      var c0 := SyllablesFold(ctx, c, ss, false, k - 1);
      SyllableAdvance(ctx, c0, ss[k - 1]);
      var t0 := WordText(ss[..k - 1], fr);
      var d := DisplayText(ss[k - 1], fr);
      assert ss[..k][..k - 1] == ss[..k - 1];
      assert WordText(ss[..k], fr) == t0 + d;
      AdvanceBy(ctx.env.measure, FontOf(ctx), t0, d);
    }
  }

  // ---------------------------------------------------------------------------
  // A word too wide: the letter loop keeps the bound letter by letter
  // ---------------------------------------------------------------------------

  lemma PieceWrap(ctx: PartCtx, lines0: seq<Line>, c: Cursor, p: Piece)
    requires Measured(ctx) && AvailableWidth(ctx.env) >= 0.0 && WrapInv(ctx, lines0, c)
    ensures WrapInv(ctx, lines0, PieceStep(ctx, c, p, true))
  {
    PushWrap(ctx, lines0, c);
  }

  lemma {:induction false} PiecesWrap(ctx: PartCtx, lines0: seq<Line>, c: Cursor, ps: seq<Piece>, k: nat)
    requires k <= |ps| && Measured(ctx) && AvailableWidth(ctx.env) >= 0.0 && WrapInv(ctx, lines0, c)
    ensures WrapInv(ctx, lines0, PiecesFold(ctx, c, ps, true, k))
  {
    if k > 0 {
      PiecesWrap(ctx, lines0, c, ps, k - 1);
      PieceWrap(ctx, lines0, PiecesFold(ctx, c, ps, true, k - 1), ps[k - 1]);
    }
  }

  lemma {:induction false} LettersWrap(ctx: PartCtx, lines0: seq<Line>, c: Cursor, ss: seq<Syllable>, k: nat)
    requires k <= |ss| && Measured(ctx) && AvailableWidth(ctx.env) >= 0.0 && WrapInv(ctx, lines0, c)
    ensures WrapInv(ctx, lines0, SyllablesFold(ctx, c, ss, true, k))
  {
    if k > 0 {
      LettersWrap(ctx, lines0, c, ss, k - 1);
      var c0 := SyllablesFold(ctx, c, ss, true, k - 1);
      var ps := Pieces(ctx, ss[k - 1], true);
      PiecesWrap(ctx, lines0, c0.(maxHeight := MaxReal(c0.maxHeight, FontHeight(ctx))), ps, |ps|);
    }
  }

  // ---------------------------------------------------------------------------
  // Words and parts
  // ---------------------------------------------------------------------------

  /** A word as `MakeWord` measures it: its width is its text's. */
  ghost predicate Measures(ctx: PartCtx, w: Word) {
    w.width == ctx.env.measure(WordText(w.syllables, ctx.env.settings.forceRomanized), FontOf(ctx))
  }

  /** Where a word that fits opens, it still fits once placed. */
  lemma OpenFits(ctx: PartCtx, lines0: seq<Line>, c: Cursor, w: Word)
    requires Measured(ctx) && AvailableWidth(ctx.env) >= 0.0 && WrapInv(ctx, lines0, c)
    requires 0.0 <= w.width <= AvailableWidth(ctx.env)
    ensures var o := WordOpen(ctx, c, w);
      WrapInv(ctx, lines0, o) && o.x + w.width <= AvailableWidth(ctx.env)
  {
    var c0 := c.(wordGroup := c.wordGroup + 1);
    PushWrap(ctx, lines0, c0);
  }

  lemma WordWrap(ctx: PartCtx, lines0: seq<Line>, c: Cursor, w: Word)
    requires Measured(ctx) && AvailableWidth(ctx.env) >= 0.0 && WrapInv(ctx, lines0, c) && Measures(ctx, w)
    ensures WrapInv(ctx, lines0, WordStep(ctx, c, w))
  {
    var o := WordOpen(ctx, c, w);
    if w.width > AvailableWidth(ctx.env) {
      PushWrap(ctx, lines0, c.(wordGroup := c.wordGroup + 1));
      LettersWrap(ctx, lines0, o, w.syllables, |w.syllables|);
    } else {
      OpenFits(ctx, lines0, c, w);
      SyllablesAdvance(ctx, o, w.syllables, |w.syllables|);
      SyllablesKeep(ctx, o, w.syllables, |w.syllables|);
      assert w.syllables[..|w.syllables|] == w.syllables;
      MeasureEmpty(ctx.env.measure, FontOf(ctx));
    }
  }

  lemma {:induction false} WordsWrap(ctx: PartCtx, lines0: seq<Line>, c: Cursor, ws: seq<Word>, k: nat)
    requires k <= |ws| && Measured(ctx) && AvailableWidth(ctx.env) >= 0.0 && WrapInv(ctx, lines0, c)
    requires forall i :: 0 <= i < |ws| ==> Measures(ctx, ws[i])
    ensures WrapInv(ctx, lines0, WordsFold(ctx, c, ws, k))
  {
    if k > 0 {
      WordsWrap(ctx, lines0, c, ws, k - 1);
      WordWrap(ctx, lines0, WordsFold(ctx, c, ws, k - 1), ws[k - 1]);
    }
  }

  /**
   * The wrap bound for a part: with a measurement that adds up and is never
   * negative, on a canvas of non-negative width, each line the part emits is
   * no wider than the available width, or its last glyph sits at the line's
   * start.
   */
  lemma PartWrap(ctx: PartCtx, lines: seq<Line>, y: real, part: VocalPart)
    requires Measured(ctx) && ctx.env.width >= 0.0
    ensures var r := LayoutPart(ctx, lines, y, part);
      lines <= r.0 && forall j :: |lines| <= j < |r.0| ==> LineFits(AvailableWidth(ctx.env), r.0[j])
  {
    var ws := MakeWords(ctx, WordGroups(part.syllables));
    var c0 := Cursor(lines, y, [], 0.0, 0.0, 0);
    assert WrapInv(ctx, lines, c0);
    WordsWrap(ctx, lines, c0, ws, |ws|);
    PushWrap(ctx, lines, PartCursor(ctx, lines, y, part));
  }
}
