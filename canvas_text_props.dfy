/**
 * What a part's layout guarantees about the lines it emits, and the
 * oversize-word line height as the letter loop computes it.
 */
module CanvasTextProps {
  import opened JsNumber
  import opened LyricTypes
  import opened CanvasText

  /** A line `processPart` emits for this part: non-empty, one font high, of the part's group and side. */
  ghost predicate PartLine(ctx: PartCtx, l: Line) {
    |l.elements| > 0 && l.height == FontHeight(ctx) && l.lineGroup == ctx.group
    && l.alignRight == ctx.alignRight && !l.isInterlude
  }

  /**
   * What holds of the cursor throughout a part that started on `lines0` at
   * `y0`: the earlier lines are kept; each new line is a part line, the
   * first at `y0` and each next one a line spacing below the previous;
   * `currentY` is a line spacing below the last new line (`y0` before
   * there is one); the open line's height is 0 while it is empty and the
   * font height once it is not.
   */
  ghost predicate Inv(ctx: PartCtx, lines0: seq<Line>, y0: real, c: Cursor) {
    lines0 <= c.lines
    && (forall j :: |lines0| <= j < |c.lines| ==> PartLine(ctx, c.lines[j]))
    && Stacked(lines0, y0, LineSpacing(ctx), c.lines, c.y)

    && (c.maxHeight == 0.0 || c.maxHeight == FontHeight(ctx))
    && (|c.elements| > 0 ==> c.maxHeight == FontHeight(ctx))
  }

  /** The lines after `lines0` stand `gap` apart from `y0` on, and `y` is `gap` below the last of them. */
  ghost predicate Stacked(lines0: seq<Line>, y0: real, gap: real, lines: seq<Line>, y: real)
    requires lines0 <= lines
  {
    (|lines| > |lines0| ==> lines[|lines0|].y == y0)
    && (forall j :: |lines0| < j < |lines| ==> lines[j].y == lines[j - 1].y + gap)
    && y == (if |lines| == |lines0| then y0 else lines[|lines| - 1].y + gap)
  }

  lemma PushLineInv(ctx: PartCtx, lines0: seq<Line>, y0: real, c: Cursor)
    requires Inv(ctx, lines0, y0, c)
    ensures Inv(ctx, lines0, y0, PushLine(ctx, c)) && PushLine(ctx, c).elements == []
  {
    if |c.elements| > 0 {
      var c1 := PushLine(ctx, c);
      assert c1.lines == c.lines + [VocalLine(ctx, c)];
    }
  }

  lemma PieceStepInv(ctx: PartCtx, lines0: seq<Line>, y0: real, c: Cursor, p: Piece, wrap: bool)
    requires FontHeight(ctx) >= 0.0 && Inv(ctx, lines0, y0, c)
    ensures Inv(ctx, lines0, y0, PieceStep(ctx, c, p, wrap))
  {
    PushLineInv(ctx, lines0, y0, c);
  }

  lemma {:induction false} PiecesFoldInv(ctx: PartCtx, lines0: seq<Line>, y0: real, c: Cursor, ps: seq<Piece>, wrap: bool, k: nat)
    requires k <= |ps|
    requires FontHeight(ctx) >= 0.0 && Inv(ctx, lines0, y0, c)
    ensures Inv(ctx, lines0, y0, PiecesFold(ctx, c, ps, wrap, k))
  {
    if k > 0 {
      PiecesFoldInv(ctx, lines0, y0, c, ps, wrap, k - 1);
      PieceStepInv(ctx, lines0, y0, PiecesFold(ctx, c, ps, wrap, k - 1), ps[k - 1], wrap);
    }
  }

  lemma {:induction false} SyllablesFoldInv(ctx: PartCtx, lines0: seq<Line>, y0: real, c: Cursor, ss: seq<Syllable>, oversize: bool, k: nat)
    requires k <= |ss|
    requires FontHeight(ctx) >= 0.0 && Inv(ctx, lines0, y0, c)
    ensures Inv(ctx, lines0, y0, SyllablesFold(ctx, c, ss, oversize, k))
  {
    if k > 0 {
      SyllablesFoldInv(ctx, lines0, y0, c, ss, oversize, k - 1);
      var c0 := SyllablesFold(ctx, c, ss, oversize, k - 1);
      var c1 := c0.(maxHeight := MaxReal(c0.maxHeight, FontHeight(ctx)));
      var ps := Pieces(ctx, ss[k - 1], oversize);
      PiecesFoldInv(ctx, lines0, y0, c1, ps, oversize, |ps|);
    }
  }

  lemma WordStepInv(ctx: PartCtx, lines0: seq<Line>, y0: real, c: Cursor, w: Word)
    requires FontHeight(ctx) >= 0.0 && Inv(ctx, lines0, y0, c)
    ensures Inv(ctx, lines0, y0, WordStep(ctx, c, w))
  {
    var c0 := c.(wordGroup := c.wordGroup + 1);
    PushLineInv(ctx, lines0, y0, c0);
    SyllablesFoldInv(ctx, lines0, y0, WordOpen(ctx, c, w), w.syllables, w.width > AvailableWidth(ctx.env), |w.syllables|);
  }

  lemma {:induction false} WordsFoldInv(ctx: PartCtx, lines0: seq<Line>, y0: real, c: Cursor, ws: seq<Word>, k: nat)
    requires k <= |ws|
    requires FontHeight(ctx) >= 0.0 && Inv(ctx, lines0, y0, c)
    ensures Inv(ctx, lines0, y0, WordsFold(ctx, c, ws, k))
  {
    if k > 0 {
      WordsFoldInv(ctx, lines0, y0, c, ws, k - 1);
      WordStepInv(ctx, lines0, y0, WordsFold(ctx, c, ws, k - 1), ws[k - 1]);
    }
  }

  lemma PartCursorInv(ctx: PartCtx, lines: seq<Line>, y: real, part: VocalPart)
    requires FontHeight(ctx) >= 0.0
    ensures Inv(ctx, lines, y, PartCursor(ctx, lines, y, part))
  {
    var ws := MakeWords(ctx, WordGroups(part.syllables));
    var c0 := Cursor(lines, y, [], 0.0, 0.0, 0);
    assert Inv(ctx, lines, y, c0);
    WordsFoldInv(ctx, lines, y, c0, ws, |ws|);
  }

  /** The lines a closed cursor holds, as `LayoutPart` reports them. */
  lemma ClosedLines(ctx: PartCtx, lines: seq<Line>, y: real, c: Cursor)
    requires Inv(ctx, lines, y, c)
    ensures var c1 := PushLine(ctx, c);
      lines <= c1.lines
      && (forall j :: |lines| <= j < |c1.lines| ==> PartLine(ctx, c1.lines[j]))
      && Stacked(lines, y, LineSpacing(ctx), c1.lines, c1.y)
  {
    PushLineInv(ctx, lines, y, c);
  }

  /**
   * A part appends lines and changes none before them; every line it emits
   * has elements, is one font high and carries the part's group and side;
   * the first is at `y`, each next one a line spacing below the previous,
   * and the returned `currentY` a line spacing below the last.
   */
  lemma PartLines(ctx: PartCtx, lines: seq<Line>, y: real, part: VocalPart)
    requires FontHeight(ctx) >= 0.0
    ensures var r := LayoutPart(ctx, lines, y, part);
      lines <= r.0
      && (forall j :: |lines| <= j < |r.0| ==> PartLine(ctx, r.0[j]))
      && Stacked(lines, y, LineSpacing(ctx), r.0, r.1)
  {
    PartCursorInv(ctx, lines, y, part);
    ClosedLines(ctx, lines, y, PartCursor(ctx, lines, y, part));
  }

  // ---------------------------------------------------------------------------
  // The letter loop of an oversize word, as written
  // ---------------------------------------------------------------------------

  /** `createTextElement` as the letter loop uses it: the line's height is not raised for the letter. */
  function PlaceAsWritten(ctx: PartCtx, c: Cursor, p: Piece): Cursor {
    var e := ElementOf(ctx, c, p);
    c.(elements := c.elements + [e], x := c.x + e.width)
  }

  function LettersAsWritten(ctx: PartCtx, c: Cursor, ps: seq<Piece>, k: nat): Cursor
    requires k <= |ps|
  {
    if k == 0 then c
    else
      var c0 := LettersAsWritten(ctx, c, ps, k - 1);
      var c1 := if c0.x + ctx.env.measure(ps[k - 1].text, FontOf(ctx)) > AvailableWidth(ctx.env) && c0.x > 0.0
                then PushLine(ctx, c0) else c0;
      PlaceAsWritten(ctx, c1, ps[k - 1])
  }

  /**
   * One syllable of a word too wide for a line, as written: `maxLineHeight`
   * is raised once before the letters, and a line the loop starts in the
   * middle of the syllable begins again from 0.
   */
  function OversizeSyllableAsWritten(ctx: PartCtx, c: Cursor, s: Syllable): Cursor {
    var c1 := c.(maxHeight := MaxReal(c.maxHeight, FontHeight(ctx)));
    var ps := Pieces(ctx, s, true);
    LettersAsWritten(ctx, c1, ps, |ps|)
  }

  /** Every letter 60 wide on a canvas 100 wide (90 available): the second letter of "ab" starts a line. */
  function NarrowCtx(): PartCtx {
    var st := LyricsSettings(false, 0.0, 0.0, 1000.0);
    PartCtx(Env(100.0, 100.0, 36.0, 24.0, st, (t: string, f: Font) => |t| as real * 60.0), true, 0, false)
  }

  function WideSyllable(): Syllable {
    Syllable("ab", "", false, 1.0, 2.0)
  }

  /**
   * The discrepancy: as written, the line holding only "b" closes with height
   * 0, so its box has no height and it shrinks its group's box and the
   * in-view and scroll tests that read line heights; with the height raised
   * per letter it is one font high.
   */
  lemma OversizeLineHeightAsWritten()
    ensures var c0 := Cursor([], 0.0, [], 0.0, 0.0, 1);
      var asWritten := PushLine(NarrowCtx(), OversizeSyllableAsWritten(NarrowCtx(), c0, WideSyllable()));
      var corrected := PushLine(NarrowCtx(), SyllableStep(NarrowCtx(), c0, WideSyllable(), true));
      |asWritten.lines| == 2 && asWritten.lines[1].height == 0.0
      && |corrected.lines| == 2 && corrected.lines[1].height == 36.0
  {
    var ctx := NarrowCtx();
    var s := WideSyllable();
    var c0 := Cursor([], 0.0, [], 0.0, 0.0, 1);
    var ps := Pieces(ctx, s, true);
    assert DisplayText(s, false) == "ab";
    assert |ps| == 2 && ps[0].text == "a" && ps[1].text == "b";
    var c1 := c0.(maxHeight := 36.0);
    assert ctx.env.measure("a", LeadFont) == 60.0 && ctx.env.measure("b", LeadFont) == 60.0;
    assert FontOf(ctx) == LeadFont && FontHeight(ctx) == 36.0;
    assert OversizeSyllableAsWritten(ctx, c0, s) == LettersAsWritten(ctx, c1, ps, 2);
    assert SyllableStep(ctx, c0, s, true) == PiecesFold(ctx, c1, ps, true, 2);
    assert LettersAsWritten(ctx, c1, ps, 0) == c1 && PiecesFold(ctx, c1, ps, true, 0) == c1;
    assert ElementOf(ctx, c1, ps[0]).width == 60.0;
    var a1 := LettersAsWritten(ctx, c1, ps, 1);
    assert a1.x == 60.0 && |a1.elements| == 1 && a1.lines == [];
    var a2 := LettersAsWritten(ctx, c1, ps, 2);
    assert |a2.lines| == 1 && a2.maxHeight == 0.0 && |a2.elements| == 1;
    var k1 := PiecesFold(ctx, c1, ps, true, 1);
    assert k1.x == 60.0 && |k1.elements| == 1 && k1.lines == [];
    var k2 := PiecesFold(ctx, c1, ps, true, 2);
    assert |k2.lines| == 1 && k2.maxHeight == 36.0 && |k2.elements| == 1;
  }
}
