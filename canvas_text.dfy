/**
 * The text half of the canvas renderer's layout: a vocal part's syllables
 * grouped into words, each syllable cut into the pieces that are drawn
 * (whole, or one per letter with its share of the syllable's window), and
 * the pieces placed left to right on lines that wrap at the available width.
 */
module CanvasText {
  import opened JsNumber
  import opened LyricTypes
  import opened LetterTiming

  const LineHeightMultiplier: real := 1.18
  const LineGapWithinGroup: real := 0.0

  /** The fonts the layout measures with; the font strings are built from the sizes of one pass. */
  datatype Font = LeadFont | BackgroundFont | CreditsFont | DotFont

  /** Text measurement: the width of a string in a font. */
  type Measure = (string, Font) -> real

  datatype Box = Box(x: real, y: real, width: real, height: real)

  /** One drawn piece of text (or one interlude dot), positioned from its line's start. */
  datatype Element = Element(text: string, x: real, width: real, height: real, start: Number, end: Number,
                             maxX: real, isLead: bool, isDot: bool, font: Font, wordGroup: int)

  /** One laid-out line; `start` and `end` are Infinity on credits lines. */
  datatype Line = Line(elements: seq<Element>, y: real, height: real, start: Number, end: Number, alignRight: bool,
                       totalWidth: real, isInterlude: bool, lineGroup: int, box: Box)

  /** The fixed inputs of one layout pass: the canvas size, the two font sizes, the settings and the measurement. */
  datatype Env = Env(width: real, height: real, leadSize: real, bgSize: real, settings: LyricsSettings, measure: Measure)

  function Horizontal(env: Env): real {
    env.width * 0.05
  }

  function AvailableWidth(env: Env): real {
    env.width - Horizontal(env) * 2.0
  }

  /** What one `processPart` call lays out for: the lead or a background part, of a block's group and side. */
  datatype PartCtx = PartCtx(env: Env, isLead: bool, group: int, alignRight: bool)

  function FontOf(ctx: PartCtx): Font {
    if ctx.isLead then LeadFont else BackgroundFont
  }

  function FontHeight(ctx: PartCtx): real {
    if ctx.isLead then ctx.env.leadSize else ctx.env.bgSize
  }

  function LineSpacing(ctx: PartCtx): real {
    FontHeight(ctx) * LineHeightMultiplier + FontHeight(ctx) * LineGapWithinGroup
  }

  // ---------------------------------------------------------------------------
  // Words
  // ---------------------------------------------------------------------------

  /** The words closed so far and the syllables of the word still open. */
  datatype WordAcc = WordAcc(done: seq<seq<Syllable>>, current: seq<Syllable>)

  function GroupStep(a: WordAcc, s: Syllable): WordAcc {
    if s.isPartOfWord then WordAcc(a.done, a.current + [s]) else WordAcc(a.done + [a.current + [s]], [])
  }

  function GroupPrefix(ss: seq<Syllable>, n: nat): WordAcc
    requires n <= |ss|
  {
    if n == 0 then WordAcc([], []) else GroupStep(GroupPrefix(ss, n - 1), ss[n - 1])
  }

  /** The words of a part: closed by each syllable that is not part of a word, with the syllables left at the end as a last word. */
  function WordGroups(ss: seq<Syllable>): seq<seq<Syllable>> {
    var a := GroupPrefix(ss, |ss|);
    if |a.current| > 0 then a.done + [a.current] else a.done
  }

  /** The syllables of several words, word after word. */
  function Joined(ws: seq<seq<Syllable>>): seq<Syllable> {
    if |ws| == 0 then [] else Joined(ws[..|ws| - 1]) + ws[|ws| - 1]
  }

  /** A well-formed closed word: not empty, every syllable but the last continues the word, the last closes it. */
  ghost predicate ClosedWord(w: seq<Syllable>) {
    |w| > 0 && !w[|w| - 1].isPartOfWord && forall j :: 0 <= j < |w| - 1 ==> w[j].isPartOfWord
  }

  /** What the grouping keeps true: closed words then the open one spell the syllables read so far. */
  ghost predicate GroupInv(a: WordAcc, read: seq<Syllable>) {
    Joined(a.done) + a.current == read
    && (forall k :: 0 <= k < |a.done| ==> ClosedWord(a.done[k]))
    && (forall j :: 0 <= j < |a.current| ==> a.current[j].isPartOfWord)
  }

  lemma GroupStepInv(a: WordAcc, read: seq<Syllable>, s: Syllable)
    requires GroupInv(a, read)
    ensures GroupInv(GroupStep(a, s), read + [s])
  {
    if !s.isPartOfWord {
      var d := a.done + [a.current + [s]];
      assert d[..|d| - 1] == a.done;
      assert Joined(d) == Joined(a.done) + (a.current + [s]);
      assert ClosedWord(a.current + [s]);
      assert forall k :: 0 <= k < |a.done| ==> d[k] == a.done[k];
    }
  }

  lemma {:induction false} GroupPrefixInv(ss: seq<Syllable>, n: nat)
    requires n <= |ss|
    ensures GroupInv(GroupPrefix(ss, n), ss[..n])
  {
    if n > 0 {
      GroupPrefixInv(ss, n - 1);
      assert ss[..n] == ss[..n - 1] + [ss[n - 1]];
      GroupStepInv(GroupPrefix(ss, n - 1), ss[..n - 1], ss[n - 1]);
    }
  }

  /**
   * The grouping partitions the syllables: joined back they are the input;
   * every word is non-empty and continues on every syllable but its last;
   * every word but the last is closed by a syllable that is not part of a
   * word; the last word is closed that way exactly when the part's last
   * syllable is.
   */
  lemma WordsPartition(ss: seq<Syllable>)
    ensures var ws := WordGroups(ss);
      Joined(ws) == ss
      && (forall k :: 0 <= k < |ws| ==> |ws[k]| > 0 && forall j :: 0 <= j < |ws[k]| - 1 ==> ws[k][j].isPartOfWord)
      && (forall k :: 0 <= k < |ws| - 1 ==> !ws[k][|ws[k]| - 1].isPartOfWord)
      && (|ws| > 0 <==> |ss| > 0)
      && (|ws| > 0 ==> ws[|ws| - 1][|ws[|ws| - 1]| - 1] == ss[|ss| - 1])
  {
    GroupPrefixInv(ss, |ss|);
    var a := GroupPrefix(ss, |ss|);
    assert ss[..|ss|] == ss;
    var ws := WordGroups(ss);
    if |a.current| > 0 {
      assert ws[..|ws| - 1] == a.done;
      assert Joined(ws) == Joined(a.done) + a.current;
    } else {
      assert Joined(a.done) == ss;
      if |a.done| > 0 {
        var w := a.done[|a.done| - 1];
        assert Joined(a.done) == Joined(a.done[..|a.done| - 1]) + w;
      }
    }
  }

  /** A word as the layout keeps it: its syllables, its text and its measured width. */
  datatype Word = Word(syllables: seq<Syllable>, text: string, width: real)

  /** The word's text: each syllable's shown text, joined. */
  function WordText(ss: seq<Syllable>, forceRomanized: bool): string {
    if |ss| == 0 then "" else WordText(ss[..|ss| - 1], forceRomanized) + DisplayText(ss[|ss| - 1], forceRomanized)
  }

  function MakeWord(ctx: PartCtx, ss: seq<Syllable>): Word {
    var text := WordText(ss, ctx.env.settings.forceRomanized);
    Word(ss, text, ctx.env.measure(text, FontOf(ctx)))
  }

  function MakeWords(ctx: PartCtx, gs: seq<seq<Syllable>>): (r: seq<Word>)
    ensures |r| == |gs|
    ensures forall k :: 0 <= k < |gs| ==> r[k] == MakeWord(ctx, gs[k])
  {
    if |gs| == 0 then [] else MakeWords(ctx, gs[..|gs| - 1]) + [MakeWord(ctx, gs[|gs| - 1])]
  }

  /** The `forEach` that collects a part's words. */
  method GroupWords(ctx: PartCtx, ss: seq<Syllable>) returns (words: seq<Word>)
    ensures words == MakeWords(ctx, WordGroups(ss))
  {
    words := [];
    var current: seq<Syllable> := [];
    for i := 0 to |ss|
      invariant words == MakeWords(ctx, GroupPrefix(ss, i).done) && current == GroupPrefix(ss, i).current
    {
      var s := ss[i];
      current := current + [s];
      if !s.isPartOfWord {
        ghost var d := GroupPrefix(ss, i).done + [current];
        assert d[..|d| - 1] == GroupPrefix(ss, i).done;
        words := words + [MakeWord(ctx, current)];
        current := [];
      }
    }
    if |current| > 0 {
      ghost var d := GroupPrefix(ss, |ss|).done + [current];
      assert d[..|d| - 1] == GroupPrefix(ss, |ss|).done;
      words := words + [MakeWord(ctx, current)];
    }
  }

  // ---------------------------------------------------------------------------
  // Pieces
  // ---------------------------------------------------------------------------

  /** A piece of a syllable to draw: its text, its window in ms and its rise. */
  datatype Piece = Piece(text: string, start: real, end: real, maxX: real)

  /** One piece per letter of `text`, letter `l` over its equal share of `[start, end]`. */
  function LetterPieces(text: string, start: real, end: real, maxX: real): (r: seq<Piece>)
    ensures |r| == |text|
  {
    seq(|text|, l requires 0 <= l < |text| =>
      Piece([text[l]], LetterEdge(start, end, |text|, l), LetterEdge(start, end, |text|, l + 1), maxX))
  }

  /**
   * The pieces of one syllable. In a word that fits, a syllable shorter
   * than the split threshold, or of one character, is one piece; otherwise,
   * and always in a word too wide for a line, it is one piece per letter.
   */
  function Pieces(ctx: PartCtx, s: Syllable, oversize: bool): seq<Piece> {
    var st := ctx.env.settings;
    var text := DisplayText(s, st.forceRomanized);
    var start := s.startTime * 1000.0;
    var end := s.endTime * 1000.0;
    if !oversize && (end - start < st.splitThresholdMs || |text| == 1)
    then [Piece(text, start, end, if ctx.isLead then st.maxTranslateUpWord else st.maxTranslateUpLetter)]
    else LetterPieces(text, start, end, st.maxTranslateUpLetter)
  }

  function PieceTexts(ps: seq<Piece>): string {
    if |ps| == 0 then "" else PieceTexts(ps[..|ps| - 1]) + ps[|ps| - 1].text
  }

  lemma {:induction false} LetterPiecesText(text: string, start: real, end: real, maxX: real, n: nat)
    requires n <= |text|
    ensures PieceTexts(LetterPieces(text, start, end, maxX)[..n]) == text[..n]
  {
    if n > 0 {
      var ps := LetterPieces(text, start, end, maxX);
      LetterPiecesText(text, start, end, maxX, n - 1);
      assert ps[..n][..n - 1] == ps[..n - 1];
      assert text[..n] == text[..n - 1] + [text[n - 1]];
    }
  }

  /**
   * Letter pieces spell their text and tile the window: the first opens at
   * `start`, the last closes at `end`, each opens where the previous one
   * closed, and all lie inside a window that is not reversed.
   */
  lemma LetterPiecesTile(text: string, start: real, end: real, maxX: real)
    ensures var ps := LetterPieces(text, start, end, maxX);
      PieceTexts(ps) == text
      && (|text| > 0 ==> ps[0].start == start && ps[|text| - 1].end == end)
      && (forall l :: 0 <= l < |text| - 1 ==> ps[l].end == ps[l + 1].start)
      && (forall l :: 0 <= l < |text| ==> |ps[l].text| == 1 && ps[l].maxX == maxX)
      && (start <= end ==> forall l :: 0 <= l < |text| ==> start <= ps[l].start <= ps[l].end <= end)
  {
    var ps := LetterPieces(text, start, end, maxX);
    LetterPiecesText(text, start, end, maxX, |text|);
    assert ps[..|text|] == ps && text[..|text|] == text;
    if |text| > 0 {
      LettersTile(start, end, |text|, 0, 0);
      forall l | 0 <= l < |text|
        ensures start <= end ==> start <= ps[l].start <= ps[l].end <= end
      {
        LettersTile(start, end, |text|, 0, l);
        LettersTile(start, end, |text|, l, l + 1);
        LettersTile(start, end, |text|, l + 1, |text|);
      }
    }
  }

  /**
   * The split rule: a syllable is cut into letters exactly when the word is
   * too wide or the syllable lasts at least the threshold and is not one
   * character long; otherwise it is one piece over its whole window, rising
   * by the word rise in the lead and the letter rise in a background part.
   * Either way the pieces spell the shown text.
   */
  lemma PiecesRule(ctx: PartCtx, s: Syllable, oversize: bool)
    ensures var ps := Pieces(ctx, s, oversize);
      var st := ctx.env.settings;
      var text := DisplayText(s, st.forceRomanized);
      var start := s.startTime * 1000.0;
      var end := s.endTime * 1000.0;
      var split := oversize || (end - start >= st.splitThresholdMs && |text| != 1);
      PieceTexts(ps) == text
      && (!split ==> ps == [Piece(text, start, end, if ctx.isLead then st.maxTranslateUpWord else st.maxTranslateUpLetter)])
      && (split ==> ps == LetterPieces(text, start, end, st.maxTranslateUpLetter))
  {
    var st := ctx.env.settings;
    var text := DisplayText(s, st.forceRomanized);
    var start := s.startTime * 1000.0;
    var end := s.endTime * 1000.0;
    if oversize || (end - start >= st.splitThresholdMs && |text| != 1) {
      LetterPiecesTile(text, start, end, st.maxTranslateUpLetter);
    } else {
      var ps := Pieces(ctx, s, oversize);
      assert ps[..0] == [];
    }
  }

  // ---------------------------------------------------------------------------
  // Placing pieces on lines
  // ---------------------------------------------------------------------------

  /** `processPart`'s working state: the lines so far, `currentY`, the open line's elements, `currentX`, `maxLineHeight`, `wordGroup`. */
  datatype Cursor = Cursor(lines: seq<Line>, y: real, elements: seq<Element>, x: real, maxHeight: real, wordGroup: int)

  /** The line `pushLine` emits from the open elements. */
  function VocalLine(ctx: PartCtx, c: Cursor): Line
    requires |c.elements| > 0
  {
    var env := ctx.env;
    var startX := if ctx.alignRight then env.width - c.x - Horizontal(env) else Horizontal(env);
    Line(c.elements, c.y, c.maxHeight, c.elements[0].start, c.elements[|c.elements| - 1].end, ctx.alignRight,
         c.x, false, ctx.group, Box(startX, c.y, c.x, c.maxHeight))
  }

  /** `pushLine`: close the open line, if it has elements, and move down by the part's line spacing. */
  function PushLine(ctx: PartCtx, c: Cursor): Cursor {
    if |c.elements| == 0 then c
    else Cursor(c.lines + [VocalLine(ctx, c)], c.y + LineSpacing(ctx), [], 0.0, 0.0, c.wordGroup)
  }

  /** `createTextElement` for a piece at the open line's current x. */
  function ElementOf(ctx: PartCtx, c: Cursor, p: Piece): Element {
    var f := FontOf(ctx);
    Element(p.text, c.x, ctx.env.measure(p.text, f), FontHeight(ctx), Num(p.start), Num(p.end), p.maxX,
            ctx.isLead, false, f, c.wordGroup)
  }

  /** Append a piece to the open line; the line is at least as tall as the piece. */
  function Place(ctx: PartCtx, c: Cursor, p: Piece): Cursor {
    var e := ElementOf(ctx, c, p);
    c.(elements := c.elements + [e], x := c.x + e.width, maxHeight := MaxReal(c.maxHeight, e.height))
  }

  /** One piece; in a word too wide for a line, a piece that would overflow a non-empty line starts a new one. */
  function PieceStep(ctx: PartCtx, c: Cursor, p: Piece, wrap: bool): Cursor {
    var c1 := if wrap && c.x + ctx.env.measure(p.text, FontOf(ctx)) > AvailableWidth(ctx.env) && c.x > 0.0
              then PushLine(ctx, c) else c;
    Place(ctx, c1, p)
  }

  function PiecesFold(ctx: PartCtx, c: Cursor, ps: seq<Piece>, wrap: bool, k: nat): Cursor
    requires k <= |ps|
  {
    if k == 0 then c else PieceStep(ctx, PiecesFold(ctx, c, ps, wrap, k - 1), ps[k - 1], wrap)
  }

  function SyllableStep(ctx: PartCtx, c: Cursor, s: Syllable, oversize: bool): Cursor {
    var c1 := c.(maxHeight := MaxReal(c.maxHeight, FontHeight(ctx)));
    var ps := Pieces(ctx, s, oversize);
    PiecesFold(ctx, c1, ps, oversize, |ps|)
  }

  function SyllablesFold(ctx: PartCtx, c: Cursor, ss: seq<Syllable>, oversize: bool, k: nat): Cursor
    requires k <= |ss|
  {
    if k == 0 then c else SyllableStep(ctx, SyllablesFold(ctx, c, ss, oversize, k - 1), ss[k - 1], oversize)
  }

  /**
   * One word. A word wider than the available width closes the open line and
   * is placed letter by letter, wrapping as it goes. Any other word starts a
   * new line when the open line is non-empty and the word with a space would
   * overflow it, and is preceded by a space unless it starts the line.
   */
  function WordStep(ctx: PartCtx, c: Cursor, w: Word): Cursor {
    SyllablesFold(ctx, WordOpen(ctx, c, w), w.syllables, w.width > AvailableWidth(ctx.env), |w.syllables|)
  }

  /** Where a word's first piece goes: a new word group, after any line break and space the word needs. */
  function WordOpen(ctx: PartCtx, c: Cursor, w: Word): Cursor {
    var avail := AvailableWidth(ctx.env);
    var space := ctx.env.measure(" ", FontOf(ctx));
    var c0 := c.(wordGroup := c.wordGroup + 1);
    if w.width > avail then
      (if |c0.elements| > 0 then PushLine(ctx, c0) else c0)
    else
      var c1 := if c0.x > 0.0 && c0.x + space + w.width > avail then PushLine(ctx, c0) else c0;
      if c1.x > 0.0 then c1.(x := c1.x + space) else c1
  }

  function WordsFold(ctx: PartCtx, c: Cursor, ws: seq<Word>, k: nat): Cursor
    requires k <= |ws|
  {
    if k == 0 then c else WordStep(ctx, WordsFold(ctx, c, ws, k - 1), ws[k - 1])
  }

  /** The cursor after a whole part, before the last `pushLine`. */
  function PartCursor(ctx: PartCtx, lines: seq<Line>, y: real, part: VocalPart): Cursor {
    var ws := MakeWords(ctx, WordGroups(part.syllables));
    WordsFold(ctx, Cursor(lines, y, [], 0.0, 0.0, 0), ws, |ws|)
  }

  /** `processPart`: the lines and `currentY` after laying out one vocal part. */
  function LayoutPart(ctx: PartCtx, lines: seq<Line>, y: real, part: VocalPart): (seq<Line>, real) {
    var c := PushLine(ctx, PartCursor(ctx, lines, y, part));
    (c.lines, c.y)
  }

  /** Place one syllable's pieces: one element for a whole syllable, the letter loop otherwise. */
  method PlaceSyllable(ctx: PartCtx, c: Cursor, s: Syllable, oversize: bool) returns (r: Cursor)
    ensures r == SyllableStep(ctx, c, s, oversize)
  {
    var st := ctx.env.settings;
    var text := DisplayText(s, st.forceRomanized);
    var start := s.startTime * 1000.0;
    var end := s.endTime * 1000.0;
    r := c.(maxHeight := MaxReal(c.maxHeight, FontHeight(ctx)));
    if !oversize && (end - start < st.splitThresholdMs || |text| == 1) {
      ghost var c1 := r;
      r := Place(ctx, r, Piece(text, start, end, if ctx.isLead then st.maxTranslateUpWord else st.maxTranslateUpLetter));
      assert r == PiecesFold(ctx, c1, Pieces(ctx, s, oversize), oversize, 1);
    } else {
      r := PlaceLetters(ctx, r, text, start, end, st.maxTranslateUpLetter, oversize);
    }
  }

  /** The letter loop: each letter over its share of the window, wrapping first when `wrap` is set and it would overflow. */
  method PlaceLetters(ctx: PartCtx, c: Cursor, text: string, start: real, end: real, maxX: real, wrap: bool)
    returns (r: Cursor)
    ensures r == PiecesFold(ctx, c, LetterPieces(text, start, end, maxX), wrap, |text|)
  {
    ghost var ps := LetterPieces(text, start, end, maxX);
    r := c;
    for l := 0 to |text|
      invariant r == PiecesFold(ctx, c, ps, wrap, l)
    {
      var letter := [text[l]];
      var letterWidth := ctx.env.measure(letter, FontOf(ctx));
      if wrap && r.x + letterWidth > AvailableWidth(ctx.env) && r.x > 0.0 {
        r := PushLine(ctx, r);
      }
      r := Place(ctx, r, Piece(letter, LetterEdge(start, end, |text|, l), LetterEdge(start, end, |text|, l + 1), maxX));
    }
  }

  /** Place one word: the `words.forEach` body. */
  method PlaceWord(ctx: PartCtx, c: Cursor, w: Word) returns (r: Cursor)
    ensures r == WordStep(ctx, c, w)
  {
    var oversize := w.width > AvailableWidth(ctx.env);
    r := WordOpen(ctx, c, w);
    r := PlaceSyllables(ctx, r, w.syllables, oversize);
  }

  /** The word's `syllables.forEach`. */
  method PlaceSyllables(ctx: PartCtx, c: Cursor, ss: seq<Syllable>, oversize: bool) returns (r: Cursor)
    ensures r == SyllablesFold(ctx, c, ss, oversize, |ss|)
  {
    r := c;
    for k := 0 to |ss|
      invariant r == SyllablesFold(ctx, c, ss, oversize, k)
    {
      r := PlaceSyllable(ctx, r, ss[k], oversize);
    }
  }

  /** `processPart`: group the words, place them, and close the last line. */
  method ProcessPart(ctx: PartCtx, lines: seq<Line>, y: real, part: VocalPart) returns (newLines: seq<Line>, newY: real)
    ensures (newLines, newY) == LayoutPart(ctx, lines, y, part)
  {
    var words := GroupWords(ctx, part.syllables);
    var c := Cursor(lines, y, [], 0.0, 0.0, 0);
    for k := 0 to |words|
      invariant c == WordsFold(ctx, Cursor(lines, y, [], 0.0, 0.0, 0), words, k)
    {
      c := PlaceWord(ctx, c, words[k]);
    }
    c := PushLine(ctx, c);
    newLines, newY := c.lines, c.y;
  }
}
