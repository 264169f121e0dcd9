/**
 * `recalculateLayout` of the canvas renderer: blocks laid out top to bottom,
 * an interlude line of three dots before a block that starts more than two
 * seconds after the previous one ended, the credits wrapped at the bottom,
 * the furthest the view may scroll, and one hit box per line group.
 */
module CanvasLayout {
  import opened JsNumber
  import opened LyricTypes
  import opened Strings
  import opened CanvasText

  const FontSizeLeadBase: real := 36.0
  const FontSizeBgBase: real := 24.0
  const CreditsFontSizeRatio: real := 0.75
  const LineGapBetweenGroups: real := 0.8
  const InterludeThresholdMs: real := 2000.0
  const InterludeDotCount: nat := 3
  const InterludeDotGap: real := 8.0
  const InterludeDotAmplitude: real := 6.0
  const MinRem: real := 1.85
  const PreferredCqw: real := 7.0
  const MaxRem: real := 3.5
  /** The group of credits lines, which have no box and are never active. */
  const CreditsGroup: int := -1

  function Top(height: real): real {
    height * 0.25
  }

  function Bottom(height: real): real {
    height * 0.45
  }

  /** The lead font size: 7% of the width, kept between 1.85 and 3.5 root font sizes. */
  function LeadSize(width: real, rootFontSize: real): (r: real)
    requires rootFontSize > 0.0
    ensures MinRem * rootFontSize <= r
    ensures r <= MaxRem * rootFontSize || r == MinRem * rootFontSize
    ensures MinRem * rootFontSize <= PreferredCqw / 100.0 * width <= MaxRem * rootFontSize ==> r == PreferredCqw / 100.0 * width
  {
    MaxReal(MinRem * rootFontSize, MinReal(PreferredCqw / 100.0 * width, MaxRem * rootFontSize))
  }

  /** The inputs of one pass: sizes from the canvas and root font, settings and measurement passed in. */
  function MakeEnv(width: real, height: real, rootFontSize: real, settings: LyricsSettings, measure: Measure): (env: Env)
    requires rootFontSize > 0.0
    ensures env.leadSize > 0.0 && env.bgSize > 0.0 && env.bgSize * FontSizeLeadBase == env.leadSize * FontSizeBgBase
  {
    var lead := LeadSize(width, rootFontSize);
    Env(width, height, lead, lead * (FontSizeBgBase / FontSizeLeadBase), settings, measure)
  }

  // ---------------------------------------------------------------------------
  // A block's window
  // ---------------------------------------------------------------------------

  /** The earliest start among the first `n` syllables. */
  function StartPrefix(ss: seq<Syllable>, n: nat): (r: real)
    requires 0 < n <= |ss|
    ensures forall j :: 0 <= j < n ==> r <= ss[j].startTime
    ensures exists j :: 0 <= j < n && r == ss[j].startTime
  {
    if n == 1 then ss[0].startTime else MinReal(StartPrefix(ss, n - 1), ss[n - 1].startTime)
  }

  /** The latest end among the first `n` syllables, and never below 0. */
  function EndPrefix(ss: seq<Syllable>, n: nat): (r: real)
    requires n <= |ss|
    ensures r >= 0.0 && forall j :: 0 <= j < n ==> r >= ss[j].endTime
    ensures r == 0.0 || exists j :: 0 <= j < n && r == ss[j].endTime
  {
    if n == 0 then 0.0 else MaxReal(EndPrefix(ss, n - 1), ss[n - 1].endTime)
  }

  /** The `allSyllables.forEach` that finds a block's start (from Infinity) and end (from 0), in seconds. */
  method BlockWindow(ss: seq<Syllable>) returns (start: Number, end: real)
    requires |ss| > 0
    ensures start == Num(StartPrefix(ss, |ss|)) && end == EndPrefix(ss, |ss|)
  {
    start := PosInf;
    end := 0.0;
    for i := 0 to |ss|
      invariant start == if i == 0 then PosInf else Num(StartPrefix(ss, i))
      invariant end == EndPrefix(ss, i)
    {
      start := Min(start, Num(ss[i].startTime));
      end := MaxReal(end, ss[i].endTime);
    }
  }

  // ---------------------------------------------------------------------------
  // Interlude lines
  // ---------------------------------------------------------------------------

  function DotSize(env: Env): real {
    env.bgSize / 1.5
  }

  function DotsWidth(env: Env): real {
    InterludeDotCount as real * DotSize(env) + (InterludeDotCount - 1) as real * InterludeDotGap
  }

  /** Dot `i` of an interlude over `[start, end]`: its third of the window, placed after `i` dots and gaps. */
  function Dot(env: Env, start: real, end: real, i: nat): Element {
    var third := (end - start) / InterludeDotCount as real;
    var dotStart := start + i as real * third;
    var x := i as real * (DotSize(env) + InterludeDotGap);
    Element("", x, DotSize(env), DotSize(env), Num(dotStart), Num(dotStart + third), InterludeDotAmplitude,
            false, true, DotFont, -1)
  }

  function Dots(env: Env, start: real, end: real, n: nat): (r: seq<Element>)
    ensures |r| == n && forall i :: 0 <= i < n ==> r[i] == Dot(env, start, end, i)
  {
    if n == 0 then [] else Dots(env, start, end, n - 1) + [Dot(env, start, end, n - 1)]
  }

  function InterludeHeight(env: Env): real {
    DotSize(env) * LineHeightMultiplier
  }

  /** The interlude line over `[start, end]` at `y`, on the block's side. */
  function InterludeLine(env: Env, alignRight: bool, start: real, end: real, y: real, group: int): Line {
    var x := if alignRight then env.width - DotsWidth(env) - Horizontal(env) else Horizontal(env);
    Line(Dots(env, start, end, InterludeDotCount), y, InterludeHeight(env), Num(start), Num(end), alignRight,
         DotsWidth(env), true, group, Box(x, y, DotsWidth(env), InterludeHeight(env)))
  }

  /** The interlude's `for` loop over the dots. */
  method InterludeDots(env: Env, start: real, end: real) returns (dots: seq<Element>)
    ensures dots == Dots(env, start, end, InterludeDotCount)
  {
    dots := [];
    for i := 0 to InterludeDotCount
      invariant dots == Dots(env, start, end, i)
    {
      dots := dots + [Dot(env, start, end, i)];
    }
  }

  // ---------------------------------------------------------------------------
  // Blocks
  // ---------------------------------------------------------------------------

  /** The pass's running state: the lines, `currentY`, `lastEndTime` (ms) and `lineGroupCounter`. */
  datatype Acc = Acc(lines: seq<Line>, y: real, lastEndTime: real, groupCounter: int)

  /** The background parts of a block laid out one after another, in the block's group. */
  function BackgroundFold(env: Env, group: int, alignRight: bool, lines: seq<Line>, y: real, ps: seq<VocalPart>)
    : (seq<Line>, real)
    decreases |ps|
  {
    if |ps| == 0 then (lines, y)
    else
      var r := LayoutPart(PartCtx(env, false, group, alignRight), lines, y, ps[0]);
      BackgroundFold(env, group, alignRight, r.0, r.1, ps[1..])
  }

  /** A block's own lines: the lead part, then each background part, all in the block's group. */
  function BlockParts(env: Env, b: SyllableLine, group: int, lines: seq<Line>, y: real): (seq<Line>, real) {
    var r := LayoutPart(PartCtx(env, true, group, b.oppositeAligned), lines, y, b.lead);
    var bg := BackgroundParts(b);
    BackgroundFold(env, group, b.oppositeAligned, r.0, r.1, bg)
  }

  /** Whether a block starting at `blockStart` seconds gets an interlude line before it. */
  predicate HasInterlude(a: Acc, blockStart: real) {
    blockStart * 1000.0 - a.lastEndTime > InterludeThresholdMs
  }

  /**
   * The state before a block's own lines: the block takes the next group
   * number; a gap of 0.8 background sizes separates it from any earlier
   * line; an interlude line, with the group number after the block's, fills
   * the silence when there is one.
   */
  function BlockOpen(env: Env, a: Acc, b: SyllableLine, blockStart: real): Acc {
    var y1 := if |a.lines| > 0 then a.y + env.bgSize * LineGapBetweenGroups else a.y;
    if HasInterlude(a, blockStart) then
      var il := InterludeLine(env, b.oppositeAligned, a.lastEndTime, blockStart * 1000.0, y1, a.groupCounter + 1);
      Acc(a.lines + [il], y1 + InterludeHeight(env) * (1.0 + LineGapBetweenGroups), a.lastEndTime, a.groupCounter + 2)
    else
      Acc(a.lines, y1, a.lastEndTime, a.groupCounter + 1)
  }

  /** One block of `data.Content.forEach`; a block without syllables is skipped. */
  function BlockStep(env: Env, a: Acc, b: SyllableLine): Acc {
    var ss := AllSyllables(b);
    if |ss| == 0 then a
    else
      var o := BlockOpen(env, a, b, StartPrefix(ss, |ss|));
      var r := BlockParts(env, b, a.groupCounter, o.lines, o.y);
      Acc(r.0, r.1, EndPrefix(ss, |ss|) * 1000.0, o.groupCounter)
  }

  function BlocksFold(env: Env, a: Acc, bs: seq<SyllableLine>, k: nat): Acc
    requires k <= |bs|
  {
    if k == 0 then a else BlockStep(env, BlocksFold(env, a, bs, k - 1), bs[k - 1])
  }

  function Start(env: Env): Acc {
    Acc([], Top(env.height), 0.0, 0)
  }

  // ---------------------------------------------------------------------------
  // Credits
  // ---------------------------------------------------------------------------

  function CreditsFontSize(env: Env): real {
    env.bgSize * CreditsFontSizeRatio
  }

  function CreditsLineHeight(env: Env): real {
    CreditsFontSize(env) * LineHeightMultiplier
  }

  function CreditsText(songWriters: seq<string>): string {
    "Credits: " + Join(songWriters, ", ")
  }

  /** A credits line: one element with the whole text, never active (its window is Infinity), centred for its box. */
  function CreditsLine(env: Env, text: string, y: real): Line {
    var w := env.measure(text, CreditsFont);
    Line([Element(text, 0.0, w, CreditsFontSize(env), PosInf, PosInf, 0.0, false, false, CreditsFont, CreditsGroup)],
         y, CreditsLineHeight(env), PosInf, PosInf, false, w, false, CreditsGroup,
         Box((env.width - w) / 2.0, y, w, CreditsLineHeight(env)))
  }

  /** The credits pass's state: lines, `currentY`, the open line's words and its running width. */
  datatype CreditsAcc = CreditsAcc(lines: seq<Line>, y: real, words: seq<string>, width: real)

  /** `pushCreditsLine`: emit the open words, joined by spaces, as a line. */
  function PushCredits(env: Env, a: CreditsAcc): CreditsAcc {
    if |a.words| == 0 then a
    else CreditsAcc(a.lines + [CreditsLine(env, Join(a.words, " "), a.y)], a.y + CreditsLineHeight(env), [], 0.0)
  }

  /** One credits word: a new line first when the open one has words and the word with a space would overflow it. */
  function CreditsStep(env: Env, a: CreditsAcc, word: string): CreditsAcc {
    var space := env.measure(" ", CreditsFont);
    var w := env.measure(word, CreditsFont);
    var a1 := if |a.words| > 0 && a.width + space + w > AvailableWidth(env) then PushCredits(env, a) else a;
    var words := a1.words + [word];
    a1.(words := words, width := a1.width + (if |words| > 1 then space else 0.0) + w)
  }

  function CreditsFold(env: Env, a: CreditsAcc, ws: seq<string>, k: nat): CreditsAcc
    requires k <= |ws|
  {
    if k == 0 then a else CreditsStep(env, CreditsFold(env, a, ws, k - 1), ws[k - 1])
  }

  /** The lines after the credits, which are only added when there are song writers. */
  function WithCredits(env: Env, lines: seq<Line>, y: real, songWriters: seq<string>): seq<Line> {
    if |songWriters| == 0 then lines
    else
      var ws := Split(CreditsText(songWriters), ' ');
      PushCredits(env, CreditsFold(env, CreditsStart(env, lines, y), ws, |ws|)).lines
  }

  /** The credits start two group gaps below the last line, with no words open. */
  function CreditsStart(env: Env, lines: seq<Line>, y: real): CreditsAcc {
    CreditsAcc(lines, y + env.bgSize * LineGapBetweenGroups * 2.0, [], 0.0)
  }

  // ---------------------------------------------------------------------------
  // Scroll range and group boxes
  // ---------------------------------------------------------------------------

  /** How far the view may scroll: the last line's top, plus the bottom padding, less the height; never below 0. */
  function MaxScrollY(env: Env, lines: seq<Line>): real {
    MaxReal(0.0, if |lines| > 0 then lines[|lines| - 1].y + Bottom(env.height) - env.height else 0.0)
  }

  /** Lines that count for their group's box: neither interlude nor credits lines. */
  predicate Boxed(l: Line) {
    !l.isInterlude && l.lineGroup != CreditsGroup
  }

  /** The boxed lines of each group, in layout order. */
  function GroupsOf(lines: seq<Line>): map<int, seq<Line>> {
    if |lines| == 0 then map[]
    else
      var m := GroupsOf(lines[..|lines| - 1]);
      var l := lines[|lines| - 1];
      if Boxed(l) then m[l.lineGroup := (if l.lineGroup in m then m[l.lineGroup] else []) + [l]] else m
  }

  /** The groups in the order they were first met, as the map's insertion order keeps them. */
  function GroupOrder(lines: seq<Line>): seq<int> {
    if |lines| == 0 then []
    else
      var o := GroupOrder(lines[..|lines| - 1]);
      var l := lines[|lines| - 1];
      if Boxed(l) && l.lineGroup !in o then o + [l.lineGroup] else o
  }

  lemma {:induction false} GroupsShape(lines: seq<Line>)
    ensures (set g | g in GroupOrder(lines)) == GroupsOf(lines).Keys
    ensures forall g :: g in GroupsOf(lines) ==> |GroupsOf(lines)[g]| > 0
    ensures forall i, j :: 0 <= i < j < |GroupOrder(lines)| ==> GroupOrder(lines)[i] != GroupOrder(lines)[j]
  {
    if |lines| > 0 {
      GroupsShape(lines[..|lines| - 1]);
    }
  }

  /** The topmost line top of a non-empty list of lines (`Math.min(...)`). */
  function MinY(ls: seq<Line>): (r: real)
    requires |ls| > 0
    ensures forall j :: 0 <= j < |ls| ==> r <= ls[j].y
    ensures exists j :: 0 <= j < |ls| && r == ls[j].y
  {
    if |ls| == 1 then ls[0].y else MinReal(MinY(ls[..|ls| - 1]), ls[|ls| - 1].y)
  }

  /** The lowest line bottom of a non-empty list of lines (`Math.max(...)`). */
  function MaxBottom(ls: seq<Line>): (r: real)
    requires |ls| > 0
    ensures forall j :: 0 <= j < |ls| ==> r >= ls[j].y + ls[j].height
    ensures exists j :: 0 <= j < |ls| && r == ls[j].y + ls[j].height
  {
    if |ls| == 1 then ls[0].y + ls[0].height else MaxReal(MaxBottom(ls[..|ls| - 1]), ls[|ls| - 1].y + ls[|ls| - 1].height)
  }

  /** A group's box: across the available width, from its top line's top to its lowest line's bottom. */
  function GroupBox(env: Env, ls: seq<Line>): Box
    requires |ls| > 0
  {
    Box(Horizontal(env), MinY(ls), env.width - Horizontal(env) * 2.0, MaxBottom(ls) - MinY(ls))
  }

  /** The group boxes in insertion order; none at all when there are no lines. */
  function Boxes(env: Env, lines: seq<Line>): seq<(int, Box)> {
    if |lines| == 0 then []
    else
      var order := GroupOrder(lines);
      var m := GroupsOf(lines);
      GroupsShape(lines);
      seq(|order|, i requires 0 <= i < |order| => (order[i], GroupBox(env, m[order[i]])))
  }

  /** What a pass leaves behind: the lines, the scroll range and the group boxes. */
  datatype Layout = Layout(lines: seq<Line>, maxScrollY: real, boxes: seq<(int, Box)>)

  function LayoutLines(env: Env, blocks: seq<SyllableLine>, songWriters: seq<string>): seq<Line> {
    var a := BlocksFold(env, Start(env), blocks, |blocks|);
    WithCredits(env, a.lines, a.y, songWriters)
  }

  function LayoutOf(env: Env, blocks: seq<SyllableLine>, songWriters: seq<string>): Layout {
    var lines := LayoutLines(env, blocks, songWriters);
    Layout(lines, MaxScrollY(env, lines), Boxes(env, lines))
  }

  // ---------------------------------------------------------------------------
  // The pass itself
  // ---------------------------------------------------------------------------

  /** `content.Background.forEach(processPart)`. */
  method LayoutBackground(env: Env, group: int, alignRight: bool, lines: seq<Line>, y: real, ps: seq<VocalPart>)
    returns (newLines: seq<Line>, newY: real)
    ensures (newLines, newY) == BackgroundFold(env, group, alignRight, lines, y, ps)
  {
    newLines, newY := lines, y;
    for k := 0 to |ps|
      invariant BackgroundFold(env, group, alignRight, newLines, newY, ps[k..]) == BackgroundFold(env, group, alignRight, lines, y, ps)
    {
      assert ps[k..][1..] == ps[k + 1..];
      newLines, newY := ProcessPart(PartCtx(env, false, group, alignRight), newLines, newY, ps[k]);
    }
    assert ps[|ps|..] == [];
  }

  /** The gap and the interlude before a block's own lines. */
  method OpenBlock(env: Env, a: Acc, b: SyllableLine, blockStart: real) returns (o: Acc)
    ensures o == BlockOpen(env, a, b, blockStart)
  {
    var y := a.y;
    if |a.lines| > 0 {
      y := y + env.bgSize * LineGapBetweenGroups;
    }
    if blockStart * 1000.0 - a.lastEndTime > InterludeThresholdMs {
      var dots := InterludeDots(env, a.lastEndTime, blockStart * 1000.0);
      var h := DotSize(env) * LineHeightMultiplier;
      var x := Horizontal(env);
      if b.oppositeAligned {
        x := env.width - DotsWidth(env) - Horizontal(env);
      }
      var il := Line(dots, y, h, Num(a.lastEndTime), Num(blockStart * 1000.0), b.oppositeAligned, DotsWidth(env),
                     true, a.groupCounter + 1, Box(x, y, DotsWidth(env), h));
      o := Acc(a.lines + [il], y + h * (1.0 + LineGapBetweenGroups), a.lastEndTime, a.groupCounter + 2);
    } else {
      o := Acc(a.lines, y, a.lastEndTime, a.groupCounter + 1);
    }
  }

  /** One iteration of `data.Content.forEach`. */
  method LayoutBlock(env: Env, a: Acc, b: SyllableLine) returns (r: Acc)
    ensures r == BlockStep(env, a, b)
  {
    var ss := b.lead.syllables + PartsSyllables(BackgroundParts(b));
    if |ss| == 0 {
      return a;
    }
    var start, end := BlockWindow(ss);
    var o := OpenBlock(env, a, b, start.v);
    var lines, y := ProcessPart(PartCtx(env, true, a.groupCounter, b.oppositeAligned), o.lines, o.y, b.lead);
    lines, y := LayoutBackground(env, a.groupCounter, b.oppositeAligned, lines, y, BackgroundParts(b));
    r := Acc(lines, y, end * 1000.0, o.groupCounter);
  }

  /** The credits `for` loop and the last `pushCreditsLine`. */
  method LayoutCredits(env: Env, lines: seq<Line>, y: real, songWriters: seq<string>) returns (newLines: seq<Line>)
    ensures newLines == WithCredits(env, lines, y, songWriters)
  {
    if |songWriters| == 0 {
      return lines;
    }
    var words := Split(CreditsText(songWriters), ' ');
    var a := CreditsWords(env, CreditsStart(env, lines, y), words);
    newLines := PushCredits(env, a).lines;
  }

  /** The credits `for (const word of words)` loop. */
  method CreditsWords(env: Env, a0: CreditsAcc, words: seq<string>) returns (a: CreditsAcc)
    ensures a == CreditsFold(env, a0, words, |words|)
  {
    a := a0;
    for k := 0 to |words|
      invariant a == CreditsFold(env, a0, words, k)
    {
      a := CreditsWord(env, a, words[k]);
    }
  }

  /** One credits word: the loop body. */
  method CreditsWord(env: Env, a: CreditsAcc, word: string) returns (r: CreditsAcc)
    ensures r == CreditsStep(env, a, word)
  {
    var space := env.measure(" ", CreditsFont);
    var w := env.measure(word, CreditsFont);
    r := a;
    if |r.words| > 0 && r.width + space + w > AvailableWidth(env) {
      r := PushCredits(env, r);
    }
    var open := r.words + [word];
    r := r.(words := open, width := r.width + (if |open| > 1 then space else 0.0) + w);
  }

  /** `lines.forEach` into the groups map, then `groups.forEach` into the boxes. */
  method GroupBoxes(env: Env, lines: seq<Line>) returns (boxes: seq<(int, Box)>)
    ensures boxes == Boxes(env, lines)
  {
    if |lines| == 0 {
      return [];
    }
    var groups: map<int, seq<Line>> := map[];
    var order: seq<int> := [];
    for i := 0 to |lines|
      invariant groups == GroupsOf(lines[..i]) && order == GroupOrder(lines[..i])
    {
      assert lines[..i + 1][..i] == lines[..i];
      var l := lines[i];
      if Boxed(l) {
        if l.lineGroup !in groups {
          groups := groups[l.lineGroup := []];
        }
        groups := groups[l.lineGroup := groups[l.lineGroup] + [l]];
      }
      if Boxed(l) && l.lineGroup !in order {
        order := order + [l.lineGroup];
      }
    }
    assert lines[..|lines|] == lines;
    GroupsShape(lines);
    boxes := [];
    for k := 0 to |order|
      invariant |boxes| == k
      invariant forall j :: 0 <= j < k ==> boxes[j] == (order[j], GroupBox(env, groups[order[j]]))
    {
      boxes := boxes + [(order[k], GroupBox(env, groups[order[k]]))];
    }
  }

  /** `recalculateLayout` on a canvas whose width is not 0. */
  method RecalculateLayout(env: Env, blocks: seq<SyllableLine>, songWriters: seq<string>) returns (layout: Layout)
    ensures layout == LayoutOf(env, blocks, songWriters)
  {
    var a := Start(env);
    for k := 0 to |blocks|
      invariant a == BlocksFold(env, Start(env), blocks, k)
    {
      a := LayoutBlock(env, a, blocks[k]);
    }
    var lines := LayoutCredits(env, a.lines, a.y, songWriters);
    var boxes := GroupBoxes(env, lines);
    layout := Layout(lines, MaxReal(0.0, if |lines| > 0 then lines[|lines| - 1].y + Bottom(env.height) - env.height else 0.0), boxes);
  }
}
