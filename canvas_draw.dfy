/**
 * What one animation frame of the canvas renderer decides, as values: which
 * lines and groups are active, which line the view follows, where the view
 * scrolls to and how fast, how groups fade and grow, and how interlude dots
 * and word fills progress. Drawing itself is not modelled.
 */
module CanvasDraw {
  import opened Wrappers
  import opened JsNumber
  import opened CanvasText
  import opened CanvasLayout

  const RecentlyPastMs: real := 500.0
  const AboutToStartMs: real := 200.0
  const ScrollSmoothing: real := 0.1
  const AlphaSmoothing: real := 0.2
  const ScaleSmoothing: real := 0.15
  const HoverSmoothing: real := 0.15
  const ActiveAlpha: real := 1.0
  const PastAlpha: real := 0.4
  const IdleAlpha: real := 0.5
  const ActiveScale: real := 1.02
  const ShowDelayMs: real := 300.0
  const GlowMaxBlur: real := 16.0
  const HoverPadX: real := 16.0
  const HoverPadY: real := 12.0
  const FillEdge: real := 0.1

  // ---------------------------------------------------------------------------
  // Activity
  // ---------------------------------------------------------------------------

  /** `progress >= line.start && progress <= line.end` */
  predicate InWindow(p: real, l: Line) {
    Le(l.start, Num(p)) && Le(Num(p), l.end)
  }

  /** A line is active while sung, for 500 ms after it ends and 200 ms before it starts. */
  predicate LineActive(p: real, l: Line) {
    InWindow(p, l)
    || (Lt(l.end, Num(p)) && Lt(SubFrom(p, l.end), Num(RecentlyPastMs)))
    || (Lt(Num(p), l.start) && Lt(Sub(l.start, p), Num(AboutToStartMs)))
  }

  /**
   * The activity window: a line with a finite, non-reversed window is active
   * exactly when progress lies strictly between 200 ms before its start and
   * 500 ms after its end; a credits line, whose window is Infinity, never is.
   */
  lemma ActivityWindow(p: real, l: Line)
    ensures l.start.Num? && l.end.Num? && l.start.v <= l.end.v ==>
      (LineActive(p, l) <==> l.start.v - AboutToStartMs < p < l.end.v + RecentlyPastMs)
    ensures l.start == PosInf && l.end == PosInf ==> !LineActive(p, l)
  {
  }

  /** The groups of the active lines. */
  function ActiveGroups(p: real, lines: seq<Line>): (r: set<int>)
    ensures forall g :: g in r <==> exists j :: 0 <= j < |lines| && LineActive(p, lines[j]) && lines[j].lineGroup == g
  {
    set j | 0 <= j < |lines| && LineActive(p, lines[j]) :: lines[j].lineGroup
  }

  /** A line the view may follow: one being sung or already over. */
  predicate Reached(p: real, l: Line) {
    InWindow(p, l) || Lt(l.end, Num(p))
  }

  /** The last reached line, if any. */
  function LastReached(p: real, lines: seq<Line>): (r: Option<nat>)
    ensures r.Some? ==> (r.value < |lines| && Reached(p, lines[r.value])
                         && forall j :: r.value < j < |lines| ==> !Reached(p, lines[j]))
    ensures r.None? ==> forall j :: 0 <= j < |lines| ==> !Reached(p, lines[j])
  {
    if |lines| == 0 then None
    else if Reached(p, lines[|lines| - 1]) then Some(|lines| - 1)
    else LastReached(p, lines[..|lines| - 1])
  }

  /** The index of the first line of group `g`, if any. */
  function FirstOfGroup(lines: seq<Line>, g: int): (r: Option<nat>)
    ensures r.Some? ==> (r.value < |lines| && lines[r.value].lineGroup == g
                         && forall j :: 0 <= j < r.value ==> lines[j].lineGroup != g)
    ensures r.None? ==> forall j :: 0 <= j < |lines| ==> lines[j].lineGroup != g
  {
    if |lines| == 0 then None
    else if lines[0].lineGroup == g then Some(0)
    else match FirstOfGroup(lines[1..], g)
      case None => None
      case Some(i) => Some(i + 1)
  }

  lemma ActiveGroupsSnoc(p: real, lines: seq<Line>)
    requires |lines| > 0
    ensures var l := lines[|lines| - 1];
      ActiveGroups(p, lines) == ActiveGroups(p, lines[..|lines| - 1]) + (if LineActive(p, l) then {l.lineGroup} else {})
  {
    var init := lines[..|lines| - 1];
    assert forall j :: 0 <= j < |init| ==> init[j] == lines[j];
  }

  /** The least group among the active lines (`Math.min(...activeGroups)`), none when no line is active. */
  function LeastActive(p: real, lines: seq<Line>): (r: Option<int>)
    ensures r.None? <==> ActiveGroups(p, lines) == {}
    ensures r.Some? ==> (r.value in ActiveGroups(p, lines) && forall g :: g in ActiveGroups(p, lines) ==> r.value <= g)
  {
    if |lines| == 0 then None
    else
      var init := lines[..|lines| - 1];
      var l := lines[|lines| - 1];
      ActiveGroupsSnoc(p, lines);
      var m := LeastActive(p, init);
      if !LineActive(p, l) then m
      else if m.None? || l.lineGroup < m.value then Some(l.lineGroup)
      else m
  }

  /**
   * The line the view follows: the last reached line; failing that, the
   * first line of the least active group; failing that, the first line.
   */
  function Focus(p: real, lines: seq<Line>): (r: Option<nat>)
    ensures r.Some? ==> r.value < |lines|
  {
    match LastReached(p, lines)
    case Some(i) => Some(i)
    case None =>
      if |lines| == 0 then None
      else
        match LeastActive(p, lines)
        case Some(g) => FirstOfGroup(lines, g)
        case None => Some(0)
  }

  /**
   * There is a line to follow exactly when there are lines; before anything
   * is reached it is the first line of the least active group, or the first
   * line when no group is active.
   */
  lemma FocusRule(p: real, lines: seq<Line>)
    ensures Focus(p, lines).Some? <==> |lines| > 0
    ensures Focus(p, lines).Some? ==> Focus(p, lines).value < |lines|
    ensures LastReached(p, lines).None? && LeastActive(p, lines).Some? ==>
      var g := LeastActive(p, lines).value;
      Focus(p, lines).Some? && lines[Focus(p, lines).value].lineGroup == g
      && forall j :: 0 <= j < Focus(p, lines).value ==> lines[j].lineGroup != g
    ensures LastReached(p, lines).None? && ActiveGroups(p, lines) == {} && |lines| > 0 ==> Focus(p, lines) == Some(0)
  {
    if LastReached(p, lines).None? && LeastActive(p, lines).Some? {
      var g := LeastActive(p, lines).value;
      var j :| 0 <= j < |lines| && LineActive(p, lines[j]) && lines[j].lineGroup == g;
    }
  }

  lemma ScanStep(p: real, lines: seq<Line>, i: nat)
    requires i < |lines|
    ensures ActiveGroups(p, lines[..i + 1])
      == ActiveGroups(p, lines[..i]) + (if LineActive(p, lines[i]) then {lines[i].lineGroup} else {})
    ensures LastReached(p, lines[..i + 1]) == if Reached(p, lines[i]) then Some(i) else LastReached(p, lines[..i])
  {
    assert lines[..i + 1][..i] == lines[..i];
    ActiveGroupsSnoc(p, lines[..i + 1]);
  }

  /** One pass over the lines for the frame: the active groups and the last reached line. */
  method ScanLines(p: real, lines: seq<Line>) returns (groups: set<int>, primary: Option<nat>)
    ensures groups == ActiveGroups(p, lines) && primary == LastReached(p, lines)
  {
    groups := {};
    primary := None;
    for i := 0 to |lines|
      invariant groups == ActiveGroups(p, lines[..i]) && primary == LastReached(p, lines[..i])
    {
      ScanStep(p, lines, i);
      if LineActive(p, lines[i]) {
        groups := groups + {lines[i].lineGroup};
      }
      if Reached(p, lines[i]) {
        primary := Some(i);
      }
    }
    assert lines[..|lines|] == lines;
  }

  // ---------------------------------------------------------------------------
  // Scrolling
  // ---------------------------------------------------------------------------

  /** The lines of group `g` (interludes included). */
  function OfGroup(lines: seq<Line>, g: int): (r: seq<Line>)
    ensures forall l :: l in r <==> l in lines && l.lineGroup == g
  {
    if |lines| == 0 then []
    else OfGroup(lines[..|lines| - 1], g) + (if lines[|lines| - 1].lineGroup == g then [lines[|lines| - 1]] else [])
  }

  /** Where auto-scroll aims: the group's middle at the view's middle, moved by the offset, within `[0, maxScrollY]`. */
  function ScrollTarget(height: real, maxScrollY: real, ls: seq<Line>, offset: real): real
    requires |ls| > 0
  {
    var top := MinY(ls);
    var bottom := MaxBottom(ls);
    MaxReal(0.0, MinReal(maxScrollY, top - height / 2.0 + (bottom - top) / 2.0 + offset))
  }

  /**
   * The target stays in `[0, maxScrollY]`; when that range allows it, the
   * group's middle lands at the view's middle less the offset.
   */
  lemma ScrollTargetRange(height: real, maxScrollY: real, ls: seq<Line>, offset: real)
    requires |ls| > 0 && maxScrollY >= 0.0
    ensures var t := ScrollTarget(height, maxScrollY, ls, offset);
      0.0 <= t <= maxScrollY
      && (0.0 <= MinY(ls) - height / 2.0 + (MaxBottom(ls) - MinY(ls)) / 2.0 + offset <= maxScrollY ==>
            (MinY(ls) + MaxBottom(ls)) / 2.0 - t == height / 2.0 - offset)
  {
  }

  /** One frame of smoothing: a tenth of the way to the target, then into `[0, maxScrollY]`. */
  function ScrollStep(scrollY: real, target: real, maxScrollY: real): real {
    var s := scrollY + (target - scrollY) * ScrollSmoothing;
    MaxReal(0.0, MinReal(maxScrollY, s))
  }

  /** `x + (target - x) * f` */
  function Ease(x: real, target: real, f: real): real {
    x + (target - x) * f
  }

  /** Easing by a factor in `(0, 1]` lands between the value and the target and leaves `1 - f` of the gap. */
  lemma EaseCloses(x: real, target: real, f: real)
    requires 0.0 < f <= 1.0
    ensures var y := Ease(x, target, f);
      target - y == (1.0 - f) * (target - x)
      && (x <= target ==> x <= y <= target) && (target <= x ==> target <= y <= x)
  {
    var d := target - x;
    if d >= 0.0 {
      assert d * f >= 0.0 && d * (1.0 - f) >= 0.0;
    } else {
      assert -d * f >= 0.0 && -d * (1.0 - f) >= 0.0;
    }
  }

  /**
   * From a position in `[0, maxScrollY]` towards a target in that range, the
   * clamp never bites: the view covers a tenth of the remaining distance.
   */
  lemma ScrollStepCloses(scrollY: real, target: real, maxScrollY: real)
    requires 0.0 <= scrollY <= maxScrollY && 0.0 <= target <= maxScrollY
    ensures var s := ScrollStep(scrollY, target, maxScrollY);
      0.0 <= s <= maxScrollY && target - s == (1.0 - ScrollSmoothing) * (target - scrollY)
  {
    EaseCloses(scrollY, target, ScrollSmoothing);
  }

  /** Whatever the position, one step leaves the view in `[0, maxScrollY]`. */
  lemma ScrollStepInRange(scrollY: real, target: real, maxScrollY: real)
    requires maxScrollY >= 0.0
    ensures 0.0 <= ScrollStep(scrollY, target, maxScrollY) <= maxScrollY
  {
  }

  /** A line lies in the band between the top padding and the bottom padding of the view. */
  predicate InView(height: real, scrollY: real, l: Line) {
    var top := l.y - scrollY;
    top < height - Bottom(height) && top + l.height > Top(height)
  }

  // ---------------------------------------------------------------------------
  // Group fade and growth
  // ---------------------------------------------------------------------------

  /** The latest end among a group's non-interlude lines, or 0 when it has none. */
  function GroupEnd(lines: seq<Line>, g: int): Number {
    var ends := EndsOf(lines, g);
    if ends.NegInf? then Num(0.0) else ends
  }

  /** `Math.max` over the ends of the group's non-interlude lines; -Infinity for none. */
  function EndsOf(lines: seq<Line>, g: int): (r: Number)
    ensures forall j :: 0 <= j < |lines| && lines[j].lineGroup == g && !lines[j].isInterlude && !r.NaN? && !lines[j].end.NaN? ==>
      Le(lines[j].end, r)
    ensures r.NegInf? && NoneNegInf(lines) ==> forall j :: 0 <= j < |lines| ==> lines[j].lineGroup != g || lines[j].isInterlude
  {
    if |lines| == 0 then NegInf
    else
      var m := EndsOf(lines[..|lines| - 1], g);
      var l := lines[|lines| - 1];
      if l.lineGroup == g && !l.isInterlude then Max(m, l.end) else m
  }

  predicate NoneNegInf(lines: seq<Line>) {
    forall j :: 0 <= j < |lines| ==> !lines[j].end.NegInf?
  }

  /** `progress > groupEnd + 500 && groupEnd > 0` */
  predicate FullyPast(p: real, lines: seq<Line>, g: int) {
    var e := GroupEnd(lines, g);
    Lt(Add(e, RecentlyPastMs), Num(p)) && Lt(Num(0.0), e)
  }

  function TargetAlpha(active: bool, fullyPast: bool): real {
    if active then ActiveAlpha else if fullyPast then PastAlpha else IdleAlpha
  }

  function TargetScale(active: bool): real {
    if active then ActiveScale else 1.0
  }

  /** A group's alpha and scale after a frame; one not seen before starts at its targets. */
  function GroupLook(p: real, lines: seq<Line>, groups: set<int>, g: int, alpha: Option<real>, scale: Option<real>): (real, real) {
    var active := g in groups;
    var ta := TargetAlpha(active, FullyPast(p, lines, g));
    var ts := TargetScale(active);
    (Ease(alpha.GetOr(ta), ta, AlphaSmoothing), Ease(scale.GetOr(ts), ts, ScaleSmoothing))
  }

  /**
   * What a frame does to a group's look: a new group sits at its targets; a
   * known one covers a fifth of the way to its alpha target and 15% of the
   * way to its scale target; the targets are 1.0 and 1.02 while active, 0.4
   * once fully past, 0.5 otherwise.
   */
  lemma GroupLookRule(p: real, lines: seq<Line>, groups: set<int>, g: int, alpha: Option<real>, scale: Option<real>)
    ensures var r := GroupLook(p, lines, groups, g, alpha, scale);
      var ta := if g in groups then 1.0 else if FullyPast(p, lines, g) then 0.4 else 0.5;
      var ts := if g in groups then 1.02 else 1.0;
      (alpha.None? ==> r.0 == ta) && (scale.None? ==> r.1 == ts)
      && (alpha.Some? ==> ta - r.0 == 0.8 * (ta - alpha.value))
      && (scale.Some? ==> ts - r.1 == 0.85 * (ts - scale.value))
  {
  }

  // ---------------------------------------------------------------------------
  // Hover card
  // ---------------------------------------------------------------------------

  /** The hover card around a group box: 16 wider on each side, 12 taller above and below. */
  function HoverCard(b: Box): (r: Box)
    ensures r.x + r.width == b.x + b.width + HoverPadX && r.y + r.height == b.y + b.height + HoverPadY
    ensures r.x == b.x - HoverPadX && r.y == b.y - HoverPadY
  {
    Box(b.x - HoverPadX, b.y - HoverPadY, b.width + HoverPadX * 2.0, b.height + HoverPadY * 2.0)
  }

  // ---------------------------------------------------------------------------
  // Interlude dots
  // ---------------------------------------------------------------------------

  /** The interlude's opacity: a 300 ms fade in, full, a 300 ms fade out, and 0 outside its window. */
  function InterludeOpacity(p: real, start: real, end: real): real {
    var into := p - start;
    var total := end - start;
    var o := if 0.0 <= into < total then
               (if into < ShowDelayMs then into / ShowDelayMs
                else if into > total - ShowDelayMs then (total - into) / ShowDelayMs
                else 1.0)
             else 0.0;
    MaxReal(0.0, MinReal(1.0, o))
  }

  /**
   * The opacity lies in `[0, 1]`, is 0 before the interlude and from its end
   * on, and 1 from 300 ms in until 300 ms before its end.
   */
  lemma InterludeOpacityShape(p: real, start: real, end: real)
    ensures 0.0 <= InterludeOpacity(p, start, end) <= 1.0
    ensures p < start || p >= end ==> InterludeOpacity(p, start, end) == 0.0
    ensures start + ShowDelayMs <= p <= end - ShowDelayMs ==> InterludeOpacity(p, start, end) == 1.0
  {
  }

  /** A dot's rise, scale and glow at a progress through its window. */
  datatype DotLook = DotLook(lift: real, scale: real, blur: real)

  /** The dot's progress, `Math.max(0, Math.min(1, (progress - start) / (end - start)))`. */
  function DotProgress(p: real, start: real, end: real): Number {
    Clamp01(Div(p - start, end - start))
  }

  /** The envelope: rising to the amplitude and full size at the middle, back down by the end; 0.7 in size outside. */
  function DotEnvelope(dp: Number, amplitude: real): DotLook {
    var look :=
      if Lt(Num(0.0), dp) && Le(dp, Num(0.5)) then
        DotLook(amplitude * (dp.v / 0.5), 0.75 + dp.v / 2.0, dp.v * GlowMaxBlur * 2.0)
      else if Lt(Num(0.5), dp) && Le(dp, Num(1.0)) then
        DotLook(amplitude * (1.0 - (dp.v - 0.5) / 0.5), 1.0 - (dp.v - 0.5) / 0.5 / 4.0,
                (1.0 - (dp.v - 0.5) / 0.5) * GlowMaxBlur * 2.0)
      else DotLook(0.0, 0.7, 0.0);
    DotLook(look.lift, MaxReal(0.0, MinReal(1.0, look.scale)), MaxReal(0.0, MinReal(GlowMaxBlur, look.blur)))
  }

  /** The envelope stays in range: scale in `[0, 1]`, glow in `[0, 16]`, rise in `[0, amplitude]`. */
  lemma DotEnvelopeBounds(dp: Number, amplitude: real)
    requires amplitude >= 0.0
    ensures var e := DotEnvelope(dp, amplitude);
      0.0 <= e.scale <= 1.0 && 0.0 <= e.blur <= GlowMaxBlur && 0.0 <= e.lift <= amplitude
  {
    if Lt(Num(0.0), dp) && Le(dp, Num(0.5)) {
      var t := dp.v / 0.5;
      assert 0.0 < t <= 1.0;
      Rise(amplitude, t);
      assert DotEnvelope(dp, amplitude).lift == amplitude * t;
    } else if Lt(Num(0.5), dp) && Le(dp, Num(1.0)) {
      var t := 1.0 - (dp.v - 0.5) / 0.5;
      assert 0.0 <= t < 1.0;
      Rise(amplitude, t);
      assert DotEnvelope(dp, amplitude).lift == amplitude * t;
    }
  }

  lemma Rise(amplitude: real, t: real)
    requires amplitude >= 0.0 && 0.0 <= t <= 1.0
    ensures 0.0 <= amplitude * t <= amplitude
  {
    assert amplitude * (1.0 - t) >= 0.0;
  }

  /**
   * At the middle the dot is at full rise, size and glow; before its window
   * opens it rests at 0.7 of its size; rise and size are the same at equal
   * distances either side of the middle.
   */
  lemma DotEnvelopeShape(amplitude: real, d: real)
    ensures DotEnvelope(Num(0.5), amplitude) == DotLook(amplitude, 1.0, GlowMaxBlur)
    ensures DotEnvelope(Num(0.0), amplitude) == DotLook(0.0, 0.7, 0.0)
    ensures 0.0 < d < 0.5 ==>
      DotEnvelope(Num(0.5 - d), amplitude).lift == DotEnvelope(Num(0.5 + d), amplitude).lift
      && DotEnvelope(Num(0.5 - d), amplitude).scale == DotEnvelope(Num(0.5 + d), amplitude).scale
  {
    if 0.0 < d < 0.5 {
      assert (0.5 - d) / 0.5 == 1.0 - ((0.5 + d) - 0.5) / 0.5;
    }
  }

  /** A dot's look at a moment: its progress through its window, fed to the envelope. */
  function DotAt(p: real, e: Element): DotLook
    requires e.start.Num? && e.end.Num?
  {
    DotEnvelope(DotProgress(p, e.start.v, e.end.v), e.maxX)
  }

  // ---------------------------------------------------------------------------
  // Word fill
  // ---------------------------------------------------------------------------

  /** How a word is filled: not at all, solid, or a gradient through the four stops. */
  datatype Fill = NoFill | Solid | Gradient(stops: seq<real>)

  /**
   * The fill of a word: solid once it is over, a gradient around the sung
   * fraction while it is sung, nothing otherwise or while its group is not
   * active. A word whose window is a single instant counts as fully sung.
   */
  function WordFill(p: real, start: real, end: real, groupActive: bool): (r: Fill)
    ensures r.Gradient? ==> (|r.stops| == 4 && r.stops[0] == 0.0
                             && (forall i :: 0 <= i < 4 ==> 0.0 <= r.stops[i] <= 1.0)
                             && (forall i, j :: 0 <= i < j < 4 ==> r.stops[i] <= r.stops[j]))
    ensures r.Gradient? && start < end ==> r.stops[2] == (p - start) / (end - start)
    ensures r.Gradient? && start == end ==> r.stops[2] == 1.0
    ensures r.Solid? <==> groupActive && p > end
    ensures r.Gradient? <==> groupActive && start <= p <= end
  {
    if !groupActive then NoFill
    else if p > end then Solid
    else if start <= p then
      var wp := if start < end then SungFraction(p, start, end) else 1.0;
      Gradient([0.0, MaxReal(0.0, wp - FillEdge), wp, MinReal(1.0, wp + FillEdge)])
    else NoFill
  }

  function SungFraction(p: real, start: real, end: real): (r: real)
    requires start <= p <= end && start < end
    ensures 0.0 <= r <= 1.0 && r == (p - start) / (end - start)
  {
    RatioInUnit(p - start, end - start);
    (p - start) / (end - start)
  }

  /**
   * The fill as the frame loop computes it, with `addColorStop` throwing on
   * an offset that is not a finite number; the word's fraction is
   * `(progress - start) / (end - start)` clamped, which is NaN for a word
   * whose window is a single instant reached exactly.
   */
  function WordFillAsWritten(p: real, start: real, end: real, groupActive: bool): Outcome<Fill> {
    var past := p > end;
    var active := p >= start && p <= end;
    if !((active || past) && groupActive) then Returned(NoFill)
    else if past then Returned(Solid)
    else
      var wp := Clamp01(Div(p - start, end - start));
      var stops := [Num(0.0), Max(Num(0.0), Sub(wp, FillEdge)), wp, Min(Num(1.0), Add(wp, FillEdge))];
      if exists i :: 0 <= i < 4 && !stops[i].Num? then Threw
      else Returned(Gradient([0.0, stops[1].v, stops[2].v, stops[3].v]))
  }

  /**
   * The discrepancy: a word starting and ending at 1000 ms, at progress
   * 1000 ms in an active group, makes the frame throw as written, where the
   * corrected fill is a full gradient. For every word with a proper window
   * the two agree.
   */
  lemma WordFillAsWrittenThrows()
    ensures WordFillAsWritten(1000.0, 1000.0, 1000.0, true) == Threw
    ensures WordFill(1000.0, 1000.0, 1000.0, true) == Gradient([0.0, 0.9, 1.0, 1.0])
  {
    var stops := [Num(0.0), Max(Num(0.0), Sub(NaN, FillEdge)), NaN, Min(Num(1.0), Add(NaN, FillEdge))];
    assert !stops[2].Num?;
  }

  lemma WordFillAgrees(p: real, start: real, end: real, groupActive: bool)
    requires start < end
    ensures WordFillAsWritten(p, start, end, groupActive) == Returned(WordFill(p, start, end, groupActive))
  {
    if groupActive && start <= p <= end {
      var wp := (p - start) / (end - start);
      RatioInUnit(p - start, end - start);
      assert Clamp01(Div(p - start, end - start)) == Num(wp);
    }
  }
}
