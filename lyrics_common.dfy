/**
 * Helpers shared by the DOM lyric renderers: the status of a timed element,
 * the fade-out after its end, and the per-frame animation styles of a
 * syllable, which remember the previous call's fill in a module-level slot.
 */
module LyricTiming {
  import opened Wrappers
  import opened JsNumber

  /** How long a finished element takes to fade out, in milliseconds. */
  const FadeDuration: real := 1000.0

  datatype LineStatus = Future | Active | Past

  /** Position of a status in the only order the playhead can visit them. */
  function Rank(s: LineStatus): nat {
    match s
    case Future => 0
    case Active => 1
    case Past => 2
  }

  /**
   * `getStatus(start, end, progress)`: start and end are in seconds and the
   * progress in milliseconds.
   */
  function GetStatus(start: real, end: real, progress: real): (r: LineStatus)
    ensures r == Future <==> progress < start * 1000.0
    ensures r == Active <==> start * 1000.0 <= progress <= end * 1000.0
    ensures r == Past <==> start * 1000.0 <= progress && end * 1000.0 < progress
  {
    if progress < start * 1000.0 then Future
    else if progress >= start * 1000.0 && progress <= end * 1000.0 then Active
    else Past
  }

  /** As the playhead moves forward the status never moves back: future, then active, then past. */
  lemma StatusMonotone(start: real, end: real, p: real, q: real)
    requires p <= q
    ensures Rank(GetStatus(start, end, p)) <= Rank(GetStatus(start, end, q))
  {
  }

  /** An element whose end precedes its start is never active. */
  lemma InvertedWindowNeverActive(start: real, end: real, p: real)
    requires end < start
    ensures GetStatus(start, end, p) != Active
  {
  }

  /** `fadeToZero(progress, endTime)`: what is left of the fill `passed` ms after the end. */
  function FadeToZero(progress: real, end: real): (r: real)
    ensures progress - end >= FadeDuration ==> r == 0.0
    ensures progress == end ==> r == 100.0
    ensures 0.0 <= progress - end < FadeDuration ==> 0.0 < r <= 100.0
  {
    var passed := progress - end;
    if passed >= FadeDuration then 0.0 else 100.0 * (1.0 - passed / FadeDuration)
  }

  /** The fade only decreases as time passes, and reaches zero for good. */
  lemma FadeMonotone(end: real, p: real, q: real)
    requires p <= q
    ensures FadeToZero(q, end) <= FadeToZero(p, end)
  {
  }

  /** The fill percentage of a syllable window; start, end and progress in the same unit. */
  function Fill(start: real, end: real, progress: real): (r: Number)
    ensures progress < start ==> r == Num(0.0)
    ensures end < progress && start <= progress ==> r == Num(FadeToZero(progress, end))
    ensures r.NaN? <==> (progress == start && start == end)
    ensures !r.NaN? ==> r.Num? && 0.0 <= r.v <= 100.0
  {
    if progress < start then Num(0.0)
    else if progress > end then Num(FadeToZero(progress, end))
    else
      RatioInUnit(progress - start, end - start);
      Scale(Div(progress - start, end - start), 100.0)
  }

  /** Inside a non-empty window the fill grows linearly from 0 at the start to 100 at the end. */
  lemma FillLinear(start: real, end: real, progress: real)
    requires start < end && start <= progress <= end
    ensures Fill(start, end, progress) == Num((progress - start) / (end - start) * 100.0)
    ensures progress == start ==> Fill(start, end, progress) == Num(0.0)
    ensures progress == end ==> Fill(start, end, progress) == Num(100.0)
  {
    if progress == end {
      DivSelf(end - start);
      assert progress - start == end - start;
    }
    if progress == start {
      assert (progress - start) / (end - start) == 0.0;
    }
  }

  /** `isFading`: set exactly on the fade branch, after the end. */
  predicate IsFading(start: real, end: real, progress: real) {
    !(progress < start) && progress > end
  }

  /**
   * `${x}` for a number: a negative number is rendered as "-" followed by the
   * rendering of its magnitude (the rule of section 6.1.6.1.20 of ECMA-262);
   * `show` renders a non-negative magnitude.
   */
  function NumberText(x: Number, show: real -> string): (r: string)
    ensures x.Num? && x.v < 0.0 ==> r == "-" + show(-x.v)
    ensures x.Num? && x.v >= 0.0 ==> r == show(x.v)
  {
    match x
    case Num(v) => if v < 0.0 then "-" + show(-v) else show(v)
    case NaN => "NaN"
    case PosInf => "Infinity"
    case NegInf => "-Infinity"
  }

  /** `Math.min(0, -(fill / 100) * maxTranslateY)` */
  function TranslateY(fill: Number, maxTranslateY: real): (r: Number)
    ensures fill.NaN? ==> r.NaN?
    ensures fill.Num? ==> r.Num? && r.v <= 0.0
    ensures r.Num? ==> r.v <= 0.0
    ensures fill.Num? && fill.v >= 0.0 && maxTranslateY >= 0.0 ==> r == Num(-(fill.v / 100.0) * maxTranslateY)
  {
    Min(Num(0.0), Scale(Scale(fill, 1.0 / 100.0), -maxTranslateY))
  }

  /** The `--translateY` value of the full style object: the number, then `px`. */
  function TranslateText(t: Number, show: real -> string): string {
    NumberText(t, show) + "px"
  }

  /** The `--translateY` value of the `skipMask` branch as written: `-${translateY}px`. */
  function SkipMaskTranslateTextAsWritten(t: Number, show: real -> string): string {
    "-" + NumberText(t, show) + "px"
  }

  /**
   * As written, the `skipMask` branch negates a value that is already never
   * positive by prefixing a minus sign to its text: any positive fill gives a
   * value starting with `--`, which is not a CSS length.
   */
  lemma SkipMaskDoubleMinus(fill: real, maxTranslateY: real, show: real -> string)
    requires 0.0 < fill && 0.0 < maxTranslateY
    ensures var text := SkipMaskTranslateTextAsWritten(TranslateY(Num(fill), maxTranslateY), show);
      |text| >= 2 && text[..2] == "--"
  {
    var t := TranslateY(Num(fill), maxTranslateY);
    assert t.v < 0.0 by {
      assert t == Num(-(fill / 100.0) * maxTranslateY);
      assert (fill / 100.0) * maxTranslateY > 0.0;
    }
    var text := SkipMaskTranslateTextAsWritten(t, show);
    assert text == "-" + ("-" + show(-t.v)) + "px";
  }

  /**
   * The corrected `skipMask` value is the same text as the full style
   * object's, and for a positive fill it is a single negative number.
   */
  lemma SkipMaskTranslateAgrees(fill: real, maxTranslateY: real, show: real -> string)
    requires 0.0 < fill && 0.0 < maxTranslateY
    ensures var t := TranslateY(Num(fill), maxTranslateY);
      var text := TranslateText(t, show);
      text == "-" + show((fill / 100.0) * maxTranslateY) + "px"
  {
    var t := TranslateY(Num(fill), maxTranslateY);
    assert t == Num(-(fill / 100.0) * maxTranslateY);
    assert t.v < 0.0 by {
      assert (fill / 100.0) * maxTranslateY > 0.0;
    }
  }

  /** The mask gradient: `rgba(…, start) fill%` to `rgba(…, end) 100%`, or the solid mask while fading. */
  datatype Mask = Gradient(startOpacity: real, endOpacity: real, fillPct: Number) | Solid

  /** The inputs of `getAnimationStyles` that shape the result (the text-shadow blur and gradient side only pass through). */
  datatype AnimationProps = AnimationProps(
    startTime: real, endTime: real, progress: real,
    status: LineStatus, lineStatus: LineStatus,
    maxTranslateY: real, maxScale: real, skipMask: bool)

  /** What `getAnimationStyles` computes; `mask` is absent in the `skipMask` branch. */
  datatype AnimationStyles = AnimationStyles(
    fill: Number, isAnimating: bool, scale: real, translateY: Number, translateText: string,
    shadowOpacity: real, mask: Option<Mask>)

  /** `fillPercentage !== prevProgress && status !== 'future' && lineStatus !== 'future'` */
  predicate IsAnimating(fill: Number, prev: Number, status: LineStatus, lineStatus: LineStatus) {
    (fill.NaN? || prev.NaN? || fill != prev) && status != Future && lineStatus != Future
  }

  /** `(maskStartOpacity, maskEndOpacity)` */
  function MaskOpacities(p: AnimationProps, animating: bool): (r: (real, real))
    ensures p.status == Active || (p.startTime <= p.progress <= p.endTime) ==> r == (1.0, 0.4)
    ensures r.1 == 0.4 || r.1 == 1.0 || r.1 == 0.3
  {
    var base := if animating || p.lineStatus != Future then 1.0 else 0.3;
    if p.status == Active then (1.0, 0.4)
    else if p.progress >= p.startTime && p.progress <= p.endTime then (1.0, 0.4)
    else if p.progress < p.endTime && !animating then (0.4, 0.4)
    else (base, base)
  }

  /**
   * The styles of one call, given the fill the previous call left behind. The
   * `skipMask` branch carries the `--translateY` text as written, with the
   * extra minus sign.
   */
  function StylesOf(p: AnimationProps, prev: Number, show: real -> string): (r: AnimationStyles)
    ensures r.fill == Fill(p.startTime, p.endTime, p.progress)
    ensures r.isAnimating <==> IsAnimating(r.fill, prev, p.status, p.lineStatus)
    ensures r.translateY.Num? ==> r.translateY.v <= 0.0
    ensures r.mask.None? <==> p.skipMask
    ensures p.skipMask ==> r.translateText == "-" + NumberText(r.translateY, show) + "px"
    ensures !p.skipMask ==> r.translateText == NumberText(r.translateY, show) + "px"
  {
    var fill := Fill(p.startTime, p.endTime, p.progress);
    var animating := IsAnimating(fill, prev, p.status, p.lineStatus);
    var low := Le(fill, Num(25.0));
    var t := TranslateY(fill, p.maxTranslateY);
    var (ms, me) := MaskOpacities(p, animating);
    var mask :=
      if p.skipMask then None
      else if !IsFading(p.startTime, p.endTime, p.progress) || !animating then Some(Gradient(ms, me, fill))
      else Some(Solid);
    var text := if p.skipMask then SkipMaskTranslateTextAsWritten(t, show) else TranslateText(t, show);
    AnimationStyles(fill, animating, if low then 1.0 else p.maxScale, t, text,
                    if low then 0.05 else 0.75, mask)
  }

  /** `StylesOf` with the `skipMask` branch corrected to carry the same `--translateY` text as the full style object. */
  function StylesOfCorrected(p: AnimationProps, prev: Number, show: real -> string): (r: AnimationStyles)
    ensures r.translateText == NumberText(r.translateY, show) + "px"
    ensures var w := StylesOf(p, prev, show);
      r.fill == w.fill && r.isAnimating == w.isAnimating && r.scale == w.scale && r.translateY == w.translateY
      && r.shadowOpacity == w.shadowOpacity && r.mask == w.mask
  {
    var r := StylesOf(p, prev, show);
    r.(translateText := TranslateText(r.translateY, show))
  }

  /**
   * With a positive fill the as-written `skipMask` text starts with `--`, while
   * the corrected one is the single negative number of the full style object;
   * every other field of the two agrees.
   */
  lemma SkipMaskStylesDiffer(p: AnimationProps, prev: Number, show: real -> string)
    requires p.skipMask && p.startTime < p.progress < p.endTime && 0.0 < p.maxTranslateY
    ensures var w := StylesOf(p, prev, show);
      |w.translateText| >= 2 && w.translateText[..2] == "--"
    ensures var c := StylesOfCorrected(p, prev, show);
      c.translateY.Num? && c.translateText == "-" + show(-c.translateY.v) + "px"
  {
    var fill := Fill(p.startTime, p.endTime, p.progress);
    FillLinear(p.startTime, p.endTime, p.progress);
    assert fill.Num? && fill.v > 0.0;
    SkipMaskDoubleMinus(fill.v, p.maxTranslateY, show);
    SkipMaskTranslateAgrees(fill.v, p.maxTranslateY, show);
  }

  /**
   * Scale and shadow switch together at a fill of 25%: at or below it the
   * scale is 1 and the shadow faint, above it the maximum scale and the strong
   * shadow; an undefined fill counts as above.
   */
  lemma ScaleThreshold(p: AnimationProps, prev: Number, show: real -> string)
    ensures var r := StylesOf(p, prev, show);
      (r.fill.Num? && r.fill.v <= 25.0 ==> r.scale == 1.0 && r.shadowOpacity == 0.05)
      && (!(r.fill.Num? && r.fill.v <= 25.0) ==> r.scale == p.maxScale && r.shadowOpacity == 0.75)
  {
  }

  /** Nothing animates while the syllable or its line lies in the future. */
  lemma FutureNotAnimating(p: AnimationProps, prev: Number, show: real -> string)
    requires p.status == Future || p.lineStatus == Future
    ensures !StylesOf(p, prev, show).isAnimating
  {
  }

  /**
   * Two consecutive calls with the same inputs: the second sees its own fill
   * in the shared slot and reports no animation, unless the fill is undefined.
   */
  lemma RepeatedCallStops(p: AnimationProps, prev: Number, show: real -> string)
    ensures var first := StylesOf(p, prev, show);
      first.fill.Num? ==> !StylesOf(p, first.fill, show).isAnimating
  {
  }

  /**
   * Because the slot is shared, a call for another syllable in between makes
   * the repeated call animate again: the result depends on call order.
   */
  lemma InterleavedCallAnimates(p: AnimationProps, q: AnimationProps, prev: Number, show: real -> string)
    requires p.status != Future && p.lineStatus != Future
    requires StylesOf(p, prev, show).fill != StylesOf(q, StylesOf(p, prev, show).fill, show).fill
    ensures var second := StylesOf(q, StylesOf(p, prev, show).fill, show);
      StylesOf(p, second.fill, show).isAnimating
  {
  }

  /** The module-level `prevProgress` slot and the function that reads and overwrites it. */
  class AnimationClock {
    var prevProgress: Number

    constructor()
      ensures prevProgress == Num(-1.0)
    {
      prevProgress := Num(-1.0);
    }

    /** `getAnimationStyles(props)`; every call overwrites the slot with its fill. */
    method GetAnimationStyles(p: AnimationProps, show: real -> string) returns (r: AnimationStyles)
      modifies this
      ensures r == StylesOf(p, old(prevProgress), show)
      ensures prevProgress == r.fill
    {
      var fill := Fill(p.startTime, p.endTime, p.progress);
      var isFading := IsFading(p.startTime, p.endTime, p.progress);
      var animating := fill.NaN? || prevProgress.NaN? || fill != prevProgress;
      animating := animating && p.status != Future && p.lineStatus != Future;
      prevProgress := fill;
      var ms, me;
      var base := if animating || p.lineStatus != Future then 1.0 else 0.3;
      ms, me := base, base;
      if p.status == Active {
        ms, me := 1.0, 0.4;
      } else if p.progress >= p.startTime && p.progress <= p.endTime {
        ms, me := 1.0, 0.4;
      } else if p.progress < p.endTime && !animating {
        ms, me := 0.4, 0.4;
      }
      var low := Le(fill, Num(25.0));
      var scale := if low then 1.0 else p.maxScale;
      var t := TranslateY(fill, p.maxTranslateY);
      var shadow := if low then 0.05 else 0.75;
      if p.skipMask {
        return AnimationStyles(fill, animating, scale, t, SkipMaskTranslateTextAsWritten(t, show), shadow, None);
      }
      var mask := if !isFading || !animating then Gradient(ms, me, fill) else Solid;
      r := AnimationStyles(fill, animating, scale, t, TranslateText(t, show), shadow, Some(mask));
    }
  }
}
