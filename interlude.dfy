/**
 * The three-dot interlude shown in a gap between lyric lines: each dot fills
 * during its own third of the gap and rises and falls on a triangular curve;
 * the whole interlude is hidden near both ends of the gap.
 */
module InterludeDots {
  import opened Wrappers
  import opened JsNumber

  const TotalDots: nat := 3
  /** The hiding margin at both ends, in the unit of the timeline. */
  const ShowDelay: real := 0.3
  /** Peak rise of a dot, in pixels. */
  const Amplitude: real := 12.0
  /** Delay before the wrapper is hidden, in milliseconds. */
  const HideDelayMs: real := 200.0

  /** Length of each dot's window: a third of the gap. */
  function PerDotDuration(start: real, end: real): (r: real)
    ensures r * 3.0 == end - start
  {
    (end - start) / 3.0
  }

  /** Where dot `i`'s window begins. */
  function DotStart(start: real, end: real, i: nat): real {
    start + (i as real) * PerDotDuration(start, end)
  }

  /** The three windows tile the gap in order: the first starts at the gap's start and the last ends at its end. */
  lemma DotWindowsTile(start: real, end: real)
    ensures DotStart(start, end, 0) == start
    ensures forall i: nat :: DotStart(start, end, i) + PerDotDuration(start, end) == DotStart(start, end, i + 1)
    ensures DotStart(start, end, TotalDots) == end
  {
  }

  /** `Math.max(0, Math.min(1, (progress - dotStart) / perDotDuration))` */
  function DotProgress(progress: real, start: real, end: real, i: nat): (r: Number)
    ensures r.Num? ==> 0.0 <= r.v <= 1.0
    ensures r.NaN? ==> start == end && progress == start
  {
    Clamp01(Div(progress - DotStart(start, end, i), PerDotDuration(start, end)))
  }

  /**
   * The dots fill one after another: while the playhead is in dot `i`'s
   * window, every earlier dot is full and every later dot empty.
   */
  lemma DotsFillInOrder(progress: real, start: real, end: real, i: nat, j: nat)
    requires start < end
    requires DotStart(start, end, i) <= progress < DotStart(start, end, i + 1)
    ensures j < i ==> DotProgress(progress, start, end, j) == Num(1.0)
    ensures i < j ==> DotProgress(progress, start, end, j) == Num(0.0)
  {
    var d := PerDotDuration(start, end);
    assert d > 0.0;
    if j < i {
      DotStartMonotone(start, end, j + 1, i);
      DotStartGap(start, end, j);
      RatioAtLeastOne(progress - DotStart(start, end, j), d);
    } else if i < j {
      DotStartMonotone(start, end, i + 1, j);
    }
  }

  /** Later dots start no earlier. */
  lemma DotStartMonotone(start: real, end: real, a: nat, b: nat)
    requires start < end && a <= b
    ensures DotStart(start, end, a) <= DotStart(start, end, b)
  {
    var d := PerDotDuration(start, end);
    assert DotStart(start, end, b) - DotStart(start, end, a) == (b - a) as real * d;
    NonNegativeProduct((b - a) as real, d);
  }

  lemma NonNegativeProduct(x: real, y: real)
    requires 0.0 <= x && 0.0 <= y
    ensures 0.0 <= x * y
  {
  }

  lemma DotStartGap(start: real, end: real, j: nat)
    ensures DotStart(start, end, j + 1) - DotStart(start, end, j) == PerDotDuration(start, end)
  {
  }

  lemma RatioAtLeastOne(a: real, d: real)
    requires 0.0 < d <= a
    ensures a / d >= 1.0
  {
    assert a / d * d == a;
  }

  /** The rise of a dot at progress `p`: up linearly to the peak at one half, then down. */
  function Triangle(p: real): real {
    if p <= 0.5 then Amplitude * (p / 0.5) else Amplitude * (1.0 - (p - 0.5) / 0.5)
  }

  /** The rise is 0 at both ends and peaks at 12 in the middle, never leaving [0, 12]. */
  lemma TriangleShape(p: real)
    ensures Triangle(0.0) == 0.0 && Triangle(1.0) == 0.0 && Triangle(0.5) == Amplitude
    ensures 0.0 <= p <= 1.0 ==> 0.0 <= Triangle(p) <= Amplitude
  {
  }

  /** The rise is symmetric about the middle of the window. */
  lemma TriangleSymmetric(p: real)
    requires 0.0 <= p <= 1.0
    ensures Triangle(1.0 - p) == Triangle(p)
  {
  }

  /**
   * The rise is continuous, including across the switch of formula at one
   * half: it changes by at most 24 pixels per unit of progress.
   */
  lemma TriangleContinuous(p: real, q: real)
    ensures -24.0 * Abs(p - q) <= Triangle(p) - Triangle(q) <= 24.0 * Abs(p - q)
  {
  }

  function Abs(x: real): (r: real)
    ensures r >= 0.0 && (r == x || r == -x)
  {
    if x < 0.0 then -x else x
  }

  /** The styles written to one dot. */
  datatype DotStyle = DotStyle(translateY: Number, scale: Number, shadowOpacity: Number)

  /** `Math.min(0.75 + p / 2, 1)` */
  function DotScale(p: Number): (r: Number)
    ensures p.Num? && 0.0 <= p.v <= 1.0 ==> r.Num? && 0.75 <= r.v <= 1.0
    ensures p.Num? && p.v >= 0.5 ==> r == Num(1.0)
    ensures p.NaN? ==> r.NaN?
  {
    Min(Add(Scale(p, 0.5), 0.75), Num(1.0))
  }

  /** The style of dot `i`; the rise is written negated, as `--translate-y`. */
  function DotStyleAt(progress: real, start: real, end: real, i: nat): (r: DotStyle)
    ensures r.translateY.Num? ==> -Amplitude <= r.translateY.v <= 0.0
    ensures r.scale.Num? ==> 0.75 <= r.scale.v <= 1.0
    ensures r.shadowOpacity.Num? ==> 0.0 <= r.shadowOpacity.v <= 2.0
  {
    var p := DotProgress(progress, start, end, i);
    if p.Num? then
      TriangleShape(p.v);
      DotStyle(Num(-Triangle(p.v)), DotScale(p), Num(p.v * 2.0))
    else DotStyle(NaN, NaN, NaN)
  }

  /** The styles of the three dots, in order. */
  function DotStyles(progress: real, start: real, end: real): (r: seq<DotStyle>)
    ensures |r| == TotalDots
    ensures forall i :: 0 <= i < |r| ==> r[i] == DotStyleAt(progress, start, end, i)
  {
    [DotStyleAt(progress, start, end, 0), DotStyleAt(progress, start, end, 1), DotStyleAt(progress, start, end, 2)]
  }

  /** `nearStart || nearEnd` */
  predicate IsHiding(progress: real, start: real, end: real) {
    progress < start + ShowDelay || progress > end - ShowDelay
  }

  /** The interlude shows exactly inside the gap shrunk by the margin at both ends, so a gap shorter than twice the margin never shows. */
  lemma ShowsInsideMargins(progress: real, start: real, end: real)
    ensures !IsHiding(progress, start, end) <==> start + ShowDelay <= progress <= end - ShowDelay
    ensures end - start < 2.0 * ShowDelay ==> IsHiding(progress, start, end)
  {
  }

  /**
   * One mounted interlude: the inner line's `hide`/`show` class, the
   * wrapper's `hide` class, the pending hide timers and the dot styles.
   */
  class InterludeView {
    const startTime: real
    const endTime: real
    var lineHidden: bool
    var wrapperHidden: bool
    /** Pending `setTimeout` calls, by id, with the time they are due. */
    var timers: map<nat, real>
    var nextTimerId: nat
    /** `hideTimeout`: the id of the last timer scheduled. */
    var hideTimeout: Option<nat>
    var dots: seq<DotStyle>

    predicate Valid()
      reads this
    {
      (forall id :: id in timers ==> 0 < id < nextTimerId)
      && nextTimerId > 0
      && (hideTimeout.Some? ==> 0 < hideTimeout.value < nextTimerId)
    }

    /** Mounted hidden, with no timers. */
    constructor(start: real, end: real)
      ensures Valid()
      ensures startTime == start && endTime == end
      ensures lineHidden && wrapperHidden && timers == map[] && hideTimeout == None && dots == []
    {
      startTime, endTime := start, end;
      lineHidden, wrapperHidden := true, true;
      timers, nextTimerId, hideTimeout := map[], 1, None;
      dots := [];
    }

    /**
     * One animation frame at playhead `progress` and clock `now`. While
     * hiding, a new hide timer is scheduled every frame; otherwise the last
     * scheduled timer is cancelled and the wrapper shown.
     */
    method Animate(progress: real, now: real)
      requires Valid()
      modifies this
      ensures Valid()
      ensures lineHidden == IsHiding(progress, startTime, endTime)
      ensures dots == DotStyles(progress, startTime, endTime)
      ensures IsHiding(progress, startTime, endTime) ==>
        (hideTimeout == Some(old(nextTimerId)) && timers == old(timers)[old(nextTimerId) := now + HideDelayMs]
         && wrapperHidden == old(wrapperHidden))
      ensures !IsHiding(progress, startTime, endTime) ==>
        (!wrapperHidden && hideTimeout == old(hideTimeout)
         && timers == (if old(hideTimeout).Some? then old(timers) - {old(hideTimeout).value} else old(timers)))
    {
      var hiding := progress < startTime + ShowDelay || progress > endTime - ShowDelay;
      lineHidden := hiding;
      dots := DotStyles(progress, startTime, endTime);
      if hiding {
        timers := timers[nextTimerId := now + HideDelayMs];
        hideTimeout := Some(nextTimerId);
        nextTimerId := nextTimerId + 1;
      } else {
        if hideTimeout.Some? {
          timers := timers - {hideTimeout.value};
        }
        wrapperHidden := false;
      }
    }

    /** The clock reaches `now`: every due timer fires, hiding the wrapper. */
    method FireTimers(now: real)
      requires Valid()
      modifies this
      ensures Valid()
      ensures timers == map id | id in old(timers) && old(timers)[id] > now :: old(timers)[id]
      ensures wrapperHidden == (old(wrapperHidden) || exists id :: id in old(timers) && old(timers)[id] <= now)
      ensures lineHidden == old(lineHidden) && dots == old(dots) && hideTimeout == old(hideTimeout)
    {
      if exists id :: id in timers && timers[id] <= now {
        wrapperHidden := true;
      }
      timers := map id | id in timers && timers[id] > now :: timers[id];
    }
  }
}
