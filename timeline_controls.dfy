/** The playback timeline: the clock labels and the mapping between playback position and slider value. */
module TimelineControls {
  import opened Wrappers
  import opened Strings

  /** JavaScript `%` on integers: the remainder takes the sign of the dividend. */
  function JsRem(a: int, b: int): (r: int)
    requires b > 0
    ensures a >= 0 ==> 0 <= r < b && r == a % b
    ensures a < 0 ==> -b < r <= 0
  {
    if a >= 0 then a % b else -((-a) % b)
  }

  function Floor(x: real): int {
    x.Floor
  }

  /** `formatTime(ms)`: minutes, a colon, and the seconds padded to two characters. */
  function FormatTime(ms: real): string {
    Clock(Floor(ms / 1000.0))
  }

  /** The label for a whole number of seconds. */
  function Clock(totalSec: int): string {
    var mins := Floor(totalSec as real / 60.0);
    var secs := JsRem(totalSec, 60);
    IntToString(mins) + ":" + PadStart(IntToString(secs), 2, '0')
  }

  /** Reads a label `m:ss` back as a number of whole seconds. */
  function ParseClock(s: string): Option<nat> {
    var i := IndexOfFrom(s, ':', 0);
    if i < |s| && 0 < i && AllDigits(s[..i]) && |s[i + 1..]| == 2 && AllDigits(s[i + 1..]) then
      Some(60 * ParseDigits(s[..i]) + ParseDigits(s[i + 1..]))
    else None
  }

  lemma {:induction false} ParseLeadingZero(t: string)
    requires AllDigits(t)
    ensures AllDigits(['0'] + t) && ParseDigits(['0'] + t) == ParseDigits(t)
    decreases |t|
  {
    if |t| > 0 {
      var init := t[..|t| - 1];
      ParseLeadingZero(init);
      assert (['0'] + t)[..|t|] == ['0'] + init;
    }
  }

  lemma FloorDiv60(n: int)
    ensures Floor(n as real / 60.0) == n / 60
  {
    var q, r := n / 60, n % 60;
    assert n == q * 60 + r;
    assert n as real / 60.0 == q as real + r as real / 60.0;
  }

  lemma FormatTimeUnfold(ms: real)
    ensures var t := Floor(ms / 1000.0);
      FormatTime(ms) == IntToString(t / 60) + ":" + PadStart(IntToString(JsRem(t, 60)), 2, '0')
  {
    ClockUnfold(Floor(ms / 1000.0));
  }

  lemma ClockUnfold(t: int)
    ensures Clock(t) == IntToString(t / 60) + ":" + PadStart(IntToString(JsRem(t, 60)), 2, '0')
  {
    FloorDiv60(t);
  }

  lemma NonNegativeFields(t: int)
    requires t >= 0
    ensures JsRem(t, 60) == t % 60
    ensures IntToString(t % 60) == NatToString(t % 60) && IntToString(t / 60) == NatToString(t / 60)
    ensures |PadStart(NatToString(t % 60), 2, '0')| == 2
  {
    TwoDigits(t % 60);
  }

  /** For a non-negative position the seconds field is exactly two digits below 60. */
  lemma FormatTimeShape(ms: real)
    requires ms >= 0.0
    ensures var totalSec := Floor(ms / 1000.0);
      totalSec >= 0 &&
      FormatTime(ms) == NatToString(totalSec / 60) + ":" + PadStart(NatToString(totalSec % 60), 2, '0') &&
      |PadStart(NatToString(totalSec % 60), 2, '0')| == 2
  {
    FormatTimeUnfold(ms);
    NonNegativeFields(Floor(ms / 1000.0));
  }

  lemma ParseClockOf(m: string, ss: string)
    requires |m| > 0 && AllDigits(m) && |ss| == 2 && AllDigits(ss)
    ensures ParseClock(m + ":" + ss) == Some(60 * ParseDigits(m) + ParseDigits(ss))
  {
    var s := m + ":" + ss;
    assert ':' !in m by {
      assert forall j :: 0 <= j < |m| ==> IsDigit(m[j]);
    }
    IndexOfFirst(m, ':', ss);
    assert s[..|m|] == m;
    assert s[|m| + 1..] == ss;
  }

  lemma ParsePadded(sec: nat)
    requires sec < 60
    ensures var ss := PadStart(NatToString(sec), 2, '0');
      |ss| == 2 && AllDigits(ss) && ParseDigits(ss) == sec
  {
    ParseNatToString(sec);
    if sec < 10 {
      assert PadStart(NatToString(sec), 2, '0') == ['0'] + NatToString(sec);
      ParseLeadingZero(NatToString(sec));
    }
  }

  lemma ParseClockValue(m: string, ss: string, t: nat)
    requires |m| > 0 && AllDigits(m) && |ss| == 2 && AllDigits(ss)
    requires ParseDigits(m) == t / 60 && ParseDigits(ss) == t % 60
    ensures ParseClock(m + ":" + ss) == Some(t)
  {
    ParseClockOf(m, ss);
  }

  lemma ClockRoundTrip(t: nat)
    ensures ParseClock(NatToString(t / 60) + ":" + PadStart(NatToString(t % 60), 2, '0')) == Some(t)
  {
    ParseNatToString(t / 60);
    ParsePadded(t % 60);
    ParseClockValue(NatToString(t / 60), PadStart(NatToString(t % 60), 2, '0'), t);
  }

  /** Reading the label back gives the whole seconds of the position: the clock loses only the fraction. */
  lemma FormatTimeRoundTrip(ms: real)
    requires ms >= 0.0
    ensures ParseClock(FormatTime(ms)) == Some(Floor(ms / 1000.0))
  {
    FormatTimeShape(ms);
    ClockRoundTrip(Floor(ms / 1000.0));
  }

  /** `progressRatio`: the slider value (0..100) for a position; 0 while the duration is unknown. */
  function ProgressRatio(localProgress: real, duration: real): (r: real)
    ensures duration == 0.0 ==> r == 0.0
    ensures 0.0 < duration && 0.0 <= localProgress <= duration ==> 0.0 <= r <= 100.0
  {
    if duration != 0.0 then (localProgress / duration) * 100.0 else 0.0
  }

  /** The position a slider value stands for: `(val / 100) * duration`. */
  function PositionOf(sliderValue: real, duration: real): real {
    (sliderValue / 100.0) * duration
  }

  /** Moving the slider to the value it shows seeks to the position it was drawn from. */
  lemma PositionOfRatio(localProgress: real, duration: real)
    requires duration != 0.0
    ensures PositionOf(ProgressRatio(localProgress, duration), duration) == localProgress
  {
    calc {
      PositionOf(ProgressRatio(localProgress, duration), duration);
      ((localProgress / duration) * 100.0 / 100.0) * duration;
      (localProgress / duration) * duration;
    }
  }

  /**
   * The timeline's own state: the position it shows, and whether the slider is
   * being dragged. A 100 ms interval refreshes the position unless a drag is
   * in progress.
   */
  class Timeline {
    var localProgress: real
    var isDragging: bool
    var duration: real

    constructor(duration: real)
      ensures this.duration == duration && localProgress == 0.0 && !isDragging
    {
      this.duration := duration;
      localProgress := 0.0;
      isDragging := false;
    }

    /** One firing of the 100 ms interval, with the player's current position. */
    method IntervalTick(playerProgress: real)
      modifies this
      ensures isDragging == old(isDragging) && duration == old(duration)
      ensures localProgress == if isDragging then old(localProgress) else playerProgress
    {
      if !isDragging {
        localProgress := playerProgress;
      }
    }

    /** `onProgressChange(val)`: shows the chosen position and returns where to seek. */
    method SliderChange(val: real) returns (seekTarget: real)
      modifies this
      ensures isDragging == old(isDragging) && duration == old(duration)
      ensures localProgress == PositionOf(val, duration) && seekTarget == localProgress
    {
      localProgress := PositionOf(val, duration);
      seekTarget := localProgress;
    }

    /** `onActiveChange`: the slider reports the start or end of a drag. */
    method ActiveChange(active: bool)
      modifies this
      ensures isDragging == active
      ensures localProgress == old(localProgress) && duration == old(duration)
    {
      isDragging := active;
    }

    /** The slider value shown. */
    function SliderValue(): real
      reads this
    {
      ProgressRatio(localProgress, duration)
    }
  }
}
