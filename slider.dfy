/** The draggable slider: mouse position to value, quantisation, and the drag lifecycle. */
module SliderControl {
  import opened Wrappers
  import opened JsNumber

  /** The bar's bounding box, horizontally. */
  datatype BarRect = BarRect(left: real, width: real)

  /** What the slider reports to its owner, in order. */
  datatype SliderEvent = ActiveChanged(active: bool) | ProgressChanged(progress: Number, userInitiated: bool)

  /** `calculateProgressFromMouse`: the mouse's fraction of the bar, clamped to [0, 1]; 0 without a bar. */
  function FractionFromMouse(clientX: real, bar: Option<BarRect>): (f: Number)
    ensures f.Num? || f.NaN?
    ensures f.Num? ==> 0.0 <= f.v <= 1.0
    ensures f.NaN? <==> bar.Some? && bar.value.width == 0.0 && clientX == bar.value.left
    ensures bar.Some? && bar.value.width > 0.0 && bar.value.left <= clientX <= bar.value.left + bar.value.width
            ==> f == Num((clientX - bar.value.left) / bar.value.width)
  {
    match bar
    case None => Num(0.0)
    case Some(r) => Min(Num(1.0), Max(Num(0.0), Div(clientX - r.left, r.width)))
  }

  /** `minimumValue + fraction * (maximumValue - minimumValue)` */
  function RawProgress(minimumValue: real, maximumValue: real, f: Number): (r: Number)
    requires f.Num? || f.NaN?
    ensures r.NaN? <==> f.NaN?
    ensures f.Num? && 0.0 <= f.v <= 1.0 && minimumValue <= maximumValue ==> r.Num? && minimumValue <= r.v <= maximumValue
  {
    if f.Num? then Num(Lerp(minimumValue, maximumValue, f.v)) else NaN
  }

  /** `lo + x * (hi - lo)` */
  function Lerp(lo: real, hi: real, x: real): (r: real)
    ensures 0.0 <= x <= 1.0 && lo <= hi ==> lo <= r <= hi
  {
    ScaleBounds(x, hi - lo);
    lo + x * (hi - lo)
  }

  lemma ScaleBounds(x: real, d: real)
    ensures 0.0 <= x <= 1.0 && d >= 0.0 ==> 0.0 <= x * d <= d
  {
    if 0.0 <= x <= 1.0 && d >= 0.0 {
      assert x * d <= 1.0 * d;
    }
  }

  /** `Math.floor(raw / step) * step` when a non-zero step is set; `raw` otherwise. */
  function Quantize(raw: Number, step: Option<real>): (q: Number)
    requires raw.Num? || raw.NaN?
    ensures q.NaN? <==> raw.NaN?
    ensures raw.Num? && step.Some? && step.value > 0.0 ==> q.Num? && q.v <= raw.v < q.v + step.value
    ensures raw.Num? && (step.None? || step.value == 0.0) ==> q == raw
  {
    match raw
    case Num(x) =>
      if step.Some? && step.value != 0.0 then
        FloorMultiple(x, step.value);
        Num((x / step.value).Floor as real * step.value)
      else raw
    case _ => NaN
  }

  lemma FloorMultiple(x: real, s: real)
    requires s != 0.0
    ensures s > 0.0 ==> (x / s).Floor as real * s <= x < (x / s).Floor as real * s + s
  {
    if s > 0.0 {
      FloorMultiplePositive(x, s);
    }
  }

  lemma FloorMultiplePositive(x: real, s: real)
    requires s > 0.0
    ensures (x / s).Floor as real * s <= x < (x / s).Floor as real * s + s
  {
    var n := (x / s).Floor as real;
    var y := x / s;
    assert n <= y < n + 1.0;
    MulLe(n, y, s);
    MulLt(y, n + 1.0, s);
    assert (n + 1.0) * s == n * s + s;
    assert x < n * s + s;
  }

  lemma MulLe(a: real, b: real, s: real)
    requires a <= b && s > 0.0
    ensures a * s <= b * s
  {
  }

  lemma MulLt(a: real, b: real, s: real)
    requires a < b && s > 0.0
    ensures a * s < b * s
  {
  }

  /** The value chosen at a mouse position. */
  function ProgressAt(minimumValue: real, maximumValue: real, step: Option<real>, clientX: real, bar: Option<BarRect>): Number {
    Quantize(RawProgress(minimumValue, maximumValue, FractionFromMouse(clientX, bar)), step)
  }

  /** A quantised value is already on the grid: quantising again changes nothing. */
  lemma QuantizeIdempotent(x: real, s: real)
    requires s > 0.0
    ensures Quantize(Quantize(Num(x), Some(s)), Some(s)) == Quantize(Num(x), Some(s))
  {
    var n := (x / s).Floor;
    var q := n as real * s;
    assert Quantize(Num(x), Some(s)) == Num(q);
    assert q / s == n as real;
    assert (q / s).Floor == n;
    assert Quantize(Num(q), Some(s)) == Num((q / s).Floor as real * s);
  }

  /** A mouse inside the bar, with a positive step, selects a value in [min - step, max]. */
  lemma ProgressAtBounds(minimumValue: real, maximumValue: real, s: real, clientX: real, bar: BarRect)
    requires minimumValue <= maximumValue && s > 0.0 && bar.width > 0.0
    ensures var p := ProgressAt(minimumValue, maximumValue, Some(s), clientX, Some(bar));
      p.Num? && minimumValue - s < p.v <= maximumValue
  {
    var f := FractionFromMouse(clientX, Some(bar));
    var raw := RawProgress(minimumValue, maximumValue, f);
    assert raw.Num? && minimumValue <= raw.v <= maximumValue;
    var q := Quantize(raw, Some(s));
    assert q.v <= raw.v < q.v + s;
  }

  /** `((progress - min) / (max - min)) * 100`, before formatting. */
  function ProgressPercentage(progress: Number, minimumValue: real, maximumValue: real): (r: Number)
    ensures progress.Num? && minimumValue < maximumValue && minimumValue <= progress.v <= maximumValue
            ==> r.Num? && 0.0 <= r.v <= 100.0
    ensures progress.Num? && minimumValue == maximumValue ==> !r.Num?
  {
    if progress.Num? then
      var d := Div(progress.v - minimumValue, maximumValue - minimumValue);
      if d.Num? then
        FractionBounds(progress.v - minimumValue, maximumValue - minimumValue);
        Num(d.v * 100.0)
      else d
    else progress
  }

  lemma FractionBounds(a: real, b: real)
    ensures 0.0 <= a <= b && b > 0.0 ==> 0.0 <= a / b <= 1.0
  {
  }
  /**
   * One mounted slider. `listeners` counts the mousemove/mouseup handler pairs
   * attached to the window by drags that have not yet seen a mouseup.
   */
  class Slider {
    const minimumValue: real
    const maximumValue: real
    const value: Option<real>
    const step: Option<real>
    var internalProgress: Number
    var dragging: bool
    var listeners: nat
    var events: seq<SliderEvent>

    /** A slider is dragging exactly while a handler pair is attached. */
    ghost predicate Valid()
      reads this
    {
      dragging <==> listeners > 0
    }

    constructor(minimumValue: real, maximumValue: real, value: Option<real>, step: Option<real>)
      ensures Valid()
      ensures this.minimumValue == minimumValue && this.maximumValue == maximumValue
      ensures this.value == value && this.step == step
      ensures internalProgress == Num(minimumValue) && !dragging && listeners == 0 && events == []
    {
      this.minimumValue := minimumValue;
      this.maximumValue := maximumValue;
      this.value := value;
      this.step := step;
      internalProgress := Num(minimumValue);
      dragging := false;
      listeners := 0;
      events := [];
    }

    /** The value drawn: the controlled value when one is given. */
    function Progress(): Number
      reads this
    {
      if value.Some? then Num(value.value) else internalProgress
    }

    /** `updateProgress(e, true)` */
    method Update(clientX: real, bar: Option<BarRect>)
      modifies this
      ensures var p := ProgressAt(minimumValue, maximumValue, step, clientX, bar);
        events == old(events) + [ProgressChanged(p, true)] &&
        internalProgress == (if value.None? then p else old(internalProgress))
      ensures dragging == old(dragging) && listeners == old(listeners)
    {
      var p := ProgressAt(minimumValue, maximumValue, step, clientX, bar);
      if value.None? {
        internalProgress := p;
      }
      events := events + [ProgressChanged(p, true)];
    }

    /** `startDrag`: mouse down on the bar. */
    method StartDrag(clientX: real, bar: Option<BarRect>)
      requires Valid()
      modifies this
      ensures Valid() && dragging && listeners == old(listeners) + 1
      ensures var p := ProgressAt(minimumValue, maximumValue, step, clientX, bar);
        events == old(events) + [ActiveChanged(true), ProgressChanged(p, true)] &&
        internalProgress == (if value.None? then p else old(internalProgress))
    {
      dragging := true;
      events := events + [ActiveChanged(true)];
      Update(clientX, bar);
      listeners := listeners + 1;
    }

    /** A window mousemove: every attached handler reports the same new value. */
    method MouseMove(clientX: real, bar: Option<BarRect>)
      requires Valid()
      modifies this
      ensures Valid() && dragging == old(dragging) && listeners == old(listeners)
      ensures var p := ProgressAt(minimumValue, maximumValue, step, clientX, bar);
        events == old(events) + seq(listeners, _ => ProgressChanged(p, true)) &&
        internalProgress == (if value.None? && listeners > 0 then p else old(internalProgress))
    {
      var p := ProgressAt(minimumValue, maximumValue, step, clientX, bar);
      var k := 0;
      while k < listeners
        invariant 0 <= k <= listeners
        invariant dragging == old(dragging) && listeners == old(listeners)
        invariant events == old(events) + seq(k, _ => ProgressChanged(p, true))
        invariant internalProgress == (if value.None? && k > 0 then p else old(internalProgress))
      {
        Update(clientX, bar);
        k := k + 1;
      }
    }

    /** A window mouseup: every attached handler ends the drag and detaches itself. */
    method MouseUp()
      requires Valid()
      modifies this
      ensures Valid() && !dragging && listeners == 0
      ensures events == old(events) + seq(old(listeners), _ => ActiveChanged(false))
      ensures internalProgress == old(internalProgress)
    {
      var k := 0;
      var n := listeners;
      while k < n
        invariant 0 <= k <= n
        invariant listeners == n - k
        invariant dragging == (k == 0 && old(dragging))
        invariant events == old(events) + seq(k, _ => ActiveChanged(false))
        invariant internalProgress == old(internalProgress)
      {
        dragging := false;
        events := events + [ActiveChanged(false)];
        listeners := listeners - 1;
        k := k + 1;
      }
    }
  }
}
