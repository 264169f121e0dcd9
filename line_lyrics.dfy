/**
 * The DOM renderer for line-synced lyrics: interludes inserted into long
 * gaps, the scan for the line to scroll to, and the per-line fill styles.
 */
module LineRenderer {
  import opened Wrappers
  import opened JsNumber
  import opened LyricTypes
  import opened InterludeInsertion
  import opened ActiveLine

  const InterludeMinGapMs: real := 2000.0
  const MaxTranslateUpWord: real := 2.0
  const MaxTextShadowBlur: real := 4.0
  const ScaleCoefficient: real := 4000.0

  /** The interlude before the first line, when it starts more than 2 s in. */
  function LeadingGap(lines: seq<TimedLine>): (r: Option<Span>)
    ensures r.Some? <==> |lines| > 0 && lines[0].startTime * 1000.0 > InterludeMinGapMs
    ensures r.Some? ==> r.value == Span(0.0, lines[0].startTime * 1000.0, false)
  {
    if |lines| > 0 && lines[0].startTime * 1000.0 > InterludeMinGapMs
    then Some(Span(0.0, lines[0].startTime * 1000.0, false))
    else None
  }

  /** The interlude after line `i`: only before a next line, and only for a gap strictly over 2 s. */
  function GapAfter(lines: seq<TimedLine>, i: nat): (r: Option<Span>)
    requires i < |lines|
    ensures r.Some? <==>
      i + 1 < |lines| && lines[i + 1].startTime * 1000.0 - lines[i].endTime * 1000.0 > InterludeMinGapMs
    ensures r.Some? ==> r.value == Span(lines[i].endTime * 1000.0, lines[i + 1].startTime * 1000.0, false)
  {
    if i + 1 < |lines| && lines[i + 1].startTime * 1000.0 - lines[i].endTime * 1000.0 > InterludeMinGapMs
    then Some(Span(lines[i].endTime * 1000.0, lines[i + 1].startTime * 1000.0, false))
    else None
  }

  /** The interlude decision for every line. */
  function Gaps(lines: seq<TimedLine>): (r: seq<Option<Span>>)
    ensures |r| == |lines|
    ensures forall i :: 0 <= i < |lines| ==> r[i] == GapAfter(lines, i)
  {
    seq(|lines|, i requires 0 <= i < |lines| => GapAfter(lines, i))
  }

  /** `contentWithInterludes` */
  function WithInterludes(lines: seq<TimedLine>): seq<Entry<TimedLine>> {
    Interleave(LeadingGap(lines), lines, Gaps(lines))
  }

  /**
   * The rule's consequences for the rendered list: the lines in order, a
   * leading interlude exactly when the first line starts after 2000 ms, an
   * interlude right after line `i` exactly when the next line starts strictly
   * more than 2000 ms after it ends (a gap of exactly 2000 ms gets none),
   * spanning that gap, never two interludes in a row, and nothing after the
   * last line.
   */
  lemma InterludeRule(lines: seq<TimedLine>, i: nat)
    requires i < |lines|
    ensures var r := WithInterludes(lines);
      Contents(r) == lines
      && ((r[0].Gap?) <==> lines[0].startTime * 1000.0 > InterludeMinGapMs)
      && (r[0].Gap? ==> r[0].span == Span(0.0, lines[0].startTime * 1000.0, false))
      && var k := PositionOf(LeadingGap(lines), lines, Gaps(lines), i);
      k < |r| && r[k] == Content(lines[i])
      && ((k + 1 < |r| && r[k + 1].Gap?) <==>
          (i + 1 < |lines| && lines[i + 1].startTime * 1000.0 - lines[i].endTime * 1000.0 > InterludeMinGapMs))
      && (k + 1 < |r| && r[k + 1].Gap? ==>
          r[k + 1].span == Span(lines[i].endTime * 1000.0, lines[i + 1].startTime * 1000.0, false))
      && NoAdjacentGaps(r)
      && r[|r| - 1] == Content(lines[|lines| - 1])
  {
    ItemsPreserved(LeadingGap(lines), lines, Gaps(lines));
    FirstEntry(LeadingGap(lines), lines, Gaps(lines));
    GapAfterItem(LeadingGap(lines), lines, Gaps(lines), i);
    InterleaveShape(LeadingGap(lines), lines, Gaps(lines));
  }

  /** Every interlude spans strictly more than 2000 ms. */
  lemma InterludesWide(lines: seq<TimedLine>, k: nat)
    requires k < |WithInterludes(lines)| && WithInterludes(lines)[k].Gap?
    ensures WithInterludes(lines)[k].span.end - WithInterludes(lines)[k].span.start > InterludeMinGapMs
  {
    GapsFromRule(LeadingGap(lines), lines, Gaps(lines), k);
  }

  /** `contentWithInterludes`, as the loop that pushes into `result`. */
  method ContentWithInterludes(lines: seq<TimedLine>) returns (result: seq<Entry<TimedLine>>)
    ensures result == WithInterludes(lines)
  {
    result := [];
    if |lines| > 0 {
      var firstStart := lines[0].startTime * 1000.0;
      if firstStart > InterludeMinGapMs {
        result := result + [Gap(Span(0.0, firstStart, false))];
      }
    }
    var idx := 0;
    while idx < |lines|
      invariant 0 <= idx <= |lines|
      invariant result == GapEntry(LeadingGap(lines)) + Chunks(lines, Gaps(lines), idx)
    {
      result := result + [Content(lines[idx])];
      var lastEnd := lines[idx].endTime * 1000.0;
      if idx + 1 < |lines| {
        var nextStart := lines[idx + 1].startTime * 1000.0;
        if nextStart - lastEnd > InterludeMinGapMs {
          result := result + [Gap(Span(lastEnd, nextStart, false))];
        }
      }
      idx := idx + 1;
    }
  }

  /** The `data-end-time` of each entry's element; interludes register no element. */
  function RefEnds(items: seq<Entry<TimedLine>>): (r: seq<Option<real>>)
    ensures |r| == |items|
    ensures forall k :: 0 <= k < |r| ==> (r[k].Some? <==> items[k].Content?)
    ensures forall k :: 0 <= k < |r| && items[k].Content? ==> r[k] == Some(items[k].item.endTime * 1000.0)
  {
    seq(|items|, k requires 0 <= k < |items| =>
      if items[k].Content? then Some(items[k].item.endTime * 1000.0) else None)
  }

  /** The scroll loop's memory: the index it last scrolled to. */
  class LineScroller {
    var lastActiveIndex: Option<nat>

    constructor()
      ensures lastActiveIndex.None?
    {
      lastActiveIndex := None;
    }

    /**
     * One frame of `scroll`: the index scrolled into view, if any. A line is
     * scrolled to only when it differs from the last one scrolled to.
     */
    method Scroll(ends: seq<Option<real>>, progress: real) returns (scrolledTo: Option<nat>)
      modifies this
      ensures var a := FirstActive(ends, progress);
        scrolledTo == (if a.Some? && old(lastActiveIndex) != a then a else None)
      ensures lastActiveIndex == (if FirstActive(ends, progress).Some? then FirstActive(ends, progress) else old(lastActiveIndex))
    {
      scrolledTo := None;
      var i := 0;
      while i < |ends|
        invariant 0 <= i <= |ends|
        invariant forall j :: 0 <= j < i ==> ends[j].None? || ends[j].value < progress
        invariant lastActiveIndex == old(lastActiveIndex) && scrolledTo.None?
      {
        if ends[i].Some? && progress <= ends[i].value {
          FirstActiveIs(ends, progress, i);
          if lastActiveIndex != Some(i) {
            scrolledTo := Some(i);
            lastActiveIndex := Some(i);
          }
          return;
        }
        i := i + 1;
      }
      FirstActiveNone(ends, progress);
    }
  }

  /** The styles `animate` writes to one line. */
  datatype LineStyle = LineStyle(pct: Number, translateY: Number, shadowBlur: Number, scale: Number, bgSize: Number, past: bool)

  /** The 0 / linear / 100 fill rule on a line window, with JavaScript comparisons (false against NaN). */
  function LineFillOf(start: Number, end: Number, progress: real): (r: (Number, bool))
    ensures Lt(Num(progress), start) ==> r == (Num(0.0), false)
    ensures !Lt(Num(progress), start) && !Le(Num(progress), end) ==> r == (Num(100.0), true)
  {
    if Lt(Num(progress), start) then (Num(0.0), false)
    else if Le(Num(progress), end) then
      (Scale(DivNum(SubFrom(progress, start), SubNum(end, start)), 100.0), false)
    else (Num(100.0), true)
  }

  /** `a - b` on two numbers. */
  function SubNum(a: Number, b: Number): Number {
    if a.Num? then SubFrom(a.v, b) else if b.Num? then Sub(a, b.v)
    else if a.NaN? || b.NaN? || a == b then NaN else a
  }

  /** `a / b` on two numbers, finite cases exact; any non-finite operand gives NaN except a finite numerator over an infinity. */
  function DivNum(a: Number, b: Number): Number {
    if a.Num? && b.Num? then Div(a.v, b.v)
    else if a.Num? && (b.PosInf? || b.NegInf?) then Num(0.0)
    else NaN
  }

  function StyleOf(fill: (Number, bool)): LineStyle {
    var pct := fill.0;
    LineStyle(pct, Scale(Scale(pct, 1.0 / 100.0), -MaxTranslateUpWord), Scale(Scale(pct, 1.0 / 100.0), MaxTextShadowBlur),
              Add(Scale(pct, 1.0 / ScaleCoefficient), 1.0), Scale(pct, 2.0), fill.1)
  }

  /**
   * The line style as written: the element's `dataset.start` and
   * `dataset.end` are read, but only `data-end-time` is ever set, so both
   * are `Number(undefined)`, which is NaN.
   */
  function LineStyleAsWritten(progress: real): LineStyle {
    StyleOf(LineFillOf(NaN, NaN, progress))
  }

  /** As written, every line is always fully filled and marked past, whatever the playhead. */
  lemma LineAlwaysPastAsWritten(progress: real)
    ensures LineStyleAsWritten(progress).past
    ensures LineStyleAsWritten(progress).pct == Num(100.0)
    ensures LineStyleAsWritten(progress).scale == Num(1.0 + 100.0 / ScaleCoefficient)
  {
  }

  /** The line style read from the line's own window, in milliseconds. */
  function LineStyleAt(line: TimedLine, progress: real): LineStyle {
    StyleOf(LineFillOf(Num(line.startTime * 1000.0), Num(line.endTime * 1000.0), progress))
  }

  /** On a non-empty window the fill runs from 0 before the start to 100 at and after the end, and only after the end is the line past. */
  lemma LineFillRange(s: real, e: real, progress: real)
    requires s < e
    ensures var f := LineFillOf(Num(s), Num(e), progress);
      (f.1 <==> progress > e)
      && f.0.Num? && 0.0 <= f.0.v <= 100.0
      && (progress < s ==> f.0 == Num(0.0))
      && (progress == e ==> f.0 == Num(100.0))
  {
    if s <= progress <= e {
      RatioInUnit(progress - s, e - s);
      if progress == e {
        DivSelf(e - s);
      }
    }
  }

  /** A fill in [0, 100] keeps every derived style in its range. */
  lemma StyleRange(fill: (Number, bool))
    requires fill.0.Num? && 0.0 <= fill.0.v <= 100.0
    ensures var st := StyleOf(fill);
      st.translateY.Num? && -MaxTranslateUpWord <= st.translateY.v <= 0.0
      && st.scale.Num? && 1.0 <= st.scale.v <= 1.0 + 100.0 / ScaleCoefficient
      && st.bgSize.Num? && 0.0 <= st.bgSize.v <= 200.0
      && st.past == fill.1
  {
  }

  /**
   * With the window read from the line, a line is past exactly when the
   * playhead is beyond its end, the fill rises from 0 to 100 across the
   * window, and the styles stay in range: translate in [-2, 0] px, scale in
   * [1, 1.025], background width in [0, 200] %.
   */
  lemma LineStyleInRange(line: TimedLine, progress: real)
    requires line.startTime < line.endTime
    ensures var st := LineStyleAt(line, progress);
      (st.past <==> progress > line.endTime * 1000.0)
      && st.pct.Num? && 0.0 <= st.pct.v <= 100.0
      && (progress < line.startTime * 1000.0 ==> st.pct == Num(0.0))
      && (progress == line.endTime * 1000.0 ==> st.pct == Num(100.0))
      && st.translateY.Num? && -MaxTranslateUpWord <= st.translateY.v <= 0.0
      && st.scale.Num? && 1.0 <= st.scale.v <= 1.0 + 100.0 / ScaleCoefficient
      && st.bgSize.Num? && 0.0 <= st.bgSize.v <= 200.0
  {
    var f := LineFillOf(Num(line.startTime * 1000.0), Num(line.endTime * 1000.0), progress);
    LineFillRange(line.startTime * 1000.0, line.endTime * 1000.0, progress);
    StyleRange(f);
  }

  /**
   * One frame of `animate` as written: every registered line element gets the
   * style read from its unset `dataset.start` and `dataset.end`, so each one is
   * fully filled and marked past.
   */
  method Animate(lines: seq<Option<TimedLine>>, progress: real) returns (styles: seq<Option<LineStyle>>)
    ensures |styles| == |lines|
    ensures forall k :: 0 <= k < |lines| ==>
      styles[k] == (if lines[k].Some? then Some(LineStyleAsWritten(progress)) else None)
    ensures forall k :: 0 <= k < |lines| && lines[k].Some? ==>
      styles[k].value.past && styles[k].value.pct == Num(100.0)
  {
    LineAlwaysPastAsWritten(progress);
    styles := [];
    for k := 0 to |lines|
      invariant |styles| == k
      invariant forall j :: 0 <= j < k ==>
        styles[j] == (if lines[j].Some? then Some(LineStyleAsWritten(progress)) else None)
    {
      if lines[k].Some? {
        styles := styles + [Some(LineStyleAsWritten(progress))];
      } else {
        styles := styles + [None];
      }
    }
  }

  /** One frame of `animate` with each line's window read from the line itself. */
  method AnimateCorrected(lines: seq<Option<TimedLine>>, progress: real) returns (styles: seq<Option<LineStyle>>)
    ensures |styles| == |lines|
    ensures forall k :: 0 <= k < |lines| ==>
      styles[k] == (if lines[k].Some? then Some(LineStyleAt(lines[k].value, progress)) else None)
  {
    styles := [];
    for k := 0 to |lines|
      invariant |styles| == k
      invariant forall j :: 0 <= j < k ==>
        styles[j] == (if lines[j].Some? then Some(LineStyleAt(lines[j].value, progress)) else None)
    {
      if lines[k].Some? {
        styles := styles + [Some(LineStyleAt(lines[k].value, progress))];
      } else {
        styles := styles + [None];
      }
    }
  }
}
