/**
 * The DOM renderer for syllable-synced lyrics: interludes inserted into long
 * gaps between blocks, the split of long syllables into timed letters, and
 * the animation frame that marks past lines, blurs lines by their distance
 * from the active one, asks for a scroll when the active line changes and
 * styles every syllable element.
 */
module SyllableRenderer {
  import opened Wrappers
  import opened JsNumber
  import opened LyricTypes
  import opened InterludeInsertion
  import opened ActiveLine
  import opened LetterTiming

  const InterludeMinGapMs: real := 2000.0
  /** How long after the last wheel event the user counts as scrolling. */
  const ScrollTimeoutMs: real := 1000.0
  /** `Number.MAX_SAFE_INTEGER`, the end time registered for the credits line. */
  const MaxSafeInteger: real := 9007199254740991.0
  const BlurPerLine: real := 1.25
  const MaxBlur: real := 6.0

  // ---------------------------------------------------------------------------
  // Interludes between blocks
  // ---------------------------------------------------------------------------

  /** `Lead?.Syllables[0]?.StartTime * 1000`: None when the lead has no syllable (NaN in the source). */
  function FirstStartMs(b: SyllableLine): Option<real> {
    if |b.lead.syllables| > 0 then Some(b.lead.syllables[0].startTime * 1000.0) else None
  }

  /** The end of the block's last syllable, the lead's first and then the background parts'. */
  function LastEndMs(b: SyllableLine): Option<real> {
    var all := AllSyllables(b);
    if |all| > 0 then Some(all[|all| - 1].endTime * 1000.0) else None
  }

  /** A time that is truthy in JavaScript: present (not NaN) and not zero. */
  predicate Truthy(t: Option<real>) {
    t.Some? && t.value != 0.0
  }

  /** The interlude before the first block, aligned like that block. */
  function LeadingGap(blocks: seq<SyllableLine>): (r: Option<Span>)
    ensures r.Some? <==>
      |blocks| > 0 && FirstStartMs(blocks[0]).Some? && FirstStartMs(blocks[0]).value > InterludeMinGapMs
    ensures r.Some? ==> r.value == Span(0.0, FirstStartMs(blocks[0]).value, blocks[0].oppositeAligned)
  {
    if |blocks| > 0 && Truthy(FirstStartMs(blocks[0])) && FirstStartMs(blocks[0]).value > InterludeMinGapMs
    then Some(Span(0.0, FirstStartMs(blocks[0]).value, blocks[0].oppositeAligned))
    else None
  }

  /** The interlude after block `i`: both ends truthy and more than 2 s apart, aligned like the next block. */
  function GapAfter(blocks: seq<SyllableLine>, i: nat): Option<Span>
    requires i < |blocks|
  {
    if i + 1 < |blocks| && Truthy(FirstStartMs(blocks[i + 1])) && Truthy(LastEndMs(blocks[i]))
       && FirstStartMs(blocks[i + 1]).value - LastEndMs(blocks[i]).value > InterludeMinGapMs
    then Some(Span(LastEndMs(blocks[i]).value, FirstStartMs(blocks[i + 1]).value, blocks[i + 1].oppositeAligned))
    else None
  }

  function Gaps(blocks: seq<SyllableLine>): (r: seq<Option<Span>>)
    ensures |r| == |blocks|
    ensures forall i :: 0 <= i < |blocks| ==> r[i] == GapAfter(blocks, i)
  {
    seq(|blocks|, i requires 0 <= i < |blocks| => GapAfter(blocks, i))
  }

  /** `contentWithInterludes` */
  function WithInterludes(blocks: seq<SyllableLine>): seq<Entry<SyllableLine>> {
    Interleave(LeadingGap(blocks), blocks, Gaps(blocks))
  }

  /**
   * The rule's consequences for the rendered list: the blocks in order; an
   * interlude right after block `i` exactly when there is a next block, the
   * next block's first lead syllable and this block's last syllable both have
   * a non-zero time, and the first starts more than 2000 ms after the second
   * ends; that interlude spans the gap and takes the next block's alignment;
   * never two interludes in a row, and nothing after the last block.
   */
  lemma InterludeRule(blocks: seq<SyllableLine>, i: nat)
    requires i < |blocks|
    ensures var r := WithInterludes(blocks);
      var k := PositionOf(LeadingGap(blocks), blocks, Gaps(blocks), i);
      Contents(r) == blocks
      && k < |r| && r[k] == Content(blocks[i])
      && ((k + 1 < |r| && r[k + 1].Gap?) <==>
          (i + 1 < |blocks| && Truthy(FirstStartMs(blocks[i + 1])) && Truthy(LastEndMs(blocks[i]))
           && FirstStartMs(blocks[i + 1]).value - LastEndMs(blocks[i]).value > InterludeMinGapMs))
      && (k + 1 < |r| && r[k + 1].Gap? ==>
          r[k + 1].span == Span(LastEndMs(blocks[i]).value, FirstStartMs(blocks[i + 1]).value, blocks[i + 1].oppositeAligned))
      && NoAdjacentGaps(r)
      && r[|r| - 1] == Content(blocks[|blocks| - 1])
  {
    ItemsPreserved(LeadingGap(blocks), blocks, Gaps(blocks));
    GapAfterItem(LeadingGap(blocks), blocks, Gaps(blocks), i);
    InterleaveShape(LeadingGap(blocks), blocks, Gaps(blocks));
  }

  /** The list opens with an interlude from 0 exactly when the first lead syllable starts after 2000 ms. */
  lemma LeadingInterludeRule(blocks: seq<SyllableLine>)
    requires |blocks| > 0
    ensures var r := WithInterludes(blocks);
      |r| > 0
      && (r[0].Gap? <==> FirstStartMs(blocks[0]).Some? && FirstStartMs(blocks[0]).value > InterludeMinGapMs)
      && (r[0].Gap? ==> r[0].span == Span(0.0, FirstStartMs(blocks[0]).value, blocks[0].oppositeAligned))
      && (r[0].Content? ==> r[0].item == blocks[0])
  {
    FirstEntry(LeadingGap(blocks), blocks, Gaps(blocks));
  }

  /**
   * The gap is measured from the last syllable in document order, not from
   * the latest one: a lead sung until 10 s over a background part ending at
   * 5 s, followed by a block at 8 s, gets an interlude over [5000, 8000] ms
   * while the lead is still being sung.
   */
  lemma InterludeMayOverlapLead()
    ensures var first := SyllableLine("Vocal", false, VocalPart([Syllable("a", "a", false, 0.0, 10.0)], 0.0, 10.0),
                                      Some([VocalPart([Syllable("b", "b", false, 1.0, 5.0)], 1.0, 5.0)]));
      var next := SyllableLine("Vocal", false, VocalPart([Syllable("c", "c", false, 8.0, 9.0)], 8.0, 9.0), None);
      GapAfter([first, next], 0) == Some(Span(5000.0, 8000.0, false))
      && first.lead.syllables[0].endTime * 1000.0 == 10000.0
  {
    var first := SyllableLine("Vocal", false, VocalPart([Syllable("a", "a", false, 0.0, 10.0)], 0.0, 10.0),
                              Some([VocalPart([Syllable("b", "b", false, 1.0, 5.0)], 1.0, 5.0)]));
    assert PartsSyllables(BackgroundParts(first)) == [Syllable("b", "b", false, 1.0, 5.0)];
    assert AllSyllables(first) == [Syllable("a", "a", false, 0.0, 10.0), Syllable("b", "b", false, 1.0, 5.0)];
  }

  /** `contentWithInterludes`, as the loop that pushes into `result`. */
  method ContentWithInterludes(blocks: seq<SyllableLine>) returns (result: seq<Entry<SyllableLine>>)
    ensures result == WithInterludes(blocks)
  {
    result := [];
    if |blocks| > 0 {
      var firstStart := FirstStartMs(blocks[0]);
      if firstStart.Some? && firstStart.value != 0.0 && firstStart.value > InterludeMinGapMs {
        result := result + [Gap(Span(0.0, firstStart.value, blocks[0].oppositeAligned))];
      }
    }
    var idx := 0;
    while idx < |blocks|
      invariant 0 <= idx <= |blocks|
      invariant result == GapEntry(LeadingGap(blocks)) + Chunks(blocks, Gaps(blocks), idx)
    {
      ghost var before := result;
      result := PushBlock(blocks, idx, result);
      ChunkStep(blocks, idx, before, result);
      idx := idx + 1;
    }
  }

  /** One turn of the loop: the block, then the interlude after it when the gap rule allows one. */
  method PushBlock(blocks: seq<SyllableLine>, idx: nat, result: seq<Entry<SyllableLine>>) returns (r: seq<Entry<SyllableLine>>)
    requires idx < |blocks|
    ensures r == result + [Content(blocks[idx])] + GapEntry(GapAfter(blocks, idx))
  {
    r := result + [Content(blocks[idx])];
    var lastEnd := LastEndMs(blocks[idx]);
    if idx + 1 < |blocks| {
      var nextStart := FirstStartMs(blocks[idx + 1]);
      if nextStart.Some? && nextStart.value != 0.0 && lastEnd.Some? && lastEnd.value != 0.0
         && nextStart.value - lastEnd.value > InterludeMinGapMs {
        r := r + [Gap(Span(lastEnd.value, nextStart.value, blocks[idx + 1].oppositeAligned))];
      }
    }
  }

  /** One block pushed, with its interlude if any: the list grows by that block's chunk. */
  lemma ChunkStep(blocks: seq<SyllableLine>, idx: nat, before: seq<Entry<SyllableLine>>, after: seq<Entry<SyllableLine>>)
    requires idx < |blocks|
    requires before == GapEntry(LeadingGap(blocks)) + Chunks(blocks, Gaps(blocks), idx)
    requires after == before + [Content(blocks[idx])] + GapEntry(GapAfter(blocks, idx))
    ensures after == GapEntry(LeadingGap(blocks)) + Chunks(blocks, Gaps(blocks), idx + 1)
  {
    var lead, body := GapEntry(LeadingGap(blocks)), Chunks(blocks, Gaps(blocks), idx);
    assert Chunks(blocks, Gaps(blocks), idx + 1) == body + [Content(blocks[idx])] + GapEntry(GapAfter(blocks, idx));
    assert lead + body + [Content(blocks[idx])] + GapEntry(GapAfter(blocks, idx))
        == lead + (body + [Content(blocks[idx])] + GapEntry(GapAfter(blocks, idx)));
  }

  /** `hasOppAligned`: some block is sung on the opposite side. */
  function HasOppAligned(blocks: seq<SyllableLine>): (r: bool)
    ensures r <==> exists i :: 0 <= i < |blocks| && blocks[i].oppositeAligned
    decreases |blocks|
  {
    if |blocks| == 0 then false
    else blocks[0].oppositeAligned || HasOppAligned(blocks[1..])
  }

  // ---------------------------------------------------------------------------
  // End times registered for the line elements
  // ---------------------------------------------------------------------------

  /** The latest end among background parts. */
  function MaxPartEnd(ps: seq<VocalPart>): (r: real)
    requires |ps| > 0
    ensures forall i :: 0 <= i < |ps| ==> ps[i].endTime <= r
    ensures exists i :: 0 <= i < |ps| && ps[i].endTime == r
    decreases |ps|
  {
    if |ps| == 1 then ps[0].endTime
    else
      var rest := MaxPartEnd(ps[1..]);
      assert forall i :: 1 <= i < |ps| ==> ps[i] == ps[1..][i - 1];
      if ps[0].endTime >= rest then ps[0].endTime else rest
  }

  /** A block's registered end in ms: the latest background part's end when there is one, otherwise the lead's. */
  function BlockEndMs(b: SyllableLine): real {
    var bg := BackgroundParts(b);
    (if |bg| > 0 then MaxPartEnd(bg) else b.lead.endTime) * 1000.0
  }

  /** With background parts the lead's own end plays no part in the block's registered end. */
  lemma BlockEndIgnoresLead(b: SyllableLine, lead: VocalPart)
    requires |BackgroundParts(b)| > 0
    ensures BlockEndMs(b.(lead := lead)) == BlockEndMs(b)
    ensures exists i :: 0 <= i < |BackgroundParts(b)| && BlockEndMs(b) == BackgroundParts(b)[i].endTime * 1000.0
    ensures forall i :: 0 <= i < |BackgroundParts(b)| ==> BackgroundParts(b)[i].endTime * 1000.0 <= BlockEndMs(b)
  {
    var bg := BackgroundParts(b);
    var i :| 0 <= i < |bg| && bg[i].endTime == MaxPartEnd(bg);
    assert BlockEndMs(b) == bg[i].endTime * 1000.0;
  }

  /** The registered end of one rendered entry: an interlude's end, or the block's end. */
  function EntryEndMs(e: Entry<SyllableLine>): real {
    match e
    case Gap(s) => s.end
    case Content(b) => BlockEndMs(b)
  }

  /** The ends registered in `lineRefs`: one per rendered entry, then the credits line, which never ends. */
  function LineEnds(items: seq<Entry<SyllableLine>>, hasCredits: bool): (r: seq<real>)
    ensures |r| == |items| + (if hasCredits then 1 else 0)
    ensures forall k :: 0 <= k < |items| ==> r[k] == EntryEndMs(items[k])
    ensures hasCredits ==> r[|items|] == MaxSafeInteger
  {
    seq(|items|, k requires 0 <= k < |items| => EntryEndMs(items[k])) + (if hasCredits then [MaxSafeInteger] else [])
  }

  /** Every registered element, present. */
  function Registered(ends: seq<real>): (r: seq<Option<real>>)
    ensures |r| == |ends| && forall k :: 0 <= k < |ends| ==> r[k] == Some(ends[k])
  {
    seq(|ends|, k requires 0 <= k < |ends| => Some(ends[k]))
  }

  /** With a credits line there is always an active line, up to the largest safe integer. */
  lemma CreditsKeepActive(items: seq<Entry<SyllableLine>>, progress: real)
    requires progress <= MaxSafeInteger
    ensures FirstActive(Registered(LineEnds(items, true)), progress).Some?
  {
    var e := Registered(LineEnds(items, true));
    assert e[|items|] == Some(MaxSafeInteger);
  }

  // ---------------------------------------------------------------------------
  // Syllable elements
  // ---------------------------------------------------------------------------

  /** What is registered for one animated element: its window in ms, its rise, and whether its background fill is left alone. */
  datatype SyllableMeta = SyllableMeta(start: real, end: real, maxX: real, skipBg: bool)

  /** The elements `VocalPart` registers for one syllable, in order. */
  function SyllableElements(s: Syllable, st: LyricsSettings): seq<SyllableMeta> {
    var start := s.startTime * 1000.0;
    var end := s.endTime * 1000.0;
    var word := DisplayText(s, st.forceRomanized);
    if end - start < st.splitThresholdMs then [SyllableMeta(start, end, st.maxTranslateUpWord, false)]
    else
      [SyllableMeta(start, end, st.maxTranslateUpWord, true)]
      + seq(|word|, i requires 0 <= i < |word| =>
            SyllableMeta(LetterEdge(start, end, |word|, i), LetterEdge(start, end, |word|, i + 1), st.maxTranslateUpLetter, false))
  }

  /**
   * The split rule: a syllable shorter than the threshold is one element over
   * its whole window; otherwise it is a wrapper over its window that leaves
   * the background fill alone, then one element per letter of the shown text,
   * whose windows run from the syllable's start to its end, each opening where
   * the previous one closed.
   */
  lemma SplitRule(s: Syllable, st: LyricsSettings)
    ensures var r := SyllableElements(s, st);
      var start := s.startTime * 1000.0;
      var end := s.endTime * 1000.0;
      var n := |DisplayText(s, st.forceRomanized)|;
      |r| > 0 && r[0].start == start && r[0].end == end && r[0].maxX == st.maxTranslateUpWord
      && (r[0].skipBg <==> end - start >= st.splitThresholdMs)
      && (!r[0].skipBg ==> |r| == 1)
      && (r[0].skipBg ==>
            |r| == n + 1
            && (n > 0 ==> r[1].start == start && r[n].end == end)
            && (forall i :: 1 <= i < n ==> r[i].end == r[i + 1].start)
            && (forall i :: 1 <= i <= n ==> r[i].maxX == st.maxTranslateUpLetter && !r[i].skipBg))
  {
    var n := |DisplayText(s, st.forceRomanized)|;
    if n > 0 {
      LettersTile(s.startTime * 1000.0, s.endTime * 1000.0, n, 0, 0);
    }
  }

  /** The elements registered for one vocal part, syllable after syllable. */
  function PartElements(syllables: seq<Syllable>, st: LyricsSettings): seq<SyllableMeta> {
    if |syllables| == 0 then [] else SyllableElements(syllables[0], st) + PartElements(syllables[1..], st)
  }

  // ---------------------------------------------------------------------------
  // One frame of syllable styling
  // ---------------------------------------------------------------------------

  /** A write to one CSS custom property. */
  datatype PropWrite = SetTo(value: Number) | Removed | Untouched

  /** What a frame does to one syllable element: `--translate-y`, `--bg-size-x` and the `past` class. */
  datatype SyllableStyle = SyllableStyle(translateY: PropWrite, bgSizeX: PropWrite, past: bool)

  /** The fill percentage: 0 before the window, linear inside it, 100 after it. */
  function SyllablePct(m: SyllableMeta, progress: real): Number {
    if progress < m.start then Num(0.0)
    else if progress <= m.end then Scale(Div(progress - m.start, m.end - m.start), 100.0)
    else Num(100.0)
  }

  function SyllableFrame(m: SyllableMeta, progress: real): SyllableStyle {
    var pct := SyllablePct(m, progress);
    if m.start <= progress <= m.end then
      SyllableStyle(SetTo(Scale(Scale(pct, 1.0 / 100.0), -m.maxX)), if m.skipBg then Untouched else SetTo(pct), false)
    else
      SyllableStyle(Removed, if m.skipBg then Untouched else Removed, progress > m.end)
  }

  /**
   * On a non-empty window: the rise is written only inside the window, from
   * 0 at the start to `-maxX` at the end, never outside [-maxX, 0]; the fill
   * is written inside the window in [0, 100] and removed outside it, except
   * on elements that leave it alone; the element is past exactly after the
   * window.
   */
  lemma SyllableFrameRule(m: SyllableMeta, progress: real)
    requires m.start < m.end && m.maxX >= 0.0
    ensures var f := SyllableFrame(m, progress);
      (f.past <==> progress > m.end)
      && (f.translateY.SetTo? <==> m.start <= progress <= m.end)
      && (f.translateY.Removed? <==> !(m.start <= progress <= m.end))
      && (f.translateY.SetTo? ==> f.translateY.value.Num? && -m.maxX <= f.translateY.value.v <= 0.0)
      && (progress == m.start ==> f.translateY == SetTo(Num(0.0)))
      && (progress == m.end ==> f.translateY == SetTo(Num(-m.maxX)))
      && (m.skipBg ==> f.bgSizeX.Untouched?)
      && (!m.skipBg ==> (f.bgSizeX.SetTo? <==> m.start <= progress <= m.end))
      && (f.bgSizeX.SetTo? ==> f.bgSizeX.value.Num? && 0.0 <= f.bgSizeX.value.v <= 100.0)
  {
    if m.start <= progress <= m.end {
      InWindowFrame(m, progress);
      WindowEnds(m);
    } else {
      assert SyllableFrame(m, progress) == SyllableStyle(Removed, if m.skipBg then Untouched else Removed, progress > m.end);
    }
  }

  /** Inside the window the fill is the elapsed fraction of it, in percent, and the rise that fraction of `maxX`. */
  lemma InWindowFrame(m: SyllableMeta, progress: real)
    requires m.start < m.end && m.maxX >= 0.0
    requires m.start <= progress <= m.end
    ensures var q := (progress - m.start) / (m.end - m.start);
      0.0 <= q <= 1.0
      && SyllablePct(m, progress) == Num(q * 100.0)
      && SyllableFrame(m, progress).translateY == SetTo(Num(-q * m.maxX))
      && -m.maxX <= -q * m.maxX <= 0.0
      && SyllableFrame(m, progress).bgSizeX == (if m.skipBg then Untouched else SetTo(Num(q * 100.0)))
      && !SyllableFrame(m, progress).past
  {
    var q := (progress - m.start) / (m.end - m.start);
    InWindowFill(m, progress);
    MulMonotone(q, 1.0, m.maxX);
  }

  /** The rise is 0 at the window's start and `-maxX` at its end. */
  lemma WindowEnds(m: SyllableMeta)
    requires m.start < m.end
    ensures SyllableFrame(m, m.start).translateY == SetTo(Num(0.0))
    ensures SyllableFrame(m, m.end).translateY == SetTo(Num(-m.maxX))
  {
    InWindowFill(m, m.start);
    InWindowFill(m, m.end);
    DivSelf(m.end - m.start);
  }

  lemma InWindowFill(m: SyllableMeta, progress: real)
    requires m.start < m.end
    requires m.start <= progress <= m.end
    ensures var q := (progress - m.start) / (m.end - m.start);
      0.0 <= q <= 1.0
      && SyllablePct(m, progress) == Num(q * 100.0)
      && SyllableFrame(m, progress).translateY == SetTo(Num(-q * m.maxX))
      && SyllableFrame(m, progress).bgSizeX == (if m.skipBg then Untouched else SetTo(Num(q * 100.0)))
      && !SyllableFrame(m, progress).past
  {
    var q := (progress - m.start) / (m.end - m.start);
    RatioInUnit(progress - m.start, m.end - m.start);
    assert q * 100.0 * (1.0 / 100.0) == q;
  }

  /** A zero-length window hit exactly gives `0 / 0`: the rise written is NaN. */
  lemma ZeroLengthSyllable(m: SyllableMeta)
    requires m.start == m.end
    ensures SyllableFrame(m, m.start).translateY == SetTo(NaN)
  {
  }

  /** The `forEach` over the registered syllable elements. */
  method AnimateSyllables(metas: seq<SyllableMeta>, progress: real) returns (styles: seq<SyllableStyle>)
    ensures |styles| == |metas|
    ensures forall k :: 0 <= k < |metas| ==> styles[k] == SyllableFrame(metas[k], progress)
  {
    styles := [];
    for k := 0 to |metas|
      invariant |styles| == k
      invariant forall j :: 0 <= j < k ==> styles[j] == SyllableFrame(metas[j], progress)
    {
      var m := metas[k];
      var pct: Number;
      if progress < m.start {
        pct := Num(0.0);
      } else if progress <= m.end {
        pct := Scale(Div(progress - m.start, m.end - m.start), 100.0);
      } else {
        pct := Num(100.0);
      }
      var style: SyllableStyle;
      if progress >= m.start && progress <= m.end {
        style := SyllableStyle(SetTo(Scale(Scale(pct, 1.0 / 100.0), -m.maxX)), if m.skipBg then Untouched else SetTo(pct), false);
      } else {
        style := SyllableStyle(Removed, if m.skipBg then Untouched else Removed, progress > m.end);
      }
      styles := styles + [style];
    }
  }

  // ---------------------------------------------------------------------------
  // Lines: past marks, blur, scrolling
  // ---------------------------------------------------------------------------

  /** The `past` classes after a scan that found `active`: every earlier line past, the active one not, later ones as they were. */
  function PastAfterScan(past: seq<bool>, active: Option<nat>): (r: seq<bool>)
    ensures |r| == |past|
  {
    seq(|past|, j requires 0 <= j < |past| =>
      if active.None? || j < active.value then true
      else if j == active.value then false
      else past[j])
  }

  /**
   * A later line keeps a `past` class set while the playhead was beyond it:
   * after a seek back, the lines between the new active line and the old one
   * stay marked past although the playhead has not reached their end.
   */
  lemma StalePastAfterBackSeek(ends: seq<real>, past: seq<bool>, p: real, q: real, j: nat)
    requires |past| == |ends|
    requires FirstActive(Registered(ends), p).Some? && FirstActive(Registered(ends), q).Some?
    requires FirstActive(Registered(ends), q).value < j < FirstActive(Registered(ends), p).value
    ensures PastAfterScan(PastAfterScan(past, FirstActive(Registered(ends), p)), FirstActive(Registered(ends), q))[j]
  {
  }

  function Distance(i: nat, j: nat): nat {
    if i <= j then j - i else i - j
  }

  /** `--line-shadow-blur` of line `i`: 1.25 px per line of distance from the active line, at most 6; 0 when suppressed. */
  function LineBlur(i: nat, active: nat, suppressed: bool): real {
    if suppressed then 0.0 else MinReal(Distance(i, active) as real * BlurPerLine, MaxBlur)
  }

  /** The blur is 0 exactly on the active line or when suppressed, grows with distance, and is capped at 6 px from 5 lines away. */
  lemma BlurShape(i: nat, j: nat, active: nat, suppressed: bool)
    ensures 0.0 <= LineBlur(i, active, suppressed) <= MaxBlur
    ensures LineBlur(i, active, suppressed) == 0.0 <==> suppressed || i == active
    ensures !suppressed && Distance(i, active) >= 5 ==> LineBlur(i, active, suppressed) == MaxBlur
    ensures Distance(i, active) <= Distance(j, active) ==> LineBlur(i, active, suppressed) <= LineBlur(j, active, suppressed)
  {
  }

  function Blurs(n: nat, active: nat, suppressed: bool): (r: seq<Option<real>>)
    ensures |r| == n
  {
    seq(n, i requires 0 <= i < n => Some(LineBlur(i, active, suppressed)))
  }

  /** A box on screen: its top and its height. */
  datatype Rect = Rect(top: real, height: real)

  /** What `scrollToCurrentLine` reads from the page: the wrapper, every line, the scroll position and two sizes. */
  datatype Geometry = Geometry(wrapper: Option<Rect>, lines: seq<Rect>, scrollTop: real, scrollOffset: real, innerHeight: real)

  datatype Behavior = Smooth | Auto

  /**
   * `scrollToCurrentLine`: the `top` requested of the wrapper, or None when
   * it does nothing: while the user scrolls, when a smooth scroll is asked
   * for and the active line is not visible, or when the line or the wrapper
   * is missing.
   */
  function ScrollRequest(scrolling: bool, visible: bool, behavior: Behavior, idx: nat, geo: Geometry): (r: Option<real>)
    ensures r.Some? <==> !scrolling && (behavior == Auto || visible) && idx < |geo.lines| && geo.wrapper.Some?
  {
    if scrolling || (behavior != Auto && !visible) || idx >= |geo.lines| || geo.wrapper.None? then None
    else
      var w := geo.wrapper.value;
      var line := geo.lines[idx];
      var offset := line.top - w.top + geo.scrollTop;
      Some(offset - w.height / 2.0 + line.height / 2.0 + geo.scrollOffset + geo.innerHeight / 20.0)
  }

  /**
   * Scrolling to the requested top, less the configured offset and a
   * twentieth of the window, puts the middle of the line at the middle of
   * the wrapper.
   */
  lemma ScrollCentresLine(scrolling: bool, visible: bool, behavior: Behavior, idx: nat, geo: Geometry)
    requires ScrollRequest(scrolling, visible, behavior, idx, geo).Some?
    ensures var w := geo.wrapper.value;
      var line := geo.lines[idx];
      var top := ScrollRequest(scrolling, visible, behavior, idx, geo).value - geo.scrollOffset - geo.innerHeight / 20.0;
      var newLineTop := line.top - (top - geo.scrollTop);
      newLineTop + line.height / 2.0 == w.top + w.height / 2.0
  {
  }

  /**
   * The mounted renderer: the registered line ends, the `past` class and
   * blur of each line element, the active line as the frame loop and the
   * component each remember it, the wheel flag with its pending reset, and
   * whether the active line was last seen inside the wrapper.
   */
  class SyllableView {
    const lineEnds: seq<real>
    var past: seq<bool>
    var blur: seq<Option<real>>
    /** The frame loop's `currentActiveLine`, kept between frames. */
    var currentActiveLine: nat
    /** `activeLineIdxRef` */
    var activeLineIdx: nat
    var isScrolling: bool
    var scrollbarHidden: bool
    /** When the pending `setNotScrolling` timer is due. */
    var scrollTimer: Option<real>
    var activeLineVisible: bool

    predicate Valid()
      reads this
    {
      |past| == |lineEnds| && |blur| == |lineEnds|
      && (isScrolling <==> scrollTimer.Some?)
      && (scrollbarHidden <==> !isScrolling)
      && activeLineIdx == currentActiveLine
    }

    /** Mounted over the blocks, with a credits line when there are songwriters. */
    constructor(blocks: seq<SyllableLine>, hasCredits: bool)
      ensures Valid()
      ensures lineEnds == LineEnds(WithInterludes(blocks), hasCredits)
      ensures (forall k :: 0 <= k < |past| ==> !past[k]) && (forall k :: 0 <= k < |blur| ==> blur[k].None?)
      ensures currentActiveLine == 0 && !isScrolling && activeLineVisible
    {
      var ends := LineEnds(WithInterludes(blocks), hasCredits);
      lineEnds := ends;
      past := seq(|ends|, k => false);
      blur := seq(|ends|, k => None);
      currentActiveLine, activeLineIdx := 0, 0;
      isScrolling, scrollbarHidden, scrollTimer := false, true, None;
      activeLineVisible := true;
    }

    /**
     * One frame of `animate` for the lines: the scan marks every line before
     * the first one the playhead has not passed and unmarks that one; every
     * line's blur follows its distance from the active line; and when the
     * active line changed, a smooth scroll to it is requested.
     */
    method Frame(progress: real, geo: Geometry) returns (scroll: Option<real>)
      requires Valid()
      modifies this
      ensures Valid()
      ensures var a := FirstActive(Registered(lineEnds), progress);
        currentActiveLine == (if a.Some? then a.value else old(currentActiveLine))
        && past == PastAfterScan(old(past), a)
      ensures blur == Blurs(|lineEnds|, currentActiveLine, isScrolling || !activeLineVisible)
      ensures scroll == (if old(activeLineIdx) != currentActiveLine
                         then ScrollRequest(isScrolling, activeLineVisible, Smooth, currentActiveLine, geo) else None)
      ensures isScrolling == old(isScrolling) && scrollbarHidden == old(scrollbarHidden)
      ensures scrollTimer == old(scrollTimer) && activeLineVisible == old(activeLineVisible)
    {
      var ends := Registered(lineEnds);
      var i := 0;
      var found := false;
      while i < |lineEnds| && !found
        invariant 0 <= i <= |lineEnds|
        invariant |past| == |lineEnds|
        invariant !found ==> forall j :: 0 <= j < i ==> lineEnds[j] < progress
        invariant !found ==> currentActiveLine == old(currentActiveLine)
        invariant !found ==> forall j :: 0 <= j < |past| ==> past[j] == (if j < i then true else old(past)[j])
        invariant found ==> FirstActive(ends, progress) == Some(currentActiveLine)
        invariant found ==> past == PastAfterScan(old(past), Some(currentActiveLine))
        invariant isScrolling == old(isScrolling) && activeLineVisible == old(activeLineVisible)
        invariant activeLineIdx == old(activeLineIdx) && blur == old(blur)
        invariant scrollbarHidden == old(scrollbarHidden) && scrollTimer == old(scrollTimer)
        decreases |lineEnds| - i, if found then 0 else 1
      {
        if progress <= lineEnds[i] {
          FirstActiveIs(ends, progress, i);
          currentActiveLine := i;
          past := past[i := false];
          found := true;
        } else {
          past := past[i := true];
          i := i + 1;
        }
      }
      if !found {
        FirstActiveNone(ends, progress);
      }

      var suppressed := isScrolling || !activeLineVisible;
      for k := 0 to |lineEnds|
        invariant |blur| == |lineEnds|
        invariant forall j :: 0 <= j < k ==> blur[j] == Some(LineBlur(j, currentActiveLine, suppressed))
        invariant past == PastAfterScan(old(past), FirstActive(ends, progress))
        invariant currentActiveLine == (if FirstActive(ends, progress).Some? then FirstActive(ends, progress).value else old(currentActiveLine))
        invariant isScrolling == old(isScrolling) && activeLineVisible == old(activeLineVisible)
        invariant activeLineIdx == old(activeLineIdx)
        invariant scrollbarHidden == old(scrollbarHidden) && scrollTimer == old(scrollTimer)
      {
        if suppressed {
          blur := blur[k := Some(0.0)];
        } else {
          var distance := if k <= currentActiveLine then currentActiveLine - k else k - currentActiveLine;
          blur := blur[k := Some(MinReal(distance as real * BlurPerLine, MaxBlur))];
        }
      }

      scroll := None;
      if activeLineIdx != currentActiveLine {
        activeLineIdx := currentActiveLine;
        scroll := ScrollRequest(isScrolling, activeLineVisible, Smooth, currentActiveLine, geo);
      }
    }

    /** A wheel event: the user is scrolling, the scrollbar shows, and the reset is pushed back to a second from now. */
    method Wheel(now: real)
      requires Valid()
      modifies this
      ensures Valid()
      ensures isScrolling && !scrollbarHidden && scrollTimer == Some(now + ScrollTimeoutMs)
      ensures past == old(past) && blur == old(blur) && currentActiveLine == old(currentActiveLine)
      ensures activeLineIdx == old(activeLineIdx) && activeLineVisible == old(activeLineVisible)
    {
      isScrolling := true;
      scrollbarHidden := false;
      scrollTimer := Some(now + ScrollTimeoutMs);
    }

    /** The clock reaches `now`: a due reset clears the flag and hides the scrollbar again. */
    method FireTimer(now: real)
      requires Valid()
      modifies this
      ensures Valid()
      ensures old(scrollTimer).Some? && old(scrollTimer).value <= now ==> !isScrolling && scrollTimer.None?
      ensures !(old(scrollTimer).Some? && old(scrollTimer).value <= now) ==>
        isScrolling == old(isScrolling) && scrollTimer == old(scrollTimer)
      ensures past == old(past) && blur == old(blur) && currentActiveLine == old(currentActiveLine)
      ensures activeLineIdx == old(activeLineIdx) && activeLineVisible == old(activeLineVisible)
    {
      if scrollTimer.Some? && scrollTimer.value <= now {
        isScrolling := false;
        scrollbarHidden := true;
        scrollTimer := None;
      }
    }

    /** `checkActiveLineVisibility`: the active line is visible when it lies wholly inside the wrapper. */
    method CheckVisibility(geo: Geometry)
      requires Valid()
      modifies this
      ensures Valid()
      ensures geo.wrapper.Some? && activeLineIdx < |geo.lines| ==>
        (activeLineVisible <==>
          geo.lines[activeLineIdx].top >= geo.wrapper.value.top
          && geo.lines[activeLineIdx].top + geo.lines[activeLineIdx].height <= geo.wrapper.value.top + geo.wrapper.value.height)
      ensures !(geo.wrapper.Some? && activeLineIdx < |geo.lines|) ==> activeLineVisible == old(activeLineVisible)
      ensures past == old(past) && blur == old(blur) && currentActiveLine == old(currentActiveLine)
      ensures activeLineIdx == old(activeLineIdx) && isScrolling == old(isScrolling) && scrollTimer == old(scrollTimer)
    {
      if geo.wrapper.Some? && activeLineIdx < |geo.lines| {
        var w := geo.wrapper.value;
        var line := geo.lines[activeLineIdx];
        activeLineVisible := line.top >= w.top && line.top + line.height <= w.top + w.height;
      }
    }
  }
}
