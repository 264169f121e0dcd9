/**
 * The mounted canvas renderer: the layout it keeps, the scroll position and
 * its target, the wheel override and its re-enable timer, the hovered line,
 * the hover card and the per-group fade and growth. Events and frames are
 * method calls; the clock and the playback position are their arguments.
 */
module CanvasEngine {
  import opened Wrappers
  import opened JsNumber
  import opened LyricTypes
  import opened CanvasText
  import opened CanvasLayout
  import opened CanvasLayoutProps
  import opened CanvasDraw

  const ScrollResetMs: real := 1000.0

  // ---------------------------------------------------------------------------
  // Hit test
  // ---------------------------------------------------------------------------

  /** A box holds a point, bounds included. */
  predicate Contains(b: Box, x: real, y: real) {
    y >= b.y && y <= b.y + b.height && x >= b.x && x <= b.x + b.width
  }

  /** The first box, from index `k` on, that holds the point. */
  function HitFrom(boxes: seq<(int, Box)>, x: real, y: real, k: nat): (r: Option<nat>)
    ensures r.Some? ==> (k <= r.value < |boxes| && Contains(boxes[r.value].1, x, y)
                         && forall i :: k <= i < r.value ==> !Contains(boxes[i].1, x, y))
    ensures r.None? ==> forall i :: k <= i < |boxes| ==> !Contains(boxes[i].1, x, y)
    decreases |boxes| - k
  {
    if k >= |boxes| then None
    else if Contains(boxes[k].1, x, y) then Some(k)
    else HitFrom(boxes, x, y, k + 1)
  }

  /** The boxes in insertion order, stopping at the first that holds the point. */
  method FindBox(boxes: seq<(int, Box)>, x: real, y: real) returns (hit: Option<nat>)
    ensures hit == HitFrom(boxes, x, y, 0)
  {
    for i := 0 to |boxes|
      invariant HitFrom(boxes, x, y, 0) == HitFrom(boxes, x, y, i)
    {
      if Contains(boxes[i].1, x, y) {
        return Some(i);
      }
    }
    return None;
  }

  /** The line a mouse at `(x, y)` on the view points at: the first line of the group of the box it is in. */
  function PointedLine(layout: Layout, scrollY: real, x: real, y: real): Option<nat> {
    match HitFrom(layout.boxes, x, y + scrollY, 0)
    case None => None
    case Some(i) => FirstOfGroup(layout.lines, layout.boxes[i].0)
  }

  /** The first line of group `g` that is not an interlude. */
  function FirstVocal(lines: seq<Line>, g: int): (r: Option<nat>)
    ensures r.Some? ==> (r.value < |lines| && lines[r.value].lineGroup == g && !lines[r.value].isInterlude
                         && forall j :: 0 <= j < r.value ==> lines[j].lineGroup != g || lines[j].isInterlude)
    ensures r.None? ==> forall j :: 0 <= j < |lines| ==> lines[j].lineGroup != g || lines[j].isInterlude
  {
    if |lines| == 0 then None
    else if lines[0].lineGroup == g && !lines[0].isInterlude then Some(0)
    else match FirstVocal(lines[1..], g)
      case None => None
      case Some(i) => Some(i + 1)
  }

  /** Where a click seeks: the start of the first sung line of the pointed-at line's group. */
  function ClickSeek(layout: Layout, scrollY: real, x: real, y: real): Option<Number> {
    match PointedLine(layout, scrollY, x, y)
    case None => None
    case Some(t) =>
      match FirstVocal(layout.lines, layout.lines[t].lineGroup)
      case None => None
      case Some(j) => Some(layout.lines[j].start)
  }

  /**
   * On a layout the pass produced, a mouse inside a box always points at
   * a line of that box's group, and a click there always seeks, to the start
   * of the group's first sung line; outside every box nothing is pointed at.
   */
  lemma ClickAlwaysSeeks(env: Env, blocks: seq<SyllableLine>, songWriters: seq<string>, scrollY: real, x: real, y: real)
    ensures var layout := LayoutOf(env, blocks, songWriters);
      var hit := HitFrom(layout.boxes, x, y + scrollY, 0);
      (hit.None? <==> PointedLine(layout, scrollY, x, y).None?)
      && (hit.Some? ==>
            var g := layout.boxes[hit.value].0;
            var t := PointedLine(layout, scrollY, x, y).value;
            layout.lines[t].lineGroup == g
            && ClickSeek(layout, scrollY, x, y).Some?
            && ClickSeek(layout, scrollY, x, y).value == layout.lines[FirstVocal(layout.lines, g).value].start)
  {
    var layout := LayoutOf(env, blocks, songWriters);
    var hit := HitFrom(layout.boxes, x, y + scrollY, 0);
    if hit.Some? {
      BoxAt(env, layout.lines, hit.value);
      var g := layout.boxes[hit.value].0;
      var j :| 0 <= j < |layout.lines| && Boxed(layout.lines[j]) && layout.lines[j].lineGroup == g
                && layout.lines[j].y == layout.boxes[hit.value].1.y;
      assert FirstOfGroup(layout.lines, g).Some?;
      assert FirstVocal(layout.lines, g).Some?;
    }
  }

  // ---------------------------------------------------------------------------
  // Hover
  // ---------------------------------------------------------------------------

  /** The hovered group as the frame loop reads it: `layout[hoveredLineIdx].lineGroup`, which throws past the end. */
  function HoveredGroupAsWritten(lines: seq<Line>, hovered: Option<nat>): Outcome<Option<int>> {
    match hovered
    case None => Returned(None)
    case Some(i) => if i < |lines| then Returned(Some(lines[i].lineGroup)) else Threw
  }

  /** The hovered group, with an index the layout no longer has read as no hover. */
  function HoveredGroup(lines: seq<Line>, hovered: Option<nat>): Option<int> {
    match hovered
    case Some(i) => if i < |lines| then Some(lines[i].lineGroup) else None
    case None => None
  }

  /**
   * The discrepancy: a hovered index kept across a relayout that left fewer
   * lines makes the frame throw as written, which ends the animation loop;
   * the corrected read sees no hover. On an index still in range the two
   * agree.
   */
  lemma HoveredGroupAsWrittenThrows(lines: seq<Line>, i: nat)
    ensures i >= |lines| ==> HoveredGroupAsWritten(lines, Some(i)) == Threw && HoveredGroup(lines, Some(i)) == None
    ensures i < |lines| ==> (HoveredGroupAsWritten(lines, Some(i)) == Returned(HoveredGroup(lines, Some(i)))
                             && HoveredGroup(lines, Some(i)) == Some(lines[i].lineGroup))
  {
  }

  /** The first box of group `g`, as the boxes map finds it. */
  function BoxOf(boxes: seq<(int, Box)>, g: int): (r: Option<Box>)
    ensures r.Some? <==> exists i :: 0 <= i < |boxes| && boxes[i].0 == g
    ensures r.Some? ==> exists i :: 0 <= i < |boxes| && boxes[i] == (g, r.value)
  {
    if |boxes| == 0 then None
    else if boxes[0].0 == g then Some(boxes[0].1)
    else
      var r := BoxOf(boxes[1..], g);
      assert forall i :: 0 <= i < |boxes| - 1 ==> boxes[1..][i] == boxes[i + 1];
      r
  }

  /** The hover card's state: the group it is drawn for, how far it has faded in, and where it is. */
  datatype HoverAnim = HoverAnim(groupId: Option<int>, progress: real, card: Box)

  /**
   * One frame of the hover card: on a change of group it takes the new
   * group, and the new group's box grown by the padding when there is one;
   * then it fades 15% of the way in, towards 1, or out, towards 0.
   */
  function HoverStep(h: HoverAnim, hovered: Option<int>, boxes: seq<(int, Box)>): (r: HoverAnim)
    ensures r.groupId == hovered
    ensures h.groupId != hovered && hovered.Some? && BoxOf(boxes, hovered.value).Some? ==>
      r.card == HoverCard(BoxOf(boxes, hovered.value).value)
    ensures !(h.groupId != hovered && hovered.Some? && BoxOf(boxes, hovered.value).Some?) ==> r.card == h.card
    ensures 0.0 <= h.progress <= 1.0 ==> 0.0 <= r.progress <= 1.0
    ensures (if hovered.Some? then 1.0 else 0.0) - r.progress == 0.85 * ((if hovered.Some? then 1.0 else 0.0) - h.progress)
  {
    var card := if h.groupId != hovered && hovered.Some? && BoxOf(boxes, hovered.value).Some?
                then HoverCard(BoxOf(boxes, hovered.value).value) else h.card;
    var target := if hovered.Some? then 1.0 else 0.0;
    EaseCloses(h.progress, target, HoverSmoothing);
    HoverAnim(hovered, Ease(h.progress, target, HoverSmoothing), card)
  }

  // ---------------------------------------------------------------------------
  // Group fade and growth
  // ---------------------------------------------------------------------------

  /** The groups of the layout's lines, credits excepted. */
  function GroupIds(lines: seq<Line>): set<int> {
    set j | 0 <= j < |lines| && lines[j].lineGroup != CreditsGroup :: lines[j].lineGroup
  }

  function Get(m: map<int, real>, g: int): Option<real> {
    if g in m then Some(m[g]) else None
  }

  /** A map after a frame: each key in `ids` set to its new value `f`, the rest as they were. */
  function Stepped(m: map<int, real>, ids: set<int>, f: int -> real): map<int, real> {
    map g | g in m.Keys + ids :: if g in ids then f(g) else m[g]
  }

  /** The alphas after a frame: each group in `ids` one step on from its old value (or at its target), the rest as they were. */
  function EasedAlphas(p: real, lines: seq<Line>, groups: set<int>, alphas: map<int, real>, scales: map<int, real>, ids: set<int>)
    : map<int, real>
  {
    Stepped(alphas, ids, g => GroupLook(p, lines, groups, g, Get(alphas, g), Get(scales, g)).0)
  }

  function EasedScales(p: real, lines: seq<Line>, groups: set<int>, alphas: map<int, real>, scales: map<int, real>, ids: set<int>)
    : map<int, real>
  {
    Stepped(scales, ids, g => GroupLook(p, lines, groups, g, Get(alphas, g), Get(scales, g)).1)
  }

  /**
   * A frame's fade: every group of the layout but the credits has an alpha
   * and a scale afterwards, each a step from the old value towards its
   * target (or the target itself for a group not seen before); groups not in
   * the layout keep theirs.
   */
  lemma EasedRule(p: real, lines: seq<Line>, groups: set<int>, alphas: map<int, real>, scales: map<int, real>)
    ensures var ids := GroupIds(lines);
      var a := EasedAlphas(p, lines, groups, alphas, scales, ids);
      var s := EasedScales(p, lines, groups, alphas, scales, ids);
      CreditsGroup !in ids
      && a.Keys == alphas.Keys + ids && s.Keys == scales.Keys + ids
      && (forall g :: g in ids ==>
            var ta := TargetAlpha(g in groups, FullyPast(p, lines, g));
            var ts := TargetScale(g in groups);
            (g !in alphas ==> a[g] == ta) && (g in alphas ==> ta - a[g] == 0.8 * (ta - alphas[g]))
            && (g !in scales ==> s[g] == ts) && (g in scales ==> ts - s[g] == 0.85 * (ts - scales[g])))
      && (forall g :: g in alphas && g !in ids ==> a[g] == alphas[g])
      && (forall g :: g in scales && g !in ids ==> s[g] == scales[g])
  {
    forall g | g in GroupIds(lines)
      ensures var ta := TargetAlpha(g in groups, FullyPast(p, lines, g));
        var ts := TargetScale(g in groups);
        var r := GroupLook(p, lines, groups, g, Get(alphas, g), Get(scales, g));
        (g !in alphas ==> r.0 == ta) && (g in alphas ==> ta - r.0 == 0.8 * (ta - alphas[g]))
        && (g !in scales ==> r.1 == ts) && (g in scales ==> ts - r.1 == 0.85 * (ts - scales[g]))
    {
      GroupLookRule(p, lines, groups, g, Get(alphas, g), Get(scales, g));
    }
  }

  // ---------------------------------------------------------------------------
  // The engine
  // ---------------------------------------------------------------------------

  /** What a pending timer will do: the wheel's check, or the frame loop's plain re-enable. */
  datatype TimerKind = WheelCheck | InViewReset
  datatype Timer = Timer(kind: TimerKind, due: real)

  /** Some line being sung lies in the band between the paddings. */
  predicate SungLineInView(lines: seq<Line>, progress: real, height: real, scrollY: real) {
    exists j :: 0 <= j < |lines| && InWindow(progress, lines[j]) && InView(height, scrollY, lines[j])
  }

  class Engine {
    var blocks: seq<SyllableLine>
    var songWriters: seq<string>
    var settings: LyricsSettings
    const measure: Measure
    const rootFontSize: real
    var width: real
    var height: real
    var layout: Layout
    var scrollY: real
    var targetScrollY: real
    var autoScrollDisabled: bool
    var timer: Option<Timer>
    var hovered: Option<nat>
    var hover: HoverAnim
    var alphas: map<int, real>
    var scales: map<int, real>
    var syncButtonVisible: bool

    predicate Valid()
      reads this
    {
      rootFontSize > 0.0 && layout.maxScrollY >= 0.0 && scrollY >= 0.0 && targetScrollY >= 0.0
    }

    /** The layout of the current lyrics on the current canvas. */
    function Env(): Env
      reads this
      requires rootFontSize > 0.0
    {
      MakeEnv(width, height, rootFontSize, settings, measure)
    }

    /** Mounted with no size yet: no layout, scrolled to the top, following playback, nothing hovered. */
    constructor(blocks: seq<SyllableLine>, songWriters: seq<string>, settings: LyricsSettings, measure: Measure, rootFontSize: real)
      requires rootFontSize > 0.0
      ensures Valid()
      ensures this.blocks == blocks && this.songWriters == songWriters && this.settings == settings
      ensures this.measure == measure && this.rootFontSize == rootFontSize
      ensures width == 0.0 && height == 0.0 && layout == Layout([], 0.0, [])
      ensures scrollY == 0.0 && targetScrollY == 0.0 && !autoScrollDisabled && timer.None?
      ensures hovered.None? && hover == HoverAnim(None, 0.0, Box(0.0, 0.0, 0.0, 0.0))
      ensures alphas == map[] && scales == map[] && !syncButtonVisible
    {
      this.blocks := blocks;
      this.songWriters := songWriters;
      this.settings := settings;
      this.measure := measure;
      this.rootFontSize := rootFontSize;
      width, height := 0.0, 0.0;
      layout := Layout([], 0.0, []);
      scrollY, targetScrollY := 0.0, 0.0;
      autoScrollDisabled := false;
      timer := None;
      hovered := None;
      hover := HoverAnim(None, 0.0, Box(0.0, 0.0, 0.0, 0.0));
      alphas, scales := map[], map[];
      syncButtonVisible := false;
    }

    /** `recalculateLayout`: nothing on a canvas of width 0; otherwise the layout, scroll range and boxes anew. */
    method Relayout()
      requires Valid()
      modifies this
      ensures Valid()
      ensures width == 0.0 ==> layout == old(layout)
      ensures width != 0.0 ==> layout == LayoutOf(Env(), blocks, songWriters)
      ensures blocks == old(blocks) && songWriters == old(songWriters) && settings == old(settings)
      ensures width == old(width) && height == old(height)
      ensures scrollY == old(scrollY) && targetScrollY == old(targetScrollY)
      ensures autoScrollDisabled == old(autoScrollDisabled) && timer == old(timer) && hovered == old(hovered)
      ensures hover == old(hover) && alphas == old(alphas) && scales == old(scales)
      ensures syncButtonVisible == old(syncButtonVisible)
    {
      if width != 0.0 {
        layout := RecalculateLayout(Env(), blocks, songWriters);
      }
    }

    /** `updateSize`: the canvas's new size, then a relayout. */
    method Resize(newWidth: real, newHeight: real)
      requires Valid()
      modifies this
      ensures Valid()
      ensures width == newWidth && height == newHeight
      ensures newWidth == 0.0 ==> layout == old(layout)
      ensures newWidth != 0.0 ==> layout == LayoutOf(Env(), blocks, songWriters)
      ensures blocks == old(blocks) && songWriters == old(songWriters) && settings == old(settings)
      ensures scrollY == old(scrollY) && targetScrollY == old(targetScrollY)
      ensures autoScrollDisabled == old(autoScrollDisabled) && timer == old(timer) && hovered == old(hovered)
      ensures hover == old(hover) && alphas == old(alphas) && scales == old(scales)
    {
      width, height := newWidth, newHeight;
      Relayout();
    }

    /** New lyrics or settings for the mounted canvas: a relayout; the hovered index is kept. */
    method SetLyrics(newBlocks: seq<SyllableLine>, newSongWriters: seq<string>, newSettings: LyricsSettings)
      requires Valid()
      modifies this
      ensures Valid()
      ensures blocks == newBlocks && songWriters == newSongWriters && settings == newSettings
      ensures width == 0.0 ==> layout == old(layout)
      ensures width != 0.0 ==> layout == LayoutOf(Env(), blocks, songWriters)
      ensures width == old(width) && height == old(height) && hovered == old(hovered)
      ensures scrollY == old(scrollY) && targetScrollY == old(targetScrollY)
      ensures autoScrollDisabled == old(autoScrollDisabled) && timer == old(timer)
    {
      blocks, songWriters, settings := newBlocks, newSongWriters, newSettings;
      Relayout();
    }

    /** `enableAutoScroll`, also the sync button's click. */
    method SyncClick()
      requires Valid()
      modifies this
      ensures Valid() && !autoScrollDisabled
      ensures layout == old(layout) && scrollY == old(scrollY) && targetScrollY == old(targetScrollY)
      ensures timer == old(timer) && hovered == old(hovered) && hover == old(hover)
    {
      autoScrollDisabled := false;
    }

    /**
     * A wheel event: auto-scroll is off, the target moves by the wheel's
     * delta within `[0, maxScrollY]`, and the check is due a second from now,
     * replacing any pending timer.
     */
    method Wheel(deltaY: real, now: real)
      requires Valid()
      modifies this
      ensures Valid()
      ensures autoScrollDisabled && timer == Some(Timer(WheelCheck, now + ScrollResetMs))
      ensures targetScrollY == MaxReal(0.0, MinReal(old(targetScrollY) + deltaY, layout.maxScrollY))
      ensures 0.0 <= targetScrollY <= layout.maxScrollY
      ensures old(targetScrollY) + deltaY <= layout.maxScrollY ==> targetScrollY == MaxReal(0.0, old(targetScrollY) + deltaY)
      ensures layout == old(layout) && scrollY == old(scrollY) && hovered == old(hovered) && hover == old(hover)
      ensures alphas == old(alphas) && scales == old(scales)
    {
      autoScrollDisabled := true;
      targetScrollY := MaxReal(0.0, MinReal(targetScrollY + deltaY, layout.maxScrollY));
      timer := Some(Timer(WheelCheck, now + ScrollResetMs));
    }

    /**
     * The clock reaches `now`. A due wheel check turns auto-scroll back on
     * only when a line being sung at `progress` lies in the band between the
     * paddings of a view `viewHeight` high; a due frame-loop timer turns it
     * on outright. Either way the timer is gone.
     */
    method FireTimer(now: real, progress: real, viewHeight: real)
      requires Valid()
      modifies this
      ensures Valid()
      ensures var due := old(timer).Some? && old(timer).value.due <= now;
        (due ==> (timer.None?
                  && (old(timer).value.kind == InViewReset ==> !autoScrollDisabled)
                  && (old(timer).value.kind == WheelCheck ==>
                        autoScrollDisabled == (old(autoScrollDisabled) && !SungLineInView(layout.lines, progress, viewHeight, scrollY)))))
        && (!due ==> timer == old(timer) && autoScrollDisabled == old(autoScrollDisabled))
      ensures layout == old(layout) && scrollY == old(scrollY) && targetScrollY == old(targetScrollY)
      ensures hovered == old(hovered) && hover == old(hover) && alphas == old(alphas) && scales == old(scales)
    {
      if timer.Some? && timer.value.due <= now {
        if timer.value.kind == InViewReset {
          autoScrollDisabled := false;
        } else {
          var seen := AnySungInView(layout.lines, progress, viewHeight, scrollY);
          if seen {
            autoScrollDisabled := false;
          }
        }
        timer := None;
      }
    }

    /** A click: a seek to the start of the pointed-at group's first sung line, which also turns auto-scroll on. */
    method Click(x: real, y: real) returns (seek: Option<Number>)
      requires Valid()
      modifies this
      ensures Valid()
      ensures seek == ClickSeek(layout, scrollY, x, y)
      ensures autoScrollDisabled == (old(autoScrollDisabled) && seek.None?)
      ensures layout == old(layout) && scrollY == old(scrollY) && targetScrollY == old(targetScrollY)
      ensures timer == old(timer) && hovered == old(hovered) && hover == old(hover)
    {
      var t := PointAt(x, y);
      seek := None;
      if t.Some? {
        var j := FirstVocal(layout.lines, layout.lines[t.value].lineGroup);
        if j.Some? {
          seek := Some(layout.lines[j.value].start);
          autoScrollDisabled := false;
        }
      }
    }

    /** The hit test of `handleCanvasInteraction`. */
    method PointAt(x: real, y: real) returns (t: Option<nat>)
      requires Valid()
      ensures t == PointedLine(layout, scrollY, x, y)
      ensures t.Some? ==> t.value < |layout.lines|
    {
      var i := FindBox(layout.boxes, x, y + scrollY);
      t := None;
      if i.Some? {
        t := FirstOfGroup(layout.lines, layout.boxes[i.value].0);
      }
    }

    /** A mouse move: the pointed-at line becomes the hovered one, or none. */
    method MouseMove(x: real, y: real)
      requires Valid()
      modifies this
      ensures Valid()
      ensures hovered == PointedLine(layout, scrollY, x, y)
      ensures layout == old(layout) && scrollY == old(scrollY) && targetScrollY == old(targetScrollY)
      ensures autoScrollDisabled == old(autoScrollDisabled) && timer == old(timer) && hover == old(hover)
    {
      hovered := PointAt(x, y);
    }

    method MouseOut()
      requires Valid()
      modifies this
      ensures Valid() && hovered.None?
      ensures layout == old(layout) && scrollY == old(scrollY) && targetScrollY == old(targetScrollY)
      ensures autoScrollDisabled == old(autoScrollDisabled) && timer == old(timer) && hover == old(hover)
    {
      hovered := None;
    }

    /**
     * One frame at playback position `progress` and time `now`. While
     * auto-scroll is on, the target centres the followed line's group (moved
     * by the offset); the view covers a tenth of the way and stays in `[0,
     * maxScrollY]`; the sync button and the re-enable timer follow whether
     * the followed line is in view; the groups fade and grow. Then the
     * hovered line's group is read as written: when the hovered index is past
     * the end of the layout the read throws, the hover card is left as it was
     * and no further frame is requested (`continues` is false); otherwise the
     * hover card follows the group and the loop goes on.
     */
    method Tick(progress: real, now: real, scrollOffset: real) returns (continues: bool)
      requires Valid()
      modifies this
      ensures Valid()
      ensures 0.0 <= scrollY <= layout.maxScrollY
      ensures var focus := Focus(progress, layout.lines);
        targetScrollY == (if !old(autoScrollDisabled) && focus.Some?
                          then ScrollTarget(height, layout.maxScrollY,
                                            OfGroup(layout.lines, layout.lines[focus.value].lineGroup), scrollOffset)
                          else old(targetScrollY))
        && scrollY == ScrollStep(old(scrollY), targetScrollY, layout.maxScrollY)
        && SyncRule(focus, old(timer), now)
      ensures var groups := ActiveGroups(progress, layout.lines);
        alphas == EasedAlphas(progress, layout.lines, groups, old(alphas), old(scales), GroupIds(layout.lines))
        && scales == EasedScales(progress, layout.lines, groups, old(alphas), old(scales), GroupIds(layout.lines))
      ensures continues <==> (hovered.None? || hovered.value < |layout.lines|)
      ensures continues ==> hover == HoverStep(old(hover), HoveredGroupAsWritten(layout.lines, hovered).value, layout.boxes)
      ensures !continues ==> hover == old(hover)
      ensures layout == old(layout) && hovered == old(hovered) && autoScrollDisabled == old(autoScrollDisabled)
    {
      var groups, primary := ScanLines(progress, layout.lines);
      var focus := primary;
      if focus.None? && |layout.lines| > 0 {
        var least := LeastActive(progress, layout.lines);
        focus := if least.Some? then FirstOfGroup(layout.lines, least.value) else Some(0);
      }
      FocusRule(progress, layout.lines);
      FollowFocus(focus, scrollOffset);
      UpdateSync(focus, now);
      EaseGroups(progress, groups);
      continues := HoverFrame();
    }

    /** The hover card's frame step, after the hovered group is read as written. */
    method HoverFrame() returns (continues: bool)
      modifies this
      ensures continues <==> HoveredGroupAsWritten(layout.lines, hovered).Returned?
      ensures continues ==> hover == HoverStep(old(hover), HoveredGroupAsWritten(layout.lines, hovered).value, layout.boxes)
      ensures !continues ==> hover == old(hover)
      ensures layout == old(layout) && hovered == old(hovered) && autoScrollDisabled == old(autoScrollDisabled)
      ensures timer == old(timer) && alphas == old(alphas) && scales == old(scales) && height == old(height)
      ensures scrollY == old(scrollY) && targetScrollY == old(targetScrollY) && syncButtonVisible == old(syncButtonVisible)
    {
      var read := HoveredGroupAsWritten(layout.lines, hovered);
      if read.Threw? {
        return false;
      }
      hover := HoverStep(hover, read.value, layout.boxes);
      continues := true;
    }

    /** The sync button and timer after the scroll step, as the followed line's place in the view decides them. */
    ghost predicate SyncRule(focus: Option<nat>, timer0: Option<Timer>, now: real)
      reads this
    {
      if focus.Some? && focus.value < |layout.lines| then
        var inView := InView(height, scrollY, layout.lines[focus.value]);
        syncButtonVisible == (autoScrollDisabled && !inView)
        && timer == (if autoScrollDisabled && inView then (if timer0.None? then Some(Timer(InViewReset, now + ScrollResetMs)) else timer0)
                     else if !inView then None
                     else timer0)
      else !syncButtonVisible && timer == timer0
    }

    /** The target and the smoothing step. */
    method FollowFocus(focus: Option<nat>, scrollOffset: real)
      requires Valid() && (focus.Some? ==> focus.value < |layout.lines|)
      modifies this
      ensures layout == old(layout) && Valid() && 0.0 <= scrollY <= layout.maxScrollY
      ensures targetScrollY == (if !autoScrollDisabled && focus.Some?
                                then ScrollTarget(height, layout.maxScrollY,
                                                  OfGroup(layout.lines, layout.lines[focus.value].lineGroup), scrollOffset)
                                else old(targetScrollY))
      ensures scrollY == ScrollStep(old(scrollY), targetScrollY, layout.maxScrollY)
      ensures layout == old(layout) && hovered == old(hovered) && autoScrollDisabled == old(autoScrollDisabled)
      ensures timer == old(timer) && hover == old(hover) && alphas == old(alphas) && scales == old(scales)
      ensures height == old(height)
    {
      if !autoScrollDisabled && focus.Some? {
        var l := layout.lines[focus.value];
        var ls := OfGroup(layout.lines, l.lineGroup);
        assert l in ls;
        targetScrollY := ScrollTarget(height, layout.maxScrollY, ls, scrollOffset);
      }
      ScrollStepInRange(scrollY, targetScrollY, layout.maxScrollY);
      scrollY := ScrollStep(scrollY, targetScrollY, layout.maxScrollY);
    }

    /** The sync button and the frame loop's re-enable timer. */
    method UpdateSync(focus: Option<nat>, now: real)
      requires Valid() && (focus.Some? ==> focus.value < |layout.lines|)
      modifies this
      ensures Valid() && SyncRule(focus, old(timer), now)
      ensures layout == old(layout) && hovered == old(hovered) && autoScrollDisabled == old(autoScrollDisabled)
      ensures scrollY == old(scrollY) && targetScrollY == old(targetScrollY) && height == old(height)
      ensures hover == old(hover) && alphas == old(alphas) && scales == old(scales)
    {
      if focus.Some? {
        var inView := InView(height, scrollY, layout.lines[focus.value]);
        syncButtonVisible := autoScrollDisabled && !inView;
        if autoScrollDisabled && inView {
          if timer.None? {
            timer := Some(Timer(InViewReset, now + ScrollResetMs));
          }
        } else if !inView && timer.Some? {
          timer := None;
        }
      } else {
        syncButtonVisible := false;
      }
    }

    /** Each group of the layout once, credits skipped: a step of its alpha and scale. */
    method EaseGroups(progress: real, groups: set<int>)
      requires Valid()
      modifies this
      ensures Valid()
      ensures alphas == EasedAlphas(progress, layout.lines, groups, old(alphas), old(scales), GroupIds(layout.lines))
      ensures scales == EasedScales(progress, layout.lines, groups, old(alphas), old(scales), GroupIds(layout.lines))
      ensures layout == old(layout) && hovered == old(hovered) && autoScrollDisabled == old(autoScrollDisabled)
      ensures scrollY == old(scrollY) && targetScrollY == old(targetScrollY) && height == old(height)
      ensures timer == old(timer) && hover == old(hover) && syncButtonVisible == old(syncButtonVisible)
    {
      alphas, scales := EaseAll(progress, layout.lines, groups, alphas, scales);
    }
  }

  /** The loop of the fade step: each group once, in the order the lines first show it. */
  method EaseAll(progress: real, lines: seq<Line>, groups: set<int>, a0: map<int, real>, s0: map<int, real>)
    returns (alphas: map<int, real>, scales: map<int, real>)
    ensures alphas == EasedAlphas(progress, lines, groups, a0, s0, GroupIds(lines))
    ensures scales == EasedScales(progress, lines, groups, a0, s0, GroupIds(lines))
  {
    alphas, scales := a0, s0;
    var done: set<int> := {};
    for j := 0 to |lines|
      invariant done == GroupIds(lines[..j])
      invariant alphas == EasedAlphas(progress, lines, groups, a0, s0, done)
      invariant scales == EasedScales(progress, lines, groups, a0, s0, done)
    {
      GroupIdsSnoc(lines, j);
      var g := lines[j].lineGroup;
      if g != CreditsGroup && g !in done {
        var look := GroupLook(progress, lines, groups, g, Get(alphas, g), Get(scales, g));
        EasedStep(progress, lines, groups, a0, s0, done, g);
        alphas := alphas[g := look.0];
        scales := scales[g := look.1];
        done := done + {g};
      }
    }
    assert lines[..|lines|] == lines;
  }

  /** `activeLines.some(...)`: whether any line being sung lies in the band. */
  method AnySungInView(lines: seq<Line>, progress: real, height: real, scrollY: real) returns (seen: bool)
    ensures seen == SungLineInView(lines, progress, height, scrollY)
  {
    seen := false;
    for j := 0 to |lines|
      invariant seen == exists k :: 0 <= k < j && InWindow(progress, lines[k]) && InView(height, scrollY, lines[k])
    {
      if InWindow(progress, lines[j]) && InView(height, scrollY, lines[j]) {
        seen := true;
      }
    }
  }

  lemma GroupIdsSnoc(lines: seq<Line>, j: nat)
    requires j < |lines|
    ensures GroupIds(lines[..j + 1])
      == GroupIds(lines[..j]) + (if lines[j].lineGroup != CreditsGroup then {lines[j].lineGroup} else {})
  {
    assert forall k :: 0 <= k < j ==> lines[..j + 1][k] == lines[..j][k];
  }

  /** Easing one more group: its entry takes its step from the old maps, nothing else changes. */
  lemma EasedStep(p: real, lines: seq<Line>, groups: set<int>, a0: map<int, real>, s0: map<int, real>, done: set<int>, g: int)
    requires g !in done
    ensures var a := EasedAlphas(p, lines, groups, a0, s0, done);
      var s := EasedScales(p, lines, groups, a0, s0, done);
      Get(a, g) == Get(a0, g) && Get(s, g) == Get(s0, g)
      && EasedAlphas(p, lines, groups, a0, s0, done + {g})
         == a[g := GroupLook(p, lines, groups, g, Get(a0, g), Get(s0, g)).0]
      && EasedScales(p, lines, groups, a0, s0, done + {g})
         == s[g := GroupLook(p, lines, groups, g, Get(a0, g), Get(s0, g)).1]
  {
    SteppedSnoc(a0, done, h => GroupLook(p, lines, groups, h, Get(a0, h), Get(s0, h)).0, g);
    SteppedSnoc(s0, done, h => GroupLook(p, lines, groups, h, Get(a0, h), Get(s0, h)).1, g);
  }

  lemma SteppedSnoc(m: map<int, real>, ids: set<int>, f: int -> real, g: int)
    requires g !in ids
    ensures Get(Stepped(m, ids, f), g) == Get(m, g)
    ensures Stepped(m, ids + {g}, f) == Stepped(m, ids, f)[g := f(g)]
  {
  }
}
