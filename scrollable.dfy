/** The custom scroll container: its thumb geometry, thumb dragging, and the user-scrolling window. */
module ScrollableArea {
  import opened Wrappers
  import opened JsNumber

  const DefaultUserScrollTimeout: real := 2000.0
  const MinThumbHeight: real := 20.0

  /** `Math.max((contentVisible / contentTotalHeight) * trackSize, 20)` for content taller than its box. */
  function ThumbHeightFor(trackSize: real, contentVisible: real, contentTotalHeight: real): (h: real)
    requires 0.0 <= contentVisible < contentTotalHeight
    ensures h >= MinThumbHeight
    ensures h == MinThumbHeight || h == (contentVisible / contentTotalHeight) * trackSize
    ensures trackSize >= MinThumbHeight ==> h <= trackSize
  {
    var r := contentVisible / contentTotalHeight;
    ProperFraction(contentVisible, contentTotalHeight, trackSize);
    MaxReal(r * trackSize, MinThumbHeight)
  }

  lemma ProperFraction(a: real, b: real, t: real)
    requires 0.0 <= a < b
    ensures 0.0 <= a / b < 1.0
    ensures t >= 0.0 ==> (a / b) * t <= t
  {
    if t >= 0.0 {
      assert (a / b) * t <= 1.0 * t;
    }
  }

  /** `(scrollTop / (scrollHeight - clientHeight)) * (trackHeight - thumbHeight)` */
  function ThumbOffset(scrollTop: real, scrollHeight: real, clientHeight: real, trackHeight: real, thumbHeight: real): (y: Number)
    ensures scrollHeight > clientHeight ==> y.Num?
    ensures scrollHeight > clientHeight && 0.0 <= scrollTop <= scrollHeight - clientHeight && thumbHeight <= trackHeight
            ==> 0.0 <= y.v <= trackHeight - thumbHeight
    ensures scrollHeight == clientHeight && scrollTop == 0.0 ==> y.NaN?
  {
    var ratio := Div(scrollTop, scrollHeight - clientHeight);
    if scrollHeight > clientHeight then
      FractionAtMostOne(scrollTop, scrollHeight - clientHeight, trackHeight - thumbHeight);
      Scale(ratio, trackHeight - thumbHeight)
    else
      Scale(ratio, trackHeight - thumbHeight)
  }

  lemma FractionAtMostOne(a: real, b: real, t: real)
    requires b > 0.0
    ensures 0.0 <= a <= b && t >= 0.0 ==> 0.0 <= (a / b) * t <= t
  {
    if 0.0 <= a <= b && t >= 0.0 {
      assert a / b <= 1.0;
      assert (a / b) * t <= 1.0 * t;
    }
  }

  /** `Math.min(initialContentScrollTop + deltaY, scrollHeight - clientHeight)` during a thumb drag. */
  function DraggedScrollTop(initialScrollTop: real, startY: real, clientY: real, scrollHeight: real, clientHeight: real, thumbHeight: real): (t: real)
    requires thumbHeight > 0.0
    ensures t <= scrollHeight - clientHeight
    ensures t == scrollHeight - clientHeight || t == initialScrollTop + (clientY - startY) * (clientHeight / thumbHeight)
  {
    MinReal(initialScrollTop + (clientY - startY) * (clientHeight / thumbHeight), scrollHeight - clientHeight)
  }

  /** Dragging the thumb further down never scrolls the content up. */
  lemma DragMonotone(initialScrollTop: real, startY: real, y1: real, y2: real, scrollHeight: real, clientHeight: real, thumbHeight: real)
    requires thumbHeight > 0.0 && clientHeight >= 0.0 && y1 <= y2
    ensures DraggedScrollTop(initialScrollTop, startY, y1, scrollHeight, clientHeight, thumbHeight)
         <= DraggedScrollTop(initialScrollTop, startY, y2, scrollHeight, clientHeight, thumbHeight)
  {
    var k := clientHeight / thumbHeight;
    assert k >= 0.0;
    assert (y1 - startY) * k <= (y2 - startY) * k;
  }

  class Scrollable {
    const userScrollTimeout: real
    var thumbHeight: real
    var thumbY: Number
    var isDragging: bool
    var scrollStartPosition: real
    var initialContentScrollTop: real
    var isUserScrolling: bool
    var isScrollable: bool
    var isHovered: bool
    /** When the pending user-scroll timer fires, if one is pending. */
    var scrollDeadline: Option<real>

    ghost predicate Valid()
      reads this
    {
      thumbHeight >= MinThumbHeight && (isUserScrolling <==> scrollDeadline.Some?)
    }

    /** `userScrollTimeout` defaults to 2000 ms. */
    constructor(userScrollTimeout: Option<real>)
      ensures Valid()
      ensures this.userScrollTimeout == userScrollTimeout.GetOr(DefaultUserScrollTimeout)
      ensures thumbHeight == MinThumbHeight && thumbY == Num(0.0) && !isDragging
      ensures scrollStartPosition == 0.0 && initialContentScrollTop == 0.0
      ensures !isUserScrolling && !isScrollable && !isHovered && scrollDeadline.None?
    {
      this.userScrollTimeout := userScrollTimeout.GetOr(DefaultUserScrollTimeout);
      thumbHeight := MinThumbHeight;
      thumbY := Num(0.0);
      isDragging := false;
      scrollStartPosition := 0.0;
      initialContentScrollTop := 0.0;
      isUserScrolling := false;
      isScrollable := false;
      isHovered := false;
      scrollDeadline := None;
    }

    /** `isAutoScrollAllowed()` */
    function IsAutoScrollAllowed(): bool
      reads this
    {
      !isUserScrolling
    }

    /** The track is shown only for scrollable content that is hovered, dragged or being scrolled. */
    function IsTrackVisible(): bool
      reads this
    {
      isScrollable && (isHovered || isDragging || isUserScrolling)
    }

    /** `handleResize`: the content box or its content changed size. */
    method Resize(trackSize: real, contentVisible: real, contentTotalHeight: real)
      requires Valid() && contentVisible >= 0.0
      modifies this
      ensures Valid()
      ensures isScrollable == (contentTotalHeight > contentVisible)
      ensures thumbHeight == if isScrollable then ThumbHeightFor(trackSize, contentVisible, contentTotalHeight) else old(thumbHeight)
      ensures thumbY == old(thumbY) && isDragging == old(isDragging) && isUserScrolling == old(isUserScrolling)
      ensures scrollDeadline == old(scrollDeadline) && isHovered == old(isHovered)
      ensures scrollStartPosition == old(scrollStartPosition) && initialContentScrollTop == old(initialContentScrollTop)
    {
      if contentTotalHeight > contentVisible {
        thumbHeight := ThumbHeightFor(trackSize, contentVisible, contentTotalHeight);
        isScrollable := true;
      } else {
        isScrollable := false;
      }
    }

    /** A scroll event: the thumb follows the content, and the user-scrolling window restarts. */
    method Scroll(now: real, scrollTop: real, scrollHeight: real, clientHeight: real, trackHeight: real)
      requires Valid()
      modifies this
      ensures Valid()
      ensures thumbY == ThumbOffset(scrollTop, scrollHeight, clientHeight, trackHeight, thumbHeight)
      ensures isUserScrolling && scrollDeadline == Some(now + userScrollTimeout)
      ensures thumbHeight == old(thumbHeight) && isScrollable == old(isScrollable) && isDragging == old(isDragging)
      ensures isHovered == old(isHovered)
      ensures scrollStartPosition == old(scrollStartPosition) && initialContentScrollTop == old(initialContentScrollTop)
    {
      thumbY := ThumbOffset(scrollTop, scrollHeight, clientHeight, trackHeight, thumbHeight);
      isUserScrolling := true;
      scrollDeadline := Some(now + userScrollTimeout);
    }

    /** Time passes; the user-scroll timer fires once its deadline is reached. */
    method Tick(now: real)
      requires Valid()
      modifies this
      ensures Valid()
      ensures old(scrollDeadline).Some? && now >= old(scrollDeadline).value ==> !isUserScrolling && scrollDeadline.None?
      ensures !(old(scrollDeadline).Some? && now >= old(scrollDeadline).value)
              ==> isUserScrolling == old(isUserScrolling) && scrollDeadline == old(scrollDeadline)
      ensures thumbHeight == old(thumbHeight) && thumbY == old(thumbY) && isScrollable == old(isScrollable)
      ensures isDragging == old(isDragging) && isHovered == old(isHovered)
      ensures scrollStartPosition == old(scrollStartPosition) && initialContentScrollTop == old(initialContentScrollTop)
    {
      if scrollDeadline.Some? && now >= scrollDeadline.value {
        isUserScrolling := false;
        scrollDeadline := None;
      }
    }

    /** Mouse down on the thumb. */
    method ThumbMouseDown(clientY: real, scrollTop: real)
      requires Valid()
      modifies this
      ensures Valid() && isDragging
      ensures scrollStartPosition == clientY && initialContentScrollTop == scrollTop
      ensures thumbHeight == old(thumbHeight) && thumbY == old(thumbY) && isScrollable == old(isScrollable)
      ensures isUserScrolling == old(isUserScrolling) && scrollDeadline == old(scrollDeadline) && isHovered == old(isHovered)
    {
      scrollStartPosition := clientY;
      initialContentScrollTop := scrollTop;
      isDragging := true;
    }

    /** Mouse up anywhere in the document. */
    method ThumbMouseUp()
      requires Valid()
      modifies this
      ensures Valid() && !isDragging
      ensures thumbHeight == old(thumbHeight) && thumbY == old(thumbY) && isScrollable == old(isScrollable)
      ensures isUserScrolling == old(isUserScrolling) && scrollDeadline == old(scrollDeadline) && isHovered == old(isHovered)
      ensures scrollStartPosition == old(scrollStartPosition) && initialContentScrollTop == old(initialContentScrollTop)
    {
      isDragging := false;
    }

    /** Mouse move in the document: while dragging, the scroll position to assign to the content. */
    method ThumbMouseMove(clientY: real, scrollHeight: real, clientHeight: real) returns (newScrollTop: Option<real>)
      requires Valid()
      ensures newScrollTop.Some? <==> isDragging
      ensures isDragging ==> newScrollTop.value == DraggedScrollTop(initialContentScrollTop, scrollStartPosition, clientY, scrollHeight, clientHeight, thumbHeight)
      ensures isDragging ==> newScrollTop.value <= scrollHeight - clientHeight
    {
      if !isDragging {
        return None;
      }
      newScrollTop := Some(DraggedScrollTop(initialContentScrollTop, scrollStartPosition, clientY, scrollHeight, clientHeight, thumbHeight));
    }

    method MouseEnter()
      modifies this
      ensures isHovered
      ensures thumbHeight == old(thumbHeight) && thumbY == old(thumbY) && isScrollable == old(isScrollable) && isDragging == old(isDragging)
      ensures isUserScrolling == old(isUserScrolling) && scrollDeadline == old(scrollDeadline)
      ensures scrollStartPosition == old(scrollStartPosition) && initialContentScrollTop == old(initialContentScrollTop)
    {
      isHovered := true;
    }

    method MouseLeave()
      modifies this
      ensures !isHovered
      ensures thumbHeight == old(thumbHeight) && thumbY == old(thumbY) && isScrollable == old(isScrollable) && isDragging == old(isDragging)
      ensures isUserScrolling == old(isUserScrolling) && scrollDeadline == old(scrollDeadline)
      ensures scrollStartPosition == old(scrollStartPosition) && initialContentScrollTop == old(initialContentScrollTop)
    {
      isHovered := false;
    }
  }

  /**
   * Auto-scroll is allowed again exactly `userScrollTimeout` after the last
   * scroll event, and not before.
   */
  method UserScrollWindow(s: Scrollable, t0: real, later: real, scrollTop: real, scrollHeight: real, clientHeight: real, trackHeight: real)
      returns (allowedBefore: bool, allowedAfter: bool)
    requires s.Valid() && s.userScrollTimeout > 0.0 && t0 <= later
    modifies s
    ensures s.Valid()
    ensures !allowedBefore
    ensures allowedAfter <==> later >= t0 + s.userScrollTimeout
  {
    s.Scroll(t0, scrollTop, scrollHeight, clientHeight, trackHeight);
    s.Tick(t0);
    allowedBefore := s.IsAutoScrollAllowed();
    s.Tick(later);
    allowedAfter := s.IsAutoScrollAllowed();
  }
}
