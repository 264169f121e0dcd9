/**
 * What a layout pass guarantees: the interlude rule, dots that tile the
 * silence, lines in top-to-bottom order, fresh group numbers per block and
 * interlude, credits that spell the credits text, the scroll range and the
 * group boxes.
 */
module CanvasLayoutProps {
  import opened JsNumber
  import opened LyricTypes
  import opened Strings
  import opened CanvasText
  import opened CanvasTextProps
  import opened CanvasLayout

  /** Font sizes are positive, as `MakeEnv` makes them. */
  ghost predicate ValidEnv(env: Env) {
    env.leadSize > 0.0 && env.bgSize > 0.0
  }

  /** Lines in non-decreasing `y`, none below `y`. */
  ghost predicate Ordered(lines: seq<Line>, y: real) {
    (forall i, j :: 0 <= i < j < |lines| ==> lines[i].y <= lines[j].y)
    && (forall j :: 0 <= j < |lines| ==> lines[j].y <= y)
  }

  lemma {:induction false} StackedChain(lines0: seq<Line>, y0: real, gap: real, lines: seq<Line>, y: real, j: nat)
    requires gap >= 0.0 && lines0 <= lines && Ordered(lines0, y0) && Stacked(lines0, y0, gap, lines, y)
    requires |lines0| <= j < |lines|
    ensures y0 <= lines[j].y && forall i :: 0 <= i < j ==> lines[i].y <= lines[j].y
  {
    if j > |lines0| {
      StackedChain(lines0, y0, gap, lines, y, j - 1);
    } else {
      assert forall i :: 0 <= i < j ==> lines[i] == lines0[i];
    }
  }

  lemma StackedOrdered(lines0: seq<Line>, y0: real, gap: real, lines: seq<Line>, y: real)
    requires gap >= 0.0 && lines0 <= lines && Ordered(lines0, y0) && Stacked(lines0, y0, gap, lines, y)
    ensures Ordered(lines, y) && y0 <= y
  {
    forall i, j | 0 <= i < j < |lines|
      ensures lines[i].y <= lines[j].y
    {
      if j >= |lines0| {
        StackedChain(lines0, y0, gap, lines, y, j);
      } else {
        assert lines[i] == lines0[i] && lines[j] == lines0[j];
      }
    }
    if |lines| > |lines0| {
      StackedChain(lines0, y0, gap, lines, y, |lines| - 1);
    } else {
      assert lines == lines0;
    }
  }

  /** The lines after `lines0` are a block's own lines: of `group`, not interludes, with elements. */
  ghost predicate OwnLines(lines0: seq<Line>, lines: seq<Line>, group: int)
    requires lines0 <= lines
  {
    forall j :: |lines0| <= j < |lines| ==>
      lines[j].lineGroup == group && !lines[j].isInterlude && |lines[j].elements| > 0
  }

  /** What laying out a block's parts keeps: the earlier lines, order, the block's own lines and a `y` no higher. */
  ghost predicate Keeps(lines0: seq<Line>, group: int, y: real, r: (seq<Line>, real)) {
    lines0 <= r.0 && Ordered(r.0, r.1) && OwnLines(lines0, r.0, group) && y <= r.1
  }

  lemma PartStep(ctx: PartCtx, lines0: seq<Line>, lines: seq<Line>, y: real, part: VocalPart)
    requires FontHeight(ctx) > 0.0
    requires lines0 <= lines && Ordered(lines, y) && OwnLines(lines0, lines, ctx.group)
    ensures Keeps(lines0, ctx.group, y, LayoutPart(ctx, lines, y, part))
  {
    PartLines(ctx, lines, y, part);
    var r := LayoutPart(ctx, lines, y, part);
    StackedOrdered(lines, y, LineSpacing(ctx), r.0, r.1);
    assert forall j :: |lines| <= j < |r.0| ==> PartLine(ctx, r.0[j]);
    assert forall j :: |lines0| <= j < |lines| ==> r.0[j] == lines[j];
  }

  lemma {:induction false} BackgroundStep(env: Env, group: int, alignRight: bool, lines0: seq<Line>, lines: seq<Line>, y: real,
                                          ps: seq<VocalPart>)
    requires ValidEnv(env)
    requires lines0 <= lines && Ordered(lines, y) && OwnLines(lines0, lines, group)
    ensures Keeps(lines0, group, y, BackgroundFold(env, group, alignRight, lines, y, ps))
    decreases |ps|
  {
    if |ps| > 0 {
      var ctx := PartCtx(env, false, group, alignRight);
      PartStep(ctx, lines0, lines, y, ps[0]);
      var r := LayoutPart(ctx, lines, y, ps[0]);
      BackgroundStep(env, group, alignRight, lines0, r.0, r.1, ps[1..]);
    }
  }

  /** The state kept across blocks: ordered lines, groups numbered below the counter, a non-negative last end. */
  ghost predicate BlocksInv(a: Acc) {
    Ordered(a.lines, a.y) && a.groupCounter >= 0 && a.lastEndTime >= 0.0
    && forall j :: 0 <= j < |a.lines| ==> 0 <= a.lines[j].lineGroup < a.groupCounter
  }

  lemma OpenStep(env: Env, a: Acc, b: SyllableLine, blockStart: real)
    requires ValidEnv(env) && BlocksInv(a)
    ensures var o := BlockOpen(env, a, b, blockStart);
      a.lines <= o.lines && Ordered(o.lines, o.y) && a.y <= o.y
      && o.groupCounter == a.groupCounter + (if HasInterlude(a, blockStart) then 2 else 1)
      && (forall j :: 0 <= j < |o.lines| ==> 0 <= o.lines[j].lineGroup < o.groupCounter)
      && (forall j :: 0 <= j < |o.lines| ==> o.lines[j].lineGroup != a.groupCounter)
  {
  }

  /** A non-empty block's own lines come after what `BlockOpen` left, in the block's group, no higher up. */
  lemma BlockOwnLines(env: Env, a: Acc, b: SyllableLine)
    requires ValidEnv(env) && BlocksInv(a) && |AllSyllables(b)| > 0
    ensures var ss := AllSyllables(b);
      var o := BlockOpen(env, a, b, StartPrefix(ss, |ss|));
      var r := BlockStep(env, a, b);
      o.lines <= r.lines && Ordered(r.lines, r.y) && OwnLines(o.lines, r.lines, a.groupCounter)
      && r.groupCounter == o.groupCounter && r.lastEndTime == EndPrefix(ss, |ss|) * 1000.0
  {
    var ss := AllSyllables(b);
    var bs := StartPrefix(ss, |ss|);
    OpenStep(env, a, b, bs);
    var o := BlockOpen(env, a, b, bs);
    var ctx := PartCtx(env, true, a.groupCounter, b.oppositeAligned);
    PartStep(ctx, o.lines, o.lines, o.y, b.lead);
    var r1 := LayoutPart(ctx, o.lines, o.y, b.lead);
    var bg := BackgroundParts(b);
    BackgroundStep(env, a.groupCounter, b.oppositeAligned, o.lines, r1.0, r1.1, bg);
  }

  /**
   * One block keeps the state: its lines come after the earlier ones and no
   * higher up; its own lines carry the group the counter stood at; the
   * counter moves past every group it used.
   */
  lemma BlockStepInv(env: Env, a: Acc, b: SyllableLine)
    requires ValidEnv(env) && BlocksInv(a)
    ensures var r := BlockStep(env, a, b);
      BlocksInv(r) && a.lines <= r.lines && a.groupCounter <= r.groupCounter
  {
    var ss := AllSyllables(b);
    if |ss| > 0 {
      var bs := StartPrefix(ss, |ss|);
      OpenStep(env, a, b, bs);
      BlockOwnLines(env, a, b);
      var o := BlockOpen(env, a, b, bs);
      var r := BlockStep(env, a, b);
      assert forall j :: |o.lines| <= j < |r.lines| ==> r.lines[j].lineGroup == a.groupCounter;
      assert forall j :: 0 <= j < |o.lines| ==> r.lines[j] == o.lines[j];
    }
  }

  lemma {:induction false} BlocksFoldInv(env: Env, a: Acc, bs: seq<SyllableLine>, k: nat)
    requires k <= |bs| && ValidEnv(env) && BlocksInv(a)
    ensures BlocksInv(BlocksFold(env, a, bs, k))
  {
    if k > 0 {
      BlocksFoldInv(env, a, bs, k - 1);
      BlockStepInv(env, BlocksFold(env, a, bs, k - 1), bs[k - 1]);
    }
  }

  /**
   * The interlude rule. A block without syllables changes nothing. Otherwise
   * its first new line is an interlude exactly when the block starts more
   * than 2000 ms after `lastEndTime`; that line spans `[lastEndTime,
   * blockStart]` on the block's side with the group after the block's; the
   * block's own lines follow, in the block's group, none of them an
   * interlude; `lastEndTime` becomes the block's latest end in ms.
   */
  lemma InterludeRule(env: Env, a: Acc, b: SyllableLine)
    requires ValidEnv(env) && BlocksInv(a)
    ensures var ss := AllSyllables(b);
      var r := BlockStep(env, a, b);
      (|ss| == 0 ==> r == a)
      && (|ss| > 0 ==>
            var bs := StartPrefix(ss, |ss|) * 1000.0;
            var n := |a.lines|;
            a.lines <= r.lines
            && r.lastEndTime == EndPrefix(ss, |ss|) * 1000.0
            && ((bs - a.lastEndTime > InterludeThresholdMs) <==> (|r.lines| > n && r.lines[n].isInterlude))
            && (bs - a.lastEndTime > InterludeThresholdMs ==>
                  r.lines[n].start == Num(a.lastEndTime) && r.lines[n].end == Num(bs)
                  && r.lines[n].alignRight == b.oppositeAligned && r.lines[n].lineGroup == a.groupCounter + 1
                  && r.groupCounter == a.groupCounter + 2
                  && forall j :: n < j < |r.lines| ==> r.lines[j].lineGroup == a.groupCounter && !r.lines[j].isInterlude)
            && (bs - a.lastEndTime <= InterludeThresholdMs ==>
                  r.groupCounter == a.groupCounter + 1
                  && forall j :: n <= j < |r.lines| ==> r.lines[j].lineGroup == a.groupCounter && !r.lines[j].isInterlude))
  {
    var ss := AllSyllables(b);
    if |ss| > 0 {
      var bs := StartPrefix(ss, |ss|);
      OpenStep(env, a, b, bs);
      BlockOwnLines(env, a, b);
      var o := BlockOpen(env, a, b, bs);
      var r := BlockStep(env, a, b);
      var n := |a.lines|;
      if HasInterlude(a, bs) {
        assert r.lines[n] == o.lines[n];
      } else {
        assert o.lines == a.lines;
      }
    }
  }

  /**
   * The dots split the silence into three equal windows in order, the first
   * opening at its start and the last closing at its end, and sit one dot
   * and one gap apart, the last ending at the dots' total width.
   */
  lemma DotsTile(env: Env, start: real, end: real)
    ensures var d := Dots(env, start, end, InterludeDotCount);
      |d| == 3
      && d[0].start == Num(start) && d[2].end == Num(end)
      && d[0].end == d[1].start && d[1].end == d[2].start
      && (forall i :: 0 <= i < 3 ==> d[i].isDot && d[i].end.v - d[i].start.v == (end - start) / 3.0)
      && d[0].x == 0.0 && d[1].x == d[0].x + DotSize(env) + InterludeDotGap
      && d[2].x == d[1].x + DotSize(env) + InterludeDotGap
      && d[2].x + d[2].width == DotsWidth(env)
  {
  }

  // ---------------------------------------------------------------------------
  // Credits
  // ---------------------------------------------------------------------------

  /** The text a line shows: its first element's (the whole line's, for credits). */
  function LineText(l: Line): string {
    if |l.elements| > 0 then l.elements[0].text else ""
  }

  function LineTexts(ls: seq<Line>): (r: seq<string>)
    ensures |r| == |ls| && forall j :: 0 <= j < |ls| ==> r[j] == LineText(ls[j])
  {
    if |ls| == 0 then [] else LineTexts(ls[..|ls| - 1]) + [LineText(ls[|ls| - 1])]
  }

  /** Credits lines: group -1, never active, not interludes. */
  ghost predicate CreditsLines(lines0: seq<Line>, lines: seq<Line>)
    requires lines0 <= lines
  {
    forall j :: |lines0| <= j < |lines| ==>
      lines[j].lineGroup == CreditsGroup && lines[j].start == PosInf && lines[j].end == PosInf && !lines[j].isInterlude
  }

  /** The credits lines so far, with the open line's words, spell the first `k` words. */
  ghost predicate CreditsInv(env: Env, lines0: seq<Line>, ws: seq<string>, k: nat, a: CreditsAcc)
    requires k <= |ws|
  {
    lines0 <= a.lines && CreditsLines(lines0, a.lines) && Ordered(a.lines, a.y)
    && (k == 0 ==> a.lines == lines0 && a.words == [])
    && (k > 0 ==> |a.words| > 0 && Join(LineTexts(a.lines[|lines0|..]) + [Join(a.words, " ")], " ") == Join(ws[..k], " "))
  }

  lemma JoinExtendLast(d: seq<string>, x: string, w: string, sep: string)
    ensures Join(d + [x + sep + w], sep) == Join(d + [x], sep) + sep + w
  {
    if |d| > 0 {
      JoinAppend(d, x + sep + w, sep);
      JoinAppend(d, x, sep);
    } else {
      assert d + [x + sep + w] == [x + sep + w];
      assert d + [x] == [x];
    }
  }

  lemma PushCreditsStep(env: Env, lines0: seq<Line>, a: CreditsAcc)
    requires ValidEnv(env) && lines0 <= a.lines && CreditsLines(lines0, a.lines) && Ordered(a.lines, a.y)
    ensures var p := PushCredits(env, a);
      lines0 <= p.lines && CreditsLines(lines0, p.lines) && Ordered(p.lines, p.y) && p.words == []
      && (|a.words| > 0 ==> LineTexts(p.lines[|lines0|..]) == LineTexts(a.lines[|lines0|..]) + [Join(a.words, " ")])
      && (|a.words| == 0 ==> p == a)
  {
    if |a.words| > 0 {
      var l := CreditsLine(env, Join(a.words, " "), a.y);
      assert PushCredits(env, a).lines == a.lines + [l];
      assert (a.lines + [l])[|lines0|..] == a.lines[|lines0|..] + [l];
      TextsSnoc(a.lines[|lines0|..], l);
      OrderedSnoc(a.lines, a.y, l, CreditsLineHeight(env));
    }
  }

  lemma TextsSnoc(ls: seq<Line>, l: Line)
    ensures LineTexts(ls + [l]) == LineTexts(ls) + [LineText(l)]
  {
    assert (ls + [l])[..|ls|] == ls;
  }

  /** A line placed at the running `y` keeps the lines ordered, with `y` moved down by its height. */
  lemma OrderedSnoc(lines: seq<Line>, y: real, l: Line, h: real)
    requires Ordered(lines, y) && l.y == y && h >= 0.0
    ensures Ordered(lines + [l], y + h)
  {
  }

  lemma CreditsStepInv(env: Env, lines0: seq<Line>, ws: seq<string>, k: nat, a: CreditsAcc)
    requires k < |ws| && ValidEnv(env) && CreditsInv(env, lines0, ws, k, a)
    ensures CreditsInv(env, lines0, ws, k + 1, CreditsStep(env, a, ws[k]))
  {
    var w := ws[k];
    assert ws[..k + 1] == ws[..k] + [w];
    var space := env.measure(" ", CreditsFont);
    var ww := env.measure(w, CreditsFont);
    PushCreditsStep(env, lines0, a);
    var pushes := |a.words| > 0 && a.width + space + ww > AvailableWidth(env);
    var a1 := if pushes then PushCredits(env, a) else a;
    var r := CreditsStep(env, a, w);
    assert r.words == a1.words + [w] && r.lines == a1.lines;
    if k == 0 {
      assert r.words == [w] && r.lines == lines0;
      assert r.lines[|lines0|..] == [];
      assert ws[..1] == [w];
    } else if pushes {
      var d := LineTexts(a1.lines[|lines0|..]);
      assert a1.words == [] && r.words == [w];
      assert d == LineTexts(a.lines[|lines0|..]) + [Join(a.words, " ")];
      JoinAppend(d, w, " ");
      JoinAppend(ws[..k], w, " ");
    } else {
      var d := LineTexts(a.lines[|lines0|..]);
      JoinAppend(a.words, w, " ");
      JoinExtendLast(d, Join(a.words, " "), w, " ");
      JoinAppend(ws[..k], w, " ");
    }
  }

  lemma {:induction false} CreditsFoldInv(env: Env, lines0: seq<Line>, a0: CreditsAcc, ws: seq<string>, k: nat)
    requires k <= |ws| && ValidEnv(env) && CreditsInv(env, lines0, ws, 0, a0)
    ensures CreditsInv(env, lines0, ws, k, CreditsFold(env, a0, ws, k))
  {
    if k > 0 {
      CreditsFoldInv(env, lines0, a0, ws, k - 1);
      CreditsStepInv(env, lines0, ws, k - 1, CreditsFold(env, a0, ws, k - 1));
    }
  }

  /** The credits pass over any non-empty word list: its lines, joined with spaces, give back the words joined with spaces. */
  lemma CreditsSpell(env: Env, lines: seq<Line>, y: real, ws: seq<string>)
    requires ValidEnv(env) && Ordered(lines, y) && |ws| > 0
    ensures var out := PushCredits(env, CreditsFold(env, CreditsAcc(lines, y, [], 0.0), ws, |ws|)).lines;
      lines <= out && CreditsLines(lines, out) && (forall i, j :: 0 <= i < j < |out| ==> out[i].y <= out[j].y)
      && Join(LineTexts(out[|lines|..]), " ") == Join(ws, " ")
  {
    var a0 := CreditsAcc(lines, y, [], 0.0);
    CreditsFoldInv(env, lines, a0, ws, |ws|);
    var a := CreditsFold(env, a0, ws, |ws|);
    PushCreditsStep(env, lines, a);
    assert ws[..|ws|] == ws;
  }

  lemma CreditsUnfold(env: Env, lines: seq<Line>, y: real, songWriters: seq<string>)
    requires |songWriters| > 0
    ensures var ws := Split(CreditsText(songWriters), ' ');
      WithCredits(env, lines, y, songWriters)
      == PushCredits(env, CreditsFold(env, CreditsStart(env, lines, y), ws, |ws|)).lines
  {
  }

  /**
   * The credits lines come after the others and no higher up; they are in
   * group -1 and never active; and their texts, joined with spaces, give
   * back "Credits: " followed by the song writers joined with ", ".
   */
  lemma CreditsRoundTrip(env: Env, lines: seq<Line>, y: real, songWriters: seq<string>)
    requires ValidEnv(env) && Ordered(lines, y) && |songWriters| > 0
    ensures var out := WithCredits(env, lines, y, songWriters);
      lines <= out && CreditsLines(lines, out)
      && (forall i, j :: 0 <= i < j < |out| ==> out[i].y <= out[j].y)
      && Join(LineTexts(out[|lines|..]), " ") == CreditsText(songWriters)
  {
    var text := CreditsText(songWriters);
    var ws := Split(text, ' ');
    var y1 := y + env.bgSize * LineGapBetweenGroups * 2.0;
    assert Ordered(lines, y1);
    assert CreditsStart(env, lines, y) == CreditsAcc(lines, y1, [], 0.0);
    CreditsSpell(env, lines, y1, ws);
    CreditsUnfold(env, lines, y, songWriters);
    SplitJoin(text, ' ');
    assert Join(ws, " ") == text;
  }

  // ---------------------------------------------------------------------------
  // The whole pass
  // ---------------------------------------------------------------------------

  /**
   * The layout's lines run top to bottom; credits lines are in group -1 and
   * every other line in a group numbered from 0.
   */
  lemma LayoutOrdered(env: Env, blocks: seq<SyllableLine>, songWriters: seq<string>)
    requires ValidEnv(env)
    ensures var lines := LayoutLines(env, blocks, songWriters);
      (forall i, j :: 0 <= i < j < |lines| ==> lines[i].y <= lines[j].y)
      && (forall j :: 0 <= j < |lines| ==> lines[j].lineGroup >= 0 || lines[j].lineGroup == CreditsGroup)
  {
    BlocksFoldInv(env, Start(env), blocks, |blocks|);
    var a := BlocksFold(env, Start(env), blocks, |blocks|);
    if |songWriters| > 0 {
      CreditsRoundTrip(env, a.lines, a.y, songWriters);
    }
  }

  /**
   * The scroll range is never negative, is 0 with no lines or when the last
   * line's top already sits above the bottom padding, and scrolled all the
   * way it brings the last line's top (and, lines being ordered, every
   * line's top) to the bottom padding or above.
   */
  lemma ScrollRange(env: Env, lines: seq<Line>)
    requires forall i, j :: 0 <= i < j < |lines| ==> lines[i].y <= lines[j].y
    ensures MaxScrollY(env, lines) >= 0.0
    ensures |lines| == 0 ==> MaxScrollY(env, lines) == 0.0
    ensures |lines| > 0 && lines[|lines| - 1].y <= env.height - Bottom(env.height) ==> MaxScrollY(env, lines) == 0.0
    ensures forall j :: 0 <= j < |lines| ==> lines[j].y - MaxScrollY(env, lines) <= env.height - Bottom(env.height)
  {
  }

  /** What `GroupsOf` holds: exactly the boxed lines, each under its own group. */
  lemma {:induction false} GroupsMembers(lines: seq<Line>)
    ensures forall g :: g in GroupsOf(lines) ==>
      forall l :: l in GroupsOf(lines)[g] ==> l in lines && Boxed(l) && l.lineGroup == g
    ensures forall j :: 0 <= j < |lines| && Boxed(lines[j]) ==>
      lines[j].lineGroup in GroupsOf(lines) && lines[j] in GroupsOf(lines)[lines[j].lineGroup]
  {
    if |lines| > 0 {
      var init := lines[..|lines| - 1];
      GroupsMembers(init);
      assert forall j :: 0 <= j < |init| ==> lines[j] == init[j];
    }
  }

  /** A group's box spans its boxed lines: top from the topmost, bottom from the lowest. */
  ghost predicate Spans(lines: seq<Line>, g: int, box: Box) {
    (exists j :: 0 <= j < |lines| && Boxed(lines[j]) && lines[j].lineGroup == g && lines[j].y == box.y)
    && (exists j :: 0 <= j < |lines| && Boxed(lines[j]) && lines[j].lineGroup == g
          && lines[j].y + lines[j].height == box.y + box.height)
    && (forall j :: 0 <= j < |lines| && Boxed(lines[j]) && lines[j].lineGroup == g ==>
          box.y <= lines[j].y && lines[j].y + lines[j].height <= box.y + box.height)
  }

  lemma GroupBoxSpans(env: Env, lines: seq<Line>, g: int)
    requires g in GroupsOf(lines) && |GroupsOf(lines)[g]| > 0
    ensures Spans(lines, g, GroupBox(env, GroupsOf(lines)[g]))
  {
    GroupsMembers(lines);
    var ls := GroupsOf(lines)[g];
    assert forall l :: l in ls ==> l in lines && Boxed(l) && l.lineGroup == g;
    MembersSpan(lines, g, ls, Horizontal(env), env.width - Horizontal(env) * 2.0);
  }

  /** The box from the topmost to the lowest of a group's boxed lines spans that group. */
  lemma MembersSpan(lines: seq<Line>, g: int, ls: seq<Line>, x: real, w: real)
    requires |ls| > 0
    requires forall l :: l in ls ==> l in lines && Boxed(l) && l.lineGroup == g
    requires forall j :: 0 <= j < |lines| && Boxed(lines[j]) && lines[j].lineGroup == g ==> lines[j] in ls
    ensures Spans(lines, g, Box(x, MinY(ls), w, MaxBottom(ls) - MinY(ls)))
  {
    var k1 :| 0 <= k1 < |ls| && MinY(ls) == ls[k1].y;
    assert ls[k1] in ls;
    var j1 :| 0 <= j1 < |lines| && lines[j1] == ls[k1];
    var k2 :| 0 <= k2 < |ls| && MaxBottom(ls) == ls[k2].y + ls[k2].height;
    assert ls[k2] in ls;
    var j2 :| 0 <= j2 < |lines| && lines[j2] == ls[k2];
    forall j | 0 <= j < |lines| && Boxed(lines[j]) && lines[j].lineGroup == g
      ensures MinY(ls) <= lines[j].y && lines[j].y + lines[j].height <= MaxBottom(ls)
    {
      var k :| 0 <= k < |ls| && ls[k] == lines[j];
    }
  }

  lemma BoxedHasBox(env: Env, lines: seq<Line>, j: nat)
    requires j < |lines| && Boxed(lines[j])
    ensures exists i :: 0 <= i < |Boxes(env, lines)| && Boxes(env, lines)[i].0 == lines[j].lineGroup
  {
    GroupsShape(lines);
    GroupsMembers(lines);
    var order := GroupOrder(lines);
    var g := lines[j].lineGroup;
    assert g in (set h | h in order);
    var i :| 0 <= i < |order| && order[i] == g;
    assert Boxes(env, lines)[i].0 == g;
  }

  lemma BoxesAt(env: Env, lines: seq<Line>)
    requires |lines| > 0
    ensures forall g :: g in GroupsOf(lines) ==> |GroupsOf(lines)[g]| > 0
    ensures forall i, j :: 0 <= i < j < |GroupOrder(lines)| ==> GroupOrder(lines)[i] != GroupOrder(lines)[j]
    ensures |Boxes(env, lines)| == |GroupOrder(lines)|
    ensures forall i :: 0 <= i < |GroupOrder(lines)| ==>
      GroupOrder(lines)[i] in GroupsOf(lines) && |GroupsOf(lines)[GroupOrder(lines)[i]]| > 0
      && Boxes(env, lines)[i] == (GroupOrder(lines)[i], GroupBox(env, GroupsOf(lines)[GroupOrder(lines)[i]]))
  {
    GroupsShape(lines);
    forall i | 0 <= i < |GroupOrder(lines)|
      ensures GroupOrder(lines)[i] in GroupsOf(lines)
    {
      assert GroupOrder(lines)[i] in (set h | h in GroupOrder(lines));
    }
  }

  lemma BoxAt(env: Env, lines: seq<Line>, i: nat)
    requires |lines| > 0 && i < |Boxes(env, lines)|
    ensures var b := Boxes(env, lines)[i];
      Spans(lines, b.0, b.1) && b.1.x == Horizontal(env) && b.1.width == env.width - Horizontal(env) * 2.0
  {
    BoxesAt(env, lines);
    GroupBoxSpans(env, lines, GroupOrder(lines)[i]);
  }

  /** The group order holds exactly the groups of the boxed lines. */
  lemma {:induction false} GroupOrderMembers(lines: seq<Line>)
    ensures forall b :: 0 <= b < |lines| && Boxed(lines[b]) ==> lines[b].lineGroup in GroupOrder(lines)
    ensures forall g :: g in GroupOrder(lines) ==> exists a :: 0 <= a < |lines| && Boxed(lines[a]) && lines[a].lineGroup == g
  {
    if |lines| > 0 {
      var init := lines[..|lines| - 1];
      GroupOrderMembers(init);
      assert forall a :: 0 <= a < |init| ==> init[a] == lines[a];
    }
  }

  /**
   * The groups are ordered by first appearance: for two groups in the order,
   * every boxed line of the later one comes after some boxed line of the
   * earlier one.
   */
  lemma {:induction false} GroupOrderFirstAppearance(lines: seq<Line>, i: nat, j: nat, b: nat)
    requires i < j < |GroupOrder(lines)| && b < |lines| && Boxed(lines[b])
    requires lines[b].lineGroup == GroupOrder(lines)[j]
    ensures exists a :: 0 <= a < b && Boxed(lines[a]) && lines[a].lineGroup == GroupOrder(lines)[i]
  {
    var init := lines[..|lines| - 1];
    var l := lines[|lines| - 1];
    var o0 := GroupOrder(init);
    var o := GroupOrder(lines);
    GroupOrderMembers(init);
    assert forall a :: 0 <= a < |init| ==> init[a] == lines[a];
    assert o[i] == o0[i];
    if j < |o0| {
      assert o[j] == o0[j];
      var b' := b;
      if b == |init| {
        assert o0[j] in o0;
        b' :| 0 <= b' < |init| && Boxed(init[b']) && init[b'].lineGroup == o0[j];
      }
      GroupOrderFirstAppearance(init, i, j, b');
      var a :| 0 <= a < b' && Boxed(init[a]) && init[a].lineGroup == o0[i];
      assert lines[a] == init[a];
    } else {
      GroupsShape(lines);
      assert o == o0 + [l.lineGroup] && l.lineGroup !in o0;
      assert b == |init|;
      assert o0[i] in o0;
      var a :| 0 <= a < |init| && Boxed(init[a]) && init[a].lineGroup == o0[i];
      assert lines[a] == init[a];
    }
  }

  /** Group `g` has a boxed line before line `b`. */
  ghost predicate AppearsBefore(lines: seq<Line>, g: int, b: int) {
    exists a :: 0 <= a < b && a < |lines| && Boxed(lines[a]) && lines[a].lineGroup == g
  }

  /** The boxes come in the order their groups first appear among the boxed lines. */
  lemma BoxesInFirstAppearanceOrder(env: Env, lines: seq<Line>)
    ensures var bx := Boxes(env, lines);
      forall i, j, b :: 0 <= i < j < |bx| && 0 <= b < |lines| && Boxed(lines[b]) && lines[b].lineGroup == bx[j].0
        ==> AppearsBefore(lines, bx[i].0, b)
  {
    var bx := Boxes(env, lines);
    forall i, j, b | 0 <= i < j < |bx| && 0 <= b < |lines| && Boxed(lines[b]) && lines[b].lineGroup == bx[j].0
      ensures AppearsBefore(lines, bx[i].0, b)
    {
      BoxesAt(env, lines);
      GroupOrderFirstAppearance(lines, i, j, b);
    }
  }

  /**
   * The boxes: one per group that has a boxed line, each group once, in the
   * order the groups first appear (`BoxesInFirstAppearanceOrder`); a box spans the available width from
   * the top of the group's topmost boxed line to the bottom of its lowest;
   * interlude and credits lines have no box. With no lines there are none.
   */
  lemma BoxesRule(env: Env, lines: seq<Line>)
    ensures var bx := Boxes(env, lines);
      (|lines| == 0 ==> bx == [])
      && (forall i, j :: 0 <= i < j < |bx| ==> bx[i].0 != bx[j].0)
      && (forall j :: 0 <= j < |lines| && Boxed(lines[j]) ==> exists i :: 0 <= i < |bx| && bx[i].0 == lines[j].lineGroup)
      && (forall i :: 0 <= i < |bx| ==>
            Spans(lines, bx[i].0, bx[i].1) && bx[i].1.x == Horizontal(env) && bx[i].1.width == env.width - Horizontal(env) * 2.0)
  {
    if |lines| > 0 {
      BoxesAt(env, lines);
      var bx := Boxes(env, lines);
      var order := GroupOrder(lines);
      assert forall i :: 0 <= i < |bx| ==> bx[i].0 == order[i];
      assert forall i, j :: 0 <= i < j < |bx| ==> bx[i].0 != bx[j].0;
      forall j | 0 <= j < |lines| && Boxed(lines[j])
        ensures exists i :: 0 <= i < |bx| && bx[i].0 == lines[j].lineGroup
      {
        BoxedHasBox(env, lines, j);
      }
      forall i | 0 <= i < |bx|
        ensures Spans(lines, bx[i].0, bx[i].1)
          && bx[i].1.x == Horizontal(env) && bx[i].1.width == env.width - Horizontal(env) * 2.0
      {
        BoxAt(env, lines, i);
      }
    }
  }
}
