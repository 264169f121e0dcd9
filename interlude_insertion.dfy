/**
 * The list both DOM renderers build before rendering: the lyric entries in
 * order, an optional interlude before the first, and after each entry at
 * most one interlude. Which gaps get an interlude is each renderer's own
 * rule; this module only interleaves.
 */
module InterludeInsertion {
  import opened Wrappers

  /** An interlude over `[start, end]` ms, with the alignment of the entry it precedes. */
  datatype Span = Span(start: real, end: real, oppositeAligned: bool)

  datatype Entry<T> = Content(item: T) | Gap(span: Span)

  function GapEntry<T>(o: Option<Span>): (r: seq<Entry<T>>)
    ensures |r| == (if o.Some? then 1 else 0)
    ensures o.Some? ==> r[0] == Gap(o.value)
  {
    if o.Some? then [Gap(o.value)] else []
  }

  /** The entries for the first `n` items, each followed by its interlude, if any. */
  function Chunks<T>(xs: seq<T>, after: seq<Option<Span>>, n: nat): seq<Entry<T>>
    requires n <= |xs| == |after|
  {
    if n == 0 then [] else Chunks(xs, after, n - 1) + [Content(xs[n - 1])] + GapEntry(after[n - 1])
  }

  /** The full list: the leading interlude, then every item with the interlude after it. */
  function Interleave<T>(first: Option<Span>, xs: seq<T>, after: seq<Option<Span>>): seq<Entry<T>>
    requires |xs| == |after|
  {
    GapEntry(first) + Chunks(xs, after, |xs|)
  }

  /** The items among the entries, in order. */
  function Contents<T>(es: seq<Entry<T>>): seq<T> {
    if |es| == 0 then []
    else Contents(es[..|es| - 1]) + (if es[|es| - 1].Content? then [es[|es| - 1].item] else [])
  }

  lemma {:induction false} ContentsConcat<T>(a: seq<Entry<T>>, b: seq<Entry<T>>)
    ensures Contents(a + b) == Contents(a) + Contents(b)
    decreases |b|
  {
    if |b| == 0 {
      assert a + b == a;
    } else {
      assert (a + b)[..|a + b| - 1] == a + b[..|b| - 1];
      ContentsConcat(a, b[..|b| - 1]);
    }
  }

  lemma ContentsOfGap<T>(o: Option<Span>)
    ensures Contents(GapEntry<T>(o)) == []
  {
    if o.Some? {
      assert GapEntry<T>(o)[..0] == [];
    }
  }

  /** An item followed by at most one interlude contributes just that item. */
  lemma ContentsChunk<T>(p: seq<Entry<T>>, x: T, o: Option<Span>)
    ensures Contents(p + [Content(x)] + GapEntry(o)) == Contents(p) + [x]
  {
    var l: seq<Entry<T>> := [Content(x)];
    ContentsConcat(p + l, GapEntry(o));
    ContentsConcat(p, l);
    assert Contents(l) == [x] by {
      assert l[..0] == [];
    }
    ContentsOfGap<T>(o);
  }

  lemma {:induction false} ChunksContents<T>(xs: seq<T>, after: seq<Option<Span>>, n: nat)
    requires n <= |xs| == |after|
    ensures Contents(Chunks(xs, after, n)) == xs[..n]
  {
    if n > 0 {
      ChunksContents(xs, after, n - 1);
      ContentsChunk(Chunks(xs, after, n - 1), xs[n - 1], after[n - 1]);
      assert xs[..n] == xs[..n - 1] + [xs[n - 1]];
    }
  }

  /** Every item appears exactly once and in order: dropping the interludes gives back the input. */
  lemma ItemsPreserved<T>(first: Option<Span>, xs: seq<T>, after: seq<Option<Span>>)
    requires |xs| == |after|
    ensures Contents(Interleave(first, xs, after)) == xs
  {
    ChunksContents(xs, after, |xs|);
    ContentsOfGap<T>(first);
    ContentsConcat(GapEntry<T>(first), Chunks(xs, after, |xs|));
    assert xs[..|xs|] == xs;
  }

  lemma {:induction false} ChunksExtend<T>(xs: seq<T>, after: seq<Option<Span>>, i: nat, m: nat)
    requires i <= m <= |xs| == |after|
    ensures |Chunks(xs, after, i)| <= |Chunks(xs, after, m)|
    ensures Chunks(xs, after, m)[..|Chunks(xs, after, i)|] == Chunks(xs, after, i)
    decreases m - i
  {
    if i < m {
      ChunksExtend(xs, after, i, m - 1);
      var p := Chunks(xs, after, m - 1);
      assert Chunks(xs, after, m) == p + [Content(xs[m - 1])] + GapEntry(after[m - 1]);
      assert Chunks(xs, after, m)[..|p|] == p;
    }
  }

  /** Where item `i` sits in the list. */
  function PositionOf<T>(first: Option<Span>, xs: seq<T>, after: seq<Option<Span>>, i: nat): nat
    requires i <= |xs| == |after|
  {
    |GapEntry<T>(first)| + |Chunks(xs, after, i)|
  }

  /**
   * Item `i` is at its position, and the entry right after it is an
   * interlude exactly when the rule gave one for that gap, with that span.
   */
  lemma GapAfterItem<T>(first: Option<Span>, xs: seq<T>, after: seq<Option<Span>>, i: nat)
    requires i < |xs| == |after|
    ensures var r := Interleave(first, xs, after);
      var k := PositionOf(first, xs, after, i);
      k < |r| && r[k] == Content(xs[i])
      && ((k + 1 < |r| && r[k + 1].Gap?) <==> after[i].Some?)
      && (after[i].Some? ==> k + 1 < |r| && r[k + 1] == Gap(after[i].value))
  {
    var lead := GapEntry<T>(first);
    var r := Interleave(first, xs, after);
    var k := PositionOf(first, xs, after, i);
    var p := Chunks(xs, after, i);
    var g := GapEntry<T>(after[i]);
    var q := Chunks(xs, after, i + 1);
    assert q == p + [Content(xs[i])] + g;
    ChunksExtend(xs, after, i + 1, |xs|);
    var body := Chunks(xs, after, |xs|);
    assert body[..|q|] == q;
    assert r == lead + body;
    assert r[k] == body[|p|] == q[|p|] == Content(xs[i]);
    if |g| == 1 {
      assert r[k + 1] == body[|p| + 1] == q[|p| + 1] == g[0];
    } else if i + 1 < |xs| {
      var q2 := Chunks(xs, after, i + 2);
      ChunksExtend(xs, after, i + 2, |xs|);
      assert q2 == q + [Content(xs[i + 1])] + GapEntry(after[i + 1]);
      assert body[..|q2|] == q2;
      assert r[k + 1] == body[|q|] == q2[|q|] == Content(xs[i + 1]);
    } else {
      assert |body| == |q|;
    }
  }

  /** The list opens with the leading interlude when there is one, otherwise with the first item. */
  lemma FirstEntry<T>(first: Option<Span>, xs: seq<T>, after: seq<Option<Span>>)
    requires |xs| == |after|
    ensures var r := Interleave(first, xs, after);
      (first.Some? ==> |r| > 0 && r[0] == Gap(first.value))
      && (first.None? && |xs| > 0 ==> |r| > 0 && r[0] == Content(xs[0]))
  {
    if first.None? && |xs| > 0 {
      ChunksExtend(xs, after, 1, |xs|);
      assert Chunks(xs, after, 1) == [Content(xs[0])] + GapEntry(after[0]);
    }
  }

  /** No two interludes are adjacent. */
  ghost predicate NoAdjacentGaps<T>(es: seq<Entry<T>>) {
    forall k :: 0 <= k < |es| - 1 ==> !(es[k].Gap? && es[k + 1].Gap?)
  }

  lemma {:induction false} ChunksNoAdjacentGaps<T>(xs: seq<T>, after: seq<Option<Span>>, n: nat)
    requires n <= |xs| == |after|
    ensures NoAdjacentGaps(Chunks(xs, after, n))
    ensures n > 0 ==> |Chunks(xs, after, n)| > 0 && Chunks(xs, after, n)[0] == Content(xs[0])
  {
    if n > 0 {
      ChunksNoAdjacentGaps(xs, after, n - 1);
      var p := Chunks(xs, after, n - 1);
      var g := GapEntry<T>(after[n - 1]);
      var r: seq<Entry<T>> := p + [Content(xs[n - 1])] + g;
      assert Chunks(xs, after, n) == r;
      forall k | 0 <= k < |r| - 1
        ensures !(r[k].Gap? && r[k + 1].Gap?)
      {
        if k + 1 < |p| {
          assert r[k] == p[k] && r[k + 1] == p[k + 1];
        } else if k + 1 == |p| {
          assert r[k + 1] == Content(xs[n - 1]);
        } else {
          assert r[k] == Content(xs[n - 1]);
        }
      }
      if n - 1 > 0 {
        assert r[0] == p[0];
      } else {
        assert r[0] == Content(xs[0]);
      }
    }
  }

  /**
   * The list's shape: interludes never touch, and when there is no interlude
   * after the last item, the list ends with that item.
   */
  lemma InterleaveShape<T>(first: Option<Span>, xs: seq<T>, after: seq<Option<Span>>)
    requires |xs| == |after|
    requires first.Some? ==> |xs| > 0
    ensures var r := Interleave(first, xs, after);
      NoAdjacentGaps(r)
      && (|xs| > 0 && after[|xs| - 1].None? ==> |r| > 0 && r[|r| - 1] == Content(xs[|xs| - 1]))
  {
    var lead := GapEntry<T>(first);
    var body := Chunks(xs, after, |xs|);
    ChunksNoAdjacentGaps(xs, after, |xs|);
    var r := lead + body;
    forall k | 0 <= k < |r| - 1
      ensures !(r[k].Gap? && r[k + 1].Gap?)
    {
      if k < |lead| {
        assert r[k + 1] == body[0];
      } else {
        assert r[k] == body[k - |lead|] && r[k + 1] == body[k + 1 - |lead|];
      }
    }
    if |xs| > 0 && after[|xs| - 1].None? {
      var n := |xs|;
      assert body == Chunks(xs, after, n - 1) + [Content(xs[n - 1])];
    }
  }

  /** Every interlude in the list is one the rule produced. */
  lemma GapsFromRule<T>(first: Option<Span>, xs: seq<T>, after: seq<Option<Span>>, k: nat)
    requires |xs| == |after|
    requires k < |Interleave(first, xs, after)| && Interleave(first, xs, after)[k].Gap?
    ensures var s := Interleave(first, xs, after)[k].span;
      Some(s) == first || exists i :: 0 <= i < |after| && after[i] == Some(s)
  {
    var lead := GapEntry<T>(first);
    if k >= |lead| {
      ChunksGapsFromRule(xs, after, |xs|, k - |lead|);
    }
  }

  lemma {:induction false} ChunksGapsFromRule<T>(xs: seq<T>, after: seq<Option<Span>>, n: nat, k: nat)
    requires n <= |xs| == |after|
    requires k < |Chunks(xs, after, n)| && Chunks(xs, after, n)[k].Gap?
    ensures exists i :: 0 <= i < n && after[i] == Some(Chunks(xs, after, n)[k].span)
  {
    var p := Chunks(xs, after, n - 1);
    var r := p + [Content(xs[n - 1])] + GapEntry(after[n - 1]);
    assert Chunks(xs, after, n) == r;
    if k < |p| {
      assert r[k] == p[k];
      ChunksGapsFromRule(xs, after, n - 1, k);
    } else if k > |p| {
      assert r[k] == Gap(after[n - 1].value);
    }
  }
}
