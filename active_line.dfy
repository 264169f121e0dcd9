/**
 * The scan both DOM renderers run every frame to find the active line: the
 * first registered line element whose end time the playhead has not passed.
 */
module ActiveLine {
  import opened Wrappers

  /** The first registered element whose end the playhead has not passed. */
  function FirstActive(ends: seq<Option<real>>, progress: real): (r: Option<nat>)
    ensures r.Some? ==> r.value < |ends| && ends[r.value].Some? && progress <= ends[r.value].value
    ensures r.Some? ==> forall j :: 0 <= j < r.value ==> ends[j].None? || ends[j].value < progress
    ensures r.None? ==> forall j :: 0 <= j < |ends| ==> ends[j].None? || ends[j].value < progress
    decreases |ends|
  {
    if |ends| == 0 then None
    else if ends[0].Some? && progress <= ends[0].value then Some(0)
    else
      var rest := FirstActive(ends[1..], progress);
      if rest.Some? then Some(rest.value + 1) else None
  }

  /** A later playhead never selects an earlier line. */
  lemma ActiveMonotone(ends: seq<Option<real>>, p: real, q: real)
    requires p <= q
    requires FirstActive(ends, q).Some?
    ensures FirstActive(ends, p).Some? && FirstActive(ends, p).value <= FirstActive(ends, q).value
  {
    var i := FirstActive(ends, q).value;
    assert FirstActive(ends, p).Some?;
    assert FirstActive(ends, p).value <= i;
  }

  lemma FirstActiveIs(ends: seq<Option<real>>, progress: real, i: nat)
    requires i < |ends| && ends[i].Some? && progress <= ends[i].value
    requires forall j :: 0 <= j < i ==> ends[j].None? || ends[j].value < progress
    ensures FirstActive(ends, progress) == Some(i)
  {
    var a := FirstActive(ends, progress);
    assert a.Some?;
    assert a.value >= i;
    assert a.value <= i;
  }

  lemma FirstActiveNone(ends: seq<Option<real>>, progress: real)
    requires forall j :: 0 <= j < |ends| ==> ends[j].None? || ends[j].value < progress
    ensures FirstActive(ends, progress).None?
  {
    assert !FirstActive(ends, progress).Some?;
  }
}
