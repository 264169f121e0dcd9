/**
 * The equal split of a syllable's window among its letters, used by both
 * syllable renderers: letter `i` of `n` runs from boundary `i` to boundary
 * `i + 1`.
 */
module LetterTiming {
  import opened JsNumber

  /** Boundary `i` of `n` equal letter windows over `[start, end]`: `start + i / n * (end - start)`. */
  function LetterEdge(start: real, end: real, n: nat, i: nat): real
    requires n > 0
  {
    start + ((i as real) / (n as real)) * (end - start)
  }

  /** The letter windows tile the syllable: the first opens at its start, the last closes at its end, and the boundaries are in order. */
  lemma LettersTile(start: real, end: real, n: nat, i: nat, j: nat)
    requires n > 0
    ensures LetterEdge(start, end, n, 0) == start
    ensures LetterEdge(start, end, n, n) == end
    ensures start <= end && i <= j ==> LetterEdge(start, end, n, i) <= LetterEdge(start, end, n, j)
  {
    DivSelf(n as real);
    if start <= end && i <= j {
      assert (i as real) / (n as real) <= (j as real) / (n as real) by {
        DivMonotone(i as real, j as real, n as real);
      }
      MulMonotone((i as real) / (n as real), (j as real) / (n as real), end - start);
    }
  }

  lemma DivMonotone(a: real, b: real, d: real)
    requires a <= b && d > 0.0
    ensures a / d <= b / d
  {
    assert b / d - a / d == (b - a) / d;
  }

  lemma MulMonotone(a: real, b: real, c: real)
    requires a <= b && c >= 0.0
    ensures a * c <= b * c
  {
    assert b * c - a * c == (b - a) * c;
  }
}
