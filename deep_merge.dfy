/**
 * `deepMerge(target, source)`: a shallow copy of `target` in which every key of
 * `source` is overwritten, plain-object values being merged recursively.
 */
module ObjectMerge {
  import opened Wrappers
  import opened Strings

  /** JSON-like JavaScript values; an object is its own enumerable properties in property order. */
  datatype Value =
    | Undefined
    | Null
    | Bool(b: bool)
    | Num(n: real)
    | Str(s: string)
    | Arr(items: seq<Value>)
    | Obj(entries: seq<(string, Value)>)

  function Keys(es: seq<(string, Value)>): (ks: seq<string>)
    ensures |ks| == |es|
    ensures forall i :: 0 <= i < |es| ==> ks[i] == es[i].0
    decreases |es|
  {
    if |es| == 0 then [] else [es[0].0] + Keys(es[1..])
  }

  predicate UniqueKeys(es: seq<(string, Value)>) {
    forall i, j :: 0 <= i < j < |es| ==> es[i].0 != es[j].0
  }

  /** The own enumerable properties that object spread copies, in order. */
  function OwnEntries(v: Value): (es: seq<(string, Value)>)
    ensures v.Obj? ==> es == v.entries
    ensures !(v.Obj? || v.Arr? || v.Str?) ==> es == []
  {
    match v
    case Obj(es) => es
    case Arr(items) => seq(|items|, i requires 0 <= i < |items| => (NatToString(i), items[i]))
    case Str(s) => seq(|s|, i requires 0 <= i < |s| => (NatToString(i), Str([s[i]])))
    case _ => []
  }

  /** The value of the first property named `k`. */
  function Get(es: seq<(string, Value)>, k: string): (r: Option<Value>)
    ensures r.None? <==> k !in Keys(es)
    decreases |es|
  {
    if |es| == 0 then None
    else if es[0].0 == k then Some(es[0].1)
    else
      assert Keys(es[1..]) == Keys(es)[1..];
      Get(es[1..], k)
  }

  /** `v[k]` on an own property; `undefined` when there is none. */
  function Lookup(v: Value, k: string): Value {
    Get(OwnEntries(v), k).GetOr(Undefined)
  }

  /** `output[k] = x`: an existing property keeps its place, a new one is appended. */
  function Put(es: seq<(string, Value)>, k: string, x: Value): (r: seq<(string, Value)>)
    ensures k in Keys(es) ==> |r| == |es|
    ensures k !in Keys(es) ==> r == es + [(k, x)]
    decreases |es|
  {
    if |es| == 0 then [(k, x)]
    else if es[0].0 == k then
      assert Keys(es) == [k] + Keys(es[1..]);
      assert Keys([(k, x)] + es[1..]) == [k] + Keys(es[1..]);
      [(k, x)] + es[1..]
    else
      assert Keys(es[1..]) == Keys(es)[1..];
      var r := [es[0]] + Put(es[1..], k, x);
      assert Keys(r) == [es[0].0] + Keys(Put(es[1..], k, x));
      r
  }

  /** What the loop stores under a key: a recursive merge for a plain object, the value itself otherwise. */
  function MergedValue(targetValue: Value, sourceValue: Value): Value
    decreases sourceValue, 2
  {
    if sourceValue.Obj? then
      Merged(if targetValue.Undefined? || targetValue.Null? then Obj([]) else targetValue, sourceValue)
    else sourceValue
  }

  /** The result of `deepMerge(target, source)` for a plain-object `source`. */
  function Merged(target: Value, source: Value): (r: Value)
    requires source.Obj?
    ensures r.Obj?
    decreases source, 1
  {
    Obj(MergeFrom(OwnEntries(target), target, source, 0))
  }

  /** The output after the loop has visited the properties of `source` from index `i` on. */
  function MergeFrom(out: seq<(string, Value)>, target: Value, source: Value, i: nat): seq<(string, Value)>
    requires source.Obj? && i <= |source.entries|
    decreases source, 0, |source.entries| - i
  {
    if i == |source.entries| then out
    else
      var k := source.entries[i].0;
      var sv := source.entries[i].1;
      MergeFrom(Put(out, k, MergedValue(Lookup(target, k), sv)), target, source, i + 1)
  }

  /** `deepMerge(target, source)`, with the source's loop and recursion. */
  method DeepMerge(target: Value, source: Value) returns (r: Value)
    requires source.Obj?
    ensures r == Merged(target, source)
    decreases source, 1
  {
    var output := OwnEntries(target);
    ghost var goal := Merged(target, source).entries;
    var i := 0;
    while i < |source.entries|
      invariant 0 <= i <= |source.entries|
      invariant MergeFrom(output, target, source, i) == goal
    {
      MergeFromStep(output, target, source, i);
      output := MergeProperty(target, source, output, i);
      i := i + 1;
    }
    r := Obj(output);
  }

  /** One turn of the loop: property `i` of `source` stored into `output`. */
  method MergeProperty(target: Value, source: Value, output: seq<(string, Value)>, i: nat)
    returns (output': seq<(string, Value)>)
    requires source.Obj? && i < |source.entries|
    ensures var key := source.entries[i].0;
      output' == Put(output, key, MergedValue(Lookup(target, key), source.entries[i].1))
    decreases source, 0
  {
    var key := source.entries[i].0;
    var sourceValue := source.entries[i].1;
    var targetValue := Lookup(target, key);
    var v;
    if sourceValue.Obj? {
      v := DeepMerge(if targetValue.Undefined? || targetValue.Null? then Obj([]) else targetValue, sourceValue);
    } else {
      v := sourceValue;
    }
    output' := Put(output, key, v);
  }

  lemma MergeFromStep(out: seq<(string, Value)>, target: Value, source: Value, i: nat)
    requires source.Obj? && i < |source.entries|
    ensures var k := source.entries[i].0;
      MergeFrom(out, target, source, i)
      == MergeFrom(Put(out, k, MergedValue(Lookup(target, k), source.entries[i].1)), target, source, i + 1)
  {
  }

  /** After `output[k] = x` the keys are the old ones and `k`. */
  lemma {:induction false} PutKeys(es: seq<(string, Value)>, k: string, x: Value)
    ensures forall k' :: k' in Keys(Put(es, k, x)) <==> k' in Keys(es) || k' == k
    decreases |es|
  {
    if |es| > 0 {
      if es[0].0 == k {
        assert Keys(es) == [k] + Keys(es[1..]);
        assert Keys([(k, x)] + es[1..]) == [k] + Keys(es[1..]);
      } else {
        PutKeys(es[1..], k, x);
        assert Keys(es) == [es[0].0] + Keys(es[1..]);
        assert Keys(Put(es, k, x)) == [es[0].0] + Keys(Put(es[1..], k, x));
      }
    }
  }

  lemma {:induction false} GetPut(es: seq<(string, Value)>, k: string, x: Value, k': string)
    ensures Get(Put(es, k, x), k') == if k' == k then Some(x) else Get(es, k')
    decreases |es|
  {
    if |es| > 0 && es[0].0 != k {
      GetPut(es[1..], k, x, k');
    }
  }

  lemma {:induction false} GetUnique(es: seq<(string, Value)>, i: nat)
    requires UniqueKeys(es) && i < |es|
    ensures Get(es, es[i].0) == Some(es[i].1)
    decreases i
  {
    if i > 0 {
      GetUnique(es[1..], i - 1);
    }
  }

  lemma UniqueSuffix(es: seq<(string, Value)>, i: nat)
    requires UniqueKeys(es) && i < |es|
    ensures es[i].0 !in Keys(es[i + 1..])
  {
    var rest := es[i + 1..];
    forall j | 0 <= j < |rest|
      ensures Keys(rest)[j] != es[i].0
    {
      assert rest[j] == es[i + 1 + j];
    }
  }

  lemma KeysCons(es: seq<(string, Value)>, i: nat)
    requires i < |es|
    ensures Keys(es[i..]) == [es[i].0] + Keys(es[i + 1..])
  {
    assert es[i..][1..] == es[i + 1..];
  }

  lemma {:induction false} MergeFromGet(out: seq<(string, Value)>, target: Value, source: Value, i: nat, k: string)
    requires source.Obj? && UniqueKeys(source.entries) && i <= |source.entries|
    ensures Get(MergeFrom(out, target, source, i), k)
         == if k in Keys(source.entries[i..]) then Some(MergedValue(Lookup(target, k), Lookup(source, k)))
            else Get(out, k)
    decreases |source.entries| - i
  {
    var es := source.entries;
    if i < |es| {
      var out' := Put(out, es[i].0, MergedValue(Lookup(target, es[i].0), es[i].1));
      assert MergeFrom(out, target, source, i) == MergeFrom(out', target, source, i + 1);
      MergeFromGet(out', target, source, i + 1, k);
      MergeFromGetStep(out, target, source, i, k);
    }
  }

  /** Writing entry `i` into `out` leaves key `k` where the rest of the loop needs it. */
  lemma MergeFromGetStep(out: seq<(string, Value)>, target: Value, source: Value, i: nat, k: string)
    requires source.Obj? && UniqueKeys(source.entries) && i < |source.entries|
    ensures var es := source.entries;
      var out' := Put(out, es[i].0, MergedValue(Lookup(target, es[i].0), es[i].1));
      (if k in Keys(es[i + 1..]) then Some(MergedValue(Lookup(target, k), Lookup(source, k))) else Get(out', k))
      == (if k in Keys(es[i..]) then Some(MergedValue(Lookup(target, k), Lookup(source, k))) else Get(out, k))
  {
    var es := source.entries;
    var k0 := es[i].0;
    var v := MergedValue(Lookup(target, k0), es[i].1);
    GetPut(out, k0, v, k);
    KeysCons(es, i);
    if k == k0 {
      GetUnique(es, i);
      UniqueSuffix(es, i);
    }
  }

  /**
   * Every key of the source holds the merge of the target's value and the
   * source's value; every other key keeps the target's own value.
   */
  lemma MergedGet(target: Value, source: Value, k: string)
    requires source.Obj? && UniqueKeys(source.entries)
    ensures Get(Merged(target, source).entries, k)
         == if k in Keys(source.entries) then Some(MergedValue(Lookup(target, k), Lookup(source, k)))
            else Get(OwnEntries(target), k)
  {
    MergeFromGet(OwnEntries(target), target, source, 0, k);
    assert source.entries[0..] == source.entries;
  }

  lemma {:induction false} MergeFromKeys(out: seq<(string, Value)>, target: Value, source: Value, i: nat, k: string)
    requires source.Obj? && i <= |source.entries|
    ensures k in Keys(MergeFrom(out, target, source, i)) <==> k in Keys(out) || k in Keys(source.entries[i..])
    decreases |source.entries| - i
  {
    var es := source.entries;
    if i < |es| {
      MergeFromKeys(Put(out, es[i].0, MergedValue(Lookup(target, es[i].0), es[i].1)), target, source, i + 1, k);
      PutKeys(out, es[i].0, MergedValue(Lookup(target, es[i].0), es[i].1));
      KeysCons(es, i);
    }
  }

  /** A key is in the result iff it is an own key of the target or a key of the source. */
  lemma MergedKeys(target: Value, source: Value, k: string)
    requires source.Obj?
    ensures k in Keys(Merged(target, source).entries) <==> k in Keys(OwnEntries(target)) || k in Keys(source.entries)
  {
    MergeFromKeys(OwnEntries(target), target, source, 0, k);
    assert source.entries[0..] == source.entries;
  }

  lemma {:induction false} PutKeepsKeys(es: seq<(string, Value)>, k: string, x: Value)
    ensures |Put(es, k, x)| >= |es|
    ensures Keys(Put(es, k, x))[..|es|] == Keys(es)
    decreases |es|
  {
    if |es| > 0 && es[0].0 != k {
      PutKeepsKeys(es[1..], k, x);
    }
  }

  lemma {:induction false} MergeFromPrefix(out: seq<(string, Value)>, target: Value, source: Value, i: nat)
    requires source.Obj? && i <= |source.entries|
    ensures |MergeFrom(out, target, source, i)| >= |out|
    ensures Keys(MergeFrom(out, target, source, i))[..|out|] == Keys(out)
    decreases |source.entries| - i
  {
    var es := source.entries;
    if i < |es| {
      var out' := Put(out, es[i].0, MergedValue(Lookup(target, es[i].0), es[i].1));
      PutKeepsKeys(out, es[i].0, MergedValue(Lookup(target, es[i].0), es[i].1));
      MergeFromPrefix(out', target, source, i + 1);
      PrefixOfPrefix(MergeFrom(out', target, source, i + 1), out', out);
    }
  }

  lemma PrefixOfPrefix(r: seq<(string, Value)>, mid: seq<(string, Value)>, base: seq<(string, Value)>)
    requires |r| >= |mid| >= |base| && Keys(r)[..|mid|] == Keys(mid) && Keys(mid)[..|base|] == Keys(base)
    ensures |r| >= |base| && Keys(r)[..|base|] == Keys(base)
  {
    assert Keys(r)[..|base|] == Keys(r)[..|mid|][..|base|];
  }

  /** The target's own properties keep their order at the head of the result. */
  lemma MergedKeepsTargetOrder(target: Value, source: Value)
    requires source.Obj?
    ensures |Merged(target, source).entries| >= |OwnEntries(target)|
    ensures Keys(Merged(target, source).entries)[..|OwnEntries(target)|] == Keys(OwnEntries(target))
  {
    MergeFromPrefix(OwnEntries(target), target, source, 0);
  }

  /** Merging an empty object gives a copy of the target's own properties. */
  lemma MergeEmpty(target: Value)
    ensures Merged(target, Obj([])) == Obj(OwnEntries(target))
  {
  }
}
