/**
 * The persisted settings store. Its state is a JSON-like object: `set(patch)`
 * shallow-merges a patch into it, the background setters spread a patch into a
 * nested object, and `importConfig` applies lodash's recursive `merge`.
 */
module AppSettings {
  import opened Wrappers
  import opened ObjectMerge

  type Entries = seq<(string, Value)>

  /** JavaScript truthiness of a value (NaN is not modelled). */
  predicate Truthy(v: Value) {
    match v
    case Undefined => false
    case Null => false
    case Bool(b) => b
    case Num(n) => n != 0.0
    case Str(s) => s != ""
    case _ => true
  }

  // ---- Object spread ----

  /** `{ ...base, ...patch }`: the patch's properties, in order, overwrite or extend `base`. */
  function Spread(base: Entries, patch: Entries): Entries
    decreases |patch|
  {
    if |patch| == 0 then base else Spread(Put(base, patch[0].0, patch[0].1), patch[1..])
  }

  lemma UniqueTail(es: Entries)
    requires |es| > 0 && UniqueKeys(es)
    ensures UniqueKeys(es[1..]) && es[0].0 !in Keys(es[1..])
  {
    UniqueSuffix(es, 0);
  }

  /** After a spread, the patch's keys hold the patch's values and every other key keeps its value. */
  lemma {:induction false} SpreadGet(base: Entries, patch: Entries, k: string)
    requires UniqueKeys(patch)
    ensures Get(Spread(base, patch), k) == if k in Keys(patch) then Get(patch, k) else Get(base, k)
    decreases |patch|
  {
    if |patch| > 0 {
      var (k0, v0) := patch[0];
      UniqueTail(patch);
      SpreadGet(Put(base, k0, v0), patch[1..], k);
      GetPut(base, k0, v0, k);
      assert Keys(patch) == [k0] + Keys(patch[1..]);
    }
  }

  /** Storing the value a key already holds changes nothing. */
  lemma {:induction false} PutPresent(es: Entries, k: string, x: Value)
    requires Get(es, k) == Some(x)
    ensures Put(es, k, x) == es
    decreases |es|
  {
    if es[0].0 == k {
      assert es[0] == (k, x);
      assert es == [(k, x)] + es[1..];
    } else {
      PutPresent(es[1..], k, x);
    }
  }

  /** A second store to the same key overrides the first. */
  lemma {:induction false} PutPut(es: Entries, k: string, x: Value, y: Value)
    ensures Put(Put(es, k, x), k, y) == Put(es, k, y)
    decreases |es|
  {
    if |es| > 0 && es[0].0 != k {
      PutPut(es[1..], k, x, y);
    }
  }

  lemma {:induction false} SpreadAlready(base: Entries, patch: Entries)
    requires UniqueKeys(patch)
    requires forall k :: k in Keys(patch) ==> Get(base, k) == Get(patch, k)
    ensures Spread(base, patch) == base
    decreases |patch|
  {
    if |patch| > 0 {
      var (k0, v0) := patch[0];
      assert Keys(patch) == [k0] + Keys(patch[1..]);
      assert Get(patch, k0) == Some(v0);
      PutPresent(base, k0, v0);
      UniqueTail(patch);
      forall k | k in Keys(patch[1..]) ensures Get(base, k) == Get(patch[1..], k) {
        assert k != k0;
      }
      SpreadAlready(base, patch[1..]);
    }
  }

  /** Spreading the same patch twice is spreading it once. */
  lemma SpreadIdempotent(base: Entries, patch: Entries)
    requires UniqueKeys(patch)
    ensures Spread(Spread(base, patch), patch) == Spread(base, patch)
  {
    forall k | k in Keys(patch) ensures Get(Spread(base, patch), k) == Get(patch, k) {
      SpreadGet(base, patch, k);
    }
    SpreadAlready(Spread(base, patch), patch);
  }

  // ---- Nested setters ----

  /** `v[path[0]][path[1]]…`, `undefined` past a missing property. */
  function LookupPath(v: Value, path: seq<string>): Value
    decreases |path|
  {
    if |path| == 0 then v else LookupPath(Lookup(v, path[0]), path[1..])
  }

  /**
   * The object the nested spreads of a setter build: along `path` each level
   * is copied with one property replaced, and the object at the end of the
   * path has `patch` spread into it.
   */
  function Patched(v: Value, path: seq<string>, patch: Entries): (r: Value)
    ensures r.Obj?
    decreases |path|
  {
    if |path| == 0 then Obj(Spread(OwnEntries(v), patch))
    else Obj(Put(OwnEntries(v), path[0], Patched(Lookup(v, path[0]), path[1..], patch)))
  }

  lemma LookupPatched(v: Value, path: seq<string>, patch: Entries)
    requires |path| > 0
    ensures Lookup(Patched(v, path, patch), path[0]) == Patched(Lookup(v, path[0]), path[1..], patch)
  {
    GetPut(OwnEntries(v), path[0], Patched(Lookup(v, path[0]), path[1..], patch), path[0]);
  }

  /** The object at the end of the path holds the patch's values and keeps its other properties. */
  lemma {:induction false} PatchedTarget(v: Value, path: seq<string>, patch: Entries, k: string)
    requires UniqueKeys(patch)
    ensures LookupPath(Patched(v, path, patch), path).Obj?
    ensures Get(LookupPath(Patched(v, path, patch), path).entries, k)
         == if k in Keys(patch) then Get(patch, k) else Get(OwnEntries(LookupPath(v, path)), k)
    decreases |path|
  {
    if |path| == 0 {
      SpreadGet(OwnEntries(v), patch, k);
    } else {
      LookupPatched(v, path, patch);
      PatchedTarget(Lookup(v, path[0]), path[1..], patch, k);
    }
  }

  /** At every level of the path, the properties off the path are unchanged. */
  lemma {:induction false} PatchedSiblings(v: Value, path: seq<string>, patch: Entries, i: nat, k: string)
    requires i < |path| && k != path[i]
    ensures Lookup(LookupPath(Patched(v, path, patch), path[..i]), k) == Lookup(LookupPath(v, path[..i]), k)
    decreases i
  {
    if i == 0 {
      GetPut(OwnEntries(v), path[0], Patched(Lookup(v, path[0]), path[1..], patch), k);
    } else {
      LookupPatched(v, path, patch);
      assert path[..i][1..] == path[1..][..i - 1];
      PatchedSiblings(Lookup(v, path[0]), path[1..], patch, i - 1, k);
    }
  }

  /** Applying a setter twice with the same argument is applying it once. */
  lemma {:induction false} PatchedIdempotent(v: Value, path: seq<string>, patch: Entries)
    requires UniqueKeys(patch)
    ensures Patched(Patched(v, path, patch), path, patch) == Patched(v, path, patch)
    decreases |path|
  {
    if |path| == 0 {
      SpreadIdempotent(OwnEntries(v), patch);
    } else {
      var p := Patched(v, path, patch);
      var x := Patched(Lookup(v, path[0]), path[1..], patch);
      LookupPatched(v, path, patch);
      PatchedIdempotent(Lookup(v, path[0]), path[1..], patch);
      GetPut(OwnEntries(v), path[0], x, path[0]);
      PutPresent(p.entries, path[0], x);
    }
  }

  /** `setBg(bg)` */
  function WithBg(s: Value, bg: Entries): Value {
    Patched(s, ["bg"], bg)
  }

  /** `setBgOptions(options)` */
  function WithBgOptions(s: Value, options: Entries): Value {
    Patched(s, ["bg", "options"], options)
  }

  /** `setBgFilter(filter)` */
  function WithBgFilter(s: Value, filter: Entries): Value {
    Patched(s, ["bg", "options", "filter"], filter)
  }

  /** `set({ [key]: x })`, as the scalar setters use it. */
  function WithField(s: Value, key: string, x: Value): Value {
    Patched(s, [], [(key, x)])
  }

  lemma PatchedStep(v: Value, a: string, rest: seq<string>, patch: Entries)
    ensures Patched(v, [a] + rest, patch) == Obj(Put(OwnEntries(v), a, Patched(Lookup(v, a), rest, patch)))
  {
    assert ([a] + rest)[1..] == rest;
  }

  /** `setBgFilter` changes only the named filter keys; the rest of the state is untouched. */
  lemma SetBgFilterEffect(s: Value, filter: Entries, k: string)
    requires UniqueKeys(filter)
    ensures var f := Lookup(Lookup(Lookup(WithBgFilter(s, filter), "bg"), "options"), "filter");
      f.Obj? && Get(f.entries, k) == if k in Keys(filter) then Get(filter, k)
                                     else Get(OwnEntries(Lookup(Lookup(Lookup(s, "bg"), "options"), "filter")), k)
    ensures k != "bg" ==> Lookup(WithBgFilter(s, filter), k) == Lookup(s, k)
    ensures k != "options" ==> Lookup(Lookup(WithBgFilter(s, filter), "bg"), k) == Lookup(Lookup(s, "bg"), k)
    ensures k != "filter" ==>
      Lookup(Lookup(Lookup(WithBgFilter(s, filter), "bg"), "options"), k) == Lookup(Lookup(Lookup(s, "bg"), "options"), k)
  {
    var b := Lookup(s, "bg");
    var o := Lookup(b, "options");
    var f := Lookup(o, "filter");
    var f' := Patched(f, [], filter);
    var o' := Patched(o, ["filter"], filter);
    var b' := Patched(b, ["options", "filter"], filter);
    PatchedStep(o, "filter", [], filter);
    assert ["filter"] == ["filter"] + [];
    assert o' == Obj(Put(OwnEntries(o), "filter", f'));
    PatchedStep(b, "options", ["filter"], filter);
    assert b' == Obj(Put(OwnEntries(b), "options", o'));
    PatchedStep(s, "bg", ["options", "filter"], filter);
    assert WithBgFilter(s, filter) == Obj(Put(OwnEntries(s), "bg", b'));
    GetPut(OwnEntries(s), "bg", b', k);
    GetPut(OwnEntries(s), "bg", b', "bg");
    GetPut(OwnEntries(b), "options", o', k);
    GetPut(OwnEntries(b), "options", o', "options");
    GetPut(OwnEntries(o), "filter", f', k);
    GetPut(OwnEntries(o), "filter", f', "filter");
    SpreadGet(OwnEntries(f), filter, k);
  }

  /** `setBgOptions` keeps `bg.mode` and every option it does not name. */
  lemma SetBgOptionsEffect(s: Value, options: Entries, k: string)
    requires UniqueKeys(options)
    ensures var o := Lookup(Lookup(WithBgOptions(s, options), "bg"), "options");
      o.Obj? && Get(o.entries, k) == if k in Keys(options) then Get(options, k)
                                     else Get(OwnEntries(Lookup(Lookup(s, "bg"), "options")), k)
    ensures k != "bg" ==> Lookup(WithBgOptions(s, options), k) == Lookup(s, k)
    ensures k != "options" ==> Lookup(Lookup(WithBgOptions(s, options), "bg"), k) == Lookup(Lookup(s, "bg"), k)
  {
    var b := Lookup(s, "bg");
    var o := Lookup(b, "options");
    var o' := Patched(o, [], options);
    var b' := Patched(b, ["options"], options);
    PatchedStep(b, "options", [], options);
    assert ["options"] == ["options"] + [];
    assert b' == Obj(Put(OwnEntries(b), "options", o'));
    PatchedStep(s, "bg", ["options"], options);
    assert WithBgOptions(s, options) == Obj(Put(OwnEntries(s), "bg", b'));
    GetPut(OwnEntries(s), "bg", b', k);
    GetPut(OwnEntries(s), "bg", b', "bg");
    GetPut(OwnEntries(b), "options", o', k);
    GetPut(OwnEntries(b), "options", o', "options");
    SpreadGet(OwnEntries(o), options, k);
  }

  /** `setBg` shallow-merges into `bg`; every other top-level field is unchanged. */
  lemma SetBgEffect(s: Value, bg: Entries, k: string)
    requires UniqueKeys(bg)
    ensures var b := Lookup(WithBg(s, bg), "bg");
      b.Obj? && Get(b.entries, k) == if k in Keys(bg) then Get(bg, k) else Get(OwnEntries(Lookup(s, "bg")), k)
    ensures k != "bg" ==> Lookup(WithBg(s, bg), k) == Lookup(s, k)
  {
    var b' := Patched(Lookup(s, "bg"), [], bg);
    PatchedStep(s, "bg", [], bg);
    assert ["bg"] == ["bg"] + [];
    GetPut(OwnEntries(s), "bg", b', k);
    GetPut(OwnEntries(s), "bg", b', "bg");
    SpreadGet(OwnEntries(Lookup(s, "bg")), bg, k);
  }

  /** A scalar setter replaces exactly one top-level field. */
  lemma SetFieldEffect(s: Value, key: string, x: Value, k: string)
    ensures Lookup(WithField(s, key, x), k) == if k == key then x else Lookup(s, k)
  {
    SpreadGet(OwnEntries(s), [(key, x)], k);
    assert Keys([(key, x)]) == [key];
  }

  // ---- Romanization toggle ----

  /** The setting every renderer and the toggle button read: `lyrics.forceRomanized`. */
  predicate ForceRomanized(s: Value) {
    Truthy(Lookup(Lookup(s, "lyrics"), "forceRomanized"))
  }

  /** `toggleRomanization` as written: it flips a top-level `forceRomanized` field. */
  function ToggleRomanizationAsWritten(s: Value): Value {
    WithField(s, "forceRomanized", Bool(!Truthy(Lookup(s, "forceRomanized"))))
  }

  /** `toggleRomanization` as evidently intended: it flips `lyrics.forceRomanized`. */
  function ToggleRomanization(s: Value): Value {
    Patched(s, ["lyrics"], [("forceRomanized", Bool(!ForceRomanized(s)))])
  }

  /** As written, the toggle never changes the setting the renderers read. */
  lemma ToggleAsWrittenKeepsSetting(s: Value)
    ensures Lookup(Lookup(ToggleRomanizationAsWritten(s), "lyrics"), "forceRomanized")
         == Lookup(Lookup(s, "lyrics"), "forceRomanized")
    ensures ForceRomanized(ToggleRomanizationAsWritten(s)) == ForceRomanized(s)
  {
    SetFieldEffect(s, "forceRomanized", Bool(!Truthy(Lookup(s, "forceRomanized"))), "lyrics");
  }

  /** As written, two toggles from the default state leave a new top-level field behind. */
  lemma ToggleAsWrittenTwiceAddsField(s: Value)
    requires Lookup(s, "forceRomanized") == Undefined
    ensures Lookup(ToggleRomanizationAsWritten(ToggleRomanizationAsWritten(s)), "forceRomanized") == Bool(false)
    ensures ToggleRomanizationAsWritten(ToggleRomanizationAsWritten(s)) != s
  {
    var t := ToggleRomanizationAsWritten(s);
    SetFieldEffect(s, "forceRomanized", Bool(true), "forceRomanized");
    SetFieldEffect(t, "forceRomanized", Bool(false), "forceRomanized");
  }

  /** Corrected, the toggle flips the setting the renderers read, and nothing else at the top level. */
  lemma ToggleFlipsSetting(s: Value, k: string)
    ensures ForceRomanized(ToggleRomanization(s)) == !ForceRomanized(s)
    ensures k != "lyrics" ==> Lookup(ToggleRomanization(s), k) == Lookup(s, k)
  {
    var b := !ForceRomanized(s);
    var patch := [("forceRomanized", Bool(b))];
    var t := ToggleRomanization(s);
    var lyrics := Patched(Lookup(s, "lyrics"), [], patch);
    assert t == Obj(Put(OwnEntries(s), "lyrics", lyrics));
    GetPut(OwnEntries(s), "lyrics", lyrics, "lyrics");
    SpreadGet(OwnEntries(Lookup(s, "lyrics")), patch, "forceRomanized");
    assert Keys(patch) == ["forceRomanized"];
    assert Lookup(lyrics, "forceRomanized") == Bool(b);
    if k != "lyrics" {
      GetPut(OwnEntries(s), "lyrics", lyrics, k);
    }
  }

  /** Corrected, toggling twice restores a state whose setting is a boolean. */
  lemma ToggleTwice(s: Value)
    requires s.Obj? && Lookup(s, "lyrics").Obj?
    requires Lookup(Lookup(s, "lyrics"), "forceRomanized").Bool?
    ensures ToggleRomanization(ToggleRomanization(s)) == s
  {
    var lyrics := Lookup(s, "lyrics");
    var b := Lookup(lyrics, "forceRomanized").b;
    var l1 := Put(lyrics.entries, "forceRomanized", Bool(!b));
    var t := ToggleRomanization(s);
    ToggleShape(s, Bool(!b));
    assert t == Obj(Put(s.entries, "lyrics", Obj(l1)));
    GetPut(s.entries, "lyrics", Obj(l1), "lyrics");
    GetPut(lyrics.entries, "forceRomanized", Bool(!b), "forceRomanized");
    assert Lookup(Lookup(t, "lyrics"), "forceRomanized") == Bool(!b);
    ToggleShape(t, Bool(b));
    PutPut(lyrics.entries, "forceRomanized", Bool(!b), Bool(b));
    PutPresent(lyrics.entries, "forceRomanized", Bool(b));
    PutPut(s.entries, "lyrics", Obj(l1), lyrics);
    PutPresent(s.entries, "lyrics", lyrics);
  }

  lemma ToggleShape(s: Value, x: Value)
    requires s.Obj? && Lookup(s, "lyrics").Obj? && x == Bool(!ForceRomanized(s))
    ensures ToggleRomanization(s)
         == Obj(Put(s.entries, "lyrics", Obj(Put(Lookup(s, "lyrics").entries, "forceRomanized", x))))
  {
    var patch := [("forceRomanized", x)];
    PatchedStep(s, "lyrics", [], patch);
    assert ["lyrics"] == ["lyrics"] + [];
    assert Spread(Lookup(s, "lyrics").entries, patch) == Put(Lookup(s, "lyrics").entries, "forceRomanized", x);
  }

  // ---- lodash merge ----

  /**
   * What `merge` stores under a key whose current value is `dv` (`present`
   * when the key exists) for the source value `sv`: plain objects and arrays
   * are merged recursively, `undefined` is skipped over an existing key, and
   * any other value is assigned.
   */
  function MergeValue(dv: Value, present: bool, sv: Value): (r: Value)
    ensures sv.Obj? ==> r.Obj?
    ensures sv.Arr? ==> r.Arr?
    ensures sv.Undefined? ==> r == if present then dv else Undefined
    ensures !sv.Obj? && !sv.Arr? && !sv.Undefined? ==> r == sv
    decreases sv, 1
  {
    match sv
    case Obj(_) => Obj(MergeEntries(if dv.Obj? then dv.entries else [], sv, 0))
    case Arr(items) => Arr(MergeItems(if dv.Arr? then dv.items else [], sv, 0))
    case Undefined => if present then dv else Undefined
    case _ => sv
  }

  /** `merge` of the source object's properties from index `i` on into `out`, in property order. */
  function MergeEntries(out: Entries, src: Value, i: nat): Entries
    requires src.Obj? && i <= |src.entries|
    decreases src, 0, |src.entries| - i
  {
    if i == |src.entries| then out
    else
      var k := src.entries[i].0;
      var sv := src.entries[i].1;
      MergeEntries(Put(out, k, MergeValue(Get(out, k).GetOr(Undefined), k in Keys(out), sv)), src, i + 1)
  }

  /** `merge` of the source array's elements from index `i` on into `base`, index by index. */
  function MergeItems(base: seq<Value>, src: Value, i: nat): seq<Value>
    requires src.Arr? && i <= |src.items| && i <= |base|
    decreases src, 0, |src.items| - i
  {
    if i == |src.items| then base
    else
      var present := i < |base|;
      var merged := MergeValue(if present then base[i] else Undefined, present, src.items[i]);
      MergeItems(if present then base[i := merged] else base + [merged], src, i + 1)
  }

  /** A JSON value whose objects, at every depth, have distinct keys. */
  predicate Plain(v: Value)
    decreases v
  {
    match v
    case Obj(es) => UniqueKeys(es) && forall i :: 0 <= i < |es| ==> Plain(es[i].1)
    case Arr(items) => forall i :: 0 <= i < |items| ==> Plain(items[i])
    case _ => true
  }

  /** Merging a plain value into nothing copies it. */
  lemma {:induction false} MergeCopies(v: Value)
    requires Plain(v)
    ensures MergeValue(Undefined, false, v) == v
    decreases v, 1
  {
    match v
    case Obj(es) =>
      MergeCopiesEntries(v, 0);
      assert es[..0] == [];
    case Arr(items) =>
      MergeCopiesItems(v, 0);
      assert items[..0] == [];
    case _ =>
  }

  lemma {:induction false} MergeCopiesEntries(v: Value, i: nat)
    requires v.Obj? && Plain(v) && i <= |v.entries|
    ensures MergeEntries(v.entries[..i], v, i) == v.entries
    decreases v, 0, |v.entries| - i
  {
    var es := v.entries;
    if i < |es| {
      var k := es[i].0;
      var sv := es[i].1;
      assert k !in Keys(es[..i]) by {
        forall j | 0 <= j < i ensures Keys(es[..i])[j] != k {
          assert es[..i][j] == es[j];
        }
      }
      MergeCopies(sv);
      assert es[..i] + [(k, sv)] == es[..i + 1];
      MergeCopiesEntries(v, i + 1);
    } else {
      assert es[..i] == es;
    }
  }

  lemma {:induction false} MergeCopiesItems(v: Value, i: nat)
    requires v.Arr? && Plain(v) && i <= |v.items|
    ensures MergeItems(v.items[..i], v, i) == v.items
    decreases v, 0, |v.items| - i
  {
    var items := v.items;
    if i < |items| {
      MergeCopies(items[i]);
      assert items[..i] + [items[i]] == items[..i + 1];
      MergeCopiesItems(v, i + 1);
    } else {
      assert items[..i] == items;
    }
  }

  lemma {:induction false} MergeEntriesGet(out: Entries, src: Value, i: nat, k: string)
    requires src.Obj? && UniqueKeys(src.entries) && i <= |src.entries|
    ensures Get(MergeEntries(out, src, i), k)
         == if k in Keys(src.entries[i..])
            then Some(MergeValue(Get(out, k).GetOr(Undefined), k in Keys(out), Lookup(src, k)))
            else Get(out, k)
    decreases |src.entries| - i
  {
    var es := src.entries;
    if i < |es| {
      var k0 := es[i].0;
      var sv := es[i].1;
      var out' := Put(out, k0, MergeValue(Get(out, k0).GetOr(Undefined), k0 in Keys(out), sv));
      assert MergeEntries(out, src, i) == MergeEntries(out', src, i + 1);
      MergeEntriesGet(out', src, i + 1, k);
      MergeEntriesGetStep(out, src, i, k);
    }
  }

  /** Merging entry `i` into `out` leaves key `k` where the merge of the remaining entries needs it. */
  lemma MergeEntriesGetStep(out: Entries, src: Value, i: nat, k: string)
    requires src.Obj? && UniqueKeys(src.entries) && i < |src.entries|
    ensures var k0 := src.entries[i].0;
      var sv := src.entries[i].1;
      var out' := Put(out, k0, MergeValue(Get(out, k0).GetOr(Undefined), k0 in Keys(out), sv));
      (if k in Keys(src.entries[i + 1..])
       then Some(MergeValue(Get(out', k).GetOr(Undefined), k in Keys(out'), Lookup(src, k)))
       else Get(out', k))
      == (if k in Keys(src.entries[i..])
          then Some(MergeValue(Get(out, k).GetOr(Undefined), k in Keys(out), Lookup(src, k)))
          else Get(out, k))
  {
    var es := src.entries;
    var k0 := es[i].0;
    var sv := es[i].1;
    var x := MergeValue(Get(out, k0).GetOr(Undefined), k0 in Keys(out), sv);
    GetPut(out, k0, x, k);
    KeysCons(es, i);
    if k == k0 {
      GetUnique(es, i);
      UniqueSuffix(es, i);
    }
  }

  lemma {:induction false} MergeEntriesKeys(out: Entries, src: Value, i: nat, k: string)
    requires src.Obj? && i <= |src.entries|
    ensures k in Keys(MergeEntries(out, src, i)) <==> k in Keys(out) || k in Keys(src.entries[i..])
    decreases |src.entries| - i
  {
    var es := src.entries;
    if i < |es| {
      var k0 := es[i].0;
      var sv := es[i].1;
      MergeEntriesKeys(Put(out, k0, MergeValue(Get(out, k0).GetOr(Undefined), k0 in Keys(out), sv)), src, i + 1, k);
      PutKeys(out, k0, MergeValue(Get(out, k0).GetOr(Undefined), k0 in Keys(out), sv));
      KeysCons(es, i);
    }
  }

  // ---- Defaults, import, reset ----

  const DefaultFilter: Value := Obj([
    ("blur", Num(48.0)), ("saturation", Num(150.0)), ("contrast", Num(110.0)),
    ("brightness", Num(70.0)), ("opacity", Num(100.0))])

  const DefaultOptions: Value := Obj([
    ("filter", DefaultFilter), ("color", Str("#060606")), ("imageMode", Str("player")),
    ("customUrl", Str("https://picsum.photos/1920/1080")), ("autoStopAnimation", Bool(false))])

  const DefaultLyrics: Value := Obj([
    ("splitThresholdMs", Num(1000.0)), ("maxTranslateUpWord", Num(2.0)), ("maxTranslateUpLetter", Num(2.0)),
    ("scaleCoefficientWord", Num(4.0)), ("scaleCoefficientLetter", Num(2.0)), ("scrollOffset", Num(16.0)),
    ("forceRomanized", Bool(false)), ("showMetadata", Bool(true)), ("metadataPosition", Str("left")),
    ("fullScreenMetadataPosition", Str("left"))])

  /** `DEFAULT_APP_STATE` */
  const DefaultAppState: Value := Obj([
    ("bg", Obj([("mode", Str("animated")), ("options", DefaultOptions)])),
    ("lyrics", DefaultLyrics),
    ("disableTippy", Bool(false)), ("isDevMode", Bool(false)),
    ("isNpvCardOpen", Bool(false)), ("isAnalyticsActive", Bool(true))])

  lemma DefaultsPlain()
    ensures Plain(DefaultAppState)
  {
    FilterPlain();
    OptionsPlain();
    LyricsPlain();
    var bg := Obj([("mode", Str("animated")), ("options", DefaultOptions)]);
    assert Plain(bg);
    var es := DefaultAppState.entries;
    assert forall i :: 0 <= i < |es| ==> Plain(es[i].1);
  }

  lemma FilterPlain()
    ensures Plain(DefaultFilter)
  {
  }

  lemma OptionsPlain()
    ensures Plain(DefaultOptions)
  {
    FilterPlain();
  }

  lemma LyricsPlain()
    ensures Plain(DefaultLyrics)
  {
  }

  /** The state after `importConfig(config)`: `merge({}, DEFAULT_APP_STATE, config)` shallow-merged into the state. */
  function Imported(s: Value, config: Value): (r: Value)
    requires config.Obj?
    ensures r.Obj?
  {
    Obj(Spread(OwnEntries(s), MergeEntries(MergeEntries([], DefaultAppState, 0), config, 0)))
  }

  /** The state after `resetStore()`: the defaults shallow-merged into the state. */
  function Reset(s: Value): (r: Value)
    ensures r.Obj?
  {
    Obj(Spread(OwnEntries(s), DefaultAppState.entries))
  }

  lemma MergedDefaults()
    ensures MergeEntries([], DefaultAppState, 0) == DefaultAppState.entries
  {
    DefaultsPlain();
    MergeCopiesEntries(DefaultAppState, 0);
    assert DefaultAppState.entries[..0] == [];
  }

  lemma {:induction false} PutUnique(es: Entries, k: string, x: Value)
    requires UniqueKeys(es)
    ensures UniqueKeys(Put(es, k, x))
    decreases |es|
  {
    if |es| > 0 && es[0].0 != k {
      UniqueTail(es);
      PutUnique(es[1..], k, x);
      PutKeys(es[1..], k, x);
      var r := Put(es, k, x);
      assert r == [es[0]] + Put(es[1..], k, x);
      assert Keys(r) == [es[0].0] + Keys(Put(es[1..], k, x));
      forall j | 1 <= j < |r| ensures r[j].0 != es[0].0 {
        assert r[j].0 == Keys(r)[j];
      }
    }
  }

  /** One step of the merge loop: the source's `i`-th property merged into `out`. */
  function MergeStep(out: Entries, src: Value, i: nat): Entries
    requires src.Obj? && i < |src.entries|
  {
    var k := src.entries[i].0;
    Put(out, k, MergeValue(Get(out, k).GetOr(Undefined), k in Keys(out), src.entries[i].1))
  }

  lemma MergeEntriesUnfold(out: Entries, src: Value, i: nat)
    requires src.Obj? && i < |src.entries|
    ensures MergeEntries(out, src, i) == MergeEntries(MergeStep(out, src, i), src, i + 1)
  {
  }

  lemma {:induction false} MergeEntriesUnique(out: Entries, src: Value, i: nat)
    requires src.Obj? && i <= |src.entries| && UniqueKeys(out)
    ensures UniqueKeys(MergeEntries(out, src, i))
    decreases |src.entries| - i
  {
    if i < |src.entries| {
      var k := src.entries[i].0;
      MergeEntriesUnfold(out, src, i);
      PutUnique(out, k, MergeValue(Get(out, k).GetOr(Undefined), k in Keys(out), src.entries[i].1));
      MergeEntriesUnique(MergeStep(out, src, i), src, i + 1);
    }
  }

  /**
   * After `importConfig(config)`, a key of the config holds the default merged
   * with the config's value, a default key the config omits holds the default,
   * and any other key keeps its value.
   */
  lemma ImportedGet(s: Value, config: Value, k: string)
    requires config.Obj? && UniqueKeys(config.entries)
    ensures Get(Imported(s, config).entries, k)
         == if k in Keys(config.entries)
            then Some(MergeValue(Lookup(DefaultAppState, k), k in Keys(DefaultAppState.entries), Lookup(config, k)))
            else if k in Keys(DefaultAppState.entries) then Get(DefaultAppState.entries, k)
            else Get(OwnEntries(s), k)
  {
    var d := DefaultAppState.entries;
    MergedDefaults();
    DefaultsPlain();
    var m := MergeEntries(d, config, 0);
    MergeEntriesUnique(d, config, 0);
    SpreadGet(OwnEntries(s), m, k);
    MergeEntriesGet(d, config, 0, k);
    MergeEntriesKeys(d, config, 0, k);
    assert config.entries[0..] == config.entries;
  }

  /** An imported setting that is a plain scalar is taken as is. */
  lemma ImportedScalar(s: Value, config: Value, k: string)
    requires config.Obj? && UniqueKeys(config.entries) && k in Keys(config.entries)
    requires var v := Lookup(config, k); !v.Obj? && !v.Arr? && !v.Undefined?
    ensures Lookup(Imported(s, config), k) == Lookup(config, k)
  {
    ImportedGet(s, config, k);
  }

  /** `resetStore` restores every default key and leaves keys outside the defaults in place. */
  lemma ResetGet(s: Value, k: string)
    ensures Get(Reset(s).entries, k)
         == if k in Keys(DefaultAppState.entries) then Get(DefaultAppState.entries, k) else Get(OwnEntries(s), k)
  {
    DefaultsPlain();
    SpreadGet(OwnEntries(s), DefaultAppState.entries, k);
  }

  /** Importing an empty config is a reset. */
  lemma ImportEmptyIsReset(s: Value)
    ensures Imported(s, Obj([])) == Reset(s)
  {
    MergedDefaults();
  }

  /**
   * The settings store. `state` is the data part of the zustand state; the
   * setter functions that share the object are not modelled.
   */
  class AppStore {
    var state: Value

    ghost predicate Valid()
      reads this
    {
      state.Obj?
    }

    /** Store creation: the defaults, then the module-level `importConfig(getState())`. */
    constructor()
      ensures Valid() && state == Imported(DefaultAppState, DefaultAppState)
    {
      state := Imported(DefaultAppState, DefaultAppState);
    }

    method SetBg(bg: Entries)
      modifies this
      ensures Valid() && state == WithBg(old(state), bg)
    {
      state := WithBg(state, bg);
    }

    method SetBgOptions(options: Entries)
      modifies this
      ensures Valid() && state == WithBgOptions(old(state), options)
    {
      state := WithBgOptions(state, options);
    }

    method SetBgFilter(filter: Entries)
      modifies this
      ensures Valid() && state == WithBgFilter(old(state), filter)
    {
      state := WithBgFilter(state, filter);
    }

    /** `setIsDevMode`; the page reload that follows is not modelled. */
    method SetIsDevMode(isDevMode: bool)
      modifies this
      ensures Valid() && state == WithField(old(state), "isDevMode", Bool(isDevMode))
    {
      state := WithField(state, "isDevMode", Bool(isDevMode));
    }

    method SetIsAnalyticsActive(isAnalyticsActive: bool)
      modifies this
      ensures Valid() && state == WithField(old(state), "isAnalyticsActive", Bool(isAnalyticsActive))
    {
      state := WithField(state, "isAnalyticsActive", Bool(isAnalyticsActive));
    }

    method SetIsNpvCardOpen(isNpvCardOpen: bool)
      modifies this
      ensures Valid() && state == WithField(old(state), "isNpvCardOpen", Bool(isNpvCardOpen))
    {
      state := WithField(state, "isNpvCardOpen", Bool(isNpvCardOpen));
    }

    /** `toggleRomanization` as written: a top-level field flips and the setting the renderers read stays. */
    method ToggleRomanizationSettingAsWritten()
      modifies this
      ensures Valid() && state == ToggleRomanizationAsWritten(old(state))
      ensures ForceRomanized(state) == ForceRomanized(old(state))
    {
      ToggleAsWrittenKeepsSetting(state);
      state := ToggleRomanizationAsWritten(state);
    }

    /** `toggleRomanization`, corrected to flip the setting the renderers read. */
    method ToggleRomanizationSetting()
      modifies this
      ensures Valid() && state == ToggleRomanization(old(state))
      ensures ForceRomanized(state) == !ForceRomanized(old(state))
    {
      ToggleFlipsSetting(state, "lyrics");
      state := ToggleRomanization(state);
    }

    method ImportConfig(config: Value)
      requires config.Obj?
      modifies this
      ensures Valid() && state == Imported(old(state), config)
    {
      state := Imported(state, config);
    }

    /** `exportConfig`: the serialised state, or null when serialisation throws. */
    method ExportConfig(stringify: Value -> Outcome<string>) returns (r: Option<string>)
      ensures r.Some? <==> stringify(state).Returned?
      ensures r.Some? ==> r.value == stringify(state).value
    {
      match stringify(state)
      case Returned(text) => r := Some(text);
      case Threw => r := None;
    }

    /** `resetStore`; clearing the persisted copy is not modelled. */
    method ResetStore()
      modifies this
      ensures Valid() && state == Reset(old(state))
    {
      state := Reset(state);
    }
  }
}
