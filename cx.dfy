/** The `cx` class-name combinator. */
module ClassNames {
  import opened Strings

  /** One argument of `cx`: a falsy value, a string, or a record of class names to flags. */
  datatype ClassArg = Falsy | Str(s: string) | Flags(entries: seq<(string, bool)>)

  /** Keys of the entries whose flag is set, in entry order. */
  function EnabledKeys(entries: seq<(string, bool)>): (keys: seq<string>)
    ensures |keys| <= |entries|
    ensures forall k :: k in keys <==> exists i :: 0 <= i < |entries| && entries[i] == (k, true)
    decreases |entries|
  {
    if |entries| == 0 then []
    else
      var rest := EnabledKeys(entries[1..]);
      assert forall i :: 1 <= i < |entries| ==> entries[i] == entries[1..][i - 1];
      if entries[0].1 then [entries[0].0] + rest else rest
  }

  /** Keys are taken entry by entry: the keys of two runs of entries are those of each, in order. */
  lemma {:induction false} EnabledKeysAppend(a: seq<(string, bool)>, b: seq<(string, bool)>)
    ensures EnabledKeys(a + b) == EnabledKeys(a) + EnabledKeys(b)
    decreases |a|
  {
    if |a| > 0 {
      assert (a + b)[1..] == a[1..] + b;
      EnabledKeysAppend(a[1..], b);
    } else {
      assert a + b == b;
    }
  }

  /** The string an argument contributes before empty strings are dropped. */
  function Render(arg: ClassArg): string {
    match arg
    case Falsy => ""
    case Str(s) => s
    case Flags(entries) => Join(EnabledKeys(entries), " ")
  }

  /** The non-empty renderings of `args`, in argument order. */
  function Rendered(args: seq<ClassArg>): (r: seq<string>)
    ensures forall k :: 0 <= k < |r| ==> r[k] != ""
    ensures |r| <= |args|
    decreases |args|
  {
    if |args| == 0 then []
    else
      var s := Render(args[0]);
      if s == "" then Rendered(args[1..]) else [s] + Rendered(args[1..])
  }

  /** `cx(...args)` */
  function Cx(args: seq<ClassArg>): string {
    Join(Rendered(args), " ")
  }

  lemma {:induction false} RenderedAppend(a: seq<ClassArg>, b: seq<ClassArg>)
    ensures Rendered(a + b) == Rendered(a) + Rendered(b)
    decreases |a|
  {
    if |a| > 0 {
      assert (a + b)[0] == a[0];
      assert (a + b)[1..] == a[1..] + b;
      RenderedAppend(a[1..], b);
    } else {
      assert a + b == b;
    }
  }

  /** A falsy argument contributes nothing, not even a separator. */
  lemma CxIgnoresFalsy(a: seq<ClassArg>, b: seq<ClassArg>)
    ensures Cx(a + [Falsy] + b) == Cx(a + b)
  {
    RenderedAppend(a + [Falsy], b);
    RenderedAppend(a, [Falsy]);
    RenderedAppend(a, b);
    assert Rendered([Falsy]) == [] by {
      assert [Falsy][1..] == [];
    }
    assert Rendered(a + [Falsy]) == Rendered(a);
  }

  /** Non-empty string arguments are joined verbatim, in order, with one space. */
  lemma {:induction false} CxJoinsStrings(args: seq<ClassArg>)
    requires forall i :: 0 <= i < |args| ==> args[i].Str? && args[i].s != ""
    ensures Rendered(args) == seq(|args|, i requires 0 <= i < |args| => args[i].s)
    decreases |args|
  {
    if |args| > 0 {
      CxJoinsStrings(args[1..]);
    }
  }

  /** A record with an enabled non-empty key contributes exactly its enabled keys, space-separated, in its place. */
  lemma CxFlags(a: seq<ClassArg>, entries: seq<(string, bool)>, b: seq<ClassArg>)
    requires exists i :: 0 <= i < |entries| && entries[i].1 && entries[i].0 != ""
    ensures Rendered(a + [Flags(entries)] + b) == Rendered(a) + [Join(EnabledKeys(entries), " ")] + Rendered(b)
  {
    var i :| 0 <= i < |entries| && entries[i].1 && entries[i].0 != "";
    JoinNonEmpty(EnabledKeys(entries), " ", entries[i].0);
    RenderedAppend(a + [Flags(entries)], b);
    RenderedAppend(a, [Flags(entries)]);
    assert [Flags(entries)][1..] == [];
  }

  lemma {:induction false} JoinNonEmpty(parts: seq<string>, sep: string, p: string)
    requires p in parts && p != ""
    ensures Join(parts, sep) != ""
    decreases |parts|
  {
    if |parts| > 1 && parts[|parts| - 1] != p {
      JoinNonEmpty(parts[..|parts| - 1], sep, p);
    }
  }
}
