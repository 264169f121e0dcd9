/** `serializeFilters`: a CSS filter record rendered as a CSS `filter` value. */
module SerializeFilters {
  import opened Wrappers
  import opened Strings

  /**
   * A CSS filter record. A field is `None` when the key is absent; values are
   * whole numbers (the settings schema bounds them to 0..512, opacity to 0..100).
   */
  datatype CssFilter = CssFilter(
    blur: Option<nat>,
    brightness: Option<nat>,
    contrast: Option<nat>,
    saturation: Option<nat>,
    opacity: Option<nat>)

  datatype SkipOptions = SkipOptions(
    skipBlur: bool,
    skipOpacity: bool,
    skipBrightness: bool,
    skipSaturation: bool,
    skipContrast: bool)

  const NoSkips := SkipOptions(false, false, false, false, false)

  /** The five filter functions, in output order. */
  datatype Component = Blur | Brightness | Contrast | Saturate | Opacity

  const Order: seq<Component> := [Blur, Brightness, Contrast, Saturate, Opacity]

  function ValueOf(f: Option<CssFilter>, c: Component): Option<nat> {
    match f
    case None => None
    case Some(x) =>
      match c
      case Blur => x.blur
      case Brightness => x.brightness
      case Contrast => x.contrast
      case Saturate => x.saturation
      case Opacity => x.opacity
  }

  function Skipped(o: SkipOptions, c: Component): bool {
    match c
    case Blur => o.skipBlur
    case Brightness => o.skipBrightness
    case Contrast => o.skipContrast
    case Saturate => o.skipSaturation
    case Opacity => o.skipOpacity
  }

  /** A number is truthy unless it is 0; an absent value is falsy. */
  predicate Emitted(f: Option<CssFilter>, o: SkipOptions, c: Component) {
    !Skipped(o, c) && ValueOf(f, c).Some? && ValueOf(f, c).value != 0
  }

  function Css(c: Component, v: nat): (s: string)
    ensures s != ""
  {
    match c
    case Blur => "blur(" + NatToString(v) + "px)"
    case Brightness => "brightness(" + NatToString(v) + "%)"
    case Contrast => "contrast(" + NatToString(v) + "%)"
    case Saturate => "saturate(" + NatToString(v) + "%)"
    case Opacity => "opacity(" + NatToString(v) + "%)"
  }

  /** The CSS text of a component, given the filter's value for it. */
  function Text(f: Option<CssFilter>, c: Component): string {
    Css(c, ValueOf(f, c).GetOr(0))
  }

  /** The entries of the array literal for the components `cs`: the CSS text, or '' when omitted. */
  function Slots(f: Option<CssFilter>, o: SkipOptions, cs: seq<Component>): (r: seq<string>)
    ensures |r| == |cs|
    decreases |cs|
  {
    if |cs| == 0 then []
    else [if Emitted(f, o, cs[0]) then Text(f, cs[0]) else ""] + Slots(f, o, cs[1..])
  }

  /** `.filter(Boolean)` */
  function NonEmpty(xs: seq<string>): (r: seq<string>)
    ensures forall k :: 0 <= k < |r| ==> r[k] != ""
    decreases |xs|
  {
    if |xs| == 0 then []
    else if xs[0] == "" then NonEmpty(xs[1..])
    else [xs[0]] + NonEmpty(xs[1..])
  }

  /** `serializeFilters(filters, options)` */
  function Serialize(f: Option<CssFilter>, o: SkipOptions): string {
    Join(NonEmpty(Slots(f, o, Order)), " ")
  }

  /** The components that are emitted, in output order. */
  function EmittedComponents(f: Option<CssFilter>, o: SkipOptions, cs: seq<Component>): (r: seq<Component>)
    ensures forall c :: c in r <==> c in cs && Emitted(f, o, c)
    decreases |cs|
  {
    if |cs| == 0 then []
    else if Emitted(f, o, cs[0]) then [cs[0]] + EmittedComponents(f, o, cs[1..])
    else EmittedComponents(f, o, cs[1..])
  }

  function Texts(f: Option<CssFilter>, cs: seq<Component>): (r: seq<string>)
    ensures |r| == |cs|
    ensures forall k :: 0 <= k < |cs| ==> r[k] == Text(f, cs[k])
    decreases |cs|
  {
    if |cs| == 0 then [] else [Text(f, cs[0])] + Texts(f, cs[1..])
  }

  lemma {:induction false} NonEmptySlots(f: Option<CssFilter>, o: SkipOptions, cs: seq<Component>)
    ensures NonEmpty(Slots(f, o, cs)) == Texts(f, EmittedComponents(f, o, cs))
    decreases |cs|
  {
    if |cs| > 0 {
      NonEmptySlots(f, o, cs[1..]);
    }
  }

  /**
   * The output is exactly the CSS text of the emitted components, in the order
   * blur, brightness, contrast, saturate, opacity, separated by single spaces;
   * a component is emitted iff it is not skipped and its value is present and non-zero.
   */
  lemma SerializeSpec(f: Option<CssFilter>, o: SkipOptions)
    ensures Serialize(f, o) == Join(Texts(f, EmittedComponents(f, o, Order)), " ")
    ensures forall c :: c in EmittedComponents(f, o, Order) <==> Emitted(f, o, c)
  {
    NonEmptySlots(f, o, Order);
  }

  /** A missing filter record serializes to the empty string. */
  lemma SerializeNoFilter(o: SkipOptions)
    ensures Serialize(None, o) == ""
  {
    SerializeSpec(None, o);
    assert EmittedComponents(None, o, Order) == [];
  }

  lemma {:induction false} SameEmission(f: Option<CssFilter>, g: Option<CssFilter>, o: SkipOptions, p: SkipOptions, cs: seq<Component>)
    requires forall c :: Emitted(f, o, c) == Emitted(g, p, c)
    requires forall c :: Emitted(f, o, c) ==> Text(f, c) == Text(g, c)
    ensures Texts(f, EmittedComponents(f, o, cs)) == Texts(g, EmittedComponents(g, p, cs))
    decreases |cs|
  {
    if |cs| > 0 {
      SameEmission(f, g, o, p, cs[1..]);
    }
  }

  /** Two inputs that emit the same components with the same texts serialize alike. */
  lemma SerializeSame(f: Option<CssFilter>, g: Option<CssFilter>, o: SkipOptions, p: SkipOptions)
    requires forall c :: Emitted(f, o, c) == Emitted(g, p, c)
    requires forall c :: Emitted(f, o, c) ==> Text(f, c) == Text(g, c)
    ensures Serialize(f, o) == Serialize(g, p)
  {
    SerializeSpec(f, o);
    SerializeSpec(g, p);
    SameEmission(f, g, o, p, Order);
  }

  /** A zero blur is omitted exactly as a missing one. */
  lemma ZeroBlurIsAbsent(x: CssFilter, o: SkipOptions)
    ensures Serialize(Some(x.(blur := Some(0))), o) == Serialize(Some(x.(blur := None)), o)
  {
    var f, g := Some(x.(blur := Some(0))), Some(x.(blur := None));
    forall c
      ensures Emitted(f, o, c) == Emitted(g, o, c)
      ensures Emitted(f, o, c) ==> Text(f, c) == Text(g, c)
    {
    }
    SerializeSame(f, g, o, o);
  }

  /** Setting a skip flag removes only that component from the output. */
  lemma SkipBlurRemovesOnlyBlur(x: CssFilter, o: SkipOptions)
    ensures Serialize(Some(x), o.(skipBlur := true)) == Serialize(Some(x.(blur := None)), o)
  {
    var f, g := Some(x), Some(x.(blur := None));
    forall c
      ensures Emitted(f, o.(skipBlur := true), c) == Emitted(g, o, c)
      ensures Emitted(f, o.(skipBlur := true), c) ==> Text(f, c) == Text(g, c)
    {
    }
    SerializeSame(f, g, o.(skipBlur := true), o);
  }
}
