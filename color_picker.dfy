/** The colour picker's helpers: a readable text colour for a swatch, and CSS variable resolution. */
module ColorHelpers {
  import opened Wrappers
  import opened Strings

  predicate IsHexDigit(c: char) {
    '0' <= c <= '9' || 'a' <= c <= 'f' || 'A' <= c <= 'F'
  }

  function HexDigitValue(c: char): (d: nat)
    requires IsHexDigit(c)
    ensures d < 16
  {
    if '0' <= c <= '9' then (c as int - '0' as int) as nat
    else if 'a' <= c <= 'f' then (c as int - 'a' as int + 10) as nat
    else (c as int - 'A' as int + 10) as nat
  }

  /** The lower-case hex digit for `d`. */
  function HexChar(d: nat): (c: char)
    requires d < 16
    ensures IsHexDigit(c) && HexDigitValue(c) == d
  {
    if d < 10 then ('0' as int + d) as char else ('a' as int + d - 10) as char
  }

  /** The longest prefix of `s` made of hex digits. */
  function HexPrefix(s: string): (p: string)
    ensures |p| <= |s| && p == s[..|p|]
    ensures forall i :: 0 <= i < |p| ==> IsHexDigit(p[i])
    ensures |p| == |s| || !IsHexDigit(s[|p|])
    decreases |s|
  {
    if |s| > 0 && IsHexDigit(s[0]) then [s[0]] + HexPrefix(s[1..]) else []
  }

  /** Base-16 value of a run of hex digits. */
  function HexValue(p: string): (n: nat)
    requires forall i :: 0 <= i < |p| ==> IsHexDigit(p[i])
    decreases |p|
  {
    if |p| == 0 then 0 else 16 * HexValue(p[..|p| - 1]) + HexDigitValue(p[|p| - 1])
  }

  /**
   * `parseInt(s, 16)`: leading white space, an optional sign and an optional
   * `0x`/`0X` prefix are skipped, then the longest run of hex digits is read;
   * `None` is `NaN`, returned when that run is empty.
   */
  function ParseIntHex(s: string): (r: Option<int>)
    ensures r.Some? ==> exists i :: 0 <= i < |s| && IsHexDigit(s[i])
  {
    var t := TrimStart(s);
    var negative := |t| > 0 && t[0] == '-';
    var u := if |t| > 0 && (t[0] == '-' || t[0] == '+') then t[1..] else t;
    var w := if |u| >= 2 && u[0] == '0' && (u[1] == 'x' || u[1] == 'X') then u[2..] else u;
    var digits := HexPrefix(w);
    if |digits| == 0 then None
    else
      assert w[0] == digits[0] && IsHexDigit(w[0]);
      assert s[|s| - |w|] == w[0];
      Some(if negative then -(HexValue(digits) as int) else HexValue(digits))
  }

  /** `s.slice(a, b)` for non-negative bounds: out-of-range bounds are clamped to the length. */
  function Slice(s: string, a: nat, b: nat): (r: string)
    ensures a <= b <= |s| ==> r == s[a..b]
  {
    var lo := if a < |s| then a else |s|;
    var hi := if b < |s| then b else |s|;
    if lo <= hi then s[lo..hi] else []
  }

  /** Two lower-case hex digits for a byte. */
  function HexByte(n: nat): (h: string)
    requires n < 256
    ensures |h| == 2 && IsHexDigit(h[0]) && IsHexDigit(h[1])
  {
    [HexChar(n / 16), HexChar(n % 16)]
  }

  lemma ParseHexByte(n: nat)
    requires n < 256
    ensures ParseIntHex(HexByte(n)) == Some(n)
  {
    var h := HexByte(n);
    assert !IsSpace(h[0]);
    assert TrimStart(h) == h;
    assert HexPrefix(h[1..]) == [h[1]];
    assert HexPrefix(h) == h;
    assert h[..1] == [h[0]];
    assert HexValue(h) == 16 * HexValue([h[0]]) + HexDigitValue(h[1]);
    assert HexValue([h[0]]) == n / 16;
  }

  /** `getContrastColor(hex)`: black text on light colours, white on dark ones and on unparsable input. */
  function ContrastColor(hex: string): (c: string)
    ensures c == "#000" || c == "#fff"
  {
    var r := ParseIntHex(Slice(hex, 1, 3));
    var g := ParseIntHex(Slice(hex, 3, 5));
    var b := ParseIntHex(Slice(hex, 5, 7));
    if r.Some? && g.Some? && b.Some?
       && (0.299 * r.value as real + 0.587 * g.value as real + 0.114 * b.value as real) / 255.0 > 0.5
    then "#000"
    else "#fff"
  }

  /** `#rrggbb` gets black text iff its weighted luminance 299r + 587g + 114b exceeds half of 255000. */
  lemma ContrastOfRgb(r: nat, g: nat, b: nat)
    requires r < 256 && g < 256 && b < 256
    ensures ContrastColor("#" + HexByte(r) + HexByte(g) + HexByte(b))
         == if 299 * r + 587 * g + 114 * b > 127500 then "#000" else "#fff"
  {
    var hex := "#" + HexByte(r) + HexByte(g) + HexByte(b);
    assert Slice(hex, 1, 3) == HexByte(r);
    assert Slice(hex, 3, 5) == HexByte(g);
    assert Slice(hex, 5, 7) == HexByte(b);
    ParseHexByte(r);
    ParseHexByte(g);
    ParseHexByte(b);
  }

  lemma WhiteGetsBlackText()
    ensures ContrastColor("#ffffff") == "#000"
  {
    var hex := "#ffffff";
    assert HexByte(255) == "ff" by {
      assert 255 / 16 == 15 && 255 % 16 == 15;
      assert HexChar(15) == 'f';
    }
    ParseHexByte(255);
    SlicesOfRepeatedByte('f');
  }

  lemma BlackGetsWhiteText()
    ensures ContrastColor("#000000") == "#fff"
  {
    var hex := "#000000";
    assert HexByte(0) == "00" by {
      assert HexChar(0) == '0';
    }
    ParseHexByte(0);
    SlicesOfRepeatedByte('0');
  }

  /** The three channel slices of `#cccccc` are each `cc`. */
  lemma SlicesOfRepeatedByte(c: char)
    ensures var hex := ['#', c, c, c, c, c, c];
      Slice(hex, 1, 3) == [c, c] && Slice(hex, 3, 5) == [c, c] && Slice(hex, 5, 7) == [c, c]
  {
    var hex := ['#', c, c, c, c, c, c];
    assert hex[1..3] == [c, c];
    assert hex[3..5] == [c, c];
    assert hex[5..7] == [c, c];
  }

  /** `isCssVar(val)` */
  predicate IsCssVar(val: string) {
    StartsWith(val, "var(")
  }

  /** Where `var\((--[^)]+)\)` matches at `i`: the index of the closing parenthesis. */
  function MatchAt(s: string, i: nat): (close: Option<nat>)
    requires i <= |s|
    ensures close.Some? ==> i + 6 < close.value < |s| && s[i..i + 6] == "var(--" && s[close.value] == ')'
    ensures close.Some? ==> forall j :: i + 6 <= j < close.value ==> s[j] != ')'
  {
    if i + 6 <= |s| && s[i..i + 6] == "var(--" then
      var j := IndexOfFrom(s, ')', i + 6);
      if i + 6 < j < |s| then Some(j) else None
    else None
  }

  /** The leftmost match at or after `from`: its start and closing parenthesis. */
  function FirstMatchFrom(s: string, from: nat): (m: Option<(nat, nat)>)
    requires from <= |s|
    ensures m.Some? ==> from <= m.value.0 <= |s| && MatchAt(s, m.value.0) == Some(m.value.1)
    ensures m.Some? ==> forall i :: from <= i < m.value.0 ==> MatchAt(s, i).None?
    ensures m.None? ==> forall i :: from <= i <= |s| ==> MatchAt(s, i).None?
    decreases |s| - from
  {
    var here := MatchAt(s, from);
    if here.Some? then Some((from, here.value))
    else if from == |s| then None
    else FirstMatchFrom(s, from + 1)
  }

  /** The capture group `--name` of the leftmost `var(--name)`. */
  function VarName(s: string): (name: Option<string>)
    ensures name.Some? ==> |name.value| >= 3 && name.value[..2] == "--" && ')' !in name.value
  {
    var m := FirstMatchFrom(s, 0);
    if m.None? then None
    else
      var i := m.value.0;
      var close := m.value.1;
      assert MatchAt(s, i) == Some(close);
      var g := s[i + 4..close];
      assert forall j :: 0 <= j < |g| ==> g[j] == s[i + 4 + j];
      assert g[..2] == s[i + 4..i + 6];
      Some(g)
  }

  /**
   * `resolveCssVariable(cssVar)`, given the document's computed custom
   * properties as `propertyValue`: the trimmed value, or `None` when there is
   * no `var(--...)` or the value is empty.
   */
  function ResolveCssVariable(cssVar: string, propertyValue: string -> string): (r: Option<string>)
    ensures r.Some? ==> VarName(cssVar).Some? && r.value == Trim(propertyValue(VarName(cssVar).value))
    ensures r.Some? ==> r.value != "" && !IsSpace(r.value[0]) && !IsSpace(r.value[|r.value| - 1])
    ensures VarName(cssVar).Some? && Trim(propertyValue(VarName(cssVar).value)) != "" ==> r.Some?
  {
    match VarName(cssVar)
    case None => None
    case Some(name) =>
      var v := Trim(propertyValue(name));
      if v == "" then None else Some(v)
  }

  /** `getResolvedColor(val)` */
  function ResolvedColor(val: string, propertyValue: string -> string): (c: string)
    ensures !IsCssVar(val) ==> c == val
    ensures IsCssVar(val) && ResolveCssVariable(val, propertyValue).None? ==> c == "#000000"
    ensures IsCssVar(val) && ResolveCssVariable(val, propertyValue).Some? ==> c == ResolveCssVariable(val, propertyValue).value
  {
    if IsCssVar(val) then ResolveCssVariable(val, propertyValue).GetOr("#000000") else val
  }

  /** Without a closing parenthesis there is no match, and a variable falls back to black. */
  lemma NoCloseParenFallsBack(val: string, propertyValue: string -> string)
    requires IsCssVar(val) && ')' !in val
    ensures ResolvedColor(val, propertyValue) == "#000000"
  {
  }

  /** A lone `var(--name)` reads the property `--name`. */
  lemma SimpleVarName(name: string)
    requires |name| >= 3 && name[..2] == "--" && ')' !in name
    ensures VarName("var(" + name + ")") == Some(name)
  {
    var s := "var(" + name + ")";
    assert s[0..6] == "var(--";
    IndexOfFirst(s[..|s| - 1], ')', []);
    assert s[..|s| - 1] + [')'] + [] == s;
    assert forall j :: 6 <= j < |s| - 1 ==> s[j] == name[j - 4];
    assert MatchAt(s, 0) == Some(|s| - 1);
    assert s[4..|s| - 1] == name;
  }
}
