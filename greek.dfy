/**
 * The Greek-to-Latin transliterator (the "greek-transliteration" package as
 * vendored): schema defaults, the orthographic rules applied per word, and
 * the final letter-by-letter mapping.
 */
module GreekTransliteration {
  import opened Wrappers
  import opened Strings

  // ---- Schema ----

  /** The 24 letters, by their position in the Greek alphabet. */
  type LetterIndex = i: nat | i < 24

  const Alpha: LetterIndex := 0
  const Gamma: LetterIndex := 2
  const Epsilon: LetterIndex := 4
  const Eta: LetterIndex := 6
  const Iota: LetterIndex := 8
  const Kappa: LetterIndex := 9
  const Xi: LetterIndex := 13
  const Omicron: LetterIndex := 14
  const Rho: LetterIndex := 16
  const Upsilon: LetterIndex := 19
  const Chi: LetterIndex := 21

  /** The schema keys. */
  datatype Key =
    | Capital(letter: LetterIndex)
    | Small(letter: LetterIndex)
    | SmallFinalSigma
    | GammaNasal(capital: bool)
    | DoubleRho(capital: bool)
    | UpsilonDiphthong(capital: bool)
    | RoughBreathingMark

  const SblSmall: seq<string> :=
    ["a", "b", "g", "d", "e", "z", "ē", "th", "i", "k", "l", "m",
     "n", "x", "o", "p", "r", "s", "t", "y", "ph", "ch", "ps", "ō"]

  const SblCapital: seq<string> :=
    ["A", "B", "G", "D", "E", "Z", "Ē", "TH", "I", "K", "L", "M",
     "N", "X", "O", "P", "R", "S", "T", "Y", "PH", "CH", "PS", "Ō"]

  /** The SBL default for every key. */
  function SblDefault(k: Key): string {
    match k
    case Capital(l) => SblCapital[l]
    case Small(l) => SblSmall[l]
    case SmallFinalSigma => "s"
    case GammaNasal(capital) => if capital then "N" else "n"
    case DoubleRho(capital) => if capital then "RRH" else "rrh"
    case UpsilonDiphthong(capital) => if capital then "U" else "u"
    case RoughBreathingMark => "h"
  }

  /** The values a schema maps keys to, and whether capitals are kept. */
  datatype Schema = Schema(value: Key -> string, preserveCapitals: bool)

  /** What a caller may pass: overriding values and the capitals switch. */
  datatype SchemaOptions = SchemaOptions(overrides: map<Key, string>, preserveCapitals: Option<bool>)

  const NoOptions := SchemaOptions(map[], None)

  /** `new SBL(options)`: a non-empty override wins, otherwise the SBL default; capitals are kept by default. */
  function Sbl(o: SchemaOptions): (s: Schema)
    ensures forall k :: s.value(k) != ""
    ensures s.preserveCapitals == o.preserveCapitals.GetOr(true)
  {
    Schema(k => if k in o.overrides && o.overrides[k] != "" then o.overrides[k] else SblDefault(k),
           o.preserveCapitals.GetOr(true))
  }

  // ---- The letter map ----

  /** The schema key of a Greek letter, or `None` for every other character. */
  function LetterKey(c: char): (k: Option<Key>)
    ensures k.Some? <==> ('Α' <= c <= 'Ω' && c != '\U{03A2}') || 'α' <= c <= 'ω'
  {
    if 'Α' <= c <= 'Ρ' then Some(Capital((c as int - 'Α' as int) as LetterIndex))
    else if 'Σ' <= c <= 'Ω' then Some(Capital((c as int - 'Α' as int - 1) as LetterIndex))
    else if 'α' <= c <= 'ρ' then Some(Small((c as int - 'α' as int) as LetterIndex))
    else if c == 'ς' then Some(SmallFinalSigma)
    else if 'σ' <= c <= 'ω' then Some(Small((c as int - 'α' as int - 1) as LetterIndex))
    else None
  }

  function MapChar(c: char, schema: Schema): string {
    match LetterKey(c)
    case Some(k) => schema.value(k)
    case None => [c]
  }

  /** `mapChars(text, schema)` */
  function MapChars(s: string, schema: Schema): string
    decreases |s|
  {
    if |s| == 0 then [] else MapChars(s[..|s| - 1], schema) + MapChar(s[|s| - 1], schema)
  }

  lemma {:induction false} MapCharsConcat(a: string, b: string, schema: Schema)
    ensures MapChars(a + b, schema) == MapChars(a, schema) + MapChars(b, schema)
    decreases |b|
  {
    if |b| == 0 {
      assert a + b == a;
    } else {
      assert (a + b)[..|a + b| - 1] == a + b[..|b| - 1];
      MapCharsConcat(a, b[..|b| - 1], schema);
    }
  }

  /** Text without Greek letters, such as the Latin output of earlier rules, passes through unchanged. */
  lemma {:induction false} MapCharsKeepsOthers(s: string, schema: Schema)
    requires forall i :: 0 <= i < |s| ==> LetterKey(s[i]).None?
    ensures MapChars(s, schema) == s
    decreases |s|
  {
    if |s| > 0 {
      var init, c := s[..|s| - 1], s[|s| - 1];
      assert forall i :: 0 <= i < |init| ==> init[i] == s[i];
      MapCharsKeepsOthers(init, schema);
      assert MapChar(c, schema) == [c] by {
        assert LetterKey(s[|s| - 1]).None?;
      }
      assert s == init + [c];
    }
  }

  // ---- String primitives of the rules ----

  predicate OccursAt(s: string, pat: string, i: nat) {
    i + |pat| <= |s| && s[i..i + |pat|] == pat
  }

  /** The leftmost occurrence of `pat` at or after `from`. */
  function FindFrom(s: string, pat: string, from: nat): (r: Option<nat>)
    requires from <= |s|
    ensures r.Some? ==> from <= r.value && OccursAt(s, pat, r.value)
    ensures r.Some? ==> forall j :: from <= j < r.value ==> !OccursAt(s, pat, j)
    ensures r.None? ==> forall j :: from <= j <= |s| ==> !OccursAt(s, pat, j)
    decreases |s| - from
  {
    if OccursAt(s, pat, from) then Some(from)
    else if from == |s| then None
    else FindFrom(s, pat, from + 1)
  }

  /** `s.replace(pat, rep)` for a literal pattern: the leftmost occurrence only. */
  function ReplaceFirst(s: string, pat: string, rep: string): (r: string)
    ensures FindFrom(s, pat, 0).None? ==> r == s
    ensures FindFrom(s, pat, 0).Some? ==>
      var i := FindFrom(s, pat, 0).value; r == s[..i] + rep + s[i + |pat|..]
  {
    match FindFrom(s, pat, 0)
    case None => s
    case Some(i) => s[..i] + rep + s[i + |pat|..]
  }

  /** `s.split(c).join('')` */
  function RemoveAll(s: string, c: char): (r: string)
    ensures c !in r
    ensures |r| <= |s|
    decreases |s|
  {
    if |s| == 0 then [] else if s[0] == c then RemoveAll(s[1..], c) else [s[0]] + RemoveAll(s[1..], c)
  }

  /** `s.substring(a, b)`: negative bounds count as 0, bounds past the end as the length, and the bounds are swapped if reversed. */
  function Substring(s: string, a: int, b: int): (r: string)
    ensures 0 <= a <= b <= |s| ==> r == s[a..b]
  {
    var lo := if a < 0 then 0 else if a > |s| then |s| else a;
    var hi := if b < 0 then 0 else if b > |s| then |s| else b;
    if lo <= hi then s[lo..hi] else s[hi..lo]
  }

  const Diaeresis: char := '\U{0308}'
  const RoughBreathing: char := '\U{0314}'

  // ---- The rules ----

  /** `gammaNasalRules`: the first γγ, γκ, γξ and γχ each get a nasal; with capitals, also ΓΓ, ΓΚ, ΓΞ, ΓΧ. */
  function GammaNasalRules(word: string, s: Schema, checkCapitals: bool): string {
    var v := s.value;
    var w := ReplaceFirst(word, "γγ", v(GammaNasal(false)) + v(Small(Gamma)));
    var w := ReplaceFirst(w, "γκ", v(GammaNasal(false)) + v(Small(Kappa)));
    var w := ReplaceFirst(w, "γξ", v(GammaNasal(false)) + v(Small(Xi)));
    var w := ReplaceFirst(w, "γχ", v(GammaNasal(false)) + v(Small(Chi)));
    if checkCapitals then
      var w := ReplaceFirst(w, "ΓΓ", v(GammaNasal(true)) + v(Capital(Gamma)));
      var w := ReplaceFirst(w, "ΓΚ", v(GammaNasal(true)) + v(Capital(Kappa)));
      var w := ReplaceFirst(w, "ΓΞ", v(GammaNasal(true)) + v(Capital(Xi)));
      ReplaceFirst(w, "ΓΧ", v(GammaNasal(true)) + v(Capital(Chi)))
    else w
  }

  /**
   * `rhoRules` as written: on finding ΡΡ it replaces the first Ρ of the word,
   * so the pair keeps its second Ρ.
   */
  function RhoRulesAsWritten(word: string, s: Schema, checkCapitals: bool): string {
    var v := s.value;
    var w := ReplaceFirst(word, ['ρ', RoughBreathing], v(Small(Rho)) + v(RoughBreathingMark));
    var w := ReplaceFirst(w, "ρρ", v(DoubleRho(false)));
    if checkCapitals then
      var w := ReplaceFirst(w, ['Ρ', RoughBreathing], v(Capital(Rho)) + v(RoughBreathingMark));
      if FindFrom(w, "ΡΡ", 0).Some? then ReplaceFirst(w, "Ρ", v(DoubleRho(true))) else w
    else w
  }

  /** `rhoRules` as evidently intended: the capital pair ΡΡ is replaced like the small pair ρρ. */
  function RhoRules(word: string, s: Schema, checkCapitals: bool): string {
    var v := s.value;
    var w := ReplaceFirst(word, ['ρ', RoughBreathing], v(Small(Rho)) + v(RoughBreathingMark));
    var w := ReplaceFirst(w, "ρρ", v(DoubleRho(false)));
    if checkCapitals then
      var w := ReplaceFirst(w, ['Ρ', RoughBreathing], v(Capital(Rho)) + v(RoughBreathingMark));
      ReplaceFirst(w, "ΡΡ", v(DoubleRho(true)))
    else w
  }

  /** `diphtongRules`: the first αυ, ευ, ηυ, ου get the diphthong u, and υι becomes u + i; likewise for capitals. */
  function DiphthongRules(word: string, s: Schema, checkCapitals: bool): string {
    var v := s.value;
    var u := v(UpsilonDiphthong(false));
    var w := ReplaceFirst(word, "αυ", v(Small(Alpha)) + u);
    var w := ReplaceFirst(w, "ευ", v(Small(Epsilon)) + u);
    var w := ReplaceFirst(w, "ηυ", v(Small(Eta)) + u);
    var w := ReplaceFirst(w, "ου", v(Small(Omicron)) + u);
    var w := ReplaceFirst(w, "υι", u + v(Small(Iota)));
    if checkCapitals then
      var cu := v(UpsilonDiphthong(true));
      var w := ReplaceFirst(w, "ΑΥ", v(Capital(Alpha)) + cu);
      var w := ReplaceFirst(w, "ΕΥ", v(Capital(Epsilon)) + cu);
      var w := ReplaceFirst(w, "ΗΥ", v(Capital(Eta)) + cu);
      var w := ReplaceFirst(w, "ΟΥ", v(Capital(Omicron)) + cu);
      ReplaceFirst(w, "ΥΙ", cu + v(Capital(Iota)))
    else w
  }

  /** `/γ/i`, `/ρ/i`, `/υ/i`: the characters whose upper case is the capital letter. */
  predicate HasGamma(w: string) { exists i :: 0 <= i < |w| && (w[i] == 'γ' || w[i] == 'Γ') }
  predicate HasRho(w: string) { exists i :: 0 <= i < |w| && (w[i] == 'ρ' || w[i] == 'Ρ' || w[i] == 'ϱ') }
  predicate HasUpsilon(w: string) { exists i :: 0 <= i < |w| && (w[i] == 'υ' || w[i] == 'Υ') }

  /** `changeElementSubstr(word, pos, '̈')`: the diaeresis is moved in front of the letter before it. */
  function MoveDiaeresis(word: string, pos: int): string {
    Substring(word, 0, pos - 1) + [Diaeresis] + Substring(word, pos - 1, pos) + Substring(word, pos + 1, |word|)
  }

  /** The orthographic rules and the letter map applied to one word, with a given rho rule. */
  function RulesWith(word: string, s: Schema, rho: (string, Schema, bool) -> string): string {
    var w := if HasGamma(word) then GammaNasalRules(word, s, s.preserveCapitals) else word;
    var w := if HasRho(w) then rho(w, s, s.preserveCapitals) else w;
    MarkAndDiphthongRules(w, s)
  }

  /** The steps of `rules` after the rho rule: the diaeresis, the rough breathing, the diphthongs and the letter map. */
  function MarkAndDiphthongRules(w: string, s: Schema): string {
    var diaeresisAt := FindFrom(w, [Diaeresis], 0);
    var w := if diaeresisAt.Some? then MoveDiaeresis(w, diaeresisAt.value) else w;
    var w := if RoughBreathing in w then s.value(RoughBreathingMark) + RemoveAll(w, RoughBreathing) else w;
    var w := if HasUpsilon(w) then DiphthongRules(w, s, s.preserveCapitals) else w;
    var w := if diaeresisAt.Some? then ReplaceFirst(w, [Diaeresis], []) else w;
    MapChars(w, s)
  }

  /** `rules(word, schema)`, with the rho rule as written. */
  function RulesAsWritten(word: string, s: Schema): string {
    RulesWith(word, s, RhoRulesAsWritten)
  }

  /** `rules(word, schema)`, with the corrected rho rule. */
  function Rules(word: string, s: Schema): string {
    RulesWith(word, s, RhoRules)
  }

  // ---- Whole texts ----

  /** The combining marks left by NFKD decomposition that carry no transliteration. */
  predicate IsUnusedMark(c: char) {
    c == '\U{00B7}' || c == '\U{0300}' || c == '\U{0301}' || c == '\U{0304}' || c == '\U{0306}'
    || c == '\U{0313}' || c == '\U{0342}' || c == '\U{0345}'
  }

  function RemoveUnusedMarks(s: string): (r: string)
    ensures forall i :: 0 <= i < |r| ==> !IsUnusedMark(r[i])
    ensures forall i :: 0 <= i < |s| && !IsUnusedMark(s[i]) ==> s[i] in r
    decreases |s|
  {
    if |s| == 0 then []
    else if IsUnusedMark(s[0]) then RemoveUnusedMarks(s[1..])
    else
      var rest := RemoveUnusedMarks(s[1..]);
      assert forall i :: 1 <= i < |s| ==> s[i] == s[1..][i - 1];
      [s[0]] + rest
  }

  /** The rules applied to every word, with a given rho rule. */
  function MapWords(words: seq<string>, s: Schema, rho: (string, Schema, bool) -> string): (r: seq<string>)
    ensures |r| == |words| && forall i :: 0 <= i < |words| ==> r[i] == RulesWith(words[i], s, rho)
  {
    seq(|words|, i requires 0 <= i < |words| => RulesWith(words[i], s, rho))
  }

  /** The normalised, sanitised and case-folded text that is split into words. */
  function Prepared(text: string, s: Schema, nfkd: string -> string, toLower: string -> string): string {
    var sanitized := RemoveUnusedMarks(nfkd(text));
    if s.preserveCapitals then sanitized else toLower(sanitized)
  }

  /** The transliteration of a whole text, with a given rho rule. */
  function TransliterateWith(text: string, o: SchemaOptions, nfkd: string -> string, toLower: string -> string,
                             rho: (string, Schema, bool) -> string): string {
    var s := Sbl(o);
    Join(MapWords(Split(Prepared(text, s, nfkd, toLower), ' '), s, rho), " ")
  }

  /**
   * `transliterate(text, options)`, given Unicode NFKD normalisation and
   * lower-casing: every space-separated word is rewritten on its own, with the
   * rho rule as written.
   */
  function Transliterate(text: string, o: SchemaOptions, nfkd: string -> string, toLower: string -> string): string {
    TransliterateWith(text, o, nfkd, toLower, RhoRulesAsWritten)
  }

  /** `transliterate` with the corrected rho rule. */
  function TransliterateCorrected(text: string, o: SchemaOptions, nfkd: string -> string, toLower: string -> string): string {
    TransliterateWith(text, o, nfkd, toLower, RhoRules)
  }

  /** `greekRomanization(text)`: the SBL defaults, capitals kept. */
  function GreekRomanization(text: string, nfkd: string -> string): string {
    Transliterate(text, NoOptions, nfkd, t => t)
  }

  /** `greekRomanization` with the corrected rho rule. */
  function GreekRomanizationCorrected(text: string, nfkd: string -> string): string {
    TransliterateCorrected(text, NoOptions, nfkd, t => t)
  }

  // ---- Properties ----

  ghost predicate NoSpace(s: string) {
    forall i :: 0 <= i < |s| ==> s[i] != ' '
  }

  ghost predicate SchemaNoSpace(s: Schema) {
    forall k :: NoSpace(s.value(k))
  }

  lemma ReplaceFirstNoSpace(w: string, pat: string, rep: string)
    requires NoSpace(w) && NoSpace(rep)
    ensures NoSpace(ReplaceFirst(w, pat, rep))
  {
    var m := FindFrom(w, pat, 0);
    if m.Some? {
      var i := m.value;
      var r := w[..i] + rep + w[i + |pat|..];
      forall j | 0 <= j < |r| ensures r[j] != ' ' {
        if j < i {
          assert r[j] == w[j];
        } else if j >= i + |rep| {
          assert r[j] == w[j - i - |rep| + i + |pat|];
        }
      }
    }
  }

  lemma {:induction false} RemoveAllNoSpace(w: string, c: char)
    requires NoSpace(w)
    ensures NoSpace(RemoveAll(w, c))
    decreases |w|
  {
    if |w| > 0 {
      RemoveAllNoSpace(w[1..], c);
    }
  }

  lemma {:induction false} MapCharsNoSpace(w: string, s: Schema)
    requires NoSpace(w) && SchemaNoSpace(s)
    ensures NoSpace(MapChars(w, s))
    decreases |w|
  {
    if |w| > 0 {
      MapCharsNoSpace(w[..|w| - 1], s);
      var k := LetterKey(w[|w| - 1]);
      if k.Some? {
        assert NoSpace(s.value(k.value));
      }
    }
  }

  lemma SubstringNoSpace(w: string, a: int, b: int)
    requires NoSpace(w)
    ensures NoSpace(Substring(w, a, b))
  {
  }

  lemma GammaNoSpace(w: string, s: Schema, capitals: bool)
    requires NoSpace(w) && SchemaNoSpace(s)
    ensures NoSpace(GammaNasalRules(w, s, capitals))
  {
    var v := s.value;
    assert NoSpace(v(GammaNasal(false)) + v(Small(Gamma))) && NoSpace(v(GammaNasal(false)) + v(Small(Kappa)));
    assert NoSpace(v(GammaNasal(false)) + v(Small(Xi))) && NoSpace(v(GammaNasal(false)) + v(Small(Chi)));
    var w1 := ReplaceFirst(w, "γγ", v(GammaNasal(false)) + v(Small(Gamma)));
    ReplaceFirstNoSpace(w, "γγ", v(GammaNasal(false)) + v(Small(Gamma)));
    var w2 := ReplaceFirst(w1, "γκ", v(GammaNasal(false)) + v(Small(Kappa)));
    ReplaceFirstNoSpace(w1, "γκ", v(GammaNasal(false)) + v(Small(Kappa)));
    var w3 := ReplaceFirst(w2, "γξ", v(GammaNasal(false)) + v(Small(Xi)));
    ReplaceFirstNoSpace(w2, "γξ", v(GammaNasal(false)) + v(Small(Xi)));
    var w4 := ReplaceFirst(w3, "γχ", v(GammaNasal(false)) + v(Small(Chi)));
    ReplaceFirstNoSpace(w3, "γχ", v(GammaNasal(false)) + v(Small(Chi)));
    if capitals {
      assert NoSpace(v(GammaNasal(true)) + v(Capital(Gamma))) && NoSpace(v(GammaNasal(true)) + v(Capital(Kappa)));
      assert NoSpace(v(GammaNasal(true)) + v(Capital(Xi))) && NoSpace(v(GammaNasal(true)) + v(Capital(Chi)));
      var c1 := ReplaceFirst(w4, "ΓΓ", v(GammaNasal(true)) + v(Capital(Gamma)));
      ReplaceFirstNoSpace(w4, "ΓΓ", v(GammaNasal(true)) + v(Capital(Gamma)));
      var c2 := ReplaceFirst(c1, "ΓΚ", v(GammaNasal(true)) + v(Capital(Kappa)));
      ReplaceFirstNoSpace(c1, "ΓΚ", v(GammaNasal(true)) + v(Capital(Kappa)));
      var c3 := ReplaceFirst(c2, "ΓΞ", v(GammaNasal(true)) + v(Capital(Xi)));
      ReplaceFirstNoSpace(c2, "ΓΞ", v(GammaNasal(true)) + v(Capital(Xi)));
      ReplaceFirstNoSpace(c3, "ΓΧ", v(GammaNasal(true)) + v(Capital(Chi)));
    }
  }

  lemma RhoNoSpace(w: string, s: Schema, capitals: bool)
    requires NoSpace(w) && SchemaNoSpace(s)
    ensures NoSpace(RhoRules(w, s, capitals))
  {
    var v := s.value;
    assert NoSpace(v(Small(Rho)) + v(RoughBreathingMark)) && NoSpace(v(DoubleRho(false)));
    var w1 := ReplaceFirst(w, ['ρ', RoughBreathing], v(Small(Rho)) + v(RoughBreathingMark));
    ReplaceFirstNoSpace(w, ['ρ', RoughBreathing], v(Small(Rho)) + v(RoughBreathingMark));
    var w2 := ReplaceFirst(w1, "ρρ", v(DoubleRho(false)));
    ReplaceFirstNoSpace(w1, "ρρ", v(DoubleRho(false)));
    if capitals {
      assert NoSpace(v(Capital(Rho)) + v(RoughBreathingMark)) && NoSpace(v(DoubleRho(true)));
      var c1 := ReplaceFirst(w2, ['Ρ', RoughBreathing], v(Capital(Rho)) + v(RoughBreathingMark));
      ReplaceFirstNoSpace(w2, ['Ρ', RoughBreathing], v(Capital(Rho)) + v(RoughBreathingMark));
      ReplaceFirstNoSpace(c1, "ΡΡ", v(DoubleRho(true)));
    }
  }

  lemma RhoAsWrittenNoSpace(w: string, s: Schema, capitals: bool)
    requires NoSpace(w) && SchemaNoSpace(s)
    ensures NoSpace(RhoRulesAsWritten(w, s, capitals))
  {
    var v := s.value;
    assert NoSpace(v(Small(Rho)) + v(RoughBreathingMark)) && NoSpace(v(DoubleRho(false)));
    var w1 := ReplaceFirst(w, ['ρ', RoughBreathing], v(Small(Rho)) + v(RoughBreathingMark));
    ReplaceFirstNoSpace(w, ['ρ', RoughBreathing], v(Small(Rho)) + v(RoughBreathingMark));
    var w2 := ReplaceFirst(w1, "ρρ", v(DoubleRho(false)));
    ReplaceFirstNoSpace(w1, "ρρ", v(DoubleRho(false)));
    if capitals {
      assert NoSpace(v(Capital(Rho)) + v(RoughBreathingMark)) && NoSpace(v(DoubleRho(true)));
      var c1 := ReplaceFirst(w2, ['Ρ', RoughBreathing], v(Capital(Rho)) + v(RoughBreathingMark));
      ReplaceFirstNoSpace(w2, ['Ρ', RoughBreathing], v(Capital(Rho)) + v(RoughBreathingMark));
      ReplaceFirstNoSpace(c1, "Ρ", v(DoubleRho(true)));
    }
  }

  lemma DiphthongNoSpace(w: string, s: Schema, capitals: bool)
    requires NoSpace(w) && SchemaNoSpace(s)
    ensures NoSpace(DiphthongRules(w, s, capitals))
  {
    var v := s.value;
    var u := v(UpsilonDiphthong(false));
    assert NoSpace(v(Small(Alpha)) + u) && NoSpace(v(Small(Epsilon)) + u) && NoSpace(v(Small(Eta)) + u);
    assert NoSpace(v(Small(Omicron)) + u) && NoSpace(u + v(Small(Iota)));
    var w1 := ReplaceFirst(w, "αυ", v(Small(Alpha)) + u);
    ReplaceFirstNoSpace(w, "αυ", v(Small(Alpha)) + u);
    var w2 := ReplaceFirst(w1, "ευ", v(Small(Epsilon)) + u);
    ReplaceFirstNoSpace(w1, "ευ", v(Small(Epsilon)) + u);
    var w3 := ReplaceFirst(w2, "ηυ", v(Small(Eta)) + u);
    ReplaceFirstNoSpace(w2, "ηυ", v(Small(Eta)) + u);
    var w4 := ReplaceFirst(w3, "ου", v(Small(Omicron)) + u);
    ReplaceFirstNoSpace(w3, "ου", v(Small(Omicron)) + u);
    var w5 := ReplaceFirst(w4, "υι", u + v(Small(Iota)));
    ReplaceFirstNoSpace(w4, "υι", u + v(Small(Iota)));
    if capitals {
      var cu := v(UpsilonDiphthong(true));
      assert NoSpace(v(Capital(Alpha)) + cu) && NoSpace(v(Capital(Epsilon)) + cu) && NoSpace(v(Capital(Eta)) + cu);
      assert NoSpace(v(Capital(Omicron)) + cu) && NoSpace(cu + v(Capital(Iota)));
      var c1 := ReplaceFirst(w5, "ΑΥ", v(Capital(Alpha)) + cu);
      ReplaceFirstNoSpace(w5, "ΑΥ", v(Capital(Alpha)) + cu);
      var c2 := ReplaceFirst(c1, "ΕΥ", v(Capital(Epsilon)) + cu);
      ReplaceFirstNoSpace(c1, "ΕΥ", v(Capital(Epsilon)) + cu);
      var c3 := ReplaceFirst(c2, "ΗΥ", v(Capital(Eta)) + cu);
      ReplaceFirstNoSpace(c2, "ΗΥ", v(Capital(Eta)) + cu);
      var c4 := ReplaceFirst(c3, "ΟΥ", v(Capital(Omicron)) + cu);
      ReplaceFirstNoSpace(c3, "ΟΥ", v(Capital(Omicron)) + cu);
      ReplaceFirstNoSpace(c4, "ΥΙ", cu + v(Capital(Iota)));
    }
  }

  lemma MarkAndDiphthongNoSpace(w2: string, s: Schema)
    requires NoSpace(w2) && SchemaNoSpace(s)
    ensures NoSpace(MarkAndDiphthongRules(w2, s))
  {
    var at := FindFrom(w2, [Diaeresis], 0);
    var w3 := if at.Some? then MoveDiaeresis(w2, at.value) else w2;
    if at.Some? {
      SubstringNoSpace(w2, 0, at.value as int - 1);
      SubstringNoSpace(w2, at.value as int - 1, at.value);
      SubstringNoSpace(w2, at.value + 1, |w2|);
    }
    assert NoSpace(w3);
    var w4 := if RoughBreathing in w3 then s.value(RoughBreathingMark) + RemoveAll(w3, RoughBreathing) else w3;
    RemoveAllNoSpace(w3, RoughBreathing);
    assert NoSpace(s.value(RoughBreathingMark));
    assert NoSpace(w4);
    var w5 := if HasUpsilon(w4) then DiphthongRules(w4, s, s.preserveCapitals) else w4;
    DiphthongNoSpace(w4, s, s.preserveCapitals);
    var w6 := if at.Some? then ReplaceFirst(w5, [Diaeresis], []) else w5;
    assert NoSpace(w5);
    ReplaceFirstNoSpace(w5, [Diaeresis], []);
    assert NoSpace(w6);
    MapCharsNoSpace(w6, s);
    assert MarkAndDiphthongRules(w2, s) == MapChars(w6, s);
  }

  /** A rho rule that never introduces a space into a word. */
  ghost predicate RhoKeepsNoSpace(rho: (string, Schema, bool) -> string, s: Schema) {
    forall w, c :: NoSpace(w) ==> NoSpace(rho(w, s, c))
  }

  lemma RulesWithNoSpace(word: string, s: Schema, rho: (string, Schema, bool) -> string)
    requires NoSpace(word) && SchemaNoSpace(s) && RhoKeepsNoSpace(rho, s)
    ensures NoSpace(RulesWith(word, s, rho))
  {
    var w1 := if HasGamma(word) then GammaNasalRules(word, s, s.preserveCapitals) else word;
    GammaNoSpace(word, s, s.preserveCapitals);
    var w2 := if HasRho(w1) then rho(w1, s, s.preserveCapitals) else w1;
    MarkAndDiphthongNoSpace(w2, s);
  }

  /** Both rho rules keep a word free of spaces, given schema values without spaces. */
  lemma RhoRulesKeepNoSpace(s: Schema)
    requires SchemaNoSpace(s)
    ensures RhoKeepsNoSpace(RhoRulesAsWritten, s) && RhoKeepsNoSpace(RhoRules, s)
  {
    forall w, c | NoSpace(w) ensures NoSpace(RhoRulesAsWritten(w, s, c)) && NoSpace(RhoRules(w, s, c)) {
      RhoAsWrittenNoSpace(w, s, c);
      RhoNoSpace(w, s, c);
    }
  }

  /**
   * The rules never introduce a space into a word, given schema values without
   * spaces: neither as written nor corrected.
   */
  lemma RulesNoSpace(word: string, s: Schema)
    requires NoSpace(word) && SchemaNoSpace(s)
    ensures NoSpace(RulesAsWritten(word, s))
    ensures NoSpace(Rules(word, s))
  {
    RhoRulesKeepNoSpace(s);
    RulesWithNoSpace(word, s, RhoRulesAsWritten);
    RulesWithNoSpace(word, s, RhoRules);
  }

  /** A pattern whose first character is absent from a word does not occur in it. */
  lemma FirstCharAbsent(w: string, pat: string)
    requires |pat| > 0 && forall i :: 0 <= i < |w| ==> w[i] != pat[0]
    ensures FindFrom(w, pat, 0).None?
  {
    var m := FindFrom(w, pat, 0);
    assert !m.Some?;
  }

  /** Schema values made of characters below the Greek block, as the SBL defaults are. */
  ghost predicate SchemaBelowGreek(s: Schema) {
    forall k :: BelowGreek(s.value(k))
  }

  /** No pattern starting with a Greek letter occurs in text below the Greek block. */
  lemma GreekPatternAbsent(w: string, pat: string)
    requires BelowGreek(w) && |pat| > 0 && pat[0] >= 'Α'
    ensures ReplaceFirst(w, pat, []) == w
    ensures forall rep :: ReplaceFirst(w, pat, rep) == w
  {
    FirstCharAbsent(w, pat);
  }

  /**
   * The gamma rule on γγ: the pair becomes the schema's nasal followed by the
   * schema's gamma, and no later gamma pattern touches the result.
   */
  lemma GammaPairNasal(s: Schema, capitals: bool)
    requires SchemaBelowGreek(s)
    ensures GammaNasalRules("γγ", s, capitals) == s.value(GammaNasal(false)) + s.value(Small(Gamma))
  {
    var v := s.value;
    var rep := v(GammaNasal(false)) + v(Small(Gamma));
    assert OccursAt("γγ", "γγ", 0);
    assert ReplaceFirst("γγ", "γγ", rep) == rep;
    assert BelowGreek(v(GammaNasal(false))) && BelowGreek(v(Small(Gamma)));
    assert BelowGreek(rep);
    GreekPatternAbsent(rep, "γκ");
    GreekPatternAbsent(rep, "γξ");
    GreekPatternAbsent(rep, "γχ");
    GreekPatternAbsent(rep, "ΓΓ");
    GreekPatternAbsent(rep, "ΓΚ");
    GreekPatternAbsent(rep, "ΓΞ");
    GreekPatternAbsent(rep, "ΓΧ");
  }

  /**
   * The diphthong rule on αυ: the pair becomes the schema's alpha followed by
   * the schema's diphthong u, and no later diphthong pattern touches the result.
   */
  lemma AlphaUpsilonDiphthong(s: Schema, capitals: bool)
    requires SchemaBelowGreek(s)
    ensures DiphthongRules("αυ", s, capitals) == s.value(Small(Alpha)) + s.value(UpsilonDiphthong(false))
  {
    var v := s.value;
    var u := v(UpsilonDiphthong(false));
    var rep := v(Small(Alpha)) + u;
    assert OccursAt("αυ", "αυ", 0);
    assert ReplaceFirst("αυ", "αυ", rep) == rep;
    assert BelowGreek(v(Small(Alpha))) && BelowGreek(u);
    assert BelowGreek(rep);
    SmallDiphthongsAbsent(rep, v, u);
    if capitals {
      CapitalDiphthongsAbsent(rep, v, v(UpsilonDiphthong(true)));
    }
  }

  lemma SmallDiphthongsAbsent(w: string, v: Key -> string, u: string)
    requires BelowGreek(w)
    ensures var w2 := ReplaceFirst(w, "ευ", v(Small(Epsilon)) + u);
      var w3 := ReplaceFirst(w2, "ηυ", v(Small(Eta)) + u);
      var w4 := ReplaceFirst(w3, "ου", v(Small(Omicron)) + u);
      ReplaceFirst(w4, "υι", u + v(Small(Iota))) == w
  {
    GreekPatternAbsent(w, "ευ");
    GreekPatternAbsent(w, "ηυ");
    GreekPatternAbsent(w, "ου");
    GreekPatternAbsent(w, "υι");
  }

  lemma CapitalDiphthongsAbsent(w: string, v: Key -> string, cu: string)
    requires BelowGreek(w)
    ensures var c1 := ReplaceFirst(w, "ΑΥ", v(Capital(Alpha)) + cu);
      var c2 := ReplaceFirst(c1, "ΕΥ", v(Capital(Epsilon)) + cu);
      var c3 := ReplaceFirst(c2, "ΗΥ", v(Capital(Eta)) + cu);
      var c4 := ReplaceFirst(c3, "ΟΥ", v(Capital(Omicron)) + cu);
      ReplaceFirst(c4, "ΥΙ", cu + v(Capital(Iota))) == w
  {
    GreekPatternAbsent(w, "ΑΥ");
    GreekPatternAbsent(w, "ΕΥ");
    GreekPatternAbsent(w, "ΗΥ");
    GreekPatternAbsent(w, "ΟΥ");
    GreekPatternAbsent(w, "ΥΙ");
  }

  /** The SBL defaults lie below the Greek block. */
  lemma SblBelowGreek()
    ensures SchemaBelowGreek(Sbl(NoOptions))
  {
    forall k ensures BelowGreek(Sbl(NoOptions).value(k)) {
      match k
      case Capital(l) => SblCapitalBelowGreek();
      case Small(l) => SblSmallBelowGreek();
      case _ =>
    }
  }

  /** A word with no diaeresis, no rough breathing and no upsilon is only letter-mapped by the later rules. */
  lemma NoMarksPassLaterRules(w: string, s: Schema)
    requires forall i :: 0 <= i < |w| ==> w[i] != Diaeresis && w[i] != RoughBreathing && w[i] != 'υ' && w[i] != 'Υ'
    ensures MarkAndDiphthongRules(w, s) == MapChars(w, s)
  {
    FirstCharAbsent(w, [Diaeresis]);
    assert RoughBreathing !in w;
    assert !HasUpsilon(w);
  }

  lemma SblNoSpace(o: SchemaOptions)
    requires forall k :: k in o.overrides ==> NoSpace(o.overrides[k])
    ensures SchemaNoSpace(Sbl(o))
  {
    forall k ensures NoSpace(Sbl(o).value(k)) {
      if !(k in o.overrides && o.overrides[k] != "") {
        SblDefaultLatin(k);
      }
    }
  }

  /** Characters below the Greek block: neither a space nor a letter the map rewrites. */
  predicate BelowGreek(t: string) {
    forall i :: 0 <= i < |t| ==> t[i] != ' ' && t[i] < 'Α'
  }

  lemma SblSmallBelowGreek()
    ensures forall m :: 0 <= m < 24 ==> BelowGreek(SblSmall[m])
  {
  }

  lemma SblCapitalBelowGreek()
    ensures forall m :: 0 <= m < 24 ==> BelowGreek(SblCapital[m])
  {
  }

  /** No SBL default contains a space or a Greek letter. */
  lemma SblDefaultLatin(k: Key)
    ensures NoSpace(SblDefault(k))
    ensures forall i :: 0 <= i < |SblDefault(k)| ==> LetterKey(SblDefault(k)[i]).None?
  {
    var t := SblDefault(k);
    assert BelowGreek(t) by {
      match k
      case Capital(l) => SblCapitalBelowGreek();
      case Small(l) => SblSmallBelowGreek();
      case _ =>
    }
    forall i | 0 <= i < |t| ensures LetterKey(t[i]).None? {
      assert t[i] < 'Α';
    }
  }

  lemma WordsIndependentWith(text: string, o: SchemaOptions, nfkd: string -> string, toLower: string -> string,
                             rho: (string, Schema, bool) -> string)
    requires forall k :: k in o.overrides ==> NoSpace(o.overrides[k])
    requires RhoKeepsNoSpace(rho, Sbl(o))
    ensures var s := Sbl(o);
      Split(TransliterateWith(text, o, nfkd, toLower, rho), ' ') == MapWords(Split(Prepared(text, s, nfkd, toLower), ' '), s, rho)
    ensures Count(TransliterateWith(text, o, nfkd, toLower, rho), ' ') == Count(Prepared(text, Sbl(o), nfkd, toLower), ' ')
  {
    var s := Sbl(o);
    var words := Split(Prepared(text, s, nfkd, toLower), ' ');
    var out := MapWords(words, s, rho);
    SblNoSpace(o);
    forall k | 0 <= k < |out| ensures ' ' !in out[k] {
      assert NoSpace(words[k]) by {
        assert ' ' !in words[k];
      }
      RulesWithNoSpace(words[k], s, rho);
    }
    JoinSplit(out, ' ');
    SplitCount(TransliterateWith(text, o, nfkd, toLower, rho), ' ');
    SplitCount(Prepared(text, s, nfkd, toLower), ' ');
  }

  /**
   * Each space-separated word is transliterated on its own: the output's words
   * are the rules applied to the input's words, so the spaces are kept; this
   * holds for the transliterator as written and for the corrected one.
   */
  lemma WordsTransliteratedIndependently(text: string, o: SchemaOptions, nfkd: string -> string, toLower: string -> string)
    requires forall k :: k in o.overrides ==> NoSpace(o.overrides[k])
    ensures var s := Sbl(o);
      Split(Transliterate(text, o, nfkd, toLower), ' ') == MapWords(Split(Prepared(text, s, nfkd, toLower), ' '), s, RhoRulesAsWritten)
    ensures Count(Transliterate(text, o, nfkd, toLower), ' ') == Count(Prepared(text, Sbl(o), nfkd, toLower), ' ')
    ensures var s := Sbl(o);
      Split(TransliterateCorrected(text, o, nfkd, toLower), ' ') == MapWords(Split(Prepared(text, s, nfkd, toLower), ' '), s, RhoRules)
  {
    SblNoSpace(o);
    RhoRulesKeepNoSpace(Sbl(o));
    WordsIndependentWith(text, o, nfkd, toLower, RhoRulesAsWritten);
    WordsIndependentWith(text, o, nfkd, toLower, RhoRules);
  }

  /** Under the SBL defaults the letter map is idempotent: its output has no Greek letters left. */
  lemma {:induction false} MapCharsIdempotent(w: string)
    ensures MapChars(MapChars(w, Sbl(NoOptions)), Sbl(NoOptions)) == MapChars(w, Sbl(NoOptions))
    decreases |w|
  {
    var s := Sbl(NoOptions);
    if |w| > 0 {
      var init, c := w[..|w| - 1], w[|w| - 1];
      MapCharsIdempotent(init);
      MapCharsConcat(MapChars(init, s), MapChar(c, s), s);
      var k := LetterKey(c);
      if k.Some? {
        SblDefaultLatin(k.value);
      }
      MapCharsKeepsOthers(MapChar(c, s), s);
    }
  }

  /** A word with a rho and no gamma goes through the rho rule and then the later rules. */
  lemma RhoOnlyWord(word: string, s: Schema, rho: (string, Schema, bool) -> string)
    requires !HasGamma(word) && HasRho(word)
    ensures RulesWith(word, s, rho) == MarkAndDiphthongRules(rho(word, s, s.preserveCapitals), s)
  {
  }

  /** Capital Latin letters carry no mark, no upsilon and no Greek letter. */
  lemma CapitalLatinPlain(t: string)
    requires forall i :: 0 <= i < |t| ==> 'A' <= t[i] <= 'Z'
    ensures forall i :: 0 <= i < |t| ==> LetterKey(t[i]).None?
    ensures forall i :: 0 <= i < |t| ==> t[i] != Diaeresis && t[i] != RoughBreathing && t[i] != 'υ' && t[i] != 'Υ'
  {
  }

  lemma CapitalRRH()
    ensures forall i :: 0 <= i < |"RRH"| ==> 'A' <= "RRH"[i] <= 'Z'
  {
  }

  lemma LeftoverRhoUnmarked()
    ensures forall i :: 0 <= i < |"RRHΡ"| ==> "RRHΡ"[i] != Diaeresis && "RRHΡ"[i] != RoughBreathing && "RRHΡ"[i] != 'υ' && "RRHΡ"[i] != 'Υ'
  {
  }

  lemma RhoAsWrittenOnCapitalPair()
    ensures RhoRulesAsWritten("ΡΡ", Sbl(NoOptions), true) == "RRHΡ"
  {
    var w := "ΡΡ";
    FirstCharAbsent(w, ['ρ', RoughBreathing]);
    FirstCharAbsent(w, "ρρ");
    assert FindFrom(w, ['Ρ', RoughBreathing], 0).None? by {
      assert w[0..2][1] == 'Ρ' != RoughBreathing;
      assert !OccursAt(w, ['Ρ', RoughBreathing], 0);
      assert !OccursAt(w, ['Ρ', RoughBreathing], 1);
    }
    assert OccursAt(w, "ΡΡ", 0);
    assert OccursAt(w, "Ρ", 0);
  }

  /** As written, the capital pair ΡΡ comes out as RRHR: the pair's second Ρ survives. */
  lemma CapitalDoubleRhoAsWritten()
    ensures RulesAsWritten("ΡΡ", Sbl(NoOptions)) == "RRHR"
  {
    var s := Sbl(NoOptions);
    var w := "ΡΡ";
    assert !HasGamma(w);
    assert HasRho(w) by { assert w[0] == 'Ρ'; }
    RhoOnlyWord(w, s, RhoRulesAsWritten);
    RhoAsWrittenOnCapitalPair();
    var r := "RRHΡ";
    LeftoverRhoUnmarked();
    NoMarksPassLaterRules(r, s);
    MapLeftoverRho();
  }

  lemma MapLeftoverRho()
    ensures MapChars("RRHΡ", Sbl(NoOptions)) == "RRHR"
  {
    var s := Sbl(NoOptions);
    assert "RRHΡ" == "RRH" + "Ρ";
    MapCharsConcat("RRH", "Ρ", s);
    CapitalRRH();
    CapitalLatinPlain("RRH");
    MapCharsKeepsOthers("RRH", s);
    assert MapChars("Ρ", s) == "R" by {
      assert "Ρ"[..0] == [];
    }
  }

  lemma RhoOnCapitalPair()
    ensures RhoRules("ΡΡ", Sbl(NoOptions), true) == "RRH"
  {
    var w := "ΡΡ";
    FirstCharAbsent(w, ['ρ', RoughBreathing]);
    FirstCharAbsent(w, "ρρ");
    assert FindFrom(w, ['Ρ', RoughBreathing], 0).None? by {
      assert w[0..2][1] == 'Ρ' != RoughBreathing;
      assert !OccursAt(w, ['Ρ', RoughBreathing], 0);
      assert !OccursAt(w, ['Ρ', RoughBreathing], 1);
    }
    assert OccursAt(w, "ΡΡ", 0);
  }

  /** Corrected, the capital pair ΡΡ becomes RRH, as the small pair ρρ becomes rrh. */
  lemma CapitalDoubleRho()
    ensures Rules("ΡΡ", Sbl(NoOptions)) == "RRH"
  {
    var s := Sbl(NoOptions);
    var w := "ΡΡ";
    assert !HasGamma(w);
    assert HasRho(w) by { assert w[0] == 'Ρ'; }
    RhoOnlyWord(w, s, RhoRules);
    RhoOnCapitalPair();
    CapitalRRH();
    CapitalLatinPlain("RRH");
    NoMarksPassLaterRules("RRH", s);
    MapCharsKeepsOthers("RRH", s);
  }
}
