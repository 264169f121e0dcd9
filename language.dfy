/** `detectLanguage`: which romaniser a lyric line needs, by a fixed priority of tests. */
module LanguageDetection {

  datatype Language = Japanese | Korean | Chinese | Cyrillic | Greek | Unknown

  /** `[ぁ-んァ-ン々]` */
  predicate IsKana(c: char) {
    '\U{3041}' <= c <= '\U{3093}' || '\U{30A1}' <= c <= '\U{30F3}' || c == '\U{3005}'
  }

  /** The five Hangul blocks of the Korean test. */
  predicate IsHangul(c: char) {
    '\U{AC00}' <= c <= '\U{D7AF}' || '\U{1100}' <= c <= '\U{11FF}' || '\U{3130}' <= c <= '\U{318F}'
    || '\U{A960}' <= c <= '\U{A97F}' || '\U{D7B0}' <= c <= '\U{D7FF}'
  }

  /** Cyrillic, Cyrillic Supplement, and Cyrillic Extended-A and -B. */
  predicate IsCyrillic(c: char) {
    '\U{0400}' <= c <= '\U{04FF}' || '\U{0500}' <= c <= '\U{052F}' || '\U{2DE0}' <= c <= '\U{2DFF}'
    || '\U{A640}' <= c <= '\U{A69F}'
  }

  /** Greek and Coptic, and Greek Extended. */
  predicate IsGreek(c: char) {
    '\U{0370}' <= c <= '\U{03FF}' || '\U{1F00}' <= c <= '\U{1FFF}'
  }

  /** A regular-expression test for one character class: some character of `s` is in it. */
  function AnyChar(s: string, p: char -> bool): (r: bool)
    ensures r <==> exists i :: 0 <= i < |s| && p(s[i])
    decreases |s|
  {
    if |s| == 0 then false
    else if p(s[0]) then true
    else
      AnyCharTail(s, p);
      AnyChar(s[1..], p)
  }

  lemma AnyCharTail(s: string, p: char -> bool)
    requires |s| > 0 && !p(s[0])
    ensures (exists i :: 0 <= i < |s| && p(s[i])) <==> (exists i :: 0 <= i < |s| - 1 && p(s[1..][i]))
  {
    if exists i :: 0 <= i < |s| && p(s[i]) {
      var i :| 0 <= i < |s| && p(s[i]);
      assert s[1..][i - 1] == s[i];
    }
  }

  /** The test `[class]{2,}`: two consecutive characters of `s` are in the class. */
  function AnyPair(s: string, p: char -> bool): (r: bool)
    ensures r <==> exists i :: 0 <= i < |s| - 1 && p(s[i]) && p(s[i + 1])
    decreases |s|
  {
    if |s| < 2 then false
    else if p(s[0]) && p(s[1]) then true
    else
      AnyPairTail(s, p);
      AnyPair(s[1..], p)
  }

  lemma AnyPairTail(s: string, p: char -> bool)
    requires |s| >= 2 && !(p(s[0]) && p(s[1]))
    ensures (exists i :: 0 <= i < |s| - 1 && p(s[i]) && p(s[i + 1]))
        <==> (exists i :: 0 <= i < |s| - 2 && p(s[1..][i]) && p(s[1..][i + 1]))
  {
    if exists i :: 0 <= i < |s| - 1 && p(s[i]) && p(s[i + 1]) {
      var i :| 0 <= i < |s| - 1 && p(s[i]) && p(s[i + 1]);
      assert s[1..][i - 1] == s[i] && s[1..][i] == s[i + 1];
    }
  }

  /** The detector codes that count as Cyrillic. */
  const CyrillicCodes: seq<string> := ["bel", "bul", "kaz", "mkd", "rus", "srp", "tgk", "ukr"]

  predicate JapaneseTest(text: string, franc: string) { franc == "jpn" || AnyChar(text, IsKana) }
  predicate KoreanTest(text: string, franc: string) { franc == "kor" || AnyChar(text, IsHangul) }
  predicate ChineseTest(text: string, franc: string, isHan: char -> bool) { franc == "cmn" || AnyChar(text, isHan) }
  predicate CyrillicTest(text: string, franc: string) { franc in CyrillicCodes || AnyPair(text, IsCyrillic) }
  predicate GreekTest(text: string, franc: string) { franc == "ell" || AnyChar(text, IsGreek) }

  /**
   * `detectLanguage(text)`, given the statistical detector's ISO 639-3 answer
   * `franc` and the Unicode Han-script property `isHan`.
   */
  function DetectLanguage(text: string, franc: string, isHan: char -> bool): (r: Language)
    ensures r == Japanese <==> franc == "jpn" || exists i :: 0 <= i < |text| && IsKana(text[i])
    ensures r == Cyrillic ==> franc in CyrillicCodes || exists i :: 0 <= i < |text| - 1 && IsCyrillic(text[i]) && IsCyrillic(text[i + 1])
    ensures r == Greek ==> franc == "ell" || exists i :: 0 <= i < |text| && IsGreek(text[i])
    ensures r == Unknown ==> franc !in ["jpn", "kor", "cmn", "ell"] + CyrillicCodes
  {
    if JapaneseTest(text, franc) then Japanese
    else if KoreanTest(text, franc) then Korean
    else if ChineseTest(text, franc, isHan) then Chinese
    else if CyrillicTest(text, franc) then Cyrillic
    else if GreekTest(text, franc) then Greek
    else Unknown
  }

  /** The first language whose test passed, in the listed order. */
  function FirstPassing(tests: seq<(Language, bool)>): Language
    decreases |tests|
  {
    if |tests| == 0 then Unknown
    else if tests[0].1 then tests[0].0
    else FirstPassing(tests[1..])
  }

  function Tests(text: string, franc: string, isHan: char -> bool): seq<(Language, bool)> {
    [(Japanese, JapaneseTest(text, franc)), (Korean, KoreanTest(text, franc)),
     (Chinese, ChineseTest(text, franc, isHan)), (Cyrillic, CyrillicTest(text, franc)),
     (Greek, GreekTest(text, franc))]
  }

  /** The if-chain is the strict priority japanese, korean, chinese, cyrillic, greek. */
  lemma DetectIsPriorityOrder(text: string, franc: string, isHan: char -> bool)
    ensures DetectLanguage(text, franc, isHan) == FirstPassing(Tests(text, franc, isHan))
  {
    var t := Tests(text, franc, isHan);
    assert FirstPassing(t[1..][1..][1..][1..]) == if t[4].1 then Greek else Unknown by {
      assert t[1..][1..][1..][1..][1..] == [];
    }
    assert FirstPassing(t[1..][1..][1..]) == if t[3].1 then Cyrillic else FirstPassing(t[1..][1..][1..][1..]);
    assert FirstPassing(t[1..][1..]) == if t[2].1 then Chinese else FirstPassing(t[1..][1..][1..]);
    assert FirstPassing(t[1..]) == if t[1].1 then Korean else FirstPassing(t[1..][1..]);
  }

  /** A language is reported only if its own test passed and every earlier test failed. */
  lemma FirstPassingIsEarliest(tests: seq<(Language, bool)>, k: nat)
    requires k < |tests| && tests[k].1
    requires forall j :: 0 <= j < k ==> !tests[j].1
    ensures FirstPassing(tests) == tests[k].0
    decreases k
  {
    if k > 0 {
      FirstPassingIsEarliest(tests[1..], k - 1);
    }
  }

  /** A single Cyrillic letter is not enough without the detector's help. */
  lemma LoneCyrillicLetter(c: char, franc: string, isHan: char -> bool)
    requires IsCyrillic(c) && !isHan(c)
    requires franc !in ["jpn", "kor", "cmn", "ell"] + CyrillicCodes
    ensures DetectLanguage([c], franc, isHan) == Unknown
  {
    assert !AnyPair([c], IsCyrillic);
    assert !AnyChar([c], IsKana) && !AnyChar([c], IsHangul) && !AnyChar([c], isHan) && !AnyChar([c], IsGreek);
  }
}
