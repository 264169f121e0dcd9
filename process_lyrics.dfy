/**
 * Romanisation of a lyric record in place: every text is passed to a
 * converter in document order and its result stored in the matching
 * `RomanizedText`; an exception stops the walk and the record is returned as
 * far as it got.
 */
module Romanization {
  import opened Wrappers
  import opened LyricTypes
  import opened LanguageDetection
  import opened Strings

  // ---- The order in which texts are visited ----

  function SyllableText(s: Syllable): string { s.text }
  function SyllableRomanized(s: Syllable): string { s.romanizedText }
  function TimedText(l: TimedLine): string { l.text }
  function TimedRomanized(l: TimedLine): string { l.romanizedText }
  function StaticText(l: StaticLine): string { l.text }
  function StaticRomanized(l: StaticLine): string { l.romanizedText }

  /** One string per record, read by `f`, in order. */
  function Field<T>(xs: seq<T>, f: T -> string): (r: seq<string>)
    ensures |r| == |xs| && forall i :: 0 <= i < |xs| ==> r[i] == f(xs[i])
  {
    seq(|xs|, i requires 0 <= i < |xs| => f(xs[i]))
  }

  /** The syllables' strings of several parts, part after part. */
  function PartsField(ps: seq<VocalPart>, f: Syllable -> string): seq<string>
    decreases |ps|
  {
    if |ps| == 0 then [] else PartsField(ps[..|ps| - 1], f) + Field(ps[|ps| - 1].syllables, f)
  }

  /** Lead syllables first, then each background part's syllables. */
  function BlockField(b: SyllableLine, f: Syllable -> string): seq<string> {
    Field(b.lead.syllables, f) + PartsField(BackgroundParts(b), f)
  }

  function BlocksField(bs: seq<SyllableLine>, f: Syllable -> string): seq<string>
    decreases |bs|
  {
    if |bs| == 0 then [] else BlocksField(bs[..|bs| - 1], f) + BlockField(bs[|bs| - 1], f)
  }

  function SyllableTexts(ss: seq<Syllable>): (ts: seq<string>)
    ensures |ts| == |ss| && forall i :: 0 <= i < |ss| ==> ts[i] == ss[i].text
  {
    Field(ss, SyllableText)
  }

  function PartsTexts(ps: seq<VocalPart>): seq<string> {
    PartsField(ps, SyllableText)
  }

  function BlockTexts(b: SyllableLine): seq<string> {
    BlockField(b, SyllableText)
  }

  function BlocksTexts(bs: seq<SyllableLine>): seq<string> {
    BlocksField(bs, SyllableText)
  }

  function TimedTexts(ls: seq<TimedLine>): (ts: seq<string>)
    ensures |ts| == |ls| && forall i :: 0 <= i < |ls| ==> ts[i] == ls[i].text
  {
    Field(ls, TimedText)
  }

  function StaticTexts(ls: seq<StaticLine>): (ts: seq<string>)
    ensures |ts| == |ls| && forall i :: 0 <= i < |ls| ==> ts[i] == ls[i].text
  {
    Field(ls, StaticText)
  }

  /** Every text of the record, in the order the converter sees them. */
  function Texts(d: LyricData): seq<string> {
    match d
    case SyllableData(_, _, bs, _, _) => BlocksTexts(bs)
    case LineData(_, _, ls, _, _) => TimedTexts(ls)
    case StaticData(_, ls, _) => StaticTexts(ls)
  }

  /** Every romanised text of the record, position by position with `Texts`. */
  function RomanizedTexts(d: LyricData): seq<string> {
    match d
    case SyllableData(_, _, bs, _, _) => BlocksField(bs, SyllableRomanized)
    case LineData(_, _, ls, _, _) => Field(ls, TimedRomanized)
    case StaticData(_, ls, _) => Field(ls, StaticRomanized)
  }

  lemma {:induction false} PartsFieldLength(ps: seq<VocalPart>, f: Syllable -> string, g: Syllable -> string)
    ensures |PartsField(ps, f)| == |PartsField(ps, g)|
    decreases |ps|
  {
    if |ps| > 0 {
      PartsFieldLength(ps[..|ps| - 1], f, g);
    }
  }

  lemma {:induction false} BlocksFieldLength(bs: seq<SyllableLine>, f: Syllable -> string, g: Syllable -> string)
    ensures |BlocksField(bs, f)| == |BlocksField(bs, g)|
    decreases |bs|
  {
    if |bs| > 0 {
      BlocksFieldLength(bs[..|bs| - 1], f, g);
      PartsFieldLength(BackgroundParts(bs[|bs| - 1]), f, g);
    }
  }

  /**
   * The texts handed to the converter before the walk ends, and whether it
   * ended by an exception: up to and including the first text whose
   * conversion throws.
   */
  function Visit(convert: string -> Outcome<string>, ts: seq<string>): (seq<string>, bool)
    decreases |ts|
  {
    if |ts| == 0 then ([], false)
    else if convert(ts[0]).Threw? then ([ts[0]], true)
    else
      var rest := Visit(convert, ts[1..]);
      ([ts[0]] + rest.0, rest.1)
  }

  /**
   * A walk that did not throw converted every text; one that threw stopped at
   * the first text whose conversion throws, having converted all before it.
   */
  lemma {:induction false} VisitMeaning(convert: string -> Outcome<string>, ts: seq<string>)
    ensures var (visited, threw) := Visit(convert, ts);
      (!threw ==> visited == ts && forall i :: 0 <= i < |ts| ==> convert(ts[i]).Returned?)
      && (threw ==> 0 < |visited| <= |ts| && visited == ts[..|visited|] && convert(ts[|visited| - 1]).Threw?
                    && forall i :: 0 <= i < |visited| - 1 ==> convert(ts[i]).Returned?)
    decreases |ts|
  {
    if |ts| > 0 && convert(ts[0]).Returned? {
      VisitMeaning(convert, ts[1..]);
      var (v, th) := Visit(convert, ts[1..]);
      if th {
        assert [ts[0]] + ts[1..][..|v|] == ts[..|v| + 1];
      } else {
        forall i | 0 < i < |ts| ensures convert(ts[i]).Returned? {
          assert ts[i] == ts[1..][i - 1];
        }
      }
    }
  }

  lemma {:induction false} VisitConcat(convert: string -> Outcome<string>, a: seq<string>, b: seq<string>)
    ensures Visit(convert, a + b)
         == if Visit(convert, a).1 then Visit(convert, a) else (a + Visit(convert, b).0, Visit(convert, b).1)
    decreases |a|
  {
    if |a| == 0 {
      assert a + b == b;
      assert a + Visit(convert, b).0 == Visit(convert, b).0;
    } else {
      var ab := a + b;
      assert ab[0] == a[0];
      assert ab[1..] == a[1..] + b;
      if convert(a[0]).Returned? {
        VisitConcat(convert, a[1..], b);
        VisitMeaning(convert, a[1..]);
        assert [a[0]] + a[1..] == a;
        assert [a[0]] + (a[1..] + Visit(convert, b).0) == a + Visit(convert, b).0;
      }
    }
  }

  /** One more text: the walk goes on exactly while no conversion has thrown. */
  lemma VisitSnoc(convert: string -> Outcome<string>, ts: seq<string>, i: nat, visited: seq<string>)
    requires i < |ts| && (visited, false) == Visit(convert, ts[..i])
    ensures Visit(convert, ts[..i + 1]) == (visited + [ts[i]], convert(ts[i]).Threw?)
  {
    assert ts[..i + 1] == ts[..i] + [ts[i]];
    VisitConcat(convert, ts[..i], [ts[i]]);
    VisitMeaning(convert, ts[..i]);
    var one := [ts[i]];
    assert one[1..] == [];
    assert Visit(convert, one[1..]) == ([], false);
    assert one + [] == one;
    assert Visit(convert, one) == ([ts[i]], convert(ts[i]).Threw?);
  }

  /** Once a prefix throws, the rest is never visited. */
  lemma VisitStops(convert: string -> Outcome<string>, ts: seq<string>, k: nat)
    requires k <= |ts| && Visit(convert, ts[..k]).1
    ensures Visit(convert, ts) == Visit(convert, ts[..k])
  {
    assert ts == ts[..k] + ts[k..];
    VisitConcat(convert, ts[..k], ts[k..]);
  }

  /** The converter's own state after it has seen `ts` in order. */
  function Fold<C>(next: (C, string) -> C, c: C, ts: seq<string>): C
    decreases |ts|
  {
    if |ts| == 0 then c else next(Fold(next, c, ts[..|ts| - 1]), ts[|ts| - 1])
  }

  // ---- What the walk does to the record ----

  /**
   * `s'` is `s` with at most its romanised text changed: to the converter's
   * result, or, when the walk stopped early (`!complete`), possibly not at all.
   */
  predicate SyllableStep(s: Syllable, s': Syllable, convert: string -> Outcome<string>, complete: bool) {
    s'.(romanizedText := s.romanizedText) == s
    && ((!complete && s'.romanizedText == s.romanizedText) || convert(s.text) == Returned(s'.romanizedText))
  }

  predicate SyllablesStep(ss: seq<Syllable>, ss': seq<Syllable>, convert: string -> Outcome<string>, complete: bool) {
    |ss'| == |ss| && forall i :: 0 <= i < |ss| ==> SyllableStep(ss[i], ss'[i], convert, complete)
  }

  predicate PartStep(p: VocalPart, p': VocalPart, convert: string -> Outcome<string>, complete: bool) {
    p'.(syllables := p.syllables) == p && SyllablesStep(p.syllables, p'.syllables, convert, complete)
  }

  predicate PartsStep(ps: seq<VocalPart>, ps': seq<VocalPart>, convert: string -> Outcome<string>, complete: bool) {
    |ps'| == |ps| && forall i :: 0 <= i < |ps| ==> PartStep(ps[i], ps'[i], convert, complete)
  }

  predicate BlockStep(b: SyllableLine, b': SyllableLine, convert: string -> Outcome<string>, complete: bool) {
    b'.(lead := b.lead, background := b.background) == b
    && PartStep(b.lead, b'.lead, convert, complete)
    && b'.background.Some? == b.background.Some?
    && PartsStep(BackgroundParts(b), BackgroundParts(b'), convert, complete)
  }

  predicate BlocksStep(bs: seq<SyllableLine>, bs': seq<SyllableLine>, convert: string -> Outcome<string>, complete: bool) {
    |bs'| == |bs| && forall i :: 0 <= i < |bs| ==> BlockStep(bs[i], bs'[i], convert, complete)
  }

  predicate TimedStep(l: TimedLine, l': TimedLine, convert: string -> Outcome<string>, complete: bool) {
    l'.(romanizedText := l.romanizedText) == l
    && ((!complete && l'.romanizedText == l.romanizedText) || convert(l.text) == Returned(l'.romanizedText))
  }

  predicate StaticStep(l: StaticLine, l': StaticLine, convert: string -> Outcome<string>, complete: bool) {
    l'.(romanizedText := l.romanizedText) == l
    && ((!complete && l'.romanizedText == l.romanizedText) || convert(l.text) == Returned(l'.romanizedText))
  }

  /** The record after the walk: same shape, texts and timings; romanised texts as described above. */
  predicate LyricStep(d: LyricData, d': LyricData, convert: string -> Outcome<string>, complete: bool) {
    match d
    case SyllableData(_, _, bs, _, _) =>
      d'.SyllableData? && d'.(blocks := bs) == d
      && BlocksStep(bs, d'.blocks, convert, complete)
    case LineData(_, _, ls, _, _) =>
      d'.LineData? && d'.(lines := ls) == d
      && |d'.lines| == |ls| && forall i :: 0 <= i < |ls| ==> TimedStep(ls[i], d'.lines[i], convert, complete)
    case StaticData(_, ls, _) =>
      d'.StaticData? && d'.(staticLines := ls) == d
      && |d'.staticLines| == |ls| && forall i :: 0 <= i < |ls| ==> StaticStep(ls[i], d'.staticLines[i], convert, complete)
  }

  /**
   * The first `k` romanised texts `rs'` are the converter's results for the
   * matching texts `ts`; every later one is as it was in `rs`.
   */
  predicate ConvertedUpTo(convert: string -> Outcome<string>, ts: seq<string>, rs: seq<string>, rs': seq<string>, k: nat) {
    |rs| == |ts| && |rs'| == |ts| && k <= |ts|
    && (forall i :: 0 <= i < k ==> convert(ts[i]) == Returned(rs'[i]))
    && (forall i :: k <= i < |ts| ==> rs'[i] == rs[i])
  }

  /** How many of the visited texts were converted: all but the one that threw. */
  function Converted(visited: seq<string>, threw: bool): nat {
    if threw && |visited| > 0 then |visited| - 1 else |visited|
  }

  /** A wholly converted run followed by a run converted up to `k2`, or a run converted up to `k1` followed by an untouched one. */
  lemma ConvertedConcat(convert: string -> Outcome<string>,
                        ts1: seq<string>, rs1: seq<string>, rs1': seq<string>, k1: nat,
                        ts2: seq<string>, rs2: seq<string>, rs2': seq<string>, k2: nat)
    requires ConvertedUpTo(convert, ts1, rs1, rs1', k1) && ConvertedUpTo(convert, ts2, rs2, rs2', k2)
    requires k1 == |ts1| || k2 == 0
    ensures ConvertedUpTo(convert, ts1 + ts2, rs1 + rs2, rs1' + rs2', k1 + k2)
  {
    var ts, rs, rs' := ts1 + ts2, rs1 + rs2, rs1' + rs2';
    forall i | 0 <= i < k1 + k2 ensures convert(ts[i]) == Returned(rs'[i]) {
      if i >= |ts1| {
        assert ts[i] == ts2[i - |ts1|] && rs'[i] == rs2'[i - |ts1|];
      }
    }
    forall i | k1 + k2 <= i < |ts| ensures rs'[i] == rs[i] {
      if i >= |ts1| {
        assert rs'[i] == rs2'[i - |ts1|] && rs[i] == rs2[i - |ts1|];
      }
    }
  }

  /** Converting one more part extends the converted prefix of the parts by what it converted. */
  lemma PartsConvertedSnoc(convert: string -> Outcome<string>, ps: seq<VocalPart>, ps': seq<VocalPart>, i: nat, p': VocalPart, n: nat, m: nat)
    requires i < |ps| == |ps'| && n == |PartsTexts(ps[..i])|
    requires ConvertedUpTo(convert, PartsTexts(ps[..i]), PartsField(ps[..i], SyllableRomanized), PartsField(ps'[..i], SyllableRomanized), n)
    requires ConvertedUpTo(convert, SyllableTexts(ps[i].syllables), Field(ps[i].syllables, SyllableRomanized), Field(p'.syllables, SyllableRomanized), m)
    ensures ConvertedUpTo(convert, PartsTexts(ps[..i + 1]), PartsField(ps[..i + 1], SyllableRomanized), PartsField(ps'[i := p'][..i + 1], SyllableRomanized), n + m)
  {
    assert ps[..i + 1][..i] == ps[..i];
    assert ps'[i := p'][..i + 1][..i] == ps'[..i];
    ConvertedConcat(convert, PartsTexts(ps[..i]), PartsField(ps[..i], SyllableRomanized), PartsField(ps'[..i], SyllableRomanized), n,
                    SyllableTexts(ps[i].syllables), Field(ps[i].syllables, SyllableRomanized), Field(p'.syllables, SyllableRomanized), m);
  }

  /** Parts converted in full carry the converter's result for every text. */
  lemma {:induction false} PartsConvertedAll(convert: string -> Outcome<string>, ps: seq<VocalPart>, ps': seq<VocalPart>)
    requires |ps'| == |ps| && forall j :: 0 <= j < |ps| ==> PartStep(ps[j], ps'[j], convert, true)
    ensures ConvertedUpTo(convert, PartsTexts(ps), PartsField(ps, SyllableRomanized), PartsField(ps', SyllableRomanized), |PartsTexts(ps)|)
    decreases |ps|
  {
    if |ps| > 0 {
      var n := |ps| - 1;
      PartsConvertedAll(convert, ps[..n], ps'[..n]);
      assert ps[..n + 1] == ps && ps'[..n + 1] == ps';
      PartsConvertedSnoc(convert, ps, ps', n, ps'[n], |PartsTexts(ps[..n])|, |ps[n].syllables|);
      assert ps'[n := ps'[n]] == ps';
    }
  }

  /** Parts converted in full up to part `k`, part `k` converted up to `m`, the rest untouched. */
  lemma PartsConvertedAt(convert: string -> Outcome<string>, ps: seq<VocalPart>, ps': seq<VocalPart>, k: nat, m: nat)
    requires k < |ps| == |ps'|
    requires forall j :: 0 <= j < k ==> PartStep(ps[j], ps'[j], convert, true)
    requires ConvertedUpTo(convert, SyllableTexts(ps[k].syllables), Field(ps[k].syllables, SyllableRomanized), Field(ps'[k].syllables, SyllableRomanized), m)
    requires forall j :: k < j < |ps| ==> ps'[j] == ps[j]
    ensures ConvertedUpTo(convert, PartsTexts(ps), PartsField(ps, SyllableRomanized), PartsField(ps', SyllableRomanized), |PartsTexts(ps[..k])| + m)
  {
    PartsConvertedAll(convert, ps[..k], ps'[..k]);
    PartsConvertedSnoc(convert, ps, ps', k, ps'[k], |PartsTexts(ps[..k])|, m);
    assert ps'[k := ps'[k]] == ps';
    assert ps'[k + 1..] == ps[k + 1..];
    PartsConvertedStop(convert, ps, ps', k + 1, |PartsTexts(ps[..k])| + m);
  }

  /** Background parts converted up to `n` in a prefix, untouched after it, are converted up to `n` overall. */
  lemma PartsConvertedStop(convert: string -> Outcome<string>, ps: seq<VocalPart>, ps': seq<VocalPart>, k: nat, n: nat)
    requires k <= |ps| == |ps'| && ps'[k..] == ps[k..]
    requires ConvertedUpTo(convert, PartsTexts(ps[..k]), PartsField(ps[..k], SyllableRomanized), PartsField(ps'[..k], SyllableRomanized), n)
    ensures ConvertedUpTo(convert, PartsTexts(ps), PartsField(ps, SyllableRomanized), PartsField(ps', SyllableRomanized), n)
  {
    PartsFieldSplit(ps, k, SyllableText);
    PartsFieldSplit(ps, k, SyllableRomanized);
    PartsFieldSplit(ps', k, SyllableRomanized);
    PartsFieldLength(ps[k..], SyllableText, SyllableRomanized);
    var rest := PartsField(ps[k..], SyllableRomanized);
    ConvertedConcat(convert, PartsTexts(ps[..k]), PartsField(ps[..k], SyllableRomanized), PartsField(ps'[..k], SyllableRomanized), n,
                    PartsTexts(ps[k..]), rest, rest, 0);
  }

  /** A line converted in full carries the converter's result for every text: lead first, then background. */
  lemma BlockConvertedAll(convert: string -> Outcome<string>, b: SyllableLine, b': SyllableLine)
    requires BlockStep(b, b', convert, true)
    ensures ConvertedUpTo(convert, BlockTexts(b), BlockField(b, SyllableRomanized), BlockField(b', SyllableRomanized), |BlockTexts(b)|)
  {
    PartsConvertedAll(convert, BackgroundParts(b), BackgroundParts(b'));
    ConvertedConcat(convert, SyllableTexts(b.lead.syllables), Field(b.lead.syllables, SyllableRomanized), Field(b'.lead.syllables, SyllableRomanized), |b.lead.syllables|,
                    PartsTexts(BackgroundParts(b)), PartsField(BackgroundParts(b), SyllableRomanized), PartsField(BackgroundParts(b'), SyllableRomanized), |PartsTexts(BackgroundParts(b))|);
  }

  lemma {:induction false} BlocksConvertedAll(convert: string -> Outcome<string>, bs: seq<SyllableLine>, bs': seq<SyllableLine>)
    requires |bs'| == |bs| && forall j :: 0 <= j < |bs| ==> BlockStep(bs[j], bs'[j], convert, true)
    ensures ConvertedUpTo(convert, BlocksTexts(bs), BlocksField(bs, SyllableRomanized), BlocksField(bs', SyllableRomanized), |BlocksTexts(bs)|)
    decreases |bs|
  {
    if |bs| > 0 {
      var n := |bs| - 1;
      BlocksConvertedAll(convert, bs[..n], bs'[..n]);
      BlockConvertedAll(convert, bs[n], bs'[n]);
      assert bs[..n + 1] == bs && bs'[..n + 1] == bs';
      BlocksConvertedSnoc(convert, bs, bs', n, bs'[n], |BlocksTexts(bs[..n])|, |BlockTexts(bs[n])|);
      assert bs'[n := bs'[n]] == bs';
    }
  }

  /** Lines converted in full up to line `k`, line `k` converted up to `m`, the rest untouched. */
  lemma BlocksConvertedAt(convert: string -> Outcome<string>, bs: seq<SyllableLine>, bs': seq<SyllableLine>, k: nat, m: nat)
    requires k < |bs| == |bs'|
    requires forall j :: 0 <= j < k ==> BlockStep(bs[j], bs'[j], convert, true)
    requires ConvertedUpTo(convert, BlockTexts(bs[k]), BlockField(bs[k], SyllableRomanized), BlockField(bs'[k], SyllableRomanized), m)
    requires forall j :: k < j < |bs| ==> bs'[j] == bs[j]
    ensures ConvertedUpTo(convert, BlocksTexts(bs), BlocksField(bs, SyllableRomanized), BlocksField(bs', SyllableRomanized), |BlocksTexts(bs[..k])| + m)
  {
    BlocksConvertedThrough(convert, bs, bs', k, m);
    assert bs'[k + 1..] == bs[k + 1..];
    BlocksConvertedStop(convert, bs, bs', k + 1, |BlocksTexts(bs[..k])| + m);
  }

  lemma BlocksConvertedThrough(convert: string -> Outcome<string>, bs: seq<SyllableLine>, bs': seq<SyllableLine>, k: nat, m: nat)
    requires k < |bs| == |bs'|
    requires forall j :: 0 <= j < k ==> BlockStep(bs[j], bs'[j], convert, true)
    requires ConvertedUpTo(convert, BlockTexts(bs[k]), BlockField(bs[k], SyllableRomanized), BlockField(bs'[k], SyllableRomanized), m)
    ensures ConvertedUpTo(convert, BlocksTexts(bs[..k + 1]), BlocksField(bs[..k + 1], SyllableRomanized), BlocksField(bs'[..k + 1], SyllableRomanized), |BlocksTexts(bs[..k])| + m)
  {
    BlocksConvertedAll(convert, bs[..k], bs'[..k]);
    BlocksConvertedSnoc(convert, bs, bs', k, bs'[k], |BlocksTexts(bs[..k])|, m);
    assert bs'[k := bs'[k]] == bs';
  }

  /** Lines converted up to `n` in a prefix, untouched after it, are converted up to `n` overall. */
  lemma BlocksConvertedStop(convert: string -> Outcome<string>, bs: seq<SyllableLine>, bs': seq<SyllableLine>, k: nat, n: nat)
    requires k <= |bs| == |bs'| && bs'[k..] == bs[k..]
    requires ConvertedUpTo(convert, BlocksTexts(bs[..k]), BlocksField(bs[..k], SyllableRomanized), BlocksField(bs'[..k], SyllableRomanized), n)
    ensures ConvertedUpTo(convert, BlocksTexts(bs), BlocksField(bs, SyllableRomanized), BlocksField(bs', SyllableRomanized), n)
  {
    BlocksFieldSplit(bs, k, SyllableText);
    BlocksFieldSplit(bs, k, SyllableRomanized);
    BlocksFieldSplit(bs', k, SyllableRomanized);
    BlocksFieldLength(bs[k..], SyllableText, SyllableRomanized);
    var rest := BlocksField(bs[k..], SyllableRomanized);
    ConvertedConcat(convert, BlocksTexts(bs[..k]), BlocksField(bs[..k], SyllableRomanized), BlocksField(bs'[..k], SyllableRomanized), n,
                    BlocksTexts(bs[k..]), rest, rest, 0);
  }

  // ---- The walk ----

  method RomanizeSyllables(ss: seq<Syllable>, convert: string -> Outcome<string>)
      returns (ss': seq<Syllable>, visited: seq<string>, threw: bool)
    ensures (visited, threw) == Visit(convert, SyllableTexts(ss))
    ensures SyllablesStep(ss, ss', convert, !threw)
    ensures ConvertedUpTo(convert, SyllableTexts(ss), Field(ss, SyllableRomanized), Field(ss', SyllableRomanized), Converted(visited, threw))
  {
    ss', visited, threw := ss, [], false;
    var i := 0;
    while i < |ss|
      invariant 0 <= i <= |ss| && |ss'| == |ss| && |visited| == i
      invariant (visited, false) == Visit(convert, SyllableTexts(ss)[..i])
      invariant forall j :: 0 <= j < i ==> SyllableStep(ss[j], ss'[j], convert, true)
      invariant forall j :: i <= j < |ss| ==> ss'[j] == ss[j]
    {
      var t := ss[i].text;
      var r := convert(t);
      VisitSnoc(convert, SyllableTexts(ss), i, visited);
      visited := visited + [t];
      if r.Threw? {
        threw := true;
        VisitStops(convert, SyllableTexts(ss), i + 1);
        return;
      }
      ss' := ss'[i := ss[i].(romanizedText := r.value)];
      i := i + 1;
    }
    assert SyllableTexts(ss)[..i] == SyllableTexts(ss);
  }

  method RomanizeParts(ps: seq<VocalPart>, convert: string -> Outcome<string>)
      returns (ps': seq<VocalPart>, visited: seq<string>, threw: bool)
    ensures (visited, threw) == Visit(convert, PartsTexts(ps))
    ensures PartsStep(ps, ps', convert, !threw)
    ensures ConvertedUpTo(convert, PartsTexts(ps), PartsField(ps, SyllableRomanized), PartsField(ps', SyllableRomanized), Converted(visited, threw))
  {
    ps', visited, threw := ps, [], false;
    var i := 0;
    while i < |ps|
      invariant 0 <= i <= |ps| && |ps'| == |ps|
      invariant (visited, false) == Visit(convert, PartsTexts(ps[..i]))
      invariant forall j :: 0 <= j < i ==> PartStep(ps[j], ps'[j], convert, true)
      invariant forall j :: i <= j < |ps| ==> ps'[j] == ps[j]
    {
      var p := ps[i];
      var ss', v, th := RomanizeSyllables(p.syllables, convert);
      if th {
        PartsStopAt(convert, ps, ps', i, visited, ss', v);
        ps', visited, threw := ps'[i := p.(syllables := ss')], visited + v, true;
        return;
      }
      PartsVisitSnoc(convert, ps, i, visited, v, th);
      visited := visited + v;
      ps' := ps'[i := p.(syllables := ss')];
      i := i + 1;
    }
    assert ps[..i] == ps;
    VisitMeaning(convert, PartsTexts(ps));
    PartsConvertedAll(convert, ps, ps');
  }

  /** A walk over parts that has not thrown extends by exactly the walk over the next part. */
  lemma PartsVisitSnoc(convert: string -> Outcome<string>, ps: seq<VocalPart>, i: nat, visited: seq<string>, v: seq<string>, th: bool)
    requires i < |ps| && (visited, false) == Visit(convert, PartsTexts(ps[..i]))
    requires (v, th) == Visit(convert, SyllableTexts(ps[i].syllables))
    ensures Visit(convert, PartsTexts(ps[..i + 1])) == (visited + v, th)
    ensures |visited| == |PartsTexts(ps[..i])| && Converted(visited + v, th) == |visited| + Converted(v, th)
  {
    assert ps[..i + 1][..i] == ps[..i];
    assert PartsTexts(ps[..i + 1]) == PartsTexts(ps[..i]) + SyllableTexts(ps[i].syllables);
    VisitConcat(convert, PartsTexts(ps[..i]), SyllableTexts(ps[i].syllables));
    VisitMeaning(convert, PartsTexts(ps[..i]));
    VisitMeaning(convert, SyllableTexts(ps[i].syllables));
  }

  /**
   * A walk over parts that throws in part `i` ends there: the parts before it
   * converted, part `i` converted up to the throwing syllable, the rest untouched.
   */
  lemma PartsStopAt(convert: string -> Outcome<string>, ps: seq<VocalPart>, ps': seq<VocalPart>, i: nat, visited: seq<string>, ss': seq<Syllable>, v: seq<string>)
    requires i < |ps| == |ps'|
    requires (visited, false) == Visit(convert, PartsTexts(ps[..i]))
    requires forall j :: 0 <= j < i ==> PartStep(ps[j], ps'[j], convert, true)
    requires forall j :: i <= j < |ps| ==> ps'[j] == ps[j]
    requires (v, true) == Visit(convert, SyllableTexts(ps[i].syllables))
    requires SyllablesStep(ps[i].syllables, ss', convert, false)
    requires ConvertedUpTo(convert, SyllableTexts(ps[i].syllables), Field(ps[i].syllables, SyllableRomanized), Field(ss', SyllableRomanized), Converted(v, true))
    ensures var ps'' := ps'[i := ps[i].(syllables := ss')];
      (visited + v, true) == Visit(convert, PartsTexts(ps))
      && PartsStep(ps, ps'', convert, false)
      && ConvertedUpTo(convert, PartsTexts(ps), PartsField(ps, SyllableRomanized), PartsField(ps'', SyllableRomanized), Converted(visited + v, true))
  {
    PartsVisitStop(convert, ps, i, visited, v);
    PartsStepStop(ps, ps', i, ps[i].(syllables := ss'), convert);
    PartsConvertedAt(convert, ps, ps'[i := ps[i].(syllables := ss')], i, Converted(v, true));
  }

  lemma PartsVisitStop(convert: string -> Outcome<string>, ps: seq<VocalPart>, i: nat, visited: seq<string>, v: seq<string>)
    requires i < |ps| && (visited, false) == Visit(convert, PartsTexts(ps[..i]))
    requires (v, true) == Visit(convert, SyllableTexts(ps[i].syllables))
    ensures (visited + v, true) == Visit(convert, PartsTexts(ps))
    ensures Converted(visited + v, true) == |PartsTexts(ps[..i])| + Converted(v, true)
  {
    PartsVisitSnoc(convert, ps, i, visited, v, true);
    PartsTextsPrefix(ps, i + 1, convert);
  }

  /** Parts converted before `i`, part `i` partly converted and the rest untouched are a result of a walk that stopped early. */
  lemma PartsStepStop(ps: seq<VocalPart>, ps': seq<VocalPart>, i: nat, p2: VocalPart, convert: string -> Outcome<string>)
    requires |ps'| == |ps| && i < |ps| && PartStep(ps[i], p2, convert, false)
    requires forall j :: 0 <= j < i ==> PartStep(ps[j], ps'[j], convert, true)
    requires forall j :: i <= j < |ps| ==> ps'[j] == ps[j]
    ensures PartsStep(ps, ps'[i := p2], convert, false)
  {
  }

  /** Once a prefix of the parts throws, the rest is never visited. */
  lemma PartsTextsPrefix(ps: seq<VocalPart>, k: nat, convert: string -> Outcome<string>)
    requires k <= |ps| && Visit(convert, PartsTexts(ps[..k])).1
    ensures Visit(convert, PartsTexts(ps)) == Visit(convert, PartsTexts(ps[..k]))
  {
    PartsFieldSplit(ps, k, SyllableText);
    VisitConcat(convert, PartsTexts(ps[..k]), PartsTexts(ps[k..]));
  }

  lemma {:induction false} PartsFieldSplit(ps: seq<VocalPart>, k: nat, f: Syllable -> string)
    requires k <= |ps|
    ensures PartsField(ps, f) == PartsField(ps[..k], f) + PartsField(ps[k..], f)
    decreases |ps|
  {
    if k < |ps| {
      var n := |ps|;
      PartsFieldSplit(ps[..n - 1], k, f);
      assert ps[..n - 1][..k] == ps[..k];
      assert ps[k..][..|ps[k..]| - 1] == ps[..n - 1][k..];
    } else {
      assert ps[..k] == ps;
      assert ps[k..] == [];
    }
  }

  method RomanizeBlock(b: SyllableLine, convert: string -> Outcome<string>)
      returns (b': SyllableLine, visited: seq<string>, threw: bool)
    ensures (visited, threw) == Visit(convert, BlockTexts(b))
    ensures BlockStep(b, b', convert, !threw)
    ensures ConvertedUpTo(convert, BlockTexts(b), BlockField(b, SyllableRomanized), BlockField(b', SyllableRomanized), Converted(visited, threw))
  {
    var lead, v1, th1 := RomanizeSyllables(b.lead.syllables, convert);
    b' := b.(lead := b.lead.(syllables := lead));
    VisitConcat(convert, SyllableTexts(b.lead.syllables), PartsTexts(BackgroundParts(b)));
    VisitMeaning(convert, SyllableTexts(b.lead.syllables));
    var bgTexts, bgRomanized := PartsTexts(BackgroundParts(b)), PartsField(BackgroundParts(b), SyllableRomanized);
    if th1 {
      visited, threw := v1, true;
      PartsFieldLength(BackgroundParts(b), SyllableText, SyllableRomanized);
      ConvertedConcat(convert, SyllableTexts(b.lead.syllables), Field(b.lead.syllables, SyllableRomanized), Field(lead, SyllableRomanized), Converted(v1, th1),
                      bgTexts, bgRomanized, bgRomanized, 0);
      assert BlockField(b', SyllableRomanized) == Field(lead, SyllableRomanized) + bgRomanized;
      return;
    }
    if b.background.None? {
      visited, threw := v1, false;
      assert PartsTexts(BackgroundParts(b)) == [];
      assert BlockTexts(b) == SyllableTexts(b.lead.syllables);
      assert BlockField(b', SyllableRomanized) == Field(lead, SyllableRomanized);
      return;
    }
    var bg, v2, th2 := RomanizeParts(b.background.value, convert);
    b' := b'.(background := Some(bg));
    visited, threw := v1 + v2, th2;
    VisitMeaning(convert, bgTexts);
    ConvertedConcat(convert, SyllableTexts(b.lead.syllables), Field(b.lead.syllables, SyllableRomanized), Field(lead, SyllableRomanized), Converted(v1, th1),
                    bgTexts, bgRomanized, PartsField(bg, SyllableRomanized), Converted(v2, th2));
    assert BlockField(b', SyllableRomanized) == Field(lead, SyllableRomanized) + PartsField(bg, SyllableRomanized);
    assert Converted(visited, threw) == Converted(v1, th1) + Converted(v2, th2);
  }

  method RomanizeBlocks(bs: seq<SyllableLine>, convert: string -> Outcome<string>)
      returns (bs': seq<SyllableLine>, visited: seq<string>, threw: bool)
    ensures (visited, threw) == Visit(convert, BlocksTexts(bs))
    ensures BlocksStep(bs, bs', convert, !threw)
    ensures ConvertedUpTo(convert, BlocksTexts(bs), BlocksField(bs, SyllableRomanized), BlocksField(bs', SyllableRomanized), Converted(visited, threw))
  {
    bs', visited, threw := bs, [], false;
    var i := 0;
    while i < |bs|
      invariant 0 <= i <= |bs| && |bs'| == |bs|
      invariant (visited, false) == Visit(convert, BlocksTexts(bs[..i]))
      invariant forall j :: 0 <= j < i ==> BlockStep(bs[j], bs'[j], convert, true)
      invariant forall j :: i <= j < |bs| ==> bs'[j] == bs[j]
    {
      var b2, v, th := RomanizeBlock(bs[i], convert);
      if th {
        BlocksStopAt(convert, bs, bs', i, visited, b2, v);
        bs', visited, threw := bs'[i := b2], visited + v, true;
        return;
      }
      BlocksVisitSnoc(bs, i, convert, visited);
      visited := visited + v;
      BlocksStepSet(bs, bs', i, b2, convert);
      bs' := bs'[i := b2];
      i := i + 1;
    }
    assert bs[..i] == bs;
    VisitMeaning(convert, BlocksTexts(bs));
    BlocksConvertedAll(convert, bs, bs');
  }

  /**
   * A walk over lines that throws in line `i` ends there: the lines before it
   * converted, line `i` converted up to the throwing syllable, the rest untouched.
   */
  lemma BlocksStopAt(convert: string -> Outcome<string>, bs: seq<SyllableLine>, bs': seq<SyllableLine>, i: nat, visited: seq<string>, b2: SyllableLine, v: seq<string>)
    requires i < |bs| == |bs'|
    requires (visited, false) == Visit(convert, BlocksTexts(bs[..i]))
    requires forall j :: 0 <= j < i ==> BlockStep(bs[j], bs'[j], convert, true)
    requires forall j :: i <= j < |bs| ==> bs'[j] == bs[j]
    requires (v, true) == Visit(convert, BlockTexts(bs[i]))
    requires BlockStep(bs[i], b2, convert, false)
    requires ConvertedUpTo(convert, BlockTexts(bs[i]), BlockField(bs[i], SyllableRomanized), BlockField(b2, SyllableRomanized), Converted(v, true))
    ensures (visited + v, true) == Visit(convert, BlocksTexts(bs))
    ensures BlocksStep(bs, bs'[i := b2], convert, false)
    ensures ConvertedUpTo(convert, BlocksTexts(bs), BlocksField(bs, SyllableRomanized), BlocksField(bs'[i := b2], SyllableRomanized), Converted(visited + v, true))
  {
    BlocksVisitStop(convert, bs, i, visited, v);
    BlocksStepStop(bs, bs', i, b2, convert);
    BlocksConvertedAt(convert, bs, bs'[i := b2], i, Converted(v, true));
  }

  lemma BlocksVisitStop(convert: string -> Outcome<string>, bs: seq<SyllableLine>, i: nat, visited: seq<string>, v: seq<string>)
    requires i < |bs| && (visited, false) == Visit(convert, BlocksTexts(bs[..i]))
    requires (v, true) == Visit(convert, BlockTexts(bs[i]))
    ensures (visited + v, true) == Visit(convert, BlocksTexts(bs))
    ensures Converted(visited + v, true) == |BlocksTexts(bs[..i])| + Converted(v, true)
  {
    BlocksVisitSnoc(bs, i, convert, visited);
    VisitMeaning(convert, BlockTexts(bs[i]));
    BlocksTextsPrefix(bs, i + 1, convert);
  }

  lemma BlocksVisitSnoc(bs: seq<SyllableLine>, i: nat, convert: string -> Outcome<string>, visited: seq<string>)
    requires i < |bs| && (visited, false) == Visit(convert, BlocksTexts(bs[..i]))
    ensures Visit(convert, BlocksTexts(bs[..i + 1]))
         == (visited + Visit(convert, BlockTexts(bs[i])).0, Visit(convert, BlockTexts(bs[i])).1)
    ensures |visited| == |BlocksTexts(bs[..i])|
  {
    assert bs[..i + 1][..i] == bs[..i];
    assert BlocksTexts(bs[..i + 1]) == BlocksTexts(bs[..i]) + BlockTexts(bs[i]);
    VisitConcat(convert, BlocksTexts(bs[..i]), BlockTexts(bs[i]));
    VisitMeaning(convert, BlocksTexts(bs[..i]));
  }

  /** Converting one more line extends the converted prefix of the lines by what it converted. */
  lemma BlocksConvertedSnoc(convert: string -> Outcome<string>, bs: seq<SyllableLine>, bs': seq<SyllableLine>, i: nat, b': SyllableLine, n: nat, m: nat)
    requires i < |bs| == |bs'| && n == |BlocksTexts(bs[..i])|
    requires ConvertedUpTo(convert, BlocksTexts(bs[..i]), BlocksField(bs[..i], SyllableRomanized), BlocksField(bs'[..i], SyllableRomanized), n)
    requires ConvertedUpTo(convert, BlockTexts(bs[i]), BlockField(bs[i], SyllableRomanized), BlockField(b', SyllableRomanized), m)
    ensures ConvertedUpTo(convert, BlocksTexts(bs[..i + 1]), BlocksField(bs[..i + 1], SyllableRomanized), BlocksField(bs'[i := b'][..i + 1], SyllableRomanized), n + m)
  {
    assert bs[..i + 1][..i] == bs[..i];
    assert bs'[i := b'][..i + 1][..i] == bs'[..i];
    ConvertedConcat(convert, BlocksTexts(bs[..i]), BlocksField(bs[..i], SyllableRomanized), BlocksField(bs'[..i], SyllableRomanized), n,
                    BlockTexts(bs[i]), BlockField(bs[i], SyllableRomanized), BlockField(b', SyllableRomanized), m);
  }

  lemma BlocksStepSet(bs: seq<SyllableLine>, bs': seq<SyllableLine>, i: nat, b2: SyllableLine, convert: string -> Outcome<string>)
    requires |bs'| == |bs| && i < |bs| && BlockStep(bs[i], b2, convert, true)
    requires forall j :: 0 <= j < i ==> BlockStep(bs[j], bs'[j], convert, true)
    ensures forall j :: 0 <= j < i + 1 ==> BlockStep(bs[j], bs'[i := b2][j], convert, true)
  {
  }

  lemma BlockStepWeaken(b: SyllableLine, b': SyllableLine, convert: string -> Outcome<string>)
    requires BlockStep(b, b', convert, true) || b' == b
    ensures BlockStep(b, b', convert, false)
  {
  }

  lemma BlocksStepStop(bs: seq<SyllableLine>, bs': seq<SyllableLine>, i: nat, b2: SyllableLine, convert: string -> Outcome<string>)
    requires |bs'| == |bs| && i < |bs| && BlockStep(bs[i], b2, convert, false)
    requires forall j :: 0 <= j < i ==> BlockStep(bs[j], bs'[j], convert, true)
    requires forall j :: i <= j < |bs| ==> bs'[j] == bs[j]
    ensures BlocksStep(bs, bs'[i := b2], convert, false)
  {
    forall j | 0 <= j < |bs| && j != i
      ensures BlockStep(bs[j], bs'[j], convert, false)
    {
      BlockStepWeaken(bs[j], bs'[j], convert);
    }
  }

  lemma BlocksTextsPrefix(bs: seq<SyllableLine>, k: nat, convert: string -> Outcome<string>)
    requires k <= |bs| && Visit(convert, BlocksTexts(bs[..k])).1
    ensures Visit(convert, BlocksTexts(bs)) == Visit(convert, BlocksTexts(bs[..k]))
  {
    BlocksFieldSplit(bs, k, SyllableText);
    VisitConcat(convert, BlocksTexts(bs[..k]), BlocksTexts(bs[k..]));
  }

  lemma {:induction false} BlocksFieldSplit(bs: seq<SyllableLine>, k: nat, f: Syllable -> string)
    requires k <= |bs|
    ensures BlocksField(bs, f) == BlocksField(bs[..k], f) + BlocksField(bs[k..], f)
    decreases |bs|
  {
    if k < |bs| {
      var n := |bs|;
      BlocksFieldSplit(bs[..n - 1], k, f);
      assert bs[..n - 1][..k] == bs[..k];
      assert bs[k..][..|bs[k..]| - 1] == bs[..n - 1][k..];
    } else {
      assert bs[..k] == bs;
      assert bs[k..] == [];
    }
  }

  method RomanizeTimedLines(ls: seq<TimedLine>, convert: string -> Outcome<string>)
      returns (ls': seq<TimedLine>, visited: seq<string>, threw: bool)
    ensures (visited, threw) == Visit(convert, TimedTexts(ls))
    ensures |ls'| == |ls| && forall i :: 0 <= i < |ls| ==> TimedStep(ls[i], ls'[i], convert, !threw)
    ensures ConvertedUpTo(convert, TimedTexts(ls), Field(ls, TimedRomanized), Field(ls', TimedRomanized), Converted(visited, threw))
  {
    ls', visited, threw := ls, [], false;
    var i := 0;
    while i < |ls|
      invariant 0 <= i <= |ls| && |ls'| == |ls| && |visited| == i
      invariant (visited, false) == Visit(convert, TimedTexts(ls)[..i])
      invariant forall j :: 0 <= j < i ==> TimedStep(ls[j], ls'[j], convert, true)
      invariant forall j :: i <= j < |ls| ==> ls'[j] == ls[j]
    {
      var t := ls[i].text;
      var r := convert(t);
      VisitSnoc(convert, TimedTexts(ls), i, visited);
      visited := visited + [t];
      if r.Threw? {
        threw := true;
        VisitStops(convert, TimedTexts(ls), i + 1);
        return;
      }
      ls' := ls'[i := ls[i].(romanizedText := r.value)];
      i := i + 1;
    }
    assert TimedTexts(ls)[..i] == TimedTexts(ls);
  }

  method RomanizeStaticLines(ls: seq<StaticLine>, convert: string -> Outcome<string>)
      returns (ls': seq<StaticLine>, visited: seq<string>, threw: bool)
    ensures (visited, threw) == Visit(convert, StaticTexts(ls))
    ensures |ls'| == |ls| && forall i :: 0 <= i < |ls| ==> StaticStep(ls[i], ls'[i], convert, !threw)
    ensures ConvertedUpTo(convert, StaticTexts(ls), Field(ls, StaticRomanized), Field(ls', StaticRomanized), Converted(visited, threw))
  {
    ls', visited, threw := ls, [], false;
    var i := 0;
    while i < |ls|
      invariant 0 <= i <= |ls| && |ls'| == |ls| && |visited| == i
      invariant (visited, false) == Visit(convert, StaticTexts(ls)[..i])
      invariant forall j :: 0 <= j < i ==> StaticStep(ls[j], ls'[j], convert, true)
      invariant forall j :: i <= j < |ls| ==> ls'[j] == ls[j]
    {
      var t := ls[i].text;
      var r := convert(t);
      VisitSnoc(convert, StaticTexts(ls), i, visited);
      visited := visited + [t];
      if r.Threw? {
        threw := true;
        VisitStops(convert, StaticTexts(ls), i + 1);
        return;
      }
      ls' := ls'[i := ls[i].(romanizedText := r.value)];
      i := i + 1;
    }
    assert StaticTexts(ls)[..i] == StaticTexts(ls);
  }

  /** `addRomanizationToLyrics(lyric, converter)`, on the record's value. */
  method RomanizeLyrics(d: LyricData, convert: string -> Outcome<string>)
      returns (d': LyricData, visited: seq<string>, threw: bool)
    ensures (visited, threw) == Visit(convert, Texts(d))
    ensures LyricStep(d, d', convert, !threw)
    ensures ConvertedUpTo(convert, Texts(d), RomanizedTexts(d), RomanizedTexts(d'), Converted(visited, threw))
  {
    match d
    case SyllableData(_, _, bs, _, _) =>
      var bs', v, th := RomanizeBlocks(bs, convert);
      d', visited, threw := d.(blocks := bs'), v, th;
    case LineData(_, _, ls, _, _) =>
      var ls', v, th := RomanizeTimedLines(ls, convert);
      d', visited, threw := d.(lines := ls'), v, th;
    case StaticData(_, ls, _) =>
      var ls', v, th := RomanizeStaticLines(ls, convert);
      d', visited, threw := d.(staticLines := ls'), v, th;
  }

  // ---- Texts are never changed ----

  lemma {:induction false} PartsStepKeepsTexts(ps: seq<VocalPart>, ps': seq<VocalPart>, convert: string -> Outcome<string>, complete: bool)
    requires PartsStep(ps, ps', convert, complete)
    ensures PartsTexts(ps') == PartsTexts(ps)
    decreases |ps|
  {
    if |ps| > 0 {
      var n := |ps|;
      PartsStepKeepsTexts(ps[..n - 1], ps'[..n - 1], convert, complete);
      assert SyllableTexts(ps'[n - 1].syllables) == SyllableTexts(ps[n - 1].syllables);
    }
  }

  lemma {:induction false} BlocksStepKeepsTexts(bs: seq<SyllableLine>, bs': seq<SyllableLine>, convert: string -> Outcome<string>, complete: bool)
    requires BlocksStep(bs, bs', convert, complete)
    ensures BlocksTexts(bs') == BlocksTexts(bs)
    decreases |bs|
  {
    if |bs| > 0 {
      var n := |bs|;
      BlocksStepKeepsTexts(bs[..n - 1], bs'[..n - 1], convert, complete);
      var b, b' := bs[n - 1], bs'[n - 1];
      assert SyllableTexts(b'.lead.syllables) == SyllableTexts(b.lead.syllables);
      PartsStepKeepsTexts(BackgroundParts(b), BackgroundParts(b'), convert, complete);
    }
  }

  /** Romanising never changes a text, a timing, an alignment or the shape of the record. */
  lemma RomanizeKeepsTexts(d: LyricData, d': LyricData, convert: string -> Outcome<string>, complete: bool)
    requires LyricStep(d, d', convert, complete)
    ensures Texts(d') == Texts(d)
  {
    match d
    case SyllableData(_, _, bs, _, _) => BlocksStepKeepsTexts(bs, d'.blocks, convert, complete);
    case LineData(_, _, ls, _, _) =>
    case StaticData(_, ls, _) =>
  }

  // ---- The two converters ----

  /** `processLyrics` (utils/lyrics/processLyrics.ts): a detected language's romaniser, or the text itself. */
  function ConvertText(franc: string -> string, isHan: char -> bool, romanize: (Language, string) -> Outcome<string>, t: string): (r: Outcome<string>)
    ensures DetectLanguage(t, franc(t), isHan) == Unknown ==> r == Returned(t)
    ensures DetectLanguage(t, franc(t), isHan) != Unknown ==> r == romanize(DetectLanguage(t, franc(t), isHan), t)
  {
    var lang := DetectLanguage(t, franc(t), isHan);
    if lang != Unknown then romanize(lang, t) else Returned(t)
  }

  /** Whether some text so far was classified into a language that has a romaniser. */
  function AnyRomanizable(franc: string -> string, isHan: char -> bool, ts: seq<string>): (r: bool)
    ensures r <==> exists i :: 0 <= i < |ts| && DetectLanguage(ts[i], franc(ts[i]), isHan) != Unknown
    decreases |ts|
  {
    if |ts| == 0 then false
    else
      assert forall i :: 0 <= i < |ts| - 1 ==> ts[..|ts| - 1][i] == ts[i];
      AnyRomanizable(franc, isHan, ts[..|ts| - 1]) || DetectLanguage(ts[|ts| - 1], franc(ts[|ts| - 1]), isHan) != Unknown
  }

  /** The override order of the older variant: kana, then Hangul, then CJK ideographs, else the detector. */
  function LegacyLanguage(t: string, detected: string): (lang: string)
    ensures AnyChar(t, IsKanaLegacy) ==> lang == "jpn"
    ensures !AnyChar(t, IsKanaLegacy) && AnyChar(t, IsHangul) ==> lang == "kor"
    ensures !AnyChar(t, IsKanaLegacy) && !AnyChar(t, IsHangul) && AnyChar(t, IsCjk) ==> lang == "cmn"
    ensures !AnyChar(t, IsKanaLegacy) && !AnyChar(t, IsHangul) && !AnyChar(t, IsCjk) ==> lang == detected
  {
    if AnyChar(t, IsKanaLegacy) then "jpn"
    else if AnyChar(t, IsHangul) then "kor"
    else if AnyChar(t, IsCjk) then "cmn"
    else detected
  }

  /** `[ぁ-んァ-ン]`, without the iteration mark. */
  predicate IsKanaLegacy(c: char) {
    '\U{3041}' <= c <= '\U{3093}' || '\U{30A1}' <= c <= '\U{30F3}'
  }

  /** `[\u4E00-\u9FFF]` */
  predicate IsCjk(c: char) {
    '\U{4E00}' <= c <= '\U{9FFF}'
  }

  function Concat(rows: seq<seq<string>>): seq<string>
    decreases |rows|
  {
    if |rows| == 0 then [] else Concat(rows[..|rows| - 1]) + rows[|rows| - 1]
  }

  /** The foreign pieces of the older converter; each may throw. */
  datatype LegacyTools = LegacyTools(
    eld: string -> Outcome<string>,
    kuroshiroInitSucceeds: bool,
    kuroshiro: string -> Outcome<string>,
    aromanize: string -> Outcome<string>,
    pinyin: string -> Outcome<seq<seq<string>>>)

  /** The converter of `processLyrics` in utils/lyrics.ts. */
  function LegacyConvertText(tools: LegacyTools, t: string): (r: Outcome<string>)
    ensures tools.eld(t).Threw? ==> r.Threw?
    ensures tools.eld(t).Returned? && LegacyLanguage(t, tools.eld(t).value) !in ["jpn", "kor", "cmn"] ==> r == Returned(t)
    ensures tools.eld(t).Returned? && LegacyLanguage(t, tools.eld(t).value) == "cmn" && tools.pinyin(t).Returned?
            ==> r == Returned(Join(Concat(tools.pinyin(t).value), " "))
  {
    match tools.eld(t)
    case Threw => Threw
    case Returned(code) =>
      var lang := LegacyLanguage(t, code);
      if lang == "jpn" then (if tools.kuroshiroInitSucceeds then tools.kuroshiro(t) else Threw)
      else if lang == "kor" then tools.aromanize(t)
      else if lang == "cmn" then
        match tools.pinyin(t)
        case Threw => Threw
        case Returned(rows) => Returned(Join(Concat(rows), " "))
      else Returned(t)
  }

  predicate NeedsKuroshiro(tools: LegacyTools, t: string) {
    tools.eld(t).Returned? && LegacyLanguage(t, tools.eld(t).value) == "jpn"
  }

  /** The lazily created analyser: created on the first Japanese text, reused afterwards. */
  datatype KuroshiroState = KuroshiroState(created: bool, inits: nat)

  function KuroshiroAfter(tools: LegacyTools, k: KuroshiroState, t: string): KuroshiroState {
    if NeedsKuroshiro(tools, t) && !k.created then KuroshiroState(true, k.inits + 1) else k
  }

  /** However many Japanese texts there are, the analyser is initialised at most once. */
  lemma {:induction false} KuroshiroInitOnce(tools: LegacyTools, ts: seq<string>)
    ensures var k := Fold((k, t) => KuroshiroAfter(tools, k, t), KuroshiroState(false, 0), ts);
      k.inits <= 1 && (k.inits == 1 <==> k.created)
      && (k.created <==> exists i :: 0 <= i < |ts| && NeedsKuroshiro(tools, ts[i]))
    decreases |ts|
  {
    if |ts| > 0 {
      var front := ts[..|ts| - 1];
      KuroshiroInitOnce(tools, front);
      assert forall i :: 0 <= i < |front| ==> front[i] == ts[i];
    }
  }

  /** A lyric record as the renderers hold it: mutated in place by romanisation. */
  class Lyric {
    var data: LyricData
    var hasRomanizedText: bool

    constructor(data: LyricData, hasRomanizedText: bool)
      ensures this.data == data && this.hasRomanizedText == hasRomanizedText
    {
      this.data := data;
      this.hasRomanizedText := hasRomanizedText;
    }

    /**
     * `processLyrics` (utils/lyrics/processLyrics.ts): texts are romanised in
     * order until a romaniser throws; the flag says whether any text seen was
     * in a language with a romaniser.
     */
    method ProcessLyrics(franc: string -> string, isHan: char -> bool, romanize: (Language, string) -> Outcome<string>)
      modifies this
      ensures var convert := t => ConvertText(franc, isHan, romanize, t);
        var (visited, threw) := Visit(convert, Texts(old(data)));
        LyricStep(old(data), data, convert, !threw)
        && ConvertedUpTo(convert, Texts(old(data)), RomanizedTexts(old(data)), RomanizedTexts(data), Converted(visited, threw))
        && (hasRomanizedText <==> exists i :: 0 <= i < |visited| && DetectLanguage(visited[i], franc(visited[i]), isHan) != Unknown)
    {
      hasRomanizedText := false;
      var convert := t => ConvertText(franc, isHan, romanize, t);
      var d', visited, threw := RomanizeLyrics(data, convert);
      data := d';
      hasRomanizedText := AnyRomanizable(franc, isHan, visited);
    }

    /**
     * `processLyrics` (utils/lyrics.ts): the flag is set only when the whole
     * walk completes; the number of analyser initialisations is returned.
     */
    method ProcessLyricsLegacy(tools: LegacyTools) returns (kuroshiroInits: nat)
      modifies this
      ensures var convert := t => LegacyConvertText(tools, t);
        var (visited, threw) := Visit(convert, Texts(old(data)));
        LyricStep(old(data), data, convert, !threw)
        && ConvertedUpTo(convert, Texts(old(data)), RomanizedTexts(old(data)), RomanizedTexts(data), Converted(visited, threw))
        && hasRomanizedText == !threw
        && kuroshiroInits <= 1
        && (kuroshiroInits == 1 <==> exists i :: 0 <= i < |visited| && NeedsKuroshiro(tools, visited[i]))
    {
      hasRomanizedText := false;
      var convert := t => LegacyConvertText(tools, t);
      var d', visited, threw := RomanizeLyrics(data, convert);
      data := d';
      var k := Fold((k, t) => KuroshiroAfter(tools, k, t), KuroshiroState(false, 0), visited);
      KuroshiroInitOnce(tools, visited);
      kuroshiroInits := k.inits;
      if !threw {
        hasRomanizedText := true;
      }
    }
  }
}
