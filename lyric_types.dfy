/** The lyric records delivered by the lyrics service, with their romanised-text slots. */
module LyricTypes {
  import opened Wrappers

  datatype Syllable = Syllable(text: string, romanizedText: string, isPartOfWord: bool, startTime: real, endTime: real)

  datatype VocalPart = VocalPart(syllables: seq<Syllable>, startTime: real, endTime: real)

  /** One block of syllable-synced lyrics: a lead part and optional background parts. */
  datatype SyllableLine = SyllableLine(kind: string, oppositeAligned: bool, lead: VocalPart, background: Option<seq<VocalPart>>)

  /** One line of line-synced lyrics. */
  datatype TimedLine = TimedLine(kind: string, oppositeAligned: bool, text: string, romanizedText: string, startTime: real, endTime: real)

  datatype StaticLine = StaticLine(text: string, romanizedText: string)

  /** The three shapes of lyrics, told apart by their `Type`. */
  datatype LyricData =
    | SyllableData(songWriters: seq<string>, startTime: real, blocks: seq<SyllableLine>, endTime: real, id: string)
    | LineData(songWriters: seq<string>, startTime: real, lines: seq<TimedLine>, endTime: real, id: string)
    | StaticData(songWriters: seq<string>, staticLines: seq<StaticLine>, id: string)

  /** The background parts of a block; a missing list has none. */
  function BackgroundParts(b: SyllableLine): seq<VocalPart> {
    b.background.GetOr([])
  }

  /** The syllables of several parts, part after part. */
  function PartsSyllables(ps: seq<VocalPart>): seq<Syllable> {
    if |ps| == 0 then [] else ps[0].syllables + PartsSyllables(ps[1..])
  }

  /** A block's syllables in document order: the lead, then each background part. */
  function AllSyllables(b: SyllableLine): seq<Syllable> {
    b.lead.syllables + PartsSyllables(BackgroundParts(b))
  }

  /** The renderers' settings, from `lyrics` in the app store. */
  datatype LyricsSettings = LyricsSettings(forceRomanized: bool, maxTranslateUpLetter: real, maxTranslateUpWord: real, splitThresholdMs: real)

  /** The text a renderer shows for a syllable: the romanisation when forced and non-empty, otherwise the text. */
  function DisplayText(s: Syllable, forceRomanized: bool): string {
    if forceRomanized && s.romanizedText != "" then s.romanizedText else s.text
  }
}
