# Lucid Lyrics: a verified model of the lyrics timeline engine

This project models the parts of Lucid Lyrics, a Spicetify extension that shows
synchronised lyrics, that decide what is shown when. The model is written in
Dafny and covers:

- **The canvas renderer** (`SyllableLyricsOnCanvas.tsx`), the centre of the model.
  - `recalculateLayout`:
    - groups syllables into words and wraps words greedily into lines;
    - splits long syllables into timed letters;
    - inserts a three-dot interlude line before a block that starts more than two seconds after the previous one ended;
    - wraps the credits;
    - computes the furthest scroll position and one hit box per line group.
  - The mounted renderer is a class, `CanvasEngine.Engine`. Its methods are the wheel handler, the re-enable timer, clicks, mouse moves and one animation frame.
  - A frame decides which groups are active, which line the view follows, how the view scrolls, how groups fade and grow, how the hover card moves, and how interlude dots and word fills progress.
- **The DOM renderers** (`SyllableLyrics.tsx`, `LineLyrics.tsx`) and their shared helpers (`common.ts`, `Interlude.tsx`):
  - interlude insertion;
  - the active-line scan;
  - letter windows and fill percentages;
  - distance blur;
  - the scroll guards;
  - the animation styles that remember the previous fill.
- **Romanisation**:
  - the Greek transliterator (`greekRomanization.js`), as written and with its capital double-rho rule corrected;
  - the in-place traversals that fill `RomanizedText`, in the current and the older version (`processLyrics.ts`, `utils/lyrics.ts`);
  - the language priority chain (`language.ts`).
- **Utilities**: `cx`, `serializeFilters`, `deepMerge`, the timeline clock, the slider, the custom scrollbar and the colour picker's helpers.
- **Stores**: the settings store and the session store, the Spotify token cache, and the now-playing bookkeeping.

How the source is represented:

- **Numbers.** Times and widths are `real`. Where the source divides by a quantity that can be 0, a JavaScript number (`JsNumber.Number`: finite, NaN or an infinity) carries the result.
- **Strings.** A string is a sequence of Unicode scalar values (Dafny `char`); characters outside the Basic Multilingual Plane are one element here and two UTF-16 code units in the source, as "## Left out" says.
- **Mutable state.**
  - A component whose state changes is a class whose methods are its event handlers; timers and animation frames are explicit method calls.
  - Each such method is stated against a function of the old state, and the properties are proved about those functions.
- **Defects.** Where the source does not do what it evidently intends (see "## Findings"), the operations model the code as written and a corrected variant sits beside them under its own name. The one exception is the canvas layout's line-height rule: the layout operations use the corrected rule, as "## Left out" lists.
- **Outside the model.** Text measurement, language detectors, romanisers, network answers and the clock are parameters.

## Model

| member | source | states |
|---|---|---|
| ClassNames.EnabledKeys | src/lib/cx.ts:8-13 | an object argument yields exactly the keys whose value is truthy, at most one per entry |
| ClassNames.Rendered | src/lib/cx.ts:4-16 | the parts kept are all non-empty (the `filter(Boolean)`), at most one per argument |
| ClassNames.RenderedAppend | src/lib/cx.ts:4-16 | each argument is rendered on its own: the parts of `a + b` are the parts of `a` followed by those of `b` |
| ClassNames.CxIgnoresFalsy | src/lib/cx.ts:6 | a falsy argument contributes nothing: dropping it from anywhere leaves `cx(...)` unchanged |
| ClassNames.CxJoinsStrings | src/lib/cx.ts:7 | non-empty string arguments are kept verbatim and in argument order |
| ClassNames.CxFlags | src/lib/cx.ts:8-13 | an object with a truthy non-empty key contributes one part, its truthy keys joined by spaces, at its own position |
| ClassNames.JoinNonEmpty | src/lib/cx.ts:16-17 | the joined class string is non-empty as soon as one part is |
| ClassNames.Cx | src/lib/cx.ts:4-17 | defines `cx(...)` as the rendered parts joined by spaces; stated by the lemmas above |
| ClassNames.EnabledKeysAppend | src/lib/cx.ts:8-13 | the truthy keys of two entry lists in a row are those of the first followed by those of the second, so keys come out in entry order |
| SerializeFilters.Slots | src/utils/dom/serializeFilters.ts:14-20 | one slot per component, in the fixed order |
| SerializeFilters.NonEmpty | src/utils/dom/serializeFilters.ts:21 | `filter(Boolean)` keeps exactly the non-empty strings |
| SerializeFilters.EmittedComponents | src/utils/dom/serializeFilters.ts:15-19 | a component is kept iff its skip flag is clear and its value is present and non-zero |
| SerializeFilters.Texts | src/utils/dom/serializeFilters.ts:15-19 | one CSS text per kept component, in order |
| SerializeFilters.NonEmptySlots | src/utils/dom/serializeFilters.ts:14-21 | filtering the five slots leaves exactly the texts of the emitted components, in blur, brightness, contrast, saturate, opacity order |
| SerializeFilters.SerializeSpec | src/utils/dom/serializeFilters.ts:13-22 | the result is the emitted components' texts joined by single spaces, and a component is emitted iff not skipped and non-zero |
| SerializeFilters.Serialize | src/utils/dom/serializeFilters.ts:13-22 | defines `serializeFilters`; stated by `SerializeSpec` |
| SerializeFilters.SerializeNoFilter | src/utils/dom/serializeFilters.ts:15-22 | with no filter record the result is the empty string |
| SerializeFilters.SerializeSame | src/utils/dom/serializeFilters.ts:13-22 | two inputs that emit the same components with the same texts serialize to the same string |
| SerializeFilters.ZeroBlurIsAbsent | src/utils/dom/serializeFilters.ts:15 | a blur of 0 is falsy and is omitted exactly like a missing blur |
| SerializeFilters.SkipBlurRemovesOnlyBlur | src/utils/dom/serializeFilters.ts:13-15 | `skipBlur` removes the blur component and nothing else |
| ObjectMerge.OwnEntries | src/utils/deepMerge.ts:2 | the spread copies an object's own properties; primitives other than strings contribute none |
| ObjectMerge.Get | src/utils/deepMerge.ts:5-6 | a property read finds a value iff the key is among the object's keys |
| ObjectMerge.Put | src/utils/deepMerge.ts:9-11 | assigning an existing key keeps the length (the key keeps its place); a new key is appended at the end, which is JavaScript's order for keys that are not array indices |
| ObjectMerge.PutKeys | src/utils/deepMerge.ts:9-11 | after `output[key] = v` the keys are the old keys plus `key` |
| ObjectMerge.GetPut | src/utils/deepMerge.ts:9-11 | after `output[key] = v`, reading `key` gives `v` and every other key reads as before |
| ObjectMerge.Merged | src/utils/deepMerge.ts:1-16 | `deepMerge` returns a (fresh) object |
| ObjectMerge.DeepMerge | src/utils/deepMerge.ts:1-16 | the loop over the source's keys, recursing on plain-object values, computes exactly `Merged(target, source)` |
| ObjectMerge.MergeProperty | src/utils/deepMerge.ts:5-12 | one turn of the loop stores under `key` the recursive merge for a plain object (into `{}` when the target value is nullish) and the source value itself otherwise |
| ObjectMerge.MergeFromStep | src/utils/deepMerge.ts:4-13 | visiting property `i` then the rest is the same as storing it and visiting from `i + 1` |
| ObjectMerge.MergeFromGet | src/utils/deepMerge.ts:4-13 | after the loop from `i`, a key of the remaining source properties holds its merged value and every other key holds what it held before |
| ObjectMerge.MergedGet | src/utils/deepMerge.ts:2-13 | a key of the source holds the merged value (recursive merge for plain objects, overwrite for anything else including 0, '', null and undefined); every other key keeps the target's value |
| ObjectMerge.MergeFromKeys | src/utils/deepMerge.ts:4-13 | a key is in the loop's output iff it was in the output already or is a remaining source key |
| ObjectMerge.MergedKeys | src/utils/deepMerge.ts:2-13 | the result's keys are the target's own keys and the source's keys, no others |
| ObjectMerge.PutKeepsKeys | src/utils/deepMerge.ts:9-11 | an assignment never moves or removes an existing key |
| ObjectMerge.MergeFromPrefix | src/utils/deepMerge.ts:4-13 | the loop keeps the keys it started with, in their order, at the front (JavaScript's order when no key is an array index) |
| ObjectMerge.MergedKeepsTargetOrder | src/utils/deepMerge.ts:2-13 | the target's own keys come first in the result, in their original order (JavaScript's order when no key is an array index) |
| ObjectMerge.GetUnique | src/utils/deepMerge.ts:5 | in an object with distinct keys, reading the key of entry `i` gives entry `i`'s value |
| ObjectMerge.MergeEmpty | src/utils/deepMerge.ts:1-16 | merging an empty source gives a copy of the target's own properties |
| TimelineControls.JsRem | src/components/ui/TimelineControls.tsx:56 | JavaScript `%`: for a non-negative dividend the remainder lies in `[0, 60)` and agrees with the mathematical one; for a negative dividend it lies in `(-60, 0]` |
| TimelineControls.FloorDiv60 | src/components/ui/TimelineControls.tsx:55 | `Math.floor(totalSec / 60)` is the integer quotient |
| TimelineControls.ClockUnfold | src/components/ui/TimelineControls.tsx:55-57 | the label is the minute count, a colon and the remainder padded to two characters |
| TimelineControls.FormatTimeShape | src/components/ui/TimelineControls.tsx:53-58 | for a non-negative position the label is `m:ss` with `m = floor(ms/1000) / 60` (not capped) and exactly two seconds digits |
| TimelineControls.ParsePadded | src/components/ui/TimelineControls.tsx:56-57 | the padded seconds field is two digits whose value is the seconds, for every value below 60 |
| TimelineControls.ClockRoundTrip | src/components/ui/TimelineControls.tsx:55-57 | the label of `t` whole seconds reads back as `t`: minutes times 60 plus seconds |
| TimelineControls.FormatTimeRoundTrip | src/components/ui/TimelineControls.tsx:53-58 | the label reads back as `floor(ms / 1000)`: only sub-second milliseconds are lost |
| TimelineControls.FormatTime | src/components/ui/TimelineControls.tsx:53-58 | defines `formatTime`; stated by `FormatTimeShape` and `FormatTimeRoundTrip` |
| TimelineControls.ProgressRatio | src/components/ui/TimelineControls.tsx:30 | the slider value is 0 while the duration is 0, and lies in `[0, 100]` for a position within the duration |
| TimelineControls.PositionOfRatio | src/components/ui/TimelineControls.tsx:30-41 | moving the slider to the value it shows maps back to the position it was drawn from: `(v/100)·duration` inverts the ratio |
| TimelineControls.Timeline.constructor | src/components/ui/TimelineControls.tsx:11-16 | the controls mount at position 0, not dragging, with the track's duration |
| TimelineControls.Timeline.IntervalTick | src/components/ui/TimelineControls.tsx:18-23 | the 100 ms poll copies the player position unless a drag is in progress |
| TimelineControls.Timeline.SliderChange | src/components/ui/TimelineControls.tsx:40-43 | a slider change shows `(val/100)·duration` and seeks to that same position at once (the debounce is not modelled) |
| TimelineControls.Timeline.ActiveChange | src/components/ui/TimelineControls.tsx:44 | the slider's drag report sets `isDragging` and nothing else |
| SliderControl.FractionFromMouse | src/components/ui/Slider.tsx:27-31 | the mouse fraction is 0 without a bar and otherwise clamped to `[0, 1]`; it is NaN exactly when the bar has zero width and the mouse is on its left edge, and equals the plain ratio inside a non-empty bar |
| SliderControl.RawProgress | src/components/ui/Slider.tsx:35-36 | `min + fraction·(max − min)` is NaN iff the fraction is, and lies in `[min, max]` for a fraction in `[0, 1]` |
| SliderControl.Quantize | src/components/ui/Slider.tsx:37-39 | with a positive step the value is `floor(raw/step)·step`, never above `raw` and above `raw − step`; without a step (or a zero step, which is falsy) the raw value is kept |
| SliderControl.FloorMultiple | src/components/ui/Slider.tsx:38 | `floor(x/s)·s ≤ x < floor(x/s)·s + s` for a positive step |
| SliderControl.QuantizeIdempotent | src/components/ui/Slider.tsx:37-39 | quantising an already quantised value changes nothing |
| SliderControl.ProgressAtBounds | src/components/ui/Slider.tsx:35-39 | with a step and a non-empty bar the new progress lies in `(min − step, max]` |
| SliderControl.ProgressPercentage | src/components/ui/Slider.tsx:65-68 | the percentage is in `[0, 100]` for a progress in `[min, max]`, and not a number when `min == max` |
| SliderControl.Slider.constructor | src/components/ui/Slider.tsx:13-23 | a new slider starts at `minimumValue`, not dragging, with no handlers attached |
| SliderControl.Slider.Update | src/components/ui/Slider.tsx:33-45 | `updateProgress` reports the new progress, and stores it only when the slider is uncontrolled (`value` undefined) |
| SliderControl.Slider.StartDrag | src/components/ui/Slider.tsx:47-63 | a drag start sets `dragging`, reports `onActiveChange(true)` then the progress, and attaches one handler pair |
| SliderControl.Slider.MouseMove | src/components/ui/Slider.tsx:53-61 | each attached mousemove handler reports the new progress once |
| SliderControl.Slider.MouseUp | src/components/ui/Slider.tsx:54-59 | a mouseup clears `dragging`, reports `onActiveChange(false)` once per attached pair and removes every pair |
| ScrollableArea.ThumbHeightFor | src/components/ui/Scrollable.tsx:95-98 | the thumb is at least 20 px tall; it is either 20 px or the visible fraction of the track, and never taller than a track of at least 20 px |
| ScrollableArea.ProperFraction | src/components/ui/Scrollable.tsx:97 | the visible fraction of scrollable content lies in `[0, 1)`, so its share of the track never exceeds the track |
| ScrollableArea.ThumbOffset | src/components/ui/Scrollable.tsx:80-84 | when the content overflows the offset is a number between 0 and `trackHeight − thumbHeight` for any in-range scroll position; with no overflow and scroll position 0 it is NaN (0/0) |
| ScrollableArea.FractionAtMostOne | src/components/ui/Scrollable.tsx:83-84 | a ratio in `[0, 1]` scales a non-negative length to between 0 and that length |
| ScrollableArea.DraggedScrollTop | src/components/ui/Scrollable.tsx:141-148 | the dragged scroll position never exceeds `scrollHeight − clientHeight` and is either that bound or the start position plus the mouse delta scaled by `clientHeight / thumbHeight` |
| ScrollableArea.DragMonotone | src/components/ui/Scrollable.tsx:142-148 | moving the mouse further down never gives a smaller scroll position |
| ScrollableArea.Scrollable.constructor | src/components/ui/Scrollable.tsx:23-39 | the initial state: timeout 2000 ms unless given, thumb 20 px at offset 0, not dragging, not scrolling, not scrollable, not hovered, no timer pending |
| ScrollableArea.Scrollable.Resize | src/components/ui/Scrollable.tsx:88-103 | the container is scrollable exactly when the content is taller than its view; only then is the thumb height recomputed, and nothing else changes |
| ScrollableArea.Scrollable.Scroll | src/components/ui/Scrollable.tsx:67-86 | a scroll event moves the thumb to the offset of the new scroll position, marks the user as scrolling and (re)arms the timer to fire `userScrollTimeout` later |
| ScrollableArea.Scrollable.Tick | src/components/ui/Scrollable.tsx:70-72 | once the deadline has passed the user is no longer scrolling and no timer is pending; before it nothing changes |
| ScrollableArea.Scrollable.ThumbMouseDown | src/components/ui/Scrollable.tsx:124-130 | pressing the thumb records the mouse position and the scroll position and starts a drag |
| ScrollableArea.Scrollable.ThumbMouseUp | src/components/ui/Scrollable.tsx:132-134 | releasing the mouse ends the drag and changes nothing else |
| ScrollableArea.Scrollable.ThumbMouseMove | src/components/ui/Scrollable.tsx:136-153 | a move yields a new scroll position exactly while dragging, and that position is the dragged scroll position, bounded by the scrollable range |
| ScrollableArea.Scrollable.MouseEnter | src/components/ui/Scrollable.tsx:170 | hovering sets only the hovered flag |
| ScrollableArea.Scrollable.MouseLeave | src/components/ui/Scrollable.tsx:171 | leaving clears only the hovered flag |
| ScrollableArea.UserScrollWindow | src/components/ui/Scrollable.tsx:62-73 | after a scroll, auto-scroll is refused at once and is allowed again exactly when `userScrollTimeout` has elapsed |
| ColorHelpers.HexDigitValue | src/components/ui/ColorPicker.tsx:9-11 | a hex digit's value is below 16 |
| ColorHelpers.HexChar | src/components/ui/ColorPicker.tsx:9-11 | every value below 16 has a hex digit that reads back as that value |
| ColorHelpers.HexPrefix | src/components/ui/ColorPicker.tsx:9-11 | the digits `parseInt(…, 16)` reads are the longest prefix made only of hex digits |
| ColorHelpers.ParseIntHex | src/components/ui/ColorPicker.tsx:9-11 | `parseInt(s, 16)` gives a number only when `s` holds a hex digit (otherwise NaN) |
| ColorHelpers.Slice | src/components/ui/ColorPicker.tsx:9-11 | `slice(a, b)` is the plain sub-string when the bounds are in range |
| ColorHelpers.HexByte | src/components/ui/ColorPicker.tsx:9-11 | a byte is written as two hex digits |
| ColorHelpers.ParseHexByte | src/components/ui/ColorPicker.tsx:9-11 | reading back the two hex digits of a byte gives the byte (round trip) |
| ColorHelpers.ContrastColor | src/components/ui/ColorPicker.tsx:8-14 | the preview text colour is always `#000` or `#fff` |
| ColorHelpers.ContrastOfRgb | src/components/ui/ColorPicker.tsx:8-14 | for `#rrggbb` the text is black exactly when `299r + 587g + 114b > 127500`, i.e. luminance above one half, and white otherwise |
| ColorHelpers.WhiteGetsBlackText | src/components/ui/ColorPicker.tsx:8-14 | white (`#ffffff`) gets black text |
| ColorHelpers.BlackGetsWhiteText | src/components/ui/ColorPicker.tsx:8-14 | black (`#000000`) gets white text |
| ColorHelpers.MatchAt | src/components/ui/ColorPicker.tsx:17 | a match of `var\((--[^)]+)\)` starting at a position begins with `var(--` and closes at the first `)` after it |
| ColorHelpers.FirstMatchFrom | src/components/ui/ColorPicker.tsx:17 | the regular expression finds the leftmost match: no earlier position matches, and no match means no position matches |
| ColorHelpers.VarName | src/components/ui/ColorPicker.tsx:17 | the captured name starts with `--`, has at least one more character and holds no `)` |
| ColorHelpers.ResolveCssVariable | src/components/ui/ColorPicker.tsx:16-21 | a resolved value is the trimmed property value of the captured name, non-empty and without surrounding white space; an empty trimmed value yields null |
| ColorHelpers.ResolvedColor | src/components/ui/ColorPicker.tsx:23-25 | a non-variable colour is kept; a `var(` colour resolves to its property value, or to `#000000` when that fails |
| ColorHelpers.NoCloseParenFallsBack | src/components/ui/ColorPicker.tsx:17-25 | a `var(` colour with no closing parenthesis falls back to `#000000` |
| ColorHelpers.SimpleVarName | src/components/ui/ColorPicker.tsx:17 | `var(--name)` captures exactly `--name` |
| AppSettings.UniqueTail | src/store/appStore.ts:30 | a property list with distinct keys keeps them distinct after its first property, which does not reappear |
| AppSettings.SpreadGet | src/store/appStore.ts:30 | `{ ...base, ...patch }` has the patch's value for every key the patch holds and the base's value for every other key |
| AppSettings.PutPresent | src/store/appStore.ts:30-54 | assigning a property the value it already has leaves the object unchanged |
| AppSettings.PutPut | src/store/appStore.ts:30-54 | a second assignment to the same property overrides the first |
| AppSettings.SpreadAlready | src/store/appStore.ts:30 | spreading a patch whose values the base already holds leaves the base unchanged |
| AppSettings.SpreadIdempotent | src/store/appStore.ts:30 | spreading the same patch twice is the same as once |
| AppSettings.LookupPatched | src/store/appStore.ts:30-47 | a nested spread rebuilds the first object on the path around the patched rest of the path |
| AppSettings.PatchedTarget | src/store/appStore.ts:30-47 | after a nested spread the object at the path holds the patch's values over its old properties |
| AppSettings.PatchedSiblings | src/store/appStore.ts:30-47 | a nested spread leaves every sibling property along the path unchanged |
| AppSettings.PatchedIdempotent | src/store/appStore.ts:30-47 | applying the same nested patch twice is the same as once |
| AppSettings.PatchedStep | src/store/appStore.ts:30-47 | a nested spread of `[a] + rest` replaces property `a` by its patched value and keeps the rest of the object |
| AppSettings.Patched | src/store/appStore.ts:30-47 | the nested spread of a setter always builds an object |
| AppSettings.SetBgEffect | src/store/appStore.ts:30 | `setBg` overrides exactly the given background properties; other background properties and all other settings are unchanged |
| AppSettings.SetBgOptionsEffect | src/store/appStore.ts:31-37 | `setBgOptions` overrides exactly the given option properties and leaves the rest of `bg` and of the state unchanged |
| AppSettings.SetBgFilterEffect | src/store/appStore.ts:38-47 | `setBgFilter` overrides exactly the given filter properties and leaves every other property at each level unchanged |
| AppSettings.SetFieldEffect | src/store/appStore.ts:48-54 | a top-level setter changes that one setting and nothing else |
| AppSettings.ToggleAsWrittenKeepsSetting | src/store/appStore.ts:52 | as written, `toggleRomanization` leaves the `lyrics.forceRomanized` setting that the lyrics read unchanged |
| AppSettings.ToggleAsWrittenTwiceAddsField | src/store/appStore.ts:52 | as written, toggling twice from a fresh state adds a top-level `forceRomanized: false` and does not return to the starting state |
| AppSettings.ToggleFlipsSetting | src/store/appStore.ts:52 | the corrected toggle flips `lyrics.forceRomanized` and leaves every other top-level setting unchanged |
| AppSettings.ToggleTwice | src/store/appStore.ts:52 | the corrected toggle applied twice restores the state |
| AppSettings.ToggleShape | src/store/appStore.ts:52 | the corrected toggle writes the negated setting into `lyrics` and changes nothing else |
| AppSettings.MergeValue | src/store/appStore.ts:56 | `merge` keeps objects as objects and arrays as arrays, skips `undefined` over an existing key, and otherwise assigns the source value |
| AppSettings.MergeCopies | src/store/appStore.ts:56 | merging a plain value into nothing copies it |
| AppSettings.MergeCopiesEntries | src/store/appStore.ts:56 | merging a plain object's remaining properties onto its own prefix reproduces the object |
| AppSettings.MergeCopiesItems | src/store/appStore.ts:56 | merging a plain array's remaining elements onto its own prefix reproduces the array |
| AppSettings.MergeEntriesGet | src/store/appStore.ts:56 | after merging, a key the source holds has the merge of its old and source values, and any other key keeps its value |
| AppSettings.MergeEntriesGetStep | src/store/appStore.ts:56 | one merged property preserves the per-key description of the rest of the merge |
| AppSettings.MergeEntriesKeys | src/store/appStore.ts:56 | the merged object has exactly the keys of the target and of the source |
| AppSettings.DefaultsPlain | src/store/appStore.ts:2 | the default settings have distinct keys at every depth |
| AppSettings.Imported | src/store/appStore.ts:56 | importing a configuration always leaves an object state |
| AppSettings.Reset | src/store/appStore.ts:65-70 | resetting always leaves an object state |
| AppSettings.MergedDefaults | src/store/appStore.ts:56 | `merge({}, DEFAULT_APP_STATE)` is a copy of the defaults |
| AppSettings.PutUnique | src/store/appStore.ts:30-56 | assigning a property keeps the keys of an object distinct |
| AppSettings.MergeEntriesUnfold | src/store/appStore.ts:56 | merging from property `i` is merging property `i` and then the rest |
| AppSettings.MergeEntriesUnique | src/store/appStore.ts:56 | merging keeps the keys of the target distinct |
| AppSettings.ImportedGet | src/store/appStore.ts:56 | after `importConfig` each key the configuration holds has the merge of its default and configured value; other default keys get their defaults; any other key keeps its old value |
| AppSettings.ImportedScalar | src/store/appStore.ts:56 | a configured scalar setting is imported unchanged |
| AppSettings.ResetGet | src/store/appStore.ts:65-70 | after `resetStore` every default key has its default value and any other key keeps its value |
| AppSettings.ImportEmptyIsReset | src/store/appStore.ts:56-70 | importing an empty configuration has the same effect as resetting |
| AppSettings.AppStore.constructor | src/store/appStore.ts:26-81 | the store starts from the defaults and then imports its own state |
| AppSettings.AppStore.SetBg | src/store/appStore.ts:30 | the new state is the nested spread of the patch into `bg` |
| AppSettings.AppStore.SetBgOptions | src/store/appStore.ts:31-37 | the new state is the nested spread of the patch into `bg.options` |
| AppSettings.AppStore.SetBgFilter | src/store/appStore.ts:38-47 | the new state is the nested spread of the patch into `bg.options.filter` |
| AppSettings.AppStore.SetIsDevMode | src/store/appStore.ts:48-51 | the new state has the given `isDevMode` and is otherwise the old state |
| AppSettings.AppStore.SetIsAnalyticsActive | src/store/appStore.ts:53 | the new state has the given `isAnalyticsActive` and is otherwise the old state |
| AppSettings.AppStore.SetIsNpvCardOpen | src/store/appStore.ts:54 | the new state has the given `isNpvCardOpen` and is otherwise the old state |
| AppSettings.AppStore.ToggleRomanizationSetting | src/store/appStore.ts:52 | the corrected toggle flips the romanisation setting |
| AppSettings.AppStore.ToggleRomanizationSettingAsWritten | src/store/appStore.ts:52 | as written, the store's toggle flips a top-level `forceRomanized` field and leaves the setting the renderers read unchanged |
| AppSettings.AppStore.ImportConfig | src/store/appStore.ts:56 | the new state is the old one with the merge of the defaults and the configuration spread over it |
| AppSettings.AppStore.ExportConfig | src/store/appStore.ts:57-64 | export returns the serialised state exactly when serialisation does not throw, and null otherwise |
| AppSettings.AppStore.ResetStore | src/store/appStore.ts:65-70 | the new state is the old one with the defaults spread over it |
| SessionStore.Override | src/store/tempStore.ts:62-74 | a spread patch value replaces the old one when present and keeps it when absent |
| SessionStore.ApplyFrame | src/store/tempStore.ts:55-79 | every setter changes only its own part of the session state |
| SessionStore.Apply | src/store/tempStore.ts:55-79 | defines the state after one setter; stated by `ApplyFrame`, `ApplyIdempotent` and `SetPlayerMerges` |
| SessionStore.ApplyIdempotent | src/store/tempStore.ts:55-79 | applying the same setter call twice is the same as once |
| SessionStore.ApplyAllKeeps | src/store/tempStore.ts:55-79 | a sequence of setter calls none of which targets a part leaves that part unchanged |
| SessionStore.SameAtTrans | src/store/tempStore.ts:55-79 | "unchanged at a part" composes across successive states |
| SessionStore.SetPlayerMerges | src/store/tempStore.ts:58-64 | `setPlayer` overwrites exactly the player fields the patch carries and keeps the others |
| SessionStore.Store.constructor | src/store/tempStore.ts:23-51 | the store starts from the default session state: fullscreen hidden, not scrolling, no page images, empty token, online flag from the browser |
| SessionStore.Store.Set | src/store/tempStore.ts:55-79 | each setter call moves the state to the result of applying it |
| SpotifyAuth.ValidResponse | src/utils/fetch/getSpotifyToken.ts:16-22 | a fetched token is accepted exactly when the call returned an object carrying both an access token and an expiry time, and then it is that object |
| SpotifyAuth.TokenResultCases | src/utils/fetch/getSpotifyToken.ts:6-31 | a cached complete token more than five minutes from expiry is returned as is; otherwise a thrown fetch or an incomplete response gives null and a complete response is returned |
| SpotifyAuth.TokenResult | src/utils/fetch/getSpotifyToken.ts:6-31 | defines the token `getSpotifyToken` resolves to; stated by `TokenResultCases` and `ResultComplete` |
| SpotifyAuth.ResultComplete | src/utils/fetch/getSpotifyToken.ts:10-26 | a returned token always carries both an access token and an expiry |
| SpotifyAuth.StoredAfterCases | src/utils/fetch/getSpotifyToken.ts:10-26 | the stored token changes only on a cache miss with a valid response, and then the stored token is the one returned |
| SpotifyAuth.RefreshThenCached | src/utils/fetch/getSpotifyToken.ts:4-26 | after a refresh, any call before the new expiry minus the five-minute buffer is served from the cache without storing anything |
| SpotifyAuth.CacheStable | src/utils/fetch/getSpotifyToken.ts:10-14 | a token served from the cache now is also served from it at any earlier time |
| SpotifyAuth.Header | src/utils/fetch/getSpotifyToken.ts:33-36 | the header exists exactly when a token does and is `Bearer ` followed by the access token |
| SpotifyAuth.HeaderCarriesToken | src/utils/fetch/getSpotifyToken.ts:33-36 | stripping the `Bearer ` prefix from the header gives back the access token |
| SpotifyAuth.GetSpotifyToken | src/utils/fetch/getSpotifyToken.ts:6-31 | the call returns the token the cache rule selects and stores exactly the token that rule stores, leaving the rest of the session state unchanged |
| SpotifyAuth.GetSpotifyTokenHeader | src/utils/fetch/getSpotifyToken.ts:33-36 | the header call returns the header of the token the cache rule selects, with the same effect on the store |
| PlayerTracking.AlnumRun | src/utils/player/addPlayerData.ts:47 | the check accepts exactly the strings made only of ASCII letters and digits |
| PlayerTracking.GetSpotifyId | src/utils/player/addPlayerData.ts:46-49 | an id is found exactly for `spotify:track:` followed by one or more ASCII letters or digits, and the URI is that prefix plus the id |
| PlayerTracking.SpotifyIdRoundTrip | src/utils/player/addPlayerData.ts:46-49 | reading the id back out of `spotify:track:<id>` gives the id exactly when it is a non-empty alphanumeric run |
| PlayerTracking.SpotifyIdRejects | src/utils/player/addPlayerData.ts:47 | an empty id or one holding a non-alphanumeric character gives no id |
| PlayerTracking.ImageUrl | src/utils/player/addPlayerData.ts:13 | the cover URL is the URL of the last image, and there is none when the image list is empty |
| PlayerTracking.CoverCssValue | src/utils/player/addPlayerData.ts:15-17 | the CSS variable is empty exactly for a missing or empty URL and `url("<url>")` otherwise |
| PlayerTracking.NoUrlNoWrite | src/utils/player/addPlayerData.ts:19 | without a cover URL the session store is left unchanged |
| PlayerTracking.UrlWritesTrack | src/utils/player/addPlayerData.ts:21-32 | with a cover URL the now-playing slot gets the URL, the track and its id, the colours only when extracting them succeeded, keeps its lyrics, and nothing else in the session state changes |
| PlayerTracking.SetTempPlayerData | src/utils/player/addPlayerData.ts:12-33 | the call sets the CSS cover value and applies exactly the store writes described above |
| LanguageDetection.AnyChar | src/utils/lyrics/language.ts:3-8 | a one-character class pattern matches exactly when some character of the text is in the class |
| LanguageDetection.AnyCharTail | src/utils/lyrics/language.ts:3-8 | dropping a first character outside the class does not change whether the pattern matches |
| LanguageDetection.AnyPair | src/utils/lyrics/language.ts:7 | the `{2,}` Cyrillic pattern matches exactly when two adjacent characters are Cyrillic |
| LanguageDetection.AnyPairTail | src/utils/lyrics/language.ts:7 | dropping a first character that does not start a pair does not change whether the pair pattern matches |
| LanguageDetection.DetectLanguage | src/utils/lyrics/language.ts:12-30 | Japanese exactly when the detector says `jpn` or the text holds kana; Cyrillic, Greek and unknown only with their own detector code or characters; unknown only when the detector code is none of the recognised ones |
| LanguageDetection.DetectIsPriorityOrder | src/utils/lyrics/language.ts:12-30 | the result is the first passing test in the order Japanese, Korean, Chinese, Cyrillic, Greek, else unknown |
| LanguageDetection.FirstPassingIsEarliest | src/utils/lyrics/language.ts:12-30 | the first passing test decides, whatever the later tests say |
| LanguageDetection.LoneCyrillicLetter | src/utils/lyrics/language.ts:21-25 | a single Cyrillic letter is not enough for Cyrillic: without a detector code the text is unknown |
| Romanization.SyllableTexts | src/utils/lyrics/processLyrics.ts:46-48 | the texts handed to the converter for a run of syllables are their texts, one per syllable, in order |
| Romanization.TimedTexts | src/utils/lyrics/processLyrics.ts:33-35 | line-synced lyrics hand the converter one text per line, in order |
| Romanization.StaticTexts | src/utils/lyrics/processLyrics.ts:39-41 | static lyrics hand the converter one text per line, in order |
| Romanization.Field | src/utils/lyrics/processLyrics.ts:32-48 | the texts (or romanised texts) of a run of records are one string per record, in order |
| Romanization.RomanizedTexts | src/utils/lyrics/processLyrics.ts:27-60 | defines the romanised texts of a record, position by position with the texts the walk visits; used by the romanisation contracts |
| Romanization.PartsFieldLength | src/utils/lyrics/processLyrics.ts:51-55 | a run of parts has as many romanised texts as texts |
| Romanization.BlocksFieldLength | src/utils/lyrics/processLyrics.ts:44-58 | a run of lines has as many romanised texts as texts |
| Romanization.ConvertedConcat | src/utils/lyrics/processLyrics.ts:27-60 | a wholly converted run followed by a run converted up to some text, or a run converted up to some text followed by an untouched run, is converted up to the sum |
| Romanization.ConvertedUpTo | src/utils/lyrics/processLyrics.ts:27-60 | defines "converted up to k": the first k romanised texts are the converter's results for the matching texts and every later one is as it was |
| Romanization.Converted | src/utils/lyrics/processLyrics.ts:27-60 | defines how many visited texts were converted: all, or all but the last when the walk threw |
| Romanization.VisitMeaning | src/utils/lyrics/processLyrics.ts:27-60 | when no conversion throws every text is converted; when one throws the walk stops at the first text whose conversion throws, after converting all earlier ones |
| Romanization.VisitConcat | src/utils/lyrics/processLyrics.ts:27-60 | walking two runs of texts one after the other is walking the first and, unless it threw, then the second |
| Romanization.VisitSnoc | src/utils/lyrics/processLyrics.ts:27-60 | a walk that has not thrown extends by exactly the next text |
| Romanization.VisitStops | src/utils/lyrics/processLyrics.ts:27-60 | once a conversion throws, later texts are never visited |
| Romanization.RomanizeSyllables | src/utils/lyrics/processLyrics.ts:46-48 | the syllables visited are those of the walk; when no conversion throws every syllable gets its converted text, and when one throws exactly the syllables before it are converted while it and every later one keep their romanised text; nothing else in the syllables changes |
| Romanization.RomanizeParts | src/utils/lyrics/processLyrics.ts:51-55 | background vocals are walked part by part, syllable by syllable: exactly the texts before the first throwing one are converted, in document order, and every later romanised text is kept |
| Romanization.PartsVisitSnoc | src/utils/lyrics/processLyrics.ts:51-55 | a walk over parts that has not thrown extends by exactly the walk over the next part |
| Romanization.PartsStopAt | src/utils/lyrics/processLyrics.ts:51-55 | a walk over parts that throws in a part visits the texts up to the throwing one, converts exactly those before it, and keeps every later romanised text |
| Romanization.PartsVisitStop | src/utils/lyrics/processLyrics.ts:51-55 | a throw in a part ends the walk over all parts there |
| Romanization.PartsStepStop | src/utils/lyrics/processLyrics.ts:51-55 | parts converted before a throwing part, the throwing part partly converted and the rest untouched keep their shape and texts |
| Romanization.PartsConvertedSnoc | src/utils/lyrics/processLyrics.ts:51-55 | converting one more part extends the converted texts of the parts by that part's |
| Romanization.PartsConvertedAll | src/utils/lyrics/processLyrics.ts:51-55 | parts converted in full carry the converter's result for every text |
| Romanization.PartsConvertedAt | src/utils/lyrics/processLyrics.ts:51-55 | parts converted in full before a part, that part converted up to some text, and later parts untouched, are converted up to that text overall |
| Romanization.PartsConvertedStop | src/utils/lyrics/processLyrics.ts:51-55 | parts converted up to some text in a prefix and untouched after it are converted up to that text overall |
| Romanization.PartsTextsPrefix | src/utils/lyrics/processLyrics.ts:51-55 | a throw in the first parts ends the walk over all parts there |
| Romanization.PartsFieldSplit | src/utils/lyrics/processLyrics.ts:51-55 | the strings of a run of parts, texts or romanised texts, are those of any prefix followed by those of the rest |
| Romanization.RomanizeBlock | src/utils/lyrics/processLyrics.ts:45-57 | a syllable-synced line converts its lead syllables and then its background syllables, if it has any; exactly the texts before the first throwing one are converted and every later romanised text is kept |
| Romanization.RomanizeBlocks | src/utils/lyrics/processLyrics.ts:44-58 | all syllable-synced lines are walked in order: exactly the texts before the first throwing one are converted and every later romanised text is kept |
| Romanization.BlocksStopAt | src/utils/lyrics/processLyrics.ts:44-58 | a walk over lines that throws in a line visits the texts up to the throwing one, converts exactly those before it, and keeps every later romanised text |
| Romanization.BlocksVisitStop | src/utils/lyrics/processLyrics.ts:44-58 | a throw in a line ends the walk over all lines there |
| Romanization.BlocksConvertedSnoc | src/utils/lyrics/processLyrics.ts:44-58 | converting one more line extends the converted texts of the lines by that line's |
| Romanization.BlockConvertedAll | src/utils/lyrics/processLyrics.ts:45-57 | a line converted in full carries the converter's result for every text, lead first, then background |
| Romanization.BlocksConvertedAll | src/utils/lyrics/processLyrics.ts:44-58 | lines converted in full carry the converter's result for every text |
| Romanization.BlocksConvertedAt | src/utils/lyrics/processLyrics.ts:44-58 | lines converted in full before a line, that line converted up to some text, and later lines untouched, are converted up to that text overall |
| Romanization.BlocksConvertedThrough | src/utils/lyrics/processLyrics.ts:44-58 | lines converted in full before a line and that line converted up to some text are converted up to that text through that line |
| Romanization.BlocksConvertedStop | src/utils/lyrics/processLyrics.ts:44-58 | lines converted up to some text in a prefix and untouched after it are converted up to that text overall |
| Romanization.BlocksVisitSnoc | src/utils/lyrics/processLyrics.ts:44-58 | a walk over lines that has not thrown extends by exactly the walk over the next line |
| Romanization.BlocksStepSet | src/utils/lyrics/processLyrics.ts:44-58 | converting one more line keeps all earlier lines converted |
| Romanization.BlockStepWeaken | src/utils/lyrics/processLyrics.ts:44-58 | a fully converted or an untouched line is an acceptable result of a walk that stopped early |
| Romanization.BlocksStepStop | src/utils/lyrics/processLyrics.ts:44-58 | when a line's walk stops early, the lines keep their shape and texts and each romanised text is either converted or kept; which ones is stated by `BlocksStopAt` |
| Romanization.BlocksTextsPrefix | src/utils/lyrics/processLyrics.ts:44-58 | a throw in the first lines ends the walk over all lines there |
| Romanization.BlocksFieldSplit | src/utils/lyrics/processLyrics.ts:44-58 | the strings of a run of lines, texts or romanised texts, are those of any prefix followed by those of the rest |
| Romanization.RomanizeTimedLines | src/utils/lyrics/processLyrics.ts:32-36 | every line-synced line before the first throwing one gets its converted text; the throwing line and every later one keep their romanised text |
| Romanization.RomanizeStaticLines | src/utils/lyrics/processLyrics.ts:38-42 | every static line before the first throwing one gets its converted text; the throwing line and every later one keep their romanised text |
| Romanization.RomanizeLyrics | src/utils/lyrics/processLyrics.ts:27-60 | the lyrics keep their kind, texts and timings; in the flattened document order, exactly the texts before the first throwing one get their converted text and every later romanised text is kept |
| Romanization.PartsStepKeepsTexts | src/utils/lyrics/processLyrics.ts:51-55 | converting background parts never changes their texts |
| Romanization.BlocksStepKeepsTexts | src/utils/lyrics/processLyrics.ts:44-58 | converting lines never changes their texts |
| Romanization.RomanizeKeepsTexts | src/utils/lyrics/processLyrics.ts:27-60 | romanising never changes the original texts, so running it again converts the same texts |
| Romanization.ConvertText | src/utils/lyrics/processLyrics.ts:9-18 | a text of unknown language is returned unchanged; any other text goes to its language's romaniser |
| Romanization.AnyRomanizable | src/utils/lyrics/processLyrics.ts:12-13 | the romanised flag holds exactly when some visited text was of a known language |
| Romanization.LegacyLanguage | src/utils/lyrics.ts:25-31 | kana forces Japanese, then Hangul Korean, then CJK ideographs Chinese; otherwise the detector's code stands |
| Romanization.LegacyConvertText | src/utils/lyrics.ts:21-48 | a detector failure throws; a text that is none of Japanese, Korean, Chinese is returned unchanged; Chinese is pinyin flattened and joined with spaces |
| Romanization.KuroshiroInitOnce | src/utils/lyrics.ts:19-38 | the Japanese converter is created and initialised at most once, and exactly when some visited text needs it |
| Romanization.Lyric.constructor | src/utils/lyrics/processLyrics.ts:5 | a lyrics record with its romanised flag |
| Romanization.Lyric.ProcessLyrics | src/utils/lyrics/processLyrics.ts:5-25 | the lyrics are romanised in place: exactly the texts before the first throwing one are converted, every later romanised text is kept, and the record is still returned; the flag ends true exactly when some visited text was of a known language |
| Romanization.Lyric.ProcessLyricsLegacy | src/utils/lyrics.ts:15-56 | the older variant romanises in place the same way (texts before the first throw converted, later ones kept); its flag ends true exactly when no conversion threw, and the Japanese converter is initialised at most once, exactly when needed |
| GreekTransliteration.Sbl | src/lib/greekRomanization.js:71-137 | every letter of the SBL schema maps to a non-empty string, and capitals are preserved unless the options say otherwise |
| GreekTransliteration.LetterKey | src/lib/greekRomanization.js:139-189 | a character has a schema entry exactly when it is one of the 24 capital or 24 small Greek letters or the final sigma (the unassigned code point between Ρ and Σ excluded) |
| GreekTransliteration.MapCharsConcat | src/lib/greekRomanization.js:201-202 | mapping characters is done character by character, so it distributes over concatenation |
| GreekTransliteration.MapCharsKeepsOthers | src/lib/greekRomanization.js:201-202 | characters without a schema entry are kept as they are |
| GreekTransliteration.FindFrom | src/lib/greekRomanization.js:212-269 | the pattern search finds the leftmost occurrence at or after the start, and reports none only when there is none |
| GreekTransliteration.ReplaceFirst | src/lib/greekRomanization.js:212-269 | `replace` with a non-global pattern replaces the first occurrence only, and leaves a string without one unchanged |
| GreekTransliteration.RemoveAll | src/lib/greekRomanization.js:287 | splitting on a character and joining without it removes every occurrence and never lengthens the string |
| GreekTransliteration.Substring | src/lib/greekRomanization.js:204-211 | `substring` with in-range bounds is the plain slice |
| GreekTransliteration.RemoveUnusedMarks | src/lib/greekRomanization.js:301-302 | the sanitised text holds none of the unused NFKD marks and keeps every other character |
| GreekTransliteration.MapWords | src/lib/greekRomanization.js:304-307 | every space-separated word is transliterated on its own by the word rules, with the rho rule given (as written in `transliterate`) |
| GreekTransliteration.ReplaceFirstNoSpace | src/lib/greekRomanization.js:212-269 | replacing with a space-free string in a space-free word keeps it space-free |
| GreekTransliteration.RemoveAllNoSpace | src/lib/greekRomanization.js:287 | removing a character keeps a word space-free |
| GreekTransliteration.MapCharsNoSpace | src/lib/greekRomanization.js:201-202 | mapping a space-free word through a space-free schema keeps it space-free |
| GreekTransliteration.SubstringNoSpace | src/lib/greekRomanization.js:204-211 | a slice of a space-free word is space-free |
| GreekTransliteration.GammaNoSpace | src/lib/greekRomanization.js:212-231 | the gamma-nasal rules never introduce a space |
| GreekTransliteration.RhoNoSpace | src/lib/greekRomanization.js:232-242 | the rho rules never introduce a space |
| GreekTransliteration.DiphthongNoSpace | src/lib/greekRomanization.js:243-269 | the diphthong rules never introduce a space |
| GreekTransliteration.MarkAndDiphthongNoSpace | src/lib/greekRomanization.js:278-294 | the diaeresis, rough-breathing and diphthong steps never introduce a space |
| GreekTransliteration.RulesNoSpace | src/lib/greekRomanization.js:271-295 | transliterating a word never introduces a space, with the rho rule as written and with the corrected one, so words stay separate |
| GreekTransliteration.RhoAsWrittenNoSpace | src/lib/greekRomanization.js:232-242 | the rho rules as written never introduce a space |
| GreekTransliteration.RulesWithNoSpace | src/lib/greekRomanization.js:271-295 | with any rho rule that keeps words space-free, the word rules never introduce a space |
| GreekTransliteration.RhoRulesKeepNoSpace | src/lib/greekRomanization.js:232-242 | both rho rules, as written and corrected, keep every word space-free |
| GreekTransliteration.RulesAsWritten | src/lib/greekRomanization.js:271-295 | defines `rules(word, schema)` with the rho rule as written; its properties are the lemmas on the word rules in this table |
| GreekTransliteration.Rules | src/lib/greekRomanization.js:271-295 | defines `rules` with the corrected rho rule; it differs from the as-written rules only through the rho step |
| GreekTransliteration.FirstCharAbsent | src/lib/greekRomanization.js:212-269 | a pattern whose first character does not occur in a word is not found |
| GreekTransliteration.NoMarksPassLaterRules | src/lib/greekRomanization.js:278-294 | a word without diaeresis, rough breathing or upsilon only goes through the character map after the rho rules |
| GreekTransliteration.SblNoSpace | src/lib/greekRomanization.js:71-137 | with space-free overrides, no schema entry holds a space |
| GreekTransliteration.SblSmallBelowGreek | src/lib/greekRomanization.js:100-124 | the default small-letter values are Latin text without spaces |
| GreekTransliteration.SblCapitalBelowGreek | src/lib/greekRomanization.js:75-98 | the default capital-letter values are Latin text without spaces |
| GreekTransliteration.SblDefaultLatin | src/lib/greekRomanization.js:75-132 | every default schema value is space-free and has no Greek letter in it |
| GreekTransliteration.WordsTransliteratedIndependently | src/lib/greekRomanization.js:297-308 | for `transliterate` as written the output has as many spaces as the sanitised input and its words are exactly the as-written word rules applied to each input word; the corrected variant splits the same way |
| GreekTransliteration.WordsIndependentWith | src/lib/greekRomanization.js:297-308 | for any rho rule that keeps words space-free, the output words are the word rules applied to the input words and the spaces are kept |
| GreekTransliteration.Transliterate | src/lib/greekRomanization.js:297-308 | defines `transliterate`: NFKD, removal of the unused marks, optional lower-casing, then the as-written word rules on each space-separated word; stated by `WordsTransliteratedIndependently` |
| GreekTransliteration.TransliterateCorrected | src/lib/greekRomanization.js:297-308 | defines `transliterate` with the corrected rho rule; stated by `WordsTransliteratedIndependently` |
| GreekTransliteration.GreekRomanization | src/lib/greekRomanization.js:310-312 | defines `greekRomanization` as `transliterate` with the SBL defaults and capitals kept |
| GreekTransliteration.GreekRomanizationCorrected | src/lib/greekRomanization.js:310-312 | defines `greekRomanization` on the corrected transliterator |
| GreekTransliteration.GammaPairNasal | src/lib/greekRomanization.js:212-231 | the gamma rules turn the word `γγ` into the schema's nasal followed by its gamma, and no later gamma pattern touches the result |
| GreekTransliteration.AlphaUpsilonDiphthong | src/lib/greekRomanization.js:243-269 | the diphthong rules turn the word `αυ` into the schema's alpha followed by its diphthong u, and no later diphthong pattern touches the result |
| GreekTransliteration.SblBelowGreek | src/lib/greekRomanization.js:71-137 | every default SBL value lies below the Greek block |
| GreekTransliteration.MapCharsIdempotent | src/lib/greekRomanization.js:201-202 | mapping twice through the default schema equals mapping once: its output holds no Greek letter |
| GreekTransliteration.RhoOnlyWord | src/lib/greekRomanization.js:271-295 | a word with rho but no gamma goes through the rho rules and then the later steps |
| GreekTransliteration.CapitalLatinPlain | src/lib/greekRomanization.js:201-202 | capital Latin letters have no schema entry and are none of the marks the later steps look for |
| GreekTransliteration.RhoAsWrittenOnCapitalPair | src/lib/greekRomanization.js:236-240 | as written, the capital double-rho rule turns `ΡΡ` into `RRH` followed by the second `Ρ` |
| GreekTransliteration.CapitalDoubleRhoAsWritten | src/lib/greekRomanization.js:232-295 | as written, the word `ΡΡ` is transliterated to `RRHR` |
| GreekTransliteration.MapLeftoverRho | src/lib/greekRomanization.js:201-202 | the leftover capital rho maps to `R` |
| GreekTransliteration.RhoOnCapitalPair | src/lib/greekRomanization.js:236-240 | the corrected rule replaces the whole pair `ΡΡ` with `RRH` |
| GreekTransliteration.CapitalDoubleRho | src/lib/greekRomanization.js:232-295 | with the corrected rule the word `ΡΡ` is transliterated to `RRH`, as the small `ρρ` is to `rrh` |
| InterludeDots.PerDotDuration | src/components/lyrics/ui/Interlude.tsx:45 | each dot's window is a third of the gap |
| InterludeDots.DotWindowsTile | src/components/lyrics/ui/Interlude.tsx:45-46 | the three dot windows follow each other without gap or overlap: the first starts at the gap's start and the third ends at its end |
| InterludeDots.DotProgress | src/components/lyrics/ui/Interlude.tsx:47 | a dot's progress lies in `[0, 1]`, and is NaN only for an empty gap with the playhead exactly on it |
| InterludeDots.DotsFillInOrder | src/components/lyrics/ui/Interlude.tsx:45-47 | while the playhead is in dot `i`'s window, every earlier dot is full and every later dot is empty |
| InterludeDots.DotStartMonotone | src/components/lyrics/ui/Interlude.tsx:46 | later dots start no earlier than earlier ones |
| InterludeDots.DotStartGap | src/components/lyrics/ui/Interlude.tsx:46 | consecutive dot starts are one window apart |
| InterludeDots.TriangleShape | src/components/lyrics/ui/Interlude.tsx:49-52 | the rise is 0 at the start and end of a dot's window, peaks at 12 px half-way, and stays between 0 and 12 px |
| InterludeDots.TriangleSymmetric | src/components/lyrics/ui/Interlude.tsx:49-52 | the rise is symmetric about the middle of the window |
| InterludeDots.TriangleContinuous | src/components/lyrics/ui/Interlude.tsx:49-52 | the rise changes by at most 24 px per unit of progress, so the two branches join without a jump |
| InterludeDots.DotScale | src/components/lyrics/ui/Interlude.tsx:54 | a dot's scale grows from 0.75 to 1, is 1 from half-way on, and is NaN when its progress is |
| InterludeDots.DotStyleAt | src/components/lyrics/ui/Interlude.tsx:45-59 | a dot rises between 0 and 12 px, scales between 0.75 and 1, and its shadow opacity stays between 0 and 2 |
| InterludeDots.DotStyles | src/components/lyrics/ui/Interlude.tsx:42-60 | one style per dot, three in all, each that dot's style |
| InterludeDots.ShowsInsideMargins | src/components/lyrics/ui/Interlude.tsx:30-39 | the interlude shows exactly when the playhead is at least the show delay inside both ends of the gap, so a gap shorter than twice that delay never shows |
| InterludeDots.InterludeView.constructor | src/components/lyrics/ui/Interlude.tsx:16-26 | the interlude starts hidden, with no timers and no dot styles |
| InterludeDots.InterludeView.Animate | src/components/lyrics/ui/Interlude.tsx:28-75 | a frame sets the line's hide class and the dot styles; while hiding it arms a new 200 ms hide timer, replacing the remembered one without cancelling it; while showing it cancels the remembered timer and shows the wrapper |
| InterludeDots.InterludeView.FireTimers | src/components/lyrics/ui/Interlude.tsx:65-67 | every timer that is due fires and hides the wrapper; the others stay armed |
| InterludeInsertion.GapEntry | src/components/lyrics/type/SyllableLyrics.tsx:352-359 | an interlude entry is added exactly when the gap rule produced one |
| InterludeInsertion.ContentsConcat | src/components/lyrics/type/SyllableLyrics.tsx:341-362 | the lyric entries of two lists joined are those of each, in order |
| InterludeInsertion.ContentsOfGap | src/components/lyrics/type/SyllableLyrics.tsx:352-359 | an interlude entry holds no lyric entry |
| InterludeInsertion.ContentsChunk | src/components/lyrics/type/SyllableLyrics.tsx:341-362 | a line followed by at most one interlude contributes just that line |
| InterludeInsertion.ChunksContents | src/components/lyrics/type/SyllableLyrics.tsx:341-362 | the first `n` chunks hold exactly the first `n` lines |
| InterludeInsertion.ItemsPreserved | src/components/lyrics/type/SyllableLyrics.tsx:316-365 | dropping the interludes from the rendered list gives back the lyric lines, each once and in order |
| InterludeInsertion.ChunksExtend | src/components/lyrics/type/SyllableLyrics.tsx:341-362 | building more chunks only appends to the list |
| InterludeInsertion.GapAfterItem | src/components/lyrics/type/SyllableLyrics.tsx:341-362 | each line sits at its position, and the entry right after it is an interlude exactly when the rule produced one for its gap, namely that interlude |
| InterludeInsertion.FirstEntry | src/components/lyrics/type/SyllableLyrics.tsx:327-339 | the list opens with the leading interlude when there is one, and with the first line otherwise |
| InterludeInsertion.ChunksNoAdjacentGaps | src/components/lyrics/type/SyllableLyrics.tsx:341-362 | no two interludes follow each other among the chunks, and they start with the first line |
| InterludeInsertion.InterleaveShape | src/components/lyrics/type/SyllableLyrics.tsx:316-365 | no two interludes are ever adjacent, and when the last line has no gap after it the list ends with it |
| InterludeInsertion.GapsFromRule | src/components/lyrics/type/SyllableLyrics.tsx:316-365 | every interlude in the list is the leading one or one the gap rule produced after some line |
| InterludeInsertion.ChunksGapsFromRule | src/components/lyrics/type/SyllableLyrics.tsx:341-362 | every interlude among the chunks was produced by the gap rule for one of their lines |
| LyricTiming.GetStatus | src/components/lyrics/helper/common.ts:20-28 | an element is future before its start, active from its start to its end inclusive, and past after its end (times in seconds, progress in ms) |
| LyricTiming.StatusMonotone | src/components/lyrics/helper/common.ts:20-28 | as the playhead moves forward the status only moves from future to active to past |
| LyricTiming.InvertedWindowNeverActive | src/components/lyrics/helper/common.ts:25-27 | an element whose end precedes its start is never active |
| LyricTiming.FadeToZero | src/components/lyrics/helper/common.ts:14-18 | the fade is 100 at the end time, positive and at most 100 during the next second, and 0 from then on |
| LyricTiming.FadeMonotone | src/components/lyrics/helper/common.ts:14-18 | the fade never increases as time passes |
| LyricTiming.Fill | src/components/lyrics/helper/common.ts:46-55 | the fill is 0 before the start, the fade after the end, NaN only for a zero-length element at its instant, and otherwise between 0 and 100 |
| LyricTiming.FillLinear | src/components/lyrics/helper/common.ts:53-55 | inside its window the fill grows linearly from 0 at the start to 100 at the end |
| LyricTiming.NumberText | src/components/lyrics/helper/common.ts:92-108 | a number's text is its magnitude's text, preceded by a minus sign when negative |
| LyricTiming.TranslateY | src/components/lyrics/helper/common.ts:86 | the lift is never positive, is NaN when the fill is, and is `-(fill/100)·maxTranslateY` for a non-negative fill and height |
| LyricTiming.SkipMaskDoubleMinus | src/components/lyrics/helper/common.ts:89-92 | as written, the skip-mask style writes `--` before any positive lift, which is not a valid CSS length |
| LyricTiming.SkipMaskTranslateAgrees | src/components/lyrics/helper/common.ts:86-108 | with the sign taken from the value, as in the other branch, the lift is written as a single minus sign and the magnitude |
| LyricTiming.MaskOpacities | src/components/lyrics/helper/common.ts:68-83 | an active element or a playhead inside the element's window gives mask opacities 1 and 0.4; the end opacity is always 0.4, 1 or 0.3 |
| LyricTiming.StylesOf | src/components/lyrics/helper/common.ts:33-113 | as written: the styles carry the fill, animate exactly when the fill differs from the previous call's and neither status is future, never lift the text upward of zero, and have no mask exactly when the mask is skipped; the `--translateY` text is the lift's text in px, with an extra minus sign in front in the skip-mask branch |
| LyricTiming.StylesOfCorrected | src/components/lyrics/helper/common.ts:86-108 | with the skip-mask branch corrected the `--translateY` text is always the lift's own text in px, and every other field equals the as-written styles |
| LyricTiming.SkipMaskStylesDiffer | src/components/lyrics/helper/common.ts:86-108 | for a skip-mask element inside its window with a positive maximum lift, the as-written text starts with `--`, while the corrected one is a single minus sign and the magnitude |
| LyricTiming.ScaleThreshold | src/components/lyrics/helper/common.ts:85-87 | up to a fill of 25 the scale is 1 with shadow 0.05; beyond it the maximum scale with shadow 0.75 |
| LyricTiming.FutureNotAnimating | src/components/lyrics/helper/common.ts:57-60 | a future syllable or a syllable on a future line never animates |
| LyricTiming.RepeatedCallStops | src/components/lyrics/helper/common.ts:57-66 | calling again with the same inputs reports not animating, because the shared previous fill now equals the fill |
| LyricTiming.InterleavedCallAnimates | src/components/lyrics/helper/common.ts:57-66 | a call for another syllable in between makes the same call animate again, since all syllables share one previous-fill slot |
| LyricTiming.AnimationClock.constructor | src/components/lyrics/helper/common.ts:31 | the shared previous fill starts at −1 |
| LyricTiming.AnimationClock.GetAnimationStyles | src/components/lyrics/helper/common.ts:33-113 | each call returns the as-written styles for the previous fill and then records its own fill as the previous one |
| LineRenderer.LeadingGap | src/components/lyrics/type/LineLyrics.tsx:86-92 | a leading interlude from 0 to the first line's start exists exactly when that start is more than 2000 ms in |
| LineRenderer.GapAfter | src/components/lyrics/type/LineLyrics.tsx:97-105 | an interlude follows a line exactly when a next line starts more than 2000 ms after this one ends, and it spans that gap |
| LineRenderer.Gaps | src/components/lyrics/type/LineLyrics.tsx:94-106 | one gap decision per line, each by the rule above |
| LineRenderer.InterludeRule | src/components/lyrics/type/LineLyrics.tsx:80-109 | the rendered list holds every line once and in order, opens with the leading interlude exactly when the first line starts late, has an interlude right after a line exactly when the gap to the next line exceeds 2000 ms, never has two interludes in a row and ends with the last line |
| LineRenderer.InterludesWide | src/components/lyrics/type/LineLyrics.tsx:88-104 | every interlude in the list spans more than 2000 ms |
| LineRenderer.ContentWithInterludes | src/components/lyrics/type/LineLyrics.tsx:80-109 | the loop builds exactly the interleaved list |
| LineRenderer.RefEnds | src/components/lyrics/type/LineLyrics.tsx:127-134 | only line entries register an element, each with its end time in ms; interlude positions stay empty |
| LineRenderer.LineScroller.constructor | src/components/lyrics/type/LineLyrics.tsx:21 | no line has been scrolled to yet |
| LineRenderer.LineScroller.Scroll | src/components/lyrics/type/LineLyrics.tsx:23-41 | the first registered line not yet ended is scrolled to, only when it differs from the last one scrolled to, and is remembered |
| LineRenderer.LineFillOf | src/components/lyrics/type/LineLyrics.tsx:55-63 | before the start the fill is 0 and not past; after the end it is 100 and past |
| LineRenderer.LineAlwaysPastAsWritten | src/components/lyrics/type/LineLyrics.tsx:51-63 | as written, the start and end read from data attributes that are never set are NaN, so every line is past at full fill and full scale at every instant |
| LineRenderer.LineFillRange | src/components/lyrics/type/LineLyrics.tsx:55-63 | with real times the fill lies in `[0, 100]`, is 0 before the start, 100 at the end, and past exactly after the end |
| LineRenderer.StyleRange | src/components/lyrics/type/LineLyrics.tsx:65-71 | a fill in `[0, 100]` gives a lift between −2 px and 0, a scale between 1 and 1.025, a background size between 0 and 200 %, and the past class exactly when past |
| LineRenderer.LineStyleInRange | src/components/lyrics/type/LineLyrics.tsx:51-71 | with the line's own times every style value stays in the ranges above and the past class is set exactly after the line ends |
| LineRenderer.Animate | src/components/lyrics/type/LineLyrics.tsx:47-75 | as written: each registered line gets the style read from its unset data attributes, so every one is marked past with fill 100 at any playhead; empty positions get none |
| LineRenderer.AnimateCorrected | src/components/lyrics/type/LineLyrics.tsx:47-75 | with each line's window read from the line itself, each registered line gets the style of its own times at the playhead; empty positions get none |
| LineRenderer.StyleOf | src/components/lyrics/type/LineLyrics.tsx:65-71 | defines the style written from a fill: lift, shadow, scale and background size proportional to the fill; its ranges are `StyleRange` |
| LineRenderer.LineStyleAt | src/components/lyrics/type/LineLyrics.tsx:51-71 | defines the style of a line from its own start and end in ms; its ranges are `LineStyleInRange` |
| ActiveLine.FirstActive | src/components/lyrics/type/LineLyrics.tsx:26-38 | the active line is the first registered line whose end is not before the playhead, and there is none only when every registered line has ended |
| ActiveLine.ActiveMonotone | src/components/lyrics/type/LineLyrics.tsx:26-38 | as the playhead moves forward the active line never moves back |
| ActiveLine.FirstActiveIs | src/components/lyrics/type/LineLyrics.tsx:26-38 | a registered line that has not ended, with every earlier one ended, is the active one |
| ActiveLine.FirstActiveNone | src/components/lyrics/type/LineLyrics.tsx:26-38 | when every registered line has ended there is no active line |
| SyllableRenderer.LeadingGap | src/components/lyrics/type/SyllableLyrics.tsx:327-339 | a leading interlude from 0 to the first lead syllable's start exists exactly when that start is known and more than 2000 ms in, and takes the first line's alignment |
| SyllableRenderer.Gaps | src/components/lyrics/type/SyllableLyrics.tsx:341-362 | one gap decision per line, each by the rule after that line |
| SyllableRenderer.InterludeRule | src/components/lyrics/type/SyllableLyrics.tsx:316-365 | the rendered list holds every line once and in order; an interlude follows a line exactly when the next line's first start and this line's last syllable end are both non-zero and more than 2000 ms apart, spans that gap with the next line's alignment; no two interludes are adjacent; the list ends with the last line |
| SyllableRenderer.LeadingInterludeRule | src/components/lyrics/type/SyllableLyrics.tsx:327-339 | the list opens with the leading interlude exactly when the first start is more than 2000 ms in, and with the first line otherwise |
| SyllableRenderer.InterludeMayOverlapLead | src/components/lyrics/type/SyllableLyrics.tsx:344-348 | the gap is measured from the last background syllable when there is one, so an interlude can start while the lead vocal is still sounding (background ends at 5 s, lead at 10 s, next line at 8 s: interlude from 5 s to 8 s) |
| SyllableRenderer.ContentWithInterludes | src/components/lyrics/type/SyllableLyrics.tsx:316-365 | the loop builds exactly the interleaved list |
| SyllableRenderer.PushBlock | src/components/lyrics/type/SyllableLyrics.tsx:341-362 | one loop step appends the line and then its interlude, if any |
| SyllableRenderer.ChunkStep | src/components/lyrics/type/SyllableLyrics.tsx:341-362 | after each step the list is the leading interlude followed by the chunks of the lines so far |
| SyllableRenderer.HasOppAligned | src/components/lyrics/type/SyllableLyrics.tsx:367-370 | the wrapper is marked as having opposite-aligned lines exactly when some line is |
| SyllableRenderer.MaxPartEnd | src/components/lyrics/type/SyllableLyrics.tsx:388 | the largest background end is one of the ends and no end exceeds it |
| SyllableRenderer.BlockEndIgnoresLead | src/components/lyrics/type/SyllableLyrics.tsx:384-389 | a line with background vocals registers the latest background end, whatever its lead's timing |
| SyllableRenderer.LineEnds | src/components/lyrics/type/SyllableLyrics.tsx:382-438 | one registered end per rendered entry, in order, plus the credits line at `Number.MAX_SAFE_INTEGER` when there are song writers |
| SyllableRenderer.Registered | src/components/lyrics/type/SyllableLyrics.tsx:400-402 | every rendered entry registers its end |
| SyllableRenderer.CreditsKeepActive | src/components/lyrics/type/SyllableLyrics.tsx:429-438 | with credits shown there is always an active line while the playhead is below `Number.MAX_SAFE_INTEGER` |
| SyllableRenderer.SplitRule | src/components/lyrics/type/SyllableLyrics.tsx:36-100 | a syllable registers one element with its own window and the word lift; it is split into letters exactly when it lasts at least the split threshold, and then each letter gets an equal consecutive slice of the window, the letter lift and a background fill |
| SyllableRenderer.SyllableFrameRule | src/components/lyrics/type/SyllableLyrics.tsx:282-305 | inside its window an element is lifted between 0 and its maximum, from 0 at the start to the maximum at the end; outside it the lift is removed; the fill is touched only when not skipped; past exactly after the end |
| SyllableRenderer.SyllablePct | src/components/lyrics/type/SyllableLyrics.tsx:282-305 | defines the fill percentage of a syllable: 0 before, linear inside, 100 after its window; stated by `SyllableFrameRule` |
| SyllableRenderer.InWindowFrame | src/components/lyrics/type/SyllableLyrics.tsx:287-297 | inside the window the fill is the elapsed fraction times 100 and the lift that fraction of the maximum |
| SyllableRenderer.WindowEnds | src/components/lyrics/type/SyllableLyrics.tsx:294-297 | the lift is 0 at the start of the window and the full maximum at its end |
| SyllableRenderer.InWindowFill | src/components/lyrics/type/SyllableLyrics.tsx:287-297 | inside the window the fill and the lift grow linearly with elapsed time and the element is not past |
| SyllableRenderer.ZeroLengthSyllable | src/components/lyrics/type/SyllableLyrics.tsx:287-296 | a zero-length element at its own instant gets a NaN lift (0/0) |
| SyllableRenderer.AnimateSyllables | src/components/lyrics/type/SyllableLyrics.tsx:282-305 | every registered element gets its frame style, in order |
| SyllableRenderer.PastAfterScan | src/components/lyrics/type/SyllableLyrics.tsx:248-260 | the scan keeps one past mark per line |
| SyllableRenderer.StalePastAfterBackSeek | src/components/lyrics/type/SyllableLyrics.tsx:248-260 | after a seek back, the lines between the new active line and the old one stay marked past although the playhead has not reached their end |
| SyllableRenderer.BlurShape | src/components/lyrics/type/SyllableLyrics.tsx:262-275 | the blur lies between 0 and 6 px, is 0 exactly on the active line or while suppressed, is 6 px from five lines away, and never decreases with distance |
| SyllableRenderer.LineBlur | src/components/lyrics/type/SyllableLyrics.tsx:262-275 | defines the distance blur of a line; stated by `BlurShape` |
| SyllableRenderer.Blurs | src/components/lyrics/type/SyllableLyrics.tsx:262-275 | one blur per registered line |
| SyllableRenderer.ScrollRequest | src/components/lyrics/type/SyllableLyrics.tsx:185-208 | a scroll is requested exactly when the user is not scrolling, the scroll is instant or the active line is visible, and both the line and the wrapper exist |
| SyllableRenderer.ScrollCentresLine | src/components/lyrics/type/SyllableLyrics.tsx:194-205 | apart from the configured offset and a twentieth of the window height, the requested scroll puts the line's middle at the wrapper's middle |
| SyllableRenderer.SyllableView.constructor | src/components/lyrics/type/SyllableLyrics.tsx:107-138 | the renderer registers the ends of its entries, starts with no past marks and no blur, line 0 active, not scrolling and the active line visible |
| SyllableRenderer.SyllableView.Frame | src/components/lyrics/type/SyllableLyrics.tsx:245-305 | a frame makes the first unfinished line active (or keeps the old one), updates the past marks, sets every blur, and requests a smooth scroll only when the active line changed |
| SyllableRenderer.SyllableView.Wheel | src/components/lyrics/type/SyllableLyrics.tsx:169-176 | a wheel event marks the user as scrolling, shows the scrollbar and re-arms the 1000 ms timer |
| SyllableRenderer.SyllableView.FireTimer | src/components/lyrics/type/SyllableLyrics.tsx:164-167 | when the timer is due the user is no longer scrolling; before that nothing changes |
| SyllableRenderer.SyllableView.CheckVisibility | src/components/lyrics/type/SyllableLyrics.tsx:141-151 | the active line is visible exactly when it lies wholly inside the wrapper; without the line or the wrapper the flag is kept |
| LetterTiming.LettersTile | src/components/lyrics/type/SyllableLyrics.tsx:75-91 | the letter slices tile the syllable window: the first starts at its start, the last ends at its end, and the edges never go backwards |
| CanvasText.WordsPartition | src/components/lyrics/type/SyllableLyricsOnCanvas.tsx:267-290 | the words of a part partition its syllables in order: joined back they give the syllables, none is empty, every syllable but a word's last continues the word, every word but the last ends on a syllable that does not, and the last word ends on the last syllable |
| CanvasText.MakeWords | src/components/lyrics/type/SyllableLyricsOnCanvas.tsx:270-289 | one measured word per syllable group, in the same order |
| CanvasText.GroupWords | src/components/lyrics/type/SyllableLyricsOnCanvas.tsx:259-290 | the syllable loop that collects words produces exactly the measured word groups of the partition above |
| CanvasText.LetterPiecesTile | src/components/lyrics/type/SyllableLyricsOnCanvas.tsx:374-389 | the per-letter pieces of a syllable spell its text one letter each, share one maximum lift, and tile the syllable's window: the first starts at its start, the last ends at its end, each ends where the next starts, and all lie inside the window |
| CanvasText.PiecesRule | src/components/lyrics/type/SyllableLyricsOnCanvas.tsx:354-391 | a syllable is drawn whole, with the word lift for the lead and the letter lift otherwise, when it is shorter than the split threshold or one character long and its word fits; otherwise it is split into its letter pieces; either way the pieces spell the syllable's text |
| CanvasText.Pieces | src/components/lyrics/type/SyllableLyricsOnCanvas.tsx:354-391 | defines the pieces of one syllable; `PiecesRule` and `LetterPiecesTile` state them |
| CanvasText.Place | src/components/lyrics/type/SyllableLyricsOnCanvas.tsx:337-349 | defines placing one piece on the open line, which also raises the line to the piece's height (the corrected height rule) |
| CanvasText.PlaceSyllable | src/components/lyrics/type/SyllableLyricsOnCanvas.tsx:354-391 | placing one syllable raises the line height to the font height and then places exactly the pieces the rule above chooses (with the height raised per placed piece, as corrected) |
| CanvasText.PlaceLetters | src/components/lyrics/type/SyllableLyricsOnCanvas.tsx:332-349 | the letter loop places the letter pieces in order, starting a new line before a letter that would overflow a non-empty line when wrapping (each letter raising the line height, as corrected) |
| CanvasText.PlaceWord | src/components/lyrics/type/SyllableLyricsOnCanvas.tsx:320-393 | one word takes a new word group; a word wider than the line closes the open line and is placed letter by letter with wrapping; any other word breaks the line when it would overflow with its space, and is preceded by a space unless it starts the line (with the corrected height rule) |
| CanvasText.PlaceSyllables | src/components/lyrics/type/SyllableLyricsOnCanvas.tsx:354-391 | a word's syllables are placed one after another, in order (with the corrected height rule) |
| CanvasText.ProcessPart | src/components/lyrics/type/SyllableLyricsOnCanvas.tsx:258-395 | laying out a part places its words in order from an empty line at the current y and closes the last line; the lines and y it returns are those of the layout function whose guarantees follow (with the corrected height rule) |
| CanvasTextProps.PartLines | src/components/lyrics/type/SyllableLyricsOnCanvas.tsx:297-318 | a part keeps the earlier lines and only appends lines that are non-empty, one font high, of the part's group and side, and not interludes; the first starts at the y the part began at, each next one a line spacing lower, and the returned y is a line spacing below the last |
| CanvasTextProps.ClosedLines | src/components/lyrics/type/SyllableLyricsOnCanvas.tsx:297-318 | closing the open line keeps every earlier line, adds only part lines, and keeps the lines stacked one line spacing apart |
| CanvasTextProps.OversizeLineHeightAsWritten | src/components/lyrics/type/SyllableLyricsOnCanvas.tsx:325-349 | on a narrow canvas the two-letter word "ab" wraps inside the letter loop; as written the second line closes with height 0, while raising the height per placed letter gives it the font height |
| CanvasWrap.FallbackMeasured | src/components/lyrics/type/SyllableLyricsOnCanvas.tsx:83-87 | the fallback measurement, 12 per character, adds up over concatenation and is never negative: the hypotheses of the wrap bound below can be met |
| CanvasWrap.SyllablesAdvance | src/components/lyrics/type/SyllableLyricsOnCanvas.tsx:354-391 | placing a fitting word's syllables advances x by exactly the measured width of the word's text |
| CanvasWrap.OpenFits | src/components/lyrics/type/SyllableLyricsOnCanvas.tsx:352-353 | where a word that fits the line opens, after any break and space, the word still fits |
| CanvasWrap.WordWrap | src/components/lyrics/type/SyllableLyricsOnCanvas.tsx:320-393 | placing one measured word keeps every emitted line and the open line within the available width, or else its last glyph sits at the line's start |
| CanvasWrap.PartWrap | src/components/lyrics/type/SyllableLyricsOnCanvas.tsx:258-395 | with a measurement that adds up and is never negative, every line a part emits is no wider than the available width, or else its last glyph sits at the line's start (one glyph wider than the line) |
| CanvasLayout.LeadSize | src/components/lyrics/type/SyllableLyricsOnCanvas.tsx:135-142 | the lead font size is never below 1.85 root font sizes, never above 3.5 of them unless that clamp is inverted, and is exactly 7% of the canvas width whenever that lies between the two |
| CanvasLayout.MakeEnv | src/components/lyrics/type/SyllableLyricsOnCanvas.tsx:142-149 | both font sizes are positive and the background size stands to the lead size as 24 to 36 |
| CanvasLayout.StartPrefix | src/components/lyrics/type/SyllableLyricsOnCanvas.tsx:190-195 | a block's start time is the earliest start of its syllables: no syllable starts earlier and one starts then |
| CanvasLayout.EndPrefix | src/components/lyrics/type/SyllableLyricsOnCanvas.tsx:190-195 | a block's end time is the latest end of its syllables, or 0 when they all end before 0: not negative, no syllable ends later, and it is 0 or some syllable's end |
| CanvasLayout.BlockWindow | src/components/lyrics/type/SyllableLyricsOnCanvas.tsx:190-195 | the min/max loop over a non-empty block yields the earliest start and the latest end described above |
| CanvasLayout.Dots | src/components/lyrics/type/SyllableLyricsOnCanvas.tsx:217-236 | an interlude has one dot element per index, each the dot for that index |
| CanvasLayout.InterludeDots | src/components/lyrics/type/SyllableLyricsOnCanvas.tsx:206-236 | the dot loop builds exactly the three interlude dots |
| CanvasLayout.LayoutBackground | src/components/lyrics/type/SyllableLyricsOnCanvas.tsx:398-399 | the background parts are laid out one after another, each from the lines and y the previous one left (with the corrected height rule) |
| CanvasLayout.OpenBlock | src/components/lyrics/type/SyllableLyricsOnCanvas.tsx:197-256 | opening a block takes a group number, adds the gap between groups when lines exist, and inserts an interlude line when the block starts more than two seconds after the previous one ended |
| CanvasLayout.LayoutBlock | src/components/lyrics/type/SyllableLyricsOnCanvas.tsx:183-401 | one block: skipped when it has no syllables; otherwise opened, its lead and background parts laid out in its group, and the last end time moved to its end (with the corrected height rule) |
| CanvasLayout.LayoutCredits | src/components/lyrics/type/SyllableLyricsOnCanvas.tsx:403-464 | the credits text is wrapped below the lyrics after a double group gap, as the credits function whose round trip is proved below |
| CanvasLayout.CreditsWords | src/components/lyrics/type/SyllableLyricsOnCanvas.tsx:452-462 | the credits words are taken one after another |
| CanvasLayout.CreditsWord | src/components/lyrics/type/SyllableLyricsOnCanvas.tsx:453-461 | a credits word closes the open line first when the line is non-empty and the word with a space would overflow it, then joins the line |
| CanvasLayout.GroupBoxes | src/components/lyrics/type/SyllableLyricsOnCanvas.tsx:471-490 | the box loop produces the group boxes whose shape is proved below |
| CanvasLayout.RecalculateLayout | src/components/lyrics/type/SyllableLyricsOnCanvas.tsx:125-491 | a full layout pass produces the lines, the furthest scroll and the group boxes of the layout function (with the corrected height rule) |
| CanvasLayout.LayoutOf | src/components/lyrics/type/SyllableLyricsOnCanvas.tsx:125-491 | defines the layout the pass installs: the lines, the furthest scroll and the boxes; stated by the layout lemmas below |
| CanvasLayout.MaxScrollY | src/components/lyrics/type/SyllableLyricsOnCanvas.tsx:466-469 | defines the furthest scroll: the last line's top plus the bottom padding less the height, never below 0 |
| CanvasLayout.Boxes | src/components/lyrics/type/SyllableLyricsOnCanvas.tsx:471-490 | defines one box per group in first-appearance order; stated by `BoxesRule` and `BoxesInFirstAppearanceOrder` |
| CanvasLayout.GroupsShape | src/components/lyrics/type/SyllableLyricsOnCanvas.tsx:476-482 | the groups map has exactly the groups met in line order as keys, no group is listed twice and no group is empty |
| CanvasLayout.MinY | src/components/lyrics/type/SyllableLyricsOnCanvas.tsx:484 | a group's top is the least y of its lines, attained by one of them |
| CanvasLayout.MaxBottom | src/components/lyrics/type/SyllableLyricsOnCanvas.tsx:485 | a group's bottom is the greatest y plus height of its lines, attained by one of them |
| CanvasLayoutProps.StackedOrdered | src/components/lyrics/type/SyllableLyricsOnCanvas.tsx:297-318 | lines appended one gap apart below ordered lines keep every line's y in order and never move y up |
| CanvasLayoutProps.PartStep | src/components/lyrics/type/SyllableLyricsOnCanvas.tsx:397 | laying out a part keeps the earlier lines, keeps y order, and appends only lines of the block's group |
| CanvasLayoutProps.OpenStep | src/components/lyrics/type/SyllableLyricsOnCanvas.tsx:197-256 | opening a block keeps the earlier lines and y order, takes one group number or two with an interlude, and gives no existing line the block's own group |
| CanvasLayoutProps.BlockStepInv | src/components/lyrics/type/SyllableLyricsOnCanvas.tsx:183-401 | each block keeps the earlier lines, keeps them in y order with groups below the counter, and never lowers the counter |
| CanvasLayoutProps.InterludeRule | src/components/lyrics/type/SyllableLyricsOnCanvas.tsx:202-256 | a block with no syllables changes nothing; otherwise an interlude line is inserted exactly when the block starts more than 2000 ms after the last end, running from that end to the block's start on the block's side in its own group, and the last end moves to the block's end |
| CanvasLayoutProps.DotsTile | src/components/lyrics/type/SyllableLyricsOnCanvas.tsx:207-236 | the three dots split the interlude window into equal consecutive thirds from its start to its end and sit a dot and a gap apart, the last ending at the dots' total width |
| CanvasLayoutProps.CreditsRoundTrip | src/components/lyrics/type/SyllableLyricsOnCanvas.tsx:403-464 | the credits keep the earlier lines, add only credits lines in y order, and their texts joined with spaces give back "Credits: " and the song writers joined with ", " |
| CanvasLayoutProps.LayoutOrdered | src/components/lyrics/type/SyllableLyricsOnCanvas.tsx:151-464 | the lines of a layout are in y order, and each belongs to a block group or is a credits line |
| CanvasLayoutProps.ScrollRange | src/components/lyrics/type/SyllableLyricsOnCanvas.tsx:466-468 | the furthest scroll is never negative, is 0 with no lines or when the last line is already above the bottom padding, and scrolling that far brings every line above the bottom padding |
| CanvasLayoutProps.GroupsMembers | src/components/lyrics/type/SyllableLyricsOnCanvas.tsx:476-482 | a group holds exactly the layout's non-interlude, non-credits lines of that group |
| CanvasLayoutProps.BoxesRule | src/components/lyrics/type/SyllableLyricsOnCanvas.tsx:471-490 | no lines give no boxes; each group has one box, at most once; every boxed line's group has one; each box spans from the top of its group's highest line to the bottom of its lowest and across the available width |
| CanvasLayoutProps.GroupOrderMembers | src/components/lyrics/type/SyllableLyricsOnCanvas.tsx:476-482 | the group order holds a group exactly when some boxed line belongs to it |
| CanvasLayoutProps.GroupOrderFirstAppearance | src/components/lyrics/type/SyllableLyricsOnCanvas.tsx:476-482 | for two groups in the order, every boxed line of the later group comes after some boxed line of the earlier group |
| CanvasLayoutProps.BoxesInFirstAppearanceOrder | src/components/lyrics/type/SyllableLyricsOnCanvas.tsx:471-490 | the boxes follow the first appearance of their groups: a boxed line of box `j`'s group has a boxed line of every earlier box's group before it |
| CanvasDraw.ActivityWindow | src/components/lyrics/type/SyllableLyricsOnCanvas.tsx:633-636 | a line with a proper window is active exactly when progress lies strictly between 200 ms before its start and 500 ms after its end; a credits line, whose window is Infinity, never is |
| CanvasDraw.ActiveGroups | src/components/lyrics/type/SyllableLyricsOnCanvas.tsx:630-639 | a group is active exactly when one of its lines is |
| CanvasDraw.LastReached | src/components/lyrics/type/SyllableLyricsOnCanvas.tsx:637-638 | the primary line found by the scan is the last line being sung or already over, and there is none only when no line has been reached |
| CanvasDraw.FirstOfGroup | src/components/lyrics/type/SyllableLyricsOnCanvas.tsx:644 | the first line of a group is of that group with no earlier line of it, and there is none only when no line is of the group |
| CanvasDraw.LeastActive | src/components/lyrics/type/SyllableLyricsOnCanvas.tsx:643 | the least active group is an active group no greater than any other, and there is none exactly when no group is active |
| CanvasDraw.FocusRule | src/components/lyrics/type/SyllableLyricsOnCanvas.tsx:629-649 | a line to follow exists exactly when there are lines; before any line is reached it is the first line of the least active group, or the first line when no group is active |
| CanvasDraw.Focus | src/components/lyrics/type/SyllableLyricsOnCanvas.tsx:629-649 | the followed line, when there is one, is a line of the layout |
| CanvasDraw.ScanLines | src/components/lyrics/type/SyllableLyricsOnCanvas.tsx:632-639 | one pass over the lines yields exactly the active groups and the last reached line |
| CanvasDraw.OfGroup | src/components/lyrics/type/SyllableLyricsOnCanvas.tsx:653 | the group's lines are exactly the layout's lines of that group |
| CanvasDraw.ScrollTargetRange | src/components/lyrics/type/SyllableLyricsOnCanvas.tsx:654-664 | the auto-scroll target stays within 0 and the furthest scroll, and whenever that range allows it puts the group's middle at the view's middle less the scroll offset |
| CanvasDraw.ScrollStepCloses | src/components/lyrics/type/SyllableLyricsOnCanvas.tsx:667-668 | from a position and target in range, one frame leaves the view in range with nine tenths of the distance to the target left |
| CanvasDraw.ScrollStepInRange | src/components/lyrics/type/SyllableLyricsOnCanvas.tsx:668 | whatever the position, one frame leaves the view between 0 and the furthest scroll |
| CanvasDraw.ScrollTarget | src/components/lyrics/type/SyllableLyricsOnCanvas.tsx:654-664 | defines the auto-scroll target; stated by `ScrollTargetRange` |
| CanvasDraw.ScrollStep | src/components/lyrics/type/SyllableLyricsOnCanvas.tsx:667-668 | defines the smoothing step; stated by `ScrollStepCloses` and `ScrollStepInRange` |
| CanvasDraw.EndsOf | src/components/lyrics/type/SyllableLyricsOnCanvas.tsx:699-700 | a group's end is no earlier than the end of any of its non-interlude lines, and is -Infinity only when it has none |
| CanvasDraw.GroupLookRule | src/components/lyrics/type/SyllableLyricsOnCanvas.tsx:695-708 | a group seen for the first time sits at its targets; a known one covers a fifth of the way to its alpha target and 15% of the way to its scale target; the targets are 1.0 and 1.02 while active, 0.4 and 1.0 once fully past, 0.5 and 1.0 otherwise |
| CanvasDraw.TargetAlpha | src/components/lyrics/type/SyllableLyricsOnCanvas.tsx:695-708 | defines a group's target alpha: active, fully past or idle |
| CanvasDraw.HoverCard | src/components/lyrics/type/SyllableLyricsOnCanvas.tsx:716-722 | the hover card extends the group box by 16 on the left and right and by 12 above and below |
| CanvasDraw.InterludeOpacityShape | src/components/lyrics/type/SyllableLyricsOnCanvas.tsx:789-805 | an interlude's opacity stays in [0, 1], is 0 before it and from its end on, and is full from 300 ms in until 300 ms before its end |
| CanvasDraw.DotEnvelopeBounds | src/components/lyrics/type/SyllableLyricsOnCanvas.tsx:815-832 | a dot's size stays in [0, 1], its glow in [0, 16] and its rise between 0 and its amplitude |
| CanvasDraw.DotEnvelopeShape | src/components/lyrics/type/SyllableLyricsOnCanvas.tsx:819-830 | at the middle of its window a dot is fully risen, full size and fully lit; before its window it rests at 0.7 of its size; its rise and size are symmetric about the middle |
| CanvasDraw.DotEnvelope | src/components/lyrics/type/SyllableLyricsOnCanvas.tsx:815-832 | defines a dot's rise, size and glow; stated by `DotEnvelopeBounds` and `DotEnvelopeShape` |
| CanvasDraw.WordFill | src/components/lyrics/type/SyllableLyricsOnCanvas.tsx:891-912 | a word of an active group is filled solid exactly when it is over and with a gradient exactly while it is sung; the gradient has four ordered stops in [0, 1] from 0, the third at the sung fraction of the word's window (1 for a word of no duration) |
| CanvasDraw.SungFraction | src/components/lyrics/type/SyllableLyricsOnCanvas.tsx:900-903 | inside a proper window the clamp never bites: the fraction is the share of the window already sung, in [0, 1] |
| CanvasDraw.WordFillAsWrittenThrows | src/components/lyrics/type/SyllableLyricsOnCanvas.tsx:900-911 | a word that starts and ends at 1000 ms, reached exactly in an active group, makes the frame throw as written, where the corrected fill is a full gradient |
| CanvasDraw.WordFillAsWritten | src/components/lyrics/type/SyllableLyricsOnCanvas.tsx:891-912 | defines the word fill as the frame computes it, throwing on an offset that is not a finite number |
| CanvasDraw.WordFillAgrees | src/components/lyrics/type/SyllableLyricsOnCanvas.tsx:891-912 | for every word with a proper window the fill as written and the corrected fill agree |
| CanvasEngine.HitFrom | src/components/lyrics/type/SyllableLyricsOnCanvas.tsx:546-559 | the hit box is the first box, in insertion order, that holds the point with its bounds included, and there is none only when no box holds it |
| CanvasEngine.FindBox | src/components/lyrics/type/SyllableLyricsOnCanvas.tsx:546-559 | the box loop stops at exactly that first box |
| CanvasEngine.FirstVocal | src/components/lyrics/type/SyllableLyricsOnCanvas.tsx:563-565 | the line a click seeks to is the first non-interlude line of the group, and there is none only when the group has no such line |
| CanvasEngine.ClickAlwaysSeeks | src/components/lyrics/type/SyllableLyricsOnCanvas.tsx:537-576 | on a layout the pass produced, the mouse points at a line exactly when it is inside a box; that line is of the box's group, and a click there always seeks, to the start of the group's first sung line |
| CanvasEngine.HoveredGroupAsWrittenThrows | src/components/lyrics/type/SyllableLyricsOnCanvas.tsx:710-711 | a hovered index at or past the end of the layout makes the frame throw as written, where the corrected read sees no hover; on an index in range the two agree |
| CanvasEngine.BoxOf | src/components/lyrics/type/SyllableLyricsOnCanvas.tsx:716 | a group has a box exactly when some box carries its id, and the box found is one of them |
| CanvasEngine.HoverStep | src/components/lyrics/type/SyllableLyricsOnCanvas.tsx:712-726 | after a frame the card is for the hovered group; on a change to a group with a box it is that box grown by the padding, otherwise it stays where it was; its fade covers 15% of the way to 1 when something is hovered and to 0 otherwise, and stays in [0, 1] |
| CanvasEngine.EasedRule | src/components/lyrics/type/SyllableLyricsOnCanvas.tsx:695-708 | a frame gives every group of the layout but the credits an alpha and a scale, each a fifth (alpha) or 15% (scale) of the way from its old value to its target, or the target itself for a new group; groups not in the layout keep theirs |
| CanvasEngine.EaseAll | src/components/lyrics/type/SyllableLyricsOnCanvas.tsx:695-708 | the loop over the layout's groups, credits skipped and each group once, leaves exactly the eased maps above |
| CanvasEngine.AnySungInView | src/components/lyrics/type/SyllableLyricsOnCanvas.tsx:515-524 | the wheel check's test is whether some line being sung lies between the top padding and the bottom padding of the view |
| CanvasEngine.Engine.constructor | src/components/lyrics/type/SyllableLyricsOnCanvas.tsx:105-123 | a mounted canvas starts with no size and no layout, scrolled to the top, following playback, with no timer, nothing hovered, no group looks and the sync button hidden |
| CanvasEngine.Engine.Relayout | src/components/lyrics/type/SyllableLyricsOnCanvas.tsx:125-127 | a relayout on a canvas of width 0 keeps the old layout; otherwise it installs the layout of the current lyrics on the current size; nothing else changes (with the corrected height rule) |
| CanvasEngine.Engine.Resize | src/components/lyrics/type/SyllableLyricsOnCanvas.tsx:940-957 | a resize records the new size and relays out; scrolling, timer, hover and group looks are kept (with the corrected height rule) |
| CanvasEngine.Engine.SetLyrics | src/components/lyrics/type/SyllableLyricsOnCanvas.tsx:936-938 | new lyrics or settings relay out the canvas and keep the scroll, timer and hovered index (with the corrected height rule) |
| CanvasEngine.Engine.SyncClick | src/components/lyrics/type/SyllableLyricsOnCanvas.tsx:493-499 | the sync button turns auto-scroll on and changes nothing else that is drawn |
| CanvasEngine.Engine.Wheel | src/components/lyrics/type/SyllableLyricsOnCanvas.tsx:504-529 | a wheel event turns auto-scroll off, moves the target by the delta within 0 and the furthest scroll, and replaces any pending timer with the wheel check due a second later |
| CanvasEngine.Engine.FireTimer | src/components/lyrics/type/SyllableLyricsOnCanvas.tsx:512-528 | a due timer goes away; the frame loop's timer turns auto-scroll on, the wheel check only when a line being sung is in view; a timer not yet due changes nothing |
| CanvasEngine.Engine.Click | src/components/lyrics/type/SyllableLyricsOnCanvas.tsx:560-570 | a click seeks to the start of the pointed-at group's first sung line and then turns auto-scroll on; with nothing to seek auto-scroll is as it was |
| CanvasEngine.Engine.PointAt | src/components/lyrics/type/SyllableLyricsOnCanvas.tsx:541-559 | the hit test offsets the mouse by the scroll position and yields a line index inside the layout, or none |
| CanvasEngine.Engine.MouseMove | src/components/lyrics/type/SyllableLyricsOnCanvas.tsx:571-573 | a mouse move makes the pointed-at line the hovered one, or none |
| CanvasEngine.Engine.MouseOut | src/components/lyrics/type/SyllableLyricsOnCanvas.tsx:592-594 | leaving the canvas clears the hovered line |
| CanvasEngine.Engine.Tick | src/components/lyrics/type/SyllableLyricsOnCanvas.tsx:616-726 | one frame: while auto-scroll is on the target centres the followed line's group, the view covers a tenth of the way and stays in range, the sync button shows exactly when auto-scroll is off and the followed line is out of view, the re-enable timer is set or cleared by the same test, the groups ease; then the hovered group is read as written: the frame loop continues exactly when the hovered index is inside the layout, and only then does the hover card follow the group |
| CanvasEngine.Engine.HoverFrame | src/components/lyrics/type/SyllableLyricsOnCanvas.tsx:710-726 | the hover step reads the hovered group as written: on a stale index it throws, the card is left as it was and no further frame is requested; otherwise the card follows the group; nothing else changes |
| CanvasEngine.Engine.FollowFocus | src/components/lyrics/type/SyllableLyricsOnCanvas.tsx:651-668 | the frame's scroll: the target from the followed line's group while auto-scroll is on, then a smoothing step that stays in range |
| CanvasEngine.Engine.UpdateSync | src/components/lyrics/type/SyllableLyricsOnCanvas.tsx:670-693 | the sync button shows exactly when auto-scroll is off and the followed line is out of view; a re-enable timer is started when auto-scroll is off and the line is in view and none is pending, and cleared when the line is out of view |
| CanvasEngine.Engine.EaseGroups | src/components/lyrics/type/SyllableLyricsOnCanvas.tsx:695-708 | the frame's group looks are the eased maps of the layout's groups |

## Left out

- Drawing: canvas painting (text, gradients, arcs, shadows, the rounded hover-card path), the device-pixel-ratio setup and DOM class and style writes are not modelled; the model states the values they are given (fills, looks, dot envelopes, box geometry).
- Event sources: `requestAnimationFrame`, `setTimeout`/`clearTimeout`, `setInterval`, `ResizeObserver` and the DOM listeners are replaced by method calls that take the time and the playback position as arguments.
- Text measurement: `measureText` and the root font size from `getComputedStyle` are parameters. The fallback of 12 per character appears only in `CanvasWrap.FallbackMeasure`, which shows that the hypotheses of the wrap bound can be met.
- CanvasWrap.PartWrap: the width bound is proved only for a measurement that adds up over concatenation and is never negative, because the source compares a whole word's width but advances by the widths of its pieces, which need not agree for a real font with kerning.
- Floating point: times and widths are exact reals, so rounding, `toFixed` formatting and overflow are not modelled; NaN and the infinities appear only where the source divides by a quantity that can be 0, and for the credits lines' Infinity window.
- Unicode: a string is a sequence of Unicode scalar values, not of UTF-16 code units. A character outside the Basic Multilingual Plane (an emoji, a rare CJK ideograph) is one letter and one unit of `.length` in the model but two code units in the source. This changes, for such text only, the letter windows of `split('')` (SyllableLyrics.tsx:75, SyllableLyricsOnCanvas.tsx:332 and :374), the one-letter test `text.length === 1` (SyllableLyricsOnCanvas.tsx:361) and the fallback width of 12 per unit in `CanvasWrap.FallbackMeasure`. NFKD normalisation and `toLowerCase` in the Greek transliterator are parameters.
- Foreign romanisers and detectors: kuroshiro, Aromanize, pinyin, franc and eld are parameters, and so is whether a call into them throws.
- Network and persistence: the token endpoint's answer, `localStorage`, zustand `persist` and its `migrate` hook (appStore.ts:76), and `location.reload` after `setIsDevMode` are not modelled; the endpoint answer and `JSON.stringify` are parameters.
- `null` and `undefined` are not told apart: both are `None`.
- A canvas block without a lead part is modelled as a block with an empty lead, which lays out no lines, so the two behave alike.
- The `Schema` class's fallbacks to an upper-cased small letter are not modelled separately, because the SBL subclass always passes a non-empty capital value and they never fire.
- `resetToDefaultColor` and the colour picker's modal are UI and are not modelled.
- `addPlayerData`'s wait for the player global and the song-change listener are host integration; the bookkeeping they trigger (`setTempPlayerData`, `getSpotifyId`) is modelled.
- The click handler's `seekTo` is returned as the position to seek to, not performed.
- CanvasText.Place: raises the open line's height to each placed piece's height. As written, `maxLineHeight` is raised once per syllable, before the letter loop (see the Findings table). The as-written rule appears only in `CanvasTextProps.OversizeLineHeightAsWritten` and the functions it uses.
- CanvasText.PlaceSyllable: built on `CanvasText.Place`, so it uses the corrected height rule.
- CanvasText.PlaceLetters: built on `CanvasText.Place`, so a line the letter loop starts mid-syllable gets the font height rather than 0.
- CanvasText.ProcessPart: uses the corrected height rule through `CanvasText.PlaceSyllable`.
- CanvasLayout.LayoutOf: uses the corrected height rule through `CanvasText.ProcessPart`.
- CanvasLayout.RecalculateLayout: uses the corrected height rule through `CanvasText.ProcessPart`.
- CanvasEngine.Engine.Relayout: installs `CanvasLayout.LayoutOf`, so it uses the corrected height rule.
- CanvasText.PlaceWord: places its syllables through `CanvasText.PlaceSyllable` and its letters through `CanvasText.PlaceLetters`, so it uses the corrected height rule.
- CanvasText.PlaceSyllables: places each syllable through `CanvasText.PlaceSyllable`, so it uses the corrected height rule.
- CanvasLayout.LayoutBackground: lays out each part through `CanvasText.ProcessPart`, so it uses the corrected height rule.
- CanvasLayout.LayoutBlock: lays out its lead and background through `CanvasText.ProcessPart`, so it uses the corrected height rule.
- CanvasEngine.Engine.Resize: relays out through `CanvasEngine.Engine.Relayout`, so it uses the corrected height rule.
- CanvasEngine.Engine.SetLyrics: relays out through `CanvasEngine.Engine.Relayout`, so it uses the corrected height rule.
- CanvasEngine.Engine.Tick: word fills are drawn, not stored, so a frame does not report the `addColorStop` throw of `CanvasDraw.WordFillAsWritten`, which also ends the frame loop in the source.
- ObjectMerge.Put: a new key is appended at the end. JavaScript lists array-index keys (such as "0" or "12") first, in ascending order, so the order stated here holds only for keys that are not array indices.
- ObjectMerge.MergeFromPrefix: the key order it states holds only when no key is an array index, for the same reason.
- ObjectMerge.MergedKeepsTargetOrder: the key order it states holds only when no key is an array index, for the same reason.
- SerializeFilters.Serialize: filter values are natural numbers, so negative and fractional values and their text are not modelled.
- TimelineControls.Timeline.SliderChange: the debounce of the seek (TimelineControls.tsx:25-28 and 42) is not modelled, and `utils/debounce.ts` is not part of this model. The model seeks on every slider change; the source, through its debounced callback, seeks after a delay and only for the last change of a burst. The shown position is updated on every change in both.
- GreekTransliteration.ReplaceFirst: replacement patterns (`$&`, `$1`, `$$`) in schema values passed to `replace` are inserted literally, not interpreted as JavaScript does. The SBL defaults contain no `$`, so this matters only for user-supplied schema values.
- TimelineControls.FormatTimeShape: the example of one hour giving "60:00" is not stated as its own lemma; it is covered by the general statement that minutes are not capped.

## Findings

| source | as written | input that shows it | evidently intended | confidence | as-written member | corrected member |
|---|---|---|---|---|---|---|
| src/lib/greekRomanization.js:239 | the capital double-rho rule replaces only the first `Ρ` of `ΡΡ` with the double-rho value, so the second `Ρ` is mapped again | the word `ΡΡ` gives `RRHR` | `RRH`, as the small `ρρ` gives `rrh` | not executed | GreekTransliteration.CapitalDoubleRhoAsWritten | GreekTransliteration.CapitalDoubleRho |
| src/store/appStore.ts:52 | `toggleRomanization` flips a top-level `forceRomanized` key, while the renderers read `lyrics.forceRomanized` | a fresh state toggled once: `lyrics.forceRomanized` is unchanged; toggled twice, a top-level `forceRomanized: false` has been added | flip `lyrics.forceRomanized`, so that two toggles restore the state | not executed | AppSettings.ToggleAsWrittenKeepsSetting | AppSettings.ToggleFlipsSetting |
| src/components/lyrics/helper/common.ts:92 | the skip-mask branch writes `-${translateY}px` although `translateY` is already 0 or negative | any fill above 0 with a positive maximum lift gives a length starting with `--` | a single minus sign, as in the other branch | not executed | LyricTiming.SkipMaskDoubleMinus | LyricTiming.SkipMaskTranslateAgrees |
| src/components/lyrics/type/LineLyrics.tsx:51-52 | the frame reads `dataset.start` and `dataset.end`, which no element sets, so both are NaN | any line at any playback position is marked past with full fill | the line's own start and end times | not executed | LineRenderer.LineAlwaysPastAsWritten | LineRenderer.LineStyleInRange |
| src/components/lyrics/type/SyllableLyricsOnCanvas.tsx:331-334 | in a word too wide for a line, `maxLineHeight` is raised once per syllable, before the letter loop; a line the loop starts in mid-syllable closes with height 0 | the word "ab" with letters 60 wide on a canvas 100 wide: the line holding "b" has height 0 | every line one font high | not executed | CanvasTextProps.OversizeLineHeightAsWritten | CanvasTextProps.PartLines |
| src/components/lyrics/type/SyllableLyricsOnCanvas.tsx:900-911 | the word fill divides by the word's duration; for a word of no duration reached exactly the fraction is NaN and `addColorStop` throws, ending the frame loop | a word starting and ending at 1000 ms, at progress 1000 ms in an active group | a full gradient | not executed | CanvasDraw.WordFillAsWrittenThrows | CanvasDraw.WordFill |
| src/components/lyrics/type/SyllableLyricsOnCanvas.tsx:711 | the hovered line index survives a relayout and is used to index the new layout, which throws when it is past the end, ending the frame loop | a hovered index of 5 after a relayout to 3 lines | no hover | not executed | CanvasEngine.HoveredGroupAsWrittenThrows | CanvasEngine.HoverStep |
