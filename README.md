# Fish diary: palette, navigation and diary logic in Dafny

A model of the logic inside the Next.js "fish diary" app. The modelled components are:

- **ColorExtractor**: turns an uploaded image into a three-colour palette. In this version the extraction is a stub that always returns three fixed colours.
- **FishSVG**: paints a fish with that palette, using two gradients.
- **AppHeader**: picks the navigation links from the current pathname.
- **DiaryEntry**: saves today's diary text under a date key.
- **DiaryView**: reads today's text back.

Each component is one module. Code that is pure expressions in the source is written as functions with lemmas. Component state that the source updates step by step becomes a class with `modifies` clauses. The header's link list, which the source builds with `push`, becomes a method that is proved equal to a rule-table function.

| module | file | models |
|---|---|---|
| `Wrappers` | wrappers.dfy | `Option` (a JavaScript `null` / `undefined`) |
| `Strings` | strings.dfy | `String(n)` for integers, `padStart`, `includes`, and decimal parsers that invert `String(n)` |
| `Browser` | browser.dfy | one local clock reading; `localStorage` as a map from keys to records, where a write or read may throw |
| `Fish` | fish.dfy | components/FishSVG.tsx |
| `ColorExtraction` | color_extraction.dfy | components/ColorExtractor.tsx |
| `Header` | header.dfy | components/AppHeader.tsx |
| `DiaryWriting` | diary_writing.dfy | components/DiaryEntry.tsx |
| `DiaryReading` | diary_reading.dfy | components/DiaryView.tsx |

Modelling conventions:

- JavaScript numbers are Dafny `real`s.
- `Math.round(x)` is `floor(x + 1/2)`.
- A colour channel is either a number or "not a number". This models the `typeof ... === 'number'` test.
- For `rgb(...)` texts and `YYYY-MM-DD` dates, the partner of the formatter is a parser. The round-trip lemmas show that nothing is lost in printing.
- The clock is an input: year, month index, day and weekday index.
- Whether a storage access throws is also an input.
- The two-second timer of the entry form is a separate `TimerFired` transition.

## Model

| member | source | states |
|---|---|---|
| Strings.IntToString | my-app/components/DiaryEntry.tsx:14-16 | `String(n)` is never empty, is all digits exactly for `n >= 0`, and starts with `-` exactly for `n < 0` |
| Strings.NatToString | my-app/components/DiaryEntry.tsx:13-16 | a natural prints as digits with no leading zero; lengths 1, 2, 3 and 4 for values below 10, 100, 1000 and 10000 |
| Strings.IntToStringRoundTrip | my-app/components/FishSVG.tsx:14 | parsing `String(n)` gives back `n`, for every integer |
| Strings.NatToStringRoundTrip | my-app/components/DiaryEntry.tsx:14-15 | parsing the digits of a natural gives back that natural |
| Strings.IntToStringInjective | my-app/components/DiaryEntry.tsx:16 | different integers print differently |
| Strings.PadStart | my-app/components/DiaryEntry.tsx:14-15 | `padStart` has length `max(|s|, width)`, ends with `s` and is filled before it |
| Strings.PadTwoRoundTrip | my-app/components/DiaryEntry.tsx:14-15 | a value below 100 padded to width 2 is exactly two digits and parses back to itself |
| Strings.IncludesIffOccurs | my-app/components/AppHeader.tsx:13-16 | `includes` holds exactly when the needle occurs at some position |
| Strings.IncludesPrefix | my-app/components/AppHeader.tsx:13-16 | a text that contains `sub` also contains every prefix of `sub` |
| Strings.IncludesLonger | my-app/components/AppHeader.tsx:13-16 | no text contains a longer needle |
| Browser.LocalStorage.SetItem | my-app/components/DiaryEntry.tsx:30 | a write that does not throw sets exactly one key; a write that throws changes nothing |
| Browser.LocalStorage.GetItem | my-app/components/DiaryView.tsx:67 | a read yields the record under the key, or `null` when the key is absent |
| Fish.Round | my-app/components/FishSVG.tsx:14 | `Math.round(x)` lies in (x - 1/2, x + 1/2] |
| Fish.RoundWhole | my-app/components/FishSVG.tsx:14 | rounding a whole number leaves it unchanged |
| Fish.RoundIdempotent | my-app/components/FishSVG.tsx:14 | rounding twice is the same as rounding once |
| Fish.RgbTextRoundTrip | my-app/components/FishSVG.tsx:14 | the text `rgb(${r}, ${g}, ${b})` parses back to (r, g, b) for every integer the model prints, negative ones included |
| Fish.ToRgbStringRoundTrip | my-app/components/FishSVG.tsx:11-17 | `toRgbString` prints the rounded channels of a numeric colour, and `rgb(0, 0, 0)` for a missing colour or one with a non-number channel |
| Fish.ToRgbStringOfWholeChannels | my-app/components/FishSVG.tsx:13-14 | a numeric colour with whole channels prints those channels unchanged |
| Fish.DefaultStopText | my-app/components/FishSVG.tsx:23-25 | the fallback literals are the `rgb(...)` texts of red, green and blue |
| Fish.GradColorShows | my-app/components/FishSVG.tsx:23-25 | stop `i` shows palette entry `i` when one exists, and red, green or blue otherwise |
| Fish.FullPaletteUsesNoDefault | my-app/components/FishSVG.tsx:23-25 | with three or more entries no default is used, and entries after the third have no effect |
| Fish.EmptyPaletteUsesDefaults | my-app/components/FishSVG.tsx:23-25 | an empty palette paints the body red to green and the tail green to blue |
| Fish.GradientWiring | my-app/components/FishSVG.tsx:66-75 | the body runs slot 0 to slot 1 and the tail slot 1 to slot 2, sharing slot 1 |
| Fish.GradientIdsEmbedFishId | my-app/components/FishSVG.tsx:19-33 | both gradient ids end with the fish id (default `default`), and a fish's two ids differ |
| Fish.GradientIdsUnique | my-app/components/FishSVG.tsx:32-33 | a body id never equals a tail id, and two fish share an id exactly when their fish ids are equal |
| Fish.ToRgbString | my-app/components/FishSVG.tsx:11-17 | `toRgbString`: the rounded channels of a numeric colour as `rgb(r, g, b)`, else `rgb(0, 0, 0)`; its partner is `Fish.ParseRgb`, and `Fish.ToRgbStringRoundTrip` connects them |
| Fish.GradColor | my-app/components/FishSVG.tsx:23-25 | `gradColor1..3`: palette entry `i` printed by `toRgbString` when it exists, else the red, green or blue literal; stated by `Fish.GradColorShows` |
| Fish.FishPaint | my-app/components/FishSVG.tsx:66-75 | the body gradient (stop 1 to stop 2) and tail gradient (stop 2 to stop 3) with ids `fishBodyGradient-<id>` and `tailFinGradient-<id>` of lines 32-33; stated by `Fish.GradientWiring` and `Fish.GradientIdsUnique` |
| ColorExtraction.SquaredDistanceNonNegative | my-app/components/ColorExtractor.tsx:22-25 | `abs` is never negative |
| ColorExtraction.SquaredDistanceToSelf | my-app/components/ColorExtractor.tsx:22-25 | `abs(c, c) == 0` |
| ColorExtraction.SquaredDistanceSymmetric | my-app/components/ColorExtractor.tsx:22-25 | `abs(c1, c2) == abs(c2, c1)` |
| ColorExtraction.SquaredDistancePositive | my-app/components/ColorExtractor.tsx:22-25 | vectors that differ in their first three entries are at a positive distance |
| ColorExtraction.SquaredDistanceZeroIff | my-app/components/ColorExtractor.tsx:22-25 | `abs` is 0 exactly when the first three entries agree |
| ColorExtraction.Max3 | my-app/components/ColorExtractor.tsx:29 | `Math.max` of three numbers is one of them and bounds all three from above |
| ColorExtraction.Min3 | my-app/components/ColorExtractor.tsx:30 | `Math.min` of three numbers is one of them and bounds all three from below |
| ColorExtraction.HsvScoreSplits | my-app/components/ColorExtractor.tsx:28-33 | the score is value `max/255` plus the saturation term |
| ColorExtraction.HsvScoreOfZeroMax | my-app/components/ColorExtractor.tsx:29-32 | with largest channel 0 the saturation is 0 and black scores 0 |
| ColorExtraction.HsvScoreRange | my-app/components/ColorExtractor.tsx:28-33 | for channels in [0, 255] the saturation is in [0, 1] and the score in [0, 2] |
| ColorExtraction.HsvScoreOfGrey | my-app/components/ColorExtractor.tsx:28-33 | a grey has saturation 0 and scores `max/255` |
| ColorExtraction.HsvScoreIsTwoIff | my-app/components/ColorExtractor.tsx:28-33 | the score is 2 exactly when the largest channel is 255 and the smallest 0 |
| ColorExtraction.HsvScoreIgnoresChannelOrder | my-app/components/ColorExtractor.tsx:28-33 | permuting the channels leaves the score unchanged |
| ColorExtraction.SquaredDistance | my-app/components/ColorExtractor.tsx:22-25 | `abs`: the sum of the squared differences of the first three entries; stated by the `SquaredDistance*` lemmas |
| ColorExtraction.HsvScore | my-app/components/ColorExtractor.tsx:28-33 | `getHsvScore`: `max/255` plus `(max - min)/max`, with 0 for the second term when `max` is 0; stated by the `HsvScore*` lemmas |
| ColorExtraction.ToRgbStringRoundTrip | my-app/components/ColorExtractor.tsx:10-11 | the preview text reads back as the colour's own channel values, unrounded |
| ColorExtraction.ToRgbStringAgreesWithFish | my-app/components/ColorExtractor.tsx:10-11 | on whole channels the preview text equals FishSVG's rounded text |
| ColorExtraction.ToRgbString | my-app/components/ColorExtractor.tsx:10-11 | the preview `toRgbString`: the channels printed unrounded, for whole-number channels; partner `Fish.ParseRgb` via `ColorExtraction.ToRgbStringRoundTrip` |
| ColorExtraction.IsReady | my-app/components/ColorExtractor.tsx:43 | `isReady`: `colors` is not null, has at least three entries, and `loading` is false |
| ColorExtraction.FishColors | my-app/components/ColorExtractor.tsx:134 | the `fishColors` argument: the palette, or the empty list when `data.colors` is null |
| ColorExtraction.ReadyFishUsesPalette | my-app/components/ColorExtractor.tsx:43 | once `isReady` holds, every stop of the fish comes from the palette |
| ColorExtraction.NoPaletteFishUsesDefaults | my-app/components/ColorExtractor.tsx:134-135 | with `colors` null the fish is not ready and gets `[]`, the default paint |
| ColorExtraction.DummyColorsShown | my-app/components/ColorExtractor.tsx:58-62 | the stub palette shows as `rgb(255, 100, 100)`, `rgb(100, 255, 100)` and `rgb(100, 100, 255)` |
| ColorExtraction.ColorExtractor.constructor | my-app/components/ColorExtractor.tsx:38-40 | the component starts with no image, no palette and not loading, so it is not ready |
| ColorExtraction.ColorExtractor.HandleFileChange | my-app/components/ColorExtractor.tsx:101-106 | a chosen file replaces the image and clears the palette, so the component is not ready; with no file nothing changes |
| ColorExtraction.ColorExtractor.ExtractColors | my-app/components/ColorExtractor.tsx:47-67 | afterwards the palette is the three stub colours, the image is kept, loading is false and `isReady` holds |
| Header.BuildLinks | my-app/components/AppHeader.tsx:11-22 | the pushed list equals the rule table |
| Header.NavLinks | my-app/components/AppHeader.tsx:13-22 | the rule table: the `/diary/view` test, then the `/diary` test, then the fallback, each with its two links; stated by `Header.NavLinksTable` |
| Header.IsActive | my-app/components/AppHeader.tsx:39 | the highlight test `link.href === pathname`; stated by `Header.AtMostOneActive` and `Header.ActiveOnlyOnHome` |
| Header.NavLinksTable | my-app/components/AppHeader.tsx:13-22 | `/diary/view` paths get `[/diary/entry, /diary]`, other `/diary` paths get `[/diary/view, /diary]`, and all remaining paths get `[/diary, /diary/view]` |
| Header.TwoDistinctLinks | my-app/components/AppHeader.tsx:34-37 | every path gets exactly two links with distinct hrefs, which serve as keys |
| Header.ViewTestMustComeFirst | my-app/components/AppHeader.tsx:13-16 | every `/diary/view` path also passes the `/diary` test, so the view test must come first |
| Header.AllBranchesReachable | my-app/components/AppHeader.tsx:13-22 | each of the three branches is taken by some pathname |
| Header.AtMostOneActive | my-app/components/AppHeader.tsx:39 | at most one link is highlighted |
| Header.ActiveOnlyOnHome | my-app/components/AppHeader.tsx:13-39 | a link is highlighted exactly on `/diary` itself, and then it is the home link |
| Header.EntryLacksView | my-app/components/AppHeader.tsx:13-14 | `/diary/entry` does not contain `/diary/view` |
| DiaryWriting.TwoDigitsRoundTrip | my-app/components/DiaryEntry.tsx:14-15 | `String(n).padStart(2, '0')` for `n < 100` is two digits that read back as `n` |
| DiaryWriting.GetTodayDate | my-app/components/DiaryEntry.tsx:11-17 | `getTodayDate`: year, `-`, month + 1 padded to two, `-`, day padded to two; partner `DiaryWriting.ParseDate` via `DiaryWriting.GetTodayDateRoundTrip` |
| DiaryWriting.EntryKey | my-app/components/DiaryEntry.tsx:30 | the storage key `diary-<date>`; stated by `DiaryWriting.EntryKeyInjective` |
| DiaryWriting.Saved | my-app/components/DiaryEntry.tsx:27-30 | the store after `setItem` of the record under its date's key; stated by `DiaryWriting.SavedContents` |
| DiaryWriting.GetTodayDateParts | my-app/components/DiaryEntry.tsx:14-15 | the month part is month + 1 and the day part the day, each exactly two digits |
| DiaryWriting.GetTodayDateShape | my-app/components/DiaryEntry.tsx:16 | for a four-digit year the date has length 10, `-` at positions 4 and 7, and digits elsewhere |
| DiaryWriting.DateTextRoundTrip | my-app/components/DiaryEntry.tsx:16 | year, padded month and padded day joined by `-` parse back to the three numbers |
| DiaryWriting.GetTodayDateRoundTrip | my-app/components/DiaryEntry.tsx:11-17 | the date text reads back as the clock's year, month index and day |
| DiaryWriting.EntryKeyInjective | my-app/components/DiaryEntry.tsx:30 | different dates give different keys |
| DiaryWriting.DistinctDaysDistinctKeys | my-app/components/DiaryEntry.tsx:11-30 | records of different calendar days are stored under different keys |
| DiaryWriting.SavedContents | my-app/components/DiaryEntry.tsx:27-30 | a save stores the record under `diary-<date>` and leaves every other key as it was |
| DiaryWriting.SaveTwiceOverwrites | my-app/components/DiaryEntry.tsx:30 | saving twice for one date leaves only the second record |
| DiaryWriting.DiaryEntry.constructor | my-app/components/DiaryEntry.tsx:20-23 | the form opens on today's date with empty text and not saved |
| DiaryWriting.DiaryEntry.SetDate | my-app/components/DiaryEntry.tsx:96 | the date input changes only the date |
| DiaryWriting.DiaryEntry.SetTitle | my-app/components/DiaryEntry.tsx:108 | the title input changes only the title |
| DiaryWriting.DiaryEntry.SetContent | my-app/components/DiaryEntry.tsx:121 | the content area changes only the content |
| DiaryWriting.DiaryEntry.HandleSave | my-app/components/DiaryEntry.tsx:25-43 | a successful write stores `{title, content, date}` under `diary-<date>`, sets `isSaved` and schedules the timer; a failed write changes neither store nor form |
| DiaryWriting.DiaryEntry.TimerFired | my-app/components/DiaryEntry.tsx:34-38 | the timer clears `isSaved`, the title and the content, and keeps the date |
| DiaryReading.TodayKeyMatchesEntryKey | my-app/components/DiaryView.tsx:11-17 | `getTodayKey` equals DiaryEntry's `getTodayDate`, and the lookup key equals the key DiaryEntry writes for today |
| DiaryReading.GetTodayKey | my-app/components/DiaryView.tsx:11-17 | `getTodayKey`, the same formula as DiaryEntry's `getTodayDate`; stated by `DiaryReading.TodayKeyMatchesEntryKey` |
| DiaryReading.Lookup | my-app/components/DiaryView.tsx:67-70 | the record under `diary-<todayKey>`, or none; stated by `DiaryReading.SavedEntryIsDisplayed` and `DiaryReading.OtherDayIsNotDisplayed` |
| DiaryReading.DisplayEvent | my-app/components/DiaryView.tsx:78-80 | `displayEvent`: the record's content, or the placeholder text; stated by `DiaryReading.PlaceholderIffNothingToShow` |
| DiaryReading.DisplayDate | my-app/components/DiaryView.tsx:62 | `displayDate`: month + 1, `/`, day, unpadded; stated by `DiaryReading.DisplayDateRoundTrip` |
| DiaryReading.SavedEntryIsDisplayed | my-app/components/DiaryView.tsx:65-80 | a record saved for today's date is found, and its content is shown |
| DiaryReading.OtherDayIsNotDisplayed | my-app/components/DiaryView.tsx:67 | saving a record for another date does not change what today's lookup finds |
| DiaryReading.PlaceholderIffNothingToShow | my-app/components/DiaryView.tsx:78-80 | with no record the placeholder is shown, and it is shown only then or when the record's content is that text |
| DiaryReading.DisplayDateRoundTrip | my-app/components/DiaryView.tsx:62 | the `M/D` line reads back as month + 1 and day |
| DiaryReading.GetDayOfWeek | my-app/components/DiaryView.tsx:19-23 | a weekday index 0..6 selects one of the seven labels, so the index is always in range |
| DiaryReading.GetDayOfWeekInjective | my-app/components/DiaryView.tsx:21 | different weekdays get different labels |
| DiaryReading.GetDayOfWeekAsWritten | my-app/components/DiaryView.tsx:19-22 | `getDayOfWeek(todayKey)` as written: the label of the UTC-midnight instant read in local time, which is the previous day's label for a negative offset; stated by `DiaryReading.AsWrittenCorrectIffEastOfUtc` and `DiaryReading.AsWrittenShowsPreviousDay` |
| DiaryReading.AsWrittenCorrectIffEastOfUtc | my-app/components/DiaryView.tsx:19-22 | the label as written is today's exactly when the local offset is zero or east of UTC |
| DiaryReading.AsWrittenShowsPreviousDay | my-app/components/DiaryView.tsx:20-22 | on 1 May 2024 (a Wednesday) at UTC-5, the label as written is `Tue.` |
| DiaryReading.DiaryView.constructor | my-app/components/DiaryView.tsx:58-59 | the page starts with no record and loading |
| DiaryReading.DiaryView.LoadToday | my-app/components/DiaryView.tsx:65-76 | loading always ends; a record found under `diary-<todayKey>` replaces `diaryData`; a missing key or a throwing read leaves it unchanged |

## Left out

- Clustering, stride sampling and palette ranking: `extractColors` is a stub in components/ColorExtractor.tsx, so the model has nothing to model for them.
- Canvas drawing, image decoding and the object-URL lifecycle in components/ColorExtractor.tsx: these are browser I/O. `ExtractColors` has no pixel argument, because the stub ignores it.
- `localStorage`, `JSON.stringify` and `JSON.parse` are a map from keys to records. A failing write, read or parse is a boolean input.
- A record that decodes to a shape other than `DiaryData` is not modelled.
- The falsy stored string `""`, which the reader would skip, is not modelled either: the writer never produces it.
- `alert` and `console` output are not modelled; they are output only.
- `new Date()` is a clock reading given as input, and each modelled function takes a single reading. DiaryView reads the clock three times (for `todayKey` and twice for `displayDate`). Readings that straddle midnight, and daylight-saving changes between readings, are not modelled.
- The `setTimeout` callback is the `TimerFired` transition. The two-second delay, and what happens when a second save starts before the timer fires, are not modelled.
- The `setInterval` flipping in components/Aquarium.tsx is not part of this model.
- The random fish in app/diary/page.tsx are not part of this model.
- The layout files, SVG path data, styles and JSX rendering carry no logic and are not part of this model.
- JavaScript numbers are exact reals. IEEE-754 rounding in `getHsvScore` and `Math.round` is not modelled, and neither are `NaN` and `Infinity`.
- Strings.IntToString: it matches JavaScript's `String(n)`, and a `${n}` template, only for |n| < 10^21. From 10^21 on JavaScript prints exponent form such as `1e+21`, so a channel that large prints differently in the model.
- ColorExtraction.SquaredDistance: the channels are integers rather than arbitrary reals, so the distance lemmas hold for integer colour vectors only.
- ColorExtraction.SquaredDistance: it requires at least three entries. In JavaScript a shorter array gives `NaN`.
- ColorExtraction.ToRgbString: it takes only colours whose channels are whole numbers. JavaScript's printing of fractional numbers is not modelled.
- DiaryReading.GetDayOfWeekAsWritten takes the local UTC offset in effect at that midnight as an input.
- DiaryReading.GetDayOfWeekAsWritten assumes a four-digit year. Other years make `new Date(string)` parsing implementation-defined.
- Browser.IsCalendarReading bounds only the month, day and weekday index. It does not check that the date exists in that month.

## Findings

| source | as written | input that shows it | evidently intended | confidence | as-written member | corrected member |
|---|---|---|---|---|---|---|
| my-app/components/DiaryView.tsx:19-22 | `new Date("YYYY-MM-DD")` is midnight UTC of that date, but `getDay()` reads it in local time | a clock showing Wednesday 1 May 2024 in a zone at UTC-5; the label is `Tue.` | the weekday of today's local date, here `Wed.` | not executed | DiaryReading.GetDayOfWeekAsWritten (shown by DiaryReading.AsWrittenShowsPreviousDay) | DiaryReading.GetDayOfWeek |
