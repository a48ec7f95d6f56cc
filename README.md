# Divine Echo — a Dafny model of its core

Divine Echo is a single-page React app. For a chosen day of the year it:

- asks a generative-AI provider for historical events on that date;
- takes the first recommendation and has the provider write a devotional "echo" for it;
- has the provider paint an image for it;
- shows the result as a card with copy-ready social-media posts.

Generated echoes can be archived in the browser's `localStorage`, restored later and deleted.

This project models the deterministic core of the app:

- **`Types`** (`types.dfy`): the records of `types.ts` and two wrappers:
  - `Option` for `undefined`;
  - `Outcome` for a call that may throw, carrying the error's `message`, which may be missing.
- **`Text`** (`text.dfy`): the JavaScript string built-ins the app relies on, namely `String(n)`, `Number(s)`, `padStart`, `split` on one character and `join`.
- **`DateUtils`** (`date_utils.dfy`): `getDayOfYearInfo` as calendar arithmetic. It covers:
  - the ordinal day of the year;
  - the Gregorian leap rule and the year length;
  - the `current/total` label.
- **`GeminiService`** (`gemini_service.dfy`): the shaping around the three provider calls:
  - the exclusion clause;
  - the parse-or-throw handling;
  - the merge of the day fields over the generated content;
  - the first-inline-part scan that builds the image data URI (a method with a loop);
  - the first-part check of the speech call.
- **`InspirationCard`** (`inspiration_card.dfy`): the text the card derives from an echo:
  - the shared post;
  - the export file name;
  - the headline;
  - which platform cards are shown.
- **`App`** (`app.dfy`): the main screen.
  - Pure parts: the `YYYY-MM-DD` date field and its parse, the history-index transforms, and what each archive operation does to the index and the store.
  - A scan run: the loading states it passes through, the data it shows and the error it leaves.
  - The class `App.MainApp` holds the component's state (`loadingState`, `data`, `error`, `authorName`, `historyIndex`, and `storage` for `localStorage`). A ghost `trace` records every loading state set, in order.
  - Its methods change that state step by step, as the handlers do. Each method's postcondition ties the new state to the pure functions, and the properties are proved about those functions.

How the outside world is represented:

- A remote call is an arrow-typed field of `App.Backend`, from what the code passes to what the call returns (or `Fail` when it throws).
- `JSON.parse` is a decoder that answers `None` where the real one throws.
- `JSON.stringify` and the store's parse are the fields of `App.Codec`.
- Whether each `localStorage.setItem` throws (the quota) is a boolean parameter.
- The two `Date.now()` readings of a save are two parameters.

## Model

A few helpers model source lines but carry no contract of their own, so they have no row: `App.EchoId` (App.tsx:112), `App.MetadataFor` (App.tsx:113-119), `GeminiService.TextOr` (services/geminiService.ts:36, 104) and `App.ScanRecommendations` (App.tsx:162).

| member | source | states |
|---|---|---|
| Text.IntToStringRoundTrip | App.tsx:152 | `Number(String(i)) == i` for every integer, so the numbers written into strings read back |
| Text.PadTwoRoundTrip | App.tsx:26-27 | `String(n).padStart(2, '0')` reads back as `n` |
| Text.PadStart | App.tsx:26-27 | the padded string ends with the original, is at least the width long, and is filled in front with the fill character |
| Text.IntToString | App.tsx:28 | `String(i)` is non-empty and starts with a minus sign exactly when `i` is negative |
| Text.JsNumber | App.tsx:152 | `Number("")` is 0; a string without a leading minus reads as a number exactly when it is all digits, and then it is non-negative; after a minus sign, exactly when digits follow, and then it is non-positive |
| Text.Split | App.tsx:152 | `split` always yields at least one piece |
| Text.SplitAtFirstSeparator | App.tsx:152 | `split` ends the first piece at the first separator and splits the rest the same way |
| Text.SplitWithoutSeparator | App.tsx:152 | a string without the separator splits into itself |
| Text.JoinSnoc | services/geminiService.ts:15 | `join` of one more title appends the separator and that title |
| Text.Join | services/geminiService.ts:15 | the empty list joins to ""; otherwise the result starts with the first element, followed by the separator when there is a second |
| DateUtils.DaysInMonth | utils/dateUtils.ts:4-7 | every month of a valid date has 28 to 31 days |
| DateUtils.MonthsFillYear | utils/dateUtils.ts:9-13 | the twelve months add up to `totalDays`: 366 in a leap year, 365 otherwise |
| DateUtils.IsLeap | utils/dateUtils.ts:9-11 | outside century years a year is leap exactly when divisible by 4; a century year exactly when divisible by 400 |
| DateUtils.YearLength | utils/dateUtils.ts:13 | `totalDays` is 365 or 366, and 366 exactly in a leap year |
| DateUtils.DayOfYear | utils/dateUtils.ts:4-7 | every valid date has an ordinal from 1 to the length of its year |
| DateUtils.FirstAndLastDay | utils/dateUtils.ts:4-13 | 1 January is day 1, and 31 December is day `total` |
| DateUtils.NextDay | utils/dateUtils.ts:4-7 | the calendar day after a valid date is valid |
| DateUtils.NextDayOrdinal | utils/dateUtils.ts:4-7 | the next day in the same year has ordinal `current + 1`; after 31 December (ordinal `total`) comes day 1 |
| DateUtils.DateOfOrdinalInverts | utils/dateUtils.ts:4-7 | reading the ordinal back month by month gives the date again |
| DateUtils.DateOfOrdinalValid | utils/dateUtils.ts:4-13 | every ordinal from 1 to the year length belongs to a valid date of that year |
| DateUtils.OrdinalInjective | utils/dateUtils.ts:4-7 | two dates of one year with the same ordinal are equal |
| DateUtils.GetDayOfYearInfo | utils/dateUtils.ts:2-22 | `1 <= current <= total`; `total` is 365 or 366, and 366 exactly in a leap year; the two locale labels are passed through |
| DateUtils.FormattedRoundTrip | utils/dateUtils.ts:18 | `formatted` splits at its one `/` into the decimal digits of `current` and of `total` |
| DateUtils.LeapExamples | utils/dateUtils.ts:9-13 | 2000 and 2024 are leap years (366 days); 1900 and 2026 are not (365) |
| GeminiService.ExclusionClause | services/geminiService.ts:14-16 | the clause is empty exactly when there are no titles; otherwise it is longer than the lead and ends with a period |
| GeminiService.ExclusionClauseShape | services/geminiService.ts:14-16 | the clause is empty exactly when there is nothing to exclude; otherwise it is the lead, the titles joined by ", " and a period |
| GeminiService.RecommendationsFrom | services/geminiService.ts:30-39 | a thrown call keeps its message; a missing or empty text is parsed as `"[]"`; unparseable text fails with "Failed to fetch historical archives."; otherwise the result is the parsed list |
| GeminiService.EmptyTextGivesNoRecommendations | services/geminiService.ts:35-36 | a response without text yields the empty list |
| GeminiService.MergeDayFields | services/geminiService.ts:103-112 | `dayCount`, `dayNumber`, `totalDays` and `userName` come from the request, `dateString` is the request's plus ", 2026", and every other field comes from the response |
| GeminiService.MergeOverrides | services/geminiService.ts:103-112 | responses differing only in the overridden fields merge alike, and merging again changes nothing |
| GeminiService.ContentFrom | services/geminiService.ts:97-115 | a thrown call keeps its message; unparseable text fails with "Failed to weave the narrative threads."; otherwise the result is the merged content |
| GeminiService.FirstInlineData | services/geminiService.ts:131-136 | finds nothing exactly when no part carries non-empty inline data; what it finds is non-empty |
| GeminiService.FirstInlineDataIsFirst | services/geminiService.ts:131-136 | the scan finds data exactly when some part carries it, and then it is the data of the first such part |
| GeminiService.LaterPartsIgnored | services/geminiService.ts:132-136 | parts after the first one with data do not change the result |
| GeminiService.ImageFrom | services/geminiService.ts:124-137 | a thrown call keeps its message; otherwise any failure is "Visual manifestation failed."; it succeeds exactly when parts are present and one carries data, and then returns `"data:image/png;base64,"` plus the data of the first such part |
| GeminiService.GenerateInspirationalImage | services/geminiService.ts:131-137 | the loop with early return computes `GeminiService.ImageFrom`: a response that does not throw fails only with "Visual manifestation failed.", succeeds exactly when some part carries data, and returns the data URI of the first such part |
| GeminiService.SpeechFrom | services/geminiService.ts:143-153 | a thrown call keeps its message; otherwise it succeeds exactly when the first part carries non-empty data, and returns that data, and any failure is "Audio synthesis failed." |
| GeminiService.SpeechOnlyReadsFirstPart | services/geminiService.ts:151-153 | speech data agrees with the image scan on a single part, but a later part carrying data does not rescue the speech call |
| InspirationCard.FullPost | components/InspirationCard.tsx:17-20 | the post is the header, then the body verbatim, then a blank line, then the hashtags verbatim at the end |
| InspirationCard.FullPostDeterminesContent | components/InspirationCard.tsx:17-20 | for one echo and one set of hashtags, the post determines the body |
| InspirationCard.PostHeaderReadsBack | components/InspirationCard.tsx:18 | the header starts with the fixed lead, and the date, the day number and the year length can be read back out of it |
| InspirationCard.ExportFilename | components/InspirationCard.tsx:41 | the name starts with "DivineEcho-Day", ends with ".png", and the middle reads back as `dayNumber` |
| InspirationCard.Headline | components/InspirationCard.tsx:91 | the overlay text in curly quotes when it is non-empty, otherwise the event title in curly quotes |
| InspirationCard.PlatformCard | components/InspirationCard.tsx:119-136 | shows nothing exactly when the body is missing or empty; otherwise the copy button copies the full post of that body and its hashtags, with an absent hashtag field printed as "undefined" |
| InspirationCard.ShownCardsExactly | components/InspirationCard.tsx:195-201 | a card is shown for a platform name exactly when a listed platform of that name has a non-empty body |
| InspirationCard.PromptedFieldsShowOnlyLinkedIn | components/InspirationCard.tsx:195-201 | a response holding exactly the post fields the prompt requests shows only the LinkedIn card |
| App.LocalDateString | App.tsx:23-29 | the string is the year's digits followed by `-MM-DD`: six more characters, with dashes at the sixth and third places from the end |
| App.DateParts | App.tsx:152 | reads three numbers exactly when the split yields at least three pieces and each of the first three is a number, and then they are those numbers |
| App.LocalDateRoundTrip | App.tsx:23-29 | splitting the `YYYY-MM-DD` string on `-` and reading the numbers gives back the year, the month and the day |
| App.DayInfoOf | App.tsx:151-154 | when the selected date parses into a valid date, the day info has `1 <= current <= total`, a year length of 365 or 366, and the locale labels |
| App.TodayDayInfo | App.tsx:151-154 | the initial date field (a valid date from year 100 on) yields the day info of that very date |
| App.Prepend | App.tsx:122 | the new entry comes first, and the index grows by one up to 50 entries and then stays at 50 |
| App.PrependShape | App.tsx:122 | a save puts the new entry first, keeps the old entries in order behind it, and the result has at most 50 entries |
| App.WithoutId | App.tsx:144 | no entry of the filtered index has the deleted id, and the index does not grow |
| App.WithoutIdMembers | App.tsx:144 | the filter keeps exactly the entries with another id |
| App.WithoutIdConcat | App.tsx:144 | the filter keeps the order of the entries it keeps |
| App.WithoutAbsentId | App.tsx:144 | deleting leaves the index unchanged exactly when no entry has that id |
| App.WithoutIdIdempotent | App.tsx:144 | filtering the same id twice is filtering it once |
| App.SaveAllKeepsNewest | App.tsx:111-128 | successive saves keep the newest entries, newest first, up to 50, and the oldest fall off the end |
| App.SixtySavesKeepFifty | App.tsx:13 | sixty saves into an empty index leave exactly the fifty newest |
| App.ItemKeys | App.tsx:9-10 | no item key is the index key, and distinct ids have distinct keys |
| App.SaveEcho | App.tsx:111-128 | the quota error is reported exactly when a write throws; a throwing blob write changes nothing; otherwise the blob is stored under the item key, no key is lost, and the new entry heads an index of at most 50; every other key keeps its value; when both writes succeed the index is stored too, and when the index write throws the index key stays as it was; no key but the item key and the index key is added |
| App.SaveHeadsIndex | App.tsx:111-128 | after the blob is written, the new entry heads the index, the old entries follow in order, there are at most 50, and the quota error is reported exactly when the index write throws |
| App.QuotaLeavesArchive | App.tsx:120-127 | when writing the blob throws, index and store are unchanged and the quota error is reported |
| App.SaveThenLoad | App.tsx:120-121 | an echo whose blob was written loads back as itself |
| App.DeleteEcho | App.tsx:143-149 | the index is filtered; when the index write throws the store is unchanged; otherwise the new index is stored, the blob is removed, every other key keeps its value, and no key but the index key is added |
| App.LoadEcho | App.tsx:130-141 | missing exactly when the blob is absent or empty; lost exactly when it is present and non-empty but does not parse; otherwise the parsed echo |
| App.DeleteThenLoad | App.tsx:143-149 | after a delete, no entry has the id, its blob is gone, and every other id loads as before |
| App.DeleteIdempotent | App.tsx:143-149 | deleting twice is deleting once |
| App.DeleteAbsentKeepsIndex | App.tsx:144 | deleting an id the index does not hold leaves the index as it was |
| App.StoredIndex | App.tsx:106-109 | an index is read only from a present, non-empty value under the index key that parses |
| App.StoredIndexInSync | App.tsx:123-124 | when the writes succeed, the stored index reads back as the in-memory index |
| App.ReplayKeepsBound | App.tsx:122 | any sequence of saves and deletes keeps the index at 50 entries or fewer |
| App.SaveKeepsBacked | App.tsx:111-128 | after a save, whichever write throws, every listed entry still has a value stored under its item key |
| App.SaveKeepsListedEchoes | App.tsx:120-124 | a save under an id the index does not list yet leaves every listed entry loading as before, whichever write throws |
| App.DeleteKeepsBacked | App.tsx:143-149 | after a delete, every listed entry still has a value stored under its item key |
| App.ReplayKeepsBacked | App.tsx:111-149 | after any sequence of saves and deletes, every listed entry still has a value stored under its item key |
| App.ErrorText | App.tsx:178 | the error text is never empty: it is the thrown message when there is a non-empty one, else "Archive link severed." |
| App.ScanEvent | App.tsx:164-176 | after the event is chosen, a run sets one or two more states, ends in COMPLETED exactly when there is no error, and shows data for the selected day and author |
| App.DeepScan | App.tsx:156-181 | a run sets two to four states, starts with SCANNING, ends in COMPLETED or ERROR, and ends in COMPLETED exactly when there is no error |
| App.ScanWalksPipeline | App.tsx:156-181 | every run passes through a prefix of SCANNING, FETCHING_EVENT, GENERATING_IMAGE and ends in COMPLETED or ERROR. COMPLETED comes only after all three and with no error; an ERROR run never reaches COMPLETED and carries a message; IDLE, SETUP and CHOOSING_EVENT are never entered |
| App.ScanCompletes | App.tsx:156-176 | a run completes exactly when the three calls succeed and at least one event is recommended; it then shows the content generated for the first recommendation, with the image attached and the day fields of the selected day |
| App.ScanFailureMessages | App.tsx:159-180 | a failed recommendation call ends in ERROR with its message or "Archive link severed."; an empty list ends in ERROR with the TypeError of reading `title` of `undefined`; a failed content call ends in ERROR with no data shown and its message; a failed image call leaves its message as the error |
| App.ImageFailureKeepsContent | App.tsx:170-172 | when only the image fails, the text content stays as the data |
| App.LoadingDuringScan | App.tsx:183 | the loader shows in every state of a run but its last |
| App.IsLoading | App.tsx:183 | `isLoading` holds exactly in IDLE, SCANNING, CHOOSING_EVENT, FETCHING_EVENT and GENERATING_IMAGE |
| App.ApplyPatch | App.tsx:260 | each of the fifteen fields an update names takes the update's value and every other keeps the previous one; posts named by the update take its values and the rest keep theirs |
| App.PatchLaws | App.tsx:260 | an empty update does nothing, and repeating an update has no further effect |
| App.PatchesCompose | App.tsx:260 | two updates in a row act as one update in which the later values win |
| App.MainApp.constructor | App.tsx:99-104 | the first render: SETUP, nothing shown, no error, an empty index, and the stored author name or "Awaiting Soul" when it is missing or empty |
| App.MainApp.RestoreIndex | App.tsx:106-109 | the mount effect adopts the stored index when it is present and parses, and keeps the current one otherwise |
| App.MainApp.SaveToHistory | App.tsx:111-128 | the new index and store are those of `App.SaveEcho`, the quota error is set exactly when a write throws, and a written blob leaves at most 50 entries |
| App.MainApp.ArchiveEcho | components/InspirationCard.tsx:186 | the save button archives the data on display |
| App.MainApp.LoadFromHistory | App.tsx:130-141 | a present, parseable blob is shown and the state moves to COMPLETED; a missing one changes nothing; an unparseable one sets "This archival fragment is lost." and leaves the state as it was |
| App.MainApp.DeleteFromHistory | App.tsx:143-149 | the new index and store are those of `App.DeleteEcho`, and the index does not grow |
| App.MainApp.HandleDeepScan | App.tsx:156-181 | the states set, in order, are those of the scan run, followed by its error and its data. History and store are outside the method's frame, so a scan never writes to them |
| App.MainApp.GenerateForEvent | App.tsx:164-176 | content, then image, for the chosen event, as the scan run specifies |
| App.MainApp.ReturnToSanctuary | App.tsx:261 | drops the data and returns to SETUP |
| App.MainApp.BackToSanctuary | App.tsx:273 | returns to SETUP and keeps the data |
| App.MainApp.OnUpdate | App.tsx:260 | merges the update into the data when there is data, and stays empty otherwise |

## Left out

- Rendering, routing, styling, `AboutPage.tsx` and the loader's timers and random progress: presentation only.
- `html2canvas` export, clipboard writes, `window.scrollTo` and the `setTimeout` badge resets: foreign libraries and timers. The copied text (`copyText` of `InspirationCard.PlatformCard`) and the file name are modelled; the writes themselves are not.
- The provider calls and the prompt wording: remote service. Each call is a function of what the code passes it (`App.Backend`).
  - Because the call is a function, the model cannot express two scans answered differently for the same input.
  - There is no stale-response guard in the code, and the model adds none.
- `JSON.parse` and `JSON.stringify`: decoders and encoders given as parameters. A parse that succeeds but yields a value of the wrong shape (`null`, a number, an object missing fields) is not modelled: the decoders return well-formed records or `None`.
- `toLocaleDateString`: locale data. The two labels of `DateUtils.GetDayOfYearInfo` are parameters.
- `DateUtils.GetDayOfYearInfo`: the millisecond difference and the time-zone correction are stated as calendar arithmetic. For a valid local-midnight date they agree; dates the `Date` constructor would normalise (such as 30 February) and `Invalid Date` are outside the model, where `App.DayInfoOf` answers `None`.
- `App.JsDateYear`: `new Date(y, ...)` reads the years 0 to 99 as 1900 to 1999; the model does this too. No property about those years is proved.
- `Text.JsNumber` covers only the empty string, decimal digits and a leading minus sign. `Number`'s other literal forms (hexadecimal, exponents, whitespace, fractions) are not modelled, and the date field never produces them.
- `Date.now()`: the id time and the timestamp are parameters. Ids are not claimed to be unique, because the code does not ensure it.
- The author-name and date input setters and the writing of `AUTHOR_KEY`: simple field assignments outside the listed handlers. Only the initial read of the author name is modelled.
- `InspirationData.sources` and the declared `longPost`/`mediumPost`/`shortPost` fields: the post fields live in one map (`posts`) keyed by their JSON names. The card, the prompt and `types.ts` use three different sets of names, so the model does not prove that any particular field is present.
- `generateTTS`'s caller: no screen calls it (App.tsx never imports `generateTTS`), so only the payload check is modelled.
- The speech request's configuration and the image request's aspect-ratio choice beyond "3:4": remote configuration.
- Stored echoes without an index entry can remain, and the model asserts no invariant against them (the converse, every listed entry being stored, is `App.ReplayKeepsBacked`):
  - truncation drops index entries but never their echoes;
  - a failed index write at App.tsx:124 leaves the new echo stored, while the in-memory index already lists it;
  - a delete whose index write throws keeps the echo.
- App.SaveKeepsBacked: states only that every listed entry's item key holds some value. When a save's id repeats a listed id, the code overwrites that entry's echo (App.tsx:120-121), and the model does the same. Keeping the stored echo is proved only for an id not yet listed (`App.SaveKeepsListedEchoes`).
- `App.MainApp` has no `selectedDate` field. `App.MainApp.HandleDeepScan` takes any `day: DayInfo`, where the code passes `DayInfoOf(selectedDate)` (App.tsx:151-154, 162); the date field's own round trip is `App.LocalDateRoundTrip` and `App.TodayDayInfo`.
- `App.MainApp.RestoreIndex` adopts a stored index of any length, as App.tsx:106-109 does. The bound of 50 is therefore proved only from an index of at most 50 entries: `App.ReplayKeepsBound` and `App.SaveAllKeepsNewest` require it.
- `App.MainApp.HandleDeepScan`: the message of the TypeError raised for an empty recommendation list is the V8 engine's wording, taken as a constant. Other engines word it differently.
- The model keeps these behaviours of the code as they are:
  - when the image step fails, the text content set at App.tsx:171 stays as the data;
  - the state CHOOSING_EVENT is never entered;
  - nothing stops a slower, older scan from overwriting the result of a newer one;
  - when the index write throws during a save, the in-memory index is already updated.
