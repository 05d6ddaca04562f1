# Kana drill review engine: a Dafny model

This project models the core of a kana flash-card drill. The drill shows a hiragana or katakana glyph. The learner types its romaji reading, and the input is judged keystroke by keystroke. Each review is passed to a spaced-repetition scheduler, which decides when the card is due again.

The model has three parts, plus a small `Wrappers` module that holds `Option`:

- `Kana` (kana.dfy) is the catalog. It has the `H`/`K` entry constructors, the hiragana and katakana tables, their concatenation `Catalog`, and the filter `Select` (`ActiveKana`) that keeps the entries enabled by the settings.
- `Scheduler` (scheduler.dfy) holds the per-glyph card state:
  - `InitCard` makes a new card;
  - `ReviewCard` records a review and keeps only the last ten response times;
  - `GetNextDue` picks the next card, a loop proved against the function `SelectNext`. When some cards are due, it picks uniformly among them. Otherwise it picks uniformly among the cards with the earliest due time.
- `SessionEngine` (engine.dfy) covers input judging and the engine itself:
  - Normalization is ASCII lower-casing, then trimming ECMAScript white space. `Judge` classifies an input as `Correct`, a still-valid prefix (`Pending`) or `Incorrect`.
  - The class `Engine` is the object that `createEngine` returns. Its fields are the card map, the settings, the session statistics, the cursor on the glyph being quizzed and the glyph index `kanaMap`. Its methods are `Init`, `Next`, `Attempt`, `CheckPrefix`, `GetCurrentReadings`, `UpdateSettings`, `ResetProgress` and `UpdateKanaMap`.

The engine's collaborators are parameters:

- `now` is the wall clock, used for due times. `tick` is the timer that measures response times.
- `r` in [0, 1) is the value of `Math.random()`.
- `advance` is the scheduling library's step from a card and a grade to the next card.
- The data loaded from the store is passed to `Init`.
- Every write to the store, and every callback to the presentation layer, is appended in order to the engine's effect log `log`. The contracts state that log exactly.

The engine and its specification functions:

- Insertion order of a JavaScript `Map` decides which index the random number selects. So the active cards are a sequence in the order `next` inserts them (`ActiveCards`).
- The cards `init`, `updateSettings` and `resetProgress` create are described by the predicates `AddsMissing` and `FreshCards`.
- The engine invariant `Valid` says `kanaMap` is the index of the active entries and the cursor's entry and state name the same glyph. `Covers` says every active glyph has a card. `WellKeyed` says every card is stored under its own glyph. `Attempt` and `UpdateSettings` preserve them, and `Next` leaves cards and settings alone (its frame is the cursor and the log), and `UpdateSettings` and `ResetProgress` establish `Covers`. `ResetProgress` also establishes `WellKeyed`. `Init` re-establishes them from its inputs rather than preserving them: it always establishes `Valid` and `Covers`, and it establishes `WellKeyed` when the loaded cards are stored under their own glyphs.
- `Next` always yields a prompt when the active set is non-empty, covered and well-keyed. Without `WellKeyed` it can return no prompt. That happens when the chosen card names a glyph that is not in the index, as the `kanaMap.get` check in `next` allows.

After an incorrect verdict the cursor keeps the card state from before that review. A second wrong attempt at the same prompt therefore reviews the card again from the old state, and counts again in the statistics. `Attempt`'s contract states this behaviour as the code has it.

## Model

| member | source | states |
|---|---|---|
| Kana.Select | src/kana.ts:255-261 | the active list is never longer than the catalog it filters |
| Kana.H | src/kana.ts:3-5 | no contract of its own: the result type `HiraganaEntry` fixes the script tag to hiragana; `CatalogLayout` states the tables it builds |
| Kana.K | src/kana.ts:7-9 | no contract of its own: the result type `KatakanaEntry` fixes the script tag to katakana; `CatalogLayout` states the tables it builds |
| Kana.SelectMembers | src/kana.ts:256-260 | an entry is active exactly when it is in the catalog, its script is switched on, and its row is among the selected rows |
| Kana.ActiveKana | src/kana.ts:255-261 | an entry is active exactly when it is a catalog entry whose script is switched on and whose row is selected |
| Kana.SelectIsSubsequence | src/kana.ts:256 | the active list keeps the catalog's order (it is a subsequence of it) |
| Kana.SelectMonotone | src/kana.ts:257-260 | enabling more scripts or rows selects a superset, still in catalog order |
| Kana.NothingEnabledSelectsNothing | src/kana.ts:257-258 | with both scripts switched off nothing is active |
| Kana.CatalogLayout | src/kana.ts:253 | the catalog is the 104 hiragana entries followed by the 104 katakana entries, each tagged with its script |
| Kana.CatalogReadingsNonEmpty | src/kana.ts:11-251 | every catalog entry has at least one reading |
| Scheduler.InitCard | src/scheduler.ts:13-19 | a new card belongs to the entry's glyph, is due now and has no response times |
| Scheduler.KeepLast | src/scheduler.ts:60 | keeping the last n items yields min(n, length) items, and they are a suffix of the input |
| Scheduler.ReviewCard | src/scheduler.ts:57-66 | no contract of its own; its properties are stated by `ReviewCardRecords` and `ReplayKeepsLastTimes` |
| Scheduler.ReviewCardRecords | src/scheduler.ts:57-66 | a review keeps the glyph, moves the card by the scheduler step and appends the response time, keeping only the last ten times |
| Scheduler.ReplayKeepsLastTimes | src/scheduler.ts:57-66 | after any series of reviews the glyph is unchanged and the history is the last ten of the earlier history followed by the series' response times, in order |
| Scheduler.Pick | src/scheduler.ts:35 | the random index is in range |
| Scheduler.PickUniform | src/scheduler.ts:35 | index i is chosen exactly when the random number lies in [i/n, (i+1)/n) |
| Scheduler.PickReaches | src/scheduler.ts:52 | every index is chosen by some random number in [0, 1) |
| Scheduler.MinDueIsLeast | src/scheduler.ts:38-49 | the earliest due time is no later than any card's and is some card's due time |
| Scheduler.DueNowMembers | src/scheduler.ts:26-32 | the due list holds exactly the cards whose due time has passed |
| Scheduler.TiesMembers | src/scheduler.ts:38-49 | the soonest list holds exactly the cards due at the earliest due time |
| Scheduler.SoonestStep | src/scheduler.ts:40-48 | one step of the soonest scan keeps "the minimum so far and all cards due at it" |
| Scheduler.SelectNextNoneIffEmpty | src/scheduler.ts:22-24 | no card is chosen exactly when there are no cards |
| Scheduler.SelectNextIsMember | src/scheduler.ts:21-55 | the chosen card is one of the given cards |
| Scheduler.SelectNextPrefersDue | src/scheduler.ts:33-36 | if some card is due, the chosen card is due |
| Scheduler.SelectNextSoonest | src/scheduler.ts:38-53 | if no card is due, the chosen card has the earliest due time |
| Scheduler.DueCardReachable | src/scheduler.ts:33-36 | every due card is chosen for some random number |
| Scheduler.SoonestCardReachable | src/scheduler.ts:50-53 | when nothing is due, every card at the earliest due time is chosen for some random number |
| Scheduler.GetNextDue | src/scheduler.ts:21-55 | the two scanning loops return the choice specified by `SelectNext` |
| SessionEngine.ToLowerMapsEach | src/engine.ts:109 | lower-casing keeps the length and lower-cases each character |
| SessionEngine.ToLowerIdempotent | src/engine.ts:109 | lower-casing twice equals lower-casing once |
| SessionEngine.TrimStartDropsLeadingSpace | src/engine.ts:109 | trimming the start removes exactly a leading run of white space |
| SessionEngine.TrimEndDropsTrailingSpace | src/engine.ts:109 | trimming the end removes exactly a trailing run of white space |
| SessionEngine.TrimIsInnerSlice | src/engine.ts:109 | the trimmed text is a slice of the input with white space on both sides removed, and it neither starts nor ends with white space |
| SessionEngine.NormalizeIdempotent | src/engine.ts:109 | normalizing a normalized input changes nothing |
| SessionEngine.Normalize | src/engine.ts:109 | the normalized input has no upper-case ASCII letter left and no white space at either end (lower-casing and trimming leave it alone) |
| SessionEngine.Judge | src/engine.ts:111-149 | no contract of its own: it is the three-way classification the judging methods are proved against; its properties are stated by `JudgeCorrectIff`, `JudgeIncorrectIff`, `TypingAReadingNeverFails`, `PendingCanComplete` and `ShiExample` |
| SessionEngine.JudgeCorrectIff | src/engine.ts:117-118 | the verdict is Correct exactly when the normalized input is one of the readings |
| SessionEngine.JudgeIncorrectIff | src/engine.ts:143-149 | the verdict is Incorrect exactly when the input is non-empty and is a prefix of no reading |
| SessionEngine.EmptyInputIsValidPrefix | src/engine.ts:171-182 | empty input is a valid prefix of every glyph's readings |
| SessionEngine.TypingAReadingNeverFails | src/engine.ts:143-147 | every prefix of a reading is judged Pending or Correct, never Incorrect |
| SessionEngine.PendingCanComplete | src/engine.ts:143-147 | a Pending input can always be extended to a Correct one |
| SessionEngine.ShiExample | src/engine.ts:104-169 | for the readings shi and si of し, the inputs "s" and "sh" are Pending, "shi" and "si" are Correct, and "x" is Incorrect |
| SessionEngine.HasReading | src/engine.ts:117-118 | the exact-match scan finds the input exactly when it is a reading |
| SessionEngine.SomeReadingStartsWith | src/engine.ts:143-147 | the prefix scan succeeds exactly when the input is a prefix of some reading |
| SessionEngine.JudgeInput | src/engine.ts:109-168 | the imperative judging returns the verdict `Judge` gives for the normalized input |
| SessionEngine.RecordResponse | src/engine.ts:125-130 | a response bumps either the correct or the incorrect count, adds one response and its time; statistics stay consistent (correct + incorrect = responses) |
| SessionEngine.Merge | src/engine.ts:196 | each setting is the patch's value when given and the old value otherwise |
| SessionEngine.MergeIdempotent | src/engine.ts:196 | applying the same patch twice equals applying it once |
| SessionEngine.KanaIndexSound | src/engine.ts:42-47 | the glyph index maps exactly the active glyphs, each to an active entry with that glyph |
| SessionEngine.ActiveCardsSound | src/engine.ts:75-82 | each collected card is the stored card of an active glyph |
| SessionEngine.ActiveCardsComplete | src/engine.ts:75-82 | the stored card of every active glyph that has one is among the collected cards |
| SessionEngine.CoveredActiveSetYieldsCard | src/engine.ts:75-92 | when every active glyph has a well-keyed card, the next card is chosen and its glyph is in the index |
| SessionEngine.AddsMissingStep | src/engine.ts:56-63 | one loop step that adds a missing card keeps the "added exactly the missing cards" relation |
| SessionEngine.FreshCardsStep | src/engine.ts:222-225 | one reseeding step keeps "one fresh card per glyph seen so far" |
| SessionEngine.FreshCardsWellKeyed | src/engine.ts:222-225 | freshly seeded cards are stored under their own glyph |
| SessionEngine.Engine.constructor | src/engine.ts:31-40 | a new engine has no cards, default settings (hiragana on, katakana off, default rows, system theme), zero statistics, no cursor, and the index of its active set |
| SessionEngine.Engine.UpdateKanaMap | src/engine.ts:42-47 | the glyph index is rebuilt from the active set |
| SessionEngine.Engine.AddMissingCards | src/engine.ts:56-63 | a fresh card is added for each active glyph that has none and other cards are kept; the flag reports whether any card was added |
| SessionEngine.Engine.Init | src/engine.ts:50-67 | loaded settings and statistics are installed, loaded cards are kept, missing active cards are created, and the cards are saved exactly when some were created |
| SessionEngine.Engine.CollectActiveCards | src/engine.ts:75-82 | collects the stored cards of the active glyphs in active-set order |
| SessionEngine.Engine.Next | src/engine.ts:69-102 | no prompt for an empty active set; otherwise the cursor holds the scheduler's choice, started at `tick`, and the prompt shows its glyph and readings; one prompt callback is logged; when every active glyph has a card and every card is stored under its own glyph, a prompt is always given; a chosen card whose glyph is not in the index gives no prompt |
| SessionEngine.Engine.RecordReview | src/engine.ts:120-165 | the current card is replaced by its reviewed state, the statistics record the response, and the cards, stats, verdict and stats-update effects are logged in that order |
| SessionEngine.Engine.Attempt | src/engine.ts:104-169 | without a prompt the result is Pending; otherwise the verdict is `Judge` of the normalized input; Pending changes nothing; a verdict reviews the card (Again or Good); Correct clears the cursor, Incorrect keeps it; statistics consistency and card coverage are preserved |
| SessionEngine.Engine.CheckPrefix | src/engine.ts:171-182 | true exactly when a prompt is shown and the normalized input is a prefix of one of its readings |
| SessionEngine.Engine.GetCurrentReadings | src/engine.ts:184-189 | the readings of the shown prompt, or none when no prompt is shown |
| SessionEngine.Engine.UpdateSettings | src/engine.ts:195-212 | the patch is merged and saved, the index is rebuilt, and cards for newly active glyphs are created and saved only when any were added |
| SessionEngine.Engine.SeedCards | src/engine.ts:222-225 | from an empty card map, one fresh card is created per active glyph |
| SessionEngine.Engine.ResetProgress | src/engine.ts:214-227 | statistics are zeroed, the cursor is cleared, the empty card map and zero stats are saved, then every active glyph gets a fresh card and the cards are saved again |

## Left out

- The store's persistence (`src/store.ts`) is not part of this model. Its reads are `Init`'s parameters and its writes are entries in the effect log. This includes JSON parsing, the fallback defaults and turning stored dates back into `Date` values. Its `loadSettings` (src/store.ts:57-71) returns only the two script flags and no `rows`. Read as written, `init` would then fail at `updateKanaMap()`, because `getActiveKana` evaluates `settings.rows.includes(entry.row)` for every entry (src/kana.ts:259). The model avoids this failure on purpose: `Init` takes well-formed settings that always carry `rows`.
- The scheduling library's internals (FSRS parameters, stability and difficulty) are left out. A card's scheduling state is the opaque `memory` field together with `due`, and the review step is the parameter `advance`.
- `formatInterval` is not modelled. The correct and incorrect callbacks carry the card's new due time, not the text that describes the interval.
- SessionEngine.RecordResponse: response and total times are integers, not the floating-point milliseconds of `performance.now()`.
- SessionEngine.Normalize: lower-cases ASCII letters only, not the full Unicode case mapping of `toLowerCase`. Romaji input and readings are ASCII.
- Invalid dates (`NaN` due times) cannot occur, because times are integers.
- A settings patch whose field is present but `undefined` is not modelled. A patch field is either given (`Some`) or absent (`None`).
- `getStats` and `getSettings` are plain reads of the engine's `stats` and `settings` fields, so they have no method of their own.
- The browser front end (`src/main.ts`, `src/render.ts`, `src/input.ts`) is not part of this model.
- The `?? ""` fallback for the correct reading of an incorrect answer has no counterpart. Readings are non-empty by type, so the first reading always exists.
- Kana.Select: its own contract only bounds the length. Membership and order are stated by the lemmas `SelectMembers` and `SelectIsSubsequence`.
- Scheduler.ReviewCard: its properties are stated by the lemma `ReviewCardRecords` rather than on the function.
- The glyphs of the catalog are not proved pairwise distinct. The glyph index lets the last entry for a glyph win, as `Map.set` does.
- One `now` per operation: every card that one `init`, `updateSettings` or `resetProgress` creates is due at the same instant. In the TypeScript scheduler each `initCard` reads the clock afresh through `createEmptyCard()`. With a clock that only moves forward, the difference is only a few milliseconds between cards created in the same loop.
