# Worthiness journal — a verified model of its core

The application is a local-only diary. Each entry records an event, a feeling
and "evidence", a 0–100 mood score, tags, an optional photo and an
encouraging reply chosen from a fixed library. This project models three
parts of it in Dafny and proves properties about them:

* **The persistence layer** (`services/db.ts`, module `DiaryDb`). The class
  `DiaryDB` holds an `initialised` flag, an entry store keyed by `id`
  (`map<string, Entry>`) and an optional settings record. It adds entries
  insert-only (IndexedDB `add`), updates them as an upsert (`put`) and deletes
  them by key. It lists the entries through the ascending `timestamp` index,
  reversed, and gives legacy records a mood score of 50. It reads and saves
  settings with a default, exports a backup (which stamps `lastBackupDate`) and
  imports one, upserting records in order. The index order is timestamp, then
  primary key (section 2.6 of the W3C Indexed Database API 3.0). `add`
  rejects an existing key (section 5.1 of the same standard).
* **The application logic** (`App.tsx`):
  * `AppMood`: mood banding and the default feeling word.
  * `AppResponse`: the affirmation pool, built block by block.
  * `AppWrite`: the writing form (class `WriteForm`) with save validation and
    tag editing.
  * `AppMain`: the application state (class `AppState`) with start-up, saving
    and deleting entries, custom tags and the backup reminder.
  * `AppHistory`: the history search and date filter.
  * `AppStats`: the top-20 word statistics.
  * `AppCloud`: the mood cloud.
* **The constant tables** (`constants.ts`, module `Constants`): the colour
  banding of a score, the default tags and the affirmation pools.

Helper modules:

* `Prelude`: `Option`, `Result` and `Outcome`.
* `Types`: the records of `types.ts`.
* `Seqs`: `filter` and the subsequence relation.
* `JsText`: JavaScript `trim`, `toLowerCase`, `includes` and `split`.

Time, the random draw, fresh UUIDs, the JSON parse result and the
platform's answer to "open the database" are parameters. `Date.now()` becomes
`now: int`. `Math.random()` becomes `random: real` in [0, 1). The local
calendar day of an instant becomes `localDay: int -> int`.

Two invariants link the parts. `DiaryDB.Valid()` says that every record sits
under its own `id`. `AppState.InSync()` says that the on-screen list is exactly
what `getAllEntries` would return now. Saving an entry whose timestamp is
newer than every stored one keeps `InSync()`, and so does deleting any entry.

## Model

| member | source | states |
|---|---|---|
| DiaryDb.DiaryDB.Init | services/db.ts:12-32 | opening succeeds or fails with `OpenFailed`; the handle is set exactly when it succeeds and stays set |
| DiaryDb.DiaryDB.PerformTransaction | services/db.ts:91-110 | a write commits entirely or not at all: an uninitialised service, a rejected request or a transaction the platform aborts (`WriteFailed`) leaves the store unchanged |
| DiaryDb.DiaryDB.AddEntry | services/db.ts:34-38 | an existing id rejects with `ConstraintError` and leaves the store unchanged; a new id is inserted and nothing else changes, unless the platform aborts the write |
| DiaryDb.AddIsInsertOnly | services/db.ts:34-38 | `add` never overwrites: on success the old store is a sub-map of the new one |
| DiaryDb.DiaryDB.UpdateEntry | services/db.ts:40-44 | the record under its id is replaced or inserted and no other record changes; a record without an id rejects with `DataError` |
| DiaryDb.PutIsUpsert | services/db.ts:40-44 | `put` stores exactly the given record under its key, whether or not the key existed |
| DiaryDb.PutTwiceKeepsLatest | services/db.ts:40-44 | putting two records with the same id keeps the second |
| DiaryDb.DiaryDB.DeleteEntry | services/db.ts:46-50 | the id is removed if present; an absent id succeeds and leaves the store unchanged |
| DiaryDb.DeleteIsIdempotent | services/db.ts:46-50 | deleting twice is deleting once, and deleting an absent id changes nothing |
| DiaryDb.UninitialisedRejects | services/db.ts:91-110 | every write before `init` rejects with `NotInitialised` |
| DiaryDb.CommitKeepsKeys | services/db.ts:25 | every write keeps each record under its own `id` |
| DiaryDb.DiaryDB.IndexGetAll | services/db.ts:57-58 | the index scan holds every record with a timestamp exactly once, in ascending (timestamp, id) order |
| DiaryDb.DiaryDB.GetAllEntries | services/db.ts:52-69 | uninitialised rejects; otherwise the result lists every indexed record, normalised, newest first, ties by descending id |
| DiaryDb.ScanToListing | services/db.ts:62-65 | reversing the ascending scan and filling in missing scores gives the newest-first listing |
| DiaryDb.Normalise | services/db.ts:62-65 | a missing score reads as 50, a present score is kept, and every other field is returned as stored |
| DiaryDb.ListingIsDetermined | services/db.ts:57-65 | a store has exactly one listing, so the order is fully determined |
| DiaryDb.ListingIdsDistinct | services/db.ts:57-65 | a listing never holds the same id twice |
| DiaryDb.IdLessTotal | services/db.ts:25 | primary keys are totally ordered, so index ties are broken deterministically |
| DiaryDb.SettingsOr | services/db.ts:72-84 | returns the stored record if there is one, else the defaults ("Friend", 20:00, nothing enabled, no custom moods or tags) stamped with `now` |
| DiaryDb.DiaryDB.SaveSettings | services/db.ts:86-88 | when local storage accepts the write, the settings record is replaced entirely; when it refuses, the write fails with `WriteFailed` and the old record stays |
| DiaryDb.DiaryDB.ExportData | services/db.ts:112-120 | the document holds the listing, the settings stamped with `lastBackupDate = now` (also saved), version 1 and `exportedAt`; uninitialised rejects before stamping; a refused settings write rejects the export with `WriteFailed` and keeps the old settings |
| DiaryDb.DiaryDB.ImportData | services/db.ts:122-137 | unparseable text and `null` reject and write nothing; each array record is put in order; truthy settings are saved only after every put succeeded; any failure, a refused settings write included, surfaces as `InvalidImportFile` with earlier puts kept |
| DiaryDb.PutAllMerges | services/db.ts:125-130 | importing keyed records overwrites each id with its last record in the file and leaves other entries untouched |
| DiaryDb.PutAllStopsAtFirstFailure | services/db.ts:126-129 | an import fails iff some record is keyless (or the service is uninitialised with records), and then exactly the records before the first failure are committed |
| DiaryDb.ReimportListing | services/db.ts:112-137 | importing an exported listing rewrites each indexed record in its normalised form and changes nothing else |
| DiaryDb.ExportThenReimport | services/db.ts:112-137 | when local storage accepts both settings writes, backup then restore succeeds, lists the same entries and leaves the stamped settings |
| Constants.MoodColorHex | constants.ts:37-51 | every score maps to one of the six palette colours |
| Constants.MoodColorHexBands | constants.ts:37-51 | each colour is chosen exactly on its band: ≤15, 16–35, 36–50, 51–65, 66–85, >85 |
| Constants.MoodColorHexMonotone | constants.ts:37-51 | the colour never moves back down the palette as the score rises |
| Constants.MoodColorClass | constants.ts:53-57 | every score maps to one of three badge classes |
| Constants.ColorClassRefinesHex | constants.ts:37-57 | blue, teal and amber classes cover exactly the blue, teal/emerald and amber hex colours |
| Constants.DefaultTagsDistinct | constants.ts:28-31 | nine pairwise-distinct default tags |
| Constants.PoolSizes | constants.ts:60-134 | general, social, achievement, difficult and calm hold 10 strings each, image 5, new tag 4 |
| Constants.ExtraAffirmations | constants.ts:137-148 | the extra list has 60 elements |
| Constants.ExtraAffirmationsCycle | constants.ts:137-148 | element i is base phrase i mod 10, so the list has period 10 |
| Constants.ExtraPrefixDistinct | constants.ts:137-148 | the first five extra affirmations are pairwise distinct |
| AppMood.MoodLabel | App.tsx:274-278 | every score gets one of sad, calm or happy |
| AppMood.MoodLabelBands | App.tsx:274-278 | sad iff ≤35, calm iff 36–65, happy iff >65 |
| AppMood.DefaultFeeling | App.tsx:292-296 | the default feeling word is always one of 低落, 平静 and 开心 |
| AppMood.DefaultFeelingFollowsMood | App.tsx:292-296 | the default feeling word is 低落, 平静 or 开心 exactly when the label is sad, calm or happy |
| AppMood.ColoursAgreeWithMood | App.tsx:274-278 | sad scores are blue, calm ones teal or emerald, happy ones amber, in both colour functions |
| AppMood.BackupOverdueMonotone | App.tsx:957-962 | once due, the reminder stays due as time passes; it is due exactly after more than three days |
| AppMain.AppState.CheckBackupStatus | App.tsx:957-962 | raises the reminder iff more than three days passed since the last backup; never lowers it |
| AppMain.AppState.Startup | App.tsx:936-955 | the intended start-up: after a successful open the screen shows the store's listing and the settings stored before start-up, and the reminder follows their backup date; a failed open changes nothing |
| AppMain.AppState.StartupAsWritten | App.tsx:965-972 | the settings effect of the first render stores the on-screen settings before start-up reads them back, so start-up keeps the on-screen settings and the reminder follows their backup date; the database is open exactly when an open succeeded, a failed open leaves the screen as it was, and the banner is untouched |
| AppMain.AppState.SettingsEffect | App.tsx:965-972 | the settings on screen become the stored settings |
| AppMain.FirstRunLosesStoredSettings | App.tsx:919-972 | the first render followed by the start-up as written, over stored settings whose backup is overdue, opens the database and shows the listing, but shows and stores the initial settings instead of the stored ones and raises no reminder |
| AppMain.StartupLosesStoredSettings | App.tsx:922-972 | a stored backup date that is overdue raises the reminder when read back, but start-up as written reads the initial settings instead, which differ from the stored ones and never make the reminder due within three days of the first render |
| AppMain.InitialSettings | App.tsx:922-930 | the application starts with user name 朋友, reminder time 20:00, nothing enabled, no custom moods or tags, and the first render's instant as backup date |
| AppMain.AppState.constructor | App.tsx:920-933 | the first render has no entries, the initial settings, no reminder and no banner |
| AppWrite.WriteForm.constructor | App.tsx:246-252 | the form starts with empty texts, no tags, no photo and the slider at 50 |
| AppResponse.GenerateResponse | App.tsx:975-1012 | the reply is the pool element at `floor(random * |pool|)`, hence always a pool element |
| AppResponse.AssemblePool | App.tsx:976-1009 | the blocks are pushed in order, each under its condition, giving exactly the specified pool |
| AppResponse.PartsConditions | App.tsx:979-1006 | image iff a photo; new tag iff a tag outside the defaults; social/achievement iff their keywords match; sad adds difficult and never calm; calm adds calm and never difficult; other moods add difficult iff a distress keyword matches |
| AppResponse.PoolSize | App.tsx:976-1009 | every pool holds between 15 and 54 strings |
| AppResponse.PoolEnds | App.tsx:976-1009 | every pool starts with the ten general strings and ends with the first five extra affirmations |
| AppResponse.PickIndex | App.tsx:1011 | the drawn index is inside the pool |
| AppWrite.WriteForm.HandleSave | App.tsx:280-290 | a draft is produced iff event and evidence are both non-blank; an empty feeling (not a whitespace-only one) becomes the score's default word; the mood is the score's label; an empty photo is dropped |
| AppWrite.Toggled | App.tsx:257-259 | an unselected tag is appended at the end; a selected tag has every copy removed while the other tags keep their order and their number of copies |
| AppWrite.WriteForm.ToggleTag | App.tsx:257-259 | the selection becomes the toggled list |
| AppWrite.ToggleTwiceRestores | App.tsx:257-259 | clicking an unselected tag twice restores the selection |
| AppWrite.ToggleKeepsNoDuplicates | App.tsx:257-259 | toggling never duplicates a tag |
| AppWrite.WriteForm.HandleAddNewTag | App.tsx:298-305 | blank input is ignored; otherwise the trimmed tag is added to the custom tags, toggled in the selection (an already-selected tag is deselected), and the input is cleared |
| AppMain.WithCustomTag | App.tsx:1068-1075 | the tag is appended only when absent, so a duplicate-free list stays duplicate-free |
| AppMain.WithCustomTagIdempotent | App.tsx:1068-1075 | adding the same custom tag twice is adding it once |
| AppMain.AppState.HandleAddCustomTag | App.tsx:1068-1075 | only `customTags` changes, to the list with the tag added |
| AppMain.AppState.HandleSaveEntry | App.tsx:1014-1027 | the save succeeds iff the database is open, the id is new and the platform commits; the stored entry carries the draft, the save instant and the chosen reply; once stored it goes to the front of the list and the reply is shown; a rejected add changes nothing |
| AppMain.NewEntryKeepsDraft | App.tsx:1016-1022 | the new entry carries its draft unchanged and is in the timestamp index |
| AppMain.SaveKeepsListing | App.tsx:1024-1025 | putting a newer entry at the front of the list keeps the list equal to the store's listing |
| AppMain.AppState.HandleDeleteEntry | App.tsx:1029-1034 | after confirmation and a committed write the store drops the id and the list drops exactly the entries with that id, in order; without confirmation, or when the write fails, nothing changes |
| AppMain.RemoveId | App.tsx:1032 | the result is an order-preserving subsequence that holds exactly the entries with another id, each with all its copies |
| AppMain.RemoveIdIdempotent | App.tsx:1032 | removing an id twice is removing it once; an absent id changes nothing |
| AppMain.DeleteKeepsListing | App.tsx:1031-1032 | deleting from the store and from its listing leaves a listing of the new store |
| AppMain.FilterKeepsNewestFirst | App.tsx:1032 | filtering a newest-first list keeps it newest first |
| AppHistory.FilterEntries | App.tsx:589-610 | an order-preserving subsequence holding exactly the entries on the selected day that match a non-empty term; all entries when there is neither |
| AppHistory.FilterEntriesIsOneFilter | App.tsx:589-610 | filtering by day and then by term equals one filter by both tests |
| AppHistory.FeelingNotSearched | App.tsx:601-605 | the feeling never affects whether an entry matches |
| AppHistory.EventMatchIgnoresCase | App.tsx:601-605 | a term matches an entry whose event contains it with any capitalisation of its ASCII letters, and terms equal up to case match alike |
| AppStats.Stats | App.tsx:800-814 | `total` is the number of entries; the result lists at most 20 distinct words with their exact counts (with the corrected word table; see Findings), by descending count, and every word left out occurs no more often than the last one listed |
| AppStats.CountWords | App.tsx:807-808 | the table holds each word once, with the number of times it occurs, and lists each key once |
| AppStats.SortByCount | App.tsx:809-810 | the sort is a permutation into non-increasing count order |
| AppStats.Words | App.tsx:802-806 | every counted word is non-empty, is not a filler and holds only CJK ideographs and word characters |
| AppStats.CleanAll | App.tsx:804-805 | an order-preserving subsequence of the cleaned words holding every copy of each non-empty non-filler word and nothing else |
| AppStats.TagIsCounted | App.tsx:802-806 | every tag that survives cleaning and is not a filler is counted |
| AppStats.WordsAppend | App.tsx:802 | the words of two runs of entries are the words of each in turn |
| AppStats.Clean | App.tsx:804 | the cleaned word is a subsequence of the word holding every copy of each kept character and no other character |
| AppStats.CleanIdempotent | App.tsx:804 | cleaning twice is cleaning once |
| AppStats.TallyAsWrittenCountsOrdinaryWords | App.tsx:806-808 | away from names inherited from `Object.prototype`, the object literal counts exactly |
| AppStats.TallyAsWrittenMiscounts | App.tsx:806-808 | the word "constructor" is counted as text and "__proto__" is never counted |
| AppStats.InheritedNamesReachTally | App.tsx:803-805 | such names survive cleaning and filtering |
| AppCloud.CloudItemsWith | App.tsx:725-733 | the latest twenty entries, each with its id, feeling, score reading and matching colour |
| AppCloud.CloudAgreesWithMood | App.tsx:725-733 | with the score read by `?? 50`, a saved entry's blob takes its own mood's colour band |
| AppCloud.ZeroScoreDrawnAsCalm | App.tsx:728-731 | as written, an entry saved at score 0 (sad) is drawn teal with score 50 |
| AppCloud.ReadingsDifferOnlyAtZero | App.tsx:728 | the cloud's reading (a logical or with 50) and the history's reading (`?? 50`) differ exactly on a score of 0 |
| JsText.Trim | App.tsx:281 | `trim()` gives the part of the text between a whitespace prefix and a whitespace suffix, starting and ending with a non-whitespace character |
| JsText.TrimEmptyIffBlank | App.tsx:281 | `trim()` is empty iff the text is all JavaScript whitespace |
| JsText.Includes | App.tsx:601-605 | `includes` holds iff the needle occurs at some offset |
| JsText.Split | App.tsx:803 | `split(' ')` yields space-free parts that join back to the text |

## Left out

- `sw.js` is not part of this model. It is service-worker cache plumbing.
- The Promise and event machinery of IndexedDB is not modelled: open requests, upgrade callbacks, transaction events and async ordering. Each operation is one atomic step on the store.
- The secondary `mood` and `date` indexes are not modelled. Nothing reads them.
- DiaryDb.DiaryDB.AddEntry: a duplicate key is reported as `ConstraintError`. The source's rejection carries the transaction's error object, which the model does not represent.
- DiaryDb.DiaryDB.Init: an open that succeeds after a version upgrade is not distinguished from a plain open.
- Entry.timestamp is an integer or absent. A fractional imported timestamp, which the index lists, is not represented. Imported timestamps that are other valid index keys (strings, dates, arrays) are treated as absent. Those records are stored but not listed.
- Entry.moodScore is an integer or absent. A `null`, fractional or non-numeric imported score is not represented.
- Entry.id is a string. An imported record whose `id` is a number (a valid key of another type) is not represented; such a record is modelled only as keyed by a string or keyless.
- DiaryDb.DiaryDB.ImportData: the JSON text and its parse are not modelled. The parse result is a parameter: unparseable, `null`, or a document whose `entries` field is an array of keyed or keyless records (or not an array) and whose truthy `settings` field is present.
- DiaryDb.DiaryDB.ImportData: a truthy `settings` value that is not a settings object is not modelled.
- DiaryDb.SettingsOr: a stored settings record is returned as saved. Local-storage text that is empty, unparseable or of another shape is not modelled.
- DiaryDb.DiaryDB.ExportData: serialisation (`JSON.stringify` with indentation) is not modelled. The document is returned as a value.
- AppMain.AppState.HandleAddCustomTag: an old settings record without a `customTags` field is not modelled. The field is always a list here.
- AppMain.AppState.Startup: models the intended start-up, which loads the settings stored before it. The start-up the application runs is AppMain.AppState.StartupAsWritten, which loses them (see Findings).
- AppMain.AppState.SettingsEffect: the settings write is taken to succeed. A refused write throws inside a React effect, which is outside this model.
- AppMain.AppState.SettingsEffect: the settings effect is modelled at start-up only (AppMain.AppState.StartupAsWritten). After later changes of the on-screen settings (a custom tag, say) the stored settings are not updated in the model.
- DiaryDb.DiaryDB.ImportData: a transaction the platform aborts during an import is not modelled. Every put of a keyed record on an open database is taken to commit.
- The export and import handlers of the application (`handleExport`, `handleImport`), the random greeting, and `window.confirm`/`alert` are not modelled. The confirmation is the `confirmed` parameter.
- `compressImage`, all JSX and CSS rendering, the word-cloud font sizes and opacities, and `CalendarWidget` are not modelled.
- AppCloud.CloudItemsWith: the locale-formatted date of each blob is not modelled.
- AppHistory.OnDay: the local calendar day of an instant is the parameter `localDay`. Time zones and `Date` arithmetic are not modelled.
- JsText.ToLower: only ASCII letters are lower-cased. Full Unicode case mapping is not modelled; the keywords and fillers are Chinese and unaffected.
- AppResponse.MatchesAny: each keyword regular expression is a plain alternation of literal words, so it is modelled as "the text contains one of the words".
- AppResponse.TriggersOf: the distress keywords are tested for every draft. The source tests them only for moods other than sad and calm. The test has no side effects, and AppResponse.AssemblePool uses it only in that branch.
- AppStats.KeepChar: the cleaning expression is a character class. It is modelled as a predicate on code points. Astral characters, two UTF-16 units in the source, are removed either way.
- AppStats.CountWords: the order of the keys is not stated. `Object.entries` lists integer-like keys first, in ascending order, then the others in the order they were first met.
- AppStats.SortByCount: a stable insertion sort stands for the engine's stable `Array.prototype.sort`. The order of equal counts is not stated. It depends on `Object.entries` key order, which puts integer-like keys first.
- DiaryDb.IdLess: ids are compared by code point. IndexedDB compares strings by UTF-16 code unit. The two orders differ only between astral characters and U+E000–U+FFFF, which UUIDs never contain.
- Concurrent tabs and multiple writers are not modelled.

## Findings

| source | as written | input that shows it | evidently intended | confidence | as-written member | corrected member |
|---|---|---|---|---|---|---|
| App.tsx:728-731 | the score is read with a logical or against 50, so a score of 0 reads as 50 | an entry saved with the slider at 0: mood "sad", drawn teal with score 50 | `e.moodScore ?? 50`, as in App.tsx:647, so the blob shows the entry's own score and band | high, not executed | AppCloud.ZeroScoreDrawnAsCalm | AppCloud.CloudAgreesWithMood |
| App.tsx:806-808 | `wordFreq` is an object literal, so reading `wordFreq[w]` (or 0) returns inherited `Object.prototype` members | a tag "constructor" is counted as the text "function Object() { [native code] }1"; a tag "__proto__" is never counted | a table without inherited keys (a `Map` or `Object.create(null)`), counting every word | high, not executed | AppStats.TallyAsWrittenMiscounts | AppStats.CountWords |
| App.tsx:965-972 | the settings effect has no guard, so it also runs on the first render. Start-up is then still waiting for the database to open, so the initial settings are saved over the stored ones before `getSettings` reads them | stored settings with user name "Ann" and a backup date five days old: start-up shows 朋友, drops the custom tags and never shows the backup reminder | save settings only after the stored ones have been loaded, so start-up shows the stored settings and reminds when a backup is overdue | high, not executed | AppMain.FirstRunLosesStoredSettings | AppMain.AppState.Startup |
