# Reading journeys: a verified model of the verse and progress core

Deenly lets a group read the Quran together as a *journey*. A member logs a
reading as a verse range, such as `2:121` to `3:20`, and names everyone who
read it. The app then does three things:

- It stores a reading log.
- It records a completion for every verse of the range that no one has read
  before.
- It refreshes the journey's counters and the personal statistics of each
  reader.

The journey page shows, for each of the 114 surahs, how many of its verses
the logs cover.

This project models that core in Dafny and proves what it promises.

- `wrappers.dfy` (`Wrappers`): `Option`.
- `js_text.dfy` (`JsText`): the JavaScript primitives the verse code relies
  on. These are `split(':')`, `parseInt(_, 10)` (leading white space, an
  optional sign, the longest digit prefix, NaN as `None`), `trim()` and the
  decimal rendering of an integer in a template literal.
- `quran_data.dfy` (`QuranData`): the surah table. It holds 114 rows with
  numbers 1..114 and the canonical verse counts, which add up to 6236.
- `verse_utils.dfy` (`VerseUtils`): `src/lib/verseUtils.ts`. It covers:
  - parsing and formatting `"surah:verse"`;
  - validity;
  - the global verse index 1..6236 and its inverse;
  - range expansion, counting, validation and display;
  - range overlap.
- `records.dfy` (`Records`): the reading-log document.
- `stats_service.dfy` (`StatsService`): `src/services/statsService.ts`. It
  covers day arithmetic on local-time millisecond timestamps, streaks, the
  user's daily count and the journey's daily total.
- `surah_progress.dfy` (`SurahProgress`): the data part of
  `src/components/journey/SurahProgress.tsx`. It covers the set of verses
  read, one record per surah with its status, the status filter, the sort by
  share read and the status counts.
- `journey_service.dfy` (`JourneyService`): `src/services/journeyService.ts`.
  A `JourneyStore` class holds the journey's logs, completion documents and
  counters, plus the users' documents. Its methods `LogReading`,
  `CommitBatch` and `UpdatePersonalStats` change those fields step by step,
  as the service does. The form guard of
  `src/components/journey/LogReadingModal.tsx` is the `Submit` method.

Clocks and server timestamps become a `now: int` parameter, in milliseconds
of local time. Firestore reads and writes become reads and assignments of the
store's fields.

`JourneyStore.Valid()` is the store invariant. It has two parts:

- `Counted()`: `stats.versesCompleted` equals the number of completion
  documents, and each completion is keyed by the verse it records.
- The completed verses are exactly the verses the logs cover, that is, the
  read set the journey page computes from the same logs. The write side
  (completion documents) and the read side (the progress view) agree.

A new journey satisfies the invariant, and logging a reading keeps it. The
verses of an expanded range are distinct and only verses without a
completion are added, so the counter stays right. The completed verses grow
by exactly the range, as the read set does. Since the read set holds only
canonical texts of existing verses, every valid store has
`versesCompleted <= 6236`.

## Model

| member | source | states |
|---|---|---|
| JsText.Trim | src/services/journeyService.ts:59 | `trim()`: white space removed from both ends; its properties are proved in `TrimStartSpec`, `TrimEndSpec` and `TrimEmptyIff` |
| JsText.TrimStartSpec | src/services/journeyService.ts:59 | trimming the front removes a prefix of white space and stops at the first other character |
| JsText.TrimEndSpec | src/services/journeyService.ts:59 | trimming the end removes a suffix of white space and stops at the last other character |
| JsText.TrimEmptyIff | src/services/journeyService.ts:59 | `trim()` gives the empty string exactly when the note is all white space |
| JsText.Split | src/lib/verseUtils.ts:8 | `split(':')` always yields at least one piece |
| JsText.SplitLength | src/lib/verseUtils.ts:8-9 | `split(':')` yields one more piece than the string has colons |
| JsText.SplitJoin | src/lib/verseUtils.ts:8 | joining the pieces back with ':' gives the original string |
| JsText.SplitNoColon | src/lib/verseUtils.ts:8 | a string without a colon splits into itself alone |
| JsText.SplitCons | src/lib/verseUtils.ts:8 | `a:b`, where `a` has no colon, splits into `a` followed by the pieces of `b` |
| JsText.ParseInt | src/lib/verseUtils.ts:11-12 | `parseInt(_, 10)`: leading white space, an optional sign and the longest digit prefix, `None` for NaN; proved in `DigitPrefixSpec` and `ParseIntToString` |
| JsText.DigitPrefixSpec | src/lib/verseUtils.ts:11-12 | the digit run `parseInt` reads is the longest run of digits at the front |
| JsText.IntToString | src/lib/verseUtils.ts:23 | `${n}` for an integer below 1e21 in magnitude: a minus sign and the digits of \|n\|; proved in `IntToStringShape`, `ParseIntToString` and `IntToStringInjective` |
| JsText.NatToStringSpec | src/lib/verseUtils.ts:23 | a rendered natural number is a non-empty run of digits with no leading zero |
| JsText.IntToStringShape | src/lib/verseUtils.ts:23 | a rendered integer holds no ':' and does not start with white space |
| JsText.NatToStringValue | src/lib/verseUtils.ts:23 | the digits of a rendered natural number have that number as their value |
| JsText.DigitPrefixOfDigits | src/lib/verseUtils.ts:11-12 | a run made only of digits is read whole |
| JsText.ParseIntToString | src/lib/verseUtils.ts:11-23 | `parseInt` reads back every rendered integer, negative ones included (in JavaScript this holds for \|n\| < 1e21, see below) |
| JsText.IntToStringInjective | src/lib/verseUtils.ts:23 | distinct integers render differently |
| QuranData.FindFromSpec | src/lib/verseUtils.ts:39 | the search from row `from` finds number n exactly when its row is at or after `from`, and finds it at row n - 1 |
| QuranData.FindSurahSpec | src/lib/verseUtils.ts:39 | `QURAN_SURAHS.find(s => s.number === n)` finds a row exactly for 1..114, namely row n - 1 |
| QuranData.PrefixSumGrows | src/lib/verseUtils.ts:53-55 | each surah adds at least one verse to the sum of earlier verse counts |
| QuranData.TotalIsSum | src/lib/verseUtils.ts:67 | the 114 verse counts add up to `TOTAL_VERSES` = 6236 |
| QuranData.PrefixSuffix | src/lib/verseUtils.ts:67-75 | the verses before row k and those from row k on make up all 6236 |
| VerseUtils.ParseVerseRef | src/lib/verseUtils.ts:7-17 | `parseVerseRef`: two `parseInt` results around exactly one ':', `null` otherwise; proved in `ParseNeedsOneColon`, `ParseFormat` and `CanonicalParses` |
| VerseUtils.ParseNeedsOneColon | src/lib/verseUtils.ts:8-9 | a string parses only if it holds exactly one ':' |
| VerseUtils.FormatVerseRef | src/lib/verseUtils.ts:22-24 | `formatVerseRef`: "surah:verse"; proved in `ParseFormat` and `FormatInjective` |
| VerseUtils.ParseFormat | src/lib/verseUtils.ts:7-24 | `parseVerseRef(formatVerseRef(r)) == r` for every reference, signs included (in JavaScript for parts below 1e21 in magnitude, see below) |
| VerseUtils.FormatInjective | src/lib/verseUtils.ts:22-24 | distinct references format to distinct strings |
| VerseUtils.IsValidVerseRef | src/lib/verseUtils.ts:29-43 | `isValidVerseRef`: the empty, unparsable, out-of-table and out-of-count cases; proved in `IsValidVerseRefSpec` and `EmptyRefInvalid` |
| VerseUtils.IsValidVerseRefSpec | src/lib/verseUtils.ts:29-43 | a string is valid exactly when it parses to surah 1..114 and a verse within that surah's count |
| VerseUtils.CanonicalOfValid | src/lib/verseUtils.ts:22-43 | the formatted text of an existing verse is canonical and passes `isValidVerseRef` |
| VerseUtils.CanonicalParses | src/lib/verseUtils.ts:7-24 | a canonical text parses to a valid reference and is that reference's formatted text |
| VerseUtils.GetGlobalVerseId | src/lib/verseUtils.ts:49-61 | the loop returns the verses of all earlier surahs plus the verse number |
| VerseUtils.GlobalIdBounds | src/lib/verseUtils.ts:45-61 | every valid reference has an index in 1..6236 |
| VerseUtils.GlobalIdInSurah | src/lib/verseUtils.ts:49-61 | a valid reference's index lies in its surah's block of indices |
| VerseUtils.GlobalIdBefore | src/lib/verseUtils.ts:45-61 | a valid reference that comes earlier in reading order has the smaller index |
| VerseUtils.GlobalIdOrder | src/lib/verseUtils.ts:45-61 | on valid references, index order is exactly reading order (surah, then verse), in both directions |
| VerseUtils.GlobalIdInjective | src/lib/verseUtils.ts:49-61 | distinct valid references have distinct indices |
| VerseUtils.GetVerseFromGlobalId | src/lib/verseUtils.ts:66-81 | the subtract-and-advance loop returns `null` outside 1..6236 and otherwise what the table walk gives |
| VerseUtils.LocateSpec | src/lib/verseUtils.ts:69-80 | starting from row i, the walk ends at a valid reference whose index is the verses before row i plus `remaining` |
| VerseUtils.FromGlobalIdSpec | src/lib/verseUtils.ts:66-81 | `getVerseFromGlobalId` answers exactly for 1..6236, with the valid reference that has that index |
| VerseUtils.GlobalIdRoundTrip | src/lib/verseUtils.ts:49-81 | taking the index of a valid reference and converting it back gives the same reference |
| VerseUtils.VerseAtId | src/lib/verseUtils.ts:66-81 | the reference at an index in 1..6236 is valid and has that index |
| VerseUtils.ExpandVerseRange | src/lib/verseUtils.ts:87-110 | returns `[]` if an end does not parse, is invalid, or start is after end; otherwise the references of indices start..end |
| VerseUtils.CollectRefs | src/lib/verseUtils.ts:100-109 | the `for` loop pushes the formatted reference of every index lo..hi that has one |
| VerseUtils.RefsBetweenLength | src/lib/verseUtils.ts:102-107 | within 1..6236 the loop pushes exactly one reference per index |
| VerseUtils.RefsBetweenAt | src/lib/verseUtils.ts:102-107 | the k-th pushed reference is the one with index lo + k |
| VerseUtils.CalculateVerseCount | src/lib/verseUtils.ts:115-128 | `calculateVerseCount`: 0 unless both ends are valid and in order, else end index - start index + 1; proved in `VerseCountSpec` and `VerseCountSingle` |
| VerseUtils.VerseCountSpec | src/lib/verseUtils.ts:115-128 | the count is 1..6236 for a proper range (both ends valid, start not after end) and 0 otherwise |
| VerseUtils.VerseCountSingle | src/lib/verseUtils.ts:115-128 | a valid reference taken as a range of its own counts one verse |
| VerseUtils.ExpandedRangeSpec | src/lib/verseUtils.ts:87-128 | the expansion has as many references as the count says, and the k-th is canonical with index start + k |
| VerseUtils.ExpandedRangeDistinct | src/lib/verseUtils.ts:87-110 | every expanded reference is canonical and none appears twice |
| VerseUtils.ValidateVerseRange | src/lib/verseUtils.ts:134-162 | `validateVerseRange`: the five error messages in the source's order, `null` when none applies; proved in `ValidateSpec` and `ValidateAcceptsProper` |
| VerseUtils.ValidateSpec | src/lib/verseUtils.ts:115-162 | validation passes exactly on proper ranges, exactly when the count is positive, and never reports a parse failure |
| VerseUtils.ValidateAcceptsProper | src/lib/verseUtils.ts:134-162 | validation returns `null` exactly on proper ranges; the "Failed to parse" branch cannot be reached |
| VerseUtils.EmptyRefInvalid | src/lib/verseUtils.ts:29-31 | the empty string is not a valid reference |
| VerseUtils.SurahName | src/lib/verseUtils.ts:171-172 | the table lookup gives the name of row n - 1 for n in 1..114, and `null` otherwise |
| VerseUtils.GetSurahName | src/lib/verseUtils.ts:167-173 | a name is returned exactly when the text parses to surah 1..114, and it is that surah's name |
| VerseUtils.FormatVerseRange | src/lib/verseUtils.ts:179-198 | `formatVerseRange`: the empty text and the three layouts; proved in `FormatVerseRangeEmpty`, `FormatVerseRangeLayout` and the `Format…` lemmas below |
| VerseUtils.FormatVerseRangeEmpty | src/lib/verseUtils.ts:179-183 | the display text is empty exactly when an end does not parse |
| VerseUtils.SurahNameOfRef | src/lib/verseUtils.ts:167-173 | the name for a formatted reference is its surah's table name, or `null` outside 1..114 |
| VerseUtils.FormatVerseRangeLayout | src/lib/verseUtils.ts:179-198 | the three layouts: "name v", "name v1-v2" within one surah, and "name1 v1 to name2 v2" across surahs |
| VerseUtils.FormatSingleVerse | src/lib/verseUtils.ts:185-189 | a single valid verse renders as "name verse" |
| VerseUtils.FormatWithinSurah | src/lib/verseUtils.ts:185-191 | several verses of one surah render as "name first-last" |
| VerseUtils.FormatAcrossSurahs | src/lib/verseUtils.ts:192-197 | a range across surahs renders as "name1 v1 to name2 v2" with both table names |
| VerseUtils.FormatUnknownSurah | src/lib/verseUtils.ts:179-198 | a surah outside the table renders as "null v", as a template literal prints a missing name |
| VerseUtils.RangesOverlap | src/lib/verseUtils.ts:203-213 | `rangesOverlap` as written; proved in `RangesOverlapSpec`, and its flaw in `RangesOverlapInverted` |
| VerseUtils.RangesOverlapSpec | src/lib/verseUtils.ts:203-213 | the test is symmetric, and for ranges whose start is not after their end it means some verse lies in both |
| VerseUtils.RangesOverlapInverted | src/lib/verseUtils.ts:203-213 | the test as written reports that the inverted range 1:10..1:5 overlaps 1:1..1:20, although the inverted range holds no verse |
| VerseUtils.RangesIntersectSpec | src/lib/verseUtils.ts:203-213 | the test that also requires each range to be in order is symmetric and holds exactly when some verse lies in both ranges |
| StatsService.Midnight | src/services/statsService.ts:39-40 | `setHours(0, 0, 0, 0)` gives the start of the day holding t, at most t and less than a day before it |
| StatsService.CalculateStreak | src/services/statsService.ts:35-62 | `calculateStreak`: the streak after a read, by the gap in days since the last one; proved in `StreakByDayGap` |
| StatsService.StreakByDayGap | src/services/statsService.ts:35-62 | with no earlier read the streak is 1; a gap of 0 days keeps it, 1 day adds one, and any other gap resets it to 1 |
| StatsService.CalculateUserTodayVerses | src/services/statsService.ts:67-90 | the count for the same day adds `verseCount` to the stored count; for another day or no stored day it restarts at `verseCount` |
| StatsService.IsToday | src/services/statsService.ts:95-103 | `isToday`: same date as now; proved in `IsTodayWindow` |
| StatsService.IsTodayWindow | src/services/statsService.ts:95-103 | `isToday` holds exactly when the date lies in the range from today's midnight up to tomorrow's, and exactly when it is on the same day |
| StatsService.TodayTotal | src/services/statsService.ts:22-27 | the sum of `verseCount \|\| 0` over the logs stamped today; its properties are proved in `TodayTotalConcat`, `TodayTotalAppend`, `TodayTotalSwap`, `TodayTotalPermutation` and `TodayTotalNonNegative`, and `CalculateTodayVerses` is proved to compute it |
| StatsService.CalculateTodayVerses | src/services/statsService.ts:7-30 | the loop adds `verseCount \|\| 0` over the logs stamped in today's window |
| StatsService.TodayTotalConcat | src/services/statsService.ts:22-27 | the total over two batches of logs is the sum of their totals |
| StatsService.TodayTotalAppend | src/services/statsService.ts:15-27 | one more log adds its count exactly when it is stamped today |
| StatsService.TodayTotalSwap | src/services/statsService.ts:22-27 | swapping two batches of logs leaves the total unchanged |
| StatsService.TodayTotalPermutation | src/services/statsService.ts:15-27 | any two sequences holding the same logs (the same multiset) have the same total, so the order the query returns them in does not matter |
| StatsService.TodayTotalNonNegative | src/services/statsService.ts:23-27 | with no negative counts stored, the total is not negative |
| SurahProgress.ElementsSpec | src/components/journey/SurahProgress.tsx:34 | the set built from a sequence holds exactly its strings |
| SurahProgress.UnionMember | src/components/journey/SurahProgress.tsx:30-35 | a string is in the union exactly when some group holds it |
| SurahProgress.ExpansionsAt | src/components/journey/SurahProgress.tsx:32-33 | the i-th group is the expansion of the i-th log |
| SurahProgress.AddVerses | src/components/journey/SurahProgress.tsx:34 | the inner `forEach` adds exactly the verses of one expansion to the set |
| SurahProgress.BuildReadSet | src/components/journey/SurahProgress.tsx:30-35 | the loop builds the union of every log's expansion |
| SurahProgress.ReadSetMember | src/components/journey/SurahProgress.tsx:30-35 | a verse is read exactly when some log's expansion holds it |
| SurahProgress.ReadSetOrderFree | src/components/journey/SurahProgress.tsx:30-35 | the read set depends only on which logs there are, not on their order or repetition |
| SurahProgress.ReadSetCanonical | src/components/journey/SurahProgress.tsx:30-35 | every string in the read set is the canonical text of an existing verse |
| SurahProgress.ReadUpTo | src/components/journey/SurahProgress.tsx:39-47 | the count of read verses among 1..n is at most n |
| SurahProgress.ProgressUpTo | src/components/journey/SurahProgress.tsx:38-69 | the records of the first n rows are n in number |
| SurahProgress.ProgressUpToAt | src/components/journey/SurahProgress.tsx:38-69 | the i-th record is that of table row i |
| SurahProgress.SurahProgressFor | src/components/journey/SurahProgress.tsx:38-69 | the per-surah loop counts the surah's verse keys found in the read set and classifies the surah |
| SurahProgress.ProgressFor | src/components/journey/SurahProgress.tsx:38-71 | `QURAN_SURAHS.map` gives the record of every surah, in table order |
| SurahProgress.SurahProgressData | src/components/journey/SurahProgress.tsx:28-72 | the progress data is the record of every surah over the logs' read set |
| SurahProgress.ReadUpToAll | src/components/journey/SurahProgress.tsx:42-47 | the count reaches n exactly when all verses 1..n are read |
| SurahProgress.ReadUpToNone | src/components/journey/SurahProgress.tsx:42-47 | the count is 0 exactly when none of verses 1..n is read |
| SurahProgress.ProgressShape | src/components/journey/SurahProgress.tsx:38-69 | 114 records; record i has surah number i + 1, its verse total and a count within bounds; the status is complete iff all verses are read, in progress iff some but not all are, and not started iff none is |
| SurahProgress.StatusMeaning | src/components/journey/SurahProgress.tsx:49-58 | complete iff every verse of the surah is in the read set; not started iff none is |
| SurahProgress.SurahReadKeysSpec | src/components/journey/SurahProgress.tsx:42-47 | the read keys of a surah are as many as its count and each names one of its verses |
| SurahProgress.ReadKeysBeforeSize | src/components/journey/SurahProgress.tsx:38-69 | the read keys of the first k surahs are as many as their counts together |
| SurahProgress.ReadKeysCover | src/components/journey/SurahProgress.tsx:38-47 | a set of canonical verse texts is exactly the union of its per-surah parts |
| SurahProgress.SumReadIsReadSetSize | src/components/journey/SurahProgress.tsx:30-69 | the per-surah verses-read counts add up to the number of distinct verses read |
| SurahProgress.SumReadBound | src/components/journey/SurahProgress.tsx:38-69 | the verses read in the first k surahs are at most the verses those surahs have |
| SurahProgress.CanonicalBound | src/components/journey/SurahProgress.tsx:30-69 | a set of canonical verse texts has at most 6236 members |
| SurahProgress.ReadSetBound | src/components/journey/SurahProgress.tsx:30-35 | however many logs there are, they cover at most 6236 distinct verses |
| SurahProgress.ReadSetAppend | src/components/journey/SurahProgress.tsx:30-35 | one more log adds exactly the verses of its range to the read set |
| SurahProgress.KeepStatus | src/components/journey/SurahProgress.tsx:79-81 | the status filter; proved in `KeepStatusSpec`, `KeepStatusConcat` and `KeepStatusAscending` |
| SurahProgress.KeepStatusSpec | src/components/journey/SurahProgress.tsx:79-81 | the filter keeps exactly the records with the status, and never adds records |
| SurahProgress.KeepStatusConcat | src/components/journey/SurahProgress.tsx:79-81 | filtering keeps order: it distributes over concatenation |
| SurahProgress.KeepStatusAscending | src/components/journey/SurahProgress.tsx:79-81 | filtering a list in surah order leaves it in surah order |
| SurahProgress.SortByShare | src/components/journey/SurahProgress.tsx:84-86 | the stable sort by percentage, highest first; proved in `InsertByShareSpec` and `SortByShareSpec` |
| SurahProgress.InsertByShareSpec | src/components/journey/SurahProgress.tsx:84-86 | one insertion step keeps a permutation sorted by share, with ties in surah order |
| SurahProgress.SortByShareSpec | src/components/journey/SurahProgress.tsx:84-86 | the stable sort by percentage, highest first, is a permutation sorted by share with ties in surah order |
| SurahProgress.ProgressAscending | src/components/journey/SurahProgress.tsx:38-69 | the progress data is in strictly increasing surah-number order |
| SurahProgress.FilteredAndSorted | src/components/journey/SurahProgress.tsx:75-90 | the `filteredAndSorted` memo: filter, then sort by number or share; proved in `FilteredAndSortedSpec` |
| SurahProgress.FilteredAndSortedSpec | src/components/journey/SurahProgress.tsx:75-90 | the list shown holds exactly the records that pass the filter, each once; "all" by number is the data unchanged; by number it is ascending; by percentage it is sorted by share |
| SurahProgress.StatusCounts | src/components/journey/SurahProgress.tsx:93-98 | the `statusCounts` memo; proved in `StatusCountsSum` and `StatusCountsTotal` |
| SurahProgress.StatusCountsSum | src/components/journey/SurahProgress.tsx:93-98 | the three status counts add up to the number of records |
| SurahProgress.StatusCountsTotal | src/components/journey/SurahProgress.tsx:93-98 | over the progress data the three counts add up to 114 |
| JourneyService.NameOf | src/services/journeyService.ts:43-46 | a reader's display name; proved in `NameOfSpec` |
| JourneyService.NameOfSpec | src/services/journeyService.ts:43-46 | the name is that of the first member with the id, or 'Unknown' when there is none or its name is empty; it is never empty |
| JourneyService.ReadByNames | src/services/journeyService.ts:43-46 | one name per selected reader, in the same order |
| JourneyService.NoteField | src/services/journeyService.ts:59 | the log's optional `note` field; proved in `NoteFieldSpec` |
| JourneyService.NoteFieldSpec | src/services/journeyService.ts:59 | a note is stored, trimmed, exactly when one is given that is not all white space |
| JourneyService.NewVersesOf | src/services/journeyService.ts:68-76 | the verses of the range without a completion, in order; proved in `NewVersesMember`, `NewVersesConcat`, `NewVersesDistinct`, `NewVersesEmpty` and `NewVersesFresh`, and `FindNewVerses` is proved to compute it |
| JourneyService.NewVersesMember | src/services/journeyService.ts:65-76 | a verse is new exactly when it is in the range and has no completion |
| JourneyService.NewVersesConcat | src/services/journeyService.ts:68-76 | the new verses keep the range's order |
| JourneyService.NewVersesDistinct | src/services/journeyService.ts:65-76 | a range without repeats yields new verses without repeats |
| JourneyService.NewVersesEmpty | src/services/journeyService.ts:84-114 | the batch branch is skipped exactly when every verse of the range already has a completion |
| JourneyService.AddCompletions | src/services/journeyService.ts:88-95 | the batch of completion documents; proved in `AddCompletionsSpec`, `BatchKeepsValid` and `BatchAddsCanonical` |
| JourneyService.AddCompletionsSpec | src/services/journeyService.ts:88-95 | the batch writes `{verseRef, completedAt, completedBy}` for each new verse and leaves the other documents alone; fresh, distinct verses add one document each |
| JourneyService.RelogFindsNothingNew | src/services/journeyService.ts:65-106 | logging the same range again finds no new verse |
| JourneyService.NewVersesFresh | src/services/journeyService.ts:65-76 | the new verses of an expansion are distinct, canonical and without a completion |
| JourneyService.BatchKeepsValid | src/services/journeyService.ts:84-106 | writing a batch of distinct, uncompleted verses keeps every completion keyed by its verse, and adds exactly one document per verse |
| JourneyService.BatchAddsCanonical | src/services/journeyService.ts:88-95 | when the batch's verses are canonical, every document it adds is keyed by a canonical verse text |
| JourneyService.CompletedKeys | src/services/journeyService.ts:65-95 | after the batch, the completed verses are the old ones together with every verse of the range |
| JourneyService.LogKeepsAgreement | src/services/journeyService.ts:30-106 | when the completed verses are the verses the logs cover, logging one more reading and writing its batch keeps them so |
| JourneyService.CompletionsBound | src/services/journeyService.ts:84-106 | completions that agree with the logs number at most 6236 |
| JourneyService.UpdatedStats | src/services/journeyService.ts:129-160 | one update sets the streak by `calculateStreak` and today's count by `calculateUserTodayVerses` from the stored (or default) stats, adds `verseCount` verses and one reading, stamps the read dates, and keeps the longest streak at least the new streak and the stored longest streak |
| JourneyService.UsersAfter | src/services/journeyService.ts:123-163 | the users' documents after `updatePersonalStats`; proved in `UsersAfterDomain`, `UsersAfterLast`, `UsersAfterSpec`, `UsersAfterOnce` and `UsersAfterSuffix`, and the method `UpdatePersonalStats` is proved to compute it |
| JourneyService.UsersAfterDomain | src/services/journeyService.ts:123-163 | updating personal stats creates and deletes no user document |
| JourneyService.UsersAfterLast | src/services/journeyService.ts:124-161 | the last selected id updates that user's document, if one is stored, and no other |
| JourneyService.UsersAfterSpec | src/services/journeyService.ts:123-163 | unselected users are untouched; a stored user gains one reading and `verseCount` verses per selection, and the longest streak does not go down |
| JourneyService.UsersAfterOnce | src/services/journeyService.ts:123-163 | a user selected once ends with exactly one update of its stored stats |
| JourneyService.UsersAfterSuffix | src/services/journeyService.ts:123-163 | selecting further users that do not include u leaves u as it was |
| JourneyService.SubmitCheck | src/components/journey/LogReadingModal.tsx:49-61 | the form's guard: ignored when signed out, rejected with a message for an invalid range or no reader, logged otherwise; proved in `SubmitCheckSpec` |
| JourneyService.SubmitCheckSpec | src/components/journey/LogReadingModal.tsx:49-61 | the form calls `logReading` exactly when a user is signed in, the range is proper and a reader is selected; then the count and the expansion are 1..6236 |
| JourneyService.JourneyStore.UpdatePersonalStats | src/services/journeyService.ts:123-163 | the loop leaves the users' documents as `UsersAfter` describes |
| JourneyService.JourneyStore.VersesCompletedBound | src/services/journeyService.ts:98-99 | in every store that keeps the invariant, `versesCompleted` is at most 6236 |
| JourneyService.JourneyStore.FindNewVerses | src/services/journeyService.ts:67-76 | the `getDoc` loop keeps, in order, the verses without a completion |
| JourneyService.JourneyStore.NewVersesIn | src/services/journeyService.ts:65-76 | the new verses of the expanded range are distinct, canonical and without a completion |
| JourneyService.JourneyStore.BuildBatch | src/services/journeyService.ts:85-95 | the batch holds the stored completions plus one per new verse |
| JourneyService.JourneyStore.CommitBatch | src/services/journeyService.ts:84-114 | keeps the counter invariant `Counted()`; adds the new completions; adds their number to `versesCompleted`; stamps the activity and today's total in both branches |
| JourneyService.JourneyStore.LogReading | src/services/journeyService.ts:30-118 | keeps the store invariant, so the completed verses stay the verses the logs cover; appends the log with its verse count and reader names; completes exactly the new verses of the range, each keyed by a canonical verse text, so the completed verses become the old ones plus every verse of the range; today's total includes the new log; updates the readers' stats |
| JourneyService.JourneyStore.Submit | src/components/journey/LogReadingModal.tsx:49-77 | keeps the store invariant; a rejected or ignored form changes nothing; an accepted one covers 1..6236 verses and leaves the store exactly as `logReading` does: the new log appended, the new verses completed (the completed verses become the old ones plus the range), the counters and today's total refreshed, the readers' stats updated |

## Left out

- Firestore I/O, `async` interleaving and concurrent loggers. The model runs
  each call as one atomic step over the store's fields. Two readers who log
  the same verse at once could each count it in the source.
- Server timestamps and the client clock. Both are the single `now`
  parameter, so the log's timestamp and the "today" of the daily total
  always agree.
- Daylight-saving time and time zones: a day is a block of 86400000
  milliseconds of local time. StatsService.CalculateStreak divides the real
  time between two midnights by 86400000 and tests for exactly 1. On the day
  after a clock change that quotient is 23/24 or 25/24, so the source resets
  the streak to 1 where the model extends it.
- Floating point. The surah percentage `versesRead / totalVerses * 100` is
  not computed. The status uses the integer counts, which is equivalent for
  a positive total. The percentage sort compares shares by
  cross-multiplication, which orders records as the percentages do.
- `completionPercentage` (the `increment(newVerses.length / 6236 * 100)` of
  journeyService.ts:100) and `getCompletionPercentage`: both are floating
  point.
- `parseInt` precision. Digit strings whose value exceeds 2^53 read exactly
  here, while JavaScript rounds them.
- JsText.IntToString models `${n}` for integers only. JavaScript numbers are
  doubles, and `${n}` renders a magnitude of 1e21 or more in exponent form
  ("1e+21"), which `parseInt` reads back as 1. That rendering is not
  modelled.
- JsText.ParseIntToString: in JavaScript the round trip holds only for
  |n| < 1e21, and exactly only below 2^53.
- VerseUtils.ParseFormat: the same bound applies to both parts of the
  reference. Every valid reference lies far below it.
- Missing or non-numeric fields of stored documents, other than a missing
  `verseCount` and a missing `stats`.
- The `name` and `nameArabic` fields of a surah record: they are copies of
  the table and carry no logic. The table's names are common
  transliterations.
- quranData.ts is not part of this model. Its verse counts are the canonical
  ones, written into `QuranData`.
- VerseUtils.GetGlobalVerseId requires a surah number of at most 115,
  because the source reads past the table (and throws) above that.
  `RangesOverlap` inherits the same requirement.
- The React state, rendering and `useMemo` caching of the surah progress
  view.
- The range picker's component state. The form's `isValidRange` flag is
  `validateVerseRange(...) === null`, as the picker reports it
  (src/components/journey/VerseRangePicker.tsx:52-55). The model evaluates
  that check directly on the submitted range.

## Findings

| source | as written | input that shows it | evidently intended | confidence | as-written member | corrected member |
|---|---|---|---|---|---|---|
| src/lib/verseUtils.ts:203-213 | overlap is `start1 <= end2 && start2 <= end1`, even for a range whose start is after its end | range 1:10..1:5 against 1:1..1:20: reported as overlapping, though the first range holds no verse | two ranges overlap exactly when some verse lies in both | low, not executed; `rangesOverlap` has no caller in the repository | VerseUtils.RangesOverlapInverted | VerseUtils.RangesIntersectSpec |
