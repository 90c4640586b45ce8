# Devotional journal: streaks, stores and the guidance endpoint, in Dafny

This project models the two pieces of sequential logic of a devotional
journaling web app and proves properties of them.

- **Journal streak statistics.** A snapshot is derived from the user's
  journal entry dates and the current time. It holds the current streak,
  the "longest" streak, the latest entry date and the number of entries of
  the last seven days. The app computes it in two places,
  `src/lib/stores.ts` and `src/lib/stores/journal.ts`.
  - `StreakSpec` (streak.dfy) gives the snapshot as a function, `StreakOf`,
    with the lemmas that say what it means.
  - `Stores.ComputeStreak` and `JournalStores.ComputeStreak` are the two
    copies of the computation. Each one sorts, seeds the streak, and walks
    neighbours in a `for` loop with `break`. Both are proved equal to
    `StreakOf`, so the two copies agree on every input.
- **The in-memory entry and prayer lists.** The stores hold a list that a
  method updates only after its backend call returns. Adding prepends.
  Deleting filters on the id. Answering a prayer maps the item with that id
  to the backend's updated prayer. When the call throws, the error is
  rethrown and the list stays as it was. These are classes with a `seq`
  field (`Stores.JournalStore`, `Stores.PrayerStore`,
  `JournalStores.JournalStore`). The pure list updates and their lemmas are
  in `Lists` (lists.dfy).
- **The guidance endpoint** (`Guidance`, guidance.dfy). It covers:
  - the method, credential and `situation` checks, with their status codes;
  - building the context from the optional mood and journal text;
  - the span the pattern `\{[\s\S]*\}` matches in the model's reply;
  - the choice between the two fixed fallback payloads.

Dates and times are integer milliseconds. The current time is a
parameter. A whole-day difference is `Math.floor(ms / 86400000)`; Dafny's
`/` with a positive divisor rounds down for negative numerators too.

The model follows the code where its behaviour is easy to misread:
- The week window is every date at or after `now - 7 * 86400000`,
  including dates after now, and not a range of calendar days
  (`FutureEntriesCountThisWeek`).
- The streak counts entries. Two entries on the same day each add one
  (`AllCloseCountsEveryEntry`).
- `longest` is `Math.max(current, 0)`, which is always `current`
  (`LongestIsCurrent`).
- No date is skipped or checked before the streak is computed; every
  entry's date takes part.

## Model

| member | source | states |
|---|---|---|
| `StreakSpec.FloorDays` | src/lib/stores.ts:123 | the whole-day difference is the floor of `ms / 86400000`: `d * 86400000 <= ms < (d + 1) * 86400000`, and it is negative exactly for negative `ms` |
| `StreakSpec.Gap` | src/lib/stores.ts:128-130 | the whole-day gap between sorted neighbours is never negative where the list descends, and is at most one day exactly when the two dates are less than two days apart |
| `StreakSpec.SortDesc` | src/lib/stores.ts:115-117 | the sorted copy has as many dates as the entries; `SortDescSorted` shows it is the descending permutation |
| `StreakSpec.SortDescSorted` | src/lib/stores.ts:115-117 | the sort returns a descending permutation of the dates |
| `StreakSpec.SortedUnique` | src/lib/stores.ts:115-117 | two descending lists with the same multiset of dates are equal, so the sorted list depends only on the multiset |
| `StreakSpec.SortDescPermutation` | src/lib/stores.ts:115-117 | inputs that are permutations of each other sort to the same list |
| `StreakSpec.SortedGapsNonNegative` | src/lib/stores.ts:127-130 | after the descending sort, no whole-day gap between neighbours is negative |
| `StreakSpec.LeadingRun` | src/lib/stores.ts:127-136 | the number of neighbour pairs the walk counts before its first gap of more than a day is less than the list's length; `LeadingRunIs` and `LeadingRunMeans` pin it exactly |
| `StreakSpec.LeadingRunIs` | src/lib/stores.ts:127-136 | if the first `k` gaps are at most one day and gap `k + 1` is larger (or absent), the walk counts exactly `k` pairs |
| `StreakSpec.LeadingRunMeans` | src/lib/stores.ts:127-136 | conversely, the counted pairs all have gaps of at most a day, and the walk stops at the end or at the first larger gap |
| `StreakSpec.CountSince` | src/lib/stores.ts:142 | the filtered count never exceeds the number of entries |
| `StreakSpec.CountSinceMeans` | src/lib/stores.ts:142 | the count is 0 exactly when every date is before the cutoff, and is the full length exactly when none is |
| `StreakSpec.CountSinceSorted` | src/lib/stores.ts:142 | counting over the sorted list gives the same count as counting over the entries as given |
| `StreakSpec.StreakOf` | src/lib/stores.ts:109-150 | the snapshot has a `lastEntry` exactly when there are entries, `longest == current <= |entries|`, and `weeklyEntries <= |entries|`; the lemmas below state what each field means |
| `StreakSpec.EmptyHasNoStreak` | src/lib/stores.ts:110-112 | no entries give `{current: 0, longest: 0, lastEntry: null, weeklyEntries: 0}` |
| `StreakSpec.StreakOrderIndependent` | src/lib/stores.ts:115-121 | the snapshot depends only on the multiset of entry dates, not on their order |
| `StreakSpec.LastEntryIsLatest` | src/lib/stores.ts:115-121 | `lastEntry` is present exactly when there are entries, and it is then the maximum date |
| `StreakSpec.CurrentZeroIffLapsed` | src/lib/stores.ts:120-125 | `current` is 0 exactly when the latest entry is more than one whole day before now; a latest entry in the future still seeds the streak |
| `StreakSpec.CurrentIsLeadingRun` | src/lib/stores.ts:125-137 | when seeded, `1 <= current <= |entries|`; the first `current - 1` gaps are between 0 and 1 day, and the next gap, if any, is larger |
| `StreakSpec.AllCloseCountsEveryEntry` | src/lib/stores.ts:126-136 | when the latest entry is recent and every sorted neighbour is at most a day apart, `current` is the number of entries, same-day duplicates included |
| `StreakSpec.GapAfterLatestBreaks` | src/lib/stores.ts:130-135 | a gap of two or more days right after the latest entry caps `current` at 1 |
| `StreakSpec.LongestIsCurrent` | src/lib/stores.ts:147 | `longest` equals `current` |
| `StreakSpec.WeeklyCountsLastSevenDays` | src/lib/stores.ts:139-142 | `weeklyEntries` is the number of entries dated no earlier than now minus seven days, and is at most the number of entries |
| `StreakSpec.FutureEntriesCountThisWeek` | src/lib/stores.ts:139-142 | the weekly filter has only a lower bound: when every entry is dated after now, `weeklyEntries` is the number of entries |
| `Stores.ComputeStreak` | src/lib/stores.ts:109-150 | the loop with `break` computes exactly `StreakOf` of the entries' dates; no entries give the all-zero snapshot; `longest == current <= |entries|`; `weeklyEntries <= |entries|` |
| `Stores.JournalStore.constructor` | src/lib/stores.ts:15 | the store starts with an empty list |
| `Stores.JournalStore.LoadEntries` | src/lib/stores.ts:19-22 | the list becomes the fetched list |
| `Stores.JournalStore.AddEntry` | src/lib/stores.ts:23-40 | a created entry is put first and the old list follows unchanged; a falsy result leaves the list alone; a thrown error is rethrown and the list is untouched |
| `Stores.JournalStore.DeleteEntry` | src/lib/stores.ts:41-49 | after the backend deletes, the list is the old list filtered on the id; on a thrown error the list is untouched |
| `Stores.PrayerStore.constructor` | src/lib/stores.ts:55 | the store starts with an empty list |
| `Stores.PrayerStore.LoadPrayers` | src/lib/stores.ts:59-62 | the list becomes the fetched list |
| `Stores.PrayerStore.AddPrayer` | src/lib/stores.ts:63-78 | a created prayer is put first and the old list follows unchanged; on a thrown error the list is untouched |
| `Stores.PrayerStore.AnswerPrayer` | src/lib/stores.ts:79-92 | the updated prayer replaces the prayers with the id through the map, and the length is kept; a falsy result or a thrown error leaves the list alone |
| `Stores.PrayerStore.DeletePrayer` | src/lib/stores.ts:93-101 | after the backend deletes, the list is the old list filtered on the id; on a thrown error the list is untouched |
| `Lists.RemoveById` | src/lib/stores.ts:44 | the filter keeps only items without the id, keeps every such item, and never grows the list |
| `Lists.RemoveByIdCounts` | src/lib/stores.ts:44 | every item without the id keeps its multiplicity, and items with the id are gone |
| `Lists.RemoveByIdAppend` | src/lib/stores.ts:44 | the filter distributes over concatenation, so the kept items keep their relative order |
| `Lists.RemoveByIdAbsent` | src/lib/stores.ts:44 | a list with no item carrying the id is unchanged |
| `Lists.RemoveByIdIdempotent` | src/lib/stores/journal.ts:33 | deleting the same id twice is the same as deleting it once |
| `Lists.RemoveByIdAfterPrepend` | src/lib/stores.ts:33-44 | deleting the id of an item just added gives the old list filtered on that id |
| `Lists.ReplaceById` | src/lib/stores.ts:83-85 | the map keeps the list's length |
| `Lists.ReplaceByIdAt` | src/lib/stores.ts:83-85 | position `i` holds the updated prayer when its id matches and the old item otherwise |
| `Lists.ReplaceByIdKeepsIds` | src/lib/stores.ts:83-85 | when the updated prayer carries the id it replaces, the sequence of ids is unchanged |
| `Lists.ReplaceByIdAbsent` | src/lib/stores.ts:83-85 | answering an id that no prayer has changes nothing |
| `Lists.ReplaceByIdIdempotent` | src/lib/stores.ts:83-85 | replacing twice with the same updated prayer is the same as replacing once, whatever id the updated prayer carries |
| `JournalStores.ComputeStreak` | src/lib/stores/journal.ts:42-82 | this copy's loop also computes exactly `StreakOf`, so it gives the same snapshot as `Stores.ComputeStreak` for every list and every `now`; no entries give the all-zero snapshot; `longest == current`; `weeklyEntries <= |entries|` |
| `JournalStores.JournalStore.constructor` | src/lib/stores/journal.ts:10 | the store starts with an empty list |
| `JournalStores.JournalStore.LoadEntries` | src/lib/stores/journal.ts:14-17 | the list becomes the fetched list |
| `JournalStores.JournalStore.AddEntry` | src/lib/stores/journal.ts:18-30 | length grows by one, the head is the created entry and the tail is the old list; a thrown error propagates and leaves the list alone |
| `JournalStores.JournalStore.DeleteEntry` | src/lib/stores/journal.ts:31-34 | the list is the old list filtered on the id, and filtering it again changes nothing |
| `Guidance.MoodSentence` | api/guidance.ts:36 | the mood sentence is the lead-in `The person is feeling `, then the mood verbatim, then the closing `. ` |
| `Guidance.ReflectionSentence` | api/guidance.ts:39 | the reflection sentence is the lead-in `Recent reflection: "`, then the journal text verbatim, then the closing `" ` |
| `Guidance.Context` | api/guidance.ts:33-40 | the context is empty exactly when both mood and journal text are falsy; it starts with the mood sentence when the mood is given; it ends with the reflection sentence when journal text is given; its length is the sum of the lengths of the sentences that are included, which with the prefix and suffix fixes the string |
| `Guidance.BuildContext` | api/guidance.ts:34-40 | the two guarded `+=` steps build exactly `Context` |
| `Guidance.IndexOf` | api/guidance.ts:107 | returns the first `{` of the reply, or the length when there is none |
| `Guidance.LastIndexFrom` | api/guidance.ts:107 | returns the last `}` at or after a position, or none when there is no `}` there |
| `Guidance.MatchSpan` | api/guidance.ts:107-108 | the span is the leftmost-then-longest match of `\{[\s\S]*\}`, from the first `{` to the last `}` after it; there is no span exactly when the pattern matches nowhere |
| `Guidance.ExtractJson` | api/guidance.ts:107-112 | the candidate is the text of the leftmost-longest match of `\{[\s\S]*\}`: it starts with `{`, ends with `}` and has at least two characters; there is none exactly when nothing matches |
| `Guidance.ExtractJsonUnwraps` | api/guidance.ts:106-109 | a JSON object wrapped in explanation text is recovered when the text before it has no `{` and the text after it has no `}` |
| `Guidance.ExtractJsonMissesAfterOpen` | api/guidance.ts:107 | a `{` in the text before the object moves the match's start in front of it, so the object is not recovered |
| `Guidance.ExtractJsonMissesBeforeClose` | api/guidance.ts:107 | a `}` in the text after the object extends the greedy match past it, so the object is not recovered |
| `Guidance.ExtractJsonUnwrapsIff` | api/guidance.ts:106-109 | a JSON object wrapped in explanation text is recovered exactly when the text before it has no `{` and the text after it has no `}` |
| `Guidance.ReplyGuidance` | api/guidance.ts:104-128 | the parsed value is passed on exactly when the reply is a string, has a candidate, and the candidate parses; otherwise the result is the one-verse Philippians 4:6-7 payload |
| `Guidance.ThrownMessage` | api/guidance.ts:95 | the caught message is the thrown message as is, or for a non-ok upstream status the text starting `Claude API error: ` and ending with the upstream's error text |
| `Guidance.ErrorField` | api/guidance.ts:164 | the error note is never empty, and it is the thrown message whenever that message is non-empty |
| `Guidance.CallFailure` | api/guidance.ts:145-167 | the catch body has `success: false`, the two-verse Proverbs 3:5-6 / Philippians 4:19 guidance, and a non-empty error note that is the caught message whenever that is non-empty |
| `Guidance.Handle` | api/guidance.ts:1-169 | 405 exactly for a non-POST method, so OPTIONS never reaches its 200 branch; 500 exactly for POST without the key, before the body is read; 400 exactly when `situation` is falsy, with no model call; every other path is status 200 with a guidance object; the model is called, with `Context`, exactly when the checks pass; `success` is true exactly when the call returned a reply, and the guidance is then `ReplyGuidance`; otherwise it is the two-verse Proverbs 3:5-6 / Philippians 4:19 payload with the caught message as the error note |

## Left out

- The wall clock and `Date` parsing: `now` is a parameter and entry dates are integer milliseconds. The streak computation reads the clock twice, once for `today` and once for `weekAgo`; the model uses the single `now` for both, which ignores the few milliseconds between the two reads. `new Date(..)` string parsing and invalid (NaN) dates are not modelled.
- `weekAgo.setDate(weekAgo.getDate() - 7)` is modelled as `now - 7 * 86400000`; a daylight-saving change inside the week, where the local date step is 23 or 25 hours, is not captured.
- The sort is modelled as a pure insertion sort on the dates. `Array.prototype.sort` is stable, so same-date entries keep their input order; in any case only the dates of the sorted entries are read afterwards, and two descending lists of the same dates are equal (`SortedUnique`), so that order does not matter.
- Svelte's `writable`/`derived` reactivity and subscriptions: each store is a class whose list field the methods reassign. The streak is recomputed by calling `ComputeStreak` on the list instead of on every change.
- The hosted backend (src/lib/supabase.ts is not part of this model): each call's outcome is a parameter of the store method, and the fields the method sends with the call are not modelled. `answerPrayer`'s note only goes to the backend, so it is not a parameter either.
- `console` logging, the CORS headers, the prompt template text, the HTTP request to the model, the `timestamp` and `debugInfo` fields of the responses: left out as I/O, clock and environment.
- `JSON.parse` is the `parse` parameter of `Guidance.Handle`; only the extraction of the candidate text is verified.
- Body fields of types other than string (numbers, objects) are not modelled: a field is a string or missing. A `null` body is treated like an undefined one and gets the message for the undefined case. That message (`MissingBodyMessage`) is the one a Node runtime gives for native object destructuring; a build that lowers the destructuring reports a different text.
- Guidance.Handle: the `error` note for a non-ok upstream status spells the status in decimal with `DecimalText`, which is not proved to agree with JavaScript's number-to-string conversion.
