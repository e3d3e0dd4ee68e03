# Ramadan companion: a verified model of its state logic

This project models the logic of a Ramadan companion web application. The
application has a fasting calendar, a Quran reader and two Quran progress
trackers, dhikr counters, a daily good-deeds checklist, a dashboard, a Hijri
date banner and an adhkar panel. Everything persists through a small
storage service over the browser's key/value store.

The model keeps the logic and leaves out the rendering:

- the storage service's upsert-by-date and its getters over an abstract key/value store (`StorageService`);
- the calendar's suffix and date formatting, its list of Ramadan days and its per-date state map, which must stay in step with storage (`FastingCalendar`);
- the reader's page stepping with the juz counter and its auto-save guard (`QuranReader`);
- the dhikr counter's clamped increment and its completion toast (`DhikrReminders`);
- the good-deeds toggle and its progress percentage (`GoodDeedsChallenge`);
- the two trackers' load-or-default, save and percentage formulas (`QuranProgressTracker`, `QuranTracker`);
- the 604-entry mock page table (`QuranData`);
- the dashboard's Ramadan status, day counter and summary counts (`Dashboard`);
- the integer part of the Hijri banner (`HijriDate`);
- the adhkar panel's category lists, tab handling and labels (`AdhkarSection`).

Conventions:

- Components whose handlers overwrite state fields are classes with those fields, and pure helpers are functions.
- Storage is the class `StorageService.LocalStore`. It holds a map from key to a JSON value, and serialisation is the identity.
- Instants are integer milliseconds. Calendar days are day numbers counted from 1970-01-01.
- JavaScript's `Math.round`, `Math.floor`, `Math.ceil` and `%` are written out exactly in `JsMath`.
- Number-to-string conversion and its inverse are in `Decimal`.
- `Array.prototype.filter` is `Seqs.Filter`.

## Model

| member | source | states |
|---|---|---|
| StorageService.MissedOnly | src/services/storageService.ts:32-35 | the missed list is no longer than the input, holds only missed records from it, and holds every missed record of it |
| StorageService.WithoutDate | src/services/storageService.ts:19 | the kept records are exactly the stored ones whose date differs, and there are no more of them than stored |
| StorageService.OnDate | src/services/storageService.ts:19 | the complement of the filter: exactly the stored records that carry the date |
| StorageService.IsMissed | src/services/storageService.ts:34 | the missed filter's test, a record whose status is "missed"; its properties are those of MissedOnly |
| StorageService.Upsert | src/services/storageService.ts:17-24 | the saved record is the last element of the new list |
| StorageService.UpsertSingleEntry | src/services/storageService.ts:17-24 | after saving a day, exactly one record carries its date, and that record is the last |
| StorageService.UpsertKeepsOtherDates | src/services/storageService.ts:19-22 | the records of every other date are kept, in their original relative order |
| StorageService.OnDateOfWithout | src/services/storageService.ts:19 | removing one date's records leaves the records of any other date untouched |
| StorageService.UpsertIdempotent | src/services/storageService.ts:17-24 | saving the same day twice gives the same list as saving it once |
| StorageService.UpsertLength | src/services/storageService.ts:17-24 | the new length is the old length, less the records that had the date, plus one |
| StorageService.MissedOnlyAppend | src/services/storageService.ts:32-35 | the missed filter distributes over appending a record |
| StorageService.DefaultQuranProgress | src/services/storageService.ts:48-56 | the default progress is juz, page, surah and ayah 1, stamped with the given time |
| StorageService.LocalStore.GetFastingDays | src/services/storageService.ts:26-30 | an absent key reads as the empty list; otherwise the stored list is returned |
| StorageService.LocalStore.GetMissedFastingDays | src/services/storageService.ts:32-35 | the result holds exactly the missed records of the stored list, and is no longer than it |
| StorageService.LocalStore.GetQuranProgress | src/services/storageService.ts:42-46 | the result is none exactly when the key is absent, and otherwise the stored record |
| StorageService.LocalStore.SaveFastingDay | src/services/storageService.ts:17-24 | the stored list becomes the upsert of the old one; the progress key is unchanged |
| StorageService.LocalStore.SaveQuranProgress | src/services/storageService.ts:38-40 | the progress read back is the saved record; the fasting list is unchanged |
| FastingCalendar.OrdinalSuffix | src/components/FastingCalendar.tsx:40-45 | the suffix is always one of "th", "st", "nd", "rd" |
| FastingCalendar.OrdinalSuffixRule | src/components/FastingCalendar.tsx:40-45 | "st", "nd" and "rd" go to days ending in 1, 2, 3 except those ending in 11, 12, 13, and "th" to all others (each an if-and-only-if) |
| FastingCalendar.FormatHijriDay | src/components/FastingCalendar.tsx:40-45 | the day's decimal digits followed by its suffix; its shape is proved by FormatHijriDayShape |
| FastingCalendar.FormatHijriDayShape | src/components/FastingCalendar.tsx:43-44 | the output is the day's digits, which read back as the day, followed by its two-letter suffix |
| FastingCalendar.FormatGregorianDate | src/components/FastingCalendar.tsx:125-130 | the zero-padded day and 1-based month and the year, joined by dashes; proved by FormatGregorianDateFields |
| FastingCalendar.FormatGregorianDateFields | src/components/FastingCalendar.tsx:125-130 | the output is dd-mm-yyyy: two-digit day and 1-based month that read back as the fields, and an unpadded year that reads back as the year |
| FastingCalendar.RamadanDates | src/components/FastingCalendar.tsx:132-142 | the loop yields every day from start to end inclusive, consecutive and increasing, and nothing when end precedes start |
| FastingCalendar.CalendarDays | src/components/FastingCalendar.tsx:37-38 | the hard-coded window gives 30 consecutive days, from March 1 to March 30 |
| FastingCalendar.EntryOf | src/components/FastingCalendar.tsx:116-119 | a stored record becomes its status and its notes, with missing notes read as "" |
| FastingCalendar.EntryMap | src/components/FastingCalendar.tsx:110-123 | the state map built by the forEach, in stored order so that a later record overwrites an earlier one; proved by EntryMapKeys, EntryMapSnoc and EntryMapUpsert |
| FastingCalendar.EntryMapKeys | src/components/FastingCalendar.tsx:110-123 | the loaded state map has a key for each stored date and no other |
| FastingCalendar.EntryMapSnoc | src/components/FastingCalendar.tsx:115-120 | a later record with a date overrides the earlier one in the state map |
| FastingCalendar.EntryMapWithoutDate | src/services/storageService.ts:19 | removing a date's records from storage removes exactly that key from the derived state map |
| FastingCalendar.EntryMapUpsert | src/components/FastingCalendar.tsx:165-178 | the storage write and the state-map merge agree: the map of the upserted list is the old map with the date's entry set |
| FastingCalendar.StatusOf | src/components/FastingCalendar.tsx:259-261 | a grid cell shows a status exactly when its date has an entry, and then the entry's status; otherwise "none" |
| FastingCalendar.MissedCount | src/components/FastingCalendar.tsx:214-216 | the number of dates whose entry is missed; bounded by MissedCountBound and tracked across a save by MissedCountAfterSave |
| FastingCalendar.MissedCountBound | src/components/FastingCalendar.tsx:214-216 | the missed-days count never exceeds the number of recorded dates |
| FastingCalendar.MissedCountAfterSave | src/components/FastingCalendar.tsx:214-216 | setting one entry changes the missed count by whether the old and the new entry are missed |
| FastingCalendar.StatusColor | src/components/FastingCalendar.tsx:191-200 | green for fasted, red for missed, grey otherwise; related to the icon by StatusMarkings |
| FastingCalendar.StatusIcon | src/components/FastingCalendar.tsx:202-211 | a tick for fasted, a cross for missed, nothing otherwise; related to the colour by StatusMarkings |
| FastingCalendar.StatusMarkings | src/components/FastingCalendar.tsx:191-211 | only fasted and missed dates get an icon, and a date has no icon exactly when it has the neutral colour |
| FastingCalendar.Calendar.constructor | src/components/FastingCalendar.tsx:76-79 | no date is selected, the status is "none", the notes are empty and the state map is empty |
| FastingCalendar.Calendar.LoadFromStorage | src/components/FastingCalendar.tsx:110-123 | the loop leaves the state map in step with storage, with one entry per stored date and the later record winning |
| FastingCalendar.Calendar.HandleDateClick | src/components/FastingCalendar.tsx:144-157 | the date is selected; when the date has an entry, the dialog's status and notes are pre-filled with that entry's status and notes, and otherwise they reset to "none" and ""; the status is the one the grid shows for the date; the state map is unchanged |
| FastingCalendar.Calendar.HandleSave | src/components/FastingCalendar.tsx:159-189 | with no date or status "none", nothing changes; otherwise the new store is the old one with only the fasting list replaced by its upsert, so the Quran progress and every other key are kept, and the map gets the date's entry; storage and map stay in step |
| QuranReader.EdgesAreFixed | src/components/QuranReader.tsx:69-95 | next does nothing at page 604 or beyond, and previous does nothing at page 1 or below |
| QuranReader.NextPosition | src/components/QuranReader.tsx:69-85 | the next-page step; its range, edge and juz behaviour are proved by EdgesAreFixed, StepsStayInRange, NextJuzStep and NextThenPrev |
| QuranReader.PrevPosition | src/components/QuranReader.tsx:87-95 | the previous-page step; proved by EdgesAreFixed, StepsStayInRange, PrevJuzStep and PrevThenNext |
| QuranReader.StepsStayInRange | src/components/QuranReader.tsx:69-95 | from a position in range, both steps stay in range and move the page by exactly one unless at an edge |
| QuranReader.StepsKeepSurahAndAyah | src/components/QuranReader.tsx:69-95 | paging never changes the surah or the ayah |
| QuranReader.NextJuzStep | src/components/QuranReader.tsx:74-76 | next changes the juz exactly when the old page is a multiple of 20 below 604 and the juz is below 30, and then by one |
| QuranReader.PrevJuzStep | src/components/QuranReader.tsx:91-93 | previous changes the juz exactly when the old page is 1 more than a multiple of 20, above 1, and the juz is above 1, and then by one |
| QuranReader.NextThenPrev | src/components/QuranReader.tsx:69-95 | previous undoes next on the page, and on the whole position when the juz is below 30 |
| QuranReader.PrevThenNext | src/components/QuranReader.tsx:69-95 | next undoes previous on the page, and on the whole position when the juz is above 1 |
| QuranReader.AutoSaveIgnoresJuz | src/components/QuranReader.tsx:57 | the auto-save guard does not look at the juz, so a juz change alone at page, surah and ayah 1 is never saved |
| QuranReader.ShouldAutoSave | src/components/QuranReader.tsx:57 | the auto-save guard: page, surah or ayah past 1; AutoSaveIgnoresJuz shows the juz plays no part |
| QuranReader.ProgressAt | src/components/QuranReader.tsx:97-104 | the saved record carries the four position fields and the given time stamp |
| QuranReader.Reader.constructor | src/components/QuranReader.tsx:35-38 | the reader starts at juz, page, surah and ayah 1 |
| QuranReader.Reader.LoadProgress | src/components/QuranReader.tsx:44-53 | the saved position is adopted when there is one; otherwise the position is unchanged |
| QuranReader.Reader.AutoSave | src/components/QuranReader.tsx:55-67 | when the guard holds, storage gets the current position stamped with the time; otherwise storage is untouched |
| QuranReader.Reader.HandleNextPage | src/components/QuranReader.tsx:69-85 | the new position is the next position of the old one |
| QuranReader.Reader.HandlePrevPage | src/components/QuranReader.tsx:87-95 | the new position is the previous position of the old one |
| QuranReader.Reader.HandleBookmark | src/components/QuranReader.tsx:97-114 | the new store is the old one with only the progress key set to the current position stamped with the time, so the fasting list and every other key are kept; the progress read back is that record |
| QuranReader.Reader.SelectJuz | src/components/QuranReader.tsx:232 | the juz becomes the selected value, and the other fields are kept |
| QuranReader.Reader.SelectPage | src/components/QuranReader.tsx:246 | the page becomes the selected value, and the other fields are kept |
| QuranReader.Reader.SelectSurah | src/components/QuranReader.tsx:262 | the surah becomes the selected value, and the other fields are kept |
| QuranReader.Reader.SelectAyah | src/components/QuranReader.tsx:276 | the ayah becomes the selected value, and the other fields are kept |
| DhikrReminders.ClampedCount | src/components/DhikrReminders.tsx:89-92 | the new count is the old count plus one, capped at the target |
| DhikrReminders.UpdateCounts | src/components/DhikrReminders.tsx:90-95 | entries with the id get the new count and every other entry is unchanged, in the same positions |
| DhikrReminders.CanIncrement | src/components/DhikrReminders.tsx:192 | a counter's button is enabled while its count is below its target; used by IncrementFromButton |
| DhikrReminders.CompletionToast | src/components/DhikrReminders.tsx:101 | the toast test, the unclamped new count equal to the target; characterised by ToastOnCompletion |
| DhikrReminders.IncrementFromButton | src/components/DhikrReminders.tsx:88-98 | a press on an enabled counter raises only that counter, by one, and keeps every count within its target |
| DhikrReminders.ToastOnCompletion | src/components/DhikrReminders.tsx:101 | for an enabled counter, the toast shows exactly when the press reaches the target |
| DhikrReminders.Reminders.constructor | src/components/DhikrReminders.tsx:57-60 | the counters are the list loaded from storage |
| DhikrReminders.Reminders.HandleIncrement | src/components/DhikrReminders.tsx:88-110 | the list gets the clamped count for the id, the persisted value is that same count, and the toast flag is "new count equals target" |
| GoodDeedsChallenge.ToggleMembership | src/components/GoodDeedsChallenge.tsx:67-79 | the toggled id is completed afterwards exactly when it was not before, and every other id keeps its state |
| GoodDeedsChallenge.Toggle | src/components/GoodDeedsChallenge.tsx:70-74 | removes every occurrence of a present id and appends an absent one; proved by ToggleMembership, ToggleShape, ToggleKeepsNoDuplicates and ToggleTwice |
| GoodDeedsChallenge.ToggleShape | src/components/GoodDeedsChallenge.tsx:70-74 | an absent id is appended at the end, and a present id has all its occurrences removed |
| GoodDeedsChallenge.ToggleKeepsNoDuplicates | src/components/GoodDeedsChallenge.tsx:70-74 | a completed list without duplicates keeps that property |
| GoodDeedsChallenge.ToggleTwice | src/components/GoodDeedsChallenge.tsx:70-74 | toggling twice restores the same set of ids, and the same list when the id was absent |
| GoodDeedsChallenge.Progress | src/components/GoodDeedsChallenge.tsx:81 | the progress is 0 without deeds, and otherwise the nearest integer to the completed share times 100 |
| GoodDeedsChallenge.ProgressBounds | src/components/GoodDeedsChallenge.tsx:81 | with no more completed than deeds, the progress lies in 0..100 and is 100 when all are done |
| GoodDeedsChallenge.AllComplete | src/components/GoodDeedsChallenge.tsx:173 | the banner test, completed count equal to the deed count; AllCompleteProgress gives the progress it implies |
| GoodDeedsChallenge.AllCompleteProgress | src/components/GoodDeedsChallenge.tsx:173 | when the completion banner shows, the progress reads 100, or 0 when there are no deeds |
| GoodDeedsChallenge.Challenge.constructor | src/components/GoodDeedsChallenge.tsx:32-34 | the checklist starts with no deeds, nothing completed and streak 0 |
| GoodDeedsChallenge.Challenge.Load | src/components/GoodDeedsChallenge.tsx:40-51 | deeds, completed list and streak take the loaded values |
| GoodDeedsChallenge.Challenge.HandleDeedComplete | src/components/GoodDeedsChallenge.tsx:67-79 | the completed list is toggled for the id, the deeds are unchanged and the streak takes the value read back |
| GoodDeedsChallenge.Challenge.CurrentProgress | src/components/GoodDeedsChallenge.tsx:81 | the displayed progress is the rounded completed share of the current lists, and lies in 0..100 whenever no more deeds are completed than listed |
| QuranProgressTracker.JuzName | src/components/QuranProgressTracker.tsx:89-124 | a juz number in 1..30 gets its own name from the 30-name table |
| QuranProgressTracker.JuzNameDefinedExactlyInRange | src/components/QuranProgressTracker.tsx:123 | the name is non-empty exactly for juz numbers 1..30 |
| QuranProgressTracker.ProgressPercent | src/components/QuranProgressTracker.tsx:51 | the rounded page share of 604, capped at 100; proved by ProgressPercentProperties |
| QuranProgressTracker.ProgressPercentProperties | src/components/QuranProgressTracker.tsx:51 | the capped percentage is at most 100, never decreases as the page grows, is 0 at page 0 and 100 at page 604 |
| QuranProgressTracker.DaysToCompletion | src/components/QuranProgressTracker.tsx:239 | the pace figure is the floor of page/604 times 30 |
| QuranProgressTracker.DaysToCompletionBounds | src/components/QuranProgressTracker.tsx:239 | for pages in 0..604 the pace lies in 0..30 and never decreases |
| QuranProgressTracker.Tracker.constructor | src/components/QuranProgressTracker.tsx:32-36 | the tracker starts at juz, page, surah and ayah 1 with progress 0 |
| QuranProgressTracker.Tracker.Load | src/components/QuranProgressTracker.tsx:41-62 | a saved record sets the four fields and the capped percentage; otherwise the fields are the default and progress is 0 |
| QuranProgressTracker.Tracker.HandleSaveProgress | src/components/QuranProgressTracker.tsx:64-86 | the new store is the old one with only the progress key set to the four fields stamped with the time, so the fasting list is kept; progress becomes the capped percentage of the page |
| QuranProgressTracker.Tracker.SetJuz | src/components/QuranProgressTracker.tsx:160 | only the juz changes |
| QuranProgressTracker.Tracker.SetPage | src/components/QuranProgressTracker.tsx:183 | only the page changes; the shown progress waits for the next save |
| QuranProgressTracker.Tracker.SetSurah | src/components/QuranProgressTracker.tsx:200 | only the surah changes |
| QuranProgressTracker.Tracker.SetAyah | src/components/QuranProgressTracker.tsx:217 | only the ayah changes |
| QuranTracker.Percent | src/components/QuranTracker.tsx:85-87 | each percentage is the nearest integer to x/total times 100 |
| QuranTracker.PageProgress | src/components/QuranTracker.tsx:85 | the page share of 604; ranges proved by ShownPercentages |
| QuranTracker.JuzProgress | src/components/QuranTracker.tsx:86 | the juz share of 30; ranges proved by ShownPercentages |
| QuranTracker.SurahProgress | src/components/QuranTracker.tsx:87 | the surah share of 114; ranges proved by ShownPercentages |
| QuranTracker.PercentBounds | src/components/QuranTracker.tsx:85-87 | up to its total a percentage lies in 0..100, and it is 100 at the total |
| QuranTracker.PercentExceeds100 | src/components/QuranTracker.tsx:85 | nothing caps the percentage: it exceeds 100 exactly when x is at least 201/200 of the total |
| QuranTracker.ShownPercentages | src/components/QuranTracker.tsx:85-87 | within the inputs' ranges the juz and surah percentages lie in 1..100, the page percentage in 0..100 and is 0 exactly for pages 1-3, and each is 100 at its maximum |
| QuranTracker.Tracker.constructor | src/components/QuranTracker.tsx:47-51 | the tracker starts at juz, page, surah and ayah 1 with an empty stamp |
| QuranTracker.Tracker.Load | src/components/QuranTracker.tsx:54-62 | the fields show the saved record, or the default stamped with the time when none is saved |
| QuranTracker.Tracker.HandleSave | src/components/QuranTracker.tsx:64-83 | the new store is the old one with only the progress key set to the four fields stamped with the time, so the fasting list is kept; the shown stamp is the saved one |
| QuranTracker.Tracker.SetJuz | src/components/QuranTracker.tsx:135 | only the juz changes |
| QuranTracker.Tracker.SetPage | src/components/QuranTracker.tsx:151 | only the page changes |
| QuranTracker.Tracker.SetSurah | src/components/QuranTracker.tsx:167 | only the surah changes |
| QuranTracker.Tracker.SetAyah | src/components/QuranTracker.tsx:183 | only the ayah changes |
| QuranData.TableShape | src/hooks/useQuranData.ts:20-24 | the table has 604 entries, entry i is page i+1, only the first has the bare opening formula, and each later one adds its page number |
| QuranData.AyahInRange | src/hooks/useQuranData.ts:26 | the ayah cycles through 1..5 with the index |
| QuranData.SurahLayout | src/hooks/useQuranData.ts:25 | surah numbers never decrease and change every five pages, and the last page gets surah 121, past the 114 surahs |
| QuranData.JuzLayout | src/hooks/useQuranData.ts:27 | juz numbers never decrease, juz j covers pages 20j-19..20j, and pages 601-604 get juz 31 |
| QuranData.PageEntry | src/hooks/useQuranData.ts:20-27 | the generated entry for index i; its fields are stated by TableShape, AyahInRange, SurahLayout and JuzLayout |
| QuranData.QuranTable | src/hooks/useQuranData.ts:20 | the 604 generated entries, one per index; shape proved by TableShape |
| Dashboard.StatusClassification | src/components/Dashboard.tsx:48-53 | for an ordered window: upcoming iff before the start, ongoing iff inside the closed window, completed iff after the end |
| Dashboard.StatusExactlyOne | src/components/Dashboard.tsx:48-53 | exactly one status holds, and "ongoing" never holds for a window whose end precedes its start |
| Dashboard.Status | src/components/Dashboard.tsx:48-53 | ongoing inside the closed window, completed after it, upcoming otherwise; classified by StatusClassification and StatusExactlyOne |
| Dashboard.RamadanDay | src/components/Dashboard.tsx:134 | the day figure is the ceiling of the days elapsed since the start: the least integer whose days cover the elapsed time |
| Dashboard.DaysRemaining | src/components/Dashboard.tsx:140 | thirty less the day figure; lies in 1..30 while ongoing by OngoingDayRange |
| Dashboard.OngoingDayRange | src/components/Dashboard.tsx:132-140 | while ongoing the day figure lies in 0..29 and is 0 exactly at the opening instant; the days remaining lie in 1..30 |
| Dashboard.DayAgreesWithHijriDate | src/components/Dashboard.tsx:134 | the banner's Ramadan day exceeds the dashboard's by one exactly when a whole number of days has elapsed, and equals it otherwise |
| Dashboard.LoadSummary | src/components/Dashboard.tsx:28-41 | the counts are the lengths of the stored and the missed lists; juz and page come from saved progress and stay 0 without it |
| Dashboard.MissedWithinTracked | src/components/Dashboard.tsx:30-33 | the missed count never exceeds the tracked count |
| HijriDate.MonthIndex | src/components/HijriDate.tsx:49 | the index is always in 0..11, equals the month less one for months 1..12, and is clamped at either end |
| HijriDate.MonthName | src/components/HijriDate.tsx:49 | the table name at the clamped index; RamadanIsTheNinthMonth says when it is "Ramadan" |
| HijriDate.RamadanIsTheNinthMonth | src/components/HijriDate.tsx:33-46 | index 8 of the table is "Ramadan", and the name is "Ramadan" exactly for computed month 9 |
| HijriDate.IsRamadan | src/components/HijriDate.tsx:53-56 | the closed window from the March 11 midnight to the April 9 midnight; LastDayMostlyOutside shows the later part of April 9 is outside |
| HijriDate.RamadanDay | src/components/HijriDate.tsx:58-63 | 0 outside the window; inside, one more than the whole days elapsed since the start |
| HijriDate.RamadanDayRange | src/components/HijriDate.tsx:53-63 | the day is 0 outside the window and in 1..30 inside, with 1 at the opening instant and 30 at the closing one |
| HijriDate.LastDayMostlyOutside | src/components/HijriDate.tsx:53-56 | the window closes at midnight at the start of April 9, so any later instant that day is outside it |
| HijriDate.GregorianToHijri | src/components/HijriDate.tsx:65-72 | the month is the clamped index of the computed month, in 0..11, with its table name; day and year are passed through; the flag holds exactly inside the window; the Ramadan day is the window's day number, 0 outside and in 1..30 inside |
| AdhkarSection.MockAdhkar | src/components/AdhkarSection.tsx:37-183 | "morning" lists ids 1-7, "evening" ids 8-13, and any other category the general ids 14-19 |
| AdhkarSection.ListsAreWellFormed | src/components/AdhkarSection.tsx:38-178 | no id occurs twice across the three lists, and every repeat count is at least 1 |
| AdhkarSection.CategoryForTab | src/components/AdhkarSection.tsx:199-202 | tab 0 is morning, tab 1 evening and any other tab general (each an if-and-only-if) |
| AdhkarSection.HeaderLabel | src/components/AdhkarSection.tsx:240 | the label is the whole text up to 40 characters, otherwise its first 40 characters and "...", so at most 43 |
| AdhkarSection.RepeatText | src/components/AdhkarSection.tsx:260 | the line shows exactly when the repeat count exceeds 1, and the number in it reads back as the count |
| AdhkarSection.RepeatBadge | src/components/AdhkarSection.tsx:242-246 | the badge shows under the same condition, and its number reads back as the count |
| AdhkarSection.Section.constructor | src/components/AdhkarSection.tsx:186-187 | the panel starts on "morning" with the first item expanded |
| AdhkarSection.Section.HandleTabChange | src/components/AdhkarSection.tsx:199-206 | the category follows the tab, and the expanded items reset to the first |
| AdhkarSection.Section.HandleAccordionChange | src/components/AdhkarSection.tsx:234 | the expanded items become the reported indices, and the category is kept |

## Left out

- Rendering is not modelled: JSX, Chakra UI, animations, colour-mode values, modals, toasts and notifications. Where a handler decides whether to show a toast, the decision is modelled (`ToastOnCompletion`, `HandleIncrement`'s flag); the toast itself is not.
- Fetching Hijri dates from the web date-conversion service, and react-query caching, are not modelled. The calendar's map of fetched Hijri dates is not modelled either; `FormatHijriDay` takes the day number as a natural.
- Timers are not modelled: the reader's one-second fake loading delay, the good-deeds midnight refresh and the Hijri banner's daily interval.
- The Julian-day and Hijri arithmetic of `gregorianToHijri` uses floating point and is not modelled. Its computed day, month and year are inputs to `HijriDate.GregorianToHijri`.
- JavaScript `Date` is abstracted:
  - Instants are integer milliseconds, calendar days are day numbers, and both window constants are taken as local midnight in UTC.
  - The `toISOString` date keys are opaque strings, and time zones and daylight-saving shifts are ignored.
  - The mapping from a day number to its civil date is taken as given: `FormatGregorianDate` formats a civil date with non-negative year.
- JSON serialisation and `localStorage` are an in-memory map, with serialisation as the identity.
- Values that do not have the stored shape, and keys other than the two modelled ones, are not interpreted.
- The storage functions that the components call but that are not part of the storage service are not modelled: `getDhikrList`, `updateDhikrCount`, `getDailyGoodDeeds`, `getCompletedDeeds`, `markDeedCompleted`, `getGoodDeedStreak`, `resetAllProgress` and the settings functions. Their results are inputs where a handler uses them, such as the loaded deeds and the streak read back after a toggle.
- The settings page, routing, layout and theme are not modelled, and neither is the static dua table.
- The adhkar entries keep their id, reference and repeat count only. The Arabic texts and translations are not reproduced, and `HeaderLabel` works on any string.
- `HeaderLabel` counts characters, where the source counts UTF-16 code units. The two agree for the Arabic texts, which lie in the Basic Multilingual Plane.
- React effects are modelled as explicit calls. The reader's auto-save effect is the method `Reader.AutoSave`, which runs after the handlers that change the position rather than being triggered by them.
- The reader's "Save Manual Progress" button (src/components/QuranReader.tsx:290-307) writes the same record as the bookmark button, so `Reader.HandleBookmark` models both.
- The number inputs may pass non-integer or `NaN` values while a user types. The model takes integers, and the inputs' min/max clamping on blur is not modelled.
- The percentages divide in floating point before rounding, and the model divides exactly. For the fixed divisors 604, 30 and 114 (the Quran percentages) no exact half can arise, so `Math.round` gives the same result either way.
- GoodDeedsChallenge.Progress: divides exactly and rounds the exact quotient, while the source computes `(completed / deeds) * 100` in floating point. For a divisor such as 40 an exact half can occur and the float can fall just below it: with 23 of 40 deeds done the source computes 57.49999999999999 and shows 57, while the model gives 58. The model does not capture this floating-point rounding.
- `OrdinalSuffix` takes a natural. The service that supplies Hijri days may deliver them as strings, which is not modelled.
- `DhikrReminders.Reminders.HandleIncrement` persists through `updateDhikrCount`, whose body is not part of this model. The method returns the value passed to it instead.
