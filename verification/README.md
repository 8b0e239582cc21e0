# Medication tracker — a Dafny model

This project models the logic of a single-page medication tracker. The app
keeps two collections in memory, the medications and the dose log, and
changes them through four operations:

- add a medication;
- patch a medication by id;
- delete a medication together with its log entries;
- mark a dose as taken, an upsert keyed by (medication id, date, time).

Everything else the app shows is derived from those two collections:

- today's schedule, with taken and overdue flags, sorted by time;
- a seven-day adherence window;
- per-medication dose counts and mood averages by date;
- side-effect frequencies and the most common side effect;
- category counts, upcoming refills and the number of active medications;
- pairwise drug-interaction findings against a fixed table;
- the add-medication form's validation and its list of time slots;
- the once-a-minute reminder rule, the voice-command test and the drag clamp.

Modules:

- `Domain`: the `Medication` and `MedicationLog` records, slot and taken counts, and the percentage rule.
- `Seqs`: `filter`/`map`/`reduce`/`flatMap` over sequences, with their algebra.
- `Text`: ASCII lower-casing, `trim`, `includes`, decimal digits and `padStart`.
- `Sorting`: the stable comparator sort of `Array.prototype.sort`, as an insertion sort over a total preorder.
- `Groups`: the "reduce into an object" folds, as ordered association lists.
- `Store`: the app's state, as the class `MedicationStore` with sequence fields, and the pure functions its methods are proved against.
- `Schedule`, `Analytics`, `Insights`, `Interactions`, `MedicationForm`, `Reminder`: one module per component.

Each operation that updates state in place is a method of a class. These are
`MedicationStore`, the form's `AddMedicationDialog` and the reminder's
`ReminderState`. Each method is proved against a function of the old state.
The interaction checker's nested loop is a method with loop invariants,
proved equal to a recursive specification. The derived views are functions,
and lemmas state what they compute.

Inputs that come from the environment are parameters:

- "now" is a number of milliseconds: from local midnight in the schedule, on the date parser's scale in the insights;
- "today" is the log's date string;
- the seven-day window takes day numbers and a function that prints a day as a date string;
- date parsing is a function from string to an optional millisecond count;
- a new medication's id and the `takenAt` stamp are arguments.

## Model

| member | source | states |
|---|---|---|
| Domain.Percentage | app/page.tsx:127 | The percentage is 0 when the whole is 0. Otherwise it is at most 100 exactly when part <= whole, and exactly 100 when part == whole. It is 0 exactly when the part or the whole is 0. |
| Store.WithId | app/page.tsx:78-82 | The new record has the supplied id, and all its other fields are the submitted draft's. |
| Store.Merge | app/page.tsx:87 | Spreading an empty patch over a record gives back the record. |
| Store.MergeFields | app/page.tsx:87 | For each of the twelve fields, the id included: a field present in the patch takes the patch's value, an explicit `undefined` included, and a field absent from the patch keeps the record's value. |
| Store.MergeIdempotent | app/page.tsx:87 | Applying the same patch twice gives the same record as applying it once. |
| Store.MergeThen | app/page.tsx:87 | Two patches applied in turn act as one combined patch in which the later value of each field wins. |
| Store.UpdateMedications | app/page.tsx:86-88 | The list keeps its length and order. Records with another id are unchanged. Every record with the id is the record merged with the patch. |
| Store.UpdateUnknownId | app/page.tsx:86-88 | An id that no record has leaves the list identical. |
| Store.UpdateIdempotent | app/page.tsx:86-88 | Repeating an update changes nothing more. |
| Store.RemoveMedication | app/page.tsx:91 | No record with the id remains, and every record with another id remains. |
| Store.RemoveLogsOf | app/page.tsx:92 | No log entry of the deleted medication remains, and every other entry remains. |
| Store.DeleteKeepsOrder | app/page.tsx:90-93 | The surviving medications and log entries keep their relative order. Deleting twice is the same as deleting once. |
| Store.FindByKey | app/page.tsx:107 | The lookup is absent exactly when no entry has the (medication, date, time) key. Otherwise it is the first entry with that key. |
| Store.RestampMatching | app/page.tsx:110-114 | The log keeps its length. Entries without the key are unchanged. Every entry with the key becomes taken and carries the supplied stamp, mood and side effects. |
| Store.MarkTakenAppends | app/page.tsx:96-116 | With no entry for the key, the log grows by exactly one entry at the end. That entry is taken, with the supplied mood and side effects, and the earlier entries are unchanged. |
| Store.MarkTakenUpdates | app/page.tsx:107-114 | With an entry for the key, the log keeps its length. Every matching entry is taken with the supplied mood and side effects, even absent ones. Every other entry is unchanged. |
| Store.MarkTakenFinds | app/page.tsx:106-118 | After a mark, the first entry for the key is the new taken entry. |
| Store.MarkTakenOtherKeys | app/page.tsx:106-118 | A mark does not change what any other key looks up. |
| Store.MarkTakenKeepsKeysUnique | app/page.tsx:106-118 | If no two log entries shared a key before a mark, none do after it. |
| Store.MarkTakenTwice | app/page.tsx:106-118 | Marking the same key twice leaves the log of a single mark with the second call's values, so the log has the same length as after one mark. |
| Store.TodayStats | app/page.tsx:121-130 | `total` is the number of (medication, time) slots and `taken` the number of taken log entries dated today. The percentage is 0 when there are no slots and never negative. When there are slots, it is at most 100 exactly when taken <= total. |
| Store.MedicationStore.constructor | app/page.tsx:42-43 | The store starts with the given medications and logs. |
| Store.MedicationStore.AddMedication | app/page.tsx:78-84 | The medications grow by one: the old list, then the draft with the supplied id. The logs are unchanged. |
| Store.MedicationStore.UpdateMedication | app/page.tsx:86-88 | The medications become `UpdateMedications` of the old list. The logs are unchanged. |
| Store.MedicationStore.DeleteMedication | app/page.tsx:90-93 | The medication and its log entries are removed, as `RemoveMedication` and `RemoveLogsOf` describe. Afterwards no medication and no entry refers to the id. Unique log keys stay unique. |
| Store.MedicationStore.MarkAsTaken | app/page.tsx:95-119 | The logs become `MarkTaken` of the old logs. The medications are unchanged. Unique log keys stay unique. |
| Schedule.Slots | components/today-schedule.tsx:50-52 | There is one slot per (medication, time) pair, as many as the medications' times together. |
| Schedule.SlotsComplete | components/today-schedule.tsx:50-66 | Every time of every medication yields a slot, and every slot is a medication's own time. |
| Schedule.SlotMinutes | components/today-schedule.tsx:55-57 | A "DD:DD" time reads as hours*60+minutes. Every other string reads as no time. |
| Schedule.MakeItem | components/today-schedule.tsx:52-64 | `taken` holds exactly when the first log entry for the medication, today and the time is taken. `overdue` holds exactly when the dose is not taken and now is strictly later than the slot's time, so overdue implies not taken. |
| Schedule.ByTimeIsTotalPreorder | components/today-schedule.tsx:67 | Ordering items by their time string is a total preorder. |
| Schedule.ScheduleShape | components/today-schedule.tsx:50-67 | The schedule has one item per slot and is a permutation of the slots, duplicates kept. It is sorted by time, and items with equal times keep their input order. |
| Schedule.ItemOfSomeSlot | components/today-schedule.tsx:50-66 | Every schedule item is the item built for some slot. |
| Schedule.ScheduleItemState | components/today-schedule.tsx:53-63 | Every item's taken and overdue flags follow the log and the clock as `MakeItem` states. Its medication is in the list, and its time is one of that medication's times. |
| Schedule.AspirinAtEight | components/today-schedule.tsx:50-67 | At 08:00 with an empty log, one medication taken at 08:00 and 20:00 gives two items in time order, neither taken nor overdue. Today's statistics read 0 of 2. |
| Schedule.ConfirmTaken | components/today-schedule.tsx:73-89 | With an item selected, the request carries the item's medication id, today's date, the item's time and the chosen mood and side effects. The dialog is then reset to no selection, mood 3 and no side effects. With nothing selected, nothing happens. |
| Schedule.ConfirmedDoseIsTaken | components/today-schedule.tsx:73-75 | Once the confirmed request is applied to the log, every schedule item for that medication and time is taken and not overdue. |
| Schedule.ToggleSideEffect | components/today-schedule.tsx:241-246 | Ticking appends the effect. Unticking removes every copy of it. |
| Schedule.UntickKeepsOthers | components/today-schedule.tsx:245 | Unticking keeps every other effect, as often as it occurred and in order. |
| Sorting.Sort | components/today-schedule.tsx:67 | The sort returns a permutation of its input. |
| Sorting.SortSorted | components/today-schedule.tsx:67 | The sort's output is ordered by the comparator. |
| Sorting.SortStable | components/today-schedule.tsx:67 | For every key class, the sorted list holds the class's elements in their input order. |
| Sorting.SortHeadIsFirstLeast | components/health-insights.tsx:32 | The first element after sorting is a least element of the input, and the first such element in input order. |
| Groups.Distinct | components/health-insights.tsx:24-30 | The distinct keys, listed once each, are exactly the keys of the input. |
| Groups.TallyKeys | components/health-insights.tsx:24-30 | Counting into an object lists each key once, in order of first occurrence. |
| Groups.TallyCount | components/health-insights.tsx:26 | Each key's count is the number of its occurrences. |
| Groups.TallyTotal | components/health-insights.tsx:24-30 | The counts add up to the number of keys counted. |
| Groups.GroupKeys | components/analytics-dashboard.tsx:54-62 | Pushing into per-key arrays creates one group per distinct key, in order of first occurrence. |
| Groups.GroupValues | components/analytics-dashboard.tsx:57-58 | Each group holds exactly the values paired with its key, in input order. |
| Groups.GroupsNonEmpty | components/analytics-dashboard.tsx:57-58 | No group is empty. |
| Analytics.Last7Days | components/analytics-dashboard.tsx:17-21 | There are seven consecutive days, the oldest first and today last. |
| Analytics.Day | components/analytics-dashboard.tsx:23-33 | A day's total is the number of slots. The day's adherence is 0 when there are no slots. When there are slots, it is at most 100 exactly when taken <= total, and 0 exactly when nothing was taken or there are no slots. |
| Analytics.AdherenceByDay | components/analytics-dashboard.tsx:23-33 | There is one summary per date, in date order, and every day has the same total. |
| Analytics.WindowEndsToday | components/analytics-dashboard.tsx:17-33 | The window's last day agrees with today's statistics on the page. |
| Analytics.WindowUniform | components/analytics-dashboard.tsx:24-26 | All seven days have the same total, the current number of slots. |
| Analytics.OverallAdherenceShare | components/analytics-dashboard.tsx:35 | The mean of the seven daily percentages is 0 without slots. Otherwise it is the taken doses of the week as a percentage of seven days' slots. |
| Analytics.OverallAdherenceBounds | components/analytics-dashboard.tsx:35 | When no day has more taken doses than slots, the overall adherence lies in [0, 100]. |
| Analytics.StatOf | components/analytics-dashboard.tsx:38-49 | `totalDoses` counts the medication's log entries and `takenDoses` the taken ones. takenDoses <= totalDoses, and missedDoses is their difference. Adherence lies in [0, 100]: it is 0 without doses and 100 exactly when no dose was missed. |
| Analytics.MedicationStats | components/analytics-dashboard.tsx:37-50 | There is one entry per medication, in medication order. |
| Analytics.NewDoseCounts | components/analytics-dashboard.tsx:37-50 | A dose marked for a new key adds one total and one taken dose to its medication, without changing the missed doses. Every other medication's entry is unchanged. |
| Analytics.MoodTrendsGroups | components/analytics-dashboard.tsx:52-62 | Each date with a non-zero mood appears once, in order of first appearance. It holds exactly that date's non-zero moods, in log order, and no group is empty. |
| Analytics.MoodPairsOn | components/analytics-dashboard.tsx:52-58 | The (date, mood) pairs of one date carry exactly that date's non-zero moods, in log order. |
| Analytics.AvgMoodByDay | components/analytics-dashboard.tsx:64-67 | There is one average per date of the mood groups, with the same dates in the same order. |
| Analytics.AvgMoodIsMean | components/analytics-dashboard.tsx:64-67 | Each date's average is the arithmetic mean of that date's non-zero moods, of which there is at least one. |
| Analytics.AvgMoodOnScale | components/analytics-dashboard.tsx:64-67 | Moods from 1 to 5 give averages from 1 to 5. |
| Insights.AdherenceRate | components/health-insights.tsx:17 | The rate lies in [0, 100] and is 0 without logs. It is 100 exactly when there are logs and all are taken, and 0 exactly when none is taken. |
| Insights.MoodData | components/health-insights.tsx:19 | Only truthy moods are kept, so none is 0. |
| Insights.AvgMoodRange | components/health-insights.tsx:19-20 | The average is 0 when no log has a truthy mood. With moods from 1 to 5 it otherwise lies in [1, 5]. |
| Insights.SideEffectsFrequencyCounts | components/health-insights.tsx:22-30 | Every reported effect has one entry, in order of first report. Its count is the number of times it was reported, and the counts add up to the number of reports. |
| Insights.MostCommonIsFirstMaximum | components/health-insights.tsx:32 | There is no most common effect exactly when none was reported. Otherwise it is an entry with the highest count, and the first such entry in the table's order. |
| Insights.SortedHeadIsFirstMaximum | components/health-insights.tsx:32 | Sorting the frequency table by descending count puts first the first entry with the highest count. |
| Insights.CategoryCountsAddUp | components/health-insights.tsx:34-40 | Each category is listed once and counts its medications. The counts add up to the number of medications. |
| Insights.CeilDiv | components/health-insights.tsx:46-48 | `Math.ceil(a / b)` for b > 0 is the least c with a <= b*c. |
| Insights.BySoonestIsTotalPreorder | components/health-insights.tsx:51 | Ordering by days until refill is a total preorder. |
| Insights.UpcomingRefillsSpec | components/health-insights.tsx:42-51 | Listed: exactly the medications with a parsable refill date at most seven days away, overdue ones included, each with its rounded-up day count. The list is a permutation of those, soonest first, with equal days kept in medication order. |
| Insights.ActiveMedications | components/health-insights.tsx:59-60 | The active count is at most the total. It equals the total exactly when every medication is active, and is 0 exactly when none is. |
| Insights.AddingOpenEndedMedication | components/health-insights.tsx:60 | A medication without an end date is always active, so adding one raises the active count by one. |
| Interactions.FindInteractionSpec | components/interaction-checker.tsx:59-63 | The lookup is absent exactly when no table entry matches the pair in either order. Otherwise it is the first matching entry. |
| Interactions.FindSymmetric | components/interaction-checker.tsx:59-63 | Looking up (a, b) and (b, a) gives the same entry. |
| Interactions.Check | components/interaction-checker.tsx:56-70 | A finding for positions i < j carries the display names of medications i and j. |
| Interactions.FindInteractions | components/interaction-checker.tsx:51-76 | The nested loop's result equals the findings of every pair i < j, in i-then-j order (`Findings`). |
| Interactions.ScanRow | components/interaction-checker.tsx:55-72 | The inner loop collects the findings of the pairs (i, j) for j > i, in order of j. |
| Interactions.RowsMembers | components/interaction-checker.tsx:54-72 | For any pair lookup, a report is among the findings of the first i rows exactly when the lookup gives it for some pair a < b with a < i. |
| Interactions.RowsPrefix | components/interaction-checker.tsx:54-72 | The findings of the first i rows are a prefix of the findings of any later row count: the outer loop only appends. |
| Interactions.RowsLength | components/interaction-checker.tsx:54-72 | The first i rows hold at most as many findings as there are pairs a < b with a < i. |
| Interactions.FindingsSpec | components/interaction-checker.tsx:51-76 | A report is found exactly when some pair a < b reports it, and there are at most n(n-1)/2 findings. Every finding is a table entry with only its two names replaced. |
| Interactions.PairCountClosed | components/interaction-checker.tsx:54-55 | Twice the number of pairs a < b < m with a < i is i(2m-i-1). |
| Interactions.RiskCountsBound | components/interaction-checker.tsx:78-79 | The high-risk and medium-risk counts together never exceed the number of findings. |
| Interactions.CountBySeverity | components/interaction-checker.tsx:78-79 | Without low-severity findings, the two counts add up to the number of findings. |
| Interactions.RiskCountsCoverAll | components/interaction-checker.tsx:24-46 | The built-in table has no low-severity entry, so every finding is counted as high or medium risk. |
| Interactions.PairRows | components/interaction-checker.tsx:54-72 | Two medications give exactly the finding of their one pair. |
| Interactions.ScenarioLookups | components/interaction-checker.tsx:24-46 | In the built-in table, aspirin with warfarin matches the first, high-severity entry in either order. Aspirin with ibuprofen matches nothing. |
| Interactions.PairReport | components/interaction-checker.tsx:56-70 | For two medications, the result is the lookup of their lower-cased names with the display names put back, or nothing. |
| Interactions.AspirinWarfarin | components/interaction-checker.tsx:51-76 | "Aspirin" then "Warfarin", in any capitalisation, give one high-risk finding that carries the display names. |
| Interactions.WarfarinAspirin | components/interaction-checker.tsx:59-63 | The reverse order gives the same finding, with the names in list order. |
| Interactions.AspirinIbuprofen | components/interaction-checker.tsx:51-76 | A pair absent from the table gives no finding. |
| MedicationForm.InitialForm | components/add-medication-dialog.tsx:42-51 | The form starts empty, with one empty time slot, today as start date and the first colour. |
| MedicationForm.RemoveSlot | components/add-medication-dialog.tsx:94-99 | Inside the list, exactly the slot at the index is dropped and the others keep their order. An index outside the list changes nothing. |
| MedicationForm.RemoveSlotCutsOut | components/add-medication-dialog.tsx:97 | Inside the list, dropping by index is cutting that one position out. |
| MedicationForm.RemoveAddedSlot | components/add-medication-dialog.tsx:87-99 | Removing the slot just added gives back the slots before it. |
| MedicationForm.ReplaceSlot | components/add-medication-dialog.tsx:101-106 | The list keeps its length. Only the slot at the index takes the new value. |
| MedicationForm.ReplaceSlotWrites | components/add-medication-dialog.tsx:104 | Writing a slot's own value changes nothing. Of two writes to one slot, the last stays. |
| MedicationForm.FilledTimes | components/add-medication-dialog.tsx:60 | A slot is kept exactly when it is not blank after trimming. None is kept exactly when all are blank. |
| MedicationForm.FilledTimesCounts | components/add-medication-dialog.tsx:60 | Each filled time is kept as many times as it occurs among the slots; blank ones never. |
| MedicationForm.FilledTimesInOrder | components/add-medication-dialog.tsx:60 | The kept slots keep their order. |
| MedicationForm.Validate | components/add-medication-dialog.tsx:53-70 | A medication is added exactly when name, dosage and frequency are non-empty and some slot is filled. Its times are `FilledTimes` of the slots: the filled slots, repeats included, in order. An empty end date becomes absent. Every other field passes through as typed. |
| MedicationForm.InitialFormRejected | components/add-medication-dialog.tsx:42-64 | A freshly opened form cannot be submitted. |
| MedicationForm.AddedSlotIgnored | components/add-medication-dialog.tsx:60-64 | An empty slot added at the end does not change what a submit adds. |
| MedicationForm.AddMedicationDialog.constructor | components/add-medication-dialog.tsx:42-51 | The dialog starts with the initial form. |
| MedicationForm.AddMedicationDialog.AddTimeSlot | components/add-medication-dialog.tsx:87-92 | The form gets one more, empty, slot at the end. Nothing else changes. |
| MedicationForm.AddMedicationDialog.RemoveTimeSlot | components/add-medication-dialog.tsx:94-99 | The slots become `RemoveSlot` of the old slots. Nothing else changes. |
| MedicationForm.AddMedicationDialog.UpdateTimeSlot | components/add-medication-dialog.tsx:101-106 | The slots become `ReplaceSlot` of the old slots. Nothing else changes. |
| MedicationForm.AddMedicationDialog.Submit | components/add-medication-dialog.tsx:53-85 | The submit returns `Validate` of the form. On success the form is reset to the initial form; otherwise it is unchanged. |
| Reminder.TimeKey | components/voice-reminder.tsx:103 | For hours and minutes below 100, the key has five characters with ':' in the middle. |
| Reminder.TimeKeyRoundTrip | components/voice-reminder.tsx:103 | Read as a schedule time, the key of hours:minutes gives that minute of the day. |
| Reminder.TimeKeyInjective | components/voice-reminder.tsx:103 | Different minutes of the day have different keys. |
| Text.TwoDigitsIsPadded | components/voice-reminder.tsx:103 | The two-digit form is the decimal string padded to two places with '0'. |
| Reminder.DueMedications | components/voice-reminder.tsx:108 | A medication is due exactly when its times contain the key. None is due exactly when no medication has the key. |
| Reminder.DueInListOrder | components/voice-reminder.tsx:108 | The due medications keep their list order. |
| Reminder.ReminderStep | components/voice-reminder.tsx:99-111 | Nothing is announced when auto reminders or voice are off, or when the key equals the last reminder's key. Otherwise the due medications are announced. The last key moves to the current key exactly when something is announced. |
| Reminder.NoRepeatWithinMinute | components/voice-reminder.tsx:106 | After a reminder for a key, a second run at that key announces nothing, whatever the medications are by then. |
| Reminder.SecondRunSilent | components/voice-reminder.tsx:106 | A second run in the same minute, on the same list, announces nothing. |
| Reminder.ReminderState.constructor | components/voice-reminder.tsx:22 | No reminder has been given yet. |
| Reminder.ReminderState.CheckForScheduledMedications | components/voice-reminder.tsx:99-140 | The method returns the announced medications. The new last key is what `ReminderStep` gives for the old last key and the current time's key. |
| Reminder.ReminderCommandIgnoresCase | components/voice-reminder.tsx:177-181 | The keyword test gives the same answer on the lower-cased transcript. |
| Reminder.VoiceCommand | components/voice-reminder.tsx:176-197 | A transcript is handled exactly when it contains "remind me" or "medication", ignoring case. It then answers with exactly the medications due at the current key. |
| Reminder.Clamp | components/voice-reminder.tsx:59-60 | The result is never negative. It is at most `max` when max >= 0, 0 when max < 0, and the value itself when the value lies in [0, max]. |
| Reminder.ClampIdempotent | components/voice-reminder.tsx:59-60 | Clamping twice is clamping once. |
| Reminder.DragPosition | components/voice-reminder.tsx:47-64 | The card's corner stays at non-negative coordinates and inside the window when the window is larger than the card. A position already inside is kept. |
| Text.ToLowerSpec | components/interaction-checker.tsx:56-57 | Lower-casing maps each character on its own and leaves no upper-case ASCII letter. |
| Text.ToLowerIdempotent | components/interaction-checker.tsx:56-57 | Lower-casing twice is lower-casing once. |
| Text.Trim | components/add-medication-dialog.tsx:60 | The trimmed string occurs in the original, has no white space at either end, and is empty exactly when the original is all white space. |
| Text.TrimCutsOnlyWhitespace | components/add-medication-dialog.tsx:60 | Trimming cuts white space from the two ends and nothing else: every character before and after the trimmed string in the original is white space. |

## Left out

- Persistence: loading from and saving to `localStorage`, and `JSON.parse`. The two collections are the store's initial state.
- Clocks: `new Date()`, `toISOString`, `setHours` and `Date.now()` are not modelled. "Now", "today", the id and the `takenAt` stamp are parameters. Ids are not shown unique, because the app does not make them so.
- The UTC date used for "today" against the local time used for "overdue" is not reconciled. Both are given independently.
- Floating point: percentages and averages are exact `real`s, with no rounding. Drag coordinates are integers.
- `localeCompare` is modelled as plain code-point order on strings. This matches it on the zero-padded "HH:MM" times the form produces.
- Object key order: the app's counting and grouping objects are modelled as lists in order of first insertion. JavaScript lists integer-like keys such as "3" first, in numeric order. That order only matters for the tie-break of the most common side effect.
- `toLowerCase` is modelled on the ASCII letters only. `trim` removes the ECMAScript white space and line terminators, with the space separators of Unicode category Zs listed as they stand today.
- Schedule.SlotMinutes: only "DD:DD" times are read, and any other string counts as never overdue. The app reads some other strings as valid times: `split(":").map(Number)` turns "8:00", " 8:00" and "08:00:30" into 8 and 0, so such slots can become overdue in the app. The form enters times through a time input (components/add-medication-dialog.tsx:163), which produces "HH:MM".
- The interaction table is a parameter. `KnownInteractions` holds the app's three entries and is the one the app passes.
- Rendering, notifications, speech synthesis and recognition, `setInterval`/`setTimeout`, DOM listeners and `getBoundingClientRect` are not modelled. This includes the spoken reminder texts, the fixed dashboard figures and the recommendation list.
- components/medication-list.tsx is not part of this model. It only renders and forwards to update and delete.
- Store.TodayStats: the percentage is not bounded by 100, because taken doses can outnumber today's slots. Examples are entries of a medication whose times were later shortened, and duplicate keys from imported data.
- Interactions.FindInteractions: the inner `j` loop is written as a separate method, `ScanRow`, so that each loop has its own invariant.
- Insights.UpcomingRefillsSpec and Insights.ActiveMedications: an unparsable date is a parameter returning none, which stands for JavaScript's invalid date. It makes the refill filter and the "after now" test false, as `NaN` comparisons do.
