# Streakoholic: the streak and statistics engine, in Dafny

Streakoholic is a habit tracker. Each task keeps a list of completion records. From
that list the app derives the task's statistics: current streak, best streak, total
completions and completion rate. Several screens then chart, filter and summarise the
same records. This project models that engine and the small pieces of decision logic
and state in the screens, and proves what they compute.

What is modelled:

- **The task store** (`app/context/TaskContext.tsx`):
  - the add, update, delete, complete and uncomplete list transforms, on a `TaskStore` class whose `tasks` field they reassign;
  - the per-task statistics scan, as a loop proved against a specification function.
- **The analytics helpers** (`app/utils/data.ts`):
  - the named date windows;
  - the bucketed chart and its running total;
  - the weekday and hour patterns;
  - the aggregate over all tasks;
  - the label helpers.
- **The two screens that carry their own diverging copies of those helpers**: the dashboard (`app/screens/DashboardScreen.tsx`) and the per-task statistics screen (`app/screens/TaskStatsScreen.tsx`). Each copy is its own member, so lemmas can state where the copies agree and where they differ.
- **Decision logic and state in the interface**:
  - the streak badges of the task card and of the task header, and where they disagree;
  - the card's three-face flip state machine and its long-press;
  - the card's month calendar and week/month counts;
  - the 42-cell month grid of the calendar screen, its day press and month arrows;
  - the icon search filter and paging;
  - the de-duplicating colour list;
  - the new-task form's validation and defaults.

**Dates.** Time is one fixed zone with no daylight saving.
- A `DateTime` is a proleptic Gregorian calendar date plus milliseconds into the day.
- `Instant` counts milliseconds from 1970-01-01.
- `DayOfWeek` is 0 for Sunday.
- `subMonths` and `subYears` clamp the day to the end of the target month.
- Dates print as the ISO 8601 calendar date in extended format (section 5.2.1.1 of ISO 8601:2004) or as the `toISOString()` timestamp.
- String comparison is modelled code unit by code unit, and a lemma proves that it orders four-digit-year dates chronologically.

**Inputs.** The current time is a parameter of every operation that reads the clock.

**Where the model follows the code rather than the declared types.**
- `TaskStats` in `app/types/index.ts` declares neither `streakStatus` nor an optional `lastStreak`, yet the card and the header read both and `data.ts` writes them. The model gives the statistics an optional `streakStatus` and an optional `lastStreak`.
- `isTaskCompleted` is read from the task context by the calendar screen and the card, but the context neither declares nor provides it. The model takes it as a parameter `done`.

Module layout:

- One module per source file.
- `Calendar`, `DateText` and `Strings` model the date library, `toISOString`/`format`, and `trim`/`toLowerCase`/`includes`/`split`/`parseInt`.
- `Records` holds the data shapes.
- `Runs`, `Tally` and `Sorting` hold the streak runs, the count arrays and the stable sort.
- `Charts` holds the chart computation that `data.ts` and both screens share.

## Model

| member | source | states |
|---|---|---|
| Records.SumTimesConcat | app/context/TaskContext.tsx:151 | the `timesCompleted` total of two lists joined is the sum of their totals |
| Records.AllCompletions | app/screens/DashboardScreen.tsx:214-216 | every record of every task is in the flattened list, and the list holds nothing else |
| Runs.Steps | app/context/TaskContext.tsx:129-134 | one entry per adjacent pair of sorted records, true iff the second is exactly one day (86 400 000 ms) after the first |
| Runs.TrailingRunIsMaximal | app/context/TaskContext.tsx:134-141 | the trailing count of one-day steps is a block of one-day steps that ends the list and cannot be extended backwards |
| Runs.LongestRunIsMaximum | app/context/TaskContext.tsx:134-141 | the longest count is realised by some block of one-day steps, and no block is longer |
| Runs.TrailingWithinLongest | app/context/TaskContext.tsx:134-149 | the trailing run is never longer than the longest run |
| Tally.Zeros | app/utils/data.ts:110 | `Array(n).fill(0)`: n zeros, summing to 0 |
| Tally.AddAt | app/utils/data.ts:183 | `data[i] += w` changes slot i by w and no other slot |
| Tally.SumAddAt | app/utils/data.ts:183 | one increment raises the total by its weight, whichever slot it hits |
| Tally.PrefixSums | app/utils/data.ts:189-195 | entry i of the running totals is the sum of the entries through i |
| Tally.PrefixSumsMonotone | app/utils/data.ts:189-195 | with no negative counts the running totals never decrease |
| Tally.PrefixSumsEndAtTotal | app/utils/data.ts:189-195 | the last running total is the total |
| Tally.RunningTotals | app/utils/data.ts:189-195 | the `runningTotal` loop produces exactly the prefix sums |
| Sorting.InsertBy | app/context/TaskContext.tsx:116-118 | inserting adds exactly one element and keeps a key-ordered list key-ordered |
| Sorting.SortBy | app/context/TaskContext.tsx:116-118 | the sort is a permutation of its input, in non-decreasing order of parsed date |
| Sorting.SortedLast | app/context/TaskContext.tsx:146 | the last sorted record is a record of the input with the latest date |
| Sorting.SortedUnchanged | app/context/TaskContext.tsx:116-118 | a list already in date order comes back unchanged, so equal dates keep their order |
| Calendar.DaysInMonth | app/screens/TaskCalendarScreen.tsx:37 | 28 to 31 days; 29 exactly for February of a leap year, 28 exactly for February otherwise |
| Calendar.DayOfWeek | app/screens/TaskCalendarScreen.tsx:39 | `getDay()` is one of 0..6 |
| Calendar.DayOfWeekShift | app/utils/data.ts:106-109 | a date k days later falls k places further round the week |
| Calendar.DayNumberOrder | app/screens/TaskCalendarScreen.tsx:123-125 | day numbers follow calendar order, and equal day numbers mean the same date |
| Calendar.InstantOrder | app/utils/data.ts:174 | an earlier-or-equal instant is on an earlier-or-equal day, and equal instants are the same date-time |
| Calendar.NextDate | app/context/TaskContext.tsx:134 | the next calendar day is exactly one day number later |
| Calendar.PrevDate | app/utils/data.ts:107 | the previous calendar day is exactly one day number earlier |
| Calendar.AddDays | app/utils/data.ts:163 | `addDays(d, n)` is exactly n day numbers later |
| Calendar.AddDaysTo | app/components/TaskCard.tsx:325 | `addDays(t, n)` keeps the time of day and moves the instant by n whole days |
| Calendar.SubDays | app/utils/data.ts:105 | `subDays(t, n)` keeps the time of day and moves the instant back by n whole days |
| Calendar.StartOfDay | app/utils/data.ts:33 | `startOfDay(t)` is on t's date, at or before t and less than a day before it |
| Calendar.SubMonthsDate | app/utils/data.ts:121 | n months earlier, with the day clamped to the length of the target month |
| Calendar.SubMonths | app/utils/data.ts:121-123 | `subMonths(t, n)` keeps the time of day, moves the month index back by n, and keeps the day of the month unless the target month is shorter, when it becomes that month's last day |
| Calendar.SubYears | app/utils/data.ts:65 | `subYears(t, n)` keeps the month and the time of day, moves the year back by n, and keeps the day unless the target month is shorter (29 February becomes 28 February) |
| Calendar.SubMonthsEarlier | app/utils/data.ts:63 | going back a positive number of months goes back in time |
| Calendar.ElevenMonthsSpan | app/utils/data.ts:121 | the date eleven months back is between 1 and 337 days earlier |
| Calendar.StartOfMonth | app/screens/TaskCalendarScreen.tsx:38 | the first day of the same month |
| Calendar.MonthDayWeekday | app/screens/TaskCalendarScreen.tsx:101-106 | day k of a month falls k - 1 places after the month's first day in the week |
| Calendar.StartOfWeek | app/components/TaskCard.tsx:312 | `startOfWeek(t)` is a Sunday midnight, at or before t and less than a week before it |
| Calendar.SetHours | app/utils/data.ts:80 | `setHours(t, h)` keeps the date, sets the hour to h, and keeps the minutes, seconds and milliseconds |
| DateText.NatToString | app/utils/data.ts:232 | a non-empty run of decimal digits |
| DateText.YearText | app/utils/data.ts:241 | the year as printed; four zero-padded digits for years 0..9999 |
| DateText.IsoDate | app/screens/TaskCalendarScreen.tsx:40 | `yyyy-MM-dd` never contains `T` |
| DateText.IsoTimestamp | app/context/TaskContext.tsx:78 | `toISOString()` always contains `T` |
| DateText.StrTrichotomy | app/screens/TaskCalendarScreen.tsx:123-125 | of `a < b`, `a === b` and `a > b` on strings, exactly one holds |
| DateText.StrLessConcat | app/screens/TaskCalendarScreen.tsx:123 | comparing strings that start with equally long parts compares those parts first |
| DateText.IsoDateOrder | app/screens/TaskCalendarScreen.tsx:123-125 | with four-digit years, `yyyy-MM-dd` strings compare as the dates do, and are equal iff the dates are |
| DateText.Parse | app/utils/data.ts:173 | a bare `yyyy-MM-dd` parses to its midnight; a timestamp parses to itself |
| DateText.Format | app/utils/data.ts:108 | the display patterns print a non-empty text, with a comma only in `MMM d, yyyy` |
| Strings.Trim | app/screens/AddTaskScreen.tsx:52-58 | `trim()` returns a substring that is white space at neither end; it is empty iff the input is all white space |
| Strings.TrimIdempotent | app/screens/AddTaskScreen.tsx:58 | trimming a trimmed string changes nothing |
| Strings.ToLower | app/components/IconPicker.tsx:90-94 | `toLowerCase()` maps each character to its lower case |
| Strings.ToLowerIdempotent | app/components/IconPicker.tsx:90-94 | lower-casing twice is lower-casing once |
| Strings.Contains | app/components/IconPicker.tsx:95 | `includes(t)` holds iff t occurs at some index |
| Strings.ContainsEmpty | app/components/IconPicker.tsx:95 | the empty string is found in every string |
| Strings.Words | app/components/IconPicker.tsx:90 | `split(/\s+/).filter(Boolean)` gives non-empty words without white space; there are none iff the input is all white space |
| Strings.ParseInt | app/screens/AddTaskScreen.tsx:61-62 | `parseInt(s, 10)` is NaN exactly when no digit follows the leading white space and sign |
| Strings.ParseIntRoundTrip | app/screens/AddTaskScreen.tsx:61-62 | `parseInt(String(i), 10) == i` for every integer, negatives included |
| TaskContext.SortByDate | app/context/TaskContext.tsx:116-118 | the records, permuted into non-decreasing order of parsed date |
| TaskContext.ScanStreaks | app/context/TaskContext.tsx:125-143 | the loop's `tempStreak` ends as the trailing run of one-day steps, and `bestStreak` as the longest run |
| TaskContext.CalculateTaskStats | app/context/TaskContext.tsx:115-161 | the method computes exactly the statistics function StatsOf, whose properties the lemmas below prove |
| TaskContext.StatsOf | app/context/TaskContext.tsx:115-161 | the statistics of a record list; what they mean is stated by BestStreakIsLongestRun, CurrentStreakIsTrailingRun, RateIsRoundedPercentage and TotalAndLast |
| TaskContext.BestStreakIsLongestRun | app/context/TaskContext.tsx:120-143 | `bestStreak` counts one-day steps: some block of that many consecutive-day steps exists, none is longer, and zero or one record gives 0 |
| TaskContext.CurrentStreakIsTrailingRun | app/context/TaskContext.tsx:123-149 | `currentStreak` is positive iff the last sorted record's date text is today's `yyyy-MM-dd`; it then counts the records of the trailing run of consecutive days, which cannot be extended, and it is at most `bestStreak + 1` |
| TaskContext.RateIsRoundedPercentage | app/context/TaskContext.tsx:152 | the rate is the nearest whole percentage of total over 7 × number of tasks, rounding halves up; a full week is 100 |
| TaskContext.TotalAndLast | app/context/TaskContext.tsx:151-159 | `totalCompletions` is the `timesCompleted` sum; `lastCompleted` is absent iff there are no records, and otherwise is the date of a latest record |
| TaskContext.LatestRecord | app/context/TaskContext.tsx:146 | the last sorted record belongs to the input and no record is later |
| TaskContext.ThreeDayScenario | app/context/TaskContext.tsx:125-149 | three bare-day records on consecutive days ending today give a current streak of 3 and a best streak of 2 |
| TaskContext.FindTask | app/context/TaskContext.tsx:75 | `tasks.find` gives nothing iff no task has the id, and otherwise the first task with that id |
| TaskContext.NewTask | app/context/TaskContext.tsx:52-60 | the task `addTask` appends; TaskStore.AddTask states that the list grows by exactly this task |
| TaskContext.Updated | app/context/TaskContext.tsx:62-67 | `updateTask`'s map keeps the list's length |
| TaskContext.UpdateKeepsShape | app/context/TaskContext.tsx:62-67 | the ids and order are unchanged; every task with the id is replaced by the new one with a fresh `updatedAt`, and every other task is untouched; updating twice equals updating once |
| TaskContext.Removed | app/context/TaskContext.tsx:69-72 | `deleteTask` keeps exactly the tasks with another id |
| TaskContext.RemoveKeepsOrder | app/context/TaskContext.tsx:69-72 | deletion keeps order: deleting from a concatenation concatenates the results |
| TaskContext.RemoveAbsentUnchanged | app/context/TaskContext.tsx:69-72 | deleting an absent id changes nothing |
| TaskContext.NewCompletion | app/context/TaskContext.tsx:78-85 | the record `completeTask` appends carries the task's id, one completion, and the date's `toISOString()` text |
| TaskContext.Completed | app/context/TaskContext.tsx:74-95 | the list after `completeTask`; CompleteAppendsOne and CompleteKeepsOthers state its effect |
| TaskContext.CompleteAppendsOne | app/context/TaskContext.tsx:74-95 | the first task with the id gets exactly one more record: that task's id, one completion, the `toISOString()` of the date; its statistics are recomputed over the new list |
| TaskContext.CompleteKeepsOthers | app/context/TaskContext.tsx:74-95 | an unknown id changes nothing; otherwise the length is kept and tasks with other ids are untouched |
| TaskContext.FindsFirstWithId | app/context/TaskContext.tsx:75 | the lookup finds the first task carrying the id |
| TaskContext.WithoutText | app/context/TaskContext.tsx:102-104 | the filter keeps exactly the records whose date text differs from the given one |
| TaskContext.WithoutTextKeepsOrder | app/context/TaskContext.tsx:102-104 | the filter keeps order: filtering a concatenation concatenates the filtered parts |
| TaskContext.WithoutTextShorter | app/context/TaskContext.tsx:102-104 | the filter never lengthens the list |
| TaskContext.Uncompleted | app/context/TaskContext.tsx:97-113 | the list after `uncompleteTask`; UncompleteRemovesMatches and UncompleteKeepsOthers state its effect |
| TaskContext.UncompleteRemovesMatches | app/context/TaskContext.tsx:97-113 | the first task with the id keeps its id, keeps exactly its records whose date text is not the given date's `toISOString()`, and gets statistics recomputed over those records |
| TaskContext.UncompleteKeepsOthers | app/context/TaskContext.tsx:97-113 | an unknown id changes nothing, and tasks with other ids are untouched |
| TaskContext.CurrentExceedsBest | app/context/TaskContext.tsx:136-148 | as written, one bare-day record dated today gives a current streak of 1 and a best streak of 0 |
| TaskContext.IntendedBestCoversCurrent | app/context/TaskContext.tsx:134-149 | counting records rather than steps, the longest run exists, is maximal, and is never below the current streak |
| TaskContext.CompletingNeverStartsStreak | app/context/TaskContext.tsx:78-147 | as written, when a task's records are all timestamps, completing it leaves its current streak at 0 |
| TaskContext.TimestampsNeverToday | app/context/TaskContext.tsx:123-147 | records stored as timestamps never give a positive current streak |
| TaskContext.CompletingTodayStartsStreak | app/context/TaskContext.tsx:74-95 | storing the completed day as `yyyy-MM-dd` instead, completing a task today gives a current streak of at least 1 |
| TaskContext.DayRecordEndsToday | app/context/TaskContext.tsx:145-149 | bare-day records none later than today, plus one for today, give a current streak of at least 1 |
| TaskContext.TaskStore.constructor | app/context/TaskContext.tsx:26 | the store starts with no tasks |
| TaskContext.TaskStore.AddTask | app/context/TaskContext.tsx:52-60 | `addTask` appends exactly one new task, stamped with the current time |
| TaskContext.TaskStore.UpdateTask | app/context/TaskContext.tsx:62-67 | the new list is the map-by-id of the old one |
| TaskContext.TaskStore.DeleteTask | app/context/TaskContext.tsx:69-72 | the new list is the old one without the tasks carrying the id |
| TaskContext.TaskStore.CompleteTask | app/context/TaskContext.tsx:74-95 | the new list is the old one with one record appended to the found task and its statistics recomputed |
| TaskContext.TaskStore.UncompleteTask | app/context/TaskContext.tsx:97-113 | the new list is the old one with the matching records removed from the found task and its statistics recomputed |
| TaskContext.TaskStore.GetTaskStats | app/context/TaskContext.tsx:163-174 | the statistics of the first task with the id; all zeros when no task has the id |
| Charts.Dates | app/utils/data.ts:130 | one parsed date per record, in order |
| Charts.MinFromIsMinimum | app/utils/data.ts:43 | the running minimum is no later than the start value or any element, and is one of them |
| Charts.MaxFromIsMaximum | app/screens/TaskStatsScreen.tsx:62 | the running maximum is no earlier than the start value or any element, and is one of them |
| Charts.EarliestIsMinimum | app/utils/data.ts:134 | `Math.min` over the parsed dates is no later than any record and is one of their dates |
| Charts.LatestIsMaximum | app/screens/TaskStatsScreen.tsx:62 | `Math.max` over the parsed dates is no earlier than any record and is one of their dates |
| Charts.EarliestStep | app/utils/data.ts:43 | one more record replaces the running minimum only when it is strictly earlier |
| Charts.CeilDivBounds | app/utils/data.ts:137 | `Math.ceil(x / d)` is the least q with q·d ≥ x |
| Charts.GroupSize | app/utils/data.ts:140-156 | 1, 7, 30 or 90 days per bucket when the span is at most 30, 90 or 365 days, or longer |
| Charts.NumGroupsCoversSpan | app/utils/data.ts:158 | n buckets of the group size cover the span, and n - 1 do not |
| Charts.SparseLabelsShown | app/utils/data.ts:159-167 | only buckets 0, ⌊n/2⌋ and n - 1 are labelled, each with its first day in the span's pattern |
| Charts.WeekLabelIsWeekday | app/utils/data.ts:106-109 | column j is labelled with the weekday six minus j days before today |
| Charts.WeekLabelsEndToday | app/utils/data.ts:106-109 | seven labels, consecutive weekdays, the last one today's |
| Charts.MonthLabelShown | app/utils/data.ts:114-117 | column j is labelled iff 29 - j is a multiple of 5, with the `MMM d` of that day |
| Charts.MonthLabelToday | app/utils/data.ts:114-117 | the last of the 30 columns is labelled with today's `MMM d` |
| Charts.MonthLabelsEveryFifthDay | app/utils/data.ts:114-117 | thirty labels, non-blank every fifth column counting back from today |
| Charts.YearLabelIsMonth | app/utils/data.ts:122-125 | column j is labelled with the month eleven minus j months back |
| Charts.YearLabelsEndThisMonth | app/utils/data.ts:122-125 | twelve consecutive month names ending with the current month |
| Charts.Bucketed | app/utils/data.ts:172-186 | the buckets after the `forEach`, as long as the zeroed array |
| Charts.BucketStep | app/utils/data.ts:173-184 | one record adds its weight to its bucket when it is in the window and its index is in bounds, and otherwise changes nothing |
| Charts.BucketsAccountForWindow | app/utils/data.ts:172-186 | each record in the window lands in exactly one bucket or is dropped, so the buckets hold at most the window's weight, and exactly that when nothing is dropped |
| Charts.FixedFrameIndexInBounds | app/utils/data.ts:175-180 | week, month and year: every date in the window gets an in-bounds index |
| Charts.YearIndexInBounds | app/utils/data.ts:120-123 | year: the window opens at most 337 days back, so every date in it gets an index in 0..11 and none is dropped |
| Charts.AllIndexInBounds | app/utils/data.ts:181-182 | `all`: a date in the window and before the end gets an in-bounds index |
| Charts.AllBucketIndex | app/utils/data.ts:181 | the `all` index is the whole number of group periods since the start |
| Charts.ChartFor | app/utils/data.ts:97-197 | the chart for a frame: labels, buckets and optional running total; ChartShape, BucketsAccountForWindow, CumulativeIsPrefixSum and the counting lemmas below state what it holds |
| Charts.ChartShape | app/utils/data.ts:103-168 | labels and data always have equal length: 7, 30, 12, or `ceil(totalDays / groupSize)` for `all`; a chart fails only when its `all` start is at least a day after its end |
| Charts.CumulativeIsPrefixSum | app/utils/data.ts:189-195 | cumulative mode keeps the labels, turns the buckets into running totals that never decrease, and ends at the plain total |
| Charts.WindowWeightOfAll | app/utils/data.ts:172-186 | when every record is in the window, the window's weight is the weight of the whole list |
| Charts.FixedChartCountsWindow | app/utils/data.ts:172-186 | week, month and year: the buckets sum to exactly the weight of the records in the window |
| Charts.AllChartCountsEveryRecord | app/utils/data.ts:128-186 | `all`: when the start is no later than every record and every record is strictly before the end, the buckets hold every record |
| Charts.EarliestWindow | app/utils/data.ts:130-135 | records all before today lie in the window from the earliest of them to today |
| Charts.WeekColumnMislabels | app/utils/data.ts:105-176 | as written, a record from 11:00 yesterday seen at 10:00 today lands in the column labelled with today's weekday |
| Charts.WeekFirstDayCutShort | app/utils/data.ts:105-174 | as written, a record from 09:00 six days ago seen at 10:00 today is outside the week window |
| Charts.CalendarWeekColumnMatchesLabel | app/utils/data.ts:106-109 | with the window from midnight six days back and columns by calendar day, every record of the last seven days up to now gets a column labelled with its own weekday |
| Charts.PatternsOf | app/utils/data.ts:75-89 | 7 weekday slots and 24 hour slots |
| Charts.PatternStep | app/utils/data.ts:80-86 | an admitted record adds its `timesCompleted` to exactly one weekday slot and one hour slot |
| Charts.PatternTotals | app/utils/data.ts:75-87 | both pattern arrays sum to the admitted records' `timesCompleted`; with no filter, to all of it |
| Analytics.HourLabelsEverySixHours | app/utils/data.ts:23-30 | 24 labels, blank except `12am`, `6am`, `12pm`, `6pm` at 0, 6, 12, 18 |
| Analytics.HourOfDayLabels | app/utils/data.ts:23-30 | one label per hour of the day, 24 in all; HourLabelsEverySixHours says which are blank |
| Analytics.DateRangeOf | app/utils/data.ts:32-69 | the window `getDateRange` returns; DateRangeBounds states its ends |
| Analytics.GetDateRange | app/utils/data.ts:32-69 | the loop over every task's records computes the window DateRangeOf describes |
| Analytics.ScanEarliest | app/utils/data.ts:41-45 | the inner loop ends with the earliest date and with `hasCompletions` true iff the list was not empty |
| Analytics.MinFromConcat | app/utils/data.ts:40-46 | scanning the tasks' lists one after another finds the minimum of them all |
| Analytics.DateRangeBounds | app/utils/data.ts:32-69 | every window ends at today's midnight and starts no later; week spans exactly 7 days; `all` starts no later than every record, and with none spans 30 days |
| Analytics.GetCompletionPatterns | app/utils/data.ts:71-90 | the patterns of the records whose date, with the hour of `completedAt`, lies in the range |
| Analytics.CollectPatterns | app/utils/data.ts:75-89 | the pattern loop computes PatternsOf |
| Analytics.AddToPatterns | app/utils/data.ts:78-87 | one iteration of the loop is one PatternStep |
| Analytics.TodayAfterMidnightHourLeftOut | app/utils/data.ts:33-81 | against `getDateRange`'s windows, a record of today whose `completedAt` hour is 1 or later never reaches the patterns |
| Analytics.AllStartOf | app/utils/data.ts:128-135 | where the `all` chart starts: 30 days back without records, otherwise the earliest record's date, which EarliestIsMinimum shows is no later than any record and is one of them |
| Analytics.GetChartData | app/utils/data.ts:92-198 | `getChartData` is the shared chart with `all` starting at the earliest record (30 days back with none), each record adding `timesCompleted` |
| Analytics.BuildChart | app/utils/data.ts:97-197 | the `switch`, the bucket loop and the running total compute ChartFor |
| Analytics.AddToBucket | app/utils/data.ts:172-186 | one loop iteration is one BucketStep |
| Analytics.AggregateFrom | app/utils/data.ts:210-217 | the fold never changes `lastCompleted`, `lastStreak` or `streakStatus` |
| Analytics.CalculateAggregateStats | app/utils/data.ts:200-220 | the loop computes the fold from the defaults (zeros, `never_started`, `lastStreak` 0) |
| Analytics.Aggregate | app/utils/data.ts:210-217 | the `forEach` computes the fold |
| Analytics.WithStats | app/utils/data.ts:211 | the tasks that carry statistics, never more than all tasks |
| Analytics.WithStatsEmpty | app/utils/data.ts:211 | no task carries statistics iff the filtered list is empty |
| Analytics.AggregateCountsRecords | app/utils/data.ts:211-212 | tasks without statistics play no part, and `totalCompletions` counts records, not `timesCompleted` |
| Analytics.AggregateStreaksAreMaxima | app/utils/data.ts:214-215 | the streak fields are running maxima: at least the default and every task's figure, and equal to one of them |
| Analytics.RateIsHalvedAndOrdered | app/utils/data.ts:213 | as written, one task's rate comes out halved, and two tasks with different rates give different results in the two orders |
| Analytics.MeanRateOfEqualRates | app/utils/data.ts:213 | the mean of the rates gives the common rate back when every task with statistics has the same rate |
| Analytics.DateRangeLabel | app/utils/data.ts:222-242 | the label of a window; DateRangeLabelFormats states its three forms |
| Analytics.DateRangeLabelFormats | app/utils/data.ts:222-242 | the label carries a year (a comma) iff the years differ; it starts with the start's `MMM d` in one year, and within one month ends with the end's day number alone |
| Dashboard.Without | app/screens/DashboardScreen.tsx:400 | every occurrence of the id is dropped and all else kept |
| Dashboard.Toggle | app/screens/DashboardScreen.tsx:397-403 | the id ends selected iff it was not; other ids keep their state; an unselected id is appended at the end |
| Dashboard.ToggleTwice | app/screens/DashboardScreen.tsx:397-403 | toggling twice leaves the same ids selected |
| Dashboard.FilteredTasks | app/screens/DashboardScreen.tsx:139 | exactly the tasks whose id is selected |
| Dashboard.FilteredTasksConcat | app/screens/DashboardScreen.tsx:139 | the filter keeps order |
| Dashboard.InRange | app/screens/DashboardScreen.tsx:148-149 | a record is in the window iff its parsed date lies between start and end inclusive, so only a non-empty window admits any |
| Dashboard.KeepInRange | app/screens/DashboardScreen.tsx:144-150 | exactly the records whose parsed date is in `[start, end]`, or every record for `all` |
| Dashboard.WithRecordsIn | app/screens/DashboardScreen.tsx:143-150 | one selected task cut to the window; FilteredDataKeeps states what it keeps |
| Dashboard.FilteredData | app/screens/DashboardScreen.tsx:141-152 | one entry per selected task |
| Dashboard.FilteredDataKeeps | app/screens/DashboardScreen.tsx:141-152 | each entry keeps its id and statistics and exactly its records in the window, an absent list becoming empty |
| Dashboard.TodayAfterMidnightFiltered | app/screens/DashboardScreen.tsx:100-149 | as written, a fixed frame drops every record of today made after midnight |
| Dashboard.IntendedRange | app/screens/DashboardScreen.tsx:126-132 | the evidently meant window: the same start, ending now |
| Dashboard.TodayKeptInIntendedRange | app/screens/DashboardScreen.tsx:149 | with that window every record of today up to now is kept |
| Dashboard.CalculateAggregateStats | app/screens/DashboardScreen.tsx:156-176 | the dashboard's loop is the `data.ts` fold from defaults whose `lastStreak` is `null` |
| Dashboard.DashboardAggregateDiffersInLastStreak | app/screens/DashboardScreen.tsx:163 | the dashboard's aggregate equals the `data.ts` one except for `lastStreak` |
| Dashboard.AllFrameKeepsAggregate | app/screens/DashboardScreen.tsx:146-173 | with `all`, filtering leaves the aggregate as it was |
| Dashboard.GetChartData | app/screens/DashboardScreen.tsx:180-286 | the shared chart over the filtered tasks' records, each record adding 1 |
| Dashboard.ChartCountsRecords | app/screens/DashboardScreen.tsx:258-274 | week, month and year: the buckets sum to at most the number of records, whatever their `timesCompleted` |
| Dashboard.WindowedRecordsAtMost | app/screens/DashboardScreen.tsx:270 | counting one per record, the window never holds more than the list |
| Dashboard.PatternStart | app/screens/DashboardScreen.tsx:329-348 | where the dashboard's pattern window starts: 6 or 29 days or 11 months back, or the earliest record (30 days back with none) |
| Dashboard.GetCompletionPatterns | app/screens/DashboardScreen.tsx:322-363 | the patterns over `[startDate, now]`, with the start 6 or 29 days or 11 months back or at the earliest record, the hour read from the record's date |
| Dashboard.DayRecordsCountAtMidnight | app/screens/DashboardScreen.tsx:352-357 | a record stored as a bare day always lands in the midnight slot, on its own weekday |
| TaskStatsScreen.GetTimeRangeData | app/screens/TaskStatsScreen.tsx:23-118 | the shared chart from the earliest record (or the task's creation) to now, or to the latest record for `all`, each record adding `timesCompleted` |
| TaskStatsScreen.FixedFramesAsShared | app/screens/TaskStatsScreen.tsx:30-54 | week, month and year draw the same chart as `data.ts` |
| TaskStatsScreen.SpanEnds | app/screens/TaskStatsScreen.tsx:61-62 | the earliest and latest are records' dates, in order, bracketing every record |
| TaskStatsScreen.OneInstantEmptyChart | app/screens/TaskStatsScreen.tsx:66-97 | records all at one instant, a single record included, give an `all` chart with no buckets and no labels |
| TaskStatsScreen.ZeroSpanEmptyChart | app/screens/TaskStatsScreen.tsx:66-97 | a zero span gives zero days, hence an empty chart |
| TaskStatsScreen.LatestDayDropped | app/screens/TaskStatsScreen.tsx:63-111 | as written, bare-day records spanning 1 to 30 days leave the latest record one past the last bucket, so it is dropped though it is in the window |
| TaskStatsScreen.IntendedEnd | app/screens/TaskStatsScreen.tsx:63 | the evidently meant end is one day past the latest record |
| TaskStatsScreen.IntendedWindow | app/screens/TaskStatsScreen.tsx:103 | every record lies in that window, strictly before its end |
| TaskStatsScreen.IntendedChartCountsEveryRecord | app/screens/TaskStatsScreen.tsx:101-115 | with that end the `all` chart holds every record's `timesCompleted` |
| TaskStatsScreen.GetCompletionPatterns | app/screens/TaskStatsScreen.tsx:150-163 | the patterns of every record, unfiltered, at its own date's weekday and hour |
| TaskStatsScreen.PatternsCountEveryTime | app/screens/TaskStatsScreen.tsx:150-163 | both pattern arrays sum to the task's total `timesCompleted` |
| TaskCard.CardBadge | app/components/TaskCard.tsx:55-92 | no badge without a started status; a positive current streak shows fire (up to date) or clock (any other status) with that streak and a trophy iff it is the best; otherwise a positive last streak shows sleep without trophy; else none |
| TaskCard.Next | app/components/TaskCard.tsx:456-471 | the next face always differs from the current one |
| TaskCard.NextCycle | app/components/TaskCard.tsx:456-471 | three steps task → calendar → stats return to the start, and two do not |
| TaskCard.AdvanceByThree | app/components/TaskCard.tsx:456-471 | advancing three more places lands on the same face |
| TaskCard.Flipped | app/components/TaskCard.tsx:452-474 | a flip turns the card over; the face that turns up is the successor of the one that was up, and the one that was up stays behind |
| TaskCard.VisibleAfterFlips | app/components/TaskCard.tsx:441-474 | after n flips the visible face has moved n places round the cycle |
| TaskCard.VisibleEveryThreeFlips | app/components/TaskCard.tsx:441-474 | the visible face repeats every three flips |
| TaskCard.FlipParity | app/components/TaskCard.tsx:474 | each flip toggles `isFlipped` |
| TaskCard.StateRepeatsEverySixFlips | app/components/TaskCard.tsx:452-474 | from the first flip on, the whole card state repeats every six flips |
| TaskCard.LongPressOutcome | app/components/TaskCard.tsx:440-450 | calendar and stats open only on their own face with a handler; completion starts only on the task face with a task handler |
| TaskCard.TaskCardState.constructor | app/components/TaskCard.tsx:414-416 | the card starts with the task face up, the calendar behind, not completing |
| TaskCard.TaskCardState.FlipCard | app/components/TaskCard.tsx:452-474 | the new sides are the flip of the old, and completion is unaffected |
| TaskCard.TaskCardState.HandleLongPress | app/components/TaskCard.tsx:440-450 | acts on the visible face; the sides do not change, and only the task face sets `isCompleting` |
| TaskCard.TaskCardState.TaskChanged | app/components/TaskCard.tsx:512-514 | a new task clears `isCompleting` and leaves the sides alone |
| TaskCard.CardDays | app/components/TaskCard.tsx:252-266 | one entry per day of today's month, in order |
| TaskCard.CardDayMeaning | app/components/TaskCard.tsx:252-266 | entry i is day i + 1; it is today iff it is today's date, and missed iff it is an earlier day without a record |
| TaskCard.DayRecordMarksDay | app/components/TaskCard.tsx:255 | a record stored as a bare day marks its day completed |
| TaskCard.TimestampRecordsMarkNoDay | app/components/TaskCard.tsx:255-258 | as written, records stored as timestamps mark no day completed and leave every earlier day missed |
| TaskCard.CardGrid | app/components/TaskCard.tsx:277-280 | `getDay(first of month)` empty cells, then the days |
| TaskCard.CardGridColumns | app/components/TaskCard.tsx:272-298 | in seven columns every day sits under its own weekday |
| TaskCard.RecordsWithin | app/components/TaskCard.tsx:313-329 | exactly the records whose parsed date lies in the window |
| TaskCard.WeeklyCompleted | app/components/TaskCard.tsx:310-321 | "this week": a count of records, never more than the task has |
| TaskCard.MonthlyCompleted | app/components/TaskCard.tsx:323-334 | "past 30 days": a count of records, never more than the task has |
| TaskCard.WiderWindowKeepsMore | app/components/TaskCard.tsx:310-333 | a wider window keeps at least as many records |
| TaskCard.WeekWithinMonth | app/components/TaskCard.tsx:310-333 | this week's count never exceeds the past-30-days count, which never exceeds the number of records |
| TaskCard.IsBestStreak | app/components/TaskCard.tsx:338 | the stats face's "Best!" only ever marks a positive current streak |
| TaskCard.TrophyIffBest | app/components/TaskCard.tsx:338 | with a started status and a positive streak, the badge's trophy and the stats face's "Best!" agree |
| TaskCard.StreakBarWidth | app/components/TaskCard.tsx:359 | ten percent per day of the current streak, capped at 100, full iff the streak is 10 or more |
| TaskHeader.HeaderBadgeOf | app/components/TaskHeader.tsx:49-75 | fire iff up to date or expiring with a positive current streak, a clock iff expiring, a trophy iff current equals best; otherwise sleep with a positive last streak; else nothing |
| TaskHeader.HeaderAgreesWithCard | app/components/TaskHeader.tsx:49-68 | up to date or expiring with a positive streak, header and card show the same value, trophy and clock |
| TaskHeader.ExpiredStreakDisagrees | app/components/TaskHeader.tsx:70-75 | an expired status with a positive current streak: the card shows it with a clock, the header falls back to the last streak or nothing |
| TaskHeader.UnstartedRestingDisagrees | app/components/TaskHeader.tsx:70-75 | no status or `never_started` with a positive last streak: the card shows nothing, the header shows sleep |
| TaskHeader.StoreStatsShowNoBadge | app/context/TaskContext.tsx:154-160 | the statistics the store computes carry no status and no last streak, so neither the card nor the header ever shows a badge for them |
| TaskHeader.CalendarRouteTabs | app/components/TaskHeader.tsx:15-16 | on `/task-calendar` only the Calendar tab is active |
| TaskHeader.StatsRouteTabs | app/components/TaskHeader.tsx:15-16 | on `/task-stats` only the Stats tab is active |
| TaskHeader.NoPairNotFound | app/components/TaskHeader.tsx:15-16 | a path where the first two letters of a word never stand side by side does not contain that word |
| TaskCalendarScreen.DayOf | app/screens/TaskCalendarScreen.tsx:43 | `new Date(year, month, k)` is day k of the shown month |
| TaskCalendarScreen.MonthDays | app/screens/TaskCalendarScreen.tsx:42-53 | one entry per day of the month, in order, numbered i + 1, completed as `isTaskCompleted` says, today iff its `yyyy-MM-dd` is today's |
| TaskCalendarScreen.TodayMark | app/screens/TaskCalendarScreen.tsx:40-45 | a day is marked today iff it is today, so a month has a today mark iff it is today's month |
| TaskCalendarScreen.StartingDayOfWeek | app/screens/TaskCalendarScreen.tsx:39 | the first day's column is one of 0..6 |
| TaskCalendarScreen.Grid | app/screens/TaskCalendarScreen.tsx:101-115 | always 42 cells |
| TaskCalendarScreen.GridCell | app/screens/TaskCalendarScreen.tsx:101-115 | cell i holds a day iff 0 ≤ i − start < days in month, and then it holds day i − start + 1; every other cell is empty |
| TaskCalendarScreen.GridShowsEachDayOnce | app/screens/TaskCalendarScreen.tsx:37-115 | every day of the month has a cell, and no two cells hold the same day |
| TaskCalendarScreen.GridColumnIsWeekday | app/screens/TaskCalendarScreen.tsx:95-115 | every day sits in the column of its weekday, under that weekday's header label |
| TaskCalendarScreen.LookOf | app/screens/TaskCalendarScreen.tsx:122-125 | past and future by string comparison with today; missed iff past and not completed |
| TaskCalendarScreen.LookExclusive | app/screens/TaskCalendarScreen.tsx:45-125 | every day is exactly one of past, today and future; with four-digit years those are earlier, equal and later dates |
| TaskCalendarScreen.PressOutcome | app/screens/TaskCalendarScreen.tsx:55-69 | a day after today is ignored; otherwise a completed day is uncompleted and any other completed |
| TaskCalendarScreen.PressIgnoresExactlyFuture | app/screens/TaskCalendarScreen.tsx:58-125 | exactly the later days are ignored, and they are exactly the cells drawn as future |
| TaskCalendarScreen.HandleDayPress | app/screens/TaskCalendarScreen.tsx:55-69 | the store is unchanged for a future day, and otherwise receives exactly one uncomplete or complete of the day's midnight |
| TaskCalendarScreen.WithoutAbsentText | app/context/TaskContext.tsx:102-104 | removing a date text that no record carries changes nothing |
| TaskCalendarScreen.UncompleteUndoesComplete | app/screens/TaskCalendarScreen.tsx:64-68 | uncompleting the day just completed removes the added record along with any old record of the same date text, and restores the old records exactly when none carried that text |
| TaskCalendarScreen.ScreenGrid | app/screens/TaskCalendarScreen.tsx:32-35 | the grid, or the `Missing task` error exactly when no task has the id |
| TaskCalendarScreen.GridIgnoresDay | app/screens/TaskCalendarScreen.tsx:37-43 | only the shown date's month and year matter to the grid |
| TaskCalendarScreen.AddMonths | app/screens/TaskCalendarScreen.tsx:76 | `addMonths(t, n)` keeps the time of day and moves the month index forward by n |
| TaskCalendarScreen.MonthCursor.constructor | app/screens/TaskCalendarScreen.tsx:30 | the calendar opens on the current date |
| TaskCalendarScreen.MonthCursor.PrevMonth | app/screens/TaskCalendarScreen.tsx:71-73 | the shown date moves back exactly one calendar month |
| TaskCalendarScreen.MonthCursor.NextMonth | app/screens/TaskCalendarScreen.tsx:75-77 | the shown date moves forward exactly one calendar month |
| TaskCalendarScreen.MonthIndexInjective | app/screens/TaskCalendarScreen.tsx:71-77 | the month index pins down the year and the month |
| TaskCalendarScreen.ArrowsCancel | app/screens/TaskCalendarScreen.tsx:71-77 | back then forward, or forward then back, shows the same month and grid, and the same date when its day is at most the 28th |
| IconPicker.FilterIcons | app/components/IconPicker.tsx:92-96 | exactly the icons whose lower-cased name contains every term, never more than the list |
| IconPicker.FilterIconsConcat | app/components/IconPicker.tsx:92-96 | the filter keeps the list's order |
| IconPicker.NoTermsKeepAll | app/components/IconPicker.tsx:95 | with no terms every icon matches |
| IconPicker.FilteredIcons | app/components/IconPicker.tsx:85-97 | the empty query gives the default icons; any other gives the full list's icons matching every lower-cased word of the query |
| IconPicker.LowerKeepsSpace | app/components/IconPicker.tsx:90 | lower-casing neither makes nor removes white space |
| IconPicker.BlankQueryOffersAll | app/components/IconPicker.tsx:90-96 | a white-space query has no terms, so the whole icon list is offered in order |
| IconPicker.QueryCaseIgnored | app/components/IconPicker.tsx:90 | upper and lower case in the query make no difference |
| IconPicker.MoreWordsNarrow | app/components/IconPicker.tsx:95 | adding words to a query never adds icons |
| IconPicker.IconPickerState.Shown | app/components/IconPicker.tsx:163 | the first `visibleCount` matches, or all of them |
| IconPicker.IconPickerState.constructor | app/components/IconPicker.tsx:55-58 | search closed, empty query, 12 shown: the first 12 default icons, with more available |
| IconPicker.IconPickerState.ChangeText | app/components/IconPicker.tsx:145 | typing changes only the query as typed |
| IconPicker.IconPickerState.Settle | app/components/IconPicker.tsx:57-82 | when the debounce settles, the filter sees the typed query, and a changed query goes back to 12 shown |
| IconPicker.IconPickerState.PressMore | app/components/IconPicker.tsx:99-185 | opens search and shows 12 more; what was shown stays a prefix, and it grows when matches were hidden |
| IconPicker.IconPickerState.ShowLess | app/components/IconPicker.tsx:112-116 | hides search, clears the query, back to 12 shown |
| IconPicker.ShowLessThenSettle | app/components/IconPicker.tsx:80-116 | after show-less settles the grid is the first 12 default icons |
| ColorPicker.Distinct | app/components/ColorPicker.tsx:46 | `[...new Set(s)]` has no repeats and exactly the colours of s |
| ColorPicker.DistinctOfDistinct | app/components/ColorPicker.tsx:46 | a list without repeats is its own set |
| ColorPicker.DistinctExtends | app/components/ColorPicker.tsx:46 | the set of a list is a prefix of the set of that list extended |
| ColorPicker.DistinctInFirstOrder | app/components/ColorPicker.tsx:46 | colours keep the order of their first occurrence |
| ColorPicker.MoreColors | app/components/ColorPicker.tsx:45-47 | show-more keeps the old extras as a prefix, adds the generated colours, and repeats nothing |
| ColorPicker.GeneratedOnce | app/components/ColorPicker.tsx:45-47 | every generated colour appears exactly once in the extras |
| ColorPicker.ColorPickerState.AllColors | app/components/ColorPicker.tsx:62 | the 13 fixed colours followed by the extras |
| ColorPicker.ColorPickerState.constructor | app/components/ColorPicker.tsx:32 | no extras and no Show Less button |
| ColorPicker.ColorPickerState.ShowMore | app/components/ColorPicker.tsx:45-108 | the extras become MoreColors of the old ones, stay repeat-free, and the Show Less button appears when anything was generated |
| ColorPicker.ColorPickerState.ShowLess | app/components/ColorPicker.tsx:49-108 | no extras, no Show Less button, only the fixed colours |
| ColorPicker.FixedColorRepeated | app/components/ColorPicker.tsx:62 | a fixed colour that is also generated is listed twice; the generator's lower-case output never meets this premise |
| ColorPicker.LowerCaseNotFixed | app/components/ColorPicker.tsx:7-21 | every fixed colour is written with a capital letter, so no lower-case colour is one of them |
| ColorPicker.LowerCaseExtrasNeverRepeat | app/components/ColorPicker.tsx:41-62 | with the generator's lower-case `toHexString()` colours, the picker's whole list has no repeats |
| AddTaskScreen.ParseOr | app/screens/AddTaskScreen.tsx:61-62 | `parseInt(s, 10) \|\| fallback` is the fallback or the parsed number, and never 0 |
| AddTaskScreen.EveryDayIsWholeWeek | app/screens/AddTaskScreen.tsx:63 | each weekday 0..6 once, in order |
| AddTaskScreen.SaveTask | app/screens/AddTaskScreen.tsx:51-64 | no task iff the name is all white space; otherwise the trimmed name, the chosen icon and colour, non-zero numbers, every weekday, no statistics or records |
| AddTaskScreen.TypedNumbersKept | app/screens/AddTaskScreen.tsx:61-62 | any non-zero number typed is saved as itself, negatives included |
| AddTaskScreen.ZeroFallsBack | app/screens/AddTaskScreen.tsx:61-62 | a typed 0 falls back to once a day and thirty minutes |
| AddTaskScreen.InitialFormSaves | app/screens/AddTaskScreen.tsx:45-64 | the form as it opens, with a name, saves as once a day, thirty minutes, `run`, `#FF6B6B`, every day |
| AddTaskScreen.SavedNameStable | app/screens/AddTaskScreen.tsx:58 | a saved name saves again unchanged |

## Left out

- Persistence: AsyncStorage loading and saving, JSON, and the errors they log (`app/context/TaskContext.tsx:28-50`). The store's methods write the new list directly.
- Async sequencing: the stale `tasks` closure when `completeTask` awaits `updateTask`. Each store method is one atomic step.
- The clock. `new Date()` and `Date.now()` are a `now` parameter. The `id` that `Date.now()` gives a new task or record is the text of `now`'s instant, so ids taken in the same millisecond collide as they do in the app.
- Time zones and daylight saving. One fixed zone is assumed, so `parseISO` (local) and `new Date(string)` (UTC for a bare date) parse alike.
- Floating point. `completionRate` is a real number, and the statistics' rate is the exact integer rounding of the percentage. Chart bar widths other than the streak bar are display only.
- Rendering, styles, animations, particles, scrolling, `setTimeout` and navigation. The alert on an empty task name is the `None` result of `AddTaskScreen.SaveTask`.
- Debounce timing in the icon picker. The 300 ms wait is the explicit `Settle` step.
- The random colours. Each show-more press receives the generated list as a parameter; that the source generates ten per press is not enforced. Their lower-case `#rrggbb` form is a premise of `ColorPicker.LowerCaseExtrasNeverRepeat`, not a property of the parameter.
- The icon font's full glyph list is the `allIcons` parameter of the icon picker.
- `isTaskCompleted`: the task context declares and provides no such function, though the calendar screen and the card read it. It is the parameter `done`.
- The statistics screen renders nothing when no task has the id (`app/screens/TaskStatsScreen.tsx:18-21`). Its operations take the found task.
- The `default: new Date(0)` branch of `getDateRange` cannot be reached with the four frames, and is not modelled.
- `hourOfDayLabels` and `dayOfWeekLabels` appear three times in the source. They are modelled once, as `Analytics.HourOfDayLabels` and `DateText.WeekdayNames`.
- The dashboard's own `getDateRange` and `getDateRangeLabel` are the same code as in `data.ts`, and are modelled once, by `Analytics.DateRangeOf` and `Analytics.DateRangeLabel`.
- Strings.ToLower: only ASCII capitals are lowered, and no other Unicode case mapping is modelled.
- Strings.Trim: the white space set is space, tab, line feed, vertical tab, form feed, carriage return, no-break space and the byte-order mark, not every Unicode space separator.
- DateText.IsoDateOrder: string order equals date order only for years 0 to 9999.
- Strings.ParseInt: the leading `+` sign is accepted and the digit run is read as an unbounded integer; the float rounding of very long digit runs is not modelled.

## Findings

| source | as written | input that shows it | evidently intended | confidence | as-written member | corrected member |
|---|---|---|---|---|---|---|
| app/context/TaskContext.tsx:136-148 | `bestStreak` counts one-day steps, while `currentStreak` is the trailing step count plus one, so it counts records | a single record dated today: current streak 1, best streak 0 | the best streak counts records in the longest run, so it is never below the current streak | not executed | TaskContext.CurrentExceedsBest | TaskContext.IntendedBestCoversCurrent |
| app/context/TaskContext.tsx:78-147 | `completeTask` stores `date.toISOString()`, a full timestamp, but the current streak compares the last date with today's `yyyy-MM-dd` | completing a task whose records all came from `completeTask`: the current streak stays 0 | store the completed day as `yyyy-MM-dd`, so that completing today starts a streak | not executed | TaskContext.CompletingNeverStartsStreak | TaskContext.CompletingTodayStartsStreak |
| app/components/TaskCard.tsx:255 | the card calendar marks a day completed only when a record's `date` equals the day's `yyyy-MM-dd` | records made by `completeTask` (timestamps): no day shows completed, and every earlier day of the month shows missed | records stored as the bare day mark that day completed | not executed | TaskCard.TimestampRecordsMarkNoDay | TaskCard.DayRecordMarksDay |
| app/utils/data.ts:213 | the aggregate rate is folded as `(rate + r) / 2` starting from 0 | one task with rate 80: aggregate 40; rates 20 then 80 give 45, but 80 then 20 give 30 | the mean rate of the tasks that carry statistics | not executed | Analytics.RateIsHalvedAndOrdered | Analytics.MeanRateOfEqualRates |
| app/utils/data.ts:105-176 | the week window starts at now minus six days and a record's column is six minus its whole 24-hour periods before now, while the columns are labelled with calendar weekdays | a record at 11:00 yesterday, seen at 10:00 today, lands under today's label; one at 09:00 six days ago is outside the window | columns by calendar day, from midnight six days back | not executed | Charts.WeekColumnMislabels | Charts.CalendarWeekColumnMatchesLabel |
| app/screens/DashboardScreen.tsx:100-149 | the fixed frames' filter window ends at today's midnight | any record of today made after 00:00 is dropped from the dashboard's figures, chart and patterns | the window ends now | not executed | Dashboard.TodayAfterMidnightFiltered | Dashboard.TodayKeptInIntendedRange |
| app/screens/TaskStatsScreen.tsx:63-111 | the `all` chart ends at the latest record, so a span of k whole days gets k daily buckets and the latest record's index is k | two bare-day records on consecutive days: one bucket, and the second record is dropped | the chart reaches one day past the latest record, so every record is counted | not executed | TaskStatsScreen.LatestDayDropped | TaskStatsScreen.IntendedChartCountsEveryRecord |
