# Codele backend: scheduling, selection and time-lock logic in Dafny

Codele publishes one coding problem per day. Each problem is a document keyed by its date
(`YYYY-MM-DD`). Weekly "themes" group the problems. This project models the logic between the
HTTP routes and the document store:

- **Batch scheduler** (`ContentEngine`): a 7-step difficulty cycle, the next open date,
  theme choice, building one problem per generated draft on consecutive days, and the
  single theme record per batch. `LegacyEngine` models the older weekly generator, which
  schedules the next Monday and uses an ISO week id.
- **Admin calendar** (`AdminCalendar`) and **curation** (`AdminCuration`): a wrapping
  colour per theme, first-match theme lookup, month cells, theme start/end flags,
  week rows, editing a problem, moving a problem to another date, and the multi-batch
  driver.
- **Public read policy**:
  - `LegacyProblemsRouter`: the "Infinite Fallback" for today, and the time-lock on
    reading by date (400 / 403 / 404).
  - `ProblemsRouter`: the adapter that renames `_id` to `id` and drops `embedding`.
  - `CalendarRouter`: the month calendar.
  - `ThemesRouter`: the theme list, with its future-leak filter and month window.
- **Sliding-window rate limiter** (`RateLimit.RateLimiter`): a class whose per-client
  timestamp table is cleaned and appended to in place.
- **Records** (`Records`): test cases, daily problems and weekly themes with their defaults.
  `Dumps` models `model_dump(by_alias=True)` as JSON objects.

Supporting modules model what the code relies on from Python:

- `Text`: string order by code point, zero-padded decimal formatting, `strip`, `split`,
  `join`, `lower`.
- `DateKeys`: proleptic Gregorian dates, `toordinal`, `weekday`, `timedelta` addition and
  `strftime("%Y-%m-%d")`.
- `DateParse`: `strptime(s, "%Y-%m-%d")`, following CPython's `_strptime` on ASCII digits.
- `IsoWeek`: `isocalendar`.
- `MonthKeys`: month prefixes, the `^\d{4}-\d{2}$` query pattern, and month windows.
- `Store`: the document collections, as classes over sequences in insertion order.
- `Sorting`: `list.sort` by a string key.
- `Json`: JSON values.

The fact everything rests on is `DateKeys.FormatOrder`. On days Python's `date` can hold,
comparing two keys as strings is the same as comparing the days chronologically.
Date keys are ISO 8601 calendar dates in extended format (section 4.1.2.2 of ISO 8601:2004).
Week ids follow the ISO 8601 week-date form (section 4.1.4).

External effects are parameters:

- The clock is `today: Date` and `now: real`.
- The language model is an oracle value (`Llm`, `LegacyLlm`) whose answers may be missing.
- SHA-256 is a function `digest: string -> nat`.
- The store is a `ProblemCollection` / `ThemeCollection` object.

## Model

| member | source | states |
|---|---|---|
| Records.ParseKind | src/shared/models/problem.py:20-22 | a test type is accepted exactly when it is one of basic, edge, logic, conciseness, and the accepted kind spells the input |
| Records.NewTestCase | src/shared/models/problem.py:14-29 | a test case is built exactly when its type is valid; id defaults to 0 and the other fields are kept |
| Records.NewLegacyTestCase | src/models/problem.py:10-22 | a legacy test case defaults to not being a conciseness check and to no max_lines |
| Records.NewProblem | src/shared/models/problem.py:32-64 | a new problem keeps its given fields; test_cases and topics default to empty and embedding to None |
| Records.NewTheme | src/shared/models/problem.py:70-97 | a new theme has empty start and end dates, count 7 and no week id |
| Dumps.Dump | src/shared/models/problem.py:32-64 | the dump by alias has exactly the keys _id, title, difficulty, description, starterCode, testCases, topics, embedding, each holding its field |
| Dumps.DumpLegacy | src/models/problem.py:25-55 | the legacy dump has the same keys without aliases (starter_code, test_cases), each holding its field |
| Dumps.DumpEmbedding | src/shared/models/problem.py:61-64 | a missing embedding dumps as null and a present one as the array of its numbers |
| Dumps.DumpInjective | src/shared/models/problem.py:32-64 | two problems with the same dump are the same problem |
| Dumps.DumpLegacyInjective | src/models/problem.py:25-55 | two legacy problems with the same dump are the same problem |
| Dumps.DumpCaseInjective | src/shared/models/problem.py:14-29 | the dump of a test case (expected_output written as expected) determines the test case |
| Dumps.DumpLegacyCaseInjective | src/models/problem.py:10-22 | the dump of a legacy test case determines it |
| Text.LexLessTransitive | src/api/routers/calendar.py:53-57 | Python's string `<` is transitive |
| Text.LexLessTotal | src/api/routers/themes.py:59 | Python's string order is total, so every pair of keys is ordered |
| Text.LexLessConcat | src/api/routers/calendar.py:43-50 | comparing two concatenations whose first parts have equal length compares the first parts, then the rest |
| Text.PadLength | src/shared/services/content_engine.py:97 | `f"{n:0wd}"` of a number below 10^w has exactly w characters |
| Text.PadOrder | src/shared/services/content_engine.py:44-45 | zero-padded numbers of the same width compare as strings the way the numbers compare |
| Text.PadDigitsValue | src/api/routers/calendar.py:34-40 | formatting the value of a digit string at its own width gives the string back |
| Text.Strip | src/shared/services/content_engine.py:70-71 | `strip()` removes exactly the leading and trailing whitespace and keeps the middle |
| Text.StripStripped | src/admin/main.py:206 | stripping a stripped string changes nothing |
| Text.Split | src/admin/main.py:206 | `split(",")` yields pieces that contain no comma |
| Text.SplitJoin | src/admin/main.py:206 | joining the pieces of a split with the separator gives back the original string |
| Text.JoinSplit | src/admin/main.py:206 | splitting a join of comma-free pieces gives back the pieces |
| Text.Lower | src/shared/services/content_engine.py:88 | `lower()` keeps the length and maps each character to its lower case |
| DateKeys.NextDay | src/shared/services/content_engine.py:49-50 | the day after a calendar day is a calendar day and is later |
| DateKeys.AddDays | src/shared/services/content_engine.py:110 | adding days stays within the calendar |
| DateKeys.FormatOrder | src/shared/services/content_engine.py:44-45 | on representable days, key string order is chronological order, and equal keys mean equal days |
| DateKeys.FormatLe | src/api/routers/themes.py:34 | Python's `<=` on keys is "same day or earlier" |
| DateKeys.FormatLength | src/shared/services/content_engine.py:97 | every key of a representable day has 10 characters |
| DateKeys.Weekday | src/services/content_engine.py:32 | `weekday()` lies in 0..6 |
| DateKeys.NextDayOrdinal | src/shared/services/content_engine.py:110 | one day later is one ordinal later |
| DateKeys.AddDaysOrdinal | src/shared/services/content_engine.py:110 | adding n days adds n to the ordinal |
| DateKeys.OrdinalOrder | src/shared/services/content_engine.py:110 | chronological order is ordinal order |
| DateKeys.AddDaysBefore | src/shared/services/content_engine.py:110 | adding more days gives a strictly later day |
| DateKeys.AddDaysReaches | src/admin/main.py:91-92 | every later day is reached from an earlier one by adding the ordinal difference |
| DateKeys.ValidByOrdinal | src/shared/services/content_engine.py:49-50 | a day is representable exactly when its ordinal does not pass that of 9999-12-31 |
| DateKeys.NextDayValid | src/shared/services/content_engine.py:49-50 | the day after a representable day other than 9999-12-31 is representable |
| DateParse.Strptime | src/routers/problems.py:77-83 | a parsed date is always a representable day |
| DateParse.StrptimeFormat | src/routers/problems.py:77-83 | every key the system writes parses back to its own day |
| DateParse.CanonicalKeyIff | src/admin/main.py:243-246 | canonical keys are exactly the formatted representable days |
| DateParse.StrptimeAcceptsUnpadded | src/admin/main.py:243-246 | strptime accepts "2026-3-5", which is not a canonical key |
| IsoWeek.IsoCalendar | src/services/content_engine.py:36-38 | the ISO year is within one of the calendar year, the ISO week lies in 1..53 and the ISO weekday is `weekday() + 1` |
| IsoWeek.IsoCalendarFacts | src/services/content_engine.py:36-38 | week 1 of each year starts on a Monday within 371 days of the next year's; a day before it belongs to the previous ISO year's weeks |
| IsoWeek.MondayStartsIsoWeek | src/services/content_engine.py:35-38 | a Monday has ISO weekday 1 |
| MonthKeys.ParseMonthQuery | src/api/routers/calendar.py:34-40 | a query matching `^\d{4}-\d{2}$` splits into a year and a month whose prefix is the query itself |
| MonthKeys.FormatSplit | src/api/routers/calendar.py:43 | a day's key is its month prefix followed by "-" and the padded day |
| MonthKeys.MonthPrefixOrder | src/api/routers/themes.py:42-45 | month prefixes compare the way the (year, month) pairs compare |
| MonthKeys.MonthWindowExact | src/api/routers/calendar.py:43-50 | a day's key lies in `[prefix-01, prefix-31]` exactly when the day is in that year and month |
| Sorting.Insert | src/api/routers/calendar.py:67 | inserting into a sorted list keeps it sorted and adds exactly one element |
| Sorting.SortBy | src/api/routers/calendar.py:67 | `list.sort(key=..., reverse=...)` returns an ordered permutation of its input |
| Sorting.InsertStable | src/api/routers/themes.py:59 | an inserted element goes in front of every element with its key |
| Sorting.SortByStable | src/api/routers/themes.py:59 | the sort is stable: the elements with any one key keep their order |
| Store.Find | src/routers/problems.py:34-37 | `get(key)` finds a stored document exactly when the key is stored, and the document has that id |
| Store.FindUnique | src/routers/problems.py:94-100 | with unique ids, looking up a stored document's id gives that document |
| Store.FindRange | src/api/routers/calendar.py:47-50 | a range query returns exactly the stored documents with lo <= id <= hi |
| Store.FindInRange | src/admin/main.py:58-62 | inside the range, a lookup in the range result agrees with a lookup in the store |
| Store.InsertedPrefixStops | src/shared/services/content_engine.py:171 | an ordered `insert_many` writes the drafts up to, and not including, the first one whose key is already present |
| Store.InsertedPrefixAll | src/shared/services/content_engine.py:171 | fresh, distinct keys are all written |
| Store.Without | src/admin/main.py:259 | deleting a key removes exactly that key and keeps every other document |
| Store.UniqueWithout | src/admin/main.py:259 | deleting keeps ids unique |
| Store.Replace | src/admin/main.py:224 | `save()` replaces the document with the same id and changes nothing else |
| Store.ReplaceKeys | src/admin/main.py:224 | saving keeps the set of keys and their uniqueness |
| Store.ProblemCollection.constructor | src/shared/services/content_engine.py:171 | a new collection is empty |
| Store.ProblemCollection.InsertMany | src/shared/services/content_engine.py:171 | the new contents are the old contents plus the written prefix; an empty insert or a duplicate key is reported |
| Store.ProblemCollection.Insert | src/admin/main.py:258 | a fresh key is appended; a taken key is refused and nothing changes |
| Store.ProblemCollection.Save | src/admin/main.py:224 | the new contents are the old ones with the document replaced |
| Store.ProblemCollection.Delete | src/admin/main.py:259 | the new contents are the old ones without that key |
| Store.ThemeCollection.Insert | src/shared/services/content_engine.py:175-182 | the theme record is appended |
| ContentEngine.DifficultySequence | src/shared/services/content_engine.py:21-34 | the sequence has `count` entries (none when count <= 0) and entry i is `DIFFICULTY_CYCLE[i % 7]` |
| ContentEngine.DifficultyPeriodic | src/shared/services/content_engine.py:32-34 | n + 7 difficulties are a full cycle followed by the first n |
| ContentEngine.TwoWeeks | src/shared/services/content_engine.py:21-34 | `seq(14) == seq(7) + seq(7)` and `seq(7)` is the cycle itself |
| ContentEngine.DifficultyPrefix | src/shared/services/content_engine.py:32-34 | a shorter sequence is a prefix of a longer one |
| ContentEngine.DifficultyValues | src/shared/models/problem.py:37-43 | every difficulty is Easy, Medium or Hard |
| ContentEngine.MaxKey | src/shared/services/content_engine.py:44-46 | the greatest key is stored and no stored key is greater |
| ContentEngine.DayAfter | src/shared/services/content_engine.py:49-50 | the next day is later and representable; it fails exactly on 9999-12-31 |
| ContentEngine.NextOpenDate | src/shared/services/content_engine.py:37-53 | an empty store gives today; it fails exactly when the greatest stored key does not parse or is 9999-12-31; a result is always a representable day |
| ContentEngine.NextOpenDateFailsOnlyAtLastDay | src/shared/services/content_engine.py:48-50 | on canonical keys, finding the next open date fails exactly when the latest scheduled day is 9999-12-31 |
| ContentEngine.NextOpenDateIsOpen | src/shared/services/content_engine.py:37-53 | on canonical keys the next open date is the day after a stored day and later than every stored day, so it is the day after the latest one and its key is free |
| ContentEngine.MostRecent | src/shared/services/content_engine.py:63-67 | the n most recent themes, newest first |
| ContentEngine.PickTheme | src/shared/services/content_engine.py:56-71 | a non-empty forced theme is used unchanged; otherwise the model's pick is stripped, and a missing pick is an error |
| ContentEngine.Renumber | src/shared/services/content_engine.py:85-95 | test cases are renumbered 1..n in order with the type lower-cased and nothing else changed |
| ContentEngine.MapTestCases | src/shared/services/content_engine.py:85-95 | mapping succeeds exactly when every lower-cased type is valid, and then gives the renumbered cases |
| ContentEngine.BuildProblems | src/shared/services/content_engine.py:74-117 | one problem per draft in order, draft i on start + i days with difficulty i; otherwise the first failing draft's error |
| ContentEngine.BuiltKeysIncrease | src/shared/services/content_engine.py:97-110 | the keys of a built batch strictly increase, so they are pairwise distinct |
| ContentEngine.ConsecutiveKeys | src/shared/services/content_engine.py:97-110 | the key of a later offset is greater than that of an earlier one |
| ContentEngine.BuiltFromCount | src/shared/services/content_engine.py:98 | a built batch has at most `count` problems (more drafts than difficulties fail) |
| ContentEngine.StartDate | src/shared/services/content_engine.py:138-143 | the start date, given or the next open date, is representable |
| ContentEngine.FirstDraftErrorNone | src/shared/services/content_engine.py:84-110 | no draft from position i on fails exactly when the search for the first failing draft finds none |
| ContentEngine.FirstDraftErrorAt | src/shared/services/content_engine.py:84-110 | when draft k is the first failing draft at or after i, the search reports k's error |
| ContentEngine.BuildAll | src/shared/services/content_engine.py:74-117 | one problem per draft, and a non-empty batch has no more drafts than `count` difficulties |
| ContentEngine.BuiltFromIsBuildAll | src/shared/services/content_engine.py:74-117 | a batch built draft by draft has no failing draft and is the whole-batch construction |
| ContentEngine.BuildAllIsBuilt | src/shared/services/content_engine.py:74-117 | the whole-batch construction puts draft i on start + i days with difficulty i |
| ContentEngine.Planned | src/shared/services/content_engine.py:137-168 | a plan that goes through starts on a representable day whose last day `start + count - 1` is representable too, and holds one problem per draft |
| ContentEngine.PlannedOk | src/shared/services/content_engine.py:137-168 | a plan that goes through is made of the start date, the theme `_pick_theme` gives for the recent names, the model's batch for that theme and the problems built from all of it |
| ContentEngine.PlanBatch | src/shared/services/content_engine.py:137-168 | steps 1 to 5 compute exactly the plan, and a plan holds at most `count` problems |
| ContentEngine.Written | src/shared/services/content_engine.py:171-189 | the write only appends; a refused write adds no theme; a successful one created at least one problem and adds one theme record carrying the summary's theme |
| ContentEngine.WrittenInFull | src/shared/services/content_engine.py:171-189 | a successful write appended every problem and the record for `start .. start + count - 1` with count = problems created, and returns the date range `start → end` |
| ContentEngine.WrittenAll | src/shared/services/content_engine.py:171-189 | a non-empty batch with distinct keys, none of them stored, is written in full |
| ContentEngine.BatchOutcome | src/shared/services/content_engine.py:120-189 | a run only appends; a failed run adds no theme; a successful run created at least one problem and adds one theme record named after its theme |
| ContentEngine.BatchOutcomeFacts | src/shared/services/content_engine.py:120-189 | a run succeeds exactly when the plan goes through, the batch is non-empty and `insert_many` writes all of it; a failed plan writes nothing and reports its own error; a count below 1 fails and writes nothing |
| ContentEngine.BatchCreated | src/shared/services/content_engine.py:120-189 | a successful run started at the asked-for or next open date, used the theme `_pick_theme` gives, got 1..count drafts from the model, created one problem per draft, appended exactly the problems built from them after the old ones, and appended the theme record and date range for `start .. start + count - 1` |
| ContentEngine.BatchSucceeds | src/shared/services/content_engine.py:120-189 | a plan with a non-empty batch whose days are all free makes the run succeed: every built problem is appended and one theme record added |
| ContentEngine.GenerateBatch | src/shared/services/content_engine.py:120-189 | the new stores and the result are exactly the run's outcome on the old stores, so `BatchOutcomeFacts` says when it succeeds and what a failure leaves, and `BatchCreated` what a success wrote. It models the corrected program: `NextOpenDate` and `MostRecent` stand for the two tuple sorts (see Findings) |
| ContentEngine.SaveBatch | src/shared/services/content_engine.py:171-189 | the problems become the old ones plus what `insert_many` writes before the first duplicate key; it succeeds exactly when the batch is non-empty and written in full; otherwise it reports the empty insert or the first duplicate key and adds no theme; on success it adds exactly one theme record for `start .. start + count - 1` |
| ContentEngine.BufferDepth | src/shared/services/content_engine.py:192-198 | the buffer depth never exceeds the number of stored problems |
| ContentEngine.BufferDepthCountsFutureDays | src/shared/services/content_engine.py:192-198 | the buffer depth counts the stored days strictly after today |
| LegacyEngine.DaysUntilMonday | src/services/content_engine.py:32-34 | the offset lies in 1..7, is 7 exactly on a Monday, and lands on a Monday |
| LegacyEngine.WeekdayShift | src/services/content_engine.py:35 | adding n days moves the weekday by n mod 7 |
| LegacyEngine.NextMonday | src/services/content_engine.py:31-35 | the target is strictly after today and is a Monday |
| LegacyEngine.NextMondayIsFirst | src/services/content_engine.py:31-35 | no earlier day after today is a Monday |
| LegacyEngine.WeekIdShape | src/services/content_engine.py:36-38 | the week id is the padded ISO year, "-W" and the two-digit ISO week |
| LegacyEngine.ConvertCase | src/services/content_engine.py:77-85 | each test case is copied field by field |
| LegacyEngine.Convert | src/services/content_engine.py:69-88 | each draft maps to a problem with the same fields and no embedding |
| LegacyEngine.ConvertAll | src/services/content_engine.py:69-88 | one document per draft, in order, each converted field by field with the draft's key |
| LegacyEngine.ConvertBatch | src/services/content_engine.py:69-88 | the loop maps drafts one to one and in order to problems, which is `ConvertAll` |
| LegacyEngine.WeekOutcome | src/services/content_engine.py:11-108 | a run only appends problems; a failed run adds no theme; a successful one created at least one problem and adds the one theme record with its week id and theme |
| LegacyEngine.WeekOutcomeFacts | src/services/content_engine.py:11-108 | a run succeeds exactly when next Monday is in the calendar, the model answers both calls, the batch is non-empty and `insert_many` writes all of it; a failure leaves the themes as they were and the problems as the old ones plus the documents written before the refused one; an out-of-range Monday changes nothing |
| LegacyEngine.WeekSucceeds | src/services/content_engine.py:11-108 | a non-empty batch with distinct keys, none stored, makes the run succeed: every converted document is appended and one theme record saved |
| LegacyEngine.GenerateNextWeek | src/services/content_engine.py:11-108 | the new stores and the result are exactly the run's outcome; it succeeds exactly when next Monday is in the calendar, the model answers both calls and the whole converted batch is written, and a failure keeps the themes and leaves the old problems plus the documents written before the refused one; on success the model is shown the names of the 10 most recent themes, newest first, the batch is appended in order, problems_created is its size, and the theme record holds the returned week id and stripped theme. The recent names follow the corrected order (see Findings) |
| LegacyEngine.NextWeekSeesTheme | src/services/content_engine.py:42-46 | the theme just recorded heads the recent names the next run shows the model |
| LegacyEngine.RecentNamesMissNewestAsWritten | src/services/content_engine.py:42-46 | as written, once ten themes exist, the theme just recorded is missing from the recent names |
| AdminCalendar.FirstIndex | src/admin/main.py:68-78 | the first position of a name |
| AdminCalendar.DistinctNames | src/admin/main.py:68-78 | the distinct theme names, each once, exactly those that occur |
| AdminCalendar.DistinctNamesInOrder | src/admin/main.py:68-78 | distinct names come in order of first appearance |
| AdminCalendar.ColorMap | src/admin/main.py:68-78 | the k-th distinct name gets `THEME_COLORS[k % 8]` and only named themes get a colour |
| AdminCalendar.ColorsDistinctWithinEight | src/admin/main.py:68-78 | names fewer than 8 apart in first-appearance order get different colours |
| AdminCalendar.ColorMapUnique | src/admin/main.py:68-78 | any map meeting the colouring rule is the colour map |
| AdminCalendar.AssignColors | src/admin/main.py:68-78 | the counter loop builds exactly the colour map |
| AdminCalendar.FirstCovering | src/admin/main.py:81-89 | the first theme at or after i whose inclusive range covers the key, or none |
| AdminCalendar.FindThemeForDate | src/admin/main.py:81-89 | the first covering theme's slot, or the empty slot exactly when no theme covers the key |
| AdminCalendar.CoversChronological | src/admin/main.py:86 | covering by key comparison is covering by calendar order |
| AdminCalendar.MonthCells | src/admin/main.py:95-108 | one cell per day of the month, cell i being day i + 1 |
| AdminCalendar.BuildCells | src/admin/main.py:95-108 | the cell array holds exactly the month's cells |
| AdminCalendar.CellsAreTheMonthsDays | src/admin/main.py:96-108 | cell i is day i + 1 with its key, in the month's window, and is today exactly when it is today |
| AdminCalendar.CellProblemIsStored | src/admin/main.py:58-62 | a cell's problem is the stored problem for its key |
| AdminCalendar.MarkAll | src/admin/main.py:111-119 | each cell gains theme_start and theme_end computed from its neighbours |
| AdminCalendar.MarkBoundaries | src/admin/main.py:111-119 | the in-place loop sets exactly those flags |
| AdminCalendar.EndIsMirroredStart | src/admin/main.py:111-119 | theme_end is theme_start of the reversed month |
| AdminCalendar.SingleDayRun | src/admin/main.py:111-119 | a cell that both starts and ends a run differs from both neighbours |
| AdminCalendar.Trail | src/admin/main.py:122-136 | the trailing padding is under 7 and completes the last week |
| AdminCalendar.PresentOfLayout | src/admin/main.py:122-136 | removing the padding from the layout gives the cells in order |
| AdminCalendar.ChunkIntoWeeks | src/admin/main.py:122-136 | every row has 7 entries and the rows are the leading blanks, the cells and the trailing blanks |
| AdminCalendar.FillRows | src/admin/main.py:122-131 | the first two loops leave full rows of 7 and one partial row of fewer than 7, which together are the leading blanks followed by the cells |
| AdminCalendar.GetCalendarData | src/admin/main.py:56-149 | a month outside 1..12 is an error; otherwise year, month, name, day count, problem count, buffer, ten most recent themes and week rows. The theme list is the 20 most recent, newest first: the corrected order (see Findings) |
| AdminCalendar.NoCoveringShown | src/admin/main.py:81-89 | of the n most recent themes, a day shows no theme exactly when none of them covers it |
| AdminCalendar.NewestCoveringShown | src/admin/main.py:81-89 | of the n most recent themes, a day shows the newest one covering it |
| AdminCalendar.CellShowsNewestTheme | src/admin/main.py:65-108 | each calendar day shows the newest of the 20 most recent themes covering it, or none |
| AdminCalendar.OverlapShowsOlderAsWritten | src/admin/main.py:65-89 | as written, of two themes covering a day the older is shown and takes the first colour; in the corrected order the newer does |
| AdminCalendar.PrevDay | src/admin/main.py:164-166 | the day before a day after 0001-01-01 is a calendar day |
| AdminCalendar.NextOfPrevDay | src/admin/main.py:164-166 | the next day of the previous day is the day itself |
| AdminCalendar.AfterThe28th | src/admin/main.py:164-166 | four days after the 28th lies in the first days of the next month |
| AdminCalendar.ShowCalendar | src/admin/main.py:156-175 | missing or zero year and month default to today; previous and next month wrap across years; the page fails exactly at the representable edges |
| AdminCalendar.MonthLinks | src/admin/main.py:161-163 | the day before the 1st is in the previous month (December of the year before for January); four days after the 28th is in the next month, and it is representable except after December 9999 |
| AdminCuration.KeepTopics | src/admin/main.py:206 | the kept topics are stripped and non-empty |
| AdminCuration.Topics | src/admin/main.py:206 | the saved topics are stripped, non-empty and contain no comma |
| AdminCuration.KeepStrippedTopics | src/admin/main.py:206 | already-stripped non-empty topics are kept as they are |
| AdminCuration.TopicsRoundTrip | src/admin/main.py:206 | parsing the comma-joined list of clean topics gives the list back |
| AdminCuration.CaseFromJson | src/admin/main.py:211-220 | a case from an object takes id i + 1 and the fields with their defaults |
| AdminCuration.CasesFromJson | src/admin/main.py:209-222 | parsed test cases are renumbered 1..n |
| AdminCuration.ArrayCasesAccepted | src/admin/main.py:209-222 | an array is accepted exactly when every item is a valid case, giving one case per item |
| AdminCuration.Edited | src/admin/main.py:202-206 | the edited problem takes the form's fields and keeps its id and embedding |
| AdminCuration.SaveProblem | src/admin/main.py:188-225 | a missing key is 404; bad test cases keep the old ones; otherwise the document is replaced by the edited one |
| AdminCuration.MoveDocs | src/admin/main.py:236-261 | 404 when the source is missing, 400 on a bad date, 409 when the target is taken; on success the record moves to the new key and every other key is unchanged |
| AdminCuration.MoveFacts | src/admin/main.py:254-259 | insert-then-delete keeps ids unique and moves exactly one key |
| AdminCuration.MoveForm | src/admin/main.py:236-261 | the corrected form route only stores canonical keys |
| AdminCuration.MoveFormKeepsKeysCanonical | src/admin/main.py:236-261 | a corrected move keeps all stored keys canonical |
| AdminCuration.MoveProblem | src/admin/main.py:236-261 | the store changes exactly as the corrected move says, or not at all |
| AdminCuration.ApiMoveProblem | src/admin/main.py:373-397 | missing fields are refused; otherwise 404, 409 or the move, with the store unchanged on error |
| AdminCuration.Relocate | src/admin/main.py:249-259 | the store changes exactly as the move says, or not at all |
| AdminCuration.ForcedTheme | src/admin/main.py:324-345 | a blank theme means none, otherwise the theme is passed as given |
| AdminCuration.TotalCreatedBounds | src/admin/main.py:347-348 | the total is never negative and is 0 when every batch failed |
| AdminCuration.CreatedCount | src/admin/main.py:324-345 | at most one theme record per batch |
| AdminCuration.RunBatch | src/admin/main.py:324-345 | batch i runs on the stores the earlier batches left and extends the chain by its own step: the entry is tagged with the batch number; an unparsable date gives `Failed(i + 1, InvalidDate)` and changes nothing; otherwise the stores become `generate_batch`'s outcome on those stores, and the entry is `Created` with its summary exactly when it succeeded and `Failed` with its error when it raised |
| AdminCuration.RunBatches | src/admin/main.py:323-345 | one result per batch in order, each batch run on the stores the previous one left: a chain of `BatchStep`s from the old stores to the new ones |
| AdminCuration.ApiGenerateBatches | src/admin/main.py:309-348 | no batches is an error and changes nothing; otherwise the chain of the loop's steps, and the total is the sum of problems created |
| AdminCuration.ChainedStep | src/admin/main.py:323-345 | every step of a chain is one its step relation allows, from the state before it to the state after it |
| AdminCuration.ChainedPrefix | src/admin/main.py:323-345 | a chain depends only on the states and entries it covers |
| AdminCuration.ChainedExtend | src/admin/main.py:323-345 | a step from where the chain left the stores extends it by one |
| AdminCuration.StepGrows | src/admin/main.py:324-345 | a batch only appends: problems, and one theme record with the summary's theme exactly when it was created |
| AdminCuration.BatchStepsAppend | src/admin/main.py:324-345 | every step of the driver loop only appends |
| AdminCuration.ChainedGrows | src/admin/main.py:323-345 | along a chain of appending steps the problems and the themes only grow |
| AdminCuration.NextBatchSeesTheme | src/admin/main.py:311-314 | a created batch's theme heads the recent names the next batch's theme choice sees |
| AdminCuration.EarlierThemeSeen | src/admin/main.py:311-314 | the theme an earlier batch created is in the theme list every later batch runs against |
| LegacyProblemsRouter.StatusCode | src/routers/problems.py:77-100 | the HTTP codes are 400, 403 and 404 |
| LegacyProblemsRouter.TimeLockedGet | src/routers/problems.py:70-102 | 400 exactly when the date does not parse, 403 exactly when it is after today, 404 exactly when it is allowed but missing; a result is the stored document |
| LegacyProblemsRouter.FutureIsLocked | src/routers/problems.py:86-91 | every key of a day after today is refused with 403 |
| LegacyProblemsRouter.PastIsServed | src/routers/problems.py:86-100 | a stored key of today or earlier is served |
| LegacyProblemsRouter.FallbackIndex | src/routers/problems.py:52-54 | the fallback index lies in [0, n) |
| LegacyProblemsRouter.FallbackResponse | src/routers/problems.py:63-67 | the fallback response is the record's dump plus `_fallback` and `_original_date` |
| LegacyProblemsRouter.TodayProblem | src/routers/problems.py:21-67 | today's record is returned as-is without a flag; otherwise the fallback record; 404 exactly when the store is empty |
| LegacyProblemsRouter.FallbackIsStoredAndStable | src/routers/problems.py:52-67 | the fallback record is a stored record chosen by the key and the enumeration order only |
| LegacyProblemsRouter.ProblemByDate | src/routers/problems.py:70-102 | the time-locked lookup, dumped |
| ProblemsRouter.Adapted | src/api/routers/problems.py:23-36 | `_id` and `embedding` are absent, `id` holds the former `_id`, and every other key is unchanged |
| ProblemsRouter.AdaptForFrontend | src/api/routers/problems.py:23-36 | the in-place pops and assignment produce the adapted dictionary |
| ProblemsRouter.AdaptedIdempotent | src/api/routers/problems.py:29-36 | adapting twice is adapting once |
| ProblemsRouter.AdaptedDump | src/api/routers/problems.py:23-36 | the adapted dump of a problem has id, no _id and no embedding |
| ProblemsRouter.AdaptedDumpInjective | src/api/routers/problems.py:23-36 | the adapted dump determines the problem except for its embedding |
| ProblemsRouter.TodayProblem | src/api/routers/problems.py:39-56 | today's record adapted, or 404 exactly when there is none |
| ProblemsRouter.ProblemByDate | src/api/routers/problems.py:59-91 | 400, 403 and 404 as in the time-lock, else the adapted record |
| ProblemsRouter.TodayByDate | src/api/routers/problems.py:39-91 | reading today's key by date gives the same answer as reading today |
| CalendarRouter.EntryOf | src/api/routers/calendar.py:58-64 | an entry carries the record's date, title and difficulty |
| CalendarRouter.VisibleExact | src/api/routers/calendar.py:53-64 | an entry is kept exactly when it is the entry of a record of the month whose key is not after today |
| CalendarRouter.GetMonthCalendar | src/api/routers/calendar.py:19-73 | 422 on a malformed month, the error reply for months outside 1..12, otherwise the visible month entries sorted by date with count = their number |
| CalendarRouter.EntrySource | src/api/routers/calendar.py:47-64 | every entry comes from a stored record in the window that is not after today |
| CalendarRouter.MonthDaysSafe | src/api/routers/calendar.py:47-73 | the entries are sorted, stored, in the month's window and never after today |
| CalendarRouter.MonthDaysExact | src/api/routers/calendar.py:43-64 | a canonical day is listed exactly when it is stored, in the month and not after today |
| ThemesRouter.WithStartDate | src/api/routers/themes.py:33-34 | the records of exactly the documents that hold a start date |
| ThemesRouter.Selected | src/api/routers/themes.py:30-56 | a theme is selected exactly when a document holds it with a start date that is not after today and, with a month, is in that month; a document without a start date is never selected |
| ThemesRouter.GetThemes | src/api/routers/themes.py:14-61 | 422 on a malformed month; otherwise the selected themes, as a permutation sorted by start date descending. The month filter is the corrected `prefix-01 .. prefix-31` window, not the unpadded next-month bound (see Findings) |
| ThemesRouter.SelectedWithKey | src/api/routers/themes.py:30-56 | the criteria look only at the start date: the themes stored with one start date are all selected, in stored order, or none is |
| ThemesRouter.ThemesTieOrder | src/api/routers/themes.py:56-59 | themes stored with the same start date keep their stored order in the list; documents without a start date are not in it |
| ThemesRouter.ThemesListed | src/api/routers/themes.py:30-56 | a theme is listed exactly when a document holds it with a start date not after today's key and, with a month, in the window; a document without a start date is not listed on its own account, as `$lte` never matches a missing field |
| ThemesRouter.StartsInMonthExact | src/api/routers/themes.py:37-49 | a theme starting on a canonical day is in the window exactly when that day is in the month |
| ThemesRouter.DecemberOf9999IsEmpty | src/api/routers/themes.py:42-45 | as written, a theme starting on any day of December 9999 is excluded from "9999-12" though it is in that month |
| ThemesRouter.EarlyYearTakesInLaterThemes | src/api/routers/themes.py:42-45 | as written, "0999-02" takes in a theme starting on any day of the years 1000 to 8999 (2026-03-01, say) though it is not in that month |
| ThemesRouter.PrintedMonthQuery | src/api/routers/themes.py:40 | every printed `YYYY-MM` passes the query pattern and parses back to its year and month |
| ThemesRouter.LowerBoundIsKey | src/api/routers/themes.py:41 | the lower bound `f"{month}-01"` is the key of the month's first day |
| ThemesRouter.UpperBoundIsKey | src/api/routers/themes.py:42-45 | for a four-digit year, outside December 9999, the written upper bound is the key of the next month's first day |
| ThemesRouter.AsWrittenAgreesForFourDigitYears | src/api/routers/themes.py:42-45 | for years 1000..9999 outside 9999-12 the boundary as written agrees with the corrected window |
| RateLimit.Trunc | src/api/middleware/rate_limit.py:73-74 | `int()` truncates toward zero |
| RateLimit.RetryAfter | src/api/middleware/rate_limit.py:73-74 | retry-after is at least 1 and at most window + 1 |
| RateLimit.Kept | src/api/middleware/rate_limit.py:47-52 | cleaning keeps exactly the timestamps after the cutoff |
| RateLimit.KeptAppend | src/api/middleware/rate_limit.py:47-52 | cleaning keeps the original order |
| RateLimit.KeptIdempotent | src/api/middleware/rate_limit.py:47-52 | cleaning twice is cleaning once |
| RateLimit.KeptShrinks | src/api/middleware/rate_limit.py:47-52 | cleaning at one cutoff and then at a later one is the same as cleaning once at the later cutoff |
| RateLimit.ClientKey | src/api/middleware/rate_limit.py:62-66 | the first forwarded hop, stripped, else the host, else "unknown"; a forwarded key has no comma |
| RateLimit.ClientKeyFirstHop | src/api/middleware/rate_limit.py:62-64 | the key of a comma-free first hop is that hop stripped |
| RateLimit.ClientKeyIgnoresLaterHops | src/api/middleware/rate_limit.py:62-64 | later hops do not change the key |
| RateLimit.AnyPrefix | src/api/middleware/rate_limit.py:41-45 | some listed prefix starts the path |
| RateLimit.RateLimiter.constructor | src/api/middleware/rate_limit.py:27-39 | an empty table with the given limit, window and paths (none given means every path) |
| RateLimit.RateLimiter.IsProtected | src/api/middleware/rate_limit.py:41-45 | every path when the list is empty, otherwise exactly the paths with a listed prefix |
| RateLimit.RateLimiter.CleanOldRequests | src/api/middleware/rate_limit.py:47-52 | only that client's entry changes, to its cleaned list |
| RateLimit.RateLimiter.Dispatch | src/api/middleware/rate_limit.py:54-86 | unprotected paths leave the table untouched; the client's list is cleaned; below the limit `now` is appended and the request passes; at the limit the request is rejected with the retry-after of the oldest stamp and `now` is not recorded (an empty list at a limit <= 0 raises); each list stays within the limit |
| ContentEngine.NextOpenDateAsWritten | src/shared/services/content_engine.py:44-50 | the next open date as written, taking the first record in natural order |
| ContentEngine.NextOpenDateCollides | src/shared/services/content_engine.py:44-50 | as written, the next open date can be an occupied day |
| ContentEngine.FirstRecords | src/shared/services/content_engine.py:63-67 | the recent themes as written: the first n records in natural order |
| ContentEngine.FirstRecordsMissNewest | src/shared/services/content_engine.py:63-67 | as written, the newest theme is missing from the "recent" list |
| AdminCuration.MoveFormStoresUnpaddedKey | src/admin/main.py:243-246 | as written, moving to "2026-3-5" stores a non-canonical key; the corrected route refuses it |

## Left out

- The language model (`PickWeeklyTheme`, `GenerateProblemBatch`) is an oracle value whose answers may be missing. Its retries, prompts and non-determinism are not modelled.
- SHA-256 in the fallback is a parameter `digest: string -> nat`. Only the `mod n` selection is modelled.
- The clock (`datetime.utcnow()`, `time.time()`) is a parameter. Rate-limiter timestamps are exact `real`s, not floats.
- MongoDB and Beanie:
  - A collection is a sequence of documents in insertion order, which is the natural order.
  - The `revision_id` field is not in the dumps.
  - Theme ids are insertion counters, not ObjectIds.
  - Ordering themes by `generated_at` is taken to be insertion order, which assumes the clock does not go back.
- Async/await interleaving is not modelled. Each handler runs to completion on its own, and the code does not protect against concurrent requests.
- HTTP and rendering are not modelled: Jinja templates, redirects, the detail strings of errors, and response shaping beyond an error-kind datatype.
- `json.loads` of the test-case field is not modelled. The field arrives as an already decoded `Option<Json>`, where None stands for a decode error.
- Non-string JSON values in the move API and in batch definitions are not modelled.
- `editor_page`, `generate_page` and `delete_problem` are not modelled as routes: they only render or call the modelled `Delete`. `update_theme` is not modelled: it assigns one field and saves.
- Text.Lower: maps only ASCII letters, not Unicode case folding.
- MonthKeys.MatchesMonthPattern: accepts ASCII digits only. The route's `\d` also accepts other Unicode decimal digits.
- AdminCalendar.GetCalendarData: requires year >= 1. Its only caller, `calendar_page`, turns year 0 into the current year (src/admin/main.py:159), and for any other year outside 1..9999 `date(year, month, 1)` (src/admin/main.py:164) raises after the data is built, so the page fails either way. `ShowCalendar` checks the year before building the data instead of after; building it only reads, so the outcome is the same.
- DateParse.Strptime: accepts ASCII digits only. CPython's `\d` and `int()` also accept other Unicode decimal digits ("２０２６-03-05" parses there); every key the system writes is ASCII.
- ThemesRouter.GetThemes: the `ValueError` branch of the month parse is not modelled. The query pattern already ensures both parts are digits, so the branch cannot be taken.
- CalendarRouter.EntryOf: entries carry the title, as the code does, although a doc comment in `calendar.py` says entries have no titles.

## Findings

| source | as written | input that shows it | evidently intended | confidence | as-written member | corrected member |
|---|---|---|---|---|---|---|
| src/shared/services/content_engine.py:44-50 | `sort=[("-_id", -1)]` names the field literally "-_id", which no document has, so `find_one` returns the first record in natural order | store holds 2026-03-01 then 2026-03-02; the next open date is 2026-03-02, which is already taken | the greatest key plus one day | not executed | ContentEngine.NextOpenDateCollides | ContentEngine.NextOpenDateIsOpen |
| src/shared/services/content_engine.py:63-67 | the same tuple sort on "-generated_at" returns the first n themes, not the newest | any store with more than n themes; the newest theme is not in the list | the n most recent themes | not executed | ContentEngine.FirstRecordsMissNewest | ContentEngine.MostRecent |
| src/admin/main.py:243-246 | `strptime` accepts one-digit months and days, and the unparsed string is stored as the key | move to "2026-3-5" | only canonical `YYYY-MM-DD` keys are stored | not executed | AdminCuration.MoveFormStoresUnpaddedKey | AdminCuration.MoveFormKeepsKeysCanonical |
| src/api/routers/themes.py:42-45 | the next-month bound formats the year without padding | month "9999-12" gives bound "10000-01-01", which sorts before "9999-12-01", so nothing is returned; "0999-02" gives "999-03-01", which takes in 2026 themes | start key within the month | not executed | ThemesRouter.DecemberOf9999IsEmpty | ThemesRouter.StartsInMonthExact |
| src/admin/main.py:65 | `find_all(sort=[("-generated_at", -1)], limit=20)` sorts on the absent field "-generated_at", so the calendar gets the first 20 themes in natural order | themes A then B both cover 2026-03-05: the day shows A, and A takes colour #d29922 | the newest covering theme is shown and colours go newest first | not executed | AdminCalendar.OverlapShowsOlderAsWritten | AdminCalendar.CellShowsNewestTheme |
| src/services/content_engine.py:42-46 | the same tuple sort with `limit=10` gives the first 10 themes in natural order | a store already holding 10 themes with other names: the week generated next is missing from the names the next run avoids | the 10 most recent theme names | not executed | LegacyEngine.RecentNamesMissNewestAsWritten | LegacyEngine.NextWeekSeesTheme |
