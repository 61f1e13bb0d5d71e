# A verified model of the misung-crm back office core

The repository is a sales and CRM back office for a Korean construction
supply firm: a Bun server over Supabase, a React front end and two seed-data
scripts. This project models the deterministic logic between the database
and network calls. Each query's result is an input sequence of rows, and
each handler, loop or form callback is a function or method over those rows.

The model has one Dafny module per core source file, plus shared modules:

- `Wrappers`: `Option` and `Result`.
- `Text`: digits, decimal rendering, `split`/`join`, trimming, substring
  search, ASCII lower case, character removal and the default string order
  of `Array.prototype.sort`.
- `Seqs`: order-preserving de-duplication (pandas `unique()`,
  `[...new Set(…)]`, the insertion order of a `Map`'s keys) and first
  indices.
- `Sorting`: the two kinds of `sort` call, as insertion sorts on sequences.
- `Calendar`: leap years, `new Date(year, month, 0)` and the UTC month of
  a millisecond timestamp.
- `Amounts`: `parseFloat` on integer text, `parseAmountString`, the
  digits-only amount inputs, thousands grouping and a site's financials.
- `MonthBuckets`: the twelve-bucket monthly accumulation that every
  statistics module repeats.
- `RecordRules`: the rules the CRUD modules share. These are the
  multi-branch users and the `(In)` suffix, records as maps of JSON values,
  `cms_id` resolution, the admin-or-owner check, LIKE escaping, pagination
  and the `getAllUsers` expansion.
- `SeedSql`: SQL escaping and the INSERT statements of the exporters, with
  a reader that parses rendered statements back.
- `MonthRanges`: the date ranges of the month filters.

Loops that update variables are `method`s with loop invariants. Each such
method is proved equal to a specification function, or to the state it
leaves. The properties are then proved about those functions, as lemmas.
Front-end handlers are functions from a state value to the next state.
Integers are unbounded. Money counts in whole won, and the construction
scores count in tenths.


## Model

| member | source | states |
|---|---|---|
| ExtractExcelPy.CollectItems | extract_excel_data.py:16-21 | The item list has one entry per sheet row, in row order, holding that row's `item_id` and `item_name`. Nothing is dropped or merged. |
| ExtractExcelPy.ConstructionValues | extract_excel_data.py:34-38 | There is one `('<escaped company>')` tuple per company, in list order. |
| ExtractExcelPy.ItemValues | extract_excel_data.py:45-49 | There is one `('<escaped id>', '<escaped name>')` tuple per item, in item order. |
| ExtractExcelPy.Run | extract_excel_data.py:7-58 | The bundle's company list is the column's distinct values, each once, in first-seen order. The bundle holds one item per row. The printed SQL is built from exactly the two lists put into the bundle. |
| ExtractExcelPy.PrintedSqlMatchesBundle | extract_excel_data.py:32-52 | The printed SQL section is the two statements plus a final newline. The constructions statement reads back as one single-field row per bundled company, and the items statement as the bundled (item_id, item_name) pairs. |
| Seqs.Unique | extract_excel_data.py:7 | The de-duplicated list has no duplicates. |
| Seqs.UniqueMembership | extract_excel_data.py:7 | A value is in the de-duplicated list exactly when it is in the input. |
| Seqs.UniqueElements | extract_excel_data.py:7 | Every listed value occurs in the input, and every input value is listed. |
| Seqs.UniqueKeepsFirstSeenOrder | extract_excel_data.py:7 | The listed values appear in the order of their first occurrences in the input. |
| Seqs.UniqueSnoc | extract_excel_data.ts:9 | Appending a value extends the de-duplicated list exactly when the value is new. A repeated value leaves the list unchanged. |
| Seqs.FirstIndex | extract_excel_data.ts:9 | The first index holds the value, and no earlier position does. |
| Seqs.FirstIndexIs | extract_excel_data.ts:9 | A position holding the value with none before it is the first index. |
| ExtractExcelTs.ItemsOf | extract_excel_data.ts:44-48 | Each item row contributes its `item_id` and `item_name`, one entry per row, in row order. |
| ExtractExcelTs.BundleOf | extract_excel_data.ts:53-56 | The bundle's names have no duplicates and are exactly the column's values. Its items are the sheet rows, unmodified. |
| ExtractExcelTs.NamesKeepFirstSeenOrder | extract_excel_data.ts:9 | Spreading the `Set` keeps names in the order of their first appearance. |
| ExtractExcelTs.ItemValuesFollowRows | extract_excel_data.ts:44-48 | `itemValues` has one tuple per row. The i-th tuple is the two literals of row i, reads back as that row's id and name, and has every quote in them doubled. |
| ExtractExcelTs.ConstructionValuesFollowNames | extract_excel_data.ts:34-37 | There is one tuple per distinct name. The i-th tuple reads back as the i-th name, with every quote doubled. |
| ExtractExcelTs.FileMatchesConsole | extract_excel_data.ts:62-70 | The SQL written to `initial_data.sql` is the printed SQL section without its final newline. It has the same tuple lists, separators and conflict clauses. |
| SeedSql.SqlEscape | extract_excel_data.py:37 | Escaping never shortens the text, and text without a quote is left as it is. `SqlEscapeProperties` gathers the rest: it is undone by reading doubled quotes back, every quote is doubled, and nothing else changes (the same escape is at extract_excel_data.ts:35 and 45-46). |
| SeedSql.UnescapeEscape | extract_excel_data.py:37 | Reading doubled quotes back as single ones recovers the original text. |
| SeedSql.EscapeDoublesQuotes | extract_excel_data.py:47-48 | Every quote of the escaped text belongs to a doubled pair. |
| SeedSql.EscapeLength | extract_excel_data.ts:35 | Escaping adds exactly one character per quote. |
| SeedSql.EscapeKeepsOtherChars | extract_excel_data.ts:45-46 | With the quotes removed, the escaped text equals the original. No other character changes. |
| SeedSql.SqlEscapeProperties | extract_excel_data.py:37 | This gathers the four escaping facts: inverse, quotes paired, length, other characters kept. |
| SeedSql.ReadEscaped | extract_excel_data.py:38 | A rendered literal ends exactly at its closing quote, whatever non-quote text follows it. |
| SeedSql.ParseRenderedFields | extract_excel_data.py:49 | Literals joined by ", " read back as the original fields, in order. |
| SeedSql.ParseRenderedTuple | extract_excel_data.py:49 | A rendered tuple reads back as its fields. |
| SeedSql.Tuples | extract_excel_data.py:38 | There is one rendered tuple per row, in row order. |
| SeedSql.ParseRenderedTuples | extract_excel_data.py:40 | Tuples joined by ",\n" read back as exactly the rows, in order. |
| SeedSql.Statement | extract_excel_data.py:33-41 | A statement starts with its INSERT header line and ends with `ON CONFLICT (<key>) DO NOTHING;` on its own line. |
| SeedSql.DecodeRenderedStatement | extract_excel_data.py:40-41 | A rendered statement reads back as exactly its rows, given its header and conflict key. |
| SeedSql.ConstructionsRoundTrip | extract_excel_data.py:33-41 | The constructions statement reads back as one single-field row per company, keyed on company_name. |
| SeedSql.ItemsRoundTrip | extract_excel_data.py:44-52 | The items statement reads back as the (item_id, item_name) pair of each item, keyed on item_id. |
| SeedSql.PrintedSqlIsScript | extract_excel_data.ts:62-70 | Printing the SQL lines one by one writes the file's text plus a final newline. |
| ConstructionScoreStats.FindPlan | src/server/construction-score-stats.ts:109 | A found plan is a fetched plan with the detail's `daily_plan_id`. Nothing is found exactly when no fetched plan has that id. |
| ConstructionScoreStats.MatchedSnoc | src/server/construction-score-stats.ts:108-115 | One more detail adds one activity, dated by its plan's `created_at` before the `T`, exactly when its plan was fetched. |
| ConstructionScoreStats.UnmatchedDetailIgnored | src/server/construction-score-stats.ts:109-110 | A detail whose plan is not among the fetched plans contributes nothing. |
| ConstructionScoreStats.DatesCount | src/server/construction-score-stats.ts:131-138 | A key's quote (meeting) list holds one date per detail of that key with `has_quote_submitted` (`has_meeting_conducted`). A detail with both flags adds to both. |
| ConstructionScoreStats.RecordActivity | src/server/construction-score-stats.ts:117-138 | The loop body creates an entry for a new key, named `"<item_id> - <item_name>"`. It then pushes the date onto the quote and meeting lists as the two flags say. |
| ConstructionScoreStats.EntryOfSnoc | src/server/construction-score-stats.ts:117-138 | One more activity records its flags in the entry of its own key. A new key's entry starts from the detail's names. Other keys' entries are unchanged. |
| ConstructionScoreStats.KeyEntriesAt | src/server/construction-score-stats.ts:114-126 | The map holds one entry per distinct `"<cid>_<iid>"` key, in first-seen order. Each entry is named by the key's first detail and holds every date recorded for it. |
| ConstructionScoreStats.GroupStep | src/server/construction-score-stats.ts:108-139 | Recording an activity in the map of some activities gives the map of the longer list. |
| ConstructionScoreStats.GroupDetails | src/server/construction-score-stats.ts:99-139 | After the loop, the keys are the matched details' keys, de-duplicated in first-seen order, and the entries are their grouped dates. |
| ConstructionScoreStats.ScoreTenths | src/server/construction-score-stats.ts:151-152 | A score in tenths is 0 exactly when the count is 0, and 10 + (count − 1) otherwise: 1 point for the first activity and 0.1 for each later one. |
| ConstructionScoreStats.Latest | src/server/construction-score-stats.ts:155-156 | The first of `all_dates.sort().reverse()` is a listed, non-empty date that no other date follows. The result is null when every date is empty or there is none. |
| ConstructionScoreStats.ScoreItem | src/server/construction-score-stats.ts:142-179 | The item score keeps the entry's ids and names. Its two date lists are sorted permutations of the recorded ones. Its counts are their lengths, and its scores are the tenths of those counts. |
| ConstructionScoreStats.LatestOfBoth | src/server/construction-score-stats.ts:155 | The latest date of the two sorted lists is the latest date of the unsorted lists they came from. |
| ConstructionScoreStats.RecentIsLatestOfBoth | src/server/construction-score-stats.ts:155-156 | `recent_activity_date` is a quote or meeting date that no date of either list follows. It is null exactly when neither list holds a non-empty date. |
| ConstructionScoreStats.ScoreAll | src/server/construction-score-stats.ts:142 | There is one item score per map entry, in map order. |
| ConstructionScoreStats.ItemsOfMembers | src/server/construction-score-stats.ts:184-197 | A construction's item scores are exactly the item scores with its id. |
| ConstructionScoreStats.GroupOfSnoc | src/server/construction-score-stats.ts:194-196 | One more item score is pushed onto its own construction's group, adding its quote and meeting counts to the total. Other groups are unchanged. |
| ConstructionScoreStats.GroupByStep | src/server/construction-score-stats.ts:184-197 | Adding one more item score to the groups gives the groups of the longer list. |
| ConstructionScoreStats.RecordItem | src/server/construction-score-stats.ts:185-196 | The loop body opens the group of a new construction, then pushes the item score and adds its activities. |
| ConstructionScoreStats.GroupByConstruction | src/server/construction-score-stats.ts:182-197 | The loop leaves one group per construction id, in first-seen order, each the construction's group. |
| ConstructionScoreStats.GroupsAt | src/server/construction-score-stats.ts:182-197 | Each position holds the group of the construction first seen there. |
| ConstructionScoreStats.GroupTotalIsItemSum | src/server/construction-score-stats.ts:194-196 | A construction's `total_activities` is the sum of quote_count + meeting_count over its items. Its items are exactly the item scores of that construction. |
| ConstructionScoreStats.TotalOfPermutation | src/server/construction-score-stats.ts:207 | The summed totals do not depend on the order of the list. |
| ConstructionScoreStats.Ranked | src/server/construction-score-stats.ts:200-202 | The ranked scores are a permutation of the groups, with non-increasing `total_activities`. |
| ConstructionScoreStats.ScoreStats | src/server/construction-score-stats.ts:51-224 | A failed plans query is an error carrying the query error's message, or '점수 통계를 조회하는데 실패했습니다.' when it has none. With no plans, the answer is no scores and a zero summary, and details are not read. Otherwise a failed details query is an error of the same kind. The answer succeeds exactly when plans were read and were either empty or were followed by a successful details read. A successful answer with plans holds the ranked groups of the matched details. Its summary is their number and the sum of their totals. |
| ConstructionScoreStats.RankingKeepsTotal | src/server/construction-score-stats.ts:200-208 | Ranking keeps the sum of totals. There is one score per distinct construction. |
| ConstructionScoreStats.NoMatchedDetailsNoScores | src/server/construction-score-stats.ts:108-110 | Plans that no detail matches give no scores. |
| OrderStats.Classify | src/server/order-stats.ts:76-91 | The loop's two lists are the codes of the sites with rate at least 90 or 0, and of those with rate below 90 and not 0, each in row order. |
| OrderStats.EverySiteInOneClass | src/server/order-stats.ts:82-90 | The two conditions are complements: together the lists hold every site's code exactly once, and their lengths add up to the number of sites. |
| OrderStats.MissingRateIsSales | src/server/order-stats.ts:80 | A site without an execution rate counts as rate 0 and lands in the sales list only. |
| OrderStats.ExtractMonthOfDate | src/server/order-stats.ts:246-255 | For "YYYY-MM" and "YYYY-MM-DD" the extracted month is the number MM. |
| OrderStats.ExtractMonthZero | src/server/order-stats.ts:247-260 | A missing or empty order month, or one without '-', gives month 0. |
| OrderStats.FetchOrderData | src/server/order-stats.ts:225-243 | The rows are exactly the table rows whose cms is in the list; an empty list returns no rows without a query. |
| OrderStats.MonthRecord | src/server/order-stats.ts:164-178 | A month record keeps its six accumulated amounts. Each class's planned profit is order minus execution, the totals add the two classes, and the target total adds the two targets. |
| OrderStats.SummaryKeepsDerived | src/server/order-stats.ts:193-209 | Summing months field by field keeps the derived relations: the summary's profit, totals and target total follow from its other fields. |
| OrderStats.SummaryFields | src/server/order-stats.ts:193-209 | Each accumulated summary field is the sum of that field over the months. |
| OrderStats.SummaryIsInYearTotals | src/server/order-stats.ts:127-161 | In the summary of the twelve bucketed months, each accumulated field is the total of the rows of its table whose month lies in 1..12. |
| OrderStats.OutOfRangeRowChangesNoMonth | src/server/order-stats.ts:128-129 | A sales or profit row whose order month is outside 1..12 changes no month's record. |
| OrderStats.DeriveMonths | src/server/order-stats.ts:113-124 | The twelve records, months 1 to 12 in order, each built from that month's six accumulated amounts with its derived fields. |
| OrderStats.Summarize | src/server/order-stats.ts:184-209 | The summary loop computes the field-wise sum of the months. |
| OrderStats.CreateEmptyResponse | src/server/order-stats.ts:264-292 | Twelve all-zero months numbered 1 to 12 and an all-zero summary. |
| OrderStats.ZeroMonthsSumToZero | src/server/order-stats.ts:278-290 | Months that are all zero sum to the all-zero summary. |
| OrderStats.EmptyResponseIsNoRows | src/server/order-stats.ts:70-73 | The empty response is what bucketing no rows gives: every month is zero and so is the summary. |
| OrderStats.Aggregate | src/server/order-stats.ts:113-209 | Month i+1 holds the totals of the sales rows, profit rows and weekly-plan targets bucketed to it, and the summary is the sum of the months. |
| OrderStats.BucketedMonthsDerived | src/server/order-stats.ts:164-209 | The bucketed months and their summary satisfy the derived relations. |
| OrderStats.GetOrderStats | src/server/order-stats.ts:57-222 | The answer fails exactly when the site_summary query failed, and then carries '현장 정보를 불러오지 못했습니다.'. A failed construction or plans query reads as no rows (lines 147 and 237-240). Otherwise the answer is the statistics of the sites over the rows and the targets, as `StatsOfSites` promises. |
| OrderStats.StatsOfSites | src/server/order-stats.ts:70-217 | Twelve months always. Without sites, every month and the summary are zero. Otherwise each month holds the bucketed rows of the two classes' fetched rows and the targets. The months and the summary satisfy the derived relations, and the summary is the sum of the months. |
| MonthBuckets.Accumulate | src/server/sales-stats.ts:76-95 | Twelve buckets start at zero. Bucket i holds the total of the rows' amounts posted to month i+1, and rows posted outside 1..12 are dropped. |
| MonthBuckets.OutOfYearChangesNothing | src/server/order-stats.ts:128-133 | A row posted to a month outside 1..12 changes no bucket. |
| MonthBuckets.MonthsPartitionTotal | src/server/sales-stats.ts:87-90 | The twelve buckets together hold the total of every in-year posting, each posting in exactly one bucket. |
| MonthBuckets.SumOfTwelveBuckets | src/server/sales-stats.ts:148-153 | Summing a bucket column over the twelve monthly records gives the total of the in-year postings. |
| SalesStats.SalesMonth | src/server/sales-stats.ts:131-137 | A month's record has its month number, and its profit is revenue minus cost. |
| SalesStats.MonthlyRecords | src/server/sales-stats.ts:130-138 | Twelve records in month order, record i for month i+1 built from bucket i of each column. |
| SalesStats.Summarize | src/server/sales-stats.ts:141-153 | The summary loop computes the field-wise sum of the months. |
| SalesStats.SummaryProfit | src/server/sales-stats.ts:151 | Summing months whose profit is revenue minus cost gives a summary whose profit is its revenue minus its cost. |
| SalesStats.SummaryFields | src/server/sales-stats.ts:148-153 | The summary's revenue, cost and target are the sums of those fields over the months. |
| SalesStats.SummaryIsInYearTotals | src/server/sales-stats.ts:82-153 | For the twelve bucketed months, the summary's revenue, cost and target are the totals of the counted in-year rows of their tables, and its profit is revenue minus cost. |
| SalesStats.SkippedRowChangesNothing | src/server/sales-stats.ts:83 | A row without a date, or with a zero or missing amount, changes no month. |
| SalesStats.GetSalesStats | src/server/sales-stats.ts:29-161 | A failed inpays query returns its message. A failed outpays query returns its own message. A failed weekly-plan query only loses the targets. Otherwise the result has twelve bucketed months; its summary is their sum, equals the in-year totals, and has profit equal to revenue minus cost. |
| ActivityStats.BumpAdds | src/server/activity-stats.ts:148-151 | Counting a plan into counters whose total is the sum of the three adds the plan's flags, and the total stays the sum of the three counters. |
| ActivityStats.TallyBalanced | src/server/activity-stats.ts:151 | After any rows are counted, a month's total is the sum of its three counters. |
| ActivityStats.TallySnoc | src/server/activity-stats.ts:147-151 | One more row adds its flags to its own month and changes no other month. |
| ActivityStats.TallyAbsent | src/server/activity-stats.ts:138-145 | A month that no row has keeps all-zero counters. |
| ActivityStats.KeysStep | src/server/activity-stats.ts:138-145 | The map's keys are the months met so far, in first-seen order: a new month is appended at the end and a known one changes nothing. |
| ActivityStats.WeeklyStep | src/server/activity-stats.ts:133-152 | Counting the next weekly plan keeps the map invariant: keys in first-seen order, and each value holding its month's counters. |
| ActivityStats.DailyStep | src/server/activity-stats.ts:155-174 | Counting the next daily plan keeps the same invariant, with the daily plans as carried-out activities. |
| ActivityStats.CountMonths | src/server/activity-stats.ts:130-174 | After both loops the map has one entry per month of a weekly or daily plan, in first-seen order, each with that month's plan and actual counters. |
| ActivityStats.Percent | src/server/activity-stats.ts:182-193 | Zero when nothing is planned. Otherwise it is the integer nearest to 100 times actual over plan, with halves rounded up. |
| ActivityStats.PercentBounds | src/server/activity-stats.ts:182-193 | Doing between none and all of the plan gives 0 to 100 percent; doing all of it gives 100, and none gives 0. |
| ActivityStats.SumMonths | src/server/activity-stats.ts:204-214 | The summary loop computes the field-wise sums of the months' plan and actual counters. |
| ActivityStats.SumTalliesPartition | src/server/activity-stats.ts:204-214 | Adding up the counters of distinct months that cover every row's month gives the counters of all the rows. |
| ActivityStats.PermutedEntries | src/server/activity-stats.ts:177-178 | Any reordering of the map's values still holds each month's counters, and it covers exactly the map's months. |
| ActivityStats.StrictlyAscending | src/server/activity-stats.ts:178 | Sorted entries of distinct months are in strictly ascending month order. |
| ActivityStats.SortedEntries | src/server/activity-stats.ts:177-195 | The sorted values with their percentages have one record per month that has a plan, in strictly ascending order, each with its counters and percentages. |
| ActivityStats.SummaryCounts | src/server/activity-stats.ts:198-214 | The summary's plan counters are the counters of all the weekly plans; its actual counters are those of all the daily plans. |
| ActivityStats.GetActivityStats | src/server/activity-stats.ts:91-240 | A failed weekly query returns its message, and a failed daily query returns its own. Otherwise the monthly list has one record per month with a plan, in ascending order, each with its counters and percentages. The summary counts every row, and its percentages come from the summed counters. |
| CollectionStats.BuildMonthly | src/server/collection-stats.ts:183-195 | Twelve records, months 1 to 12 in order, record i holding bucket i of each of the four columns. |
| CollectionStats.SummaryIsInYearTotals | src/server/collection-stats.ts:198-203 | The four summary totals of the twelve bucketed months are the in-year totals of the plans, the collections and the administrator's rows. |
| CollectionStats.OutOfRangeRowIgnored | src/server/collection-stats.ts:173-180 | An administrator's row filed under a month outside 1..12 changes neither its confirmed nor its outstanding bucket. |
| CollectionStats.CountedRowLandsInKstMonth | src/server/collection-stats.ts:137-170 | A plan or collection with a timestamp and a non-zero amount adds that amount to the month its timestamp has nine hours east of UTC. |
| CollectionStats.GetCollectionStats | src/server/collection-stats.ts:31-213 | A failed weekly-plan query returns its message, and a failed collections query returns its own. A failed monthly_collection query only loses the administrator's figures. Otherwise each query keeps the rows of the user's author names, the months hold the buckets, and the summary totals equal the in-year totals. |
| Calendar.DaysInMonth | src/server/collections.ts:77 | Every month has 28 to 31 days, and February has 29 exactly in a leap year. |
| Calendar.LastDayOfMonth | src/server/collections.ts:77 | Day 0 of the next month is between 28 and 31. For a month 1..12 of a year outside 0..99 it is that month's number of days. |
| Calendar.MonthWalkFindsMonth | src/server/collection-stats.ts:141-143 | The month found by walking whole months holds the day: the day falls after all earlier months and within the month found. |
| Calendar.UtcDate | src/server/collection-stats.ts:141-143 | The date of a day counted from the epoch is a valid date: its month is 1..12 and its day lies within that month. |
| Calendar.KstMonth | src/server/collection-stats.ts:141-143 | The month of a timestamp nine hours east of UTC is always 1..12, so every dated plan or collection is counted. |
| MonthRanges.Pad2Value | src/server/collections.ts:76-78 | A number below 100, padded to two digits, reads back as that number. |
| MonthRanges.MonthRangeText | src/server/collections.ts:76-78 | The two filter strings are the rendered first and last day of the month range. |
| MonthRanges.MonthRange | src/server/collections.ts:76-78 | The range runs from the first of the month to its last day, which is the month's own length for a month 1..12 of a year outside 0..99. |
| MonthRanges.MonthRangeIsMonth | src/server/collections.ts:76-83 | For a month 1..12 of a year outside 0..99, a valid date lies in the range exactly when it is in that month. |
| MonthRanges.PreviousDay | src/server/invoice-records.ts:80-81 | The previous day is a valid date before the given one, and no valid date lies between them. |
| MonthRanges.NextDay | src/server/sales-activities.ts:78 | The next day is a valid date after the given one, and no valid date lies between them. |
| MonthRanges.UtcDateAt | src/server/invoice-records.ts:80-81 | The UTC date of a local instant is valid. At offset 0 it is the local date. It is the day before when the offset carries the instant back past midnight, and the day after when it carries it forward. |
| MonthRanges.LocalMonthRange | src/server/invoice-records.ts:76-77 | Both ends are valid dates. For a month 1..12 of a year outside 0..99 the range is the month range. |
| MonthRanges.InvoiceRangeAsWritten | src/server/invoice-records.ts:76-81 | At UTC offset 0 the invoice range as written is the local month range. |
| MonthRanges.ActivityRangeAsWritten | src/server/sales-activities.ts:71-78 | At UTC offset 0 the activity range as written is the local month range. |
| MonthRanges.InvoiceRangeShiftedEastOfUtc | src/server/invoice-records.ts:76-81 | East of UTC the invoice range as written leaves out the month's last day and takes in the last day of the previous month. |
| MonthRanges.RangesMarch2024Seoul | src/server/invoice-records.ts:76-81 | At UTC+9 the March 2024 invoice range is 2024-02-29 to 2024-03-30, and the activity range is 2024-02-29 to 2024-03-31. |
| MonthRanges.ActivityRangeShifted | src/server/sales-activities.ts:71-78 | East of UTC the activity range takes in the last day of the previous month, and west of UTC the first day of the next month. |
| CostEfficiencyStats.CmsListIsSet | src/server/cost-efficiency-stats.ts:97-99 | A month's code list has no repeats. A code is in it exactly when some dated row of that month bills that non-empty code. |
| CostEfficiencyStats.CmsListStep | src/server/cost-efficiency-stats.ts:97-99 | Adding a row appends its code to its month's list only when the code is new there, with set insertion order. |
| CostEfficiencyStats.CmsStep | src/server/cost-efficiency-stats.ts:88-108 | One step of the inpays loop keeps the twelve code sets equal to the code lists of the rows counted so far. |
| CostEfficiencyStats.RevenueStep | src/server/cost-efficiency-stats.ts:102 | One step of the inpays loop keeps the twelve revenue buckets equal to the month totals of the rows counted so far. |
| CostEfficiencyStats.CollectMonths | src/server/cost-efficiency-stats.ts:80-108 | After the loop, month i+1 holds the code list and the revenue total of the dated rows of that month. |
| CostEfficiencyStats.SitesOf | src/server/cost-efficiency-stats.ts:121-124 | The sites are exactly the summary rows whose code is in the list. |
| CostEfficiencyStats.Shortfall | src/server/cost-efficiency-stats.ts:133-138 | What a site adds is never negative, and it is positive exactly when the site's sales minus purchases is negative. |
| CostEfficiencyStats.OverInvestmentZero | src/server/cost-efficiency-stats.ts:130-139 | Over-investment is never negative, and it is zero exactly when no site bought more than it sold. |
| CostEfficiencyStats.SumOverInvestment | src/server/cost-efficiency-stats.ts:130-139 | The loop adds up the absolute value of every negative difference of the sites. |
| CostEfficiencyStats.ExpectedMonth | src/server/cost-efficiency-stats.ts:144 | A month's difference is its over-investment minus its confirmed revenue. |
| CostEfficiencyStats.MonthRecord | src/server/cost-efficiency-stats.ts:114-151 | A month's record has zero over-investment when it meets no code or its site query fails, and otherwise the over-investment of its codes' sites. Its revenue is the revenue bucket. |
| CostEfficiencyStats.BuildMonthly | src/server/cost-efficiency-stats.ts:111-152 | Twelve records for months 1 to 12 in order, each the expected record of its month. |
| CostEfficiencyStats.SummaryTotals | src/server/cost-efficiency-stats.ts:155-159 | The total difference is total over-investment minus total revenue. The revenue total is that of the dated in-year rows, and total over-investment is never negative. |
| CostEfficiencyStats.GroupedAmountParses | src/server/cost-efficiency-stats.ts:30-32 | Commas are dropped before an amount is read, so "1,234" reads as 1234. |
| CostEfficiencyStats.GetCostEfficiencyStats | src/server/cost-efficiency-stats.ts:35-169 | The result is the inpays message exactly when the inpays query fails. Otherwise the months hold the expected records of the user's rows, and the summary keeps difference equal to over-investment minus revenue, revenue equal to the in-year total, and over-investment non-negative. |
| Amounts.LeadingDigits | src/server/invoice-records.ts:12 | The longest run of digits that starts the text: it is all digits, the text starts with it, and the next character is not a digit. |
| Amounts.ParseNumberPrefix | src/server/invoice-records.ts:12-13 | The result is NaN exactly when no digit follows the leading white space and the optional sign. |
| Amounts.ParseAmountString | src/server/invoice-records.ts:8-14 | Missing or empty text reads as 0, and so does text whose comma-free form is not a number. |
| Amounts.RemoveCommasOfGrouping | src/frontend/components/InvoiceRecordForm.tsx:155-167 | Dropping the commas of grouped digits gives the digits back. |
| Amounts.FormatAmount | src/frontend/components/InvoiceRecordForm.tsx:167 | The display text is never empty and starts with '-' exactly for a negative amount. `ParseFormattedAmount` proves that parsing the display text gives the amount back. |
| Amounts.ParseFormattedAmount | src/frontend/components/InvoiceRecordForm.tsx:155-167 | Parsing the grouped display form of any integer gives the integer back. |
| Amounts.UngroupFormattedAmount | src/server/invoice-records.ts:11 | Without its commas, the display form of an integer is its sign followed by its digits. |
| Amounts.ParseSignedMagnitude | src/server/invoice-records.ts:12 | The sign and the digits of an integer parse back as the integer. |
| Amounts.ParseSignedDigits | src/server/invoice-records.ts:12 | An optionally negated digit string parses as its value. |
| Amounts.DigitsAmount | src/frontend/components/CollectionRecordForm.tsx:157-161 | The input holds no amount exactly when it has no digit. |
| Amounts.DigitsEmptyIffNoDigit | src/frontend/components/CollectionRecordForm.tsx:158 | The digit filter leaves nothing exactly when the input has no digit. |
| Amounts.DigitsAppend | src/frontend/components/CollectionRecordForm.tsx:158 | The digit filter of two texts joined is the two filtered texts joined. |
| Amounts.DigitsOfGrouping | src/frontend/components/CollectionRecordForm.tsx:158-166 | The digit filter of grouped digits is the digits themselves. |
| Amounts.DigitsOfFormattedAmount | src/frontend/components/CollectionRecordForm.tsx:157-166 | Editing a displayed non-negative amount keeps its value: its digit filter reads back as the amount. |
| Amounts.FinancialsOf | src/server/invoice-records.ts:174-182 | The stored difference is the parsed sales minus the parsed purchases. The over-invested flag is set exactly when that difference is negative, and missing amounts are stored as "0". |
| Amounts.ParseZeroText | src/server/invoice-records.ts:175-176 | The fallback text "0" reads as 0. |
| Amounts.MissingAmountsAreNoSummary | src/server/invoice-records.ts:167-176 | A summary with both amounts missing gives the same stored values as no summary. |
| Amounts.ParseGroupedExample | src/server/invoice-records.ts:11-13 | "1,234" reads as 1234. |
| Amounts.FormatExample | src/frontend/components/CollectionRecordForm.tsx:171 | 1234 is displayed as "1,234". |
| Amounts.ParsePrefixExample | src/server/invoice-records.ts:12 | Parsing stops at the first character that is not a digit, so "12원" reads as 12. |
| Amounts.ParseNonNumericExample | src/server/invoice-records.ts:13 | Text without a leading number reads as 0. |
| InvoiceRecords.RowsWithCode | src/server/invoice-records.ts:45-49 | The rows are exactly the site_summary rows with the code, and there are no more of them than rows in the table. |
| InvoiceRecords.SiteSummary | src/server/invoice-records.ts:43-56 | A summary is found exactly when the query succeeded and exactly one row has the code. A found summary is that table row. |
| InvoiceRecords.SummaryOfPayload | src/server/invoice-records.ts:172-174 | Only a truthy cms_code is looked up, and a found summary has that code. |
| InvoiceRecords.FinancialsFor | src/server/invoice-records.ts:166-194 | Without a summary the stored values are those of no summary. With one, the difference is parsed sales minus parsed purchases. The flag says whether the difference is negative. |
| InvoiceRecords.LookUpFinancials | src/server/invoice-records.ts:166-194 | The four locals end as the financials of the payload's summary. |
| InvoiceRecords.RowOf | src/server/invoice-records.ts:196-213 | The written row copies the payload's fields, its cms_id, and the financials given. |
| InvoiceRecords.StoredRowFinancials | src/server/invoice-records.ts:166-213 | A stored row is flagged over-invested exactly when its difference is negative. Without a summary it holds "0", "0", 0 and false, and a truthy cms_id names an existing site. |
| InvoiceRecords.PrepareRow | src/server/invoice-records.ts:137-194 | The row holds the resolved cms_id, the payload's copied fields and the financials of its summary. |
| InvoiceRecords.CreateInvoiceRecord | src/server/invoice-records.ts:135-213 | The inserted row carries the caller's id and name, with the resolved site, the copied fields and the summary's financials. |
| InvoiceRecords.UpdateInvoiceRecord | src/server/invoice-records.ts:227-326 | The update goes through exactly when the record exists and the caller is an admin or its owner. A missing record is an error, and anyone else is refused before any site lookup. An update writes updated_by and the same stored values as create. |
| InvoiceRecords.DeleteInvoiceRecord | src/server/invoice-records.ts:338-363 | The answer and the table after the call are those of `RecordRules.DeleteOwned` over the invoice records' id → user_id map. |
| InvoiceRecords.InvoiceRange | src/server/invoice-records.ts:75-87 | The corrected range: for a month 1..12 of a year outside 0..99, a valid date is in it exactly when it lies in that month. |
| RecordRules.IncheonName | src/server/daily-plans.ts:142 | The Incheon author name is the user's name followed by the four characters "(In)". |
| RecordRules.WithoutBranch | src/server/daily-plans.ts:148 | The payload loses its branch key and keeps every other key with its value. |
| RecordRules.SpreadInsert | src/server/daily-plans.ts:152-156 | The row's created_by is the author. Its user_id is the payload's own when it has one, else the caller's. Every other key is the payload's. |
| RecordRules.SpreadSet | src/server/daily-plans.ts:238-242 | The row holds the payload with one column set, and every other key unchanged. |
| RecordRules.BranchAuthor | src/server/daily-plans.ts:139-145 | The author is the Incheon name exactly when a multi-branch user's payload says branch 인천, and the plain name otherwise. |
| RecordRules.AuthorNames | src/server/collection-stats.ts:40-56 | The user's own name is always read. The Incheon name is read too exactly when a multi-branch user asked for all branches, and no other name is read. |
| RecordRules.ByAuthor | src/server/collection-stats.ts:49-56 | The kept rows are exactly the rows whose author column holds one of the names. |
| RecordRules.EscapeLikeRoundTrip | src/server/invoice-records.ts:20 | Escaping then unescaping gives the query back, and the escaped pattern has no unescaped wildcard. |
| RecordRules.EscapeLikeLength | src/server/invoice-records.ts:20 | Escaping adds one backslash per '%', '_' or '\' and nothing else. |
| RecordRules.TotalPages | src/server/invoice-records.ts:107 | The fewest pages of limit rows that hold all rows. |
| RecordRules.RowOnOnePage | src/server/invoice-records.ts:73-90 | Every row index lies on exactly one page's offset range, and that page is between 1 and the page count. |
| RecordRules.PaginationOf | src/server/invoice-records.ts:72-108 | Page defaults to 1, limit to 20 and the total to 0. The page count is the fewest pages that hold the total. |
| RecordRules.CheckAdminOrOwner | src/server/invoice-records.ts:236-247 | The call may go on exactly when the record exists and the caller is an admin or its owner. A missing record gives the lookup error, and anyone else gets the refusal message. |
| RecordRules.DeleteOwned | src/server/invoice-records.ts:338-363 | The delete goes through exactly when the row exists and the caller is an admin or its owner. A missing row is an error, and anyone else is refused with '삭제 권한이 없습니다.'. Refused, the table is unchanged; deleted, exactly that row is gone. The daily and weekly plan deletes (daily-plans.ts:258-283, weekly-plans.ts:226-251) follow the same rule. |
| RecordRules.FirstWithCode | src/server/invoice-records.ts:153-159 | The position found is the first site with the code. None is found exactly when no site has it. |
| RecordRules.FirstWithId | src/server/invoice-records.ts:139-145 | A site is found exactly when the id names one, and the site found has that id. |
| RecordRules.ResolvedCmsId | src/server/invoice-records.ts:138-164 | An id that names a site is kept. Otherwise a truthy cms_code gives the first site with that code. Otherwise a truthy id becomes null and a falsy one is kept. A truthy result always names a site. |
| RecordRules.ResolveCmsId | src/server/invoice-records.ts:138-164 | The two mutation steps leave exactly the resolved cms_id and change no other key of the payload. |
| RecordRules.Matching | src/server/invoice-records.ts:22-25 | The matches are exactly the sites whose cms, name, address or client contains the query, ignoring case. |
| RecordRules.SearchSites | src/server/invoice-records.ts:17-26 | At most ten sites, all of them matches, and they are the first matches in table order; when ten or fewer match, every match is returned. |
| RecordRules.EntriesOf | src/server/daily-plans.ts:297-326 | A multi-branch user gives two entries and anyone else one, each with the user's id, department and email. |
| RecordRules.ExpandedLength | src/server/daily-plans.ts:296-327 | The expanded list has one entry per user plus one per multi-branch user. |
| RecordRules.ExpandedAppend | src/server/daily-plans.ts:297 | Expansion goes user by user, so it keeps the input order. |
| RecordRules.ExpandUsers | src/server/daily-plans.ts:296-327 | The loop builds each user's entries, in input order. |
| RecordRules.EqIfGiven | src/server/collections.ts:87-94 | An equality filter is added exactly when the value is given and non-empty, and it filters on that value. |
| Collections.CollectionFilters | src/server/collections.ts:87-94 | The user_id filter and the created_by filter are each applied when given, so both hold together when both are given; no other filter is added. |
| Collections.CollectionListQuery | src/server/collections.ts:72-99 | The query filters on the rendered first and last day of the month and the author filters. It takes the page's rows, limit rows from offset (page - 1) times limit. |
| Collections.CollectionPagination | src/server/collections.ts:120-130 | The total defaults to 0, the page to 1 and the limit to 20. The page count is the fewest pages that hold the total. |
| Collections.CreateAuthor | src/server/collections.ts:167-170 | On create, the author is the Incheon name exactly when the payload's branch is 인천, whoever the user is. |
| Collections.CreateAndUpdateAuthors | src/server/collections.ts:167-170 | A multi-branch user gets the same author on create and on update. Anyone else sending 인천 gets the Incheon name on create but the plain name on update. |
| Collections.RowsFor | src/server/collections.ts:178-184 | The rows are exactly the monthly_collection rows of that manager, year and month. |
| Collections.MonthlyOutstanding | src/server/collections.ts:178-186 | With exactly one matching row, the outstanding amount is that row's amount, or 0 when it has none. A non-zero result comes from such a row. |
| Collections.AmountOrZero | src/server/collections.ts:187 | A falsy amount counts as 0, and a number counts as itself. |
| Collections.OutstandingBalance | src/server/collections.ts:188 | The balance plus the collected amount is the month's outstanding amount. |
| Collections.BuildRow | src/server/collections.ts:186-202 | The row copies the payload's fields. Its balance plus the collected amount is the manager's outstanding amount for the month. |
| Collections.CreateCollectionRecord | src/server/collections.ts:160-202 | The inserted row carries the caller's id and the create author, with the stored fields and balance. |
| Collections.OwnedRows | src/server/collections.ts:231-236 | The selected rows are exactly those with that id and the caller as owner. |
| Collections.FoundOwnedIffOwner | src/server/collections.ts:231-240 | With unique ids, the lookup finds the record exactly when the row with that id belongs to the caller. |
| Collections.UpdateCollectionRecord | src/server/collections.ts:223-292 | The update goes through exactly when the caller owns the record, whatever the caller's role; otherwise the not-found-or-forbidden message. The author columns follow the multi-branch rule, and the row is stored as on create. |
| Collections.OwnedRowsEmpty | src/server/collections.ts:231-240 | When the caller owns no row with that id, nothing is selected. |
| Collections.AfterDelete | src/server/collections.ts:307-313 | Delete removes exactly the rows with that id owned by the caller. |
| Collections.DeleteOthersKeepsAll | src/server/collections.ts:307-313 | Deleting a record the caller does not own leaves the table unchanged. |
| DailyPlans.DailyListFilter | src/server/daily-plans.ts:58-64 | A given created_by wins as the only filter. Without one, user_id filters when given. At most one filter applies. |
| DailyPlans.CreateDailyPlan | src/server/daily-plans.ts:105-156 | The inserted row has no branch field. Its created_by is the branch author name and its cms_id is the resolved id. Its user_id is the payload's own, else the caller's. Every other field is the payload's. |
| DailyPlans.UpdateDailyPlan | src/server/daily-plans.ts:177-246 | The update goes through exactly when the plan exists and the caller is an admin or its owner; a missing plan is an error, and anyone else is refused. The row has no branch field, both author columns hold the branch author name, and cms_id is resolved. Every other field is the payload's. |
| DailyPlans.DeleteDailyPlan | src/server/daily-plans.ts:258-283 | The answer and the table after the call are those of `RecordRules.DeleteOwned` over the daily plans' id → user_id map. |
| WeeklyPlans.CreateWeeklyPlan | src/server/weekly-plans.ts:100-141 | The inserted row's created_by is the plain user name and its cms_id is the resolved id. Its user_id is the payload's own, else the caller's. Every other field, branch included, is the payload's. |
| WeeklyPlans.UpdateWeeklyPlan | src/server/weekly-plans.ts:153-214 | The update goes through exactly when the plan exists and the caller is an admin or its owner; a missing plan is an error, and anyone else is refused. The row gets updated_by and the resolved cms_id. It has created_by only when the payload has one, and every other field is the payload's. |
| WeeklyPlans.DeleteWeeklyPlan | src/server/weekly-plans.ts:226-251 | The answer and the table after the call are those of `RecordRules.DeleteOwned` over the weekly plans' id → user_id map. |
| SalesActivities.SearchRequest | src/server/sales-activities.ts:27-29 | A missing query, or one shorter than two characters, sends no lookup. Any other query is looked up unchanged. |
| SalesActivities.SearchActivitySites | src/server/sales-activities.ts:25-49 | A short or missing query lists no sites. Otherwise the list is the shared escaped-pattern site search. |
| SalesActivities.TypeFilter | src/server/sales-activities.ts:96-103 | The filter applies exactly when the value is given and is not 'all', and then it tests that column for equality. |
| SalesActivities.AuthorFilter | src/server/sales-activities.ts:83-93 | For an admin, a given created_by wins over user_id. A 'user' is always limited to their own id. Any other role sees every author. |
| SalesActivities.ListFilters | src/server/sales-activities.ts:82-103 | The author filter comes first, then the two type filters. An admin filtering by created_by gets no user_id filter. A 'user' gets only their own user_id. |
| SalesActivities.SnapshotOf | src/server/sales-activities.ts:164-181 | A falsy cms_id leaves the payload unchanged. An id naming a site copies that site's code, name, address and client. An id naming no site is cleared and nothing else changes. Only the five snapshot fields can change. |
| SalesActivities.TakeSnapshot | src/server/sales-activities.ts:164-181 | The field-by-field assignments produce exactly the snapshot. |
| SalesActivities.CreateSalesActivity | src/server/sales-activities.ts:161-210 | The inserted row has no branch field and its created_by is the branch author name. Every other field is the snapshot payload's. |
| SalesActivities.UpdateSalesActivity | src/server/sales-activities.ts:225-320 | A missing activity is reported first, then a non-admin is refused. The update goes through exactly for an admin on an existing activity. The row has no branch field, and both author columns hold the branch author name. Every other field is the snapshot's. The storage paths removed are exactly those of the dropped attachments. |
| SalesActivities.DeleteSalesActivity | src/server/sales-activities.ts:335-362 | A missing activity is '영업 활동을 찾을 수 없습니다.' and a caller who is not an admin is refused, both before any image is removed. For an admin, the paths of every stored attachment are removed before the delete is attempted. The delete then succeeds with '영업 활동이 삭제되었습니다.' exactly when it does not fail; a failed delete is '영업 활동 삭제에 실패했습니다.' and keeps the images removed. |
| SalesActivities.ReadSalesActivity | src/server/sales-activities.ts:133-153 | The read succeeds exactly when the activity exists and the caller is not a 'user' reading someone else's activity. A failed lookup and a refusal give the source's two messages. |
| SalesActivities.StoragePath | src/server/sales-activities.ts:258-259 | A URL gives a path exactly when it contains the images marker. The path is the text right after some marker, and it holds no marker itself. |
| SalesActivities.PathAfterSingleMarker | src/server/sales-activities.ts:434-436 | A public URL with a single marker yields exactly the storage path after it. |
| SalesActivities.FilePaths | src/server/sales-activities.ts:431-438 | The paths are exactly those of the URLs that have one, at most one per URL. |
| SalesActivities.Removed | src/server/sales-activities.ts:253 | The dropped attachments are exactly the stored URLs missing from the new list. |
| SalesActivities.CleanupPaths | src/server/sales-activities.ts:250-262 | Without a new attachment list or a stored one, nothing is removed. Otherwise the paths of the dropped attachments are removed. |
| SalesActivities.KeepingAllRemovesNothing | src/server/sales-activities.ts:253-255 | An update that keeps every stored attachment removes no file. |
| Auth.ParseJsonBodyOfEscape | src/server/auth.ts:15-17 | Reading back a string escaped as JSON text gives that string, and the text after its closing quote, for any string without control characters. |
| Auth.GenerateToken | src/server/auth.ts:15-18 | The token is the JSON text of the user id and the timestamp, and starts with the `userId` key. `TokenRoundTrip` proves that it decodes back to the id. |
| Auth.TokenUserId | src/server/auth.ts:135-136 | A decoded id comes only from a token that starts with the `userId` key and ends with the closing brace. |
| Auth.TokenRoundTrip | src/server/auth.ts:15-18 | Decoding the token made for a user id, at any clock reading, yields that user id. |
| Auth.WithoutPasswordHash | src/server/auth.ts:62 | The response row keeps the id and every column except password_hash, which is gone. |
| Auth.HandleLogin | src/server/auth.ts:20-69 | Login succeeds exactly when the email names a user and the password verifies, and every failure gives the same message. auto_login is written back exactly when it is given and differs from the stored value. The response has no password hash, carries the new auto_login value and the token for the user's id, and reports the stored initial-password flag. |
| Auth.UsersWithId | src/server/auth.ts:139-143 | The rows selected are exactly the users with that id. |
| Auth.HandleGetCurrentUser | src/server/auth.ts:132-165 | A token that does not decode gives '사용자 정보를 가져오는 중 오류가 발생했습니다.'. For a decoded id, exactly one stored row with that id comes back without its password hash; no row or several rows (a failing `.single()`) give '사용자를 찾을 수 없습니다.'. |
| Auth.LoginTokenFindsUser | src/server/auth.ts:59-62 | The token a login hands out finds the same user again, without its password hash. |
| Auth.ChangePassword | src/server/auth.ts:79-108 | A new password is accepted exactly when it has at least four characters and is not the initial password. The two refusals give their own messages, the length one first. An accepted change stores the new password with the initial flag cleared. |
| Auth.HandleChangePassword | src/server/auth.ts:79-122 | The change succeeds exactly when the password is long enough, is not the initial password and its write succeeds; success carries '비밀번호가 성공적으로 변경되었습니다.'. A rejected password is refused with the validation message before anything is written, and a failed write with '비밀번호 변경에 실패했습니다.'. |
| UserSeed.TrimAllAt | src/server/db/init.ts:40-41 | Each header name is its header trimmed. |
| UserSeed.UserOfFields | src/server/db/init.ts:40-42 | The record has a key for each header name. Each name holds the value of the last field with that name. |
| UserSeed.ParseLine | src/server/db/init.ts:37-42 | The per-line loop builds exactly the record of the header names and the line's fields. |
| UserSeed.ParseLineOf | src/server/db/init.ts:37-44 | One line's record is its comma-split trimmed fields under the trimmed header names. |
| UserSeed.ParseUsers | src/server/db/init.ts:31-45 | The file gives one record per line after the header, in line order, each parsed under the first line's headers. |
| UserSeed.ParseLinesAfterHeader | src/server/db/init.ts:36-45 | The loop from line 1 gives one record per line after the header, in order. |
| UserSeed.ParsedUserKeys | src/server/db/init.ts:40-42 | Every record's keys are exactly the trimmed header names, whatever the number of fields on its line. |
| UserSeed.ParsedUserValues | src/server/db/init.ts:40-42 | A header's name holds the trimmed field at its position, or the empty string when the line is short. A later header of the same name wins. |
| UserSeed.NewUserRow | src/server/db/init.ts:70-81 | The inserted row carries the CSV email and department, the initial password's hash, the initial flag set and auto-login off. |
| UserSeed.Seeded | src/server/db/init.ts:53-88 | Every user is either skipped or sent an insert. No more are counted inserted than were sent. An email registered beforehand is never sent, and registered emails stay registered. |
| UserSeed.InsertUsers | src/server/db/init.ts:53-91 | The loop's counters and inserts are exactly those of the user-by-user definition, and the total is the number of users. |
| UserSeed.SeedStep | src/server/db/init.ts:56-88 | One loop step of a run where every insert succeeds keeps the promise that each new email is sent once. |
| UserSeed.SeedInsertsEachNewEmailOnce | src/server/db/init.ts:53-88 | When every insert succeeds, a row whose email is already registered (beforehand or by an earlier row) is skipped. Every other email is inserted exactly once: no two inserts share an email, the inserted emails are the CSV's emails less the existing ones, and the registered emails end as the existing ones plus the CSV's. |
| FillSiteInfo.FillUpdate | scripts/fill-missing-site-info.ts:74-91 | A field is written exactly when the plan's value is empty, and then it takes the matched site's value. A non-empty field is never overwritten. |
| FillSiteInfo.UpdateOfIncompletePlanNotEmpty | scripts/fill-missing-site-info.ts:40-45 | A plan that gets past the skip rule always has a field to fill, so the "no updates needed" branch at lines 93-97 is never taken. |
| FillSiteInfo.Step | scripts/fill-missing-site-info.ts:38-111 | A complete plan is skipped. A failed search counts nowhere, and a code with no site counts as not found. Otherwise the first matching site's fill is sent, and it counts as updated only when the update succeeds. |
| FillSiteInfo.Filled | scripts/fill-missing-site-info.ts:34-113 | The three counters together never exceed the number of plans. The updated count is at most the number of updates sent, and every update sent is non-empty. |
| FillSiteInfo.StepBounds | scripts/fill-missing-site-info.ts:38-111 | One plan adds at most one to the counters, keeps earlier updates and sends only non-empty ones. |
| FillSiteInfo.FillMissingSiteInfo | scripts/fill-missing-site-info.ts:34-113 | The loop's counters and updates are exactly those of the plan-by-plan definition. |
| Text.Digits | src/frontend/components/InvoiceRecordForm.tsx:172 | The result holds only digits, never more than the input, and text that is all digits is kept as it is. |
| Text.DigitChar | src/server/collections.ts:76 | Each digit value renders as the digit character of that value. |
| Text.NatToString | src/server/collections.ts:76-78 | `String(n)` is a non-empty digit string without a leading zero, except for zero itself. |
| Text.ValueOfNatToString | src/server/collections.ts:76-78 | Reading a rendered number back gives the number. |
| Text.NatToStringInjective | src/server/collections.ts:76-78 | Distinct numbers render as distinct strings. |
| Text.Split | src/server/db/init.ts:31-37 | `split` gives at least one part, and no part holds the separator. |
| Text.SplitJoin | src/server/db/init.ts:31-37 | Joining the parts with the separator gives back the original text. |
| Text.SplitWithoutSeparator | src/server/db/init.ts:37 | Text without the separator splits into itself alone. |
| Text.SplitFirstField | src/server/db/init.ts:37 | A first field free of the separator splits off as the first part, and the rest splits as before. |
| Text.SplitSecondField | src/server/sales-activities.ts:77-78 | The second part of "a-b" or of "a-b-…" is b. |
| Text.FirstPartOf | src/server/sales-activities.ts:77-78 | The first part of a text is its text up to the first separator. |
| Text.TrimStart | src/server/db/init.ts:41 | The result is a suffix of the input that does not start with white space, and only white space was dropped. |
| Text.TrimEnd | src/server/db/init.ts:41 | The result is a prefix of the input that does not end with white space, and only white space was dropped. |
| Text.Trim | src/server/db/init.ts:41 | The result neither starts nor ends with white space, and it occurs in the input with only white space around it. White space here is ASCII white space, NBSP and the BOM, not the whole Unicode class that `trim()` removes. |
| Text.IndexOf | src/server/sales-activities.ts:258 | The position found is the first occurrence, and there is none exactly when the text does not contain the pattern. |
| Text.ToLower | src/frontend/components/ConstructionSalesModal.tsx:105 | Lower-casing keeps the length, maps A-Z to a-z and keeps every other character. |
| Text.RemoveChar | src/server/invoice-records.ts:11 | The result has no occurrence of the character and is no longer than the input. |
| Text.RemoveAbsentChar | src/server/invoice-records.ts:11 | Text without the character is left unchanged. |
| Text.StrLeTotal | src/server/construction-score-stats.ts:144-145 | Any two strings are ordered one way or the other by the default sort's order. |
| Text.StrLeTrans | src/server/construction-score-stats.ts:144-145 | The default sort's string order is transitive. |
| Text.StrLeAntisym | src/server/construction-score-stats.ts:144-145 | Two strings ordered both ways are equal. |
| Sorting.InsertString | src/server/construction-score-stats.ts:144-145 | Inserting into a sorted list keeps it sorted and adds exactly that element. |
| Sorting.InsertStringFirst | src/server/construction-score-stats.ts:144-145 | An element not above the head goes first, and the list stays sorted. |
| Sorting.InsertStringAfterHead | src/server/construction-score-stats.ts:144-145 | An element above the head goes after it, and the list stays sorted with the same elements. |
| Sorting.SortStrings | src/server/construction-score-stats.ts:144-155 | The default `sort()` of date strings returns a sorted permutation of its input. |
| Sorting.InsertBy | src/server/sales-stats.ts:138 | Inserting by key into a list sorted by that key keeps it sorted and adds exactly that element. |
| Sorting.InsertByAfterHead | src/server/sales-stats.ts:138 | An element whose key is not below the head's goes after the head, and the list stays sorted with the same elements. |
| Sorting.SortBy | src/server/order-stats.ts:181 | A comparator sort by an integer key gives a permutation of its input in ascending key order. |
| Sorting.PermutationFacts | src/server/activity-stats.ts:178 | A permutation has the same length and the same elements as its input. |
| WeeklyPlanTable.PagesUpTo | src/frontend/components/WeeklyPlanTable.tsx:142-150 | The numbers kept up to n are exactly the visible ones: the first page, the last page and those within two of the current page. They come in increasing order. |
| WeeklyPlanTable.VisiblePages | src/frontend/components/WeeklyPlanTable.tsx:142-150 | The page numbers shown are exactly the visible pages from 1 to the page count, in increasing order. |
| WeeklyPlanTable.FragmentAt | src/frontend/components/WeeklyPlanTable.tsx:151-164 | Each button shows its own page number and is highlighted exactly when it is the current page. |
| WeeklyPlanTable.Fragments | src/frontend/components/WeeklyPlanTable.tsx:151-167 | There is one fragment per page shown, in the same order. |
| WeeklyPlanTable.NoneBetween | src/frontend/components/WeeklyPlanTable.tsx:153 | In an increasing list, no number lies strictly between two neighbours. |
| WeeklyPlanTable.FirstIsOne | src/frontend/components/WeeklyPlanTable.tsx:146 | Whenever there is a page, page 1 is shown first. |
| WeeklyPlanTable.GapShape | src/frontend/components/WeeklyPlanTable.tsx:142-155 | Two neighbours shown with a gap between them are either page 1 and page-2, or page+2 and the last page. |
| WeeklyPlanTable.EllipsisPlaces | src/frontend/components/WeeklyPlanTable.tsx:151-155 | "..." appears exactly before page-2 when that page is above 2, and before the last page when it is more than three past the current page. |
| WeeklyPlanTable.DisplayedRange | src/frontend/components/WeeklyPlanTable.tsx:128-129 | The caption starts at the page's first item and ends at the page's end or at the total, whichever is smaller. |
| WeeklyPlanTable.DisplayedRangeOnPage | src/frontend/components/WeeklyPlanTable.tsx:125-129 | For any page of a real list the caption is a non-empty range within the total. It spans a whole page on every page but the last. |
| WeeklyPlanTable.RangeOnPage | src/frontend/components/WeeklyPlanTable.tsx:128-129 | Whenever the page count covers the total, the caption is a non-empty range within the total, and a whole page on every page but the last. |
| WeeklyPlanTable.Navigation | src/frontend/components/WeeklyPlanTable.tsx:132-176 | The previous button is disabled exactly on the first page, and the next button exactly on the last. |
| WeeklyPlanTable.NavigationStaysInRange | src/frontend/components/WeeklyPlanTable.tsx:133-172 | An enabled button always moves to a page that exists. |
| WeeklyPlanTable.ActivityBadges | src/frontend/components/WeeklyPlanTable.tsx:29-34 | A badge is shown exactly when its activity is checked, with one badge per checked activity, in the fixed order. |
| SalesActivityForm.SelectSite | src/frontend/components/SalesActivityForm.tsx:81-91 | Choosing a site copies its id, code, name, address and client into the form. The date, the two types, the amount, the rate and the attachments are kept. |
| SalesActivityForm.AmountChange | src/frontend/components/SalesActivityForm.tsx:94-98 | Input without a digit clears the amount. Otherwise the amount is the number its digits spell, and nothing else on the form changes. |
| SalesActivityForm.AmountChangeOfDisplay | src/frontend/components/SalesActivityForm.tsx:94-104 | Editing the field as `formatNumber` shows it keeps a positive amount and the rest of the form. A zero amount is shown empty, so the same edit clears it. |
| SalesActivityForm.ExecutionRateChange | src/frontend/components/SalesActivityForm.tsx:484-488 | A rate outside 0..100 is ignored. Any other input, the empty one included, replaces the rate. |
| SalesActivityForm.RateStaysInRange | src/frontend/components/SalesActivityForm.tsx:484-488 | Whatever is typed, in any number of steps, a rate that starts in 0..100 stays there. |
| SalesActivityForm.WithoutIndexIsRemoval | src/frontend/components/SalesActivityForm.tsx:192 | The index filter drops exactly the attachment at that index and keeps the others in order. An index out of range drops nothing. |
| SalesActivityForm.RemoveAttachment | src/frontend/components/SalesActivityForm.tsx:166-197 | An index with no attachment, or an empty URL, changes nothing. Otherwise exactly that attachment is removed. |
| SalesActivityForm.CleanupTargets | src/frontend/components/SalesActivityForm.tsx:200-218 | A cancel removes exactly the storage paths of attachments added since the form opened. |
| SalesActivityForm.CleanupOfUnchanged | src/frontend/components/SalesActivityForm.tsx:200-205 | Cancelling without new attachments removes nothing. |
| SalesActivityForm.CheckFile | src/frontend/components/SalesActivityForm.tsx:115-124 | A file is accepted exactly when its type is an image type and it is at most 5 MB. A non-image is refused first, then an oversized image, each with its own message. |
| SalesActivityForm.FirstRejected | src/frontend/components/SalesActivityForm.tsx:114-124 | The file found is the first one refused, and none is found exactly when every file passes. |
| SalesActivityForm.UploadFiles | src/frontend/components/SalesActivityForm.tsx:106-164 | Picking no file changes nothing. A refused file's message is shown and nothing is added. Successful uploads append their URLs after the existing attachments. A storage failure keeps the form and shows its message, or the generic one. |
| SalesActivityForm.SwitchSiteType | src/frontend/components/SalesActivityForm.tsx:374-409 | Either site-type button sets the type and clears the five site fields. The date, the activity type, the amount, the rate and the attachments are kept. |
| SalesActivityForm.ValidateActivity | src/frontend/components/SalesActivityForm.tsx:231-245 | A missing date is refused first. Then an existing-site activity without a site id or code is refused. Every other form is submitted as it is. |
| SalesActivityForm.SiteTypeValidation | src/frontend/components/SalesActivityForm.tsx:236-245 | After switching to an existing site the form is refused until a site is chosen, and accepted once one is. A new-site form is accepted without one. |
| WeeklyPlanForm.FormFor | src/frontend/components/WeeklyPlanForm.tsx:33-60 | A new plan starts with no site and every activity unchecked. An edited plan loads its site id as it is, its text fields with empty text for missing ones, and its three flags with false for missing ones. |
| WeeklyPlanForm.SelectSite | src/frontend/components/WeeklyPlanForm.tsx:62-73 | Choosing a site copies its id, code, name, address and both managers, and keeps the three activity flags. |
| WeeklyPlanForm.ToggleActivity | src/frontend/components/WeeklyPlanForm.tsx:75-80 | A checkbox flips its own activity flag and leaves the other flags and every site field alone. |
| WeeklyPlanForm.ToggleTwice | src/frontend/components/WeeklyPlanForm.tsx:75-80 | Clicking the same checkbox twice restores the form. |
| WeeklyPlanForm.ValidatePlan | src/frontend/components/WeeklyPlanForm.tsx:82-99 | A form without a site id, code or name is refused first. Then a form with no activity checked is refused. Every other form is saved as it is. |
| WeeklyPlanForm.NewPlanValidation | src/frontend/components/WeeklyPlanForm.tsx:47-99 | A fresh form asks for a site. Once a coded site is chosen it asks for an activity, and once one is checked it saves. |
| RecordForm.InitialBranch | src/frontend/components/InvoiceRecordForm.tsx:24-30 | A multi-branch user editing a record starts from 인천 exactly when its author carries "(In)", and from 본점 otherwise. Anyone else starts from their own branch, or from 인천 when they have none. |
| RecordForm.SuffixMarksIncheon | src/frontend/components/CollectionRecordForm.tsx:24-28 | A multi-branch user's Incheon author name carries the "(In)" suffix, and the plain name does not. |
| RecordForm.InitialBranchOfAuthor | src/frontend/components/CollectionRecordForm.tsx:24-32 | Reopening a record written under a branch author starts from the branch it was written for. |
| RecordForm.SelectSite | src/frontend/components/CollectionRecordForm.tsx:143-154 | Choosing a site copies its id, code, name, address and both managers, and keeps the date and the amount. |
| RecordForm.AmountChange | src/frontend/components/CollectionRecordForm.tsx:157-161 | Input without a digit clears the amount. Otherwise the amount is the number its digits spell, and nothing else changes. |
| RecordForm.AmountChangeOfDisplay | src/frontend/components/InvoiceRecordForm.tsx:171-181 | Editing the comma-grouped display of an amount keeps that amount. |
| RecordForm.Validate | src/frontend/components/CollectionRecordForm.tsx:174-192 | A missing date is refused first, then a missing site code or name, then a missing or non-positive amount. A form that passes all three is submitted as it is. |
| RecordForm.SiteAndAmountValidate | src/frontend/components/InvoiceRecordForm.tsx:183-201 | A dated form with a named, coded site and a positive typed amount passes validation. |
| RecordForm.PayloadOf | src/frontend/components/InvoiceRecordForm.tsx:206-213 | The saved payload is the form, with a branch attached exactly for a multi-branch user, and then it is the selected branch. |
| InvoiceRecordForm.ValidateInvoice | src/frontend/components/InvoiceRecordForm.tsx:183-201 | The invoice form refuses a missing date, then a missing site, then a missing amount, each with its own message. It accepts exactly the dated, sited forms with a positive amount. |
| InvoiceRecordForm.FinancialsAfterSelect | src/frontend/components/InvoiceRecordForm.tsx:104-152 | A site without a code leaves the amounts shown alone. Without a summary the form shows '0', '0', 0 and no warning. With one it shows the parsed difference, with the warning exactly when it is negative. |
| InvoiceRecordForm.PreviewMatchesStored | src/frontend/components/InvoiceRecordForm.tsx:116-143 | What the form shows for a coded site equals what the server stores for an invoice with that code. |
| InvoiceRecordForm.EditedInvoiceStartsAtHeadOffice | src/frontend/components/InvoiceRecordForm.tsx:24-30 | An invoice carries the plain user name as author, so a multi-branch user reopening one always starts from 본점. |
| CollectionRecordForm.ValidateCollection | src/frontend/components/CollectionRecordForm.tsx:174-192 | The collection form refuses a missing date, then a missing site, then a missing amount, each with its own message. It accepts exactly the dated, sited forms with a positive amount. |
| CollectionRecordForm.FirstForManager | src/frontend/components/CollectionRecordForm.tsx:117 | The row found is the first with the user's manager name, and none is found exactly when no row has it. |
| CollectionRecordForm.OutstandingAfterDateChange | src/frontend/components/CollectionRecordForm.tsx:95-133 | An empty date keeps the amount shown. A failed request or a month without the user's row shows 0. Otherwise the form shows that row's outstanding amount, or 0 when it has none. |
| CollectionRecordForm.OutstandingMatchesServer | src/frontend/components/CollectionRecordForm.tsx:95-133 | With exactly one row for the user in the month, the form shows the outstanding amount the server uses. |
| CollectionRecordForm.ShownBalance | src/frontend/components/CollectionRecordForm.tsx:136-140 | The balance shown plus the amount, or plus 0 without one, is the monthly outstanding. |
| CollectionRecordForm.ShownBalanceMatchesServer | src/frontend/components/CollectionRecordForm.tsx:136-140 | The balance shown equals the balance the server stores for the same outstanding amount and collected amount. |
| ChangePasswordModal.Submit | src/frontend/components/ChangePasswordModal.tsx:26-54 | A short password is refused first, then a mismatched confirmation, then the initial password. The request is sent exactly when all three checks pass. Success clears the dialog, and failure shows its message or the generic one. |
| ChangePasswordModal.SentPasswordAccepted | src/frontend/components/ChangePasswordModal.tsx:31-47 | Any password the dialog sends is one the server accepts. With a matching confirmation, the dialog refuses with the server's own message whenever the server would refuse. |
| ChangePasswordModal.Close | src/frontend/components/ChangePasswordModal.tsx:56-66 | The dialog closes exactly when the password is no longer the initial one. Closing clears the fields, and a refusal shows the must-change message. |
| MonthlyCollectionUpload.CellAmount | src/frontend/components/MonthlyCollectionUpload.tsx:48-49 | A number cell is its own amount. A text cell is read as the number that starts it once its commas are dropped, and has no amount when none does. |
| MonthlyCollectionUpload.CellAmountOfFormatted | src/frontend/components/MonthlyCollectionUpload.tsx:48-51 | A text cell holding a comma-grouped amount reads back as that amount. |
| MonthlyCollectionUpload.UnformattedAmount | src/frontend/components/MonthlyCollectionUpload.tsx:48 | Dropping the commas of a grouped amount leaves its sign and its plain digits. |
| MonthlyCollectionUpload.ParsedRow | src/frontend/components/MonthlyCollectionUpload.tsx:45-57 | A row is kept exactly when it has three cells, a truthy first cell with a non-empty trimmed name, and two amounts that are numbers. The kept row holds the trimmed name and the two amounts. |
| MonthlyCollectionUpload.ParsedRows | src/frontend/components/MonthlyCollectionUpload.tsx:43-59 | At most one row is kept per sheet row. |
| MonthlyCollectionUpload.ParsedRowsNamed | src/frontend/components/MonthlyCollectionUpload.tsx:51 | Every kept row has a manager name. |
| MonthlyCollectionUpload.SheetResult | src/frontend/components/MonthlyCollectionUpload.tsx:37-66 | A sheet of fewer than two rows has no data. A sheet with no kept row is refused. Otherwise the result is the kept rows after the header, at least one and fewer than the sheet's rows. |
| MonthlyCollectionUpload.HeaderIgnored | src/frontend/components/MonthlyCollectionUpload.tsx:42-44 | The header row never affects the result. |
| MonthlyCollectionUpload.ParseRow | src/frontend/components/MonthlyCollectionUpload.tsx:45-58 | The loop body keeps exactly the row the row definition keeps. |
| MonthlyCollectionUpload.ParsedRowsStep | src/frontend/components/MonthlyCollectionUpload.tsx:44-59 | Each further sheet row adds its kept row, if any, at the end. |
| MonthlyCollectionUpload.ParseSheet | src/frontend/components/MonthlyCollectionUpload.tsx:35-66 | The parsing loop gives exactly the sheet's result. |
| MonthlyCollectionUpload.LoadFile | src/frontend/components/MonthlyCollectionUpload.tsx:25-113 | A name that is not .xlsx or .xls, a parse failure, a read failure and a refused sheet each set their message and keep the rows on display. A sheet that parses replaces the rows and the file name and clears the error. The rows shown are either kept or replaced by a non-empty list. |
| MonthlyCollectionUpload.Confirm | src/frontend/components/MonthlyCollectionUpload.tsx:115-119 | Confirm forwards the rows on display exactly when there are some. |
| MonthlyCollectionUpload.ConfirmForwardsAParsedFile | src/frontend/components/MonthlyCollectionUpload.tsx:25-119 | After any series of files, whatever confirm forwards is the result of one accepted file that parsed. |
| MonthlyCollectionUpload.FooterTotals | src/frontend/components/MonthlyCollectionUpload.tsx:222-225 | The footer totals are the sums, over the sheet rows, of the amounts of the kept rows. |
| Sidebar.Without | src/frontend/components/Sidebar.tsx:151 | The filter keeps exactly the ids other than the one clicked, and never lengthens the list. |
| Sidebar.ToggleExpanded | src/frontend/components/Sidebar.tsx:149-153 | The clicked group ends up expanded exactly when it was collapsed, and every other group keeps its state. A newly expanded group goes at the end. |
| Sidebar.ToggleTwice | src/frontend/components/Sidebar.tsx:149-153 | Clicking a group twice restores the set of expanded groups. The list itself is restored when the group started collapsed. |
| Sidebar.WithoutAbsent | src/frontend/components/Sidebar.tsx:151 | Filtering out an id that is not listed changes nothing. |
| Sidebar.WithoutLast | src/frontend/components/Sidebar.tsx:151 | Filtering out an id just appended gives the same list as filtering it out before. |
| Sidebar.InitialGroups | src/frontend/components/Sidebar.tsx:147 | The sidebar opens with exactly the performance and analytics groups expanded, and the admin group collapsed. |
| Sidebar.IsActive | src/frontend/components/Sidebar.tsx:155-158 | An entry is highlighted exactly when it has a path and that path is the current one. |
| Sidebar.ClickOn | src/frontend/components/Sidebar.tsx:169-175 | A click on a group toggles it. A click on an entry with a path navigates to that path. |
| Sidebar.NavigationHighlights | src/frontend/components/Sidebar.tsx:155-175 | After navigating from an entry, that entry is highlighted. A group, having no path, never is. |
| Sidebar.RoleFilterKeepsOthers | src/frontend/components/Sidebar.tsx:219-220 | A list without the admin group passes the role filter unchanged. |
| Sidebar.RoleFilterAdminLast | src/frontend/components/Sidebar.tsx:219-220 | On a menu ending in the admin group, an admin sees everything and anyone else sees all but that group. |
| Sidebar.MenuAdminLast | src/frontend/components/Sidebar.tsx:38-144 | The menu's last top-level entry, and only that one, is the admin group. |
| Sidebar.VisibleMenu | src/frontend/components/Sidebar.tsx:219-221 | An admin sees the whole menu. Anyone else sees the first three groups. The admin group is shown exactly to an admin. |
| ConstructionSalesScore.ParamValue | src/frontend/pages/analytics/ConstructionSalesScore.tsx:77-97 | A lookup finds a value only when that name-value pair was appended, and finds nothing exactly when no parameter has the name. |
| ConstructionSalesScore.ServerFilter | src/server/construction-score-stats.ts:44-49 | A non-empty created_by wins over a non-empty user_id. With neither, the query reads every user's plans. |
| ConstructionSalesScore.AuthorParams | src/frontend/pages/analytics/ConstructionSalesScore.tsx:77-89 | An admin's parameters give exactly the filter that the admin's selection asks for. A multi-branch user who picked a branch asks for that branch's author name. Everyone else asks for their own id, with no created_by. |
| ConstructionSalesScore.ScoreRequest | src/frontend/pages/analytics/ConstructionSalesScore.tsx:70-101 | The request keeps the author filter. It carries the year, and the month only in the month view. It goes to the endpoint of the view mode. |
| ConstructionSalesScore.AppendedParams | src/frontend/pages/analytics/ConstructionSalesScore.tsx:77-97 | Appending parameters never hides a value already set. A name not yet set is looked up in the appended part. |
| ConstructionSalesScore.PeriodParams | src/frontend/pages/analytics/ConstructionSalesScore.tsx:91-97 | Appending the period leaves the author filter unchanged. The year and month read back from the period. |
| ConstructionSalesScore.FindEntry | src/frontend/pages/analytics/ConstructionSalesScore.tsx:193-195 | A found entry is listed and matches the chosen value. Nothing is found only when no entry matches. |
| ConstructionSalesScore.SelectUser | src/frontend/pages/analytics/ConstructionSalesScore.tsx:191-200 | A value that matches no entry leaves the filters unchanged. Choosing a user never touches the branch, year, month or view mode. |
| ConstructionSalesScore.SelectedValueIsFiltered | src/frontend/pages/analytics/ConstructionSalesScore.tsx:191-205 | After an admin picks a value, the next request filters on exactly that value: as an author name when the entry has one, as a user id otherwise. |
| ConstructionSalesScore.EntryOptionSelectable | src/frontend/pages/analytics/ConstructionSalesScore.tsx:204-205 | The option shown for any entry can be chosen: it finds an entry. |
| ConstructionSalesScore.IntToStringHasNoUnderscore | src/frontend/pages/analytics/ConstructionSalesScore.tsx:128 | The decimal form of an id has no underscore. |
| ConstructionSalesScore.IntToStringInjective | src/frontend/pages/analytics/ConstructionSalesScore.tsx:128 | Different ids render differently. |
| ConstructionSalesScore.RowKeyInjective | src/frontend/pages/analytics/ConstructionSalesScore.tsx:128 | Different construction-item pairs have different row keys. |
| ConstructionSalesScore.Toggled | src/frontend/pages/analytics/ConstructionSalesScore.tsx:127-136 | The key flips membership, and every other key keeps its state. |
| ConstructionSalesScore.ToggleRowExpansion | src/frontend/pages/analytics/ConstructionSalesScore.tsx:127-147 | The new set is the old one with the row's key flipped. |
| ConstructionSalesScore.ToggleFlipsOnlyItsRow | src/frontend/pages/analytics/ConstructionSalesScore.tsx:127-157 | A click flips the expansion of its own row and of no other row. |
| ConstructionSalesScore.ToggleTwice | src/frontend/pages/analytics/ConstructionSalesScore.tsx:127-136 | Two clicks on a row restore the set of expanded rows. |
| ConstructionSalesScore.ActivityHistory | src/frontend/pages/analytics/ConstructionSalesScore.tsx:160-166 | There is one history line per activity date, in order, carrying that date. |
| ConstructionSalesScore.CumulativeIsRunningSum | src/frontend/pages/analytics/ConstructionSalesScore.tsx:160-166 | Each line's cumulative score is the sum of the increments up to and including that line. |
| ConstructionSalesScore.HistoryEndsAtScore | src/frontend/pages/analytics/ConstructionSalesScore.tsx:160-166 | The last line reaches the score the server gives for that many activities. |
| ConstructionSalesScore.HistoriesMatchItemScore | src/frontend/pages/analytics/ConstructionSalesScore.tsx:417-423 | For an item score produced by the server, the quote history ends at the quote score and the meeting history at the meeting score. |
| ConstructionSalesScore.RowsOf | src/frontend/pages/analytics/ConstructionSalesScore.tsx:362-366 | One construction's rows are exactly its items with a non-zero count, ranked at its position plus one. |
| ConstructionSalesScore.TableRows | src/frontend/pages/analytics/ConstructionSalesScore.tsx:361-366 | Every row has a rank within the list and a non-zero count. A construction's item appears under that construction's rank exactly when its count is non-zero. |
| ConstructionSalesScore.TablesSplitByActivity | src/frontend/pages/analytics/ConstructionSalesScore.tsx:361-465 | The quote table lists exactly the items with a quote, and the meeting table exactly the items with a meeting. |
| ConstructionSalesModal.FindConstruction | src/frontend/components/ConstructionSalesModal.tsx:96 | A found company is listed and has the id. Nothing is found exactly when no company has the id. |
| ConstructionSalesModal.FindItem | src/frontend/components/ConstructionSalesModal.tsx:97 | A found item is listed and has the id. Nothing is found exactly when no item has the id. |
| ConstructionSalesModal.Submit | src/frontend/components/ConstructionSalesModal.tsx:81-101 | A missing company is reported first, then a missing item, and nothing is saved. Otherwise the saved detail carries the two ids and the two flags, and the state is unchanged. |
| ConstructionSalesModal.SavedDetailResolves | src/frontend/components/ConstructionSalesModal.tsx:91-98 | The saved company and item are listed entries with the saved ids. They are absent only when the lists lack those ids. |
| ConstructionSalesModal.Filtered | src/frontend/components/ConstructionSalesModal.tsx:104-106 | The filtered list holds exactly the companies whose name contains the term, ignoring case. |
| ConstructionSalesModal.FilteredAppend | src/frontend/components/ConstructionSalesModal.tsx:104-106 | Filtering keeps the companies in their order: filtering two lists joined gives the two filtered lists joined. |
| ConstructionSalesModal.EmptyTermKeepsAll | src/frontend/components/ConstructionSalesModal.tsx:104-106 | An empty search lists every company. |
| ConstructionSalesModal.OnOpen | src/frontend/components/ConstructionSalesModal.tsx:29-43 | An edited detail loads its selection and flags and keeps the search term. Without one, the selection, flags and search term are cleared. The error is left alone either way. |
| ConstructionSalesModal.ResetRefusesToSave | src/frontend/components/ConstructionSalesModal.tsx:29-89 | A freshly reset modal refuses to save and asks for a company. |
| ConstructionSalesModal.ReopenSavesSameDetail | src/frontend/components/ConstructionSalesModal.tsx:29-101 | Reopening on a saved detail and saving again gives back the same ids and flags. |

## Left out

- Network, database and storage calls: every Supabase query, `fetch`, `localStorage` call and storage upload or removal is an input to the model. An input is a sequence of rows, an `Option` for a lookup that may fail, or a boolean where a failed write is modelled. Which rows a query returns is not modelled. DB date filters, `ilike` and `order` clauses are stated as the predicates the code asks for.
- Database errors: where a failed read is modelled, it gives the handler's not-found or read-failed message. The text of a driver error is not modelled.
- Collections.CreateCollectionRecord: the failed insert (collections.ts:210-213, '수금 기록 등록에 실패했습니다.') is not modelled. The member returns the row that would be inserted.
- Collections.UpdateCollectionRecord: the failed update (collections.ts:294-297, '수금 기록 수정에 실패했습니다.') is not modelled.
- Collections.CollectionListQuery: the failed list read (collections.ts:103-106, '수금 기록을 불러오지 못했습니다.') is not modelled. The member states only the query.
- InvoiceRecords.CreateInvoiceRecord: a failed insert is not modelled.
- InvoiceRecords.UpdateInvoiceRecord: a failed update is not modelled.
- InvoiceRecords.DeleteInvoiceRecord: a failed delete (invoice-records.ts:356) is not modelled, and the lookup failure's driver message is `NotFound`.
- DailyPlans.CreateDailyPlan: a failed insert is not modelled.
- DailyPlans.UpdateDailyPlan: a failed update is not modelled.
- DailyPlans.DeleteDailyPlan: a failed delete (daily-plans.ts:276) is not modelled.
- WeeklyPlans.CreateWeeklyPlan: a failed insert is not modelled.
- WeeklyPlans.UpdateWeeklyPlan: a failed update is not modelled.
- WeeklyPlans.DeleteWeeklyPlan: a failed delete (weekly-plans.ts:244) is not modelled.
- SalesActivities.CreateSalesActivity: a failed insert is not modelled.
- SalesActivities.UpdateSalesActivity: a failed update of the row is not modelled.
- The clock and local time: `Date.now()`, the current year and month, and the server's time zone are parameters. `toISOString()` is modelled only for the date ranges under "## Findings".
- Floating point: amounts are integers. `parseFloat` keeps the sign and the leading integer digits; fractions and exponents are dropped. Rounding in the statistics is exact rational rounding.
- ActivityStats.Percent: computes `Math.round` of an exact quotient, so a float rounding error near a half is not modelled.
- RecordRules.PaginationOf: requires a positive limit. A limit of 0 gives `Infinity` pages in the source.
- RecordRules.TotalPages: requires a positive limit, for the same reason.
- String length: lengths count characters, not UTF-16 code units.
- Case folding: `toLowerCase` and `ilike` fold ASCII letters only.
- Sorting: `Array.prototype.sort` is modelled as an insertion sort on sequences. The in-place update of the JavaScript array is not modelled, only the sorted result.
- The seed-data exporters: reading the workbooks is an input. The exporters take the parsed columns, and pandas' treatment of empty cells is not modelled.
- Auth.TokenUserId: decodes only tokens of `generateToken`'s exact text, keys in that order. Any other token gives `CurrentUserError`, including valid JSON with its keys reordered or extra white space, which the source decodes and looks up. The source answers a JSON token without `userId` as not found.
- Auth.TokenRoundTrip: requires a user id without control characters, because the `\u` escapes of `JSON.stringify` are not modelled.
- Token encoding: the token's base64 layer is not modelled. It is a bijection on the JSON text's bytes.
- Password hashing: `Bun.password` hashing and verification are library calls. Verification is a boolean input.
- `updated_at`: the timestamp columns written by the update handlers are not modelled.
- The `getAllUsers` of the sales-activity module (sales-activities.ts:371-412) is the same expansion as `RecordRules.ExpandUsers`, without the email column. It is not modelled again.
- The `getAllUsers` of the weekly-plan module (weekly-plans.ts:254-268) selects id, name, department and email and returns those rows as they are, with no expansion. It is a plain read and is not modelled.
- ExtractExcelTs.BundleOf: the JSON text written to `excel_data.json` (extract_excel_data.ts:58, `JSON.stringify(data, null, 2)`) is not modelled. The model stops at the bundle value.
- ExtractExcelPy.Run: the JSON text written to `excel_data.json` (extract_excel_data.py:55-61, `json.dump` with `ensure_ascii=False, indent=2`) is not modelled. The model stops at the bundle value.
- SalesActivityForm.SelectSite: the form's error message is not part of the modelled state, so the clearing of the error when a site is chosen (SalesActivityForm.tsx:90) is not captured.
- Text.Trim: white space is ASCII white space, the no-break space and the byte-order mark. The other Unicode space separators and line terminators that JavaScript's `trim` also removes are not modelled.
- OrderStats.GetOrderStats: the sales and profit construction queries are modelled as reads of one table. A failure of only one of them is not modelled. The outer catch (order-stats.ts:218-221) is not modelled, since the modelled steps do not throw.
- Auth.HandleChangePassword: the outer catch (auth.ts:123-129) is not modelled, and the hashing is a library call.
- Daily and weekly plan lists: their `created_at` ranges are the query's predicates and are not proved to be month ranges.
- Cost efficiency: its per-site summary queries are modelled as one shared table.
- Collections: the year and month of the monthly lookup are parameters.
- The site search of `src/server/collections.ts` (lines 49-67) is not modelled separately. It is the search of `RecordRules.SearchSites` over two columns, but it puts the raw query into the `or` filter text, without LIKE escaping.
- UserSeed.ParseLine: trims ASCII white space, the no-break space and the byte-order mark. JavaScript's `trim` also removes the other Unicode space separators and line terminators.
- FillSiteInfo.FillMissingSiteInfo: models the search and update failures as booleans. Its "no updates needed" branch cannot be reached, and that is proved.
- SalesActivityForm.ExecutionRateChange: takes the parsed input. `parseInt`'s `NaN` for text that is not a number is not modelled.
- SalesActivityForm.UploadFiles: the order in which `Promise.all` rejects is modelled as the first refused file by index.
- Spreadsheet cells: an uploaded sheet's cells are numbers, text or holes. Boolean and date cells are not modelled. `toLocaleString` is modelled as thousands grouping.
- Form initial values: a form's initial state when it opens is an input.
- Sidebar rendering: the render tree of `Sidebar.tsx` is not modelled, only the menu, the expansion state and the highlighting.
- ConstructionSalesScore: the auto-selection of the first user in `fetchUsers` (ConstructionSalesScore.tsx:57-62), `formatDate` and `days_since` are not modelled.
- The route handler in `src/server/index.ts` that extracts the score query's parameters is not part of this model.
- ConstructionScoreStats: the conversion of the period to Korean-time timestamps (construction-score-stats.ts:28-29) is a query predicate and is not modelled. The month and year wrappers (construction-score-stats.ts:230-255) are not modelled either.
- ConstructionSalesModal: the fetch errors of `loadMasterData` are not modelled. The modal takes the two lists that were loaded.
- Single-record getters: `getDailyPlan`, `getWeeklyPlan`, `getInvoiceRecord` and `getCollectionRecord` are plain lookups by id and are not modelled.

## Findings

| source | as written | input that shows it | evidently intended | confidence | as-written member | corrected member |
|---|---|---|---|---|---|---|
| src/server/invoice-records.ts:76-81 | The invoice list's range is built from local-midnight `Date` values and keeps the date part of `toISOString()`. | In Seoul (540 minutes east of UTC), March 2024 gives 2024-02-29 through 2024-03-30, so invoices dated 2024-03-31 are missing. | The first through the last day of the month, as the collection list writes it. | not executed; depends on the server's zone being east of UTC | MonthRanges.InvoiceRangeAsWritten, MonthRanges.RangesMarch2024Seoul, MonthRanges.InvoiceRangeShiftedEastOfUtc | MonthRanges.MonthRange, MonthRanges.MonthRangeIsMonth, InvoiceRecords.InvoiceRange |
| src/server/sales-activities.ts:70-79 | The activity list's range runs from local midnight of the first day to 23:59:59 of the last, each through `toISOString()`. | In Seoul, March 2024 gives 2024-02-29 through 2024-03-31, so activities dated 2024-02-29 are listed. | The first through the last day of the month. | not executed; depends on the server's zone being east of UTC | MonthRanges.ActivityRangeAsWritten, MonthRanges.ActivityRangeShifted | MonthRanges.MonthRange, MonthRanges.MonthRangeIsMonth |
