# Citizens United spending pipeline — a Dafny model

This project models the core of a two-script Python pipeline that studies
partisan political spending before and after the *Citizens United* ruling.

`scripts/01_import.py` loads OpenSecrets files into SQLite. The model covers:

- the row normalisation of `parse_rows`;
- the batching loop of `bulk_insert`, run against a sink that records the
  `executemany` and `commit` calls it gets;
- the checkpoint map behind `is_done`/`mark_done`;
- the skip-if-done sequencing of `main`.

`scripts/02_clean.py` builds six derived tables with SQL and then validates
them. In the model, tables are sequences of records and SQL NULL is `None`.
The SQL becomes functions over those sequences:

- `WHERE` becomes `Filter`;
- a projection becomes `Map`;
- `INNER JOIN` becomes `Join`;
- `UNION ALL` becomes concatenation;
- `GROUP BY … SUM/COUNT` becomes `GroupBy`.

`LIKE` is ASCII case-insensitive, and text comparison is code-point order.
The `check` rule of `validate` and its `passed`/`failed` counters are a small
class, and the guards of the cleaning `main` are a function.

The summary loops that close four of the builders and `validate` format
grouped values with f-string format specs. A spec applied to `None` raises
`TypeError`, so these loops can end the run. The model records, for each
loop, exactly when it raises; the text it logs is not modelled.

Modules, bottom-up:

| module | file | what it holds |
|---|---|---|
| `Sql` | sql.dfy | NULL, `substr`, `LIKE` prefixes, text order, `MAX`, `SUM`, `CAST … AS REAL`, `NULLIF` |
| `Rel` | rel.dfy | filter, map, inner join, group-by with sums and counts |
| `Classify` | classify.dfy | the CASE expressions: party/PAC/ViewPt direction, quarter → cycle, cycle → era |
| `Dates` | dates.dfy | `ISO_DATE`, `YEAR_EXPR`, `MONTH_EXPR`, and `strftime('%Y-%W')` computed in Gregorian arithmetic |
| `Cpi` | cpi.dfy | the CPI factor table as loaded, and the LEFT JOIN on it |
| `Candidates` | candidates.dfy | `pres_candidates` |
| `Contributions` | contributions.dfy | `indivs_to_pres` |
| `PacSpending` | pacs.dfy | `pacs_to_pres` and its two branches |
| `Filings527` | filings527.dfy | the latest-ViewPt lookup and `exp527_aligned` |
| `Spending` | spending.dfy | `partisan_spending_monthly` and `partisan_spending_weekly` |
| `Reports` | reports.dfy | when each summary loop raises on a NULL it formats |
| `Validation` | validation.dfy | `check`, its counters, and the nine checks |
| `CleanMain` | clean.dfy | the raw-table guard and build order of the cleaning `main` |
| `ImportRows` | importrows.dfy | `parse_rows` |
| `BulkLoad` | bulkload.dfy | `bulk_insert` |
| `Checkpoint` | checkpoint.dfy | `is_done`, `mark_done`, and the step sequencing of the importer's `main` |

## Model

| member | source | states |
|---|---|---|
| `Sql.Substr` | scripts/02_clean.py:108-110 | SQLite `substr(s, start, len)` with 1-based start: the result is the slice of `s` starting at `start`, at most `len` long, and exactly `len` long when `s` is long enough |
| `Sql.SubstrField` | scripts/02_clean.py:108-110 | `substr` of NULL is NULL and of text is text |
| `Sql.LikeSingleLetter` | scripts/02_clean.py:723-724 | `x LIKE 'C%'` holds exactly when `x` starts with `C` or `c` |
| `Sql.MaxField` | scripts/02_clean.py:365-367 | `MAX(Year)` over TEXT is NULL exactly when every value is NULL; otherwise it is one of the values and no value is greater in text order |
| `Sql.Plus` | scripts/02_clean.py:459-461 | adding to a SQL running sum: NULL only when both sides are NULL, else the sum with NULL read as 0 |
| `Sql.Times` | scripts/02_clean.py:215 | a product with NULL is NULL |
| `Sql.SqlSum` | scripts/02_clean.py:459-461 | `SUM` is NULL exactly when every input is NULL, and otherwise is the total of the non-NULL inputs |
| `Sql.NullIf` | scripts/02_clean.py:214 | `NULLIF(x, lit)` is NULL exactly when `x` is NULL or equals `lit` |
| `Sql.Amount` | scripts/02_clean.py:214 | `CAST(NULLIF(Amount,'') AS REAL)` is NULL exactly when the amount is NULL or empty |
| `Sql.CastRealOfDigits` | scripts/02_clean.py:214 | an amount made only of digits casts to its decimal value |
| `Rel.Filter` | scripts/02_clean.py:230-234 | a `WHERE` keeps exactly the rows that satisfy it, in order, and no more rows than it reads |
| `Rel.FilterAppend` | scripts/02_clean.py:291 | filtering a `UNION ALL` is the union of the filtered parts |
| `Rel.Map` | scripts/02_clean.py:153-172 | a projection keeps the row count and maps each row in place |
| `Rel.JoinMember` | scripts/02_clean.py:226-227 | an inner join holds exactly the pairs of rows that meet the join condition |
| `Rel.JoinLength` | scripts/02_clean.py:226-227 | the join's row count is the sum, over the left rows, of their matches |
| `Rel.MatchTotalAtMost` | scripts/02_clean.py:226-227 | when each left row matches at most one right row, the join has no more rows than the left table |
| `Rel.GroupByFind` | scripts/02_clean.py:464 | the group for a key holds the count and the sums of exactly the rows with that key |
| `Rel.GroupByDistinct` | scripts/02_clean.py:464 | `GROUP BY` yields one group per key that occurs, and no other |
| `Rel.GroupByMember` | scripts/02_clean.py:464 | every output group is the group of its key and counts at least one row |
| `Rel.WithKeyMember` | scripts/02_clean.py:464 | the rows a group gathers are exactly the input rows with its key |
| `Rel.NullSumIff` | scripts/02_clean.py:459-464 | some group's `SUM(Amount_2024)` is NULL exactly when some key has only rows whose 2024-dollar amount is NULL |
| `Rel.CountIfZero` | scripts/02_clean.py:720-724 | `COUNT(*) … WHERE p` is 0 exactly when no row satisfies `p` |
| `Rel.GroupByLossless` | scripts/02_clean.py:459-464 | over any set of keys, the groups' counts and sums add up to the row count and amounts of the input rows with those keys |
| `Classify.PartyDirection` | scripts/02_clean.py:95-101 | party `R` gives pro_R, `D` gives pro_D, and anything else, NULL included, gives unaligned |
| `Classify.PacDirection` | scripts/02_clean.py:85-93 | a "for" type (24E/24C/24F/24K/24Z) keeps the party's direction, an "against" type (24A/24N) gives the opposite party's, and any other type is unaligned |
| `Classify.PacDirectionMinorParty` | scripts/02_clean.py:85-93 | a PAC row for a candidate who is neither R nor D is unaligned whatever its type |
| `Classify.PacDirectionAgainst` | scripts/02_clean.py:87-90 | an aligned "against" row never supports the candidate's own party |
| `Classify.ViewPtDirection` | scripts/02_clean.py:392-396 | ViewPt `C` gives pro_R, `L` gives pro_D, and anything else gives unaligned |
| `Classify.QuarterYear` | scripts/02_clean.py:120 | the year cast from `'20'` followed by `substr(QuarterYr,3,2)` is NULL exactly for a NULL quarter code |
| `Classify.CycleFromQuarter` | scripts/02_clean.py:119-131 | a cycle, when there is one, is one of 2004/2008/2012/2016 |
| `Classify.CycleFromQuarterWellFormed` | scripts/02_clean.py:119-131 | for quarter code `Q<n><yy>`, the cycle is the study cycle whose year is 20yy or 20yy+1; every other year gives NULL |
| `Classify.CycleFromQuarterMalformed` | scripts/02_clean.py:119-131 | a quarter code without two year digits gives NULL, not an error |
| `Classify.EraFromCycle` | scripts/02_clean.py:133-140 | an era exists exactly for cycles 2004/2008/2012/2016 |
| `Classify.EraSplitsAt2010` | scripts/02_clean.py:133-140 | pre_CU for 2004 and 2008, post_CU for 2012 and 2016 |
| `Dates.YearText` | scripts/02_clean.py:109 | `YEAR_EXPR` is at most four characters |
| `Dates.MonthText` | scripts/02_clean.py:110 | `MONTH_EXPR` is at most two characters |
| `Dates.IsoDate` | scripts/02_clean.py:108 | for a date of ten or more characters, `ISO_DATE` is ten characters with dashes at positions 5 and 8 |
| `Dates.IsoDateOfUsDate` | scripts/02_clean.py:104-110 | `MM/DD/YYYY` becomes `YYYY-MM-DD`; the year and month parts are `YYYY` and `MM` |
| `Dates.Pad` | scripts/02_clean.py:111 | `%W`/`%Y` padding yields the given number of digits |
| `Dates.PadValue` | scripts/02_clean.py:111 | a padded number reads back as that number |
| `Dates.PadOfDigits` | scripts/02_clean.py:111 | padding the value of a digit string of that width gives the string back |
| `Dates.ParseIso` | scripts/02_clean.py:111 | a date SQLite accepts has a year below 10000, a month 1–12 and a day 1–31 |
| `Dates.DaysBeforeNextYear` | scripts/02_clean.py:111 | the day count of the Gregorian calendar advances by the length of each year |
| `Dates.DaysBeforeMonthSums` | scripts/02_clean.py:111 | the days before a month advance by each month's length and add up to the year's length |
| `Dates.YearDay` | scripts/02_clean.py:111 | the day of the year is at most 365 |
| `Dates.WeekOfYear` | scripts/02_clean.py:111 | the `%W` week number is 0–53 |
| `Dates.WeekCountsMondays` | scripts/02_clean.py:111 | the `%W` formula counts the Mondays from 1 January to the date (Monday-first weeks, not ISO weeks) |
| `Dates.WeekLabel` | scripts/02_clean.py:111 | a week label is seven characters, `YYYY-WW` |
| `Dates.WeekLabelParts` | scripts/02_clean.py:111 | the label's year is the date's `YYYY`, and its week is the number of Mondays of that year up to the date |
| `Cpi.LoadedFactors` | scripts/01_import.py:347-370 | after loading, the factor table has exactly the hard-coded cycles; a refresh can only overwrite those |
| `Cpi.LoadedFactorsKeys` | scripts/01_import.py:50-55 | the cycles with a factor are 2004, 2008, 2012 and 2020; a cycle the refresh does not mention keeps its hard-coded factor |
| `Cpi.Factor` | scripts/02_clean.py:228-229 | the LEFT JOIN on `cpi_factors` gives the cycle's factor, or NULL when there is none |
| `Cpi.Amount2024` | scripts/02_clean.py:215 | `Amount * cf.factor` is non-NULL exactly when the amount and the cycle's factor both exist |
| `Cpi.No2016Factor` | scripts/01_import.py:50-55 | no 2016 row has a 2024-dollar amount, because 2016 has no CPI factor |
| `Candidates.PresCandidates` | scripts/02_clean.py:145-172 | `pres_candidates` has one row per `PRES` candidate row, each with the era of its cycle |
| `Candidates.PresCandidatesMember` | scripts/02_clean.py:153-172 | a row is in `pres_candidates` exactly when it is the projection of a `PRES` candidate row |
| `Candidates.PresCandidatesMultiplicity` | scripts/02_clean.py:153-172 | each output row occurs as often as the candidate rows that project to it: no deduplication |
| `Contributions.IndivsToPres` | scripts/02_clean.py:186-234 | the table's size is the number of (kept contribution, matching candidate) pairs |
| `Contributions.IndivsToPresMember` | scripts/02_clean.py:201-234 | a row is in `indivs_to_pres` exactly when it is built from a kept contribution and a candidate of the same cycle whose CID is the RecipID |
| `Contributions.IndivsToPresRow` | scripts/02_clean.py:201-234 | every row has an allowed Type and a RealCode that is NULL or not Z9/Z4; it matches a presidential candidate, takes its party and direction from it, and has its CPI-adjusted amount |
| `Contributions.NoPacRecipients` | scripts/02_clean.py:720-724 | if no presidential CID looks like a committee ID, no row's RecipID does either |
| `Contributions.IndivsToPresAtMostOnce` | scripts/02_clean.py:226-227 | if (CID, Cycle) is unique among presidential candidates, no contribution is counted twice |
| `PacSpending.Primary` | scripts/02_clean.py:262-290 | the primary branch's size is the number of (kept PAC row, matching candidate) pairs |
| `PacSpending.Secondary` | scripts/02_clean.py:292-322 | the `pac_to_pac` branch's size is the number of (kept row, candidate matched on RecipCommID) pairs |
| `PacSpending.PacsToPres` | scripts/02_clean.py:262-322 | `pacs_to_pres` is the primary branch followed by the secondary one: its rows up to the primary branch's size are that branch, the rest are the `pac_to_pac` branch, and its size is the sum of theirs |
| `PacSpending.PrimaryRowFacts` | scripts/02_clean.py:262-290 | a primary row passes the PrimCode filter, is tagged `pacs_to_candidates`, comes from a matching pair, and has its direction by type and its adjusted amount |
| `PacSpending.SecondaryRowFacts` | scripts/02_clean.py:292-322 | a secondary row has DI NULL, is tagged `pac_to_pac`, comes from a kept row matched on RecipCommID, and takes its direction from party only |
| `PacSpending.PacsToPresDi` | scripts/02_clean.py:262-322 | a row with a DI comes from the primary branch; a `pac_to_pac` row has no DI |
| `Filings527.AtMaxYearIsLatest` | scripts/02_clean.py:361-369 | a filing at its EIN's `MAX(Year)` is not older than any other filing of that EIN |
| `Filings527.LatestIsLatest` | scripts/02_clean.py:361-369 | every row of the lookup SQLite may build has a non-NULL EIN and is the projection of a filing at its EIN's latest year |
| `Filings527.LatestLookupValid` | scripts/02_clean.py:361-369 | the first-row choice among tied latest filings is a valid lookup: one row per EIN that has a dated filing, and no other |
| `Filings527.LatestFromDistinct` | scripts/02_clean.py:361-369 | the first-row choice keeps at most one row per EIN |
| `Filings527.LeftJoinMember` | scripts/02_clean.py:406 | an expenditure is paired with a lookup row exactly when their EINs are equal |
| `Filings527.Exp527Member` | scripts/02_clean.py:373-410 | a row is in `exp527_aligned` exactly when it is built from an expenditure paired with an `F` lookup row and has a cycle |
| `Filings527.Exp527RowFacts` | scripts/02_clean.py:373-410 | every row has Ctype `F` and the ViewPt of its EIN's lookup row, its direction by ViewPt, a study cycle with its era, and its real and adjusted amounts |
| `Filings527.Exp527FromLatestFiling` | scripts/02_clean.py:361-410 | a row's ViewPt and Ctype come from a filing of that EIN at its latest year |
| `Filings527.LeftJoinOnce` | scripts/02_clean.py:406 | with one lookup row per EIN, the LEFT JOIN keeps the expenditure count |
| `Filings527.Exp527AtMostOnce` | scripts/02_clean.py:406-410 | no expenditure appears twice in `exp527_aligned` |
| `Spending.Monthly` | scripts/02_clean.py:431-518 | the monthly table has one group per (cycle, era, year, month, channel, direction) |
| `Spending.Weekly` | scripts/02_clean.py:535-620 | the weekly table has one group per (cycle, era, year-week, channel, direction) |
| `Spending.BranchChannel` | scripts/02_clean.py:448-518 | every group of a branch carries that branch's `spending_type` |
| `Spending.AggregateDistinct` | scripts/02_clean.py:448-518 | the four branches together never repeat a key |
| `Spending.AggregateRowSource` | scripts/02_clean.py:448-518 | each group is its key's group among the channel's dated rows, counts at least one row, and comes from a source row with that bucket and direction |
| `Spending.BranchSums` | scripts/02_clean.py:448-464 | a branch's counts and sums equal the count and amounts of its dated rows |
| `Spending.AggregateLossless` | scripts/02_clean.py:448-518 | per channel, the groups' `n_transactions` add up to the channel's dated source rows, and their totals to those rows' amounts |
| `Spending.MonthlyLossless` | scripts/02_clean.py:448-518 | the monthly table counts and sums every source row with a non-empty Date: for the PAC channels, those with DI `D` or `I` |
| `Spending.WeeklyLossless` | scripts/02_clean.py:546-620 | the weekly table does the same for rows whose Date is ten characters long |
| `Spending.WeeklyWithinMonthly` | scripts/02_clean.py:546-620 | per channel, the weekly table counts no more rows than the monthly one |
| `Spending.AggregateIgnoresUnflagged` | scripts/02_clean.py:480-498 | PAC rows with DI NULL do not change either aggregate |
| `Spending.PacToPacNotAggregated` | scripts/02_clean.py:304 | both aggregates over `pacs_to_pres` equal those over its primary branch alone, so `pac_to_pac` rows never appear |
| `Reports.NullSumOfMap` | scripts/02_clean.py:238-242 | a group-by over keyed rows has a NULL 2024-dollar sum exactly when some row's key has only NULL amounts |
| `Reports.IndivReportRaisesIff` | scripts/02_clean.py:238-242 | the per-cycle contributions summary raises exactly when some cycle has only rows with a NULL 2024-dollar amount |
| `Reports.PacReportRaisesIff` | scripts/02_clean.py:327-334 | the per-(cycle, DI) PAC summary raises exactly when some rows with a DI share a cycle and DI, and all of them have a NULL 2024-dollar amount |
| `Reports.Exp527ReportRaisesIff` | scripts/02_clean.py:420-426 | the per-(cycle, direction) 527 summary raises exactly when some (cycle, direction) has only rows with a NULL 2024-dollar amount |
| `Reports.IndivReportRaisesWithoutFactor` | scripts/02_clean.py:215-242 | a contribution row whose cycle has no CPI factor makes the contributions summary raise |
| `Reports.PacReportRaisesWithoutFactor` | scripts/02_clean.py:262-334 | a PAC row with a DI, whose cycle has no CPI factor, makes the PAC summary raise |
| `Reports.PacRowAmount` | scripts/02_clean.py:262-322 | every `pacs_to_pres` row has its amount times its cycle's factor as its 2024-dollar amount |
| `Reports.Exp527ReportRaisesIn2016` | scripts/02_clean.py:420-426 | with the importer's CPI table, any 2016 row of `exp527_aligned` makes the 527 summary raise |
| `Reports.IndivEraOutsideStudy` | scripts/02_clean.py:133-234 | a contribution row of a cycle outside 2004/2008/2012/2016 has a NULL era |
| `Reports.MonthlyReportRaisesOnNullEra` | scripts/02_clean.py:524-530 | a dated contribution row with a NULL era puts a NULL era into the monthly table, so the monthly summary raises |
| `Validation.CheckRule` | scripts/02_clean.py:683-691 | `==` never raises and passes on equality (NULL is never equal); `>=`/`<=` raise on NULL and otherwise compare; any other compare name means `result > 0` |
| `Validation.Tally.Run` | scripts/02_clean.py:683-697 | one `check` call: the outcome is the rule's, and exactly one of `passed`/`failed` goes up by one unless the comparison raises |
| `Validation.SummarizeCounts` | scripts/02_clean.py:683-697 | validation raises exactly when some check raises; otherwise passed + failed is the number of checks and passed counts the passing ones |
| `Validation.SummarizeStops` | scripts/02_clean.py:683-697 | once a check raises, later checks are not run |
| `Validation.Tally.RunUntil` | scripts/02_clean.py:683-750 | running a stretch of checks with the counters stops at the first that raises, or at the stretch's end, with the counts `Summarize` gives for the checks run |
| `Validation.SummarizeLogged` | scripts/02_clean.py:672-755 | with a raising log loop before check `at`, the run raises exactly when the loop or some check raises; without it, the run is `Summarize`'s; if the loop is reached and raises, exactly `at` checks were counted |
| `Validation.Validate` | scripts/02_clean.py:672-755 | running the checks in order with the counters, and the era-totals loop before the seventh check, gives the counts and raise that `SummarizeLogged` specifies |
| `Validation.Coverage` | scripts/02_clean.py:733-735 | the coverage fraction is NULL exactly when `indivs_to_pres` is empty, and otherwise lies in [0, 1] |
| `Validation.Checks` | scripts/02_clean.py:700-754 | the nine checks, in source order |
| `Validation.KnownEraChecksPass` | scripts/02_clean.py:727-730 | the two era checks always pass, since an era is known or NULL and `NOT IN` skips NULL |
| `Validation.ChecksRaiseIffNoIndivs` | scripts/02_clean.py:700-754 | the nine checks raise exactly when `indivs_to_pres` is empty, after five checks have been counted, and then the first six already raise |
| `Validation.ValidateRaises` | scripts/02_clean.py:700-754 | `validate` raises exactly when `indivs_to_pres` is empty or the era-totals loop meets a NULL era; five checks are counted in the first case and six in the second |
| `Validation.NoPacRecipientCheckPasses` | scripts/02_clean.py:723-724 | the anti-double-counting check passes when no presidential CID looks like a committee ID |
| `Validation.AllFourCycles` | scripts/02_clean.py:749-750 | for a set of study cycles, having four elements means having them all |
| `Validation.Exp527CycleCheck` | scripts/02_clean.py:749-750 | the 527 cycles are study cycles, and the count-is-4 check passes exactly when all four appear |
| `Validation.DistinctErasCheck` | scripts/02_clean.py:702-703 | the eras check passes exactly when both eras occur among presidential candidates |
| `CleanMain.FirstEmptyIsFirst` | scripts/02_clean.py:772-778 | the guard finds an empty table exactly when one exists, and it is the first one |
| `CleanMain.FirstRaise` | scripts/02_clean.py:238-530 | the first summary loop, in build order, that raises; none exactly when no loop raises |
| `CleanMain.CleanMain` | scripts/02_clean.py:762-804 | the run stops exactly when a required raw table is empty, naming the first empty one; otherwise it builds the tables in order, raises in the first summary loop that raises, and validates the tables exactly when no loop raises |
| `CleanMain.CleanedRaisesIffNoMatches` | scripts/02_clean.py:772-804 | past the guard and the summary loops, validation still raises exactly when no contribution matched a presidential candidate |
| `CleanMain.ValidatedRaisesIffNoIndivs` | scripts/02_clean.py:700-754 | tables on which no summary loop raises validate with a raise exactly when `indivs_to_pres` is empty |
| `CleanMain.OutsideStudyCycleCrashes` | scripts/02_clean.py:133-140 | past the guard, a dated contribution of a cycle outside the study cycles, such as 2020, makes the run raise in a summary loop |
| `CleanMain.Exp527Of2016Crashes` | scripts/02_clean.py:420-426 | past the guard, with the importer's CPI table, a 2016 527 expenditure makes the run raise in a summary loop |
| `ImportRows.Strip` | scripts/01_import.py:293-294 | `str.strip()`: the result is a slice of the field with only whitespace cut, and it neither starts nor ends with whitespace |
| `ImportRows.StripIdempotent` | scripts/01_import.py:293-294 | stripping twice is stripping once |
| `ImportRows.Normalized` | scripts/01_import.py:293-300 | a normalised row has exactly `expected_cols` fields: field j is the stripped raw field j if there is one, else `""` |
| `ImportRows.NormalizedIdempotent` | scripts/01_import.py:293-300 | normalising a normalised row changes nothing |
| `ImportRows.NormalizedShape` | scripts/01_import.py:296-300 | a short row is padded with `""`; a long row becomes its first `expected_cols` fields |
| `ImportRows.NormalizeRow` | scripts/01_import.py:293-300 | the comprehension-then-extend/slice loop computes the normalised row |
| `ImportRows.GoodPrefix` | scripts/01_import.py:291-306 | the lines read before the first CSV error all parsed, and the line after them is the error |
| `ImportRows.ParseRows` | scripts/01_import.py:287-306 | the rows yielded are the normalised lines before the first CSV error; `row_count` is their number, and `error_count` is 1 exactly when an error ended the file |
| `BulkLoad.Flushed` | scripts/01_import.py:328-334 | the rows that have gone out in full chunks: a multiple of `CHUNK_SIZE`, less than one chunk below the total |
| `BulkLoad.Sink.ExecuteMany` | scripts/01_import.py:331 | the sink records one `executemany` call with its batch |
| `BulkLoad.Sink.Commit` | scripts/01_import.py:334 | the sink records one commit |
| `BulkLoad.BulkInsert` | scripts/01_import.py:313-342 | `bulk_insert` returns the number of rows it consumed, and makes exactly the calls `InsertEvents` specifies |
| `BulkLoad.ChunkEventsBatches` | scripts/01_import.py:328-335 | the full chunks are batches of exactly `CHUNK_SIZE` rows that concatenate to the rows flushed so far |
| `BulkLoad.InsertEventsRows` | scripts/01_import.py:328-341 | the batches, in order, concatenate to the input: each row is inserted once, in order |
| `BulkLoad.InsertEventsSizes` | scripts/01_import.py:328-339 | every batch is non-empty with at most `CHUNK_SIZE` rows, and all but the last have exactly `CHUNK_SIZE` |
| `BulkLoad.ChunkEventsCommitAt` | scripts/01_import.py:330-335 | among the full chunks, a call is a commit exactly when it follows a full flush at which the running total is a multiple of `commit_every` |
| `BulkLoad.InsertEventsCommits` | scripts/01_import.py:328-341 | the last call is the final commit; every earlier call is a commit exactly when it follows a full flush at a multiple of `commit_every` |
| `Checkpoint.Get` | scripts/01_import.py:683-684 | `state.get(key)` is the key's value, or None for a missing key |
| `Checkpoint.IsDone` | scripts/01_import.py:683-684 | `is_done` holds exactly when the key is present with value `"done"` |
| `Checkpoint.MarkedEffect` | scripts/01_import.py:687-689 | after `mark_done(k)`, `k` is done and every other key's value, or absence, is unchanged |
| `Checkpoint.Pipeline.constructor` | scripts/01_import.py:671-675 | the state starts as the loaded checkpoint, with nothing run |
| `Checkpoint.Pipeline.MarkDone` | scripts/01_import.py:687-689 | `mark_done` sets the key to `"done"` and saves the whole state |
| `Checkpoint.Pipeline.RunSteps` | scripts/01_import.py:711-714 | a block of skip-if-done stanzas calls, marks and saves exactly as `Exec` specifies, and the saved file always equals the state |
| `Checkpoint.Pipeline.RunCycles` | scripts/01_import.py:725-757 | the per-cycle loop runs the six stanzas of each cycle in order, with the effect `Exec` specifies for their concatenation, and stops at the first step that raises |
| `Checkpoint.Pipeline.RunPlan` | scripts/01_import.py:711-779 | a block of stanzas, the per-cycle loop and a closing block, run one after the other, have the effect `Exec` specifies for the three concatenated |
| `Checkpoint.ExecAppend3` | scripts/01_import.py:711-779 | running three blocks in turn: each starts where the previous one left off, and only if that one reached its end |
| `Checkpoint.Pipeline.ImportAll` | scripts/01_import.py:711-779 | `main` visits the 31 step keys in order with the effect `Exec` specifies |
| `Checkpoint.ImportSteps` | scripts/01_import.py:711-779 | `main` visits 31 step keys |
| `Checkpoint.ImportStepsDistinct` | scripts/01_import.py:711-779 | no step key repeats |
| `Checkpoint.ExecAppend` | scripts/01_import.py:711-779 | running two blocks in turn is running their concatenation, and a run that raises in the first block never starts the second |
| `Checkpoint.ExecRunsOnlyPending` | scripts/01_import.py:711-779 | only steps whose key was not done are called |
| `Checkpoint.ExecUntouched` | scripts/01_import.py:711-779 | keys no called step touched keep their value, or their absence |
| `Checkpoint.ExecRaisesLast` | scripts/01_import.py:711-779 | only the last step called can have raised, and one did exactly when the run stopped early |
| `Checkpoint.ExecMarksRan` | scripts/01_import.py:711-779 | a called step's key is done afterwards exactly when that step returned |
| `Checkpoint.ExecStaysDone` | scripts/01_import.py:683-689 | a run never unmarks a key |
| `Checkpoint.ExecLeavesAllDone` | scripts/01_import.py:711-779 | a run that reaches its end leaves every step key done |
| `Checkpoint.ExecAllDone` | scripts/01_import.py:711-779 | over an all-done state nothing runs and nothing changes |
| `Checkpoint.ExecRerun` | scripts/01_import.py:711-779 | rerunning after a run that reached its end calls no step |
| `Checkpoint.ExecRunsAllPending` | scripts/01_import.py:711-779 | with distinct keys and no step raising, every pending step is called exactly once, in order |
| `Checkpoint.MainAllDone` | scripts/01_import.py:711-779 | `main` over an all-done checkpoint calls no import step |
| `Checkpoint.MainRunsPendingOnce` | scripts/01_import.py:711-779 | when no step raises, `main` calls each pending step once, in order, and a second run calls none |

## Left out

- Database plumbing is not modelled: connections, pragmas, `run_sql`'s statement splitting, `DROP`/`CREATE`, temporary tables, and index creation (`create_derived_indexes`, `create_indexes`). Tables are values built by functions.
- `drop_and_run` is not modelled. It only replaces a table wholesale, which is what a function's result does.
- Logging is left out except for whether a summary loop raises: the text it logs and the `SUM(...)/1e9` and `ROUND` values are not modelled. The loop at `scripts/02_clean.py:178-181` has no format spec and never raises.
- Floating point is not modelled: `REAL` arithmetic is exact `real` arithmetic, and the CPI factors are exact decimals. `CAST … AS REAL` reads leading spaces, a sign, an integer part and an optional fraction; exponents and rounding are not covered.
- `load_cpi_factors` is not modelled as SQL. Its parsing of `inflation.csv` becomes a `refresh` map parameter, and only the key set and overwrite rule of the resulting table are modelled.
- `open_file`'s encoding fallback and `csv.reader`'s tokenising are outside the model. The reader is a given sequence of field lists, with `None` for a line on which it raises `csv.Error`.
- `load_checkpoint`/`save_checkpoint` JSON persistence is reduced to the `saved` field, which holds the file's content.
- The bodies of the import steps (`create_schema`, `load_categories`, `import_*`, `create_indexes`) are not modelled. They become step keys whose call is recorded in `trace`; a step that raises is given by the `fails` set.
- The directory checks at the start of the importer's `main`, `validate_import`, and the key-candidate presence loop in `validate` are left out. They depend on concrete data and files.
- Time measurement and concurrency (WAL journaling) are left out. They have no bearing on the results.
- `GROUP BY` output order is not specified by SQL. The model emits groups in first-appearance order, and every lemma is about keys, counts and sums, not order.
- The row that `GROUP BY c1.EIN` keeps among tied latest filings is arbitrary in SQLite. `Filings527.ValidLatest` describes every lookup SQLite may build, and `exp527_aligned` takes the lookup as a parameter. `LatestLookup`, the first-row choice, is one valid lookup, and the cleaning `main` uses it.
- `BulkLoad.BulkInsert` takes `commit_every` > 0. With 0, Python raises `ZeroDivisionError` at the first full chunk, and that error path is not modelled.
- `Checkpoint.Pipeline.ImportAll`'s step keys are the literal keys of the source. The six per-cycle stanzas are one `RunSteps` block per cycle, and the state is a map rather than a JSON object.

## Notes on the code

- The importer loads cycles 2004, 2008, 2012 and 2020 (`scripts/01_import.py:42-55`). The cleaning CASE expressions know 2004, 2008, 2012 and 2016. As written:
  - 2020 rows get a NULL era;
  - 2016 rows get a NULL 2024-dollar amount (`Cpi.No2016Factor`);
  - a 2020 quarter code gives no 527 cycle.
- Because an unknown era is NULL and `NOT IN` skips NULL, the two "only known eras" checks can never fail (`Validation.KnownEraChecksPass`).
- `strftime('%Y-%W')` is SQLite's Monday-first week of year, 00–53, not the ISO 8601 week (`Dates.WeekCountsMondays`).
- The summary loops can crash the cleaning run (`CleanMain.CleanMain`). A format spec such as `:.2f` or `:<10` applied to `None` raises `TypeError`:
  - the loops at `scripts/02_clean.py:242`, `:334` and `:426` raise when a group's `SUM(Amount_2024)` is NULL. With the importer's CPI table that happens for any 2016 group, since 2016 has no factor (`Reports.IndivReportRaisesWithoutFactor`, `CleanMain.Exp527Of2016Crashes`);
  - the loops at `:530` and `:746` raise on a NULL era. Any dated 2020 contribution, which the importer loads, produces one (`CleanMain.OutsideStudyCycleCrashes`).
- `pac_to_pac` rows have DI NULL and never reach the spending tables (`Spending.PacToPacNotAggregated`).
