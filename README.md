# Aadhaar enrolment dashboard: a verified model of its data logic

The dashboard reads Aadhaar enrolment records. Each record has a date, a state, a
district and three age-bracket counts: 0-5, 5-17 and 18 and over. A Python backend
cleans the records and answers summary, totals and recommendation queries. A React
frontend normalises, filters and aggregates the same records for its charts. Two
diagnostic scripts study how district names vary. This project models the
deterministic data logic of all three parts in Dafny and proves what each step
promises.

Modules, one per source file (or per function group of a large one):

- `Common`, `Text`, `Aggregates`: the shared pieces.
  - Records, civil dates ordered by day number, and `Math.round` as `floor(x + 0.5)`.
  - ASCII string rewriting: trim, whitespace collapse, case mapping, word splitting.
  - Group-by-sum into association lists in first-seen order (a JS `Map`, a Python
    dict, a pandas `groupby(sort=False)`).
  - A stable descending sort with top-k, used by every ranking.
- Backend cleaning (`backend/cleaning.py`):
  - `CleaningNames`: state and district canonicalisation.
  - `CleaningMerge`: the merge of rare district spellings into a common one.
  - `CleaningColumns`: `_standardize_columns` and the required-columns check.
  - `CleaningPipeline`: `clean_dataframe_with_report`.
  - `CleaningFilter`: `filter_df`.
- Backend handlers (`backend/main.py`):
  - `BackendHandlers`: age-group selection, `/api/data` sizing, the summaries and the
    state and district totals.
  - `BackendRecommendations`: `get_action_recommendations`, as a method with its
    loops, proved against a specification function.
- Frontend:
  - `DataLoader`: `dataLoader.js`.
  - `DashboardFilters`, `DashboardForecast`, `DashboardWhatIf`, `DashboardKpis`:
    `Dashboard.jsx`.
  - `FiltersPanel`: `Filters.jsx`. `AdvancedAnalytics`: `AdvancedAnalytics.jsx`.
  - `SunburstTotals`, `SunburstTree`: the sunburst hierarchy.
  - `AnomalyDetection`, `ComparisonGraphs`, `ExecutiveSummary`.
  - `CalendarWeeks`, `CalendarHeatmap`, `CalendarLabels`: `CalendarHeatmap.jsx`,
    including the ISO 8601 week number (ISO 8601:2004, section 4.1.4).
  - `StateDistrictHeatmap`, `GeographicMap`, `BarChart`, `LineChart`, `InsightPanel`.
- Scripts:
  - `DistrictStats`: `scripts/district_stats.py`.
  - `DistrictVariants`: `scripts/analyze_district_variants.py`.

Where the source loops over mutable accumulators, the model has a `method` with a
loop. Examples are the sunburst builder, the forecast sums, the week-by-day buckets,
the heatmap matrix fill, the palette hash, the recommendation handler and the
threshold search. Each such method's `ensures` ties its result to a specification
function. Lemmas then prove what the source promises about that function: totals
are conserved, rankings are ordered permutations, bounds hold, and round trips
complete. Pure expression code is modelled as functions and lemmas.

Some properties the model establishes are worth knowing when reading the source:

- The de-duplication by (state, issue) in `get_action_recommendations` never drops
  an item. The three rules cannot produce the same pair twice
  (`BackendRecommendations.PriorityKeysDistinct`).
- The backend's `&`-keyed state aliases can never fire, because `&` is spelled
  "and" before the lookup (`CleaningNames.AmpersandAliasesUnreachable`).
- `_normalize_state` is not idempotent: "the 123" becomes "123", which becomes
  "Unknown" (`CleaningNames.NormalizeStateNotIdempotent`).
- The frontend search is stricter than the backend's. All terms must match in the
  state, or all in the district, where the backend lets each term match either
  field (`DashboardFilters.SearchSemanticsDiffer`).
- Checking and then unchecking "View All States" leaves an empty selection, which
  shows no rows (`FiltersPanel.ViewAllStatesRoundTrip`).
- The variant key of the diagnostic script is not idempotent
  (`DistrictVariants.Key2NotIdempotent`).
- The map never plots Jammu and Kashmir (`GeographicMap.JammuNeverOnMap`; see Findings).

Record values are Dafny `real`s, as a JS number or a pandas float column holds them.
`int()` truncation, the JS `| 0` wrap-around and `Math.round` are written out
explicitly.

## Model

| member | source | states |
|---|---|---|
| CleaningNames.TitleWord | backend/cleaning.py:66 | an exempt word is kept; any other word keeps its length and letters up to case and gets a non-lower-case first character |
| CleaningNames.TitleWordsShape | backend/cleaning.py:65-67 | the title-cased words of a state key lower-case back to the key and are in title form |
| CleaningNames.StripThe | backend/cleaning.py:42 | a leading "the" and its whitespace are removed (at least four characters); without that prefix nothing changes; trimmed input stays trimmed and non-empty |
| CleaningNames.StateKey | backend/cleaning.py:42-46 | the lookup key is non-empty, single-spaced, trimmed, lower-case and holds no `&` |
| CleaningNames.NormalizeState | backend/cleaning.py:31-67 | missing, blank and all-digit cells give "Unknown"; otherwise an alias key gives its alias, any other key gives a title-cased name that lower-cases back to the key; the result is never empty |
| CleaningNames.AmpersandAliasesUnreachable | backend/cleaning.py:43-63 | the two alias keys containing `&` never match a cleaned key, and "Jammu And Kashmir" is never returned |
| CleaningNames.NormalizeStateNotIdempotent | backend/cleaning.py:39-42 | "the " followed by digits normalises to the digits, which a second pass turns into "Unknown" |
| CleaningNames.StripDistrictPrefix | backend/cleaning.py:83 | the label is cut exactly when the text starts with "district" in any case followed by whitespace; then that word and all the whitespace after it go and the rest is kept as it was, otherwise the text is unchanged |
| CleaningNames.StripDistrictSuffix | backend/cleaning.py:84 | the label is cut exactly when the text, without its trailing whitespace, ends in whitespace followed by "district" in any case; then that word and the whitespace on both sides of it go and the text before is kept as it was, otherwise the text is unchanged |
| CleaningNames.CleanDistrictText | backend/cleaning.py:78-91 | the cleaned text is single-spaced, trimmed and free of the removed punctuation; apart from whitespace, dashes and that punctuation it holds exactly the characters of the label-stripped text, in order |
| CleaningNames.DistrictToken | backend/cleaning.py:106-113 | digit tokens and "and", "of", "the" are kept; any other token keeps its letters up to case and gets an upper-case first letter |
| CleaningNames.TitlePhrase | backend/cleaning.py:115-123 | the titled phrase is single-spaced, trimmed and free of the removed characters; up to letter case it holds exactly the characters of the phrase other than spaces and hyphens, in order |
| CleaningNames.ParenAt | backend/cleaning.py:126 | finds the "(" that the lazy regex `(.+?)\s*\((.+)\)` splits at, or none exactly when no such split exists |
| CleaningNames.DistrictTitle | backend/cleaning.py:126-134 | the title is non-empty and district-shaped; for a name holding anything but spaces and hyphens it holds, up to letter case, exactly those characters, in order |
| CleaningNames.InsideTitle | backend/cleaning.py:130-131 | an alphabetic inside of at most three letters comes out in capitals; any inside keeps, up to letter case, exactly its characters other than spaces and hyphens, in order |
| CleaningNames.Parenthesize | backend/cleaning.py:132 | the result is exactly left + " (" + inside + ")", or "(" + inside + ")" when the left side is empty, so never empty |
| CleaningNames.ParenCodeUpper | backend/cleaning.py:130-132 | a short alphabetic code in the closing parenthesis comes out in capitals, as "aurangabad (bh)" ends in "(BH)" |
| CleaningNames.CanonicalDistrict | backend/cleaning.py:99-104 | a spelling listed in the variant table becomes its listed canonical spelling; any other name is returned unchanged; the shape and the presence of a letter are kept |
| CleaningNames.NormalizeDistrict | backend/cleaning.py:70-134 | missing, blank and punctuation-only cells give "Unknown"; any other cell gives a district-shaped title that, up to letter case and the placement of spaces and hyphens, is its cleaned text after the variant table |
| CleaningNames.NormalizeDistrictKeeps | backend/cleaning.py:70-134 | a cell whose cleaned text is not in the variant table keeps, up to letter case and the placement of spaces and hyphens, exactly the characters of that cleaned text |
| CleaningMerge.Tokens | backend/cleaning.py:160-162 | every token is non-empty, not a stop word, and free of whitespace and hyphens |
| CleaningMerge.Jaccard | backend/cleaning.py:194-196 | the overlap lies in [0, 1] and, for a non-empty first set, is 1 exactly when the sets are equal |
| CleaningMerge.BestSpec | backend/cleaning.py:187-205 | a chosen candidate is in the list, differs from the district, overlaps it by at least 0.5 and has a positive score that no other eligible candidate beats; with none chosen the score is 0 |
| CleaningMerge.BestFirst | backend/cleaning.py:187-205 | the chosen candidate is the first to reach the best score: every eligible candidate before it scores strictly less, since only a strictly higher score replaces the best |
| CleaningMerge.FindBest | backend/cleaning.py:187-205 | the candidate loop returns the specified best candidate and score |
| CleaningMerge.Count | backend/cleaning.py:156 | a (state, district) count is at most the number of rows |
| CleaningMerge.States | backend/cleaning.py:165 | the states listed are exactly the rows' states |
| CleaningMerge.RareIn | backend/cleaning.py:177 | a state's rare districts are exactly its districts seen at most `rare_max_occ` times |
| CleaningMerge.CommonIn | backend/cleaning.py:178 | a state's common districts are exactly its districts seen at least `candidate_min_occ` times |
| CleaningMerge.TargetGuards | backend/cleaning.py:176-208 | a mapped district was rare, its state had at least two common districts, and its target is a common district of the same state with overlap at least 0.5 and score at least the threshold |
| CleaningMerge.TargetOfRare | backend/cleaning.py:182-208 | a rare district without tokens is never mapped; with tokens it is mapped to the best candidate when its score clears the threshold |
| CleaningMerge.BuildMapping | backend/cleaning.py:174-208 | the loops record exactly the entries the specification allows, and every one it requires |
| CleaningMerge.MapState | backend/cleaning.py:176-208 | one state's loop keeps the mapping sound, keeps earlier entries and adds every entry due for that state |
| CleaningMerge.MapDistrict | backend/cleaning.py:182-208 | one rare district's step keeps the mapping sound and adds its entry when one is due |
| CleaningMerge.Merged | backend/cleaning.py:213-216 | the same number of rows; each row is unchanged or has its district replaced by a guarded target |
| CleaningMerge.MergeRareDistrictVariants | backend/cleaning.py:137-217 | the method returns exactly the merged rows of the specification |
| CleaningMerge.ApplyMapping | backend/cleaning.py:213-216 | each row is rewritten through the mapping and no row is added or dropped |
| CleaningPipeline.CleanAge | backend/cleaning.py:261-269 | an age value is never negative, and a parsed non-negative value is kept |
| CleaningPipeline.Prepare | backend/cleaning.py:257-269 | the prepared record has non-negative ages |
| CleaningPipeline.PrepareAll | backend/cleaning.py:257-269 | every row is prepared in place, one for one |
| CleaningPipeline.InsertGroup | backend/cleaning.py:284 | adding a record keeps the grouping non-empty, grows it by at most one and adds only the record's key |
| CleaningPipeline.InsertGroupSorted | backend/cleaning.py:284 | adding a record keeps the groups strictly sorted by (date, state, district) |
| CleaningPipeline.InsertGroupAge | backend/cleaning.py:284 | adding a record adds its age values to its own key's group only |
| CleaningPipeline.GroupRecs | backend/cleaning.py:283-285 | one group per key in key order, each holding the sums of its key's age columns, each key drawn from the input, never more groups than records |
| CleaningPipeline.Finish | backend/cleaning.py:288-296 | the total is the sum of the three age columns; date, state and district are kept |
| CleaningPipeline.MergedKnown | backend/cleaning.py:272-280 | after the merge every record still has known names and a valid date |
| CleaningPipeline.KnownStage | backend/cleaning.py:251-272 | the parsed, normalised rows without "Unknown" names are all well formed and no more than the parsed rows |
| CleaningPipeline.GroupStage | backend/cleaning.py:283-285 | the grouped records are well formed, strictly sorted and no more than their input |
| CleaningPipeline.PositiveStage | backend/cleaning.py:288-291 | the kept records are well formed, strictly sorted and all have a positive total |
| CleaningPipeline.ParsedRows | backend/cleaning.py:248-254 | a row is kept exactly when its date parses |
| CleaningPipeline.RunStages | backend/cleaning.py:239-299 | the output is well formed, sorted, with positive totals, and each stage keeps at most as many rows as the one before |
| CleaningPipeline.CleanOutput | backend/cleaning.py:220-301 | the cleaned rows have known names and valid dates, positive totals equal to their age sums, and each (date, state, district) once, in sorted order |
| CleaningPipeline.ExactDuplicates | backend/cleaning.py:320 | the count of rows equal to an earlier row, at most the number of rows |
| CleaningPipeline.ExactDuplicatesDistinct | backend/cleaning.py:320 | the duplicates and the distinct rows together account for every row: duplicates = rows - distinct rows |
| CleaningPipeline.NUnique | backend/cleaning.py:392-393 | the number of distinct values is at most the number of values |
| CleaningPipeline.ReportAccounts | backend/cleaning.py:318-398 | every raw row is counted once: the original count is the sum of the missing, invalid-date, invalid-identifier, logical-duplicate and zero-total counts and the final count; no count is negative; the quality score lies in [0, 100]; state and district counts never exceed the final rows |
| CleaningPipeline.CleanDataframeWithReport | backend/cleaning.py:304-398 | the stage-by-stage method returns the specified cleaned rows and report |
| CleaningColumns.StandardName | backend/cleaning.py:14-28 | a header becomes stripped and lower-cased; it is renamed only through an alias entry and then to a required column; a required name is never renamed |
| CleaningColumns.StandardizeColumns | backend/cleaning.py:14-28 | every header is standardised in place, none added or dropped |
| CleaningColumns.StandardizeIdempotent | backend/cleaning.py:14-28 | standardising an already standardised header row changes nothing |
| CleaningColumns.AliasReachesRequired | backend/cleaning.py:18-27 | any spelling of an alias, in any letter case and with surrounding whitespace, becomes the required column it stands for |
| CleaningColumns.MissingColumns | backend/cleaning.py:241-243 | `sorted(REQUIRED_COLS - set(df.columns))`: exactly the required names the headers lack, strictly ascending |
| CleaningColumns.MissingNoneIff | backend/cleaning.py:241-242 | nothing is missing exactly when every required column is present |
| CleaningColumns.CheckColumns | backend/cleaning.py:239-243 | the frame is accepted with its standardised headers exactly when every required column is present; otherwise the error message lists the missing columns, sorted and joined by ", " |
| CleaningColumns.OneMissingNamed | backend/cleaning.py:241-243 | a header row lacking exactly one required column is rejected with a message naming that column alone |
| CleaningColumns.CleanTable | backend/cleaning.py:220-243 | `clean_dataframe` raises exactly when a required column is missing after standardisation, and otherwise returns the cleaned rows |
| CleaningColumns.CleanTableWithReport | backend/cleaning.py:322-326 | `clean_dataframe_with_report` raises exactly when a required column is missing, and otherwise returns the cleaned rows with a balanced report |
| CleaningFilter.Bound | backend/cleaning.py:412-420 | a date bound is used exactly when it is given, non-empty and parseable, and is then its parsed value |
| CleaningFilter.Terms | backend/cleaning.py:428-430 | the search terms are non-empty and free of whitespace; no query gives no terms |
| CleaningFilter.FilterDf | backend/cleaning.py:401-445 | the method returns exactly the rows of the filter specification |
| CleaningFilter.FilteredInStages | backend/cleaning.py:410-443 | the successive narrowing steps compose to the single filter |
| CleaningFilter.SearchMask | backend/cleaning.py:431-442 | the combined mask holds for a row exactly when every term matches its state or district as a whole word |
| CleaningFilter.FilteredMembers | backend/cleaning.py:410-443 | a row is kept exactly when it lies within the usable bounds, is in the given state and district lists (when non-empty) and matches every term |
| CleaningFilter.UnparseableStartIgnored | backend/cleaning.py:412-415 | an unparseable start bound filters nothing |
| CleaningFilter.UnparseableEndIgnored | backend/cleaning.py:417-420 | an unparseable end bound filters nothing |
| CleaningFilter.EmptyQueryKeepsAll | backend/cleaning.py:410-445 | with no condition the rows come back unchanged |
| CleaningFilter.FilteredIdempotent | backend/cleaning.py:401-445 | filtering twice with the same query is filtering once |
| DataLoader.NormalizeStateJs | uidai-dashboard/src/utils/dataLoader.js:15-44 | a falsy or all-digit cell gives "Unknown"; a non-empty cell of only whitespace gives ""; otherwise an alias key gives its alias and any other key its title-cased words |
| DataLoader.StateCopiesAgree | uidai-dashboard/src/utils/dataLoader.js:15-44 | the browser and backend state normalisers agree on every cell except a non-empty cell of only whitespace |
| DataLoader.NormalizeDistrictJs | uidai-dashboard/src/utils/dataLoader.js:46-49 | a falsy cell gives "Unknown"; otherwise the result is trimmed and single-spaced, no longer than the cell, empty exactly when the cell is blank, and holds exactly the cell's characters other than whitespace, in order |
| DataLoader.DistrictJsIdempotent | uidai-dashboard/src/utils/dataLoader.js:46-49 | normalising a normalised district again changes nothing, except that a blank cell's "" becomes "Unknown" |
| DataLoader.EveryNth | uidai-dashboard/src/utils/dataLoader.js:82 | the picked rows are rows of the input, no more of them |
| DataLoader.EveryNthIndex | uidai-dashboard/src/utils/dataLoader.js:82 | row j of the sample is input row j times the step |
| DataLoader.EveryNthLength | uidai-dashboard/src/utils/dataLoader.js:82 | the sample has ceil(n / step) rows |
| DataLoader.Sampled | uidai-dashboard/src/utils/dataLoader.js:79-82 | the sample is drawn from the rows, and below 20000 rows it is all of them |
| DataLoader.SampledPicks | uidai-dashboard/src/utils/dataLoader.js:79-82 | from 20000 rows on, the sample is the rows at the multiples of floor(n / 10000), ceil(n / step) of them |
| DataLoader.RowDate | uidai-dashboard/src/utils/dataLoader.js:94-105 | without a '-' the text is parsed as it is; with one, the reordered year-month-day text is used when it parses and the text itself otherwise |
| DataLoader.ProcessRow | uidai-dashboard/src/utils/dataLoader.js:87-131 | a row yields a record exactly when its date parses; the record's total is the sum of its three ages (unparseable ages count 0) and its names are the trimmed cells |
| DataLoader.ProcessAll | uidai-dashboard/src/utils/dataLoader.js:87-132 | the kept records are exactly the processed rows with a non-negative total |
| DataLoader.CleanDataRows | uidai-dashboard/src/utils/dataLoader.js:68-143 | every loaded record comes from a complete row whose date parsed, with a non-negative total equal to its age sum |
| DataLoader.CleanDataUnsampled | uidai-dashboard/src/utils/dataLoader.js:72-132 | below 20000 complete rows, a complete row is loaded exactly when its date parses and its total is not negative |
| BackendHandlers.Trunc | backend/main.py:199 | int() of a float truncates toward zero: within one below (or above, for negatives) the value |
| BackendHandlers.TruncMonotone | backend/main.py:196-200 | truncation keeps the order of the sums |
| BackendHandlers.SelectedAgeGroups | backend/main.py:136-139 | the age groups used are never empty and all allowed: the allowed requested ones in order, or all three when none is allowed |
| BackendHandlers.FallbackRowTotal | backend/main.py:138-139 | with no usable selection each row counts all three age columns once |
| BackendHandlers.Unique | backend/main.py:101 | nunique() is at most the row count, and at least 1 for a non-empty table |
| BackendHandlers.SampleSizeRule | backend/main.py:59-76 | /api/data returns every row when the limit (raised to 1) reaches the row count; otherwise the larger of the limit and the number of states, never more than the rows |
| BackendHandlers.ActiveAtMostDistricts | backend/main.py:103-107 | the active districts never outnumber the districts, and are all of them when no minimum is set |
| BackendHandlers.SummaryOf | backend/main.py:91-120 | /api/summary: the record count is the row count; active districts <= districts <= rows and states <= rows; without a minimum every district is active |
| BackendHandlers.DateRange | backend/main.py:116-119 | the date range is the earliest and the latest date of the whole table, each the date of some row; an empty table, whose `strftime` on NaT raises, has none |
| BackendHandlers.FilteredSummaryOf | backend/main.py:123-163 | /api/filtered_summary counts exactly the rows filter_df keeps, with active districts <= districts <= filtered rows and states <= filtered rows |
| BackendHandlers.KeyTotalsFacts | backend/main.py:195-196 | the grouped totals hold one bucket per key present among the rows, each with that key's sum, largest first |
| BackendHandlers.TruncatedRanking | backend/main.py:196-200 | truncating the sums of a ranking keeps each key once and keeps the descending order |
| BackendHandlers.StateTotalsFacts | backend/main.py:166-207 | /api/state_totals: nothing and 0 for no rows; otherwise each state of the rows once, with the truncated sum of its selected ages, in descending order, and the national total the truncated sum of the state sums |
| BackendHandlers.DistrictTotalsFacts | backend/main.py:210-261 | /api/district_totals: each (state, district) pair once, so one name under two states stays two entries, with its truncated sum, in descending order; the national total as for states |
| BackendRecommendations.Daily | backend/main.py:318 | some row gives some (state, day) total |
| BackendRecommendations.MaxDay | backend/main.py:319 | the latest day is at least every day of the daily totals and is one of them |
| BackendRecommendations.WindowSplit | backend/main.py:320-322 | the previous and recent windows are adjacent: together they cover the last 60 days |
| BackendRecommendations.RecentAndPrevious | backend/main.py:340-341 | a state's previous and recent sums add up to its sum over the last 60 days |
| BackendRecommendations.GrowthPct | backend/main.py:345-348 | a growth is defined exactly when the previous window is positive, and is then (recent - previous) / previous * 100 |
| BackendRecommendations.FillGrowth | backend/main.py:343-348 | the loop fills growth_pct with exactly the specified growths |
| BackendRecommendations.GrowthKeys | backend/main.py:343-348 | a state has a growth exactly when it is ranked and its previous window is positive, each state once |
| BackendRecommendations.Variance | backend/main.py:368 | std(ddof=0) squared is never negative |
| BackendRecommendations.MaxSqDev | backend/main.py:371 | the largest squared deviation is at least every day's and is some day's |
| BackendRecommendations.FlaggedMeans | backend/main.py:365-372 | the anomaly test holds exactly when there are ten days or more, a positive spread, and some day at least two standard deviations from the mean |
| BackendRecommendations.HighStates | backend/main.py:327-336 | HIGH: one item for each of the min(5, states) states with the lowest totals, each a state of the rows with its truncated total |
| BackendRecommendations.HighLowest | backend/main.py:327 | HIGH: a state left out has a total no lower than any state listed |
| BackendRecommendations.HighItemsRule | backend/main.py:328-336 | the HIGH items are exactly those made from the bottom five |
| BackendRecommendations.MediumStates | backend/main.py:350-360 | MEDIUM: at most five items, each for a state of the rows whose growth is -10% or lower, carrying that growth |
| BackendRecommendations.MediumLeftOut | backend/main.py:350-352 | MEDIUM: a declining state is left out only when five states with a growth no higher are listed |
| BackendRecommendations.MediumItemsRule | backend/main.py:352-360 | the MEDIUM items are exactly those made from the declining states kept |
| BackendRecommendations.ReviewStates | backend/main.py:363 | REVIEW: the reviewed states are min(25, states) states of the rows |
| BackendRecommendations.ReviewLargest | backend/main.py:363 | REVIEW: a state left out of the 25 has a total no higher than any reviewed state |
| BackendRecommendations.ReviewItemsRule | backend/main.py:363-380 | REVIEW: an item exactly for each reviewed state whose daily totals pass the z-score test, carrying the test's figures |
| BackendRecommendations.Dedup | backend/main.py:383-390 | de-duplication never lengthens the list |
| BackendRecommendations.DedupFacts | backend/main.py:383-390 | the kept items are items of the list, no (state, issue) twice, and every item's key is kept |
| BackendRecommendations.Dedupe | backend/main.py:383-390 | the loop with the seen set computes exactly the specified de-duplication |
| BackendRecommendations.DedupOfDistinct | backend/main.py:383-390 | a list without repeated keys comes through unchanged |
| BackendRecommendations.PriorityKeysDistinct | backend/main.py:324-390 | the collected items never repeat a (state, issue), so the seen set never drops one |
| BackendRecommendations.CollectItems | backend/main.py:327-380 | the three loops append exactly the HIGH, then MEDIUM, then REVIEW items |
| BackendRecommendations.SortItems | backend/main.py:392-393 | the sort is a permutation ordered by priority, then by state |
| BackendRecommendations.CapFacts | backend/main.py:420 | the first ten sorted items are ordered, drawn from the items, never repeat a key, and are all of them when there are at most ten |
| BackendRecommendations.PriorityItemsFacts | backend/main.py:382-420 | the priority items are the first ten of the sorted items: ordered, and no (state, issue) twice |
| BackendRecommendations.BestPractices | backend/main.py:396-417 | the two loops build exactly the specified best practices |
| BackendRecommendations.AddGrowthFacts | backend/main.py:407-417 | the growth loop keeps the listed states first, adds at most the growth entries, and never lists a state twice |
| BackendRecommendations.BestPracticesFacts | backend/main.py:396-417 | the min(5, states) largest states come first with their truncated totals, then growing states not already listed; never a state twice |
| BackendRecommendations.GetActionRecommendations | backend/main.py:291-423 | the age groups are the selected ones; at most ten priority items, sorted, no key twice; at most eight best practices; nothing for no rows |
| BackendRecommendations.Recommend | backend/main.py:312-423 | the imperative handler computes exactly the specified recommendations |
| DashboardFilters.SelectedKeys | uidai-dashboard/src/pages/Dashboard.jsx:234-236 | the age keys summed are never empty: the selection when one is made, else all three |
| DashboardFilters.AllKeysTotal | uidai-dashboard/src/pages/Dashboard.jsx:234-243 | with all three keys the selected total of a row is the sum of its three age counts |
| DashboardFilters.Passing | uidai-dashboard/src/pages/Dashboard.jsx:216-231 | a row is kept exactly when it meets the date, state, district and search conditions; no row is invented |
| DashboardFilters.WithTotals | uidai-dashboard/src/pages/Dashboard.jsx:238-248 | each output row is the input row at the same position with `total_enrolments` replaced by the reduce over the selected keys, and nothing else changed |
| DashboardFilters.SelectedTotalChosen | uidai-dashboard/src/pages/Dashboard.jsx:239-242 | with no key selected twice, the reduce adds each selected age exactly once and counts any other key as 0 |
| DashboardFilters.WithTotalsBounded | uidai-dashboard/src/pages/Dashboard.jsx:238-248 | with distinct keys and non-negative ages every recomputed total lies between 0 and the sum of the three ages, and equals that sum when all three keys are selected |
| DashboardFilters.ApplyFilters | uidai-dashboard/src/pages/Dashboard.jsx:213-214 | there is a result exactly when there is data; with no data the filtered rows are left as they were |
| DashboardFilters.ApplyFiltersRows | uidai-dashboard/src/pages/Dashboard.jsx:213-251 | the filtered rows are the passing rows, no more of them, each unchanged but for its total, which becomes its selected-age total |
| DashboardFilters.EmptySelectionExcludesAll | uidai-dashboard/src/pages/Dashboard.jsx:220-224 | with "view all" off for states (or districts) and nothing selected, no row survives |
| DashboardFilters.OneSidedRangeIgnored | uidai-dashboard/src/pages/Dashboard.jsx:217-218 | a date range with only one end set filters nothing: the result equals that with no range |
| DashboardFilters.ApplyFiltersIdempotent | uidai-dashboard/src/pages/Dashboard.jsx:213-251 | filtering the filtered rows again with the same filters gives the same rows |
| DashboardFilters.PassingAll | uidai-dashboard/src/pages/Dashboard.jsx:216 | when every row passes, the rows come through unchanged and in order |
| DashboardFilters.WithTotalsTwice | uidai-dashboard/src/pages/Dashboard.jsx:238-248 | recomputing the selected totals a second time changes nothing |
| DashboardFilters.FrontendSearchStricter | uidai-dashboard/src/pages/Dashboard.jsx:72-83 | a row the page's search keeps (every term a whole word of the state, or every term one of the district) has each term in the state or the district, which is the backend's test (backend/cleaning.py:431-442) |
| DashboardFilters.SearchSemanticsDiffer | uidai-dashboard/src/pages/Dashboard.jsx:226-229 | the converse fails: for state "Goa", district "Panaji" and query "goa panaji" each term is a whole word of one field, yet the page drops the row |
| DashboardFilters.ValuesOf | uidai-dashboard/src/pages/Dashboard.jsx:579-601 | reading a name back yields no more values than parameters |
| DashboardFilters.AppendDates | uidai-dashboard/src/pages/Dashboard.jsx:581-582 | appends the start and end days, each only when set |
| DashboardFilters.AppendLists | uidai-dashboard/src/pages/Dashboard.jsx:584-590 | appends every selected state (and district) in order, only when its "view all" is off and the list is non-empty |
| DashboardFilters.AppendSearch | uidai-dashboard/src/pages/Dashboard.jsx:592-593 | appends the trimmed search only when it is not blank |
| DashboardFilters.AppendAll | uidai-dashboard/src/pages/Dashboard.jsx:584-599 | appends one (name, value) pair per value, in order |
| DashboardFilters.BuildFilterParams | uidai-dashboard/src/pages/Dashboard.jsx:579-601 | the parameters built step by step are exactly the specified query string |
| DashboardFilters.FilterParamsRead | uidai-dashboard/src/pages/Dashboard.jsx:579-601 | reading any name back from the query string gives exactly the filter values sent under it; there is always at least one age group |
| DashboardForecast.SortDays | uidai-dashboard/src/pages/Dashboard.jsx:265-267 | the days come out as a permutation of the input in strictly increasing order |
| DashboardForecast.History | uidai-dashboard/src/pages/Dashboard.jsx:256-267 | the daily history is in strictly increasing day order |
| DashboardForecast.HistoryTotals | uidai-dashboard/src/pages/Dashboard.jsx:256-263 | the history has one entry for each day on which a dated row falls, holding the sum of those rows' totals; undated rows are skipped |
| DashboardForecast.DailyTotals | uidai-dashboard/src/pages/Dashboard.jsx:257-263 | the accumulation loop over the rows builds exactly the per-day sums in first-seen order |
| DashboardForecast.RegressionSums | uidai-dashboard/src/pages/Dashboard.jsx:282-296 | the loop's four accumulators are the sums of x, y, x*x and x*y over the window |
| DashboardForecast.ProjectPoints | uidai-dashboard/src/pages/Dashboard.jsx:302-312 | the loop pushes exactly the specified 30 points, and its running total is their sum |
| DashboardForecast.ComputeForecast | uidai-dashboard/src/pages/Dashboard.jsx:253-320 | the imperative memo computes exactly the specified forecast |
| DashboardForecast.ForecastOf | uidai-dashboard/src/pages/Dashboard.jsx:253-254 | the forecast is null exactly when there are no rows |
| DashboardForecast.FewDays | uidai-dashboard/src/pages/Dashboard.jsx:269-276 | with fewer than two days: no projection, slope 0, projected total 0, and the day (if any) as history |
| DashboardForecast.ManyDaysHistory | uidai-dashboard/src/pages/Dashboard.jsx:278-316 | with two days or more the history is the latest min(180, days) days, oldest first, each with its rounded total |
| DashboardForecast.ManyDaysProjection | uidai-dashboard/src/pages/Dashboard.jsx:298-312 | with two days or more: 30 points on the 30 days after the last, each the fitted line at x = n-1+i rounded and clamped at 0; the slope is the fitted one and the projected total is the never-negative sum of the points |
| DashboardForecast.DenominatorPositive | uidai-dashboard/src/pages/Dashboard.jsx:298-299 | the regression denominator is n^2(n^2-1)/12, positive for the two or more points the memo fits, so the zero guard never fires |
| DashboardForecast.FitRecoversLine | uidai-dashboard/src/pages/Dashboard.jsx:298-300 | on points lying on a line the least-squares fit returns that line's slope and intercept |
| DashboardForecast.SumXClosed | uidai-dashboard/src/pages/Dashboard.jsx:287-291 | twice the sum of 0..n-1 is n(n-1) |
| DashboardForecast.SumXXClosed | uidai-dashboard/src/pages/Dashboard.jsx:287-293 | six times the sum of squares of 0..n-1 is n(n-1)(2n-1) |
| DashboardWhatIf.Trimmed | uidai-dashboard/src/pages/Dashboard.jsx:326-330 | one entry per payload state, its name trimmed and its total kept |
| DashboardWhatIf.CleanedMembers | uidai-dashboard/src/pages/Dashboard.jsx:326-331 | an entry is considered exactly when it is a payload entry, name trimmed, with a non-blank name and a positive total |
| DashboardWhatIf.ClampPct | uidai-dashboard/src/pages/Dashboard.jsx:336 | the improvement percentage lies in [0, 100]: unchanged inside, 0 below, 100 above |
| DashboardWhatIf.Ceil | uidai-dashboard/src/pages/Dashboard.jsx:356 | the ceiling is the least integer not below its argument |
| DashboardWhatIf.BottomStates | uidai-dashboard/src/pages/Dashboard.jsx:333-334 | the bottom list holds min(5, considered) considered entries in ascending order of total, and no entry left out has a smaller total than one kept |
| DashboardWhatIf.BoostScenario | uidai-dashboard/src/pages/Dashboard.jsx:337-357 | the boost is a non-negative whole number added to the bottom total, is 0 at 0%, has no impact without a positive national total, is covered by the operators at 100 each, and costs 50 per added enrollment |
| DashboardWhatIf.BenchItems | uidai-dashboard/src/pages/Dashboard.jsx:344-345 | the benchmark entries are the considered entries whose state is selected; none when none is selected |
| DashboardWhatIf.BenchmarkScenario | uidai-dashboard/src/pages/Dashboard.jsx:346-352 | the gap per state is never negative, and is 0 when no benchmark is selected or the benchmark average does not exceed the bottom average |
| DashboardWhatIf.WhatIfOf | uidai-dashboard/src/pages/Dashboard.jsx:322-380 | there is data exactly when some entry is considered, and the percentage used lies in [0, 100] |
| DashboardWhatIf.NoData | uidai-dashboard/src/pages/Dashboard.jsx:358-379 | with no entry considered the bottom list is empty and both scenarios are zero |
| DashboardWhatIf.DefaultBenchmark | uidai-dashboard/src/pages/Dashboard.jsx:205-211 | a selection already made stays; otherwise the non-blank names among the payload's first two states |
| DashboardKpis.AllAgesAreTotals | uidai-dashboard/src/pages/Dashboard.jsx:425-432 | when every total is the sum of its ages (as the filter leaves it with all groups selected), the all-ages figure equals the sum of the totals |
| DashboardKpis.AllAgeGroupsMeans | uidai-dashboard/src/pages/Dashboard.jsx:448-453 | a selection counts as all age groups exactly when its set of keys is the three age keys |
| DashboardKpis.TotalEnrollments | uidai-dashboard/src/pages/Dashboard.jsx:455-458 | the server's figure is shown exactly when the summary exists, nothing narrows the view and the figure is non-zero; otherwise (no summary, a narrowed view, or a zero or non-numeric figure) the local all-ages sum is shown |
| DashboardKpis.CountedNames | uidai-dashboard/src/pages/Dashboard.jsx:463-472 | the counted names are exactly the distinct trimmed names that are non-blank and not "unknown" in any case |
| DashboardKpis.LocalStatesCount | uidai-dashboard/src/pages/Dashboard.jsx:463-467 | the local state count never exceeds the number of rows |
| DashboardKpis.LocalDistrictsCount | uidai-dashboard/src/pages/Dashboard.jsx:468-472 | the local district count never exceeds the number of rows |
| DashboardKpis.StatesCount | uidai-dashboard/src/pages/Dashboard.jsx:474-476 | the server's state count when finite, else the local count |
| DashboardKpis.DistrictsCount | uidai-dashboard/src/pages/Dashboard.jsx:478-482 | the server's active districts, else its district count, else the local count |
| DashboardKpis.AvgDaily | uidai-dashboard/src/pages/Dashboard.jsx:483-485 | 0 without rows, and never negative for a non-negative total |
| DashboardKpis.HalvesPartition | uidai-dashboard/src/pages/Dashboard.jsx:487-498 | with a defined midpoint the two halves split the dated rows' totals exactly; with an invalid one both are empty |
| DashboardKpis.GrowthRate | uidai-dashboard/src/pages/Dashboard.jsx:500-502 | 0 when the first half is not positive; otherwise the percent change rounded to one decimal as `toFixed(1)` does: a multiple of 0.1 within 0.05 of the change, a tie going away from zero; non-negative when the second half is at least the first, positive only if it is larger |
| DashboardKpis.Percent | uidai-dashboard/src/pages/Dashboard.jsx:501 | the percent change is non-negative exactly when the second half is at least the first, and positive exactly when it is larger |
| DashboardKpis.GrowthRateTie | uidai-dashboard/src/pages/Dashboard.jsx:500-502 | a fall from 16 to 15, exactly -6.25%, is shown as -6.3 |
| DashboardKpis.GrowthRateMirror | uidai-dashboard/src/pages/Dashboard.jsx:500-502 | a fall gives exactly the negation of the rise of the same size, ties included |
| FiltersPanel.Options | uidai-dashboard/src/components/Filters.jsx:26-28 | the options are exactly the usable names (named, not all digits) offered, in strictly ascending order, so without repeats |
| FiltersPanel.SortedOptions | uidai-dashboard/src/components/Filters.jsx:28 | sorting a list without repeats keeps its names and makes it strictly ascending |
| FiltersPanel.StateNames | uidai-dashboard/src/components/Filters.jsx:23-24 | the candidate state names are exactly the rows' trimmed states |
| FiltersPanel.DistrictNames | uidai-dashboard/src/components/Filters.jsx:30-32 | the candidate district names are exactly the trimmed districts of the rows whose state is in view |
| FiltersPanel.StateOptionsSpec | uidai-dashboard/src/components/Filters.jsx:23-28 | the state options are strictly ascending and are exactly the trimmed row states that are non-blank, not "unknown" in any case and not all digits |
| FiltersPanel.DistrictOptionsSpec | uidai-dashboard/src/components/Filters.jsx:30-36 | the district options are strictly ascending and are exactly the usable trimmed districts of the rows of a state in view |
| FiltersPanel.NoStatesNoDistricts | uidai-dashboard/src/components/Filters.jsx:31 | with "view all states" off and no state selected, no district is offered |
| FiltersPanel.CountLabel | uidai-dashboard/src/components/Filters.jsx:38-43 | the count beside "View All" is the given count when it is a finite number, else the number of options |
| FiltersPanel.StateCountLabelDefault | uidai-dashboard/src/components/Filters.jsx:38-40 | without a given count the state label is the number of distinct usable states, at most the number of rows |
| FiltersPanel.SearchRestricted | uidai-dashboard/src/components/Filters.jsx:45-49 | a blank search leaves the options as they are; otherwise the kept options are exactly those matching every term as a whole word, still strictly ascending |
| FiltersPanel.Matching | uidai-dashboard/src/components/Filters.jsx:57-58 | the matching options are exactly those matching the query word for word, in their order |
| FiltersPanel.ToggleAgeChecked | uidai-dashboard/src/components/Filters.jsx:152-163 | checking a box selects its key, keeps every earlier key, adds nothing else and leaves no repeats |
| FiltersPanel.ToggleAgeUnchecked | uidai-dashboard/src/components/Filters.jsx:152-163 | unchecking drops the key and keeps the rest in order, unless nothing else was selected, in which case the selection stays |
| FiltersPanel.ToggleAgeKeepsOne | uidai-dashboard/src/components/Filters.jsx:160-161 | a non-empty age selection stays non-empty through any toggle |
| FiltersPanel.SetViewAllStates | uidai-dashboard/src/components/Filters.jsx:184-188 | checking "View All States" sets the flag and clears the state list; unchecking keeps the list; nothing else changes |
| FiltersPanel.SetViewAllDistricts | uidai-dashboard/src/components/Filters.jsx:223-227 | the same for "View All Districts" and the district list |
| FiltersPanel.ViewAllStatesRoundTrip | uidai-dashboard/src/components/Filters.jsx:184-188 | checking and then unchecking "View All States" leaves an empty state list, so the page shows no rows until a state is picked |
| FiltersPanel.ViewAllDistrictsRoundTrip | uidai-dashboard/src/components/Filters.jsx:223-227 | the same for districts |
| AdvancedAnalytics.InitialPanel | uidai-dashboard/src/components/AdvancedAnalytics.jsx:9-28 | nothing is rendered exactly when there is no data; otherwise the first tab, age-breakdown mode and all three age groups |
| AdvancedAnalytics.InitialSelectionIsAllAges | uidai-dashboard/src/components/AdvancedAnalytics.jsx:24-28 | the initial sunburst selection equals the page's initial full age selection |
| AdvancedAnalytics.ToggleAppends | uidai-dashboard/src/components/AdvancedAnalytics.jsx:109-111 | toggling an unselected key appends it |
| AdvancedAnalytics.ToggleRemoves | uidai-dashboard/src/components/AdvancedAnalytics.jsx:109-112 | toggling a selected key drops every copy and keeps the rest in order, unless it was the only key, when nothing changes |
| AdvancedAnalytics.ToggleTwice | uidai-dashboard/src/components/AdvancedAnalytics.jsx:107-113 | toggling an unselected key into a non-empty selection and out again restores it |
| AdvancedAnalytics.ToggleKeepsOne | uidai-dashboard/src/components/AdvancedAnalytics.jsx:112 | a non-empty selection stays non-empty |
| SunburstTotals.Place | uidai-dashboard/src/components/charts/SunburstChart.jsx:25-26 | a place name is never empty: the trimmed name, or "Unknown" |
| SunburstTotals.Parts | uidai-dashboard/src/components/charts/SunburstChart.jsx:30-32 | the parts of a row are its positive selected age values, at most one per selected group |
| SunburstTotals.Contribution | uidai-dashboard/src/components/charts/SunburstChart.jsx:28-45 | a row never adds a negative amount; in age-breakdown mode it adds something exactly when one of its selected age values is positive |
| SunburstTotals.RowAges | uidai-dashboard/src/components/charts/SunburstChart.jsx:29-36 | the inner loop over the age groups leaves the row total as the sum of the positive parts and adds each part to its (state, district, age) entry |
| SunburstTotals.AddRow | uidai-dashboard/src/components/charts/SunburstChart.jsx:37-52 | one pass of the row loop updates the three maps and the grand total by exactly that row's entries, and only for a contributing row |
| SunburstTotals.Accumulate | uidai-dashboard/src/components/charts/SunburstChart.jsx:19-53 | the imperative loop over the rows leaves exactly the specified totals |
| SunburstTotals.GrandPositive | uidai-dashboard/src/components/charts/SunburstChart.jsx:55 | the grand total is never negative, is positive when some row contributes and 0 when none does |
| SunburstTotals.GrandIsSumOfStates | uidai-dashboard/src/components/charts/SunburstChart.jsx:39-48 | the grand total is the sum of the state totals |
| SunburstTotals.TotalsPositive | uidai-dashboard/src/components/charts/SunburstChart.jsx:32-45 | every state, district and age entry in the maps holds a positive total |
| SunburstTotals.TotalModeHasNoAges | uidai-dashboard/src/components/charts/SunburstChart.jsx:43-52 | in total mode no age entry is recorded |
| SunburstTotals.DistrictsOf | uidai-dashboard/src/components/charts/SunburstChart.jsx:80-84 | a state's districts are drawn from the district map, no more of them |
| SunburstTotals.StateIsSumOfDistricts | uidai-dashboard/src/components/charts/SunburstChart.jsx:40-51 | a state's total is the sum of its districts' totals |
| SunburstTotals.DistrictIsSumOfAges | uidai-dashboard/src/components/charts/SunburstChart.jsx:30-42 | in age-breakdown mode with distinct groups, a district's total is the sum of its age totals |
| SunburstTree.AgeNode | uidai-dashboard/src/components/charts/SunburstChart.jsx:99-105 | an age sector hangs from its district and is emitted only for a positive total |
| SunburstTree.DistrictBlock | uidai-dashboard/src/components/charts/SunburstChart.jsx:90-107 | a top district's sector and its age sectors all sit under their state |
| SunburstTree.OtherBlock | uidai-dashboard/src/components/charts/SunburstChart.jsx:110-131 | the "Other" sector and its age sectors sit under their state |
| SunburstTree.CollectDistricts | uidai-dashboard/src/components/charts/SunburstChart.jsx:80-84 | the loop over the district map collects exactly the state's districts, in map order |
| SunburstTree.EmitDistrict | uidai-dashboard/src/components/charts/SunburstChart.jsx:90-107 | the imperative emission of one top district appends exactly its specified block |
| SunburstTree.EmitOther | uidai-dashboard/src/components/charts/SunburstChart.jsx:110-132 | the imperative emission of "Other" appends exactly its specified block |
| SunburstTree.EmitState | uidai-dashboard/src/components/charts/SunburstChart.jsx:72-133 | the imperative emission of one state appends exactly its specified block |
| SunburstTree.BuildSunburst | uidai-dashboard/src/components/charts/SunburstChart.jsx:16-136 | the whole imperative memo builds exactly the specified node list |
| SunburstTree.TopAndRest | uidai-dashboard/src/components/charts/SunburstChart.jsx:86-88 | at most maxDistrictsPerState districts are shown per state, by descending total; none folded into "Other" is larger than one shown; shown and folded are together exactly the state's districts; "Other" appears exactly when there are more than maxDistrictsPerState |
| SunburstTree.NothingToDraw | uidai-dashboard/src/components/charts/SunburstChart.jsx:17-55 | there is no chart exactly when no row contributes anything |
| SunburstTree.RootIsSumOfStates | uidai-dashboard/src/components/charts/SunburstChart.jsx:64-77 | the first node is the root "India" holding the grand total, and the state nodes hanging from it add up to it |
| SunburstTree.StateIsSumOfChildren | uidai-dashboard/src/components/charts/SunburstChart.jsx:72-133 | the children of each state node, its top districts and "Other", add up to the state's total; nothing hangs from a name that is not a state |
| SunburstTree.DistrictIsSumOfAgeNodes | uidai-dashboard/src/components/charts/SunburstChart.jsx:97-107 | in age-breakdown mode with distinct groups, a top district's age nodes add up to the district's value |
| SunburstTree.OtherIsSumOfAgeNodes | uidai-dashboard/src/components/charts/SunburstChart.jsx:110-131 | in age-breakdown mode with distinct groups, "Other" holds the folded districts' total and its age nodes add up to it |
| SunburstTree.SectorsPositive | uidai-dashboard/src/components/charts/SunburstChart.jsx:55-131 | every sector, root included, has a positive value |
| AnomalyDetection.Variance | uidai-dashboard/src/components/analytics/AnomalyDetection.jsx:47 | the population variance is never negative |
| AnomalyDetection.StdSquared | uidai-dashboard/src/components/analytics/AnomalyDetection.jsx:48 | the standard deviation used is never 0: the variance's, or 1 for a zero variance |
| AnomalyDetection.Detect | uidai-dashboard/src/components/analytics/AnomalyDetection.jsx:26-58 | the imperative memo (daily map, sort, scoring) computes exactly the specified detection |
| AnomalyDetection.DaysAscending | uidai-dashboard/src/components/analytics/AnomalyDetection.jsx:29-39 | the days come out distinct and in ascending order |
| AnomalyDetection.FewPoints | uidai-dashboard/src/components/analytics/AnomalyDetection.jsx:41-43 | with fewer than ten days the days come back unscored, with no anomaly, mean 0 and std 0 |
| AnomalyDetection.Scoring | uidai-dashboard/src/components/analytics/AnomalyDetection.jsx:45-57 | with ten days or more each day is scored against the mean, the squared std is the variance (1 for a zero variance), and the anomalies are exactly the scored days whose squared deviation reaches k^2 std^2, in day order |
| AnomalyDetection.AnomalousIsZScore | uidai-dashboard/src/components/analytics/AnomalyDetection.jsx:52-55 | comparing squares is the source's test: for a positive std, dev^2 >= k^2 std^2 exactly when abs(dev / std) >= k |
| AnomalyDetection.DeviationsCancel | uidai-dashboard/src/components/analytics/AnomalyDetection.jsx:46-53 | the deviations from the mean sum to 0 |
| AnomalyDetection.ZeroVariance | uidai-dashboard/src/components/analytics/AnomalyDetection.jsx:47 | the variance is 0 exactly when every day has the mean total |
| AnomalyDetection.FlatSeries | uidai-dashboard/src/components/analytics/AnomalyDetection.jsx:48-55 | a flat series has no anomaly at a positive threshold |
| AnomalyDetection.LowThresholdFlags | uidai-dashboard/src/components/analytics/AnomalyDetection.jsx:45-55 | at a threshold of at most 1 a series of ten days or more that is not flat always has an anomaly |
| ComparisonGraphs.MonthKey | uidai-dashboard/src/components/analytics/ComparisonGraphs.jsx:15-20 | a row's own month label wins; a row with neither month nor valid date has the empty key |
| ComparisonGraphs.StateEntry | uidai-dashboard/src/components/analytics/ComparisonGraphs.jsx:42-46 | a row adds its total under its trimmed state name exactly when that name is neither blank nor "unknown" in any case |
| ComparisonGraphs.TopStatesRanked | uidai-dashboard/src/components/analytics/ComparisonGraphs.jsx:48-51 | at most topStates states, each once, in descending order of total, and no counted state left out has a larger total than one shown |
| ComparisonGraphs.TopStatesNamed | uidai-dashboard/src/components/analytics/ComparisonGraphs.jsx:43-44 | every top state is a trimmed name, neither blank nor "unknown" |
| ComparisonGraphs.StateSeries | uidai-dashboard/src/components/analytics/ComparisonGraphs.jsx:56-66 | the loop over the top states inserts exactly their series' months into monthSet (each once, first-seen order) and fills byMonthAll with each state's monthly sums |
| ComparisonGraphs.AddSeries | uidai-dashboard/src/components/analytics/ComparisonGraphs.jsx:61-65 | the inner loop over one state's series adds its months and its values under (month, state) |
| ComparisonGraphs.AddCell | uidai-dashboard/src/components/analytics/ComparisonGraphs.jsx:62-64 | one cell: the month joins monthSet and the value goes under (month, state) |
| ComparisonGraphs.AgeSeries | uidai-dashboard/src/components/analytics/ComparisonGraphs.jsx:68-80 | the age loop adds each keyed row's month to monthSet and its age counts to that month's bucket, which starts from zeros |
| ComparisonGraphs.AddAges | uidai-dashboard/src/components/analytics/ComparisonGraphs.jsx:70-79 | one pass of the age loop: a row with a month key adds it and its three age counts; a row without one changes nothing |
| ComparisonGraphs.Charts | uidai-dashboard/src/components/analytics/ComparisonGraphs.jsx:84-85 | one chart row per month: the top states' values spread into it, and the month's age bucket or zeros |
| ComparisonGraphs.Model | uidai-dashboard/src/components/analytics/ComparisonGraphs.jsx:38-88 | the imperative memo computes exactly the specified comparison |
| ComparisonGraphs.SeriesMonths | uidai-dashboard/src/components/analytics/ComparisonGraphs.jsx:57-60 | a month is in a state's series exactly when some row with exactly that state has that month key |
| ComparisonGraphs.SortedByTime | uidai-dashboard/src/components/analytics/ComparisonGraphs.jsx:82 | sorting the distinct month labels by time stamp keeps every label once and puts them in time order |
| ComparisonGraphs.MonthAxisFacts | uidai-dashboard/src/components/analytics/ComparisonGraphs.jsx:53-82 | the month axis holds every month once, in time order, and is exactly the months some row has; the top states' series add none of their own |
| ComparisonGraphs.StateCells | uidai-dashboard/src/components/analytics/ComparisonGraphs.jsx:56-66 | each state-chart row holds exactly the top states with a row of that month whose state is the exact name, each with the sum of those rows' totals; a state matching only after trimming is counted in the ranking but not in the series |
| ComparisonGraphs.AgeCells | uidai-dashboard/src/components/analytics/ComparisonGraphs.jsx:68-85 | the age chart has a row for each month of the state chart, holding the three age sums over every row of that month; the zeros fallback is never taken |
| ExecutiveSummary.DaysBetween | uidai-dashboard/src/components/reports/ExecutiveSummaryReport.jsx:10-15 | 0 without both ends or for a reversed period; otherwise r whole days with (r-1) days <= end - start < r days |
| ExecutiveSummary.DaysBetweenDates | uidai-dashboard/src/components/reports/ExecutiveSummaryReport.jsx:10-15 | for two midnights the period counts the calendar days from first to last, both included |
| ExecutiveSummary.DominantAgeRule | uidai-dashboard/src/components/reports/ExecutiveSummaryReport.jsx:70-77 | the dominant group has the largest sum, a tie going to the younger group; "N/A" never comes out |
| ExecutiveSummary.AddRow | uidai-dashboard/src/components/reports/ExecutiveSummaryReport.jsx:35-46 | one pass of the row loop adds a counted row's total to the total and its state, and its ages to the age sums; an uncounted row changes nothing |
| ExecutiveSummary.ComputeMetrics | uidai-dashboard/src/components/reports/ExecutiveSummaryReport.jsx:23-91 | the imperative memo computes exactly the specified metrics |
| ExecutiveSummary.TotalIsSumOfStates | uidai-dashboard/src/components/reports/ExecutiveSummaryReport.jsx:39-41 | the counted total is the sum of the state totals |
| ExecutiveSummary.UncountedRowIgnored | uidai-dashboard/src/components/reports/ExecutiveSummaryReport.jsx:36-37 | a row whose trimmed state is blank or "unknown" changes no state-pass figure (total, rankings, states covered, dominant age), while its named district still counts as covered |
| ExecutiveSummary.DistrictsCovered | uidai-dashboard/src/components/reports/ExecutiveSummaryReport.jsx:49-53 | the districts covered are the distinct named districts of every row, counted state or not |
| ExecutiveSummary.StatesCovered | uidai-dashboard/src/components/reports/ExecutiveSummaryReport.jsx:48 | the states covered are the counted states, each once |
| ExecutiveSummary.TopStatesRanked | uidai-dashboard/src/components/reports/ExecutiveSummaryReport.jsx:55-58 | at most three counted states with their totals, ranked 1, 2, 3 from the largest down, the first three of performanceTop10 |
| ExecutiveSummary.PerformanceTop10Ranked | uidai-dashboard/src/components/reports/ExecutiveSummaryReport.jsx:60-63 | at most ten counted states with their totals, largest first |
| ExecutiveSummary.AttentionRanked | uidai-dashboard/src/components/reports/ExecutiveSummaryReport.jsx:65-68 | at most two counted states with their totals, smallest first, and no counted state left out has a smaller total |
| ExecutiveSummary.DominantAgeOfRows | uidai-dashboard/src/components/reports/ExecutiveSummaryReport.jsx:43-45 | the report's dominant age group is the one with the largest sum over the counted rows, ties going to the younger group |
| ExecutiveSummary.FiniteOrNull | uidai-dashboard/src/components/reports/ExecutiveSummaryReport.jsx:94-100 | a finite number is kept, null reads as 0, anything else is null |
| ExecutiveSummary.RecordsOf | uidai-dashboard/src/components/reports/ExecutiveSummaryReport.jsx:93-103 | total and sampled rows are their finite values or null; filtered rows fall back to the number of data rows, and to null without data |
| CalendarWeeks.MondayOf | uidai-dashboard/src/components/charts/CalendarHeatmap.jsx:15-18 | the Monday starting a day's week is on or before it and less than seven days earlier |
| CalendarWeeks.ThursdayOf | uidai-dashboard/src/components/charts/CalendarHeatmap.jsx:17-18 | the date moved to the Thursday of its week is its Monday plus three days |
| CalendarWeeks.WeekYear | uidai-dashboard/src/components/charts/CalendarHeatmap.jsx:19 | the year a week belongs to holds its Thursday, and is the date's year or one either side |
| CalendarWeeks.GetIsoWeek | uidai-dashboard/src/components/charts/CalendarHeatmap.jsx:15-21 | the step-by-step computation gives the ISO 8601 week number, between 1 and 53 |
| CalendarWeeks.SundayIsSeven | uidai-dashboard/src/components/charts/CalendarHeatmap.jsx:17 | getUTCDay(), or 7 when that is 0, is the ISO weekday (Sunday is 7) |
| CalendarWeeks.CountFromThursday | uidai-dashboard/src/components/charts/CalendarHeatmap.jsx:19-20 | counting from 1 January by the Thursday equals counting whole weeks from the Monday of week 1, and stays at most 53 |
| CalendarWeeks.IsoWeekRange | uidai-dashboard/src/components/charts/CalendarHeatmap.jsx:15-21 | every valid date gets a week between 1 and 53, the source's formula giving the ISO week |
| CalendarWeeks.SameMondaySameWeek | uidai-dashboard/src/components/charts/CalendarHeatmap.jsx:15-21 | days of the same Monday-to-Sunday week get the same week number, across a year boundary too |
| CalendarWeeks.FourthOfJanuaryInWeekOne | uidai-dashboard/src/components/charts/CalendarHeatmap.jsx:15-21 | 4 January is always in week 1 of its own year |
| CalendarWeeks.FirstThursdayInWeekOne | uidai-dashboard/src/components/charts/CalendarHeatmap.jsx:15-21 | the first Thursday of a year is in week 1 of that year |
| CalendarHeatmap.SlotOf | uidai-dashboard/src/components/charts/CalendarHeatmap.jsx:54-55 | a dated row's slot has a week in 1..53 and a weekday index in 0..6 |
| CalendarHeatmap.InOrder | uidai-dashboard/src/components/charts/CalendarHeatmap.jsx:63 | sorting the week set gives exactly its weeks, strictly ascending |
| CalendarHeatmap.AddRow | uidai-dashboard/src/components/charts/CalendarHeatmap.jsx:50-61 | one pass of the row loop adds a dated row's week to the set and its value to its (week, weekday) slot; an undated row changes nothing |
| CalendarHeatmap.WeekDayBuckets | uidai-dashboard/src/components/charts/CalendarHeatmap.jsx:46-63 | the imperative loop leaves exactly the sorted weeks of the dated rows and the slot sums |
| CalendarHeatmap.CalendarOf | uidai-dashboard/src/components/charts/CalendarHeatmap.jsx:63-70 | "no data" is shown exactly when no row has a valid date |
| CalendarHeatmap.CalendarData | uidai-dashboard/src/components/charts/CalendarHeatmap.jsx:46-73 | the component body computes exactly the specified weeks and grid |
| CalendarHeatmap.WeeksAscending | uidai-dashboard/src/components/charts/CalendarHeatmap.jsx:58-63 | the weeks are distinct, ascending, in 1..53, at most 53 of them, and exactly the weeks of the dated rows |
| CalendarHeatmap.Grid | uidai-dashboard/src/components/charts/CalendarHeatmap.jsx:73 | the grid has seven rows, Monday first, each one cell per week |
| CalendarHeatmap.GridHoldsSlotTotals | uidai-dashboard/src/components/charts/CalendarHeatmap.jsx:73 | each cell holds the sum of the values of the dated rows of its week and weekday, over every year; an empty slot holds 0 |
| CalendarHeatmap.GridMax | uidai-dashboard/src/components/charts/CalendarHeatmap.jsx:74 | the maximum is at least every cell and 0, and is 0 or some cell |
| CalendarHeatmap.Scale | uidai-dashboard/src/components/charts/CalendarHeatmap.jsx:139 | the colour and ridge scale is positive and at least every cell |
| CalendarHeatmap.RidgesStayInBand | uidai-dashboard/src/components/charts/CalendarHeatmap.jsx:139-149 | with values between 0 and the scale, each weekday's ridge stays in [offset, offset + 1], below the next weekday's offset, so ridges never overlap |
| CalendarHeatmap.Dtick | uidai-dashboard/src/components/charts/CalendarHeatmap.jsx:75 | the week axis ticks every 1, 2 or 4 weeks, so at most 24 ticks for 53 weeks |
| CalendarLabels.FormatShort | uidai-dashboard/src/components/charts/CalendarHeatmap.jsx:5-13 | the label is empty exactly for 0 |
| CalendarLabels.FormatShortReadsBack | uidai-dashboard/src/components/charts/CalendarHeatmap.jsx:5-13 | reading a label back gives the number rounded to the label's precision (tenths of millions, thousands, or units) |
| CalendarLabels.ShownIsClose | uidai-dashboard/src/components/charts/CalendarHeatmap.jsx:5-13 | a label is off by at most half its unit: 50000 for millions, 500 for thousands, 0.5 below |
| CalendarLabels.DayColor | uidai-dashboard/src/components/charts/CalendarHeatmap.jsx:23-27 | each weekday index gets a palette colour |
| CalendarLabels.DayColorsDistinct | uidai-dashboard/src/components/charts/CalendarHeatmap.jsx:23-27 | the seven weekdays get seven different colours |
| CalendarLabels.ShortHexIsByte | uidai-dashboard/src/components/charts/CalendarHeatmap.jsx:31-33 | parseInt of at most two characters in base 16 lies between -255 and 255 |
| CalendarLabels.ChannelsOfWellFormed | uidai-dashboard/src/components/charts/CalendarHeatmap.jsx:29-35 | a well-formed "#rrggbb" colour gives each channel as the value of its two digits, in 0..255 |
| CalendarLabels.DayColorChannels | uidai-dashboard/src/components/charts/CalendarHeatmap.jsx:23-35 | every weekday colour is well formed, so every ridge gets three defined channels |
| StateDistrictHeatmap.Totals | uidai-dashboard/src/components/charts/StateDistrictHeatmap.jsx:21-27 | the loop leaves exactly the per-state and per-district sums, the district keyed by name alone |
| StateDistrictHeatmap.TopNames | uidai-dashboard/src/components/charts/StateDistrictHeatmap.jsx:29-37 | the top list has min(k, names) names |
| StateDistrictHeatmap.TopStatesChosen | uidai-dashboard/src/components/charts/StateDistrictHeatmap.jsx:29-32 | at most topStates states, each once, in descending order of their sums, and no state left out has a larger sum than one shown |
| StateDistrictHeatmap.TopDistrictsChosen | uidai-dashboard/src/components/charts/StateDistrictHeatmap.jsx:34-37 | the same for topDistricts district names |
| StateDistrictHeatmap.Find | uidai-dashboard/src/components/charts/StateDistrictHeatmap.jsx:41-47 | the index of a name in the list, or -1 exactly when it is missing |
| StateDistrictHeatmap.Fill | uidai-dashboard/src/components/charts/StateDistrictHeatmap.jsx:39-49 | each cell of the new matrix holds the sum over the rows of exactly that district name and state |
| StateDistrictHeatmap.Heatmap | uidai-dashboard/src/components/charts/StateDistrictHeatmap.jsx:19-49 | the component body computes the top states, the top districts and the matrix of cell sums |
| StateDistrictHeatmap.CellWithinTotals | uidai-dashboard/src/components/charts/StateDistrictHeatmap.jsx:44-49 | with non-negative values a cell never exceeds its state's sum or its district name's sum |
| StateDistrictHeatmap.MaxCell | uidai-dashboard/src/components/charts/StateDistrictHeatmap.jsx:51 | the maximum is at least 0 and every cell, and is 0 or some cell |
| StateDistrictHeatmap.LabelOf | uidai-dashboard/src/components/charts/StateDistrictHeatmap.jsx:52 | a cell gets no label exactly when it is 0; otherwise its compact form |
| StateDistrictHeatmap.TextColorOf | uidai-dashboard/src/components/charts/StateDistrictHeatmap.jsx:53-59 | transparent exactly for an empty cell; white exactly for a non-empty cell of at least 55% of the largest |
| StateDistrictHeatmap.LargestCellIsWhite | uidai-dashboard/src/components/charts/StateDistrictHeatmap.jsx:53-59 | the largest non-empty cell is written in white, and a non-empty cell below 55% of it in dark |
| GeographicMap.GeoKey | uidai-dashboard/src/components/charts/GeographicMap.jsx:44-47 | the lookup key of a named state is non-empty, trimmed, single-spaced, lower case and free of '&' |
| GeographicMap.NormalizeWith | uidai-dashboard/src/components/charts/GeographicMap.jsx:42-43 | a missing or blank state gives "" |
| GeographicMap.NormalizeWithNamed | uidai-dashboard/src/components/charts/GeographicMap.jsx:61-65 | a named state is its alias when its key has one, else its key title-cased word by word with "and" and "of" left lower case |
| GeographicMap.JammuNeverPlotted | uidai-dashboard/src/components/charts/GeographicMap.jsx:45-65 | no spelling normalises to the centroid name "Jammu And Kashmir": the "jammu & kashmir" alias can never match a key, and title casing keeps "and" lower case |
| GeographicMap.JammuPlottedWhenFixed | uidai-dashboard/src/components/charts/GeographicMap.jsx:17 | under the corrected table "Jammu & Kashmir" and "Jammu and Kashmir" both normalise to "Jammu And Kashmir", which has a centroid |
| GeographicMap.FixedAgreesElsewhere | uidai-dashboard/src/components/charts/GeographicMap.jsx:48-60 | the corrected table changes no other name's state |
| GeographicMap.GeoEntry | uidai-dashboard/src/components/charts/GeographicMap.jsx:79-81 | a row adds its total under its state as the map's `normalizeState` writes it, and nothing exactly when that is "" |
| GeographicMap.EmptyNamesSkipped | uidai-dashboard/src/components/charts/GeographicMap.jsx:80 | no total is kept under "" |
| GeographicMap.JammuNoTotal | uidai-dashboard/src/components/charts/GeographicMap.jsx:77-82 | no total is ever kept under "Jammu And Kashmir", whatever the rows say |
| GeographicMap.PlottedStates | uidai-dashboard/src/components/charts/GeographicMap.jsx:84-86 | a state is plotted exactly when it has a total under its written name and a centroid, once, with the sum of its rows' totals |
| GeographicMap.Points | uidai-dashboard/src/components/charts/GeographicMap.jsx:88 | the plotted points are ordered by descending total |
| GeographicMap.Scale | uidai-dashboard/src/components/charts/GeographicMap.jsx:90 | the scale is never 0: the first total when positive, 1 when every total is 0 |
| GeographicMap.Markers | uidai-dashboard/src/components/charts/GeographicMap.jsx:91-95 | one marker per point, with its state and total |
| GeographicMap.MarkerSizesWithin | uidai-dashboard/src/components/charts/GeographicMap.jsx:95 | with non-negative totals sorted largest first every size lies in [12, 52], and a positive largest total gets 52 |
| GeographicMap.MarkerSizesBounded | uidai-dashboard/src/components/charts/GeographicMap.jsx:77-95 | with non-negative row totals every marker on the map is between 12 and 52 |
| GeographicMap.MarkersOf | uidai-dashboard/src/components/charts/GeographicMap.jsx:69-75 | there is no map exactly when there is no data |
| GeographicMap.JammuNeverOnMap | uidai-dashboard/src/components/charts/GeographicMap.jsx:42-95 | with data, no marker is ever drawn for "Jammu And Kashmir", although the centroid table has one |
| GeographicMap.MapMarkers | uidai-dashboard/src/components/charts/GeographicMap.jsx:77-95 | the imperative component body (loop, filter, in-place sort, sizes) computes exactly the specified markers |
| BarChart.ToInt32 | uidai-dashboard/src/components/charts/BarChart.jsx:19 | the bitwise OR of x with 0 lies in the signed 32-bit range and differs from x by a multiple of 2^32 |
| BarChart.Hash | uidai-dashboard/src/components/charts/BarChart.jsx:16-20 | the running hash stays in the signed 32-bit range |
| BarChart.HashStringToIndex | uidai-dashboard/src/components/charts/BarChart.jsx:14-23 | the colour index is abs(hash) mod the palette size, always a valid index |
| BarChart.HashIsPolynomialModulo | uidai-dashboard/src/components/charts/BarChart.jsx:16-20 | the wrapped hash equals the polynomial hash sum of c_i * 31^(n-1-i) modulo 2^32 |
| BarChart.ShortHashesDoNotWrap | uidai-dashboard/src/components/charts/BarChart.jsx:16-20 | when the polynomial hash is below 2^31 no step wraps and the hash is that polynomial |
| BarChart.BarsOf | uidai-dashboard/src/components/charts/BarChart.jsx:26-33 | there are no bars exactly when there is no data |
| BarChart.ChartData | uidai-dashboard/src/components/charts/BarChart.jsx:36-46 | the imperative reduce, sort and slice compute exactly the specified bars |
| BarChart.BarsAreTopStates | uidai-dashboard/src/components/charts/BarChart.jsx:36-46 | at most fifteen bars, by descending value, each state once with the sum of its rows' totals, and no state left out beats one shown |
| LineChart.MonthEntry | uidai-dashboard/src/components/charts/LineChart.jsx:15-19 | a row adds its total under its own month label |
| LineChart.ByTime | uidai-dashboard/src/components/charts/LineChart.jsx:23-24 | the month buckets sorted by time: a permutation, oldest first |
| LineChart.TrendOf | uidai-dashboard/src/components/charts/LineChart.jsx:4-25 | no chart exactly when there is no data; otherwise min(12, months) months |
| LineChart.TrendData | uidai-dashboard/src/components/charts/LineChart.jsx:14-25 | the imperative reduce, sort and slice compute exactly the specified chart |
| LineChart.MonthTotalsConserve | uidai-dashboard/src/components/charts/LineChart.jsx:14-21 | before the slice the month totals add up to the sum of all row totals |
| LineChart.TrendMonthsAreTotals | uidai-dashboard/src/components/charts/LineChart.jsx:14-25 | the months shown are distinct, each with the sum of its rows' totals |
| LineChart.TrendIsLatestMonths | uidai-dashboard/src/components/charts/LineChart.jsx:23-25 | the months shown are in time order and are the latest: a month left out is no later than any month shown |
| LineChart.ShortSeriesShowsAll | uidai-dashboard/src/components/charts/LineChart.jsx:25 | with at most twelve months every month is shown |
| InsightPanel.StateEntry | uidai-dashboard/src/components/InsightPanel.jsx:7-10 | a row adds its total under its own state |
| InsightPanel.TopStates | uidai-dashboard/src/components/InsightPanel.jsx:12-14 | min(3, states) states, largest total first |
| InsightPanel.InsightOf | uidai-dashboard/src/components/InsightPanel.jsx:4-17 | nothing is rendered exactly when there is no data; the top states are sorted; the share is undefined exactly when the grand total is 0 |
| InsightPanel.StateTotalsConserve | uidai-dashboard/src/components/InsightPanel.jsx:7-10 | the state totals add up to the grand total |
| InsightPanel.TopStatesAreTotals | uidai-dashboard/src/components/InsightPanel.jsx:7-14 | each top state appears once with the sum of its rows' totals |
| InsightPanel.TopStatesBeatTheRest | uidai-dashboard/src/components/InsightPanel.jsx:12-14 | every state left out has a total no larger than any state kept |
| InsightPanel.TopStatesWithinTotal | uidai-dashboard/src/components/InsightPanel.jsx:12-16 | with non-negative totals the top states never sum to more than the grand total |
| InsightPanel.ShareIsPercentage | uidai-dashboard/src/components/InsightPanel.jsx:17 | with non-negative totals and a non-zero grand total the top-3 share lies between 0 and 100 percent |
| DistrictStats.Agg | scripts/district_stats.py:14-18 | one entry per district name of the rows, in first-seen order |
| DistrictStats.AggDistricts | scripts/district_stats.py:13-18 | the aggregate has as many entries as `nunique()` counts: each district of the rows once |
| DistrictStats.AggRows | scripts/district_stats.py:14-18 | each entry is a district of the rows with at least one row |
| DistrictStats.AggSums | scripts/district_stats.py:14-18 | the row counts of all entries add up to the number of rows and their totals to the table's total |
| DistrictStats.MinRows | scripts/district_stats.py:20 | the minimum rows per district is some district's and no district has fewer |
| DistrictStats.MaxRows | scripts/district_stats.py:20 | the maximum rows per district is some district's and no district has more |
| DistrictStats.RowsMonotone | scripts/district_stats.py:22-23 | raising a row threshold never lets more districts through |
| DistrictStats.TotalsMonotone | scripts/district_stats.py:25-26 | raising a total threshold never lets more districts through |
| DistrictStats.AllReachOneRow | scripts/district_stats.py:22-23 | the threshold of one row keeps every district |
| DistrictStats.ReportsNonIncreasing | scripts/district_stats.py:22-26 | both printed series fall as their thresholds rise; the first row count is the number of districts |
| DistrictStats.SortAsc | scripts/district_stats.py:30 | the sort is an ascending permutation |
| DistrictStats.CandidatesFacts | scripts/district_stats.py:29-30 | the candidates are the district totals, each once, strictly ascending |
| DistrictStats.CandidatesCount | scripts/district_stats.py:29-30 | there are candidates exactly when there are rows |
| DistrictStats.ClosestThreshold | scripts/district_stats.py:31-38 | the loop ends with the first candidate whose count is closest to the target (stopping at an exact hit), or none without candidates |
| DistrictStats.ClosestForTarget | scripts/district_stats.py:28-40 | the search towards 813 finds a best threshold exactly when there are rows, and it is the first closest candidate |
| DistrictVariants.SuffixRule | scripts/analyze_district_variants.py:20 | the trailing rule fires exactly on a name ending in whitespace and "district", and removes only that |
| DistrictVariants.PrefixRule | scripts/analyze_district_variants.py:21 | the leading rule fires exactly on a name starting with "district" and whitespace, and removes only that |
| DistrictVariants.Key2Shape | scripts/analyze_district_variants.py:17-23 | a key has single spaces only, none at either end, and no capital letter |
| DistrictVariants.Key2OfCanonical | scripts/analyze_district_variants.py:17-23 | a name already in key form is its own key |
| DistrictVariants.Key2DropsSuffix | scripts/analyze_district_variants.py:20 | a key-form name followed by " district" has that name as its key |
| DistrictVariants.Key2DropsPrefix | scripts/analyze_district_variants.py:21 | "district " followed by a key-form name has that name as its key, whatever the case |
| DistrictVariants.Key2NotIdempotent | scripts/analyze_district_variants.py:19-23 | the key is not idempotent: "a district district" keys to "a district", which keys to "a" |
| DistrictVariants.CollapsedOrigs | scripts/analyze_district_variants.py:25 | the names of the de-duplicated pairs are the distinct names in first-seen order |
| DistrictVariants.NamesOnce | scripts/analyze_district_variants.py:25 | no name appears in two pairs |
| DistrictVariants.CollapsedPair | scripts/analyze_district_variants.py:25 | each pair is a name of the input with its key |
| DistrictVariants.UniqueKeysAtMostNames | scripts/analyze_district_variants.py:28-29 | there are never more keys than distinct names |
| DistrictVariants.MultiCounts | scripts/analyze_district_variants.py:26 | each key of the grouping carries the number of names with that key |
| DistrictVariants.MultiTotal | scripts/analyze_district_variants.py:26-28 | the counts of the grouping add up to the number of distinct names |
| DistrictVariants.ReportTop | scripts/analyze_district_variants.py:30-32 | at most 25 top keys, no more than keys with several names, largest first, each with its two or more names counted |
| DistrictVariants.ReportExamples | scripts/analyze_district_variants.py:37-38 | at most ten examples, following the top keys in order, each listing at most ten distinct names with that key |

## Left out

- Network and I/O:
  - the FastAPI app, CORS, the uvicorn start-up and `read_root`;
  - the frontend's `fetch` calls, their cancellation and time-outs, and the axios
    instance;
  - `pd.read_csv` / `to_csv`, the hard-coded CSV paths, and every `print` of the
    scripts (the model returns the printed values).
- `get_cleaning_report` in `backend/main.py`: it only reads a JSON file from disk.
- Export and DOM code (CSV and Excel downloads) and all rendering: JSX, Plotly and
  recharts configuration, colours other than the calendar palette, and layout.
  Nor are the pure layout components (AppShell, KpiCard, Navbar, the error
  boundaries) or `AgeGroupHeatmaps.jsx`, which only picks a value accessor per tab.
- `scripts/clean_dataset.py`: a command-line wrapper around `clean_dataframe`.
- Date parsing (`new Date(string)`, `pd.to_datetime`): dates are civil dates ordered
  by day number. Where the source tests for a failed parse (the backend's `NaT`
  checks, the dashboard's date filter), parsing is a parameter that may fail and the
  failure is modelled as the source handles it.
- `CleaningColumns.CleanTable` and `CleaningColumns.CleanTableWithReport` check the
  header row, but the rows themselves are given already read under the standard
  names (`CleaningPipeline.RawRow`). Two headers that standardise to the same name
  (say "enrollment_date" and "date") give pandas two columns of that name, and the
  later steps then fail or misbehave; the model does not follow that case.
- `DashboardForecast.ComputeForecast`: a point's `day` is the local calendar day.
  The source labels each point with `toISOString().slice(0, 10)` of local midnight,
  which is the UTC date. East of UTC (India is UTC+5:30) every label reads one day
  earlier than the day it stands for. The label strings are not modelled.
- `ComparisonGraphs.MonthAxisFacts` and `ComparisonGraphs.SortedByTime`: `timeOf`,
  the time stamp of a month label, is a total parameter. The source's
  `safeSortMonthLabel` uses `new Date(label).getTime()`, which is NaN for a label
  `new Date` cannot read; the comparator is then inconsistent and the order is the
  sort's own. That case is not modelled.
- `LineChart.ByTime`: the month label's time stamp is a parameter that always gives a
  number. A label `new Date` cannot read gives NaN, which makes the sort comparator
  inconsistent; that case is not modelled.
- `toLocaleString` month labels and the "now" used as the middle date: both are
  parameters.
- `difflib.SequenceMatcher.ratio`: an uninterpreted similarity function given as a
  parameter. The model does not constrain its values to [0, 1]; nothing proved about
  the merge depends on that range.
- `DataFrame.sample(random_state=42)` in `get_data`: only the size of the sample is
  modelled (`BackendHandlers.SampleSizeRule`), not which rows are drawn.
- pandas `sort_values` is not stable, so rows with equal values may come out in any
  order. The model uses a stable sort over first-seen group order. The proved
  properties (ordered, a permutation, the largest first) hold for any tie order, but
  the exact order among ties is a choice of the model.
- Floating point: values are exact reals.
  - There is no NaN or infinity; non-finite checks become guards on parsed values.
  - `Math.sqrt` is avoided: a z-score is compared squared against the squared
    threshold, which is equivalent for the non-negative quantities involved.
  - `toFixed(1)` in the growth rate is modelled as the number it writes, rounded
    half away from zero (`DashboardKpis.GrowthRate`). Elsewhere (the top-three share,
    axis ticks, z-scores) the model keeps the number before `toFixed`. The strings
    and `toLocaleString` output are not modelled.
- Strings are sequences of characters with ASCII case mapping. Whitespace means
  ASCII whitespace plus the no-break space. Unicode case folding and the full `\s`
  class of JS and Python regular expressions are not modelled.
  - Python's `\w`, `\d`, `str.isalpha` and `str.isdigit` accept any Unicode letter
    or digit. The model accepts ASCII letters and digits only. So a district such as
    "१२३" (Devanagari digits) is punctuation-only here and "Unknown", while the source
    keeps it.
- Regular-expression escaping in `matchesWholeWords` is modelled by matching each
  term literally as a whole word, which is what the escaping achieves.
- React hook scheduling (`useMemo`, `useEffect`) and the `setState` plumbing: each
  memo is a function of its inputs, and each updater a function from the previous
  state to the next.
- `BackendRecommendations.SortItems`: the in-place `deduped.sort` is modelled as a
  function that returns the sorted list.
- `GeographicMap.MapMarkers`: latitudes and longitudes of the centroids are not
  modelled, only which states have one.
- `StateDistrictHeatmap.LabelOf`: the compact number formatting of the cell text is
  not modelled, only whether a cell shows text.
- `CleaningPipeline.ExactDuplicates`: it counts repeats among the six columns the model
  carries (date, state, district and the three ages). `raw_df.duplicated()` compares
  every column of the raw file, so two rows that differ only in a column outside the
  model are duplicates here and not in the source.
- `DistrictStats.MinRows` and `DistrictStats.MaxRows` are defined for a non-empty
  aggregate only. On an empty table the script's `int(agg["rows"].min())` converts
  NaN and raises; that failure is not modelled.
- `DataLoader.StateCopiesAgree`: the loader's `map[lower]` also finds the members
  every object inherits. A cell that lower-cases to "constructor" or "__proto__"
  returns that inherited member instead of a name, and so does the map's `map[s]`.
  The model's tables hold only the listed keys, so the agreement with the backend
  is proved for every cell but these two spellings.
- Other JavaScript object keys. Plain objects used as dictionaries are modelled as
  association lists holding only the keys the code stores. So the following are not
  modelled:
  - The sunburst keys districts by `${state}||${district}` and splits the key at
    "||". A name containing "||" is therefore split wrongly.
  - The sunburst's sector ids are strings: `state:S`, `district:S:D`,
    `district:S:__other__` and `age:S:D:G`. A state or district name containing ":"
    can make two sectors share an id, and so can a district literally named
    "__other__" next to the "Other" sector. `SunburstTree.NodeId` is a datatype, so
    its ids never collide; the model does not show the collisions.
  - `ComparisonGraphs` builds each chart row as `{month: m, ...perState}`. A state
    named "month" would overwrite the month field.
  - `Object.values` and `Object.entries` (the line chart's months, the bar chart and
    the insight panel) list integer-like keys first, in ascending order, and then
    the other keys in insertion order. The model keeps insertion order for all
    keys. Sorting makes this matter only for the order among equal totals.

## Findings

| source | as written | input that shows it | evidently intended | confidence | as-written member | corrected member |
|---|---|---|---|---|---|---|
| uidai-dashboard/src/components/charts/GeographicMap.jsx:42-66 | `normalizeState` spells `&` as "and" before the alias lookup, so the alias keyed "jammu & kashmir" never matches. Title casing then leaves "and" in lower case, giving "Jammu and Kashmir", while the centroid table is keyed "Jammu And Kashmir". No spelling of the state reaches its centroid. | "Jammu & Kashmir" (or "Jammu and Kashmir") | the alias keyed by the post-rewrite spelling "jammu and kashmir", so the state is plotted | not executed | GeographicMap.JammuNeverOnMap | GeographicMap.JammuPlottedWhenFixed |
