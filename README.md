# WARIS dashboard query layer, in Dafny

This project models the analytics query layer of the WARIS water-utility
dashboards, which are a set of Streamlit pages over one CSV of monthly
figures per zone. The same query logic is repeated across the pages:

- **load** (`load_data`): builds `Date` from `Year` and `Month` and
  recomputes `Year`. It adds `Quarter`, `Net_Revenue`, `Efficiency_Score` and
  the per-row `Collection_Rate`. It also adds `Revenue_Growth`, the percent
  change from the previous row of the same zone.
- **filter**: an inclusive date range. A zone list in which `"All"` switches
  the filter off. A year list that filters only when non-empty. The variants:
  - the trends page has no year filter;
  - the website and trends pages stop on an empty result;
  - the Data Explorer page treats both empty lists as "everything";
  - the student template filters by region.
- **group-by aggregation**: by (Date, Zone), (Year, Quarter, Zone),
  (Year, Zone), (Year, Month), (Zone, Year) or Zone. Money columns are summed
  and `Collection Efficiency` is averaged. Ratios are recomputed from the
  summed numerator and denominator.
- **KPIs and rules**:
  - guarded ratios;
  - the "previous period" revenue growth;
  - `idxmax`/`idxmin` zone picks;
  - the alert and trend-class thresholds;
  - the trends page's growth table, summary statistics and per-zone
    `performance_metrics` loop.

How the model represents these:
- A table is a `seq` of rows. pandas' NaN is `Option.None`.
- `df[mask]` is `Common.Where`.
- `groupby(...)` (with pandas' default `sort=True`) is `Grouping.GroupBy`. It
  is a fold that inserts each row into a key-sorted sequence of groups. Keys
  are sequences of numbers and strings, compared level by level as pandas
  sorts them.
- Masks and columns are named functions (`Tables.YearIs`, `Tables.Revenue`, …).
  Lemmas take a mask as a parameter, pinned down pointwise by a `requires`.

Modules:

| module | file | models |
|---|---|---|
| `Common` | common.dfy | `Option`, dates, `Where`, `unique()`, `idxmax()`/`idxmin()` |
| `DateAssembly` | date_assembly.dfy | `pd.to_datetime` on a frame of date columns |
| `Keys` | keys.dfy | group keys and their order |
| `Grouping` | grouping.dfy | the group-by fold, its sums and invariants |
| `PctChange` | pct_change.dfy | `groupby('Zone').pct_change()` |
| `Records` | records.dfy | the records and `load_data` |
| `Filters` | filters.dfy | the filter block, its page variants, the drill-down |
| `Tables` | tables.dfy | column sums and means |
| `Aggregation` | aggregation.dfy | `agg_df`, `chart_df`, `zone_metrics`, `monthly_data` |
| `Kpis` | kpis.dfy | the KPI block, trend classes, alerts and insights |
| `Trends` | trends.dfy | the trends page's analyses of `agg_df` |
| `DataExplorer` | data_explorer.dfy | the Data Explorer filter |
| `StudentTemplate` | student_template.dfy | the student template page |

Two points about the order of rows:

- `Revenue_Growth` is computed in the table's input row order. The code does
  not sort by (Zone, Date) first, so a file that is out of date order within
  a zone is compared with the previous row in file order. `PctChange` states
  the change against the nearest EARLIER ROW of the same zone.
- On `agg_df` row order and date order agree. Rows come out of the group-by in key order, so
  within a zone they are in ascending period order (`Trends.ZoneRowsAscend`).

## Model

| member | source | states |
|---|---|---|
| Common.WhereIsSubsequence | Streamlit_Dashboard/Streamlit-Demo/Multi_page/Home.py:516-525 | a boolean-mask selection keeps an order-preserving subsequence of the table |
| Common.WhereIdempotent | Streamlit_Dashboard/Streamlit-Demo/Multi_page/Home.py:516-525 | selecting with the same mask twice equals selecting once |
| Common.WhereWhere | Streamlit_Dashboard/Streamlit-Demo/Multi_page/Home.py:513-525 | two successive masks equal one mask that is their conjunction |
| Common.WhereCount | Streamlit_Dashboard/Streamlit-Demo/Multi_page/Home.py:516-525 | a mask keeps every copy of a row it accepts and no copy of a row it rejects |
| Common.WhereEmpty | Streamlit_Dashboard/Streamlit-Demo/website_dashboard.py:405-407 | a selection is empty exactly when no row satisfies the mask |
| Common.DistinctSpec | Streamlit_Dashboard/Streamlit-Demo/Multi_page/pages/2.trends.py:421 | `unique()` lists exactly the values that occur, each once, in order of first appearance |
| Common.IdxMax | Streamlit_Dashboard/Streamlit-Demo/Multi_page/Home.py:858-859 | `idxmax()`: none for an empty column; otherwise a position whose value is at least every value, with no earlier position holding that maximum |
| Common.IdxMin | Streamlit_Dashboard/Streamlit-Demo/Multi_page/Home.py:860-861 | `idxmin()`: none for an empty column; otherwise a position whose value is at most every value, with no earlier position holding that minimum |
| Keys.KeyLessIrreflexive | Streamlit_Dashboard/Streamlit-Demo/Multi_page/Home.py:766 | no group key sorts before itself |
| Keys.KeyLessTransitive | Streamlit_Dashboard/Streamlit-Demo/Multi_page/Home.py:766 | the group-key order is transitive |
| Keys.KeyLessTotal | Streamlit_Dashboard/Streamlit-Demo/Multi_page/Home.py:766 | any two distinct keys are ordered one way or the other |
| Keys.KeyLessCons | Streamlit_Dashboard/Streamlit-Demo/Multi_page/pages/2.trends.py:175 | multi-column keys compare on the first level, then on the rest |
| Keys.KeyLessSameLast | Streamlit_Dashboard/Streamlit-Demo/Multi_page/pages/2.trends.py:175 | two same-width keys ending in the same zone are ordered by their period levels |
| Grouping.GroupBySpec | Streamlit_Dashboard/Streamlit-Demo/Multi_page/Home.py:766-773 | the group-by emits one group per distinct key and nothing else, in strictly ascending key order |
| Grouping.GroupByKeepsInvariant | Streamlit_Dashboard/Streamlit-Demo/website_dashboard.py:585-592 | a property of every entry that combining preserves holds of every group |
| Grouping.GroupBySum | Streamlit_Dashboard/Streamlit-Demo/website_dashboard.py:585-613 | for a commutative monoid, the groups selected by a key predicate sum to the entries it selects |
| Grouping.GroupByLookup | Streamlit_Dashboard/Streamlit-Demo/Multi_page/Home.py:766-773 | each group's value is the combination of exactly the entries with its key |
| PctChange.LastValueSpec | Streamlit_Dashboard/Streamlit-Demo/Multi_page/Home.py:420 | the previous value of a zone is that of its nearest earlier row, and there is none exactly when no earlier row has that zone |
| PctChange.FirstOfZoneUndefined | Streamlit_Dashboard/Streamlit-Demo/Multi_page/Home.py:420 | the first row of each zone, in row order, has no `Revenue_Growth` |
| PctChange.PctChangeFromNearest | Streamlit_Dashboard/Streamlit-Demo/Multi_page/Home.py:420 | any later row gets 100*(r-r_prev)/r_prev against the nearest earlier row of its zone, when r_prev is not 0 |
| PctChange.PctChangeDefined | Streamlit_Dashboard/Streamlit-Demo/Multi_page/Home.py:420 | the growth is undefined exactly when the row starts its zone or follows a 0 |
| Records.DeriveRow | Streamlit_Dashboard/Streamlit-Demo/website_dashboard.py:301-310 | one row: Date is day 1 of (Year, Month); Year is unchanged; Quarter is the calendar quarter in 1..4; Net_Revenue, Efficiency_Score and Collection_Rate (none when billing is 0) come from the record |
| DateAssembly.Assemble | Streamlit_Dashboard/Streamlit-Demo/Multi_page/Home.py:414 | `pd.to_datetime` on date columns, as modelled: it succeeds when every column names a date unit, year, month and day are all given and form a calendar date, and then gives that date (the last column of each unit); otherwise it fails |
| DateAssembly.LoadDateSpec | Streamlit_Dashboard/Streamlit-Demo/Multi_page/Home.py:414 | the loaders' `assign(DAY=1)` assembly gives day 1 of the record's month for a month in 1..12; the model treats any other month as a failure |
| DateAssembly.ParsableIffLoadDates | Streamlit_Dashboard/Streamlit-Demo/Multi_page/Home.py:410-422 | the modelled loader fails exactly when some record's modelled date assembly fails |
| DateAssembly.QuarterDateAlwaysRaises | Streamlit_Dashboard/Streamlit-Demo/website_dashboard.py:603 | as written, the quarterly assembly fails for every year and quarter: `Quarter` is not a date unit and no day is given |
| DateAssembly.QuarterDateSpec | Streamlit_Dashboard/Streamlit-Demo/Multi_page/pages/2.trends.py:193 | the corrected quarterly assembly gives day 1 of month Quarter*3 for quarters 1..4 and fails otherwise |
| Records.LoadData | Streamlit_Dashboard/Streamlit-Demo/website_dashboard.py:297-322 | a month outside 1..12 is taken as a failed date parse and gives an empty table; otherwise one row per record, each derived from its record, with Revenue_Growth the zone's percent change in row order |
| Filters.ApplyFilters | Streamlit_Dashboard/Streamlit-Demo/Multi_page/Home.py:513-525 | the step-by-step reassignment of `filtered_df` equals the single three-part mask |
| Filters.FilterSpec | Streamlit_Dashboard/Streamlit-Demo/main_dashboard.py:201-213 | the filter keeps, in order, exactly the rows inside the date range, in a selected zone and in a selected year, each as often as it occurs in the table |
| Filters.FilterIdempotent | Streamlit_Dashboard/Streamlit-Demo/Multi_page/Home.py:513-525 | filtering the filtered table with the same settings changes nothing |
| Filters.NoDateFilterWithoutTwoBounds | Streamlit_Dashboard/Streamlit-Demo/Multi_page/Home.py:515-519 | unless exactly two dates are picked, there is no date filter |
| Filters.DateBoundsInclusive | Streamlit_Dashboard/Streamlit-Demo/Multi_page/Home.py:517-518 | a row dated on either bound passes the date filter |
| Filters.AllDisablesZoneFilter | Streamlit_Dashboard/Streamlit-Demo/Multi_page/Home.py:521-522 | "All" anywhere in the zone list disables zone filtering, whatever else is listed |
| Filters.EmptyZonesKeepNothing | Streamlit_Dashboard/Streamlit-Demo/Multi_page/Home.py:521-522 | an empty zone list keeps no rows |
| Filters.EmptyYearsKeepAllYears | Streamlit_Dashboard/Streamlit-Demo/Multi_page/Home.py:524-525 | an empty year list applies no year filter |
| Filters.DefaultSelectionKeepsAll | Streamlit_Dashboard/Streamlit-Demo/Multi_page/Home.py:485-510 | the widget defaults (the full date span, ["All"], every year) leave the table unchanged |
| Filters.StopIfEmpty | Streamlit_Dashboard/Streamlit-Demo/website_dashboard.py:405-407 | the page stops exactly on an empty table, so what follows always sees a row |
| Filters.WebsiteView | Streamlit_Dashboard/Streamlit-Demo/website_dashboard.py:391-407 | the website page stops exactly when no row passes the filter; otherwise it continues with the non-empty filtered table |
| Filters.TrendsView | Streamlit_Dashboard/Streamlit-Demo/Multi_page/pages/2.trends.py:158-171 | the trends page filters on dates and zones only (the common filter with no year list) and stops exactly when nothing passes |
| Filters.DrillDown | Streamlit_Dashboard/Streamlit-Demo/Multi_page/Home.py:759-763 | "All Zones" keeps the table; any other choice keeps exactly the rows of that zone |
| Filters.DrillDownIsSubsequence | Streamlit_Dashboard/Streamlit-Demo/Multi_page/Home.py:759-763 | the drill-down keeps an order-preserving subsequence |
| Tables.Mean | Streamlit_Dashboard/Streamlit-Demo/Multi_page/Home.py:539 | `mean()` is NaN exactly for an empty table |
| Tables.TotalPartition | Streamlit_Dashboard/Streamlit-Demo/Multi_page/Home.py:536 | the rows a mask keeps and the rows it drops sum to the whole column |
| Tables.TotalBounds | Streamlit_Dashboard/Streamlit-Demo/Multi_page/Home.py:536 | per-row bounds bound a column sum by the row count |
| Tables.MeanBounds | Streamlit_Dashboard/Streamlit-Demo/Multi_page/Home.py:539 | a mean lies within any bounds of the values it averages |
| Tables.ZonesOfNonEmpty | Streamlit_Dashboard/Streamlit-Demo/Multi_page/Home.py:545 | a table with rows has at least one zone |
| Aggregation.AggregateSpec | Streamlit_Dashboard/Streamlit-Demo/website_dashboard.py:584-615 | `agg_df` has exactly one row per distinct key of the table, in ascending key order |
| Aggregation.AggregateGroup | Streamlit_Dashboard/Streamlit-Demo/website_dashboard.py:585-592 | each aggregated row holds the sums (and efficiency sum and count) over exactly the table rows with its key, of which there is at least one |
| Aggregation.AggregateSum | Streamlit_Dashboard/Streamlit-Demo/website_dashboard.py:585-613 | the groups a key predicate selects sum to the totals of the rows it selects |
| Aggregation.AggregateKeepsTotals | Streamlit_Dashboard/Streamlit-Demo/website_dashboard.py:585-613 | aggregation loses and duplicates nothing: the groups together hold the table's totals |
| Aggregation.AggregateNet | Streamlit_Dashboard/Streamlit-Demo/website_dashboard.py:307 | every group's summed Net_Revenue is its summed revenue minus its summed expenditure |
| Aggregation.ZoneYearSums | Streamlit_Dashboard/Streamlit-Demo/website_dashboard.py:540 | the Zone x Year revenue table has one row per distinct (zone, year), ordered, each the revenue of that pair's rows |
| Aggregation.HomeLevelsAgree | Streamlit_Dashboard/Streamlit-Demo/Multi_page/Home.py:628-645 | on a loaded table, Home's `to_period('Q')` quarters group exactly as the `Quarter` column does |
| Aggregation.QuarterGroupAssembles | Streamlit_Dashboard/Streamlit-Demo/website_dashboard.py:594-603 | with the date assembly corrected, every quarterly group's x value is day 1 of month Quarter*3 of its year |
| Aggregation.QuarterGroupDates | Streamlit_Dashboard/Streamlit-Demo/website_dashboard.py:595-603 | every quarterly group names a quarter in 1..4; its month Quarter*3 is in {3,6,9,12} and at least every month of the quarter; Home's quarter start is no later than any of its rows |
| Aggregation.YearGroupDates | Streamlit_Dashboard/Streamlit-Demo/website_dashboard.py:606-614 | every yearly group's date, January 1 of its year, is no later than any of its rows |
| Aggregation.MonthlyRollsUpToYearly | Streamlit_Dashboard/Streamlit-Demo/website_dashboard.py:585-613 | a zone-year's Monthly rows sum to its Yearly row |
| Aggregation.QuarterlyRollsUpToYearly | Streamlit_Dashboard/Streamlit-Demo/website_dashboard.py:595-613 | a zone-year's Quarterly rows sum to its Yearly row |
| Aggregation.RatioPercent | Streamlit_Dashboard/Streamlit-Demo/Multi_page/Home.py:776 | summed collection over summed billing in percent; undefined exactly when billing sums to 0 |
| Aggregation.ZoneMetricsSorted | Streamlit_Dashboard/Streamlit-Demo/main_dashboard.py:333-340 | `zone_metrics` lists its zones in strictly ascending order, so no zone twice |
| Aggregation.ZoneMetricsCover | Streamlit_Dashboard/Streamlit-Demo/main_dashboard.py:333-340 | every zone of the table has a row in `zone_metrics` |
| Aggregation.ZoneMetricValues | Streamlit_Dashboard/Streamlit-Demo/Multi_page/Home.py:766-776 | a zone's row holds its rows' revenue, expenditure, collection and billing sums and its efficiency and coverage means; Net Revenue is summed revenue minus summed expenditure; Collection Rate comes from the sums, not from the per-row rates |
| Aggregation.DisplayMetrics | Streamlit_Dashboard/Streamlit-Demo/Multi_page/Home.py:779-786 | each metric focus shows its own columns, and any other choice shows every column |
| Aggregation.MonthRowKey | Streamlit_Dashboard/Streamlit-Demo/main_dashboard.py:410-416 | each `monthly_data` row is dated day 1 of its group's year and month, a date some table row has |
| Aggregation.MonthRowValues | Streamlit_Dashboard/Streamlit-Demo/main_dashboard.py:410-417 | each `monthly_data` row holds the month's revenue and expenditure sums over all zones and their mean efficiency, and its Net Revenue is summed revenue minus summed expenditure |
| Aggregation.MonthlyDataSpec | Streamlit_Dashboard/Streamlit-Demo/main_dashboard.py:410-417 | `monthly_data` has one row per month of the table across all zones, with strictly ascending dates |
| Kpis.CollectionRate | Streamlit_Dashboard/Streamlit-Demo/Multi_page/Home.py:542 | collection over billing times 100 when billing is positive, else 0 |
| Kpis.CollectionRateBounds | Streamlit_Dashboard/Streamlit-Demo/main_dashboard.py:228 | when no row collects a negative amount or more than it bills, the rate is within 0..100 |
| Kpis.AvgRevenuePerZone | Streamlit_Dashboard/Streamlit-Demo/Multi_page/Home.py:545-546 | revenue per distinct zone, 0 with no zones |
| Kpis.AvgRevenuePerZoneSpec | Streamlit_Dashboard/Streamlit-Demo/Multi_page/Home.py:545-546 | the average is 0 for the empty table; otherwise it times the zone count is the total revenue |
| Kpis.RevenueGrowth | Streamlit_Dashboard/Streamlit-Demo/Multi_page/Home.py:550-554 | as written: 0 for at most one row or a non-positive base; otherwise the total filtered revenue against the second-latest year's revenue |
| Kpis.TwoYearGroupsIffTwoYears | Streamlit_Dashboard/Streamlit-Demo/Multi_page/Home.py:551 | there are two year groups exactly when two rows differ in year |
| Kpis.SingleYearNoGrowth | Streamlit_Dashboard/Streamlit-Demo/main_dashboard.py:231-235 | with one distinct year there is no base and the growth is 0 |
| Kpis.PrevPeriodIsSecondLatestYear | Streamlit_Dashboard/Streamlit-Demo/Multi_page/Home.py:551 | with two years or more, the base is the revenue of the second-largest year, and the last group is the largest year |
| Kpis.FlatRevenueShowsGrowth | Streamlit_Dashboard/Streamlit-Demo/website_dashboard.py:423-425 | two years of equal revenue show +100% as written and 0% as corrected |
| Kpis.LatestYearGrowth | Streamlit_Dashboard/Streamlit-Demo/Multi_page/Home.py:550-554 | corrected: the same guards, with the latest year's revenue against the second-latest year's |
| Kpis.LatestYearGrowthSign | Streamlit_Dashboard/Streamlit-Demo/Multi_page/Home.py:550-554 | the corrected growth is positive, zero or negative exactly as the latest year grew, held or fell |
| Kpis.GrowthTrend | Streamlit_Dashboard/Streamlit-Demo/main_dashboard.py:245 | trend-up exactly for positive growth, trend-down exactly for negative, trend-neutral exactly at 0 |
| Kpis.GrowthLabel | Streamlit_Dashboard/Streamlit-Demo/main_dashboard.py:246 | "No change" exactly at zero growth, otherwise the signed percentage |
| Kpis.NeutralIffNoChange | Streamlit_Dashboard/Streamlit-Demo/main_dashboard.py:245-246 | the tile is neutral exactly when it reads "No change" |
| Kpis.NetRevenueTrend | Streamlit_Dashboard/Streamlit-Demo/main_dashboard.py:255 | the Net Revenue tile is up exactly when net revenue is positive, down otherwise (0 included) |
| Kpis.VarianceAlertOf | Streamlit_Dashboard/Streamlit-Demo/Multi_page/Home.py:877-880 | high variance exactly above 15, consistent exactly below 5, no alert otherwise or when the deviation is NaN |
| Kpis.GrowthAlertOf | Streamlit_Dashboard/Streamlit-Demo/Multi_page/Home.py:882-885 | revenue decline exactly below 0, strong growth exactly above 10, nothing in between |
| Kpis.HomeInsights | Streamlit_Dashboard/Streamlit-Demo/Multi_page/Home.py:858-897 | undefined (pandas raises) exactly for an empty `zone_metrics`; otherwise the best, worst and highest-revenue zones as `idxmax`/`idxmin` pick them (first on ties), the performance-gap alert exactly above 20 points, and the low-collection alert exactly below 50 |
| Trends.LevelKeyShape | Streamlit_Dashboard/Streamlit-Demo/Multi_page/pages/2.trends.py:174-205 | every level's key is a fixed-width period followed by the row's zone |
| Trends.AggRowKey | Streamlit_Dashboard/Streamlit-Demo/Multi_page/pages/2.trends.py:174-205 | each `agg_df` row is keyed like some table row and carries its zone |
| Trends.ZoneRowsAscend | Streamlit_Dashboard/Streamlit-Demo/Multi_page/pages/2.trends.py:236 | within a zone, `agg_df` rows run in strictly ascending period order |
| Trends.AggRowValues | Streamlit_Dashboard/Streamlit-Demo/Multi_page/pages/2.trends.py:175-182 | an `agg_df` row holds the sums and mean efficiency of exactly its key's rows; its net is revenue minus expenditure; its `Collection_Rate` comes from the summed collection and billing |
| Trends.GrowthRows | Streamlit_Dashboard/Streamlit-Demo/Multi_page/pages/2.trends.py:236-241 | the growth table keeps, in order and each once, exactly the rows whose zone growth rate is defined, each with that rate |
| Trends.FirstPeriodDropped | Streamlit_Dashboard/Streamlit-Demo/Multi_page/pages/2.trends.py:236-241 | the first aggregated row of each zone is dropped |
| Trends.LaterPeriodKept | Streamlit_Dashboard/Streamlit-Demo/Multi_page/pages/2.trends.py:236-241 | every later row with a nonzero predecessor is kept, with 100*(r-r_prev)/r_prev against the zone's previous period |
| Trends.MergeBounded | Streamlit_Dashboard/Streamlit-Demo/Multi_page/pages/2.trends.py:400-405 | merging two groups' statistics keeps count*min <= sum <= count*max |
| Trends.MeanWithinRange | Streamlit_Dashboard/Streamlit-Demo/Multi_page/pages/2.trends.py:400-405 | a group's mean lies between its min and max |
| Trends.TrendStatsSpec | Streamlit_Dashboard/Streamlit-Demo/Multi_page/pages/2.trends.py:400-409 | `trend_stats` has one row per zone of `agg_df`, ascending, and in every row and column min <= mean <= max |
| Trends.MergeMonoid | Streamlit_Dashboard/Streamlit-Demo/Multi_page/pages/2.trends.py:400-405 | merging statistics is associative and commutative, with the statistics of no value as neutral element |
| Trends.ColumnStatsSpec | Streamlit_Dashboard/Streamlit-Demo/Multi_page/pages/2.trends.py:400-405 | a non-empty column's statistics are its count, its sum, and a minimum and a maximum that bound every value and are values of the column |
| Trends.SummarisedMean | Streamlit_Dashboard/Streamlit-Demo/Multi_page/pages/2.trends.py:400-405 | the `mean` column is the column's mean, sum / count, and lies between `min` and `max` |
| Trends.TrendStatsLookup | Streamlit_Dashboard/Streamlit-Demo/Multi_page/pages/2.trends.py:400-405 | each `trend_stats` row is keyed by one zone and, in each of the four columns, holds the count, sum, minimum and maximum of exactly that zone's `agg_df` values |
| Trends.FlatColumnName | Streamlit_Dashboard/Streamlit-Demo/Multi_page/pages/2.trends.py:408 | a flattened name is the column, "_", then the statistic |
| Trends.FlatColumnNames | Streamlit_Dashboard/Streamlit-Demo/Multi_page/pages/2.trends.py:400-408 | the sixteen names are every column joined with each of mean, std, min and max |
| Trends.SeriesChangeIsConsecutive | Streamlit_Dashboard/Streamlit-Demo/Multi_page/pages/2.trends.py:425-426 | a single series' `pct_change` has no first value, compares each later value with the one right before, and has no value after a 0 |
| Trends.DefinedChanges | Streamlit_Dashboard/Streamlit-Demo/Multi_page/pages/2.trends.py:425-426 | the defined percent changes of a series are, in order, 100 * (v[i] - v[i-1]) / v[i-1] for every i with v[i-1] != 0 |
| Trends.Trend | Streamlit_Dashboard/Streamlit-Demo/Multi_page/pages/2.trends.py:425-426 | a trend is the mean of the consecutive percent changes (NaN when there are none), so a zone with at most one period has no trend |
| Trends.PerformanceMetrics | Streamlit_Dashboard/Streamlit-Demo/Multi_page/pages/2.trends.py:420-437 | the loop builds one entry per `unique()` zone, in that order, each computed from that zone's rows |
| Trends.PerformanceZones | Streamlit_Dashboard/Streamlit-Demo/Multi_page/pages/2.trends.py:421 | the loop's zones are exactly the zones of `agg_df`, each once, in first-appearance order, and every entry is labelled by its zone |
| Trends.SinglePeriodNoTrend | Streamlit_Dashboard/Streamlit-Demo/Multi_page/pages/2.trends.py:425-426 | a zone seen in one period has neither a revenue nor an efficiency trend |
| Trends.AggNetSum | Streamlit_Dashboard/Streamlit-Demo/Multi_page/pages/2.trends.py:434 | a zone's summed `Net_Revenue` over the `agg_df` rows equals the net revenue of its groups |
| Trends.PerformanceNetMatchesRows | Streamlit_Dashboard/Streamlit-Demo/Multi_page/pages/2.trends.py:434 | a zone's Total Net Revenue equals the `Net_Revenue` summed over that zone's rows of the filtered table |
| Trends.BestBy | Streamlit_Dashboard/Streamlit-Demo/Multi_page/pages/2.trends.py:442 | a pick is undefined exactly with no entries; otherwise its value is at least every entry's, with no earlier entry tying it |
| Trends.BestPicks | Streamlit_Dashboard/Streamlit-Demo/Multi_page/pages/2.trends.py:442-462 | the revenue, efficiency and net-revenue leaders, each a first maximum of its own column |
| DataExplorer.DataFilterIsOneMask | Streamlit_Dashboard/Streamlit-Demo/Multi_page/pages/3.data.py:28-35 | the four branches are one rule: a record is kept exactly when each list is empty or holds its value |
| DataExplorer.NoSelectionKeepsAll | Streamlit_Dashboard/Streamlit-Demo/Multi_page/pages/3.data.py:34-35 | with nothing selected the table is shown unchanged |
| DataExplorer.DataFilterSpec | Streamlit_Dashboard/Streamlit-Demo/Multi_page/pages/3.data.py:28-33 | the result keeps exactly the selected records, in order, each as often as it occurs |
| DataExplorer.DataFilterIdempotent | Streamlit_Dashboard/Streamlit-Demo/Multi_page/pages/3.data.py:28-35 | filtering the shown table again with the same selections changes nothing |
| StudentTemplate.SampleDataSpec | Streamlit_Dashboard/Streamlit-Demo/student_template.py:57-63 | twelve rows on the month ends of 2023 (by the leap-year rule), ascending, with the region cycling North, South, East, West |
| StudentTemplate.FilterSalesSpec | Streamlit_Dashboard/Streamlit-Demo/student_template.py:90-94 | a row is kept exactly when start <= date <= end and its region is selected, in order and with every copy; no region selected keeps nothing |
| StudentTemplate.DefaultsKeepSample | Streamlit_Dashboard/Streamlit-Demo/student_template.py:80-94 | the widget defaults (first date, last date, every region) show the whole sample |
| StudentTemplate.ProfitMargin | Streamlit_Dashboard/Streamlit-Demo/student_template.py:101-104 | total profit over total sales times 100 when sales are positive, else 0 |
| StudentTemplate.ProfitMarginBounds | Streamlit_Dashboard/Streamlit-Demo/student_template.py:104 | with no loss and no profit above sales on any row, the margin is within 0..100 |
| StudentTemplate.RegionSumsSpec | Streamlit_Dashboard/Streamlit-Demo/student_template.py:154 | one row per region present, ascending, and together they add up to the filtered total of the metric |
| StudentTemplate.RegionRowTotal | Streamlit_Dashboard/Streamlit-Demo/student_template.py:154 | each region's row is the metric summed over that region's rows |

## Left out

- The presentation layer is not modelled: the Streamlit widgets, CSS, HTML,
  Plotly charts, number formatting, `session_state` navigation and the radio
  navigation. The widget values become parameters.
- CSV reading and export are not modelled, nor the downloads. A failed load
  is modelled only as "an unparsable month gives an empty table".
- `std` and the square root behind it are not modelled. The efficiency
  deviation enters `Kpis.VarianceAlertOf` as a parameter. `trend_stats`
  keeps mean, min and max, and its `std` column appears only as a name.
- `.round(2)` and floating point are not modelled. Amounts are exact reals.
- Division by zero becomes `None` where pandas gives NaN or inf.
  - PctChange.PctChangeAt: a zero predecessor followed by a nonzero value gives `None`, where pandas gives inf. A zero after a zero is 0/0, which is NaN in pandas and `None` in the model.
  - Trends.Trend: a change from a zero predecessor to a nonzero value inside a zone is skipped, where pandas' mean would become inf. A zero after a zero is NaN in pandas too, and both skip it.
  - Trends.GrowthRows: a period that follows a zero-revenue period of its zone, and whose own revenue is not 0, has growth inf in pandas, and `dropna()` keeps it. The model has no inf, so its growth table drops that row while the page shows it.
- Timestamp assembly is modelled only for date columns (`DateAssembly`).
  `to_period('Q').start_time` and `pd.to_datetime(Year, format='%Y')` appear
  only as date fields. The time-of-day units (hour, minute, second and finer)
  are treated as unrecognised column names; no page passes one.
- The Quarterly level on the website and trends pages fails at
  website_dashboard.py:603 and 2.trends.py:193: the assembly is given a
  `Quarter` column, which is not a date unit, and no day column, so pandas
  raises (`DateAssembly.QuarterDateAlwaysRaises`, see Findings). Those two
  pages never show their Quarterly `agg_df`. The Quarterly results of
  `Aggregation.QuarterGroupDates`, `Aggregation.QuarterlyRollsUpToYearly` and
  the Quarterly level of the `Trends` tables describe the corrected assembly.
  Home's Quarterly chart, which uses `to_period('Q')`, is unaffected.
- The pandas Timestamp year range is not modelled. In the model only a month
  outside 1..12 makes the loaders' date parse fail.
- DateAssembly.Assemble: pandas forms the number `year*10000 + month*100 + day`
  and parses it as `%Y%m%d`, so a month or day that carries into a valid date
  loads there (Year 2023, Month 101, DAY 1 gives 2024-01-01, and Month -88
  gives 2022-12-01). The model treats every month outside 1..12 and every day
  outside its month as a failure. Records.Parsable and Records.LoadData follow
  the model, so for such a record they give an empty table where pandas loads
  the rows with the carried date. WARIS months are 1..12, so no real record
  carries.
- `Month_Name` is not modelled, because it is a display string.
- Records.Row carries `Quarter` and `Collection_Rate` on every page, although
  only the website and trends loaders add them.
- 1.Analytics.py is not part of this model. Its single zone-equality filter is
  the rule of `Filters.DrillDown`.
- streamlit_app.py has no query logic.
- `date_span` and `datetime.now()` footers are not modelled.
- Home.py:865 divides by the zone count without a guard. It can only be
  reached with at least one zone, because the `idxmax` calls before it raise on
  an empty table, so `Kpis.HomeInsights` returns `None` there.
- Student template overview totals: the sums are `StudentTemplate.SumOf`, and
  their values for the sample are not stated.

## Findings

| source | as written | input that shows it | evidently intended | confidence | as-written member | corrected member |
|---|---|---|---|---|---|---|
| Streamlit_Dashboard/Streamlit-Demo/Multi_page/Home.py:550-554 (also website_dashboard.py:423-427 and main_dashboard.py:231-235) | `revenue_growth` compares the TOTAL revenue of every filtered year with the second-latest year's revenue (`groupby('Year').sum().iloc[-2]`) | two rows with revenue 100, dated 2022 and 2023: shown as +100% | the latest year's revenue against the second-latest year's (here 0%) | not executed | Kpis.RevenueGrowth, Kpis.FlatRevenueShowsGrowth | Kpis.LatestYearGrowth, Kpis.LatestYearGrowthSign |
| Streamlit_Dashboard/Streamlit-Demo/website_dashboard.py:603 (also Multi_page/pages/2.trends.py:193) | `pd.to_datetime(agg_df[['Year', 'Quarter']].assign(Month=agg_df['Quarter']*3))` passes a `Quarter` column, which pandas does not take as a date unit, and no day column | any table with the Quarterly level selected, e.g. Year 2023, Quarter 1: pandas raises, so the page stops with an error | day 1 of month Quarter*3: 2023-03-01 | not executed | DateAssembly.QuarterDateAsWritten, DateAssembly.QuarterDateAlwaysRaises | DateAssembly.QuarterDate, DateAssembly.QuarterDateSpec, Aggregation.QuarterGroupAssembles |
