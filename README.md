# Bike-sharing dashboard: the data-shaping layer

A Streamlit page reports bike-rental counts from two pre-cleaned tables. The daily
table has one row per date. The hourly table has one row per (date, hour). On
every interaction the script does the following:

1. It narrows both tables to the inclusive date range picked in the sidebar.
2. It groups and sums counts per hour, per date (registered and casual) and per season.
3. It shows a headline metric: the total `count_cr` of the selected days that also lie in 2011-2012, written with dots as thousands separators.
4. It ranks the seasons and the hours of the whole, unfiltered tables for its bar charts.

This project models that pass as pure Dafny functions over sequences of typed
rows, and proves what the source promises about each step.

- `Dates`: a date is a (year, month, day) triple, ordered lexicographically, which is chronological order.
- `Tables`: the two row types, and the inclusive range query (`Filter`).
- `Grouping`: `groupby(key)[val].sum()` as `GroupSum`, with `SumOf` for `.sum()`.
- `Ranking`: `sort_values` on the total column (`SortByTotal`) and `head(k)` (`Take`, `TopK`).
- `Thousands`: `f"{n:,}".replace(",", ".")` as `FormatThousands`.
- `Dashboard`: `Render`, one run of the script. It returns a `View` with everything one run computes, plus the lemmas about each part of it.

The headline sums `main_df_day`, the range-filtered daily table, restricted to
2011-01-01..2012-12-31 (dashboard/dashboard.py:36). So it follows the selected
range, although its variable is named `day_df_count_2011`.
`Dashboard.HeadlineFollowsRange` works through two days with counts 100 and 150
and the one-day range 2011-01-01..2011-01-01: the headline there is 100.
The per-season table of the filtered hourly rows, `season_df` (line 40), is never
shown; the season chart groups the whole daily table `day_df` (lines 71-77), and
so does the model.

## Model

| member | source | states |
|---|---|---|
| `Dates.LeOrder` | dashboard/dashboard.py:31-32 | the date comparison of the queries is a total order: reflexive, antisymmetric, transitive and total |
| `Dates.InRangeBoth` | dashboard/dashboard.py:31-36 | a date is inside two inclusive ranges exactly when it is inside their intersection |
| `Tables.Filter` | dashboard/dashboard.py:31-32 | every kept row has `lo <= dteday <= hi`, both ends inclusive; no more rows than the input |
| `Tables.FilterCount` | dashboard/dashboard.py:31-32 | a row occurs in the result exactly as often as in the input when its date is in range, and never otherwise |
| `Tables.FilterMembers` | dashboard/dashboard.py:31-32 | a row is kept if and only if it is an input row whose date is in range |
| `Tables.FilterConcat` | dashboard/dashboard.py:31-32 | the query distributes over concatenation, so kept rows keep their relative order |
| `Tables.FilterTwice` | dashboard/dashboard.py:31-36 | querying the selected rows again for the 2011-2012 window equals one query on the intersection of the two ranges |
| `Tables.FilterNone` | dashboard/dashboard.py:31-32 | when no row's date is in range, the query selects nothing |
| `Grouping.AddTo` | dashboard/dashboard.py:35 | adding one row's amount keeps the key set (plus the new key), keeps keys distinct and raises the grand total by exactly that amount |
| `Grouping.SumOf` | dashboard/dashboard.py:49 | `.sum()` of non-negative counts is at least every row's own amount |
| `Grouping.SumWhere` | dashboard/dashboard.py:35 | the sum over the rows with one key is at most the sum over all rows, and 0 when no row has that key |
| `Grouping.Lookup` | dashboard/dashboard.py:35 | the total read for a key is at most the table's grand total, and 0 when the key has no entry |
| `Grouping.Totals` | dashboard/dashboard.py:35 | the grand total of a grouped table is at least every entry's total |
| `Grouping.AddToLookup` | dashboard/dashboard.py:35 | adding to one key changes that key's total by the amount and no other key's total |
| `Grouping.GroupSum` | dashboard/dashboard.py:35 | the grouped table has every key at most once and no more entries than rows |
| `Grouping.GroupSumKeys` | dashboard/dashboard.py:72-73 | the keys of the grouped table are exactly the keys occurring in the rows |
| `Grouping.GroupSumTotals` | dashboard/dashboard.py:115 | the total recorded for any key is the sum of the value over the rows with that key (0 for an absent key) |
| `Grouping.GroupSumEntries` | dashboard/dashboard.py:115 | every entry's total is the sum of the value over the rows with its key |
| `Grouping.GroupSumConserves` | dashboard/dashboard.py:35 | the entries' totals add up to the sum of the value over all grouped rows |
| `Grouping.GroupSumPassThrough` | dashboard/dashboard.py:37-38 | when no key repeats, the grouped table is the rows' (key, value) pairs in row order |
| `Grouping.GroupSumBounded` | dashboard/dashboard.py:35 | grouping on a key below n yields at most n entries |
| `Ranking.SortByTotal` | dashboard/dashboard.py:74 | the result is ordered by total (non-increasing or non-decreasing) and is a permutation of the input |
| `Ranking.Insert` | dashboard/dashboard.py:132 | inserting into an ordered table keeps it ordered and adds exactly that entry |
| `Ranking.Take` | dashboard/dashboard.py:76 | `head(k)` is the prefix of length min(k, size) |
| `Ranking.TopK` | dashboard/dashboard.py:74-76 | min(k, size) entries, ordered by total, a sub-multiset of the input, each ranked at least as high as every entry left out |
| `Ranking.PrefixFirst` | dashboard/dashboard.py:120 | in an ordered table, every entry of a prefix ranks at least as high as everything after it, and what is after it is exactly what the prefix leaves over |
| `Ranking.DistinctKept` | dashboard/dashboard.py:120 | keeping entries of a table with distinct keys can repeat no key |
| `Ranking.KeptGroups` | dashboard/dashboard.py:115-120 | entries kept from a grouped table have distinct keys and each total is the sum over its key's rows |
| `Ranking.TopGroups` | dashboard/dashboard.py:71-77 | the best k entries of a grouped table have one entry per key, each total the sum of the value over that key's rows |
| `Thousands.Digits` | dashboard/dashboard.py:50 | the decimal digits of n: non-empty and digits only |
| `Thousands.FormatThousands` | dashboard/dashboard.py:50 | the displayed number is non-empty and made of digits and dots only |
| `Thousands.DigitsValue` | dashboard/dashboard.py:50 | the digits read back as n and have no leading zero |
| `Thousands.DigitsSplit` | dashboard/dashboard.py:50 | from 1000 on, the digits are those of n / 1000 followed by the zero-padded last three |
| `Thousands.FormatDigits` | dashboard/dashboard.py:50 | removing the dots from the formatted number gives exactly the decimal digits of n |
| `Thousands.FormatRoundTrip` | dashboard/dashboard.py:50 | the formatted number without its dots is a digit string that reads back as n |
| `Thousands.FormatGrouped` | dashboard/dashboard.py:50 | from the right every fourth character is a dot and no other is; the first group has 1 to 3 digits and every later group exactly 3 |
| `Thousands.SmallHasNoDot` | dashboard/dashboard.py:50 | below 1000 the output is the bare digits, with no dot |
| `Thousands.LargeHasDot` | dashboard/dashboard.py:50 | from 1000 on the output has a dot |
| `Thousands.FormatExample` | dashboard/dashboard.py:50 | 1234567 is shown as "1.234.567" |
| `Dashboard.HourCountsCorrect` | dashboard/dashboard.py:35 | the per-hour table of the selected range has each occurring hour once, each total the sum of `count_cr` over that hour's selected rows, and the totals add up to the selected rows' total |
| `Dashboard.Render` | dashboard/dashboard.py:31-132 | one run: the headline is at most the total `count_cr` of all daily rows, the season chart has at most 10 entries and each hour chart at most 5, and no grouped table has more entries than rows |
| `Dashboard.Headline` | dashboard/dashboard.py:36-49 | the headline is at most the selected rows' total `count_cr`, and 0 when no selected day lies in 2011-2012 |
| `Dashboard.HourTotals` | dashboard/dashboard.py:35 | the per-hour table has each hour once, no more entries than rows, and its totals add up to the rows' total `count_cr` |
| `Dashboard.SeasonTotals` | dashboard/dashboard.py:72-73 | the per-season table has each season once, no more entries than rows, and its totals add up to the rows' total `count_cr` |
| `Dashboard.TopSeasons` | dashboard/dashboard.py:71-77 | at most 10 seasons, largest total first, no season twice |
| `Dashboard.HoursRanked` | dashboard/dashboard.py:115 | the per-hour totals of the whole hourly table, rearranged largest first |
| `Dashboard.MostRented` | dashboard/dashboard.py:120 | at most 5 hours, largest total first |
| `Dashboard.FewestRented` | dashboard/dashboard.py:132 | at most 5 hours, smallest total first |
| `Dashboard.FilterSumAtMost` | dashboard/dashboard.py:31-36 | a range query selects no more of an amount than the whole table holds |
| `Dashboard.HourCountsAtMost24` | dashboard/dashboard.py:35 | with hours 0..23 there are at most 24 hour entries |
| `Dashboard.HourScenario` | dashboard/dashboard.py:35 | two selected rows at hour 5 with counts 10 and 20 give the single entry 5 -> 30 |
| `Dashboard.DateSumsCorrect` | dashboard/dashboard.py:37-38 | per-date registered and casual sums of the selected days: each selected date has exactly one entry (key set equal to the selected dates, no date twice), each total the sum over that date's rows, conserving the totals |
| `Dashboard.DateSumsPassThrough` | dashboard/dashboard.py:37-38 | for a daily table in strictly ascending date order, the per-date sums are the selected rows' (date, registered) and (date, casual) pairs, in ascending date order as `groupby("dteday")` returns them |
| `Dashboard.FilterKeepsAscending` | dashboard/dashboard.py:31 | narrowing a table in strictly ascending date order keeps that order |
| `Dashboard.HeadlineIsWindowTotal` | dashboard/dashboard.py:36-49 | the headline is the total `count_cr` of the daily rows inside both the selected range and 2011-01-01..2012-12-31 |
| `Dashboard.HeadlineMonotone` | dashboard/dashboard.py:31-49 | narrowing the selected range never increases the headline |
| `Dashboard.NarrowerSumsLess` | dashboard/dashboard.py:36-49 | a sub-range selects no more `count_cr` than the range it lies in |
| `Dashboard.HeadlineFollowsRange` | dashboard/dashboard.py:31-50 | for daily counts 100 and 150 and the range 2011-01-01..2011-01-01 one row is selected and the headline is 100, shown as "100" |
| `Dashboard.HeadlineLabel` | dashboard/dashboard.py:49-50 | the displayed headline is dot-grouped, its digits are those of the metric, and it reads back as the metric |
| `Dashboard.TopSeasonsCorrect` | dashboard/dashboard.py:71-77 | at most 10 seasons (min(10, seasons present)), non-increasing totals, no season twice, each total the season's sum over the whole daily table, each shown season at least every season left out |
| `Dashboard.MostRentedCorrect` | dashboard/dashboard.py:115-120 | at most 5 hours (min(5, hours present)), non-increasing totals, no hour twice, each total the hour's sum over the whole hourly table, each shown hour at least every hour left out |
| `Dashboard.FewestRentedCorrect` | dashboard/dashboard.py:132 | at most 5 hours (min(5, hours present)), non-decreasing totals, no hour twice, each total the hour's sum over the whole hourly table, each shown hour at most every hour left out |
| `Dashboard.RankingsIgnoreRange` | dashboard/dashboard.py:71-132 | the season and hour rankings do not depend on the selected range |

## Left out

- CSV loading and datetime parsing (lines 11-16) are file I/O and library parsing. Rows are given as typed records, and dates as (year, month, day) triples that are assumed to be real calendar dates.
- The sidebar date picker (lines 19-28) is UI. The model leaves it out: its bounds at the table's min and max dates, and the failure of its tuple unpack when only one date is picked. The range is a free parameter of `Render`, and an empty or inverted range gives empty selections.
- The Streamlit layout, `st.metric` and `st.pyplot`, are UI. So is all matplotlib and seaborn plotting (palettes, labels, ticks, `invert_xaxis`). The order the model gives each chart is the order of its data.
- `format_func` (lines 92-98) is the axis-tick formatter, and it works in floating point.
- The per-hour table sorted by hour (line 39) and the per-season table of the filtered hourly rows (line 40) are overwritten or never shown.
- Key order of the grouped tables: pandas returns groups in ascending key order, while `GroupSum` keeps keys in the order they first occur. The two agree when the rows are already in ascending key order, as the daily table is by date. The per-hour table of line 35 feeds only the overwritten line 39, and the per-date tables of lines 37-38 are not shown, so their order is not modelled beyond that case. In the ranked charts the key order survives only as the tie order after `sort_values`, which pandas' default sort does not fix either; `SortByTotal` is stable, and the ranking contracts hold for any tie order.
- Grouping.GroupSumPassThrough: states row (first-appearance) order, which is pandas' ascending key order only when the rows are already ascending in their key; `Dashboard.DateSumsPassThrough` requires exactly that of the daily table.
- pandas mechanics (`reset_index`, `rename`, categorical `observed=True`) are only modelled through the tables they produce.
- `count_cr` is `nat`. The 64-bit integer range of the summed column is not modelled, by design.
- Whether a daily total equals registered plus casual is not modelled, and neither is whether hourly sums match daily totals. The script never checks either.
