# Fever syndromic surveillance dashboard, modelled in Dafny

This project models the data pipeline behind the two Streamlit dashboards of
the fever surveillance repository. The charts and widgets are not modelled;
the tables they draw are.

`Dash.py` reads a line-list of fever cases, one record per patient. It then:

- narrows the records to a country and a date range;
- sums a 0/1 disease indicator column per day, week, month, quarter or year;
- computes the KPI cards: total cases, the peak period, and the male and
  female percentages of the cases;
- flags the periods whose count exceeds the mean plus two sample standard
  deviations;
- derives the cumulative curve, the five-disease monthly comparison, the age
  groups, the symptom counts, the month-of-year seasonality and the subset
  offered for download.

`app.py` is a smaller dashboard. It recodes the `sexe` column from 1/2 to
Male/Female and filters the records by date. It then groups them by day, week
or month and shows the gender distribution of the cases as percentage shares.
The model computes the shares as exact quotients, and over exact numbers they
add up to 100.

Everything is a pure function over immutable values, with lemmas about it.
Column assignments such as `cases["age_group"] = ...` and
`df_f["month"] = ...` only add a derived column for one chart, so each
becomes a function of the table.

The modules, in dependency order:

| module | file | purpose |
|---|---|---|
| `Wrappers` | wrappers.dfy | `Option`, used for missing values. |
| `Calendar` | calendar.dfy | Proleptic Gregorian dates and day numbers. |
| `Dataset` | dataset.dfy | A record, plus reference sums over records. |
| `Masking` | masking.dfy | A boolean mask `df[mask]`: order-preserving selection. |
| `TimeSeries` | timeseries.dfy | Period-keyed series and the sorted insertion that builds them. |
| `Aggregate` | aggregate.dfy | `group_data`, the comparison table and seasonality. |
| `Filter` | filter.dfy | The sidebar's date range and `filter_data`. |
| `Kpis` | kpis.dfy | `compute_kpis`. |
| `Alerting` | alerts.dfy | The alert rule. |
| `Derived` | derived.dfy | The cumulative, age, symptom and download tables. |
| `App` | app.dfy | `app.py`. |

## Representation

**Dates.** A date is a valid `(year, month, day)`. It is represented by its
day number, the number of days since 0001-01-01, a Monday; this is Python's
`toordinal() - 1`.

**Period keys.** Each grouping gives a period an integer key, and the keys
sort in calendar order.

| period | key |
|---|---|
| day | the day number |
| week | `day number / 7` |
| month | `12 * year + month - 1` |
| quarter | `4 * year + (month - 1) / 3` |
| year | the year |

The weekly key matches pandas' weekly periods, which run Monday to Sunday.

**The grouped series.** It is a list of `(key, count)` entries with strictly
increasing keys. It is specified against `BucketSum`, which sums the column
over the dated records of one period.

**Missing values.** A cell that pandas would read as NaN is `None`.
- A missing date fails every date comparison.
- A missing indicator value adds 0 to a sum and is never `== 1`.

**Alert rule.** `c > mean + 2 * std`, with `std` taken with the n − 1
denominator, is decided over exact reals, without the square root, as
`c - mean > 0 && (c - mean)^2 > 4 * variance`. The standard deviation of
fewer than two periods is NaN, so such a series raises no alert.

## Model

| member | source | states |
|---|---|---|
| Calendar.DayNumberOrder | alerrt_fissa/notebooks/Dash.py:92-93 | Comparing day numbers is comparing dates: a smaller day number means an earlier date, and equal day numbers mean the same date. The `>=` and `<=` date tests therefore become integer tests. |
| Calendar.DayNumberIncreasing | alerrt_fissa/notebooks/Dash.py:92-93 | A date that comes earlier in the calendar has a smaller day number. |
| Calendar.KnownWeekdays | alerrt_fissa/notebooks/Dash.py:105 | Checks the day numbering against two known dates, 1970-01-01 (a Thursday) and 2024-01-01 (a Monday), so that a week matches pandas' Monday-to-Sunday weeks. |
| Filter.DateRange | alerrt_fissa/notebooks/Dash.py:79-84 | The range the sidebar hands on: none exactly when nothing is picked. Otherwise the lower bound is the first picked date. A single picked date d gives `[d, d]`, and two or more give the second as the upper bound. |
| Filter.SingleDateSelection | alerrt_fissa/notebooks/Dash.py:83-84 | Picking a single date d keeps exactly the records dated d (and, unless "All", of the chosen country). |
| Filter.FilterData | alerrt_fissa/notebooks/Dash.py:91-96 | Keeps a record exactly when it has a date in [lo, hi] and, unless the country is "All", that country. Every kept record keeps its multiplicity, and the records stay in their original order. |
| Filter.FilterIsOneMask | alerrt_fissa/notebooks/Dash.py:91-96 | The date mask followed by the country mask is one mask with the combined condition `Selected`. |
| Filter.FilterIdempotent | alerrt_fissa/notebooks/Dash.py:91-96 | Filtering the filtered table again with the same choices changes nothing. |
| Masking.Where | alerrt_fissa/notebooks/Dash.py:91-96 | `df[mask]` keeps exactly the elements the mask accepts, never more often than they occur, and keeps them in order. |
| Masking.WhereCommute | alerrt_fissa/notebooks/Dash.py:288-295 | Two masks applied one after the other give the same table in either order. |
| Masking.WhereWhere | alerrt_fissa/notebooks/Dash.py:91-96 | Two masks applied one after the other are one mask with both conditions. |
| Masking.WhereIdempotent | alerrt_fissa/notebooks/Dash.py:91-96 | Applying the same mask twice gives the same result as applying it once. |
| Masking.WhereCount | alerrt_fissa/notebooks/Dash.py:91-96 | An accepted element keeps its count of occurrences, and a rejected one has none. |
| TimeSeries.AddTo | alerrt_fissa/notebooks/Dash.py:101-113 | Adding a record's value to its period keeps the keys strictly increasing. |
| TimeSeries.AddToLookup | alerrt_fissa/notebooks/Dash.py:101-113 | Adding v to period k raises period k by v and leaves every other period unchanged. |
| TimeSeries.AddToTotal | alerrt_fissa/notebooks/Dash.py:101-113 | Adding v to any period raises the series total by exactly v. |
| Aggregate.BucketKey | alerrt_fissa/notebooks/Dash.py:102-111 | A week key k covers the day numbers 7k to 7k + 6. A month key decodes to its year and month (key / 12 and key % 12 + 1), and a quarter key to its year and quarter (key / 4 and key % 4). |
| Aggregate.BucketKeyMeaning | alerrt_fissa/notebooks/Dash.py:102-111 | Two dates share a key exactly when they share the period: the same day, the same Monday-to-Sunday week, the same month, the same quarter or the same year. |
| Aggregate.WeekBounds | alerrt_fissa/notebooks/Dash.py:105 | A week key covers the seven days from a Monday, the date's day number minus its weekday, through the following Sunday. |
| Aggregate.BucketKeyMonotone | alerrt_fissa/notebooks/Dash.py:102-111 | A later date never gets a smaller period key. |
| Aggregate.BucketKeyOrder | alerrt_fissa/notebooks/Dash.py:102-112 | A smaller key means an earlier calendar period, so the sorted index is chronological. |
| Aggregate.GroupBy | alerrt_fissa/notebooks/Dash.py:101-113 | The grouped series has strictly increasing keys. A key is present exactly when some dated record falls in that period. Each period's count is the column sum over that period's records, and the series total is the sum over all dated records. |
| Aggregate.GroupData | alerrt_fissa/notebooks/Dash.py:101-113 | The same facts for each of the five granularities, stated entry by entry. |
| Aggregate.GroupedChronological | alerrt_fissa/notebooks/Dash.py:101-113 | Entries of the grouped series appear in calendar order of their periods. |
| Aggregate.DatedRowHasOneEntry | alerrt_fissa/notebooks/Dash.py:101-113 | Every dated record's period has exactly one entry. |
| Aggregate.GroupedEmptyIffNoDates | alerrt_fissa/notebooks/Dash.py:101-113 | The grouped series is empty exactly when no record has a date. |
| Aggregate.GroupByKeysIndependent | alerrt_fissa/notebooks/Dash.py:241-244 | Grouping different columns of the same records gives the same periods. |
| Aggregate.Compare | alerrt_fissa/notebooks/Dash.py:241-244 | The comparison has one row per occupied month, in month order, with five cells per row. Each cell is that disease's sum over the month. |
| Aggregate.CompareAlignsWithTrend | alerrt_fissa/notebooks/Dash.py:241-244 | Row i, column j of the comparison is entry i of disease j's own monthly series. |
| Aggregate.Seasonality | alerrt_fissa/notebooks/Dash.py:273-274 | The seasonality table has at most twelve entries, keyed 1 to 12 in increasing order. A month of the year has an entry exactly when some dated record falls in it. Each entry is the sum over the records of that calendar month, and the entries add up to the dated total. |
| Aggregate.MonthOfYear | alerrt_fissa/notebooks/Dash.py:273 | `dt.month` lies in 1..12 and is the month that the date's monthly period key encodes. |
| Aggregate.AtMostTwelve | alerrt_fissa/notebooks/Dash.py:273-274 | Strictly increasing keys within 1 to 12 number at most twelve. |
| Kpis.PeakIndex | alerrt_fissa/notebooks/Dash.py:120 | The index of the first maximum, as `idxmax` returns it: no count exceeds it, and every earlier count is strictly smaller. |
| Kpis.Peak | alerrt_fissa/notebooks/Dash.py:120 | The peak is "N/A" exactly when the series is empty; otherwise it is the key of an existing period. |
| Kpis.PeakIsFirstMaximum | alerrt_fissa/notebooks/Dash.py:120 | Any period that is a maximum with every earlier count smaller is the reported peak. |
| Kpis.Percent | alerrt_fissa/notebooks/Dash.py:125-126 | The percentage lies in 0..100 and is 0 when the total is 0. Otherwise it is the floor of 100 · part / whole. |
| Kpis.PercentPair | alerrt_fissa/notebooks/Dash.py:122-126 | The male and female percentages add up to at most 100, and, when either count is nonzero, to at least 99. |
| Dataset.GenderCount | alerrt_fissa/notebooks/Dash.py:122-123 | `value_counts().get(g, 0)`: at most one per record. |
| Dataset.GenderCountIsMultiplicity | alerrt_fissa/notebooks/Dash.py:122-123 | The count for g is how often g occurs in the gender column, and it is 0 exactly when g does not occur there. |
| Kpis.GenderSplit | alerrt_fissa/notebooks/Dash.py:122-124 | Men plus women never exceed the records with a known gender, which never exceed all records. |
| Kpis.Cases | alerrt_fissa/notebooks/Dash.py:121 | The case table keeps exactly the records whose indicator equals 1, each as often as it occurs in the input, in their original order. |
| Kpis.KpisOfCases | alerrt_fissa/notebooks/Dash.py:119-127 | Given the case table, the total is the grouped total (0 with "N/A" peak for an empty series), and the peak is otherwise the first maximum. The percentages are the floored shares of men and women among the cases whose gender is Male or Female, within 0..100, summing to 0 with no such case and to 99 or 100 otherwise. |
| Kpis.GenderPercents | alerrt_fissa/notebooks/Dash.py:124-126 | The two floored percentages of m men and f women: each in 0..100, both 0 when m + f is 0, and summing to 99 or 100 otherwise. |
| Kpis.ComputeKpis | alerrt_fissa/notebooks/Dash.py:118-127 | The total is the grouped total, and 0 with "N/A" peak when the series is empty. Otherwise the peak is the key of the first maximum (`PeakIndex`). The case table is `Cases` of the filtered records. Each percentage is `Percent` of its gender's case count over men plus women, so both lie in 0..100 with sum at most 100. Both are 0 when no case has a gender, and they sum to at least 99 otherwise. |
| Alerting.Mean | alerrt_fissa/notebooks/Dash.py:190 | The baseline `grouped.mean()` is the mean: times the number of periods it gives the sum of the counts. |
| Alerting.SumCountsIsTotal | alerrt_fissa/notebooks/Dash.py:190 | The counts the baseline averages add up to the series total `grouped.sum()`. |
| Alerting.BaselineIsDatedMean | alerrt_fissa/notebooks/Dash.py:190 | For the grouped series of any granularity, the number of periods times the baseline is the disease column summed over the dated records, which is the "Total cases" KPI. |
| Alerting.SampleVariance | alerrt_fissa/notebooks/Dash.py:191 | The square of `grouped.std()`: times n − 1 it is the sum of squared deviations from the mean, and it is never negative. |
| Alerting.AboveThreshold | alerrt_fissa/notebooks/Dash.py:191-194 | The test `count > threshold`. It never holds below two periods, where the threshold is NaN. A count that passes is above the mean. From two periods on it holds exactly when the count is above the mean and (n − 1) · (c − mean)² > 4 · Σ(x − mean)². |
| Alerting.ThresholdIsTwoSigma | alerrt_fissa/notebooks/Dash.py:191-194 | For sigma the non-negative square root of the sample variance, the test `AboveThreshold` holds exactly when `c > mean + 2 * sigma`. |
| Alerting.Alerts | alerrt_fissa/notebooks/Dash.py:190-194 | A period is flagged exactly when its count exceeds the threshold, and a flagged entry keeps its multiplicity. The flags come in series order, and every flagged count is above the mean. |
| Alerting.NoAlertsBelowTwoPeriods | alerrt_fissa/notebooks/Dash.py:190-194 | With fewer than two periods the standard deviation is NaN, so nothing is flagged. |
| Alerting.NoAlertsWhenFlat | alerrt_fissa/notebooks/Dash.py:190-194 | A series whose counts are all equal raises no alert. |
| Alerting.SomePeriodNotAlert | alerrt_fissa/notebooks/Dash.py:190-194 | The smallest count is never flagged, so a non-empty series is never all alerts. |
| Alerting.CauchySchwarz | alerrt_fissa/notebooks/Dash.py:190-191 | The Cauchy–Schwarz bound `(Σy)^2 <= n · Σy^2`, proved step by step. |
| Alerting.Samuelson | alerrt_fissa/notebooks/Dash.py:190-191 | Samuelson's inequality: for every count c, `n · (c − mean)^2 <= (n − 1) · Σ(x − mean)^2`. |
| Alerting.NoAlertUpToFivePeriods | alerrt_fissa/notebooks/Dash.py:190-194 | With two to five periods no count can exceed mean + 2σ. |
| Alerting.NoAlertsUpToFivePeriods | alerrt_fissa/notebooks/Dash.py:190-194 | A series of at most five periods raises no alert. For example, counts 1, 1, 1, 1, 10 raise none. |
| Alerting.SixPeriodsCanAlert | alerrt_fissa/notebooks/Dash.py:190-194 | The five-period bound is tight: counts 0, 0, 0, 0, 0, 1 flag exactly the last period. |
| Alerting.OutbreakIsFlagged | alerrt_fissa/notebooks/Dash.py:190-194 | Counts 1, 1, 1, 1, 1, 1, 100 flag exactly the 100. |
| Alerting.OnlyLastFlagged | alerrt_fissa/notebooks/Dash.py:194 | When only the last period passes the test, the alert table is that one period. |
| Derived.CumSum | alerrt_fissa/notebooks/Dash.py:220 | The cumulative series keeps every period and its key. Entry i is the total of entries 0..i. |
| Derived.CumSumStep | alerrt_fissa/notebooks/Dash.py:220 | Each cumulative value is the previous one plus the period's own count. |
| Derived.CumSumFirst | alerrt_fissa/notebooks/Dash.py:220 | The first cumulative value is the first count. |
| Derived.CumSumMonotone | alerrt_fissa/notebooks/Dash.py:220 | With non-negative counts the cumulative curve never decreases. |
| Derived.CumulativeEndsAtTotal | alerrt_fissa/notebooks/Dash.py:220 | The curve ends at the sum of the disease column over the dated records, which is the "Total cases" KPI. |
| Derived.AgeGroup | alerrt_fissa/notebooks/Dash.py:253 | `pd.cut` with right-closed bins (0,5], (5,15], (15,50], (50,120]. An age gets a group exactly when it is present and in (0, 120], and the group is one of the four labels. |
| Derived.AgeGroupMonotone | alerrt_fissa/notebooks/Dash.py:253 | An older case never falls in a younger group. |
| Derived.AgeBinLabelMismatch | alerrt_fissa/notebooks/Dash.py:253 | As written, age 0 gets no group, age 5 is "<5", age 15 is "5–14" and age 50 is "15–49". |
| Derived.AgeGroupMatchesLabelsAsWritten | alerrt_fissa/notebooks/Dash.py:253 | As written, over the whole ages 0..120: 0 gets no group, "<5" is 1–5, "5–14" is 6–15, "15–49" is 16–50 and "50+" is 51–120. |
| Derived.IntendedAgeGroup | alerrt_fissa/notebooks/Dash.py:253 | The grouping the labels describe: left-closed bins [0,5), [5,15), [15,50), [50,120]. An age gets a group exactly when it is in [0, 120]. |
| Derived.IntendedAgeGroupMatchesLabels | alerrt_fissa/notebooks/Dash.py:253 | Under the intended bins every whole age 0..120 falls in the group its label names: "<5" is 0–4, "5–14" is 5–14, "15–49" is 15–49 and "50+" is 50 and over. |
| Derived.AgeGroupCounts | alerrt_fissa/notebooks/Dash.py:253-255 | One entry per label, in label order, holding the number of cases `AgeGroup` puts under that label. Each count is at most the number of cases, and the four add up to the cases that get a group. |
| Derived.GroupsPartition | alerrt_fissa/notebooks/Dash.py:253-255 | The four group counts add up to the number of cases that receive a group. |
| Derived.AgeGroupsCoverAgedCases | alerrt_fissa/notebooks/Dash.py:253-255 | The chart counts exactly the cases with an age in (0, 120]. |
| Derived.IntendedGroupsCoverAgedCases | alerrt_fissa/notebooks/Dash.py:253-255 | Under the intended bins the chart would count exactly the cases with an age in [0, 120]. |
| Derived.SymptomColumns | alerrt_fissa/notebooks/Dash.py:262 | Keeps exactly the columns whose names start with `sym_`, in table order. |
| Derived.SymptomCounts | alerrt_fissa/notebooks/Dash.py:262-266 | One entry per symptom column, in order, holding that column's sum over the cases. |
| Derived.FlagSumCountsFlagged | alerrt_fissa/notebooks/Dash.py:264-266 | On a 0/1 column the sum is the number of rows flagged 1, so it lies between 0 and the number of cases. |
| Derived.DownloadSubset | alerrt_fissa/notebooks/Dash.py:288-295 | The download holds exactly the records that pass the country and date selection and are cases of the disease. |
| Derived.DownloadIsCases | alerrt_fissa/notebooks/Dash.py:288-295 | Country mask, date mask, then `== 1`, taken on the full table, give the same table in the same order as the case table of the filtered data. |
| Derived.EmptySeriesKpis | alerrt_fissa/notebooks/Dash.py:118-127 | When the grouped series of the filtered table is empty, compute_kpis gives total 0, peak "N/A" and both percentages 0: every filtered record has a date, so no case remains. |
| Derived.DownloadMatchesKpiCases | alerrt_fissa/notebooks/Dash.py:288-295 | The download equals the `cases` table that `compute_kpis` returns. |
| App.MapSexe | alerrt_fissa/notebooks/app.py:97 | Code 1 becomes "Male", code 2 becomes "Female", and every other code, or a missing one, becomes missing. |
| App.RecodeSexe | alerrt_fissa/notebooks/app.py:97 | Every record is recoded in place of the original, with nothing else changed. |
| App.RecodedGenders | alerrt_fissa/notebooks/app.py:97 | After recoding, every gender is "Male", "Female" or missing. |
| App.AppDateRange | alerrt_fissa/notebooks/app.py:119 | The first two picked dates, or no range when fewer than two are picked. |
| App.AppDateRangeAgrees | alerrt_fissa/notebooks/app.py:119 | With two or more dates both dashboards take the same range. With exactly one, only `Dash.py` has a range. |
| App.FilterByDate | alerrt_fissa/notebooks/app.py:120 | Keeps exactly the records dated within [start, end], in order. This is `Dash.py`'s `filter_data` with country "All". |
| App.Level | alerrt_fissa/notebooks/app.py:123-128 | The `if freq == ...` chain: "Daily", "Weekly" and "Monthly" pick the day, week and month grouping, one to one. |
| App.AppGroup | alerrt_fissa/notebooks/app.py:123-128 | The daily, weekly or monthly grouping: sorted keys, a period present exactly when some filtered record falls in it, per-period sums, and the dated total. |
| App.GroupedTotalIsColumnTotal | alerrt_fissa/notebooks/app.py:120-128 | Every record the date filter keeps has a date, so the grouped counts add up to the disease column total of the filtered table. |
| App.NoDataIffNoRows | alerrt_fissa/notebooks/app.py:133 | The "No data available" branch is taken exactly when no record is in the date range. |
| App.AppCasesCoded | alerrt_fissa/notebooks/app.py:153 | The case table app.py builds, after recoding, the date filter and `== 1`, holds only "Male", "Female" or missing genders, so the share lemmas apply to it. |
| App.AppSharesAddUp | alerrt_fissa/notebooks/app.py:153-157 | On that case table, once any case has a known gender, the male and female shares add up to 100 over exact numbers. |
| App.Share | alerrt_fissa/notebooks/app.py:157 | The share s of count among known is the percentage: s · known = 100 · count, with s in [0, 100] and positive when count is. |
| App.SharesOf | alerrt_fissa/notebooks/app.py:157 | The normalised counts of men and women: a gender has an entry exactly when its count is positive, and that entry is its share of men plus women, in (0, 100]. |
| App.GenderShares | alerrt_fissa/notebooks/app.py:157 | Has one entry for each gender that occurs among the cases. Each entry g is `count(g) · 100 / known`, the base `known` leaving out missing genders, and lies in (0, 100]. |
| App.CodedKnown | alerrt_fissa/notebooks/app.py:157 | After recoding, the cases with a known gender are the men plus the women. |
| App.SharesAddUp | alerrt_fissa/notebooks/app.py:157 | When any case has a known gender, the male and female shares, taken as exact quotients, add up to 100. |
| App.NoSharesWithoutGender | alerrt_fissa/notebooks/app.py:157 | With no known gender the distribution is empty. |
| App.DashPercentIsFlooredShare | alerrt_fissa/notebooks/app.py:157 | `Dash.py`'s integer male percentage is `app.py`'s male share with the fraction cut off. |

## Left out

- **Not modelled:**
  - The Streamlit widgets, the page layout and every chart.
  - The download buttons and the CSV encoding they use.
  - `load_data`'s `.env` lookup and its caching.
- **Loading is not modelled.** The model starts from records in which
  unparsable dates and numbers are already missing. For `Dash.py` this is
  what `errors="coerce"` gives. `app.py` reads the dates with
  `parse_dates=["date_inc"]` and no coercion: a date it cannot parse leaves
  the column as text, and the comparison at app.py:120 then fails. The model
  treats such a date as missing instead.
- **Defaults and choices.** The date-picker defaults `[min, max]` are not
  modelled. Neither is the list of countries offered: the country, the
  disease column and the dates are parameters.
- **Time of day.** Dates carry no time. A `date_inclusion` with a time
  later than midnight on the end date would be dropped by the source's
  `<= pd.to_datetime(end)`. The model keeps it.
- **The pandas Timestamp range** (years 1677 to 2262) is not modelled.
- **Period labels** such as `"2024-01-01/2024-01-07"` are not modelled:
  - `g.index.astype(str)` only renders the key;
  - the model keeps integer period keys, which sort in the same order.
- Kpis.Percent: the percentage is the exact floor of 100·part/whole. The
  source computes `int(male / tot * 100)` in floating point, which can be one
  lower: 29 of 100 gives 28.
- App.SharesAddUp: the shares are exact quotients. The source divides in
  floating point (`value_counts(normalize=True) * 100`), so its sum can miss
  100 by rounding: one man and two women give 99.99999999999999.
- App.AppSharesAddUp: the same gap. On app.py's case table the shares add up
  to 100 as exact quotients; the source's float64 shares can miss 100 by
  rounding.
- App.Share: the share is the exact quotient `count · 100 / known`; the
  source's float64 division rounds it.
- App.GenderShares: each entry is an exact quotient; the source's entries are
  float64 values rounded from it.
- Alerting.AboveThreshold: the test is made on exact reals. The source
  compares a float against `mean + 2 * std`, with a floating square root and
  rounding.
- **Not modelled from the statistics and data-quality tabs:**
  - the descriptive statistics (median, min, max, observations);
  - the KPI delta `total - grouped.mean()`;
  - the percentage of missing values per column.
  None of them feeds any other table.
- **Order of the charted counts.** `value_counts()` orders the age groups
  and genders by count for display. The model gives the counts in label
  order.
- **Non-integer indicators.** Indicator and symptom values are whole numbers
  or missing. A fractional value that `pd.to_numeric` would keep as a float
  is not modelled.
- **Absent columns.** A column absent from a record reads as missing. In
  pandas an absent column raises `KeyError`. The dashboard's schema is
  fixed, so this does not arise.
- **The commented-out copy** at app.py:1-85 is not modelled. It duplicates
  the live script below it.
- **Gender bar chart.** When every case has a missing `sexe`, the cases pass
  the `cases.empty` check at app.py:154 and `value_counts(normalize=True)`
  leaves an empty distribution. The source then fails at app.py:163:
  `set_ylim(0, NaN)` raises an error and no chart is drawn. The model gives
  the empty distribution (`App.NoSharesWithoutGender`) where the source
  raises.
- **tuberculosis/src/clean.py** is not part of this model.

## Findings

| source | as written | input that shows it | evidently intended | confidence | as-written member | corrected member |
|---|---|---|---|---|---|---|
| alerrt_fissa/notebooks/Dash.py:253 | `pd.cut(age, [0, 5, 15, 50, 120])` uses right-closed bins (0,5], (5,15], (15,50], (50,120] under the labels "<5", "5–14", "15–49", "50+" | age 0 gets no group; age 5 is counted as "<5"; age 15 as "5–14"; age 50 as "15–49" | left-closed bins [0,5), [5,15), [15,50) with a last bin [50,120] that keeps 120, so each whole age 0 to 120 falls in the group its label names and newborns are counted under "<5". `right=False` alone would leave age 120 without a group; a last edge above 120 avoids that | medium, not executed | Derived.AgeGroupMatchesLabelsAsWritten | Derived.IntendedAgeGroup |

The age-group chart is still modelled as written: `AgeGroupCounts` uses
`AgeGroup`, because that is what the dashboard displays.
`IntendedGroupsCoverAgedCases` states the counts that the corrected bins
would give.
