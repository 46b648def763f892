# Daily weather analysis — a Dafny model

`main.py` is a batch script that loads a daily weather CSV, cleans it and
summarises it. This project models that pipeline on values:

- **Loading** (`loading.dfy`). The raw table is a header plus rows of cells.
  A stray leading index column is dropped. `DATE` and `precip` are renamed.
  Only `date`, `temp`, `rainfall` and `humidity` are kept. Each failure the
  script can hit is an error value: no header, a missing column, an
  unparsable date, or a non-numeric reading.
- **Records** (`records.dfy`). A record is one day: a date and three
  readings. A missing reading (pandas' NaN) is `None`.
- **Statistics** (`stats.dfy`). These are pandas' NaN-skipping mean, median,
  max, min and sum.
- **Cleaning** (`cleaning.dfy`, `sorting.dfy`). Missing temperatures take
  the column mean and missing humidities the column median. Both are
  computed once, from the loaded column. Missing rainfall becomes 0. The
  table is then sorted by date.
- **Seasons** (`seasons.dfy`). This is `get_season`, which maps a month to
  one of four Indian-style seasons.
- **Grouping** (`grouping.dfy`). The month and season keys are added. The
  rows are grouped by month, season, (year, month) and year. Each group is
  reduced to a summary. The keys are dropped again for export.
- **The run** (`pipeline.dfy`). All stages run in the script's order,
  together with the NumPy whole-column statistics.

The properties proved:

- the classification table of `get_season`;
- imputation keeps present values, fills missing ones with the statistic of
  the loaded column, is idempotent, and keeps the temperature mean and the
  rainfall total;
- the date sort returns a sorted permutation;
- every grouping is a partition: each row is in exactly one bucket, bucket
  sizes add up to the row count, and group rainfall sums add up to the
  table's total;
- each group's temp mean lies between its minimum and maximum, and a
  column's mean and median lie between its minimum and maximum;
- export gives back exactly the cleaned table.

Two behaviours of the code worth knowing:

- An all-NaN temp or humidity column raises nothing: pandas' mean or median
  of it is NaN, and `fillna(NaN)` is a no-op, so the column stays missing
  (`Cleaning.ImputeCompleteIff`).
- `sort_values` defaults to quicksort, which is not stable, so only "sorted
  and a permutation" is promised (`Cleaning.SortByDate`).

## Model

| member | source | states |
|---|---|---|
| Seasons.GetSeason | main.py:127-135 | the result is one of the four labels; Winter exactly for months 12, 1, 2; Summer exactly for 3-5; Monsoon exactly for 6-9; Post-Monsoon exactly for every other integer |
| Seasons.SeasonTable | main.py:127-135 | the months mapped to each label are exactly {12,1,2}, {3,4,5}, {6,7,8,9} and {10,11} |
| Loading.IsIndexColumnName | main.py:11 | a header names a stray index column exactly when it is empty, or its first seven characters spell "unnamed" in any mix of cases |
| Loading.LoweredPrefixIff | main.py:11 | the lowered first seven characters are "unnamed" exactly when each is that letter in lower or upper case |
| Loading.DropIndexColumn | main.py:11-12 | fails exactly when there is no column; otherwise removes the first column from the header and from every row when its name is an index name, and leaves the table unchanged when it is not |
| Loading.Rename | main.py:23-26 | rows unchanged; DATE becomes date, precip becomes rainfall, every other header keeps its name and position |
| Loading.Absent | main.py:32-33 | lists exactly the kept columns missing from the header |
| Loading.Project | main.py:29-33 | no date column gives MissingColumn("date"); with a date column but absent kept columns, the error is an unparsable date or MissingColumns naming exactly the absent ones; success yields one record per row holding that row's date and reading cells |
| Loading.SelectReadings | main.py:33 | success yields one record per row whose date and readings are that row's cells of the kept columns |
| Loading.ProjectSucceedsIff | main.py:29-33 | projection succeeds exactly when all four kept columns exist, every date cell is a date and every reading is numeric or blank |
| Loading.LoadTable | main.py:8-33 | a header-less table fails with NoColumns; a successful load has one record per data row, each holding that row's date, temp, rainfall and humidity cells of the table after the index column is dropped and the columns renamed |
| Loading.LoadTableSucceedsIff | main.py:11-33 | loading succeeds exactly when there is a header and the renamed table without its index column is well-typed |
| Stats.PresentMembers | main.py:36-37 | a value is among the skipped-NaN values exactly when some cell holds it |
| Stats.Mean | main.py:36 | the mean is NaN exactly when no value is present |
| Stats.Max | main.py:120 | NaN exactly when no value is present; otherwise a present value no smaller than any present value |
| Stats.Min | main.py:120 | NaN exactly when no value is present; otherwise a present value no larger than any present value |
| Stats.Median | main.py:37 | the median is NaN exactly when no value is present |
| Stats.TotalCountsMissingAsZero | main.py:56 | the NaN-skipping sum counts a missing cell as 0: the total is the first cell, or 0 when it is missing, plus the total of the rest |
| Stats.MeanBetweenMinAndMax | main.py:36 | the mean of a column with a value lies between its minimum and maximum |
| Stats.MedianBetweenMinAndMax | main.py:37 | the median of a column with a value lies between its minimum and maximum |
| Stats.SingleValueStatistics | main.py:36-37 | a column whose only present value is v has mean v and median v |
| Sorting.SortSorted | main.py:41 | under a total preorder the result is sorted |
| Sorting.SortPermutes | main.py:41 | the result has the input's elements with their multiplicities and its length |
| Cleaning.FillMissing | main.py:36-38 | same length; present cells unchanged, missing cells become the fill value |
| Cleaning.Impute | main.py:36-38 | same rows and dates; the temp column is filled with the mean of the loaded temps, humidity with the median of the loaded humidities, rainfall with 0 |
| Cleaning.ImputeCellwise | main.py:36-38 | every present reading is unchanged; a missing temp becomes the loaded mean, a missing humidity the loaded median, a missing rainfall 0 |
| Cleaning.ImputeTwoDays | main.py:36-38 | a two-day table with a blank second day gets the first day's temp and humidity and 0 rainfall |
| Cleaning.ImputeCompleteIff | main.py:36-38 | nothing is left missing exactly when the table is empty or both the temp and the humidity column had a value |
| Cleaning.ImputeIdempotent | main.py:36-38 | imputing twice gives the same table as imputing once |
| Cleaning.FillWithMeanKeepsMean | main.py:36 | filling a column with its own mean leaves its mean unchanged |
| Cleaning.ImputeKeepsTempMean | main.py:36 | when some temp was read, the temp mean after imputation is the mean before |
| Cleaning.ImputeRainfallTotal | main.py:38 | the rainfall total is unchanged, and the rainfall mean after imputation is that total over the row count |
| Cleaning.SortByDate | main.py:41 | the result is a permutation of the rows in non-decreasing date order |
| Grouping.AddKeys | main.py:117-137 | same rows in the same order, each tagged with its calendar month and the season GetSeason gives that month |
| Grouping.DropKeys | main.py:148 | one row out per keyed row, in order, each the keyed row without its month and season |
| Grouping.ExportDropsOnlyKeys | main.py:117-148 | dropping the added keys gives back exactly the table they were added to |
| Grouping.Summarize | main.py:119-123 | the temp mean, max and min are present together and exactly when some temp is; then min <= mean <= max; humidity mean present exactly when some humidity is; rainfall is the bucket's total; the temp mean, max and min are the bucket's NaN-skipping temp statistics and the humidity mean the bucket's humidity mean |
| Grouping.FilterMembers | main.py:119 | a row is in the bucket of k exactly when it is a row of the table whose key is k |
| Grouping.GroupBy | main.py:119-123 | one group per key that occurs and no other; each group is the summary of exactly the rows with that key; each group's temp mean lies between its min and max |
| Grouping.BucketsNonEmpty | main.py:119 | the bucket of every group key is non-empty |
| Grouping.PartitionSum | main.py:121 | over duplicate-free keys covering every row, the bucket sums add up to the table's sum |
| Grouping.PartitionRows | main.py:119 | over duplicate-free keys covering every row, the buckets together hold exactly the table's rows |
| Grouping.BucketCountsAddUp | main.py:119 | over duplicate-free keys covering every row, bucket sizes add up to the row count |
| Grouping.GroupRainfallAddsUp | main.py:119-123 | over duplicate-free group keys covering every row, the groups' rainfall sums add up to the table's rainfall total |
| Grouping.ByMonth | main.py:119-123 | one group per calendar month that occurs |
| Grouping.BySeason | main.py:139-143 | every group key is one of the four season labels |
| Grouping.MonthBucketInSeasonBucket | main.py:117-143 | each row of calendar month m's group is in the group of season GetSeason(m) |
| Grouping.Monthly | main.py:54-58 | one group per (year, month) that occurs |
| Grouping.Yearly | main.py:63-67 | one group per year that occurs |
| Grouping.MonthlyRain | main.py:85 | one total per (year, month) that occurs, equal to the rainfall total of that month's rows |
| Pipeline.NumpyMean | main.py:46 | defined exactly when no value is missing, and then the mean of the values |
| Pipeline.NumpyMin | main.py:47 | defined exactly when no value is missing, and then the minimum |
| Pipeline.NumpyMax | main.py:48 | defined exactly when no value is missing, and then the maximum |
| Pipeline.Describe | main.py:45-71 | fails exactly on an empty table; otherwise the overview is the NumPy temp mean, min and max and the NumPy rain mean of the table; the two means are defined exactly when nothing is missing in their column |
| Pipeline.DescribeOrdered | main.py:46-48 | with no temp missing, temp min <= temp mean <= temp max |
| Pipeline.DescribeAfterImpute | main.py:36-71 | after imputing a table with some temp read, every whole-column statistic is defined and the rain mean is the loaded rain total over the row count |
| Pipeline.Analyse | main.py:36-148 | fails exactly on an empty table; otherwise the cleaned table is the loaded rows imputed and sorted by date, with one row per loaded row; every summary is taken from that table; the season keys are season labels; the exported table is the cleaned table |
| Pipeline.Run | main.py:8-148 | a load error or an empty table stops the run with that error; a non-empty load always produces outputs, where the cleaned table is the loaded rows imputed and sorted by date, with one row per data row; every summary is taken from that table; the season keys are season labels; the exported table is the cleaned table |

## Left out

- Reading and writing files (`read_csv`, `to_csv`), the console output of lines 14-20, 50-51, 59-60, 68-69, 73, 124-125 and 144-145, and all charts (lines 3-5, 75-114) are I/O.
- Date parsing (`pd.to_datetime`) is not modelled: a date cell is either already a date or not, and any non-date cell (including an empty one, which pandas would turn into NaT) is an `UnparsableDate` error.
- Floating point: readings are mathematical reals, so rounding in sums, means and medians is not modelled.
- `temp_std`, `rain_std` and the `std` column of the monthly and yearly summaries are not modelled (square roots of reals).
- Loading.Lower: `str.lower()` is modelled for ASCII letters only; Unicode case mapping is not.
- Loading.Project: with duplicate header names, the first column of each name is taken; pandas would select every duplicate.
- Grouping.Monthly: `resample` also emits empty periods between the first and last date and labels periods by their end date; the model keeps only the (year, month) and year keys that occur.
- Cell-level type coercion by `read_csv` (for example numeric text in a reading column) is not modelled: a reading cell is a number, a blank, or refused.
- `set_index("date")` (line 42) only moves the date into the index; the model keeps it as a record field.
- Cleaning.SortByDate: the order among rows with the same date is not specified, because the default quicksort is not stable.
