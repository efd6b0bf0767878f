# Climate drivers of electricity demand: a Dafny model of the ERA5 extraction scripts

The repository turns hourly ERA5 reanalysis files into daily statistics and
then into monthly per-country tables and a seasonal climatology. This project
models the logic between the input and output calls, over exact `real`
arithmetic, and proves what each stage computes.

- **Daily stage.**
  - `getting_daily_T.py` and `getting_daily_Q.py` walk the sorted listing of the download folder and keep the names they select.
  - They convert kelvin to degrees Celsius. The enthalpy script derives the moist-air enthalpy `Q` from the humidity ratio and the temperature (module `DailyQ`).
  - Each cell's hourly series is reduced to a daily mean, minimum and maximum (module `Daily`). This is one pass that keeps a running sum, count, minimum and maximum per day.
  - The output file name comes from the first eight-digit run `YYYYMMDD` of the source name (modules `FileNames`, `DailyPlan`, `DailyT`).
- **Degree days** (module `DegreeDays`).
  - `calculate_cdd` and `calculate_qdd` are one rule, with the thresholds 19 and 22.
  - The model writes it the way the code does: four masked writes, in order, into an `array3` of zeros.
  - It is proved against a reference piecewise rule `DegreeDay`. The two agree on every cell whose statistics have the shape of daily statistics.
  - `resize_array` is modelled too.
- **Monthly per-country tables** (modules `CddMonthly`, `QddMonthly`, `EldMonthly`, with the shared `MonthGrid`, `Spatial`, `Monthly`, `Grid`, `Longitude`).
  - For each existing month file, the nested latitude/longitude loops emit one record per cell, in lat-major order. Each record holds the first of the month, the cell's latitude, its longitude mapped into [-180, 180), and the sums and means over the day axis.
  - Each record is assigned a country or none, and the records are grouped per country by mean and sum.
  - The groupings are merged on the country.
  - A year is the month-ordered list of these tables. A year with no month file fails, as `pd.concat([])` does, and that ends the loop over years. Each saved year is written to its own CSV.
- **Seasonal climatology** (module `Climatology`).
  - The loader loop tries `era5_daily_eld_{year}_{MM}.nc` for every (year, month) in ascending order. It skips a missing file and aborts on a file without a time axis.
  - The datasets are concatenated along time, and the longitudes are shifted when their maximum exceeds 180.
  - Every day is labelled DJF/MAM/JJA/SON by the chain of `where` calls. The result is the per-season mean in the fixed order DJF, MAM, JJA, SON.
- **Across stages** (module `Pipeline`).
  - The names the daily scripts write are the names the monthly scripts open.
  - The daily statistics they write are exactly the inputs on which the masked writes compute the piecewise rule.

Each loop of the source is a `method` proved against a specification function:
`ReduceDaily`, `RunPlan`, `CalculateDegreeDays`, `ResizeArray`, the
`MonthRecords`, `*Month`, `*Year` and `*Run` methods of each monthly script,
`LoadYear`, `LoadAll` and `ComputeClimatology`. What the source promises is
proved as lemmas about those functions.

Three things lie outside the model and are parameters instead:
- The spatial join (`gpd.sjoin`) is a given function `Assignment` from a cell centre to an optional country.
- The saturation vapour pressure is a given function `vapour`.
- Which files exist, and what they contain, is a `map` from file name to contents.

What the code computes, as the model shows it:
- **Branch 3 can be negative.** For ordered inputs branch 3 of the rule can give a negative value, e.g. -4.25 for max 20, mean 19.5, min 0 and threshold 19 (`DegreeDays.Branch3CanBeNegative`).
- **Conditions 2 and 4 overlap on ordered input.** With min = mean = t < max both hold, and the later write wins (`DegreeDays.OrderingAloneOverlaps`). For statistics that come from samples the four conditions are exclusive, up to the harmless overlap min = mean = max = t of conditions 1 and 4: a mean equal to the minimum or to the maximum forces all samples to be equal (`DegreeDays.StatsShape`, `Daily.DailyOrdered`).
- **`e = P` is not guarded.** The humidity ratio `0.622·e/(P − e)` is computed without a check, so the model gives it no value there (`DailyQ.HumidityRatio`). Where the code would carry an infinite value for that hour and day, the model gives the cell no enthalpy series and no daily output at all (`DailyQ.QSeries`, `DailyQ.DailyEnthalpy`).

## Model

| member | source | states |
|---|---|---|
| DegreeDays.SomeConditionHolds | Monthly_ERA5_Extractions/getting_cdd19_monthly.py:17-20 | for any reals at least one of the four conditions holds, so the initial zero of every cell is overwritten |
| DegreeDays.LastConditionWins | Monthly_ERA5_Extractions/getting_cdd19_monthly.py:22-25 | a cell ends with the value of the highest-numbered condition that holds for it |
| DegreeDays.OnlyOverlapAtThreshold | Monthly_ERA5_Extractions/getting_cdd19_monthly.py:17-20 | for statistics of the shape of daily statistics, two conditions hold together only when min = mean = max = threshold, and then they are conditions 1 and 4 |
| DegreeDays.OverlapAgrees | Monthly_ERA5_Extractions/getting_cdd19_monthly.py:22-25 | at that single overlap branches 1 and 4 both give 0 |
| DegreeDays.MaskedIsDegreeDay | Monthly_ERA5_Extractions/getting_cdd19_monthly.py:16-25 | for such statistics the four masked writes compute the guarded piecewise rule |
| DegreeDays.OrderingAloneOverlaps | Monthly_ERA5_Extractions/getting_cdd19_monthly.py:18-25 | min <= mean <= max alone is not enough: max 25, mean = min = 19 meets conditions 2 and 4, and the writes give 0 where the piecewise rule gives 1.5 |
| DegreeDays.UnorderedInputsDiverge | Monthly_ERA5_Extractions/getting_cdd19_monthly.py:17-25 | for unordered input (mean below min) the writes give -1 where the piecewise rule gives 2.75 |
| DegreeDays.WorkedExample | Monthly_ERA5_Extractions/getting_cdd19_monthly.py:14-24 | with threshold 19, max 30, mean 20 and min 10 take branch 3 and give 3.25 |
| DegreeDays.NoExcessNoDegreeDays | Monthly_ERA5_Extractions/getting_cdd19_monthly.py:17-22 | an ordered day whose maximum does not exceed the threshold gives 0 |
| DegreeDays.BranchSigns | Monthly_ERA5_Extractions/getting_cdd19_monthly.py:17-25 | branch 2 is strictly positive, branch 4 is non-negative, and at max = threshold branches 1 and 2 agree on 0 |
| DegreeDays.Branch3Sign | Monthly_ERA5_Extractions/getting_cdd19_monthly.py:19-24 | branch 3 is positive when the mean is at most the midpoint of min and max |
| DegreeDays.Branch3CanBeNegative | Monthly_ERA5_Extractions/getting_cdd19_monthly.py:19-24 | an ordered day on which branch 3 gives -4.25 |
| DegreeDays.CalculateDegreeDays | Monthly_ERA5_Extractions/getting_cdd19_monthly.py:14-27 | returns a fresh array of the input shape whose every cell is the result of the four masked writes, and equals the piecewise rule wherever the statistics have the daily shape |
| DegreeDays.ApplyBranch | Monthly_ERA5_Extractions/getting_cdd19_monthly.py:22-25 | one masked write changes exactly the cells where its condition holds, to the branch value |
| DegreeDays.ResizeArray | Monthly_ERA5_Extractions/getting_cdd19_monthly.py:30-35 | returns a fresh array of the target shape holding the input inside the common shape and 0 elsewhere |
| MonthGrid.DegreeDayArray | Monthly_ERA5_Extractions/getting_cdd19_monthly.py:73-78 | the degree-day array of a file's three cubes has the day × lat × lon shape and at each cell that cell's column of masked-write values |
| MonthGrid.DegreeDayColumnPiecewise | Monthly_ERA5_Extractions/getting_qdd_monthly.py:64-69 | where every day of a cell has the daily shape, its degree-day column follows the piecewise rule |
| MonthGrid.DegreeDayColumnSum | Monthly_ERA5_Extractions/getting_cdd19_monthly.py:94 | where every day of a cell has the daily shape, the cell's degree-day total is the total of the piecewise rule |
| MonthGrid.NoExcessColumn | Monthly_ERA5_Extractions/getting_cdd19_monthly.py:94 | where every day of a cell is ordered and no maximum exceeds the base, the cell's degree-day total is 0 |
| MonthGrid.ColumnMeansOrdered | Monthly_ERA5_Extractions/getting_cdd19_monthly.py:95-97 | where every day of a cell is ordered, mean of the minima <= mean of the means <= mean of the maxima |
| Grid.ToArray3 | Monthly_ERA5_Extractions/getting_cdd19_monthly.py:73-75 | `.values` gives a fresh array with the cube's shape and entries |
| Longitude.PyMod360 | Monthly_ERA5_Extractions/getting_cdd19_monthly.py:40 | Python's `% 360` on a real lies in [0, 360) |
| Longitude.ConvertLongitude | Monthly_ERA5_Extractions/getting_cdd19_monthly.py:38-40 | the result lies in [-180, 180) and differs from the input by a whole multiple of 360 |
| Longitude.ConvertLongitudeCanonical | Monthly_ERA5_Extractions/getting_cdd19_monthly.py:40 | it is the only value with both properties |
| Longitude.ConvertLongitudeIdentity | Monthly_ERA5_Extractions/getting_cdd19_monthly.py:40 | it is the identity on [-180, 180) |
| Longitude.ConvertLongitudeIdempotent | Monthly_ERA5_Extractions/getting_cdd19_monthly.py:40 | applying it twice is applying it once |
| Longitude.ConvertAll | Monthly_ERA5_Extractions/getting_ELD_monthly.py:55 | every converted longitude lies in [-180, 180) and is a whole number of turns away from its input, whatever the input |
| Longitude.FixLongitudesResult | Monthly_ERA5_Extractions/eld_climatology.py:68-69 | after the shift every longitude lies in [-180, 180); without a longitude above 180 the axis is unchanged |
| Longitude.ConvertAllIdentity | Monthly_ERA5_Extractions/eld_climatology.py:68-69 | shifting an axis already in [-180, 180) changes nothing |
| Daily.DayOf | Daily_ERA5_Extractions/getting_daily_T.py:32 | a timestamp falls in the 86400-second day it is floored to |
| Daily.ReduceDaily | Daily_ERA5_Extractions/getting_daily_T.py:32-34 | the one-pass accumulation returns the mean, minimum and maximum of each day's samples |
| Daily.DaysOfSamples | Daily_ERA5_Extractions/getting_daily_T.py:32-34 | a day is in the output exactly when some sample falls in it |
| Daily.DailyOrdered | Daily_ERA5_Extractions/getting_daily_T.py:32-34 | every output day has min <= mean <= max, and a mean equal to the minimum or the maximum makes all three equal |
| Daily.SingleSampleDay | Daily_ERA5_Extractions/getting_daily_Q.py:56-58 | a day with a single sample has that sample as mean, minimum and maximum |
| Daily.DailyOrderIndependent | Daily_ERA5_Extractions/getting_daily_T.py:32-34 | the daily statistics do not depend on the order of the samples |
| DailyQ.HumidityRatio | Daily_ERA5_Extractions/getting_daily_Q.py:14-17 | the ratio has no value exactly at e = P, and otherwise W·(P − e) = 0.622·e |
| DailyQ.HumidityRatioNonNegative | Daily_ERA5_Extractions/getting_daily_Q.py:14-17 | for 0 <= e < P the ratio exists, is non-negative, and is zero exactly for e = 0 |
| DailyQ.EnthalpyDryAir | Daily_ERA5_Extractions/getting_daily_Q.py:19-21 | with W = 0 the enthalpy is 1.006·T |
| DailyQ.EnthalpyIncreasing | Daily_ERA5_Extractions/getting_daily_Q.py:19-21 | above T = −2501/1.86 the enthalpy increases strictly with W |
| DailyQ.QSeries | Daily_ERA5_Extractions/getting_daily_Q.py:47-53 | the hourly series exists exactly when no hour hits e = P, and then hour i's enthalpy is that of its Celsius temperature and dew-point humidity ratio |
| DailyQ.HourEnthalpyBound | Daily_ERA5_Extractions/getting_daily_Q.py:16-21 | for 0 <= e < P an hour's enthalpy exists and is at least that of dry air |
| DailyQ.DailyEnthalpy | Daily_ERA5_Extractions/getting_daily_Q.py:47-58 | the daily enthalpy statistics are the daily reduction of the hourly series, and absent exactly when the series is |
| DailyT.CelsiusSeriesDays | Daily_ERA5_Extractions/getting_daily_T.py:28-34 | the conversion keeps the set of days |
| DailyT.DailyTemperature | Daily_ERA5_Extractions/getting_daily_T.py:27-34 | the daily temperature statistics are the daily reduction of the Celsius series |
| Text.SortNames | Daily_ERA5_Extractions/getting_daily_T.py:18 | `sorted` returns the names in lexicographic order, as a permutation of the listing |
| Text.Decimal | Monthly_ERA5_Extractions/getting_qdd_monthly.py:56 | `{year}` is a digit string without leading zero whose value is the year |
| Text.ZeroPad2OfValue | Monthly_ERA5_Extractions/getting_qdd_monthly.py:56 | `{n:02d}` of the value of any two-digit field gives that field back, so a month field 01..12 round-trips |
| FileNames.TempFileName | Daily_ERA5_Extractions/getting_daily_Q.py:38 | the paired temperature name has the length of the dew-point name |
| FileNames.DewMarkerRemoved | Daily_ERA5_Extractions/getting_daily_Q.py:38 | after replacing `2d` by `2t` no `2d` is left |
| FileNames.FirstDigitRun | Daily_ERA5_Extractions/getting_daily_Q.py:68 | `re.search(r'(\d{4})(\d{2})\d{2}')` finds the first position that starts eight digits, or none when there is none |
| FileNames.NoRunNoName | Daily_ERA5_Extractions/getting_daily_T.py:46-47 | a name without eight consecutive digits has no output name |
| FileNames.OutputNameIsMonthlyName | Daily_ERA5_Extractions/getting_daily_T.py:46-48 | for a run YYYYMMDD with a year without leading zero, the output name is the monthly script's name for that year and month |
| DailyPlan.RunPlan | Daily_ERA5_Extractions/getting_daily_T.py:18-48 | the file loop processes the selected names of the sorted listing in order and stops at the first one without an output name |
| DailyPlan.PlanStops | Daily_ERA5_Extractions/getting_daily_Q.py:33-69 | the processed files are exactly the selected names before the failing one, in order, or all selected names when none fails |
| DailyPlan.PlanJobs | Daily_ERA5_Extractions/getting_daily_Q.py:34-70 | every job is a selected name, writes that name's output name and opens its paired temperature file |
| DailyPlan.ScriptFailure | Daily_ERA5_Extractions/getting_daily_T.py:46-47 | a run fails only at a selected name without an eight-digit run |
| DailyPlan.PlanCompleteSorted | Daily_ERA5_Extractions/getting_daily_T.py:18-19 | a run that does not fail processes every selected name, in sorted order |
| Pipeline.TemperatureFeedsCdd | Daily_ERA5_Extractions/getting_daily_T.py:46-48 | every file the daily temperature script writes is the name the CDD script opens for the same year and month |
| Pipeline.EnthalpyFeedsQdd | Daily_ERA5_Extractions/getting_daily_Q.py:68-70 | every file the daily enthalpy script writes is the name the QDD script opens for the same year and month |
| Pipeline.DailyStatsGiveDegreeDays | Daily_ERA5_Extractions/getting_daily_T.py:32-34 | every day the daily reduction writes has the daily shape, so the masked writes on it compute the piecewise rule |
| Group.GroupReductionsPermutation | Monthly_ERA5_Extractions/getting_cdd19_monthly.py:112-114 | a group's sum, mean, minimum and maximum do not depend on the order of the rows |
| Spatial.GroupSumMean | Monthly_ERA5_Extractions/getting_qdd_monthly.py:101-102 | a country has a sum and a mean exactly when it has member cells, and its mean is its sum divided by the member count |
| Spatial.SameCellsSameGroups | Monthly_ERA5_Extractions/getting_qdd_monthly.py:101-103 | groupings of columns of the same joined rows have the same countries and member counts |
| Spatial.GroupsOfRecords | Monthly_ERA5_Extractions/getting_cdd19_monthly.py:112-113 | a country's group sum and mean are the sum and mean of the values of the records assigned to it |
| Spatial.OceanCellIgnored | Monthly_ERA5_Extractions/getting_cdd19_monthly.py:106-113 | a cell without a country changes no group |
| Spatial.LandAndOcean | Monthly_ERA5_Extractions/getting_cdd19_monthly.py:106-113 | one land cell and one ocean cell give one country row holding the land value |
| Monthly.MonthsWhereMeaning | Monthly_ERA5_Extractions/getting_qdd_monthly.py:53-59 | the months processed are, in ascending order, exactly those whose file exists |
| Monthly.AllMonthsPresent | Monthly_ERA5_Extractions/getting_qdd_monthly.py:53-59 | when the existence test holds for months 1..n, all n months are processed, in the order 1..n |
| Monthly.NoMonthPresent | Monthly_ERA5_Extractions/getting_qdd_monthly.py:51-59 | when the existence test fails for months 1..n, no month is processed |
| Monthly.MonthsUpToIsWhere | Monthly_ERA5_Extractions/getting_qdd_monthly.py:53-59 | the months the loop processes are those selected by the `os.path.exists` test on their file names |
| Monthly.ListedPresent | Monthly_ERA5_Extractions/getting_qdd_monthly.py:53-59 | a processed month lies in 1..n and its file exists |
| Monthly.UnlistedMissing | Monthly_ERA5_Extractions/getting_qdd_monthly.py:53-59 | a month of 1..n that is not processed has no file |
| Monthly.YearFails | Monthly_ERA5_Extractions/getting_qdd_monthly.py:117 | a year fails exactly when none of its twelve files exists, and then with the concatenation error |
| Monthly.MonthStep | Monthly_ERA5_Extractions/getting_qdd_monthly.py:59-112 | a month adds its table to the year's tables when its file exists and nothing otherwise |
| Monthly.CsvName | Monthly_ERA5_Extractions/getting_qdd_monthly.py:120 | the output file starts with the script's prefix and ends in `.csv` |
| Monthly.CsvNameInjective | Monthly_ERA5_Extractions/getting_qdd_monthly.py:120 | different years are written to different files |
| Monthly.RunShape | Monthly_ERA5_Extractions/getting_qdd_monthly.py:49-122 | the years saved are consecutive from the first year, each with its successful result, and the run raises at the first failing year or saves every year |
| Monthly.WrittenDistinct | Monthly_ERA5_Extractions/getting_cdd19_monthly.py:129 | the k-th CSV written is that of the k-th year with that year's tables, and no two are the same file |
| CddMonthly.RecordRows | Monthly_ERA5_Extractions/getting_cdd19_monthly.py:88-89 | one row of records per latitude, each with one record per longitude |
| CddMonthly.CellRecordMeaning | Monthly_ERA5_Extractions/getting_cdd19_monthly.py:88-98 | a record holds the first of the month, the cell's latitude and its longitude in [-180, 180) on the same meridian; the average minimum <= average <= average maximum for ordered days; degree days 0 when no day exceeds 19; and the degree-day sum is the sum of the piecewise rule for daily-shaped days |
| CddMonthly.MonthRecords | Monthly_ERA5_Extractions/getting_cdd19_monthly.py:70-98 | the nested loops emit the cell records in lat-major order |
| CddMonthly.RecordsLayout | Monthly_ERA5_Extractions/getting_cdd19_monthly.py:86-98 | there are exactly len(lat)·len(lon) records, and record i·len(lon) + j is that of cell (i, j) |
| CddMonthly.CountryTableMeaning | Monthly_ERA5_Extractions/getting_cdd19_monthly.py:112-118 | a country has a row exactly when some record is assigned to it, and the row holds the mean and the sum of those records' degree days and the means of their three temperatures |
| CddMonthly.MonthCountries | Monthly_ERA5_Extractions/getting_cdd19_monthly.py:103-118 | the month's countries are exactly those assigned to some cell centre |
| CddMonthly.CddMonth | Monthly_ERA5_Extractions/getting_cdd19_monthly.py:70-118 | processing a month file gives its first-of-month date and per-country table |
| CddMonthly.CddYear | Monthly_ERA5_Extractions/getting_cdd19_monthly.py:60-126 | a year is the month-ordered tables of its existing files, or the concatenation error |
| CddMonthly.CddRun | Monthly_ERA5_Extractions/getting_cdd19_monthly.py:58-131 | the loop over 2010..2024 saves years until the first failing one |
| CddMonthly.CddYears | Monthly_ERA5_Extractions/getting_cdd19_monthly.py:58-131 | the year loop over any range of years computes the run specification: consecutive successful years from the first, ending at the first failing year |
| QddMonthly.RecordRows | Monthly_ERA5_Extractions/getting_qdd_monthly.py:79-80 | one row of records per latitude, each with one record per longitude |
| QddMonthly.CellRecordMeaning | Monthly_ERA5_Extractions/getting_qdd_monthly.py:79-87 | a record holds the first of the month, the latitude and a normalised longitude; the average enthalpy lies between the means of the minima and the maxima for ordered days; degree days 0 when no day exceeds 22; the sum of the piecewise rule for daily-shaped days |
| QddMonthly.MonthRecords | Monthly_ERA5_Extractions/getting_qdd_monthly.py:61-87 | the nested loops emit the cell records in lat-major order |
| QddMonthly.RecordsLayout | Monthly_ERA5_Extractions/getting_qdd_monthly.py:77-87 | there are exactly len(lat)·len(lon) records, and record i·len(lon) + j is that of cell (i, j) |
| QddMonthly.CountryTableMeaning | Monthly_ERA5_Extractions/getting_qdd_monthly.py:100-109 | a country has a row exactly when some record is assigned to it, and the row holds the mean and sum of their degree days and the mean of their average enthalpy |
| QddMonthly.MonthCountries | Monthly_ERA5_Extractions/getting_qdd_monthly.py:92-109 | the month's countries are exactly those assigned to some cell centre |
| QddMonthly.QddMonth | Monthly_ERA5_Extractions/getting_qdd_monthly.py:61-109 | processing a month file gives its first-of-month date and per-country table |
| QddMonthly.QddYear | Monthly_ERA5_Extractions/getting_qdd_monthly.py:51-117 | a year is the month-ordered tables of its existing files, or the concatenation error |
| QddMonthly.QddRun | Monthly_ERA5_Extractions/getting_qdd_monthly.py:49-122 | the loop over 2000..2024 saves years until the first failing one |
| QddMonthly.QddYears | Monthly_ERA5_Extractions/getting_qdd_monthly.py:49-122 | the year loop over any range of years computes the run specification: consecutive successful years from the first, ending at the first failing year |
| EldMonthly.RecordRows | Monthly_ERA5_Extractions/getting_ELD_monthly.py:60-61 | one row of records per latitude, each with one record per longitude |
| EldMonthly.CellRecordMeaning | Monthly_ERA5_Extractions/getting_ELD_monthly.py:60-69 | a record holds the first of the month, the latitude and a normalised longitude, and its average ELD lies within any bounds of the cell's daily ELD |
| EldMonthly.MonthRecords | Monthly_ERA5_Extractions/getting_ELD_monthly.py:48-69 | the nested loops emit the cell records in lat-major order |
| EldMonthly.RecordsLayout | Monthly_ERA5_Extractions/getting_ELD_monthly.py:58-69 | there are exactly len(lat)·len(lon) records, and record i·len(lon) + j is that of cell (i, j) |
| EldMonthly.CountryTableMeaning | Monthly_ERA5_Extractions/getting_ELD_monthly.py:83-86 | a country has a row exactly when some record is assigned to it, holding the unweighted means of their three averages |
| EldMonthly.MonthCountries | Monthly_ERA5_Extractions/getting_ELD_monthly.py:74-86 | the month's countries are exactly those assigned to some cell centre |
| EldMonthly.EldMonth | Monthly_ERA5_Extractions/getting_ELD_monthly.py:45-89 | processing a month file gives its first-of-month date and per-country table |
| EldMonthly.EldYear | Monthly_ERA5_Extractions/getting_ELD_monthly.py:35-94 | a year is the month-ordered tables of its existing files, or the concatenation error |
| EldMonthly.EldRun | Monthly_ERA5_Extractions/getting_ELD_monthly.py:33-99 | the loop over 2000..2009 saves years until the first failing one |
| EldMonthly.EldYears | Monthly_ERA5_Extractions/getting_ELD_monthly.py:33-99 | the year loop over any range of years computes the run specification: consecutive successful years from the first, ending at the first failing year |
| Climatology.ChainPicksMatch | Monthly_ERA5_Extractions/eld_climatology.py:26-29 | with disjoint month sets, a month gets the label of the set it belongs to |
| Climatology.ChainNoMatch | Monthly_ERA5_Extractions/eld_climatology.py:24-29 | a month in no set keeps the `""` fill |
| Climatology.ChainOrderIndependent | Monthly_ERA5_Extractions/eld_climatology.py:26-29 | with disjoint sets, the order of the `where` calls does not matter |
| Climatology.RulesDisjoint | Monthly_ERA5_Extractions/eld_climatology.py:26-29 | the four season month sets are disjoint |
| Climatology.AssignSeasonTable | Monthly_ERA5_Extractions/eld_climatology.py:20-32 | 12, 1, 2 → DJF; 3, 4, 5 → MAM; 6, 7, 8 → JJA; 9, 10, 11 → SON; every month of 1..12 gets one of the four labels, and the fill survives only outside 1..12 |
| Climatology.AssignSeasonIff | Monthly_ERA5_Extractions/eld_climatology.py:26-29 | a month carries season k's label exactly when it is one of season k's months |
| Climatology.SlotNameAt | Monthly_ERA5_Extractions/eld_climatology.py:40-44 | the loader tries 12 names per year, in ascending (year, month) order: name 12·k + l is that of month l + 1 of year from + k |
| Climatology.SlotNamesNext | Monthly_ERA5_Extractions/eld_climatology.py:40-44 | one more year appends that year's twelve names |
| Climatology.LoadMeaning | Monthly_ERA5_Extractions/eld_climatology.py:47-56 | loading succeeds exactly when every existing file has a time axis, and then keeps the existing files in order; otherwise it fails with the error of the first existing file without one |
| Climatology.FailurePersists | Monthly_ERA5_Extractions/eld_climatology.py:53-54 | once a file has aborted the load, later names change nothing |
| Climatology.LoadYear | Monthly_ERA5_Extractions/eld_climatology.py:42-56 | the month loop of one year extends the load by that year's names |
| Climatology.LoadAll | Monthly_ERA5_Extractions/eld_climatology.py:38-56 | the year and month loops compute the load of all names, 2001..2023, in ascending order |
| Climatology.SlotNamesPrefix | Monthly_ERA5_Extractions/eld_climatology.py:40 | the names of the earlier years come first |
| Climatology.LabelledPermutation | Monthly_ERA5_Extractions/eld_climatology.py:31 | reordering the days reorders the labelled rows |
| Climatology.SeasonMembers | Monthly_ERA5_Extractions/eld_climatology.py:79 | the members of season k are the values of the days in its months |
| Climatology.SeasonalMeansMeaning | Monthly_ERA5_Extractions/eld_climatology.py:79-84 | selection succeeds exactly when every season has a day, and then gives four values in the order DJF, MAM, JJA, SON, season k's being the mean of the days in its months |
| Climatology.SeasonalOrderIndependent | Monthly_ERA5_Extractions/eld_climatology.py:79 | the seasonal means do not depend on the order of the days |
| Climatology.OnlySummerFails | Monthly_ERA5_Extractions/eld_climatology.py:84 | days from June to August alone leave other seasons empty, so the selection fails |
| Climatology.ComputeClimatology | Monthly_ERA5_Extractions/eld_climatology.py:38-84 | the script returns the load error, the concatenation error for no dataset, the selection error, or the first dataset's fixed longitudes with the four seasonal means |

## Left out

- File and network I/O: NetCDF, CSV and shapefile reading and writing, `os.listdir`, `os.path.exists`, dask chunking and `.compute()`, and the hard-coded paths. The files present are a `map` from file name to contents, and the CSV a year writes is its name paired with its tables (`Monthly.Written`).
- `monitor_memory`, the timings, the `print` calls and the `sys.stdout` reopen: these are side effects with no bearing on the results.
- `calculate_vapor_pressure` is an exponential, which exact reals cannot express, so it is a given function `vapour`.
- IEEE floating point is out of scope: rounding, NaN and inf. Means over an empty day axis are excluded because every monthly file has at least one day. Daily buckets with no samples are excluded too, since `resample` fills them with NaN.
- `gpd.sjoin` and `Point` are a given function from cell centre to optional country. A point inside several polygons, which would duplicate its row, is not modelled.
- The order of the rows within a month's table is not modelled: a country table is a `map`, whereas pandas sorts the groups by country. The grouping by `Date` is not modelled either, since all records of a month carry the same date.
- The daily reduction is modelled for the series of one cell; every cell is reduced the same way with the same buckets. The alignment of the dew-point and temperature time axes in the enthalpy script is taken as given: each hour carries both readings.
- The climatology is modelled for one cell and one variable; every cell and variable of the dataset is reduced the same way. The coordinate alignment of `xr.concat` is not modelled: the longitude axis is that of the first dataset.
- The error messages of the libraries are fixed strings in the model. The missing-time message names the file, where the script names the full path.
- FileNames.TempFileName: its own contract states only that the length is kept. What the rename does is stated by `FileNames.DewMarkerRemoved` and by its body. Opening the paired file is I/O.
- The `ds_daily` dataset writes are not modelled as files: the daily scripts' outputs are their `Job` records.
- DailyQ.QSeries: a single hour with e = P makes the whole series, and so every day of the cell (`DailyQ.DailyEnthalpy`), absent. In the code only that hour's value is infinite, only that day's `Q_mean` and `Q_max` become infinite, the other days are reduced normally and the file is still written. Infinite values are outside exact real arithmetic.
- Text.IsDigit: a digit is an ASCII digit '0'..'9'. Python 3's `\d` in the date pattern also matches every other Unicode decimal digit and copies it into the output name; such names are not modelled.
- DegreeDays.ResizeArray: fixed to three axes, the rank of every array in the scripts. The source's `resize_array` works for any rank and is never called.
