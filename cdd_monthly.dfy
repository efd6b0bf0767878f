/**
 * `getting_cdd19_monthly.py`: for every year from 2010 to 2024 and every
 * month whose daily temperature file exists, the cooling degree days above
 * 19 °C are computed day by day, summed per grid cell over the month, and
 * aggregated per country together with the month's mean daily mean, maximum
 * and minimum temperature; each year's months are written to one CSV.
 */
module CddMonthly {
  import opened Wrappers
  import opened Reduce
  import opened Grid
  import opened Longitude
  import opened DegreeDays
  import opened Spatial
  import opened MonthGrid
  import opened FileNames
  import opened Monthly

  const Prefix: string := "era5_daily_temp_"
  const OutputPrefix: string := "monthly_cdd_base19_"
  const FirstYear: nat := 2010
  const EndYear: nat := 2025

  /** One row of the per-cell table of a month. */
  datatype CddRecord = CddRecord(date: Date, lat: real, lon: real, cddSum: real, avgTemp: real, avgMaxTemp: real, avgMinTemp: real)

  /** The record of cell (i, j): the month's first day, the cell centre, the degree-day total and the three mean temperatures. */
  function CellRecord(f: StatsFile, year: nat, month: nat, i: nat, j: nat): CddRecord
    requires WellFormed(f) && i < |f.lat| && j < |f.lon|
  {
    CddRecord(FirstOfMonth(year, month), f.lat[i], ConvertLongitude(f.lon[j]),
      Sum(DegreeDayColumn(f, CddBase, i, j)),
      Mean(Column(f.mean, |f.lat|, |f.lon|, i, j)),
      Mean(Column(f.max, |f.lat|, |f.lon|, i, j)),
      Mean(Column(f.min, |f.lat|, |f.lon|, i, j)))
  }

  /** The records of the month, one row of cells per latitude. */
  function RecordRows(f: StatsFile, year: nat, month: nat): (rows: seq<seq<CddRecord>>)
    requires WellFormed(f)
    ensures |rows| == |f.lat| && Rectangular(rows, |f.lon|)
  {
    seq(|f.lat|, i requires 0 <= i < |f.lat| =>
      seq(|f.lon|, j requires 0 <= j < |f.lon| => CellRecord(f, year, month, i, j)))
  }

  /**
   * What a cell's record holds: the first of the month, the cell's latitude,
   * its longitude moved into [-180, 180) on the same meridian, the mean
   * minimum at most the mean temperature at most the mean maximum when
   * every day is ordered, a degree-day total of zero when no day's maximum
   * exceeds 19 °C, and the total of the piecewise rule when every day has
   * the shape of daily statistics.
   */
  lemma CellRecordMeaning(f: StatsFile, year: nat, month: nat, i: nat, j: nat)
    requires WellFormed(f) && i < |f.lat| && j < |f.lon|
    ensures (var r := CellRecord(f, year, month, i, j);
      r.date == Date(year, month, 1) && r.lat == f.lat[i] &&
      -180.0 <= r.lon < 180.0 && exists k :: SameMeridian(r.lon, f.lon[j], k))
    ensures (forall d :: 0 <= d < |f.max| ==> Ordered(f.max[d][i][j], f.mean[d][i][j], f.min[d][i][j])) ==>
      (var r := CellRecord(f, year, month, i, j); r.avgMinTemp <= r.avgTemp <= r.avgMaxTemp)
    ensures (forall d :: 0 <= d < |f.max| ==> Ordered(f.max[d][i][j], f.mean[d][i][j], f.min[d][i][j]) && f.max[d][i][j] <= CddBase) ==>
      CellRecord(f, year, month, i, j).cddSum == 0.0
    ensures (forall d :: 0 <= d < |f.max| ==> StatsShape(f.max[d][i][j], f.mean[d][i][j], f.min[d][i][j])) ==>
      CellRecord(f, year, month, i, j).cddSum ==
        Sum(RuleColumn(f, CddBase, i, j))
  {
    if forall d :: 0 <= d < |f.max| ==> Ordered(f.max[d][i][j], f.mean[d][i][j], f.min[d][i][j]) {
      ColumnMeansOrdered(f, i, j);
    }
    if forall d :: 0 <= d < |f.max| ==> Ordered(f.max[d][i][j], f.mean[d][i][j], f.min[d][i][j]) && f.max[d][i][j] <= CddBase {
      NoExcessColumn(f, CddBase, i, j);
    }
    if forall d :: 0 <= d < |f.max| ==> StatsShape(f.max[d][i][j], f.mean[d][i][j], f.min[d][i][j]) {
      DegreeDayColumnSum(f, CddBase, i, j);
    }
  }

  /**
   * The loop over latitudes and longitudes: one record per cell, latitude
   * major and longitude minor.
   */
  method MonthRecords(f: StatsFile, year: nat, month: nat) returns (records: seq<CddRecord>)
    requires WellFormed(f)
    ensures records == Flatten(RecordRows(f, year, month))
  {
    var cdd := DegreeDayArray(f, CddBase);
    var lons := ConvertAll(f.lon);
    ghost var rows := RecordRows(f, year, month);
    records := [];
    for i := 0 to |f.lat|
      invariant records == Flatten(rows[..i])
    {
      for j := 0 to |f.lon|
        invariant records == Flatten(rows[..i]) + rows[i][..j]
      {
        var record := CddRecord(FirstOfMonth(year, month), f.lat[i], lons[j],
          Sum(ArrayColumn(cdd, i, j)),
          Mean(Column(f.mean, |f.lat|, |f.lon|, i, j)),
          Mean(Column(f.max, |f.lat|, |f.lon|, i, j)),
          Mean(Column(f.min, |f.lat|, |f.lon|, i, j)));
        assert rows[i][..j + 1] == rows[i][..j] + [record];
        records := records + [record];
      }
      assert rows[..i + 1][..i] == rows[..i];
    }
    assert rows[..|f.lat|] == rows;
  }

  /** The month's records are its cells in lat-major order: record i · |lon| + j is cell (i, j). */
  lemma RecordsLayout(f: StatsFile, year: nat, month: nat, i: nat, j: nat)
    requires WellFormed(f) && i < |f.lat| && j < |f.lon|
    ensures |Flatten(RecordRows(f, year, month))| == |f.lat| * |f.lon|
    ensures i * |f.lon| + j < |f.lat| * |f.lon|
    ensures Flatten(RecordRows(f, year, month))[i * |f.lon| + j] == CellRecord(f, year, month, i, j)
  {
    var rows := RecordRows(f, year, month);
    FlattenLength(rows, |f.lon|);
    FlattenIndex(rows, |f.lon|, i, j);
  }

  /** The per-country row of a month. */
  datatype CountryRow = CountryRow(cddSumAvg: real, cddSumSum: real, avgTemp: real, avgMaxTemp: real, avgMinTemp: real)

  /** The month's country table: the rows of `groupby(['Date', 'Country'])`, all of one date. */
  datatype MonthTable = MonthTable(date: Date, rows: map<Country, CountryRow>)

  /** The country the spatial join gives to a record's cell centre. */
  function CellCountry(assign: Assignment): CddRecord -> Option<Country>
  {
    (r: CddRecord) => assign(Point(r.lon, r.lat))
  }

  function CddSumOf(r: CddRecord): real { r.cddSum }
  function AvgTempOf(r: CddRecord): real { r.avgTemp }
  function AvgMaxTempOf(r: CddRecord): real { r.avgMaxTemp }
  function AvgMinTempOf(r: CddRecord): real { r.avgMinTemp }

  /**
   * The three groupings of the joined table and the two inner merges on the
   * country: the mean and the sum of `cdd_sum`, then the means of the three
   * temperatures.
   */
  function CountryTable(records: seq<CddRecord>, assign: Assignment): map<Country, CountryRow>
  {
    var key := CellCountry(assign);
    var cdd := JoinColumn(records, key, CddSumOf);
    var temps := InnerJoin(GroupMean(JoinColumn(records, key, AvgTempOf)),
      InnerJoin(GroupMean(JoinColumn(records, key, AvgMaxTempOf)), GroupMean(JoinColumn(records, key, AvgMinTempOf))));
    var merged := InnerJoin(InnerJoin(GroupMean(cdd), GroupSum(cdd)), temps);
    map c | c in merged :: CountryRow(merged[c].0.0, merged[c].0.1, merged[c].1.0, merged[c].1.1.0, merged[c].1.1.1)
  }

  /**
   * A country has a row exactly when the join gives it a cell, and the row
   * holds the mean and the sum of the degree-day totals of its cells and the
   * means of their three temperatures.
   */
  lemma CountryTableMeaning(records: seq<CddRecord>, assign: Assignment, c: Country)
    ensures (c in CountryTable(records, assign)) == (|InCountry(records, CellCountry(assign), c)| > 0)
    ensures (var cells := InCountry(records, CellCountry(assign), c);
      |cells| > 0 ==> (CountryTable(records, assign)[c] ==
        CountryRow(Mean(Values(cells, CddSumOf)), Sum(Values(cells, CddSumOf)),
          Mean(Values(cells, AvgTempOf)), Mean(Values(cells, AvgMaxTempOf)), Mean(Values(cells, AvgMinTempOf)))))
  {
    var key := CellCountry(assign);
    GroupsOfRecords(records, key, CddSumOf, c);
    GroupsOfRecords(records, key, AvgTempOf, c);
    GroupsOfRecords(records, key, AvgMaxTempOf, c);
    GroupsOfRecords(records, key, AvgMinTempOf, c);
  }

  /** A month's country table, from its daily file. */
  function MonthSpec(f: StatsFile, year: nat, month: nat, assign: Assignment): MonthTable
    requires WellFormed(f)
  {
    MonthTable(FirstOfMonth(year, month), CountryTable(Flatten(RecordRows(f, year, month)), assign))
  }

  /**
   * The countries of a month are those that the join gives at least one
   * grid cell, the centre taken with its converted longitude.
   */
  lemma MonthCountries(f: StatsFile, year: nat, month: nat, assign: Assignment, c: Country)
    requires WellFormed(f)
    ensures c in MonthSpec(f, year, month, assign).rows <==>
      exists i, j :: 0 <= i < |f.lat| && 0 <= j < |f.lon| && assign(Point(ConvertLongitude(f.lon[j]), f.lat[i])) == Some(c)
  {
    var records := Flatten(RecordRows(f, year, month));
    CountryTableKeys(records, assign, c);
    if |InCountry(records, CellCountry(assign), c)| > 0 {
      CountryCellOf(f, year, month, assign, c);
    }
    if exists i, j :: 0 <= i < |f.lat| && 0 <= j < |f.lon| && assign(Point(ConvertLongitude(f.lon[j]), f.lat[i])) == Some(c) {
      var i, j :| 0 <= i < |f.lat| && 0 <= j < |f.lon| && assign(Point(ConvertLongitude(f.lon[j]), f.lat[i])) == Some(c);
      CellOfCountry(f, year, month, assign, c, i, j);
    }
  }

  lemma CountryTableKeys(records: seq<CddRecord>, assign: Assignment, c: Country)
    ensures (c in CountryTable(records, assign)) == (|InCountry(records, CellCountry(assign), c)| > 0)
  {
    CountryTableMeaning(records, assign, c);
  }

  /** A record the join gives to `c` comes from a cell whose centre lies in `c`. */
  lemma CountryCellOf(f: StatsFile, year: nat, month: nat, assign: Assignment, c: Country)
    requires WellFormed(f)
    requires |InCountry(Flatten(RecordRows(f, year, month)), CellCountry(assign), c)| > 0
    ensures exists i, j :: 0 <= i < |f.lat| && 0 <= j < |f.lon| && assign(Point(ConvertLongitude(f.lon[j]), f.lat[i])) == Some(c)
  {
    var rows := RecordRows(f, year, month);
    var cells := InCountry(Flatten(rows), CellCountry(assign), c);
    var x := cells[0];
    assert x in cells;
    FlattenMember(rows, x);
    var i, j :| 0 <= i < |rows| && 0 <= j < |rows[i]| && rows[i][j] == x;
    assert x == CellRecord(f, year, month, i, j);
    assert CellCountry(assign)(x) == Some(c);
  }

  /** A cell whose centre lies in `c` gives `c` a record. */
  lemma CellOfCountry(f: StatsFile, year: nat, month: nat, assign: Assignment, c: Country, i: nat, j: nat)
    requires WellFormed(f) && i < |f.lat| && j < |f.lon|
    requires assign(Point(ConvertLongitude(f.lon[j]), f.lat[i])) == Some(c)
    ensures |InCountry(Flatten(RecordRows(f, year, month)), CellCountry(assign), c)| > 0
  {
    var records := Flatten(RecordRows(f, year, month));
    RecordsLayout(f, year, month, i, j);
    var k := i * |f.lon| + j;
    assert records[k] == CellRecord(f, year, month, i, j);
    assert CellCountry(assign)(records[k]) == Some(c);
    assert records[k] in InCountry(records, CellCountry(assign), c);
  }

  /** The body of the month loop for one existing file. */
  method CddMonth(f: StatsFile, year: nat, month: nat, assign: Assignment) returns (table: MonthTable)
    requires WellFormed(f)
    ensures table == MonthSpec(f, year, month, assign)
  {
    var records := MonthRecords(f, year, month);
    table := MonthTable(FirstOfMonth(year, month), CountryTable(records, assign));
  }

  /** The table of month `m` of `year`, read from its file when it exists. */
  function MonthOf(files: map<string, DailyFile>, year: nat, assign: Assignment): nat -> MonthTable
  {
    (m: nat) => var name := MonthlyFileName(Prefix, year, m);
      if name in files then MonthSpec(files[name], year, m, assign) else MonthTable(FirstOfMonth(year, m), map[])
  }

  /** The loop over the twelve months of `year` and the concatenation of their tables. */
  method CddYear(files: map<string, DailyFile>, year: nat, assign: Assignment) returns (result: Result<seq<MonthTable>, string>)
    ensures result == YearResult(Prefix, year, files.Keys, MonthOf(files, year, assign))
  {
    var tables: seq<MonthTable> := [];
    for month := 1 to 13
      invariant tables == YearTables(MonthsUpTo(Prefix, year, files.Keys, month - 1), MonthOf(files, year, assign))
    {
      MonthStep(Prefix, year, files.Keys, MonthOf(files, year, assign), month);
      var name := MonthlyFileName(Prefix, year, month);
      if name in files {
        var table := CddMonth(files[name], year, month, assign);
        tables := tables + [table];
      }
    }
    if |tables| == 0 {
      return Failure(NoObjects);
    }
    return Success(tables);
  }

  /** Each year's result. */
  function YearOf(files: map<string, DailyFile>, assign: Assignment): nat -> Result<seq<MonthTable>, string>
  {
    (y: nat) => YearResult(Prefix, y, files.Keys, MonthOf(files, y, assign))
  }

  /** `for year in range(2010, 2025)`: each year is saved in turn until one has no file at all. */
  method CddRun(files: map<string, DailyFile>, assign: Assignment) returns (run: Run<seq<MonthTable>>)
    ensures run == RunSpec(YearOf(files, assign), FirstYear, EndYear)
  {
    run := CddYears(files, assign, FirstYear, EndYear);
  }

  /** The loop over the years `from` .. `to` - 1. */
  method CddYears(files: map<string, DailyFile>, assign: Assignment, from: nat, to: nat) returns (run: Run<seq<MonthTable>>)
    requires from <= to
    ensures run == RunSpec(YearOf(files, assign), from, to)
  {
    ghost var spec := YearOf(files, assign);
    var saved: seq<(nat, seq<MonthTable>)> := [];
    RunStart(spec, from, to);
    for year := from to to
      invariant RunSoFar(spec, from, to, saved, year)
    {
      var result := CddYear(files, year, assign);
      assert spec(year) == result;
      if result.Failure? {
        RunRaises(spec, from, to, saved, year);
        return Run(saved, Some(year));
      }
      RunSaves(spec, from, to, saved, year, result.value);
      saved := saved + [(year, result.value)];
    }
    RunEnds(spec, from, to, saved);
    return Run(saved, None);
  }

  /** `df.to_csv(f"{OutputPrefix}{year}.csv")` for every saved year. */
  function CsvFiles(run: Run<seq<MonthTable>>): seq<(string, seq<MonthTable>)>
  {
    Written(OutputPrefix, run)
  }
}
