/**
 * `getting_ELD_monthly.py`: for every year from 2000 to 2009 and every
 * month whose daily ELD file exists, the month's mean of the daily ELD, mean
 * enthalpy and mean base enthalpy is taken per grid cell and averaged per
 * country; each year's months are written to one CSV.
 */
module EldMonthly {
  import opened Wrappers
  import opened Reduce
  import opened Grid
  import opened Longitude
  import opened Spatial
  import opened FileNames
  import opened Monthly

  const Prefix: string := "era5_daily_eld_"
  const OutputPrefix: string := "monthly_ELD_"
  const FirstYear: nat := 2000
  const EndYear: nat := 2010

  /** A daily ELD file: the axes and the day × lat × lon cubes of `ELD`, `Q_mean` and `Qb_mean`. */
  datatype EldFile = EldFile(lat: seq<real>, lon: seq<real>, eld: Cube, qMean: Cube, qbMean: Cube)

  /** The three variables share the file's (day, lat, lon) shape, with at least one day. */
  predicate WellFormed(f: EldFile)
  {
    |f.eld| > 0 && |f.qMean| == |f.eld| && |f.qbMean| == |f.eld| &&
    IsCube(f.eld, |f.lat|, |f.lon|) && IsCube(f.qMean, |f.lat|, |f.lon|) && IsCube(f.qbMean, |f.lat|, |f.lon|)
  }

  type EldDailyFile = f: EldFile | WellFormed(f) witness EldFile([], [], [[]], [[]], [[]])

  /** One row of the per-cell table of a month. */
  datatype EldRecord = EldRecord(date: Date, lat: real, lon: real, avgEld: real, avgQ: real, avgQb: real)

  /** The record of cell (i, j): the month's first day, the cell centre and the three monthly means. */
  function CellRecord(f: EldFile, year: nat, month: nat, i: nat, j: nat): EldRecord
    requires WellFormed(f) && i < |f.lat| && j < |f.lon|
  {
    EldRecord(FirstOfMonth(year, month), f.lat[i], ConvertLongitude(f.lon[j]),
      Mean(Column(f.eld, |f.lat|, |f.lon|, i, j)),
      Mean(Column(f.qMean, |f.lat|, |f.lon|, i, j)),
      Mean(Column(f.qbMean, |f.lat|, |f.lon|, i, j)))
  }

  /** The records of the month, one row of cells per latitude. */
  function RecordRows(f: EldFile, year: nat, month: nat): (rows: seq<seq<EldRecord>>)
    requires WellFormed(f)
    ensures |rows| == |f.lat| && Rectangular(rows, |f.lon|)
  {
    seq(|f.lat|, i requires 0 <= i < |f.lat| =>
      seq(|f.lon|, j requires 0 <= j < |f.lon| => CellRecord(f, year, month, i, j)))
  }

  /**
   * What a cell's record holds: the first of the month, the cell's latitude,
   * its longitude moved into [-180, 180) on the same meridian, and a mean
   * ELD within any bounds that hold for every day.
   */
  lemma CellRecordMeaning(f: EldFile, year: nat, month: nat, i: nat, j: nat, lo: real, hi: real)
    requires WellFormed(f) && i < |f.lat| && j < |f.lon|
    ensures (var r := CellRecord(f, year, month, i, j);
      r.date == Date(year, month, 1) && r.lat == f.lat[i] &&
      -180.0 <= r.lon < 180.0 && exists k :: SameMeridian(r.lon, f.lon[j], k))
    ensures (forall d :: 0 <= d < |f.eld| ==> lo <= f.eld[d][i][j] <= hi) ==>
      lo <= CellRecord(f, year, month, i, j).avgEld <= hi
  {
    var column := Column(f.eld, |f.lat|, |f.lon|, i, j);
    if forall d :: 0 <= d < |f.eld| ==> lo <= f.eld[d][i][j] <= hi {
      forall x | x in column ensures lo <= x <= hi {
        var d :| 0 <= d < |column| && column[d] == x;
      }
      MeanBounds(column, lo, hi);
    }
  }

  /**
   * The loop over latitudes and longitudes: one record per cell, latitude
   * major and longitude minor.
   */
  method MonthRecords(f: EldFile, year: nat, month: nat) returns (records: seq<EldRecord>)
    requires WellFormed(f)
    ensures records == Flatten(RecordRows(f, year, month))
  {
    var lons := ConvertAll(f.lon);
    ghost var rows := RecordRows(f, year, month);
    records := [];
    for i := 0 to |f.lat|
      invariant records == Flatten(rows[..i])
    {
      for j := 0 to |f.lon|
        invariant records == Flatten(rows[..i]) + rows[i][..j]
      {
        var record := EldRecord(FirstOfMonth(year, month), f.lat[i], lons[j],
          Mean(Column(f.eld, |f.lat|, |f.lon|, i, j)),
          Mean(Column(f.qMean, |f.lat|, |f.lon|, i, j)),
          Mean(Column(f.qbMean, |f.lat|, |f.lon|, i, j)));
        assert rows[i][..j + 1] == rows[i][..j] + [record];
        records := records + [record];
      }
      assert rows[..i + 1][..i] == rows[..i];
    }
    assert rows[..|f.lat|] == rows;
  }

  /** The month's records are its cells in lat-major order: record i · |lon| + j is cell (i, j). */
  lemma RecordsLayout(f: EldFile, year: nat, month: nat, i: nat, j: nat)
    requires WellFormed(f) && i < |f.lat| && j < |f.lon|
    ensures |Flatten(RecordRows(f, year, month))| == |f.lat| * |f.lon|
    ensures i * |f.lon| + j < |f.lat| * |f.lon|
    ensures Flatten(RecordRows(f, year, month))[i * |f.lon| + j] == CellRecord(f, year, month, i, j)
  {
    var rows := RecordRows(f, year, month);
    FlattenLength(rows, |f.lon|);
    FlattenIndex(rows, |f.lon|, i, j);
  }

  /** The per-country row of a month. */
  datatype CountryRow = CountryRow(avgEld: real, avgQ: real, avgQb: real)

  /** The month's country table: the rows of `groupby(['Date', 'Country'])`, all of one date. */
  datatype MonthTable = MonthTable(date: Date, rows: map<Country, CountryRow>)

  /** The country the spatial join gives to a record's cell centre. */
  function CellCountry(assign: Assignment): EldRecord -> Option<Country>
  {
    (r: EldRecord) => assign(Point(r.lon, r.lat))
  }

  function AvgEldOf(r: EldRecord): real { r.avgEld }
  function AvgQOf(r: EldRecord): real { r.avgQ }
  function AvgQbOf(r: EldRecord): real { r.avgQb }

  /** `groupby(['Date', 'Country'])[['avg_ELD', 'avg_Q', 'avg_Qb']].mean()`. */
  function CountryTable(records: seq<EldRecord>, assign: Assignment): map<Country, CountryRow>
  {
    var key := CellCountry(assign);
    var merged := InnerJoin(GroupMean(JoinColumn(records, key, AvgEldOf)),
      InnerJoin(GroupMean(JoinColumn(records, key, AvgQOf)), GroupMean(JoinColumn(records, key, AvgQbOf))));
    map c | c in merged :: CountryRow(merged[c].0, merged[c].1.0, merged[c].1.1)
  }

  /**
   * A country has a row exactly when the join gives it a cell, and the row
   * holds the means of its cells' three monthly means.
   */
  lemma CountryTableMeaning(records: seq<EldRecord>, assign: Assignment, c: Country)
    ensures (c in CountryTable(records, assign)) == (|InCountry(records, CellCountry(assign), c)| > 0)
    ensures (var cells := InCountry(records, CellCountry(assign), c);
      |cells| > 0 ==> (CountryTable(records, assign)[c] ==
        CountryRow(Mean(Values(cells, AvgEldOf)), Mean(Values(cells, AvgQOf)), Mean(Values(cells, AvgQbOf)))))
  {
    var key := CellCountry(assign);
    GroupsOfRecords(records, key, AvgEldOf, c);
    GroupsOfRecords(records, key, AvgQOf, c);
    GroupsOfRecords(records, key, AvgQbOf, c);
  }

  /** A month's country table, from its daily file. */
  function MonthSpec(f: EldFile, year: nat, month: nat, assign: Assignment): MonthTable
    requires WellFormed(f)
  {
    MonthTable(FirstOfMonth(year, month), CountryTable(Flatten(RecordRows(f, year, month)), assign))
  }

  /**
   * The countries of a month are those that the join gives at least one
   * grid cell, the centre taken with its converted longitude.
   */
  lemma MonthCountries(f: EldFile, year: nat, month: nat, assign: Assignment, c: Country)
    requires WellFormed(f)
    ensures c in MonthSpec(f, year, month, assign).rows <==>
      exists i, j :: 0 <= i < |f.lat| && 0 <= j < |f.lon| && assign(Point(ConvertLongitude(f.lon[j]), f.lat[i])) == Some(c)
  {
    var records := Flatten(RecordRows(f, year, month));
    CountryTableKeys(records, assign, c);
    if |InCountry(records, CellCountry(assign), c)| > 0 {
      CountryCellOf(f, year, month, assign, c);
    }
    if exists i, j :: 0 <= i < |f.lat| && 0 <= j < |f.lon| && assign(Point(ConvertLongitude(f.lon[j]), f.lat[i])) == Some(c) {
      var i, j :| 0 <= i < |f.lat| && 0 <= j < |f.lon| && assign(Point(ConvertLongitude(f.lon[j]), f.lat[i])) == Some(c);
      CellOfCountry(f, year, month, assign, c, i, j);
    }
  }

  lemma CountryTableKeys(records: seq<EldRecord>, assign: Assignment, c: Country)
    ensures (c in CountryTable(records, assign)) == (|InCountry(records, CellCountry(assign), c)| > 0)
  {
    CountryTableMeaning(records, assign, c);
  }

  /** A record the join gives to `c` comes from a cell whose centre lies in `c`. */
  lemma CountryCellOf(f: EldFile, year: nat, month: nat, assign: Assignment, c: Country)
    requires WellFormed(f)
    requires |InCountry(Flatten(RecordRows(f, year, month)), CellCountry(assign), c)| > 0
    ensures exists i, j :: 0 <= i < |f.lat| && 0 <= j < |f.lon| && assign(Point(ConvertLongitude(f.lon[j]), f.lat[i])) == Some(c)
  {
    var rows := RecordRows(f, year, month);
    var cells := InCountry(Flatten(rows), CellCountry(assign), c);
    var x := cells[0];
    assert x in cells;
    FlattenMember(rows, x);
    var i, j :| 0 <= i < |rows| && 0 <= j < |rows[i]| && rows[i][j] == x;
    assert x == CellRecord(f, year, month, i, j);
    assert CellCountry(assign)(x) == Some(c);
  }

  /** A cell whose centre lies in `c` gives `c` a record. */
  lemma CellOfCountry(f: EldFile, year: nat, month: nat, assign: Assignment, c: Country, i: nat, j: nat)
    requires WellFormed(f) && i < |f.lat| && j < |f.lon|
    requires assign(Point(ConvertLongitude(f.lon[j]), f.lat[i])) == Some(c)
    ensures |InCountry(Flatten(RecordRows(f, year, month)), CellCountry(assign), c)| > 0
  {
    var records := Flatten(RecordRows(f, year, month));
    RecordsLayout(f, year, month, i, j);
    var k := i * |f.lon| + j;
    assert records[k] == CellRecord(f, year, month, i, j);
    assert CellCountry(assign)(records[k]) == Some(c);
    assert records[k] in InCountry(records, CellCountry(assign), c);
  }

  /** The body of the month loop for one existing file. */
  method EldMonth(f: EldFile, year: nat, month: nat, assign: Assignment) returns (table: MonthTable)
    requires WellFormed(f)
    ensures table == MonthSpec(f, year, month, assign)
  {
    var records := MonthRecords(f, year, month);
    table := MonthTable(FirstOfMonth(year, month), CountryTable(records, assign));
  }

  /** The table of month `m` of `year`, read from its file when it exists. */
  function MonthOf(files: map<string, EldDailyFile>, year: nat, assign: Assignment): nat -> MonthTable
  {
    (m: nat) => var name := MonthlyFileName(Prefix, year, m);
      if name in files then MonthSpec(files[name], year, m, assign) else MonthTable(FirstOfMonth(year, m), map[])
  }

  /** The loop over the twelve months of `year` and the concatenation of their tables. */
  method EldYear(files: map<string, EldDailyFile>, year: nat, assign: Assignment) returns (result: Result<seq<MonthTable>, string>)
    ensures result == YearResult(Prefix, year, files.Keys, MonthOf(files, year, assign))
  {
    var tables: seq<MonthTable> := [];
    for month := 1 to 13
      invariant tables == YearTables(MonthsUpTo(Prefix, year, files.Keys, month - 1), MonthOf(files, year, assign))
    {
      MonthStep(Prefix, year, files.Keys, MonthOf(files, year, assign), month);
      var name := MonthlyFileName(Prefix, year, month);
      if name in files {
        var table := EldMonth(files[name], year, month, assign);
        tables := tables + [table];
      }
    }
    if |tables| == 0 {
      return Failure(NoObjects);
    }
    return Success(tables);
  }

  /** Each year's result. */
  function YearOf(files: map<string, EldDailyFile>, assign: Assignment): nat -> Result<seq<MonthTable>, string>
  {
    (y: nat) => YearResult(Prefix, y, files.Keys, MonthOf(files, y, assign))
  }

  /** `for year in range(2000, 2010)`: each year is saved in turn until one has no file at all. */
  method EldRun(files: map<string, EldDailyFile>, assign: Assignment) returns (run: Run<seq<MonthTable>>)
    ensures run == RunSpec(YearOf(files, assign), FirstYear, EndYear)
  {
    run := EldYears(files, assign, FirstYear, EndYear);
  }

  /** The loop over the years `from` .. `to` - 1. */
  method EldYears(files: map<string, EldDailyFile>, assign: Assignment, from: nat, to: nat) returns (run: Run<seq<MonthTable>>)
    requires from <= to
    ensures run == RunSpec(YearOf(files, assign), from, to)
  {
    ghost var spec := YearOf(files, assign);
    var saved: seq<(nat, seq<MonthTable>)> := [];
    RunStart(spec, from, to);
    for year := from to to
      invariant RunSoFar(spec, from, to, saved, year)
    {
      var result := EldYear(files, year, assign);
      assert spec(year) == result;
      if result.Failure? {
        RunRaises(spec, from, to, saved, year);
        return Run(saved, Some(year));
      }
      RunSaves(spec, from, to, saved, year, result.value);
      saved := saved + [(year, result.value)];
    }
    RunEnds(spec, from, to, saved);
    return Run(saved, None);
  }

  /** `df.to_csv(f"{OutputPrefix}{year}.csv")` for every saved year. */
  function CsvFiles(run: Run<seq<MonthTable>>): seq<(string, seq<MonthTable>)>
  {
    Written(OutputPrefix, run)
  }
}
