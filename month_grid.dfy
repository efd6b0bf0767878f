/**
 * A daily-statistics file as the CDD and QDD monthly scripts read it:
 * latitude and longitude axes and the day × lat × lon cubes of the daily
 * maximum, mean and minimum (`T_max`/`T_mean`/`T_min` or
 * `Q_max`/`Q_mean`/`Q_min`), and the degree-day array computed from them.
 */
module MonthGrid {
  import opened Grid
  import opened DegreeDays
  import opened Reduce

  datatype StatsFile = StatsFile(lat: seq<real>, lon: seq<real>, max: Cube, mean: Cube, min: Cube)

  /** The three variables share the file's (day, lat, lon) shape, with at least one day. */
  predicate WellFormed(f: StatsFile)
  {
    |f.max| > 0 && |f.mean| == |f.max| && |f.min| == |f.max| &&
    IsCube(f.max, |f.lat|, |f.lon|) && IsCube(f.mean, |f.lat|, |f.lon|) && IsCube(f.min, |f.lat|, |f.lon|)
  }

  /** A file as the monthly scripts can read it. */
  type DailyFile = f: StatsFile | WellFormed(f) witness StatsFile([], [], [[]], [[]], [[]])

  /** The degree days of every day at cell (i, j), by the four masked writes. */
  function DegreeDayColumn(f: StatsFile, t: real, i: nat, j: nat): (r: seq<real>)
    requires WellFormed(f) && i < |f.lat| && j < |f.lon|
    ensures |r| == |f.max|
  {
    seq(|f.max|, d requires 0 <= d < |f.max| => Masked(f.max[d][i][j], f.mean[d][i][j], f.min[d][i][j], t))
  }

  /** Where every day of the cell has the shape of daily statistics, its degree days follow the piecewise rule. */
  lemma DegreeDayColumnPiecewise(f: StatsFile, t: real, i: nat, j: nat)
    requires WellFormed(f) && i < |f.lat| && j < |f.lon|
    requires forall d :: 0 <= d < |f.max| ==> StatsShape(f.max[d][i][j], f.mean[d][i][j], f.min[d][i][j])
    ensures forall d :: 0 <= d < |f.max| ==>
      DegreeDayColumn(f, t, i, j)[d] == DegreeDay(f.max[d][i][j], f.mean[d][i][j], f.min[d][i][j], t)
  {
    forall d | 0 <= d < |f.max|
      ensures DegreeDayColumn(f, t, i, j)[d] == DegreeDay(f.max[d][i][j], f.mean[d][i][j], f.min[d][i][j], t)
    {
      MaskedIsDegreeDay(f.max[d][i][j], f.mean[d][i][j], f.min[d][i][j], t);
    }
  }

  /** The daily rule summed over the month at cell (i, j). */
  function RuleColumn(f: StatsFile, t: real, i: nat, j: nat): (r: seq<real>)
    requires WellFormed(f) && i < |f.lat| && j < |f.lon|
    ensures |r| == |f.max|
  {
    seq(|f.max|, d requires 0 <= d < |f.max| => DegreeDay(f.max[d][i][j], f.mean[d][i][j], f.min[d][i][j], t))
  }

  /** Where every day of the cell has the daily shape, the masked writes' total is the rule's total. */
  lemma DegreeDayColumnSum(f: StatsFile, t: real, i: nat, j: nat)
    requires WellFormed(f) && i < |f.lat| && j < |f.lon|
    requires forall d :: 0 <= d < |f.max| ==> StatsShape(f.max[d][i][j], f.mean[d][i][j], f.min[d][i][j])
    ensures Sum(DegreeDayColumn(f, t, i, j)) == Sum(RuleColumn(f, t, i, j))
  {
    DegreeDayColumnPiecewise(f, t, i, j);
    assert DegreeDayColumn(f, t, i, j) == RuleColumn(f, t, i, j);
  }

  /** Where every day of the cell is ordered and no maximum exceeds the base, the cell's degree days total zero. */
  lemma NoExcessColumn(f: StatsFile, t: real, i: nat, j: nat)
    requires WellFormed(f) && i < |f.lat| && j < |f.lon|
    requires forall d :: 0 <= d < |f.max| ==> Ordered(f.max[d][i][j], f.mean[d][i][j], f.min[d][i][j]) && f.max[d][i][j] <= t
    ensures Sum(DegreeDayColumn(f, t, i, j)) == 0.0
  {
    var dd := DegreeDayColumn(f, t, i, j);
    forall d | 0 <= d < |dd| ensures dd[d] == 0.0 {
      NoExcessNoDegreeDays(f.max[d][i][j], f.mean[d][i][j], f.min[d][i][j], t);
    }
    SumZero(dd);
  }

  /** Where every day of the cell is ordered, so are the monthly means of its minima, means and maxima. */
  lemma ColumnMeansOrdered(f: StatsFile, i: nat, j: nat)
    requires WellFormed(f) && i < |f.lat| && j < |f.lon|
    requires forall d :: 0 <= d < |f.max| ==> Ordered(f.max[d][i][j], f.mean[d][i][j], f.min[d][i][j])
    ensures Mean(Column(f.min, |f.lat|, |f.lon|, i, j)) <= Mean(Column(f.mean, |f.lat|, |f.lon|, i, j))
    ensures Mean(Column(f.mean, |f.lat|, |f.lon|, i, j)) <= Mean(Column(f.max, |f.lat|, |f.lon|, i, j))
  {
    var nLat, nLon := |f.lat|, |f.lon|;
    MeanMonotone(Column(f.min, nLat, nLon, i, j), Column(f.mean, nLat, nLon, i, j));
    MeanMonotone(Column(f.mean, nLat, nLon, i, j), Column(f.max, nLat, nLon, i, j));
  }

  /**
   * `ds[...].values` for the three variables and `calculate_cdd` on them: an
   * array whose column at each cell is the cell's degree-day column.
   */
  method DegreeDayArray(f: StatsFile, t: real) returns (dd: array3<real>)
    requires WellFormed(f)
    ensures fresh(dd)
    ensures dd.Length0 == |f.max| && dd.Length1 == |f.lat| && dd.Length2 == |f.lon|
    ensures forall i, j :: 0 <= i < |f.lat| && 0 <= j < |f.lon| ==> ArrayColumn(dd, i, j) == DegreeDayColumn(f, t, i, j)
  {
    var mx := ToArray3(f.max, |f.lat|, |f.lon|);
    var mean := ToArray3(f.mean, |f.lat|, |f.lon|);
    var mn := ToArray3(f.min, |f.lat|, |f.lon|);
    dd := CalculateDegreeDays(mx, mean, mn, t);
    forall i, j | 0 <= i < |f.lat| && 0 <= j < |f.lon| ensures ArrayColumn(dd, i, j) == DegreeDayColumn(f, t, i, j) {
      assert forall d :: 0 <= d < |f.max| ==> ArrayColumn(dd, i, j)[d] == DegreeDayColumn(f, t, i, j)[d];
    }
  }
}
