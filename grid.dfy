/**
 * Gridded fields as the monthly scripts read them from a daily NetCDF file:
 * a (day, latitude, longitude) cube of values, the time series at one cell,
 * and the lat-major, lon-minor order in which the per-cell loops emit one
 * record per cell.
 */
module Grid {

  /** A day × latitude × longitude cube, as `ds[var].values` holds it. */
  type Cube = seq<seq<seq<real>>>

  predicate IsCube(g: Cube, nLat: nat, nLon: nat)
  {
    forall d :: 0 <= d < |g| ==>
      |g[d]| == nLat && forall i :: 0 <= i < nLat ==> |g[d][i]| == nLon
  }

  /** `g[:, i, j]`: the values at cell (i, j) over the day axis. */
  function Column(g: Cube, nLat: nat, nLon: nat, i: nat, j: nat): (r: seq<real>)
    requires IsCube(g, nLat, nLon) && i < nLat && j < nLon
    ensures |r| == |g|
    ensures forall d :: 0 <= d < |g| ==> r[d] == g[d][i][j]
  {
    seq(|g|, d requires 0 <= d < |g| => g[d][i][j])
  }

  /** The same column read from an array. */
  function ArrayColumn(a: array3<real>, i: nat, j: nat): (r: seq<real>)
    requires i < a.Length1 && j < a.Length2
    reads a
    ensures |r| == a.Length0
    ensures forall d :: 0 <= d < a.Length0 ==> r[d] == a[d, i, j]
  {
    seq(a.Length0, d requires 0 <= d < a.Length0 reads a => a[d, i, j])
  }

  /** A fresh array holding the cube, the `.values` numpy array of a variable. */
  method ToArray3(g: Cube, nLat: nat, nLon: nat) returns (a: array3<real>)
    requires IsCube(g, nLat, nLon)
    ensures fresh(a)
    ensures a.Length0 == |g| && a.Length1 == nLat && a.Length2 == nLon
    ensures forall d, i, j :: 0 <= d < |g| && 0 <= i < nLat && 0 <= j < nLon ==> a[d, i, j] == g[d][i][j]
  {
    a := new real[|g|, nLat, nLon]((d, i, j) => if 0 <= d < |g| && 0 <= i < nLat && 0 <= j < nLon then g[d][i][j] else 0.0);
  }

  /** The rows of a lat × lon table of records, concatenated in row order. */
  function Flatten<T>(rows: seq<seq<T>>): seq<T>
  {
    if |rows| == 0 then [] else Flatten(rows[..|rows| - 1]) + rows[|rows| - 1]
  }

  /** A table with `n` entries per row. */
  predicate Rectangular<T>(rows: seq<seq<T>>, n: nat)
  {
    forall i :: 0 <= i < |rows| ==> |rows[i]| == n
  }

  /** The flattened table holds |rows| · n entries. */
  lemma {:induction false} FlattenLength<T>(rows: seq<seq<T>>, n: nat)
    requires Rectangular(rows, n)
    ensures |Flatten(rows)| == |rows| * n
  {
    if |rows| > 0 {
      var m := |rows| - 1;
      FlattenLength(rows[..m], n);
      MulSucc(m, n);
    }
  }

  /** Lat-major, lon-minor order: entry i · n + j of the flattened table is row i's entry j. */
  lemma {:induction false} FlattenIndex<T>(rows: seq<seq<T>>, n: nat, i: nat, j: nat)
    requires Rectangular(rows, n) && i < |rows| && j < n
    ensures i * n + j < |Flatten(rows)| && Flatten(rows)[i * n + j] == rows[i][j]
  {
    var m := |rows| - 1;
    var init := rows[..m];
    var front := Flatten(init);
    FlattenLength(init, n);
    MulSucc(m, n);
    assert Flatten(rows) == front + rows[m];
    if i < m {
      FlattenIndex(init, n, i, j);
      assert init[i] == rows[i];
    } else {
      assert i * n + j == |front| + j;
    }
  }

  /** Every entry of the flattened table is an entry of some row. */
  lemma {:induction false} FlattenMember<T>(rows: seq<seq<T>>, x: T)
    requires x in Flatten(rows)
    ensures exists i, j :: 0 <= i < |rows| && 0 <= j < |rows[i]| && rows[i][j] == x
  {
    var m := |rows| - 1;
    var init := rows[..m];
    if x in Flatten(init) {
      FlattenMember(init, x);
      var i, j :| 0 <= i < |init| && 0 <= j < |init[i]| && init[i][j] == x;
      assert rows[i] == init[i];
    } else {
      assert x in rows[m];
      var j :| 0 <= j < |rows[m]| && rows[m][j] == x;
    }
  }

  lemma MulSucc(m: nat, n: nat)
    ensures (m + 1) * n == m * n + n
  {
  }

  /** An entry of an earlier row comes before every entry of row `m`. */
  lemma RowStartsBefore(i: nat, m: nat, j: nat, n: nat)
    requires i < m && j < n
    ensures i * n + j < m * n
  {
    MulSucc(i, n);
    MulMonotone(i + 1, m, n);
  }

  lemma {:induction false} MulMonotone(a: nat, b: nat, n: nat)
    requires a <= b
    ensures a * n <= b * n
    decreases b - a
  {
    if a < b {
      MulMonotone(a + 1, b, n);
      MulSucc(a, n);
    }
  }

  /** `pd.Timestamp(year=year, month=month, day=1)`. */
  datatype Date = Date(year: nat, month: nat, day: nat)

  function FirstOfMonth(year: nat, month: nat): (r: Date)
    ensures r.year == year && r.month == month && r.day == 1
  {
    Date(year, month, 1)
  }
}
