/**
 * The per-country aggregation of the monthly scripts.  Every cell record
 * becomes a point (lon, lat); a left spatial join gives it the country whose
 * polygon it falls in, or none for a cell over the ocean; and
 * `groupby(['Date', 'Country'])` sums or averages a column over the cells
 * of each country, dropping the cells without one.  The point-in-polygon
 * test is a given function from points to countries.
 */
module Spatial {
  import opened Wrappers
  import opened Reduce
  import opened Group

  datatype Point = Point(lon: real, lat: real)

  type Country = string

  /** The result of `gpd.sjoin(..., how='left')` for one cell centre. */
  type Assignment = Point -> Option<Country>

  /** One column of the joined table: each cell's country and its value. */
  type Joined = seq<(Option<Country>, real)>

  /** Pair each cell's country with its value in one column. */
  function Zip(keys: seq<Option<Country>>, values: seq<real>): (r: Joined)
    requires |keys| == |values|
    ensures |r| == |keys| && KeyList(r) == keys
    ensures forall i :: 0 <= i < |r| ==> r[i] == (keys[i], values[i])
  {
    seq(|keys|, i requires 0 <= i < |keys| => (keys[i], values[i]))
  }

  /** The countries that have at least one member cell. */
  function Countries(rows: Joined): set<Country>
  {
    set i | 0 <= i < |rows| && rows[i].0.Some? :: rows[i].0.value
  }

  /** `Country` is a group of the table exactly when it has a member cell. */
  lemma CountryHasMembers(rows: Joined, c: Country)
    ensures c in Countries(rows) <==> |Members(rows, Some(c))| > 0
  {
    if c in Countries(rows) {
      var i :| 0 <= i < |rows| && rows[i].0 == Some(c);
      assert Some(c) in Keys(rows);
    }
    if Some(c) in Keys(rows) {
      var i :| 0 <= i < |rows| && rows[i].0 == Some(c);
      assert c in Countries(rows);
    }
  }

  /** The number of cells that the join gives to `c`. */
  function CellCount(rows: Joined, c: Country): nat
  {
    multiset(KeyList(rows))[Some(c)]
  }

  /** `groupby('Country')[col].sum()`. */
  function GroupSum(rows: Joined): (m: map<Country, real>)
  {
    map c | c in Countries(rows) :: Sum(Members(rows, Some(c)))
  }

  /** `groupby('Country')[col].mean()`. */
  function GroupMean(rows: Joined): (m: map<Country, real>)
  {
    map c | c in Countries(rows) :: (CountryHasMembers(rows, c); Mean(Members(rows, Some(c))))
  }

  /**
   * The per-country sum is the sum of the member cells' values, the
   * per-country mean is that sum divided by the number of member cells, and
   * both have one entry per country with at least one member.
   */
  lemma GroupSumMean(rows: Joined, c: Country)
    ensures c in GroupSum(rows) <==> CellCount(rows, c) > 0
    ensures c in GroupMean(rows) <==> CellCount(rows, c) > 0
    ensures c in GroupSum(rows) ==> GroupMean(rows)[c] == GroupSum(rows)[c] / CellCount(rows, c) as real
  {
    CountryHasMembers(rows, c);
    MembersCount(rows, Some(c));
  }

  /** Two columns of the same joined table have the same groups. */
  lemma SameCellsSameGroups(a: Joined, b: Joined)
    requires KeyList(a) == KeyList(b)
    ensures Countries(a) == Countries(b)
    ensures GroupSum(a).Keys == GroupMean(b).Keys == Countries(a)
    ensures forall c :: CellCount(a, c) == CellCount(b, c)
  {
    assert forall i :: 0 <= i < |a| ==> a[i].0 == KeyList(a)[i];
    assert forall i :: 0 <= i < |b| ==> b[i].0 == KeyList(b)[i];
  }

  /** `pd.merge(left, right, on=[...])`: an inner join on the key. */
  function InnerJoin<A, B>(left: map<Country, A>, right: map<Country, B>): (r: map<Country, (A, B)>)
    ensures r.Keys == left.Keys * right.Keys
    ensures forall c :: c in r ==> r[c].0 == left[c] && r[c].1 == right[c]
  {
    map c | c in left.Keys * right.Keys :: (left[c], right[c])
  }

  /** One column of the joined table of records: each record's country and one of its values. */
  function JoinColumn<R>(records: seq<R>, country: R -> Option<Country>, value: R -> real): (r: Joined)
    ensures |r| == |records|
    ensures forall k :: 0 <= k < |r| ==> r[k] == (country(records[k]), value(records[k]))
  {
    seq(|records|, k requires 0 <= k < |records| => (country(records[k]), value(records[k])))
  }

  /** The records the join gives to `c`, in table order. */
  function InCountry<R>(records: seq<R>, country: R -> Option<Country>, c: Country): (r: seq<R>)
    ensures forall x :: x in r ==> x in records && country(x) == Some(c)
    ensures forall k :: 0 <= k < |records| && country(records[k]) == Some(c) ==> records[k] in r
  {
    if |records| == 0 then []
    else
      var init := records[..|records| - 1];
      var last := records[|records| - 1];
      assert forall k :: 0 <= k < |init| ==> init[k] == records[k];
      InCountry(init, country, c) + (if country(last) == Some(c) then [last] else [])
  }

  /** One value of each record. */
  function Values<R>(records: seq<R>, value: R -> real): (r: seq<real>)
    ensures |r| == |records|
    ensures forall k :: 0 <= k < |r| ==> r[k] == value(records[k])
  {
    seq(|records|, k requires 0 <= k < |records| => value(records[k]))
  }

  /** The members of a country in a column of records are the values of the records it is given. */
  lemma {:induction false} MembersOfColumn<R>(records: seq<R>, country: R -> Option<Country>, value: R -> real, c: Country)
    ensures Members(JoinColumn(records, country, value), Some(c)) == Values(InCountry(records, country, c), value)
  {
    if |records| > 0 {
      var init := records[..|records| - 1];
      MembersOfColumn(init, country, value, c);
      JoinColumnInit(records, country, value);
      ValuesSnoc(InCountry(init, country, c), records[|records| - 1], value);
    }
  }

  lemma JoinColumnInit<R>(records: seq<R>, country: R -> Option<Country>, value: R -> real)
    requires |records| > 0
    ensures var col := JoinColumn(records, country, value);
      col[..|col| - 1] == JoinColumn(records[..|records| - 1], country, value)
  {
    var col := JoinColumn(records, country, value);
    var init := records[..|records| - 1];
    assert forall k :: 0 <= k < |init| ==> col[..|col| - 1][k] == JoinColumn(init, country, value)[k];
  }

  lemma ValuesSnoc<R>(front: seq<R>, last: R, value: R -> real)
    ensures Values(front + [last], value) == Values(front, value) + [value(last)]
    ensures front + [] == front
  {
    assert forall k :: 0 <= k < |front| ==> Values(front + [last], value)[k] == (Values(front, value) + [value(last)])[k];
  }

  /**
   * Grouping a column of records: a country has an entry exactly when the
   * join gives it a record, and its sum and mean are those of the values of
   * the records it is given.
   */
  lemma GroupsOfRecords<R>(records: seq<R>, country: R -> Option<Country>, value: R -> real, c: Country)
    ensures (c in GroupSum(JoinColumn(records, country, value))) == (|InCountry(records, country, c)| > 0)
    ensures (c in GroupMean(JoinColumn(records, country, value))) == (|InCountry(records, country, c)| > 0)
    ensures |InCountry(records, country, c)| > 0 ==>
      GroupSum(JoinColumn(records, country, value))[c] == Sum(Values(InCountry(records, country, c), value)) &&
      GroupMean(JoinColumn(records, country, value))[c] == Mean(Values(InCountry(records, country, c), value))
  {
    MembersOfColumn(records, country, value, c);
    CountryHasMembers(JoinColumn(records, country, value), c);
  }

  /** A cell the join leaves without a country changes no group. */
  lemma {:induction false} OceanCellIgnored(rows: Joined, v: real)
    ensures Countries(rows + [(None, v)]) == Countries(rows)
    ensures GroupSum(rows + [(None, v)]) == GroupSum(rows)
    ensures GroupMean(rows + [(None, v)]) == GroupMean(rows)
  {
    var more := rows + [(None, v)];
    OceanCountries(rows, v);
    forall c | c in Countries(rows) ensures Members(more, Some(c)) == Members(rows, Some(c)) {
      OceanMembers(rows, v, c);
    }
  }

  lemma OceanCountries(rows: Joined, v: real)
    ensures Countries(rows + [(None, v)]) == Countries(rows)
  {
    var more := rows + [(None, v)];
    assert forall i :: 0 <= i < |rows| ==> more[i] == rows[i];
    forall c | c in Countries(more) ensures c in Countries(rows) {
      var i :| 0 <= i < |more| && more[i].0 == Some(c);
      assert i < |rows|;
    }
  }

  lemma OceanMembers(rows: Joined, v: real, c: Country)
    ensures Members(rows + [(None, v)], Some(c)) == Members(rows, Some(c))
  {
    var more := rows + [(None, v)];
    assert more[..|more| - 1] == rows;
  }

  /** One land cell and one ocean cell: only the land cell's country appears. */
  lemma LandAndOcean(c: Country, land: real, ocean: real)
    ensures GroupSum([(Some(c), land), (None, ocean)]) == map[c := land]
    ensures GroupMean([(Some(c), land), (None, ocean)]) == map[c := land]
  {
    var rows: Joined := [(Some(c), land)];
    assert [(Some(c), land), (None, ocean)] == rows + [(None, ocean)];
    OneLandCell(c, land);
    OneLandCellMean(c, land);
    OceanCellIgnored(rows, ocean);
  }

  lemma OneLandCell(c: Country, land: real)
    ensures Countries([(Some(c), land)]) == {c}
    ensures Members([(Some(c), land)], Some(c)) == [land]
    ensures GroupSum([(Some(c), land)]) == map[c := land]
  {
    var rows: Joined := [(Some(c), land)];
    assert rows[0].0 == Some(c);
    assert Countries(rows) == {c};
    assert rows[..0] == [];
    Singleton(land);
    var sums := GroupSum(rows);
    assert sums.Keys == {c} && sums[c] == land;
  }

  lemma OneLandCellMean(c: Country, land: real)
    ensures GroupMean([(Some(c), land)]) == map[c := land]
  {
    OneLandCell(c, land);
    Singleton(land);
    var means := GroupMean([(Some(c), land)]);
    assert means.Keys == {c} && means[c] == land;
  }
}
