/**
 * `eld_climatology.py`: every monthly ELD file from 2001 to 2023 that exists
 * is opened in (year, month) order, a file without a time axis aborts the
 * run, the datasets are concatenated along time, the longitudes are moved
 * into [-180, 180) when they exceed 180, every day is labelled with its
 * meteorological season, and the seasonal climatology is the mean over all
 * days of each season, kept in the order DJF, MAM, JJA, SON.
 *
 * A dataset is taken at one grid cell and one variable: the groupby mean is
 * the same computation at every cell and for every variable.
 */
module Climatology {
  import opened Wrappers
  import opened Reduce
  import opened Group
  import opened Grid
  import opened Longitude
  import opened FileNames

  const Prefix: string := "era5_daily_eld_"
  const FirstYear: nat := 2001
  const EndYear: nat := 2024

  // ---------------------------------------------------------------------
  // Season labels
  // ---------------------------------------------------------------------

  /** One `xr.where(month.isin(months), label, season)` step. */
  datatype Rule = Rule(months: set<int>, name: string)

  /** The labels written by `assign_season`, in the order of its `where` calls. */
  const SeasonRules: seq<Rule> := [
    Rule({12, 1, 2}, "DJF"),
    Rule({3, 4, 5}, "MAM"),
    Rule({6, 7, 8}, "JJA"),
    Rule({9, 10, 11}, "SON")
  ]

  /** The season axis kept by `.sel(season=[...])`. */
  const Seasons: seq<string> := ["DJF", "MAM", "JJA", "SON"]

  /** The label of `month` after the `where` steps, each one overriding the previous value where its months match. */
  function Chain(rules: seq<Rule>, month: int, fill: string): string
  {
    if |rules| == 0 then fill
    else
      var last := rules[|rules| - 1];
      if month in last.months then last.name else Chain(rules[..|rules| - 1], month, fill)
  }

  /** `assign_season` at one time step: the `""` fill, then the four `where` steps. */
  function AssignSeason(month: int): string
  {
    Chain(SeasonRules, month, "")
  }

  predicate Disjoint(rules: seq<Rule>)
  {
    forall a, b :: 0 <= a < b < |rules| ==> rules[a].months !! rules[b].months
  }

  /** With disjoint month sets, the label is that of the one step whose months contain the month. */
  lemma {:induction false} ChainPicksMatch(rules: seq<Rule>, month: int, fill: string, k: nat)
    requires Disjoint(rules) && k < |rules| && month in rules[k].months
    ensures Chain(rules, month, fill) == rules[k].name
  {
    var m := |rules| - 1;
    if k < m {
      assert month !in rules[m].months;
      var init := rules[..m];
      assert Disjoint(init) by {
        forall a, b | 0 <= a < b < |init| ensures init[a].months !! init[b].months {
          assert init[a] == rules[a] && init[b] == rules[b];
        }
      }
      assert init[k] == rules[k];
      ChainPicksMatch(init, month, fill, k);
    }
  }

  /** A month no step matches keeps the fill. */
  lemma {:induction false} ChainNoMatch(rules: seq<Rule>, month: int, fill: string)
    requires forall k :: 0 <= k < |rules| ==> month !in rules[k].months
    ensures Chain(rules, month, fill) == fill
  {
    if |rules| > 0 {
      var init := rules[..|rules| - 1];
      assert forall k :: 0 <= k < |init| ==> init[k] == rules[k];
      ChainNoMatch(init, month, fill);
    }
  }

  /** With disjoint month sets the order of the `where` steps does not matter. */
  lemma ChainOrderIndependent(a: seq<Rule>, b: seq<Rule>, month: int, fill: string)
    requires Disjoint(a) && Disjoint(b) && multiset(a) == multiset(b)
    ensures Chain(a, month, fill) == Chain(b, month, fill)
  {
    if exists k :: 0 <= k < |a| && month in a[k].months {
      var k :| 0 <= k < |a| && month in a[k].months;
      assert a[k] in multiset(b);
      var l :| 0 <= l < |b| && b[l] == a[k];
      ChainPicksMatch(a, month, fill, k);
      ChainPicksMatch(b, month, fill, l);
    } else {
      forall l | 0 <= l < |b| ensures month !in b[l].months {
        assert b[l] in multiset(a);
      }
      ChainNoMatch(a, month, fill);
      ChainNoMatch(b, month, fill);
    }
  }

  /** The months of each meteorological season, in the order of `Seasons`. */
  function SeasonMonths(k: nat): set<int>
    requires k < 4
  {
    SeasonRules[k].months
  }

  /**
   * The season table: 12, 1 and 2 are DJF, 3 to 5 MAM, 6 to 8 JJA and 9 to 11
   * SON; every month in 1..12 gets one of the four labels and any other value
   * keeps the empty fill.
   */
  lemma AssignSeasonTable(month: int)
    ensures month in {12, 1, 2} ==> AssignSeason(month) == "DJF"
    ensures month in {3, 4, 5} ==> AssignSeason(month) == "MAM"
    ensures month in {6, 7, 8} ==> AssignSeason(month) == "JJA"
    ensures month in {9, 10, 11} ==> AssignSeason(month) == "SON"
    ensures 1 <= month <= 12 ==> AssignSeason(month) in Seasons
    ensures !(1 <= month <= 12) ==> AssignSeason(month) == ""
  {
    RulesDisjoint();
    if month in {12, 1, 2} {
      ChainPicksMatch(SeasonRules, month, "", 0);
    } else if month in {3, 4, 5} {
      ChainPicksMatch(SeasonRules, month, "", 1);
    } else if month in {6, 7, 8} {
      ChainPicksMatch(SeasonRules, month, "", 2);
    } else if month in {9, 10, 11} {
      ChainPicksMatch(SeasonRules, month, "", 3);
    } else {
      ChainNoMatch(SeasonRules, month, "");
    }
  }

  lemma RulesDisjoint()
    ensures Disjoint(SeasonRules)
  {
  }

  /** A month carries season k's label exactly when it is one of season k's months. */
  lemma AssignSeasonIff(month: int, k: nat)
    requires k < 4
    ensures AssignSeason(month) == Seasons[k] <==> month in SeasonMonths(k)
  {
    AssignSeasonTable(month);
  }

  // ---------------------------------------------------------------------
  // Loading
  // ---------------------------------------------------------------------

  /**
   * One opened ELD file at one cell: whether it has a time axis, its
   * longitude axis, and each day's month and value.
   */
  datatype Dataset = Dataset(hasTime: bool, lon: seq<real>, days: seq<(int, real)>)

  /** The error raised for a file without a time axis. */
  function NoTime(name: string): string
  {
    name + " has no time dimension"
  }

  /** The twelve names of `year`, January first. */
  function YearNames(year: nat): (r: seq<string>)
    ensures |r| == 12 && forall m :: 0 <= m < 12 ==> r[m] == MonthlyFileName(Prefix, year, m + 1)
  {
    seq(12, m requires 0 <= m < 12 => MonthlyFileName(Prefix, year, m + 1))
  }

  /** The names the loader tries, year by year and month by month. */
  function YearRows(from: nat, to: nat): (rows: seq<seq<string>>)
    ensures |rows| == if from <= to then to - from else 0
    ensures Rectangular(rows, 12)
    ensures forall k :: 0 <= k < |rows| ==> rows[k] == YearNames(from + k)
  {
    var n := if from <= to then to - from else 0;
    var rows := seq(n, k requires 0 <= k < n => YearNames(from + k));
    assert forall k :: 0 <= k < n ==> rows[k] == YearNames(from + k) && |rows[k]| == 12;
    rows
  }

  function SlotNames(from: nat, to: nat): seq<string>
  {
    Flatten(YearRows(from, to))
  }

  /**
   * The names are in ascending (year, month) order, twelve per year: name
   * 12 · k + l is that of month l + 1 of year from + k.
   */
  lemma SlotNameAt(from: nat, to: nat, k: nat, l: nat)
    requires from + k < to && l < 12
    ensures |SlotNames(from, to)| == (to - from) * 12
    ensures k * 12 + l < |SlotNames(from, to)|
    ensures SlotNames(from, to)[k * 12 + l] == MonthlyFileName(Prefix, from + k, l + 1)
  {
    var rows := YearRows(from, to);
    FlattenLength(rows, 12);
    FlattenIndex(rows, 12, k, l);
    assert rows[k][l] == YearNames(from + k)[l];
  }

  /** One more year of names. */
  lemma SlotNamesNext(from: nat, year: nat)
    requires from <= year
    ensures SlotNames(from, year + 1) == SlotNames(from, year) + YearNames(year)
  {
    var rows, prev := YearRows(from, year + 1), YearRows(from, year);
    var init := rows[..|rows| - 1];
    assert forall k :: 0 <= k < |prev| ==> init[k] == prev[k];
    assert init == prev;
    assert rows[|rows| - 1] == YearNames(year);
  }

  /** The loader after `names`: the datasets kept so far, or the error that stopped it. */
  function LoadStep(acc: Result<seq<Dataset>, string>, files: map<string, Dataset>, name: string): Result<seq<Dataset>, string>
  {
    match acc
    case Failure(_) => acc
    case Success(all) =>
      if name !in files then acc
      else if !files[name].hasTime then Failure(NoTime(name))
      else Success(all + [files[name]])
  }

  function LoadFold(files: map<string, Dataset>, names: seq<string>): Result<seq<Dataset>, string>
  {
    if |names| == 0 then Success([]) else LoadStep(LoadFold(files, names[..|names| - 1]), files, names[|names| - 1])
  }

  /** The datasets of the names whose file exists, in the order of the names. */
  function Present(files: map<string, Dataset>, names: seq<string>): seq<Dataset>
  {
    if |names| == 0 then []
    else Present(files, names[..|names| - 1]) + (if names[|names| - 1] in files then [files[names[|names| - 1]]] else [])
  }

  /**
   * Loading succeeds exactly when every existing file has a time axis, and
   * then keeps the existing files in order; otherwise it fails with the
   * error of the first existing file without one.
   */
  lemma {:induction false} LoadMeaning(files: map<string, Dataset>, names: seq<string>)
    ensures LoadFold(files, names).Success? <==>
      forall k :: 0 <= k < |names| && names[k] in files ==> files[names[k]].hasTime
    ensures LoadFold(files, names).Success? ==> LoadFold(files, names).value == Present(files, names)
    ensures LoadFold(files, names).Failure? ==> exists k :: (0 <= k < |names| && names[k] in files &&
      !files[names[k]].hasTime && LoadFold(files, names).error == NoTime(names[k]) &&
      forall l :: 0 <= l < k && names[l] in files ==> files[names[l]].hasTime)
  {
    if |names| > 0 {
      var init := names[..|names| - 1];
      LoadMeaning(files, init);
      assert forall k :: 0 <= k < |init| ==> init[k] == names[k];
    }
  }

  /** Once a file has aborted the run, later names change nothing. */
  lemma {:induction false} FailurePersists(files: map<string, Dataset>, names: seq<string>, n: nat)
    requires n <= |names| && LoadFold(files, names[..n]).Failure?
    ensures LoadFold(files, names) == LoadFold(files, names[..n])
  {
    if n < |names| {
      var init := names[..|names| - 1];
      assert init[..n] == names[..n];
      FailurePersists(files, init, n);
    } else {
      assert names[..n] == names;
    }
  }

  /** The names tried before month `month` of `year`. */
  function Tried(year: nat, month: nat): seq<string>
    requires FirstYear <= year && 1 <= month <= 13
  {
    SlotNames(FirstYear, year) + YearNames(year)[..month - 1]
  }

  /** Trying one more name applies one more loader step. */
  lemma TryNext(files: map<string, Dataset>, year: nat, month: nat)
    requires FirstYear <= year && 1 <= month <= 12
    ensures LoadFold(files, Tried(year, month + 1)) == LoadStep(LoadFold(files, Tried(year, month)), files, MonthlyFileName(Prefix, year, month))
  {
    TriedNext(year, month);
    LoadFoldSnoc(files, Tried(year, month), MonthlyFileName(Prefix, year, month));
  }

  lemma TriedNext(year: nat, month: nat)
    requires FirstYear <= year && 1 <= month <= 12
    ensures Tried(year, month + 1) == Tried(year, month) + [MonthlyFileName(Prefix, year, month)]
  {
    SnocPrefix(SlotNames(FirstYear, year), YearNames(year), month);
  }

  /** Taking one more element of `names` appends it. */
  lemma SnocPrefix<T>(pre: seq<T>, names: seq<T>, k: nat)
    requires 1 <= k <= |names|
    ensures pre + names[..k] == (pre + names[..k - 1]) + [names[k - 1]]
  {
    assert names[..k] == names[..k - 1] + [names[k - 1]];
  }

  /** Loading one more name is one more loader step. */
  lemma LoadFoldSnoc(files: map<string, Dataset>, names: seq<string>, name: string)
    ensures LoadFold(files, names + [name]) == LoadStep(LoadFold(files, names), files, name)
  {
    assert (names + [name])[..|names|] == names;
  }

  /** A year starts after the names of the earlier years and ends before the next one. */
  lemma TriedBounds(year: nat)
    requires FirstYear <= year
    ensures Tried(year, 1) == SlotNames(FirstYear, year)
    ensures Tried(year, 13) == SlotNames(FirstYear, year + 1)
  {
    assert YearNames(year)[..0] == [];
    assert YearNames(year)[..12] == YearNames(year);
    SlotNamesNext(FirstYear, year);
  }

  /** The names tried so far in `year` are the start of the year's names. */
  lemma TriedPrefix(year: nat, month: nat)
    requires FirstYear <= year && 1 <= month <= 13
    ensures |Tried(year, month)| <= |SlotNames(FirstYear, year + 1)|
    ensures Tried(year, month) == SlotNames(FirstYear, year + 1)[..|Tried(year, month)|]
  {
    TriedBounds(year);
    assert YearNames(year)[..month - 1] == YearNames(year)[..12][..month - 1];
  }

  /** A file without a time axis ends the loader: the rest of the year's names change nothing. */
  lemma MonthFailureEndsYear(files: map<string, Dataset>, year: nat, month: nat)
    requires FirstYear <= year && 1 <= month <= 12
    requires LoadFold(files, Tried(year, month + 1)).Failure?
    ensures LoadFold(files, SlotNames(FirstYear, year + 1)) == LoadFold(files, Tried(year, month + 1))
  {
    TriedPrefix(year, month + 1);
    FailurePersists(files, SlotNames(FirstYear, year + 1), |Tried(year, month + 1)|);
  }

  /** A year that ends the loader leaves the later years' names untried. */
  lemma YearFailureEndsRun(files: map<string, Dataset>, year: nat)
    requires FirstYear <= year < EndYear
    requires LoadFold(files, SlotNames(FirstYear, year + 1)).Failure?
    ensures LoadFold(files, SlotNames(FirstYear, EndYear)) == LoadFold(files, SlotNames(FirstYear, year + 1))
  {
    SlotNamesPrefix(FirstYear, year + 1, EndYear);
    FailurePersists(files, SlotNames(FirstYear, EndYear), |SlotNames(FirstYear, year + 1)|);
  }

  /** The month loop of one year, given what the earlier years kept. */
  method LoadYear(files: map<string, Dataset>, year: nat, all: seq<Dataset>) returns (r: Result<seq<Dataset>, string>)
    requires FirstYear <= year
    requires LoadFold(files, SlotNames(FirstYear, year)) == Success(all)
    ensures r == LoadFold(files, SlotNames(FirstYear, year + 1))
  {
    var kept := all;
    TriedBounds(year);
    for month := 1 to 13
      invariant LoadFold(files, Tried(year, month)) == Success(kept)
    {
      var name := MonthlyFileName(Prefix, year, month);
      TryNext(files, year, month);
      if name !in files {
        continue;
      }
      var ds := files[name];
      if !ds.hasTime {
        MonthFailureEndsYear(files, year, month);
        return Failure(NoTime(name));
      }
      kept := kept + [ds];
    }
    return Success(kept);
  }

  /** The year and month loops: skip a missing file, raise on a file without a time axis, keep the rest. */
  method LoadAll(files: map<string, Dataset>) returns (r: Result<seq<Dataset>, string>)
    ensures r == LoadFold(files, SlotNames(FirstYear, EndYear))
  {
    var all: seq<Dataset> := [];
    for year := FirstYear to EndYear
      invariant LoadFold(files, SlotNames(FirstYear, year)) == Success(all)
    {
      var next := LoadYear(files, year, all);
      if next.Failure? {
        YearFailureEndsRun(files, year);
        return next;
      }
      all := next.value;
    }
    return Success(all);
  }

  /** The names of the earlier years come first. */
  lemma {:induction false} SlotNamesPrefix(from: nat, year: nat, to: nat)
    requires from <= year <= to
    ensures |SlotNames(from, year)| <= |SlotNames(from, to)|
    ensures SlotNames(from, year) == SlotNames(from, to)[..|SlotNames(from, year)|]
    decreases (to as int) - (year as int)
  {
    if year < to {
      SlotNamesNext(from, year);
      SlotNamesPrefix(from, year + 1, to);
      assert SlotNames(from, year) == SlotNames(from, year + 1)[..|SlotNames(from, year)|];
    }
  }

  // ---------------------------------------------------------------------
  // Concatenation and climatology
  // ---------------------------------------------------------------------

  /** The message of `xr.concat([])`. */
  const NothingToConcatenate: string := "must supply at least one object to concatenate"

  /** The message of `.sel` when a label is not on the season axis. */
  const NotInIndex: string := "not all values found in index 'season'"

  /** `xr.concat(all_datasets, dim="time")`: the longitude axis of the datasets and all their days in order. */
  function AllDays(all: seq<Dataset>): seq<(int, real)>
  {
    Flatten(seq(|all|, k requires 0 <= k < |all| => all[k].days))
  }

  /** Each day's value under its season label. */
  function Labelled(days: seq<(int, real)>): (r: seq<(string, real)>)
    ensures |r| == |days|
    ensures forall k :: 0 <= k < |r| ==> r[k] == (AssignSeason(days[k].0), days[k].1)
  {
    seq(|days|, k requires 0 <= k < |days| => (AssignSeason(days[k].0), days[k].1))
  }

  /** `groupby("season").mean("time")` followed by `.sel(season=["DJF", "MAM", "JJA", "SON"])`. */
  function SeasonalMeans(days: seq<(int, real)>): Result<seq<real>, string>
  {
    var rows := Labelled(days);
    if forall k :: 0 <= k < 4 ==> Seasons[k] in Keys(rows) then
      Success(seq(4, k requires 0 <= k < 4 => Mean(Members(rows, Seasons[k]))))
    else Failure(NotInIndex)
  }

  /** The climatology: the longitude axis and the four seasonal means. */
  datatype Seasonal = Seasonal(lon: seq<real>, means: seq<real>)

  function ClimatologySpec(files: map<string, Dataset>): Result<Seasonal, string>
  {
    match LoadFold(files, SlotNames(FirstYear, EndYear))
    case Failure(e) => Failure(e)
    case Success(all) =>
      if |all| == 0 then Failure(NothingToConcatenate)
      else
        match SeasonalMeans(AllDays(all))
        case Failure(e) => Failure(e)
        case Success(means) => Success(Seasonal(FixLongitudes(all[0].lon), means))
  }

  /** The whole script. */
  method ComputeClimatology(files: map<string, Dataset>) returns (r: Result<Seasonal, string>)
    ensures r == ClimatologySpec(files)
  {
    var loaded := LoadAll(files);
    if loaded.Failure? {
      return Failure(loaded.error);
    }
    var all := loaded.value;
    if |all| == 0 {
      return Failure(NothingToConcatenate);
    }
    var lon := FixLongitudes(all[0].lon);
    var means := SeasonalMeans(AllDays(all));
    if means.Failure? {
      return Failure(means.error);
    }
    return Success(Seasonal(lon, means.value));
  }

  /** The values of the days whose month is in `months`, in day order. */
  function ValuesIn(days: seq<(int, real)>, months: set<int>): seq<real>
  {
    if |days| == 0 then []
    else
      var last := days[|days| - 1];
      ValuesIn(days[..|days| - 1], months) + (if last.0 in months then [last.1] else [])
  }

  /** The members of season k are the values of the days in its months. */
  lemma {:induction false} SeasonMembers(days: seq<(int, real)>, k: nat)
    requires k < 4
    ensures Members(Labelled(days), Seasons[k]) == ValuesIn(days, SeasonMonths(k))
  {
    if |days| > 0 {
      var init := days[..|days| - 1];
      SeasonMembers(init, k);
      assert Labelled(days)[..|days| - 1] == Labelled(init);
      AssignSeasonIff(days[|days| - 1].0, k);
    }
  }

  /**
   * The climatology has exactly the four seasons in the order DJF, MAM, JJA,
   * SON, and season k's value is the mean of all days whose month lies in
   * season k; it fails when some season has no day.
   */
  lemma SeasonalMeansMeaning(days: seq<(int, real)>)
    ensures SeasonalMeans(days).Success? <==> forall k :: 0 <= k < 4 ==> |ValuesIn(days, SeasonMonths(k))| > 0
    ensures SeasonalMeans(days).Success? ==> (|SeasonalMeans(days).value| == 4 &&
      forall k :: 0 <= k < 4 ==> SeasonalMeans(days).value[k] == Mean(ValuesIn(days, SeasonMonths(k))))
  {
    forall k | 0 <= k < 4 ensures Members(Labelled(days), Seasons[k]) == ValuesIn(days, SeasonMonths(k)) {
      SeasonMembers(days, k);
    }
  }

  lemma LabelledAppend(a: seq<(int, real)>, b: seq<(int, real)>)
    ensures Labelled(a + b) == Labelled(a) + Labelled(b)
  {
  }

  /** Taking out day `i` takes its labelled row out of the labelled rows. */
  lemma LabelledRemove(b: seq<(int, real)>, i: nat)
    requires i < |b|
    ensures multiset(Labelled(b)) == multiset(Labelled(b[..i] + b[i + 1..])) + multiset(Labelled([b[i]]))
  {
    SplitAt(b, i);
    LabelledAppend(b[..i] + [b[i]], b[i + 1..]);
    LabelledAppend(b[..i], [b[i]]);
    LabelledAppend(b[..i], b[i + 1..]);
  }

  /** Reordering the days reorders the labelled rows. */
  lemma {:induction false} LabelledPermutation(a: seq<(int, real)>, b: seq<(int, real)>)
    requires multiset(a) == multiset(b)
    ensures multiset(Labelled(a)) == multiset(Labelled(b))
    decreases |a|
  {
    if |a| > 0 {
      var n := |a| - 1;
      var i := FindIn(b, a[n]);
      SplitAt(a, n);
      SplitAt(b, i);
      LabelledPermutation(a[..n] + a[n + 1..], b[..i] + b[i + 1..]);
      LabelledRemove(a, n);
      LabelledRemove(b, i);
    } else {
      assert |b| == |multiset(b)| == 0;
    }
  }

  /** The seasonal means do not depend on the order of the days. */
  lemma SeasonalOrderIndependent(a: seq<(int, real)>, b: seq<(int, real)>)
    requires multiset(a) == multiset(b)
    ensures SeasonalMeans(a) == SeasonalMeans(b)
  {
    LabelledPermutation(a, b);
    forall k | 0 <= k < 4 && Seasons[k] in Keys(Labelled(a))
      ensures Seasons[k] in Keys(Labelled(b)) && Mean(Members(Labelled(a), Seasons[k])) == Mean(Members(Labelled(b), Seasons[k]))
    {
      GroupReductionsPermutation(Labelled(a), Labelled(b), Seasons[k]);
    }
    forall k | 0 <= k < 4 && Seasons[k] in Keys(Labelled(b)) ensures Seasons[k] in Keys(Labelled(a)) {
      GroupReductionsPermutation(Labelled(b), Labelled(a), Seasons[k]);
    }
    if SeasonalMeans(a).Success? {
      var ma := seq(4, k requires 0 <= k < 4 => Mean(Members(Labelled(a), Seasons[k])));
      var mb := seq(4, k requires 0 <= k < 4 => Mean(Members(Labelled(b), Seasons[k])));
      assert forall k :: 0 <= k < 4 ==> ma[k] == mb[k];
      assert ma == mb;
    }
  }

  /** Summer days alone leave the other three seasons empty, so the selection fails. */
  lemma OnlySummerFails(days: seq<(int, real)>)
    requires forall k :: 0 <= k < |days| ==> days[k].0 in {6, 7, 8}
    ensures SeasonalMeans(days).Failure?
  {
    SeasonalMeansMeaning(days);
    NoneInMonths(days, SeasonMonths(0));
  }

  lemma {:induction false} NoneInMonths(days: seq<(int, real)>, months: set<int>)
    requires forall k :: 0 <= k < |days| ==> days[k].0 !in months
    ensures ValuesIn(days, months) == []
  {
    if |days| > 0 {
      var init := days[..|days| - 1];
      assert forall k :: 0 <= k < |init| ==> init[k] == days[k];
      NoneInMonths(init, months);
    }
  }
}
