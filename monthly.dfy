/**
 * The year and month loops shared by the monthly scripts: for each year,
 * the month files that exist are processed in month order and concatenated
 * into that year's table; a month without a file is skipped; a year without
 * any file leaves nothing to concatenate, which raises and ends the run.
 */
module Monthly {
  import opened Wrappers
  import opened Text
  import opened FileNames

  /** The message of `pd.concat([])`. */
  const NoObjects: string := "No objects to concatenate"

  /** `os.path.exists(...)` of each month's file of `year`. */
  function FileExists(prefix: string, year: nat, files: set<string>): nat -> bool
  {
    (m: nat) => MonthlyFileName(prefix, year, m) in files
  }

  /** The months 1..n for which `present` holds, in month order. */
  function MonthsWhere(present: nat -> bool, n: nat): seq<nat>
  {
    if n == 0 then []
    else MonthsWhere(present, n - 1) + (if present(n) then [n] else [])
  }
  /** The months up to `n` are, in ascending order, exactly those for which `present` holds. */
  lemma {:induction false} MonthsWhereMeaning(present: nat -> bool, n: nat)
    ensures var r := MonthsWhere(present, n);
      forall k :: 0 <= k < |r| ==> 1 <= r[k] <= n
    ensures var r := MonthsWhere(present, n);
      forall k, l :: 0 <= k < l < |r| ==> r[k] < r[l]
    ensures var r := MonthsWhere(present, n);
      forall m :: m in r <==> 1 <= m <= n && present(m)
  {
    if n > 0 {
      MonthsWhereMeaning(present, n - 1);
      var prev, r := MonthsWhere(present, n - 1), MonthsWhere(present, n);
      var last: seq<nat> := if present(n) then [n] else [];
      assert r == prev + last;
      forall k | 0 <= k < |r| ensures 1 <= r[k] <= n {
        if k < |prev| { assert r[k] == prev[k]; }
      }
      forall k, l | 0 <= k < l < |r| ensures r[k] < r[l] {
        if l < |prev| { assert r[k] == prev[k] && r[l] == prev[l]; }
        else { assert r[k] == prev[k]; }
      }
      forall m ensures m in r <==> 1 <= m <= n && present(m) {
        assert m in r <==> m in prev || m in last;
      }
    }
  }

  /** The months 1..n of `year` whose file exists, in month order. */
  function MonthsUpTo(prefix: string, year: nat, files: set<string>, n: nat): seq<nat>
  {
    if n == 0 then []
    else MonthsUpTo(prefix, year, files, n - 1) + (if MonthlyFileName(prefix, year, n) in files then [n] else [])
  }

  /** The months of `year` processed are those the file-existence test selects. */
  lemma {:induction false} MonthsUpToIsWhere(prefix: string, year: nat, files: set<string>, n: nat)
    ensures MonthsUpTo(prefix, year, files, n) == MonthsWhere(FileExists(prefix, year, files), n)
  {
    if n > 0 {
      MonthsUpToIsWhere(prefix, year, files, n - 1);
    }
  }

  /** `for month in range(1, 13): if os.path.exists(...)`. */
  function ExistingMonths(prefix: string, year: nat, files: set<string>): seq<nat>
  {
    MonthsUpTo(prefix, year, files, 12)
  }

  /** With every month's file present, the year has twelve tables, January to December. */
  lemma {:induction false} AllMonthsPresent(present: nat -> bool, n: nat)
    requires forall m :: 1 <= m <= n ==> present(m)
    ensures |MonthsWhere(present, n)| == n
    ensures forall k :: 0 <= k < n ==> MonthsWhere(present, n)[k] == k + 1
  {
    if n > 0 {
      AllMonthsPresent(present, n - 1);
      var prev, r := MonthsWhere(present, n - 1), MonthsWhere(present, n);
      assert r == prev + [n];
      forall k | 0 <= k < n ensures r[k] == k + 1 {
        if k < n - 1 {
          assert r[k] == prev[k];
        }
      }
    }
  }

  /** A year without any file has no tables. */
  lemma {:induction false} NoMonthPresent(present: nat -> bool, n: nat)
    requires forall m :: 1 <= m <= n ==> !present(m)
    ensures MonthsWhere(present, n) == []
  {
    if n > 0 {
      NoMonthPresent(present, n - 1);
    }
  }

  /** The tables of the given months, in their order. */
  function YearTables<T>(months: seq<nat>, table: nat -> T): (r: seq<T>)
    ensures |r| == |months|
    ensures forall k :: 0 <= k < |r| ==> r[k] == table(months[k])
  {
    seq(|months|, k requires 0 <= k < |months| => table(months[k]))
  }

  /**
   * One year of a monthly script: the tables of the months whose file
   * exists, concatenated in month order, or the concatenation error when
   * there is none.
   */
  function YearResult<T>(prefix: string, year: nat, files: set<string>, table: nat -> T): Result<seq<T>, string>
  {
    var months := ExistingMonths(prefix, year, files);
    if |months| == 0 then Failure(NoObjects) else Success(YearTables(months, table))
  }

  /** A month that is processed has its file. */
  lemma ListedPresent(prefix: string, year: nat, files: set<string>, n: nat, m: nat)
    requires m in MonthsUpTo(prefix, year, files, n)
    ensures 1 <= m <= n && MonthlyFileName(prefix, year, m) in files
  {
    MonthsUpToIsWhere(prefix, year, files, n);
    MonthsWhereMeaning(FileExists(prefix, year, files), n);
  }

  /** A month in range that is not processed has no file. */
  lemma UnlistedMissing(prefix: string, year: nat, files: set<string>, n: nat, m: nat)
    requires 1 <= m <= n && m !in MonthsUpTo(prefix, year, files, n)
    ensures MonthlyFileName(prefix, year, m) !in files
  {
    MonthsUpToIsWhere(prefix, year, files, n);
    MonthsWhereMeaning(FileExists(prefix, year, files), n);
  }

  /** A year fails exactly when none of its twelve files exists, and then with the concatenation error. */
  lemma YearFails<T>(prefix: string, year: nat, files: set<string>, table: nat -> T)
    ensures YearResult(prefix, year, files, table).Failure? <==>
      forall m :: 1 <= m <= 12 ==> MonthlyFileName(prefix, year, m) !in files
    ensures YearResult(prefix, year, files, table).Failure? ==> YearResult(prefix, year, files, table).error == NoObjects
  {
    var months := ExistingMonths(prefix, year, files);
    if |months| > 0 {
      ListedPresent(prefix, year, files, 12, months[0]);
    } else {
      forall m | 1 <= m <= 12 ensures MonthlyFileName(prefix, year, m) !in files {
        UnlistedMissing(prefix, year, files, 12, m);
      }
    }
  }

  /** The loop over months after month `m`: the months present so far gain month `m` when its file exists. */
  lemma MonthStep<T>(prefix: string, year: nat, files: set<string>, table: nat -> T, m: nat)
    requires m >= 1
    ensures YearTables(MonthsUpTo(prefix, year, files, m), table) ==
      YearTables(MonthsUpTo(prefix, year, files, m - 1), table) +
      (if MonthlyFileName(prefix, year, m) in files then [table(m)] else [])
  {
  }

  /** The CSV a monthly script writes for one year, under the script's output prefix. */
  function CsvName(prefix: string, year: nat): (r: string)
    ensures |r| > |prefix| + 4 && r[..|prefix|] == prefix && r[|r| - 4..] == ".csv"
  {
    prefix + Decimal(year) + ".csv"
  }

  /** Different years are written to different files. */
  lemma CsvNameInjective(prefix: string, a: nat, b: nat)
    requires CsvName(prefix, a) == CsvName(prefix, b)
    ensures a == b
  {
    var na, nb := CsvName(prefix, a), CsvName(prefix, b);
    assert na[|prefix|..|na| - 4] == Decimal(a);
    assert nb[|prefix|..|nb| - 4] == Decimal(b);
  }

  /** What the loop over years leaves behind: the years saved, in order, and the year it raised at. */
  datatype Run<T> = Run(saved: seq<(nat, T)>, failedYear: Option<nat>)

  /** `for year in range(from, to)`, where a failing year raises and ends the loop. */
  function RunSpec<T>(yearResult: nat -> Result<T, string>, from: nat, to: nat): Run<T>
    decreases if from <= to then to - from else 0
  {
    if from >= to then Run([], None)
    else match yearResult(from)
      case Failure(_) => Run([], Some(from))
      case Success(t) =>
        var rest := RunSpec(yearResult, from + 1, to);
        Run([(from, t)] + rest.saved, rest.failedYear)
  }

  /** The loop over years has reached `year`, having saved `saved`: the rest of the run follows from there. */
  ghost predicate RunSoFar<T>(yearResult: nat -> Result<T, string>, from: nat, to: nat, saved: seq<(nat, T)>, year: nat)
  {
    RunSpec(yearResult, from, to) == Run(saved + RunSpec(yearResult, year, to).saved, RunSpec(yearResult, year, to).failedYear)
  }

  lemma RunStart<T>(yearResult: nat -> Result<T, string>, from: nat, to: nat)
    ensures RunSoFar(yearResult, from, to, [], from)
  {
    assert [] + RunSpec(yearResult, from, to).saved == RunSpec(yearResult, from, to).saved;
  }

  /** A successful year is saved and the loop moves on. */
  lemma RunSaves<T>(yearResult: nat -> Result<T, string>, from: nat, to: nat, saved: seq<(nat, T)>, year: nat, t: T)
    requires year < to && RunSoFar(yearResult, from, to, saved, year)
    requires yearResult(year) == Success(t)
    ensures RunSoFar(yearResult, from, to, saved + [(year, t)], year + 1)
  {
    var rest := RunSpec(yearResult, year + 1, to);
    assert saved + ([(year, t)] + rest.saved) == (saved + [(year, t)]) + rest.saved;
  }

  /** A failing year ends the run with what has been saved. */
  lemma RunRaises<T>(yearResult: nat -> Result<T, string>, from: nat, to: nat, saved: seq<(nat, T)>, year: nat)
    requires year < to && RunSoFar(yearResult, from, to, saved, year)
    requires yearResult(year).Failure?
    ensures RunSpec(yearResult, from, to) == Run(saved, Some(year))
  {
    assert saved + [] == saved;
  }

  /** After the last year nothing failed and everything was saved. */
  lemma RunEnds<T>(yearResult: nat -> Result<T, string>, from: nat, to: nat, saved: seq<(nat, T)>)
    requires RunSoFar(yearResult, from, to, saved, to)
    ensures RunSpec(yearResult, from, to) == Run(saved, None)
  {
    assert saved + [] == saved;
  }

  /**
   * The saved years are `from`, `from + 1`, ... with their tables; the run
   * raises at the first year whose result is a failure, and otherwise saves
   * every year up to `to`.
   */
  lemma {:induction false} RunShape<T>(yearResult: nat -> Result<T, string>, from: nat, to: nat)
    requires from <= to
    ensures (var r := RunSpec(yearResult, from, to);
      forall k :: 0 <= k < |r.saved| ==> r.saved[k].0 == from + k && yearResult(from + k) == Success(r.saved[k].1))
    ensures (var r := RunSpec(yearResult, from, to);
      r.failedYear.Some? ==> r.failedYear.value == from + |r.saved| < to && yearResult(r.failedYear.value).Failure?)
    ensures (var r := RunSpec(yearResult, from, to);
      r.failedYear.None? ==> from + |r.saved| == to)
    decreases (to as int) - (from as int)
  {
    if from < to && yearResult(from).Success? {
      RunShape(yearResult, from + 1, to);
      var r := RunSpec(yearResult, from, to);
      var rest := RunSpec(yearResult, from + 1, to);
      assert forall k :: 1 <= k < |r.saved| ==> r.saved[k] == rest.saved[k - 1];
    }
  }

  /** The CSV files a run writes, one per saved year, in year order, with the year's tables. */
  function Written<T>(prefix: string, run: Run<T>): seq<(string, T)>
  {
    seq(|run.saved|, k requires 0 <= k < |run.saved| => (CsvName(prefix, run.saved[k].0), run.saved[k].1))
  }

  /**
   * A run writes each year's CSV once: the files it writes are pairwise
   * distinct, so no table overwrites another, and file k holds year from + k.
   */
  lemma WrittenDistinct<T>(prefix: string, yearResult: nat -> Result<T, string>, from: nat, to: nat)
    requires from <= to
    ensures var w := Written(prefix, RunSpec(yearResult, from, to));
      forall k :: 0 <= k < |w| ==> w[k].0 == CsvName(prefix, from + k) && yearResult(from + k) == Success(w[k].1)
    ensures var w := Written(prefix, RunSpec(yearResult, from, to));
      forall k, l :: 0 <= k < l < |w| ==> w[k].0 != w[l].0
  {
    RunShape(yearResult, from, to);
    var w := Written(prefix, RunSpec(yearResult, from, to));
    forall k, l | 0 <= k < l < |w| ensures w[k].0 != w[l].0 {
      if w[k].0 == w[l].0 {
        CsvNameInjective(prefix, from + k, from + l);
      }
    }
  }
}
