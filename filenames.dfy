/**
 * The file-name logic of the daily and monthly scripts: which downloaded
 * files are processed, how the paired temperature file is found, how an
 * output name is derived from the first run of eight digits (`YYYYMMDD`) in
 * a source name, and which name the monthly scripts look up for a
 * (year, month).
 */
module FileNames {
  import opened Wrappers
  import opened Text

  /**
   * `any(year in file for year in years)` where `years` holds `str(y)` for
   * every `y` in `range(lo, hi)`.
   */
  predicate MentionsYear(name: string, lo: nat, hi: nat)
  {
    exists y: nat :: lo <= y < hi && Contains(name, Decimal(y))
  }

  /** The dew-point files the daily enthalpy script processes. */
  predicate SelectedDewFile(name: string)
  {
    EndsWith(name, ".nc") && Contains(name, "2d") && MentionsYear(name, 2000, 2025)
  }

  /** The temperature files the daily temperature script processes. */
  predicate SelectedTempFile(name: string)
  {
    EndsWith(name, ".nc") && Contains(name, "2t") && MentionsYear(name, 2010, 2025)
  }

  /** The temperature file paired with a dew-point file: `2d` becomes `2t`, then `168` becomes `167`. */
  function TempFileName(dew: string): (t: string)
    ensures |t| == |dew|
  {
    ReplaceAllLength(dew, "2d", "2t");
    ReplaceAllLength(ReplaceAll(dew, "2d", "2t"), "168", "167");
    ReplaceAll(ReplaceAll(dew, "2d", "2t"), "168", "167")
  }

  /** After the first rename step no `2d` is left in the name. */
  lemma DewMarkerRemoved(dew: string)
    ensures !Contains(ReplaceAll(dew, "2d", "2t"), "2d")
  {
    ReplaceAllRemovesPattern(dew, '2', 'd', 't');
  }

  /** A name in which the pattern does not occur is left as it is by `replace`. */
  lemma {:induction false} ReplaceAllAbsent(s: string, pat: string, rep: string)
    requires |pat| > 0 && !Contains(s, pat)
    ensures ReplaceAll(s, pat, rep) == s
    decreases |s|
  {
    if |s| >= |pat| {
      assert !OccursAt(s, pat, 0);
      assert s[..|pat|] != pat;
      assert !Contains(s[1..], pat) by {
        forall i | 0 <= i <= |s[1..]| - |pat| ensures !OccursAt(s[1..], pat, i) {
          assert !OccursAt(s, pat, i + 1);
          assert s[1..][i..i + |pat|] == s[i + 1..i + 1 + |pat|];
        }
      }
      ReplaceAllAbsent(s[1..], pat, rep);
      assert s == [s[0]] + s[1..];
    }
  }

  /**
   * The leftmost position at or after `from` where `n` digits in a row start,
   * as `re.search(r'\d{n}', s)` finds it.
   */
  function FirstDigitRun(s: string, n: nat, from: nat): (r: Option<nat>)
    ensures r.Some? ==> from <= r.value && DigitRunAt(s, n, r.value)
    ensures r.Some? ==> forall k :: from <= k < r.value ==> !DigitRunAt(s, n, k)
    ensures r.None? ==> forall k :: from <= k ==> !DigitRunAt(s, n, k)
    decreases |s| - from
  {
    if from + n > |s| then None
    else if DigitRunAt(s, n, from) then Some(from)
    else FirstDigitRun(s, n, from + 1)
  }

  /** `n` digits in a row start at position `k` of `s`. */
  predicate DigitRunAt(s: string, n: nat, k: nat)
  {
    k + n <= |s| && forall j :: k <= j < k + n ==> IsDigit(s[j])
  }

  /**
   * The output name a daily script writes for `source`:
   * `{prefix}{YYYY}_{MM}.nc` from the first eight-digit run `YYYYMMDD`, or
   * `None` when there is no such run (the `match.groups()` call then fails).
   */
  function OutputName(prefix: string, source: string): Option<string>
  {
    match FirstDigitRun(source, 8, 0)
    case None => None
    case Some(i) => Some(prefix + source[i..i + 4] + "_" + source[i + 4..i + 6] + ".nc")
  }

  /** The name a monthly script opens for (year, month): `{prefix}{year}_{month:02d}.nc`. */
  function MonthlyFileName(prefix: string, year: nat, month: nat): string
  {
    prefix + Decimal(year) + "_" + ZeroPad2(month) + ".nc"
  }

  /** Without an eight-digit run there is no output name. */
  lemma NoRunNoName(prefix: string, source: string)
    requires forall k: nat :: !DigitRunAt(source, 8, k)
    ensures OutputName(prefix, source) == None
  {
  }

  /**
   * For a source whose first eight-digit run is YYYYMMDD with a year that
   * has no leading zero, the daily output
   * name is exactly the name the monthly script builds for year YYYY and
   * month MM.
   */
  lemma OutputNameIsMonthlyName(prefix: string, source: string, i: nat)
    requires FirstDigitRun(source, 8, 0) == Some(i)
    requires source[i] != '0'
    ensures OutputName(prefix, source) == Some(MonthlyFileName(prefix, Value(source[i..i + 4]), Value(source[i + 4..i + 6])))
  {
    DecimalOfValue(source[i..i + 4]);
    ZeroPad2OfValue(source[i + 4..i + 6]);
  }
}
