/**
 * How the stages fit together: the files the daily scripts write are the
 * files the monthly scripts look for, and the daily statistics they write
 * are of the shape for which the masked degree-day writes compute the
 * piecewise rule.
 */
module Pipeline {
  import opened Wrappers
  import opened Text
  import opened FileNames
  import Daily
  import DegreeDays
  import DailyPlan
  import CddMonthly
  import QddMonthly

  /** A source with its first eight-digit run at `i`, with a year without leading zero. */
  predicate DatedSource(source: string, i: nat)
  {
    FirstDigitRun(source, 8, 0) == Some(i) && source[i] != '0'
  }

  /** Every file the daily temperature script writes is the CDD script's input for its year and month. */
  lemma TemperatureFeedsCdd(listing: seq<string>, j: nat, i: nat)
    requires j < |DailyPlan.PlanSpec(DailyPlan.ScriptRule(DailyPlan.TemperatureScript), SortNames(listing)).jobs|
    requires DatedSource(DailyPlan.PlanSpec(DailyPlan.ScriptRule(DailyPlan.TemperatureScript), SortNames(listing)).jobs[j].source, i)
    ensures var job := DailyPlan.PlanSpec(DailyPlan.ScriptRule(DailyPlan.TemperatureScript), SortNames(listing)).jobs[j];
      job.output == MonthlyFileName(CddMonthly.Prefix, Value(job.source[i..i + 4]), Value(job.source[i + 4..i + 6]))
  {
    var rule := DailyPlan.ScriptRule(DailyPlan.TemperatureScript);
    DailyPlan.PlanJobs(rule, SortNames(listing));
    var job := DailyPlan.PlanSpec(rule, SortNames(listing)).jobs[j];
    assert DailyPlan.JobFollows(rule, job);
    OutputNameIsMonthlyName(CddMonthly.Prefix, job.source, i);
  }

  /** Every file the daily enthalpy script writes is the QDD script's input for its year and month. */
  lemma EnthalpyFeedsQdd(listing: seq<string>, j: nat, i: nat)
    requires j < |DailyPlan.PlanSpec(DailyPlan.ScriptRule(DailyPlan.EnthalpyScript), SortNames(listing)).jobs|
    requires DatedSource(DailyPlan.PlanSpec(DailyPlan.ScriptRule(DailyPlan.EnthalpyScript), SortNames(listing)).jobs[j].source, i)
    ensures var job := DailyPlan.PlanSpec(DailyPlan.ScriptRule(DailyPlan.EnthalpyScript), SortNames(listing)).jobs[j];
      job.output == MonthlyFileName(QddMonthly.Prefix, Value(job.source[i..i + 4]), Value(job.source[i + 4..i + 6]))
  {
    var rule := DailyPlan.ScriptRule(DailyPlan.EnthalpyScript);
    DailyPlan.PlanJobs(rule, SortNames(listing));
    var job := DailyPlan.PlanSpec(rule, SortNames(listing)).jobs[j];
    assert DailyPlan.JobFollows(rule, job);
    OutputNameIsMonthlyName(QddMonthly.Prefix, job.source, i);
  }

  /**
   * On the statistics a daily script writes for a day, the masked writes of
   * the monthly scripts compute the piecewise degree-day rule, for any base.
   */
  lemma DailyStatsGiveDegreeDays(samples: seq<Daily.Sample>, d: int, t: real)
    requires d in Daily.DailySpec(samples)
    ensures var s := Daily.DailySpec(samples)[d];
      DegreeDays.StatsShape(s.max, s.mean, s.min) &&
      DegreeDays.Masked(s.max, s.mean, s.min, t) == DegreeDays.DegreeDay(s.max, s.mean, s.min, t)
  {
    Daily.DailyOrdered(samples, d);
    var s := Daily.DailySpec(samples)[d];
    DegreeDays.MaskedIsDegreeDay(s.max, s.mean, s.min, t);
  }
}
