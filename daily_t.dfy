/**
 * The daily temperature of `getting_daily_T.py`: the hourly 2 m temperature
 * is converted from kelvin to degrees Celsius and reduced to the daily mean,
 * minimum and maximum (`T_mean`, `T_min`, `T_max`).
 */
module DailyT {
  import opened Daily
  import opened DailyQ

  /** `ds_temp["VAR_2T"] - 273.15`: the same instants, every value in Celsius. */
  function CelsiusSeries(raw: seq<Sample>): (r: seq<Sample>)
    ensures |r| == |raw|
    ensures forall i :: 0 <= i < |r| ==> r[i].time == raw[i].time && r[i].value + KelvinOffset == raw[i].value
  {
    seq(|raw|, i requires 0 <= i < |raw| => Sample(raw[i].time, KelvinToCelsius(raw[i].value)))
  }

  /** The shift keeps the instants, so the days are those of the raw series. */
  lemma CelsiusSeriesDays(raw: seq<Sample>)
    ensures Days(CelsiusSeries(raw)) == Days(raw)
  {
    assert Keyed(CelsiusSeries(raw)) == seq(|raw|, i requires 0 <= i < |raw| => (Keyed(raw)[i].0, Keyed(raw)[i].1 - KelvinOffset));
    forall d | d in Days(raw) ensures d in Days(CelsiusSeries(raw)) {
      var i :| 0 <= i < |raw| && Keyed(raw)[i].0 == d;
      assert Keyed(CelsiusSeries(raw))[i].0 == d;
    }
    forall d | d in Days(CelsiusSeries(raw)) ensures d in Days(raw) {
      var i :| 0 <= i < |raw| && Keyed(CelsiusSeries(raw))[i].0 == d;
      assert Keyed(raw)[i].0 == d;
    }
  }

  /** The daily statistics of the temperature file. */
  method DailyTemperature(raw: seq<Sample>) returns (out: map<int, Stats>)
    ensures out == DailySpec(CelsiusSeries(raw))
  {
    out := ReduceDaily(CelsiusSeries(raw));
  }
}
