/**
 * The moist-air enthalpy of `getting_daily_Q.py`: dew point and temperature
 * are converted from kelvin to degrees Celsius, the humidity ratio is
 * derived from the vapour pressure at the dew point, the enthalpy from the
 * temperature and the humidity ratio, and the hourly enthalpy is reduced to
 * daily mean, minimum and maximum.
 *
 * The saturation vapour pressure (an exponential of the dew point) is a
 * given function `vapour`.
 */
module DailyQ {
  import opened Wrappers
  import opened Daily

  const KelvinOffset: real := 273.15

  /** Standard sea-level pressure in hPa, the default of the humidity ratio. */
  const StandardPressure: real := 1013.25

  /** `x - 273.15`: a kelvin reading in degrees Celsius. */
  function KelvinToCelsius(kelvin: real): (celsius: real)
    ensures celsius + KelvinOffset == kelvin
    ensures celsius < 0.0 <==> kelvin < KelvinOffset
  {
    kelvin - KelvinOffset
  }

  /**
   * `0.622 * (e / (P - e))`, in kg of vapour per kg of dry air.  At `e == P`
   * the division has no value.
   */
  function HumidityRatio(e: real, p: real): (w: Option<real>)
    ensures w.None? <==> e == p
    ensures w.Some? ==> w.value * (p - e) == 0.622 * e
  {
    if e == p then None else Some(0.622 * (e / (p - e)))
  }

  /** Below the pressure, a non-negative vapour pressure gives a non-negative ratio, zero only for dry air. */
  lemma HumidityRatioNonNegative(e: real, p: real)
    requires 0.0 <= e < p
    ensures HumidityRatio(e, p).Some?
    ensures HumidityRatio(e, p).value >= 0.0
    ensures HumidityRatio(e, p).value == 0.0 <==> e == 0.0
  {
    var q := e / (p - e);
    assert q * (p - e) == e;
    NonNegativeQuotient(e, p - e);
  }

  lemma NonNegativeQuotient(x: real, y: real)
    requires 0.0 <= x && 0.0 < y
    ensures x / y >= 0.0
  {
  }

  /** `1.006 * T + W * (2501 + 1.86 * T)`, in kJ per kg of dry air. */
  function Enthalpy(t: real, w: real): real
  {
    1.006 * t + w * (2501.0 + 1.86 * t)
  }

  /** Dry air has the sensible heat term alone. */
  lemma EnthalpyDryAir(t: real)
    ensures Enthalpy(t, 0.0) == 1.006 * t
  {
  }

  /** Above -2501/1.86 degrees, more moisture means more enthalpy. */
  lemma EnthalpyIncreasing(t: real, w1: real, w2: real)
    requires 1.86 * t > -2501.0 && w1 < w2
    ensures Enthalpy(t, w1) < Enthalpy(t, w2)
  {
    var k := 2501.0 + 1.86 * t;
    assert (w2 - w1) * k > 0.0;
    assert Enthalpy(t, w2) - Enthalpy(t, w1) == (w2 - w1) * k;
  }

  /** One hour of the paired dew-point and temperature files, in kelvin. */
  datatype Hour = Hour(time: int, dewK: real, tempK: real)

  /** The enthalpy of one hour, when its humidity ratio has a value. */
  function HourEnthalpy(h: Hour, vapour: real -> real): Option<real>
  {
    match HumidityRatio(vapour(KelvinToCelsius(h.dewK)), StandardPressure)
    case None => None
    case Some(w) => Some(Enthalpy(KelvinToCelsius(h.tempK), w))
  }

  /**
   * The hourly enthalpy series `Q`: the series exists when every hour's
   * vapour pressure differs from the pressure, and then hour i's value is the
   * enthalpy of its temperature and humidity ratio, both taken in Celsius.
   */
  function QSeries(hours: seq<Hour>, vapour: real -> real): (r: Option<seq<Sample>>)
    ensures r.Some? <==> forall i :: 0 <= i < |hours| ==> HourEnthalpy(hours[i], vapour).Some?
    ensures r.Some? ==> |r.value| == |hours| && forall i :: 0 <= i < |hours| ==>
      r.value[i] == Sample(hours[i].time, HourEnthalpy(hours[i], vapour).value)
  {
    if |hours| == 0 then Some([])
    else
      var init := hours[..|hours| - 1];
      var last := hours[|hours| - 1];
      assert forall i :: 0 <= i < |init| ==> init[i] == hours[i];
      match QSeries(init, vapour)
      case None => None
      case Some(s) =>
        match HourEnthalpy(last, vapour)
        case None => None
        case Some(q) => Some(s + [Sample(last.time, q)])
  }

  /** An hour whose vapour pressure stays below the pressure has an enthalpy of at least 1.006 T. */
  lemma HourEnthalpyBound(h: Hour, vapour: real -> real)
    requires 0.0 <= vapour(KelvinToCelsius(h.dewK)) < StandardPressure
    requires 1.86 * KelvinToCelsius(h.tempK) > -2501.0
    ensures HourEnthalpy(h, vapour).Some?
    ensures HourEnthalpy(h, vapour).value >= 1.006 * KelvinToCelsius(h.tempK)
  {
    var e := vapour(KelvinToCelsius(h.dewK));
    HumidityRatioNonNegative(e, StandardPressure);
    var w := HumidityRatio(e, StandardPressure).value;
    var t := KelvinToCelsius(h.tempK);
    if w > 0.0 {
      EnthalpyIncreasing(t, 0.0, w);
    }
  }

  /** `Q.resample(time="1D").mean()/.min()/.max()`: the daily reduction of the enthalpy series. */
  method DailyEnthalpy(hours: seq<Hour>, vapour: real -> real) returns (out: Option<map<int, Stats>>)
    ensures out.None? <==> QSeries(hours, vapour).None?
    ensures out.Some? ==> out.value == DailySpec(QSeries(hours, vapour).value)
  {
    var series := QSeries(hours, vapour);
    if series.None? {
      return None;
    }
    var daily := ReduceDaily(series.value);
    return Some(daily);
  }
}
