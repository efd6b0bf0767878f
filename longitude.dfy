/**
 * `convert_longitudes(lon) = (lon + 180) % 360 - 180`, with Python's
 * floating-point `%` taken exactly: the remainder has the sign of the
 * divisor, so it lies in [0, 360).
 */
module Longitude {

  /** Python's `x % 360.0`: `x - 360 * floor(x / 360)`, which lies in [0, 360). */
  function PyMod360(x: real): (r: real)
    ensures 0.0 <= r < 360.0
  {
    var q := (x / 360.0).Floor;
    assert q as real <= x / 360.0 < q as real + 1.0;
    x - 360.0 * q as real
  }

  /** `lon` and `r` name the same meridian: they differ by `k` whole turns. */
  predicate SameMeridian(r: real, lon: real, k: int)
  {
    r == lon + 360.0 * k as real
  }

  /** The whole turns the conversion adds to `lon`. */
  function Turns(lon: real): int
  {
    -((lon + 180.0) / 360.0).Floor
  }

  function ConvertLongitude(lon: real): (r: real)
    ensures -180.0 <= r < 180.0
    ensures exists k: int :: SameMeridian(r, lon, k)
    ensures SameMeridian(r, lon, Turns(lon))
  {
    var r := PyMod360(lon + 180.0) - 180.0;
    assert SameMeridian(r, lon, Turns(lon));
    r
  }

  /** Two longitudes in [-180, 180) on the same meridian are equal. */
  lemma SameMeridianUnique(r1: real, r2: real, lon: real, k1: int, k2: int)
    requires -180.0 <= r1 < 180.0 && -180.0 <= r2 < 180.0
    requires SameMeridian(r1, lon, k1) && SameMeridian(r2, lon, k2)
    ensures r1 == r2
  {
    assert r1 - r2 == 360.0 * (k1 - k2) as real;
  }

  /** The result is the one value in [-180, 180) on the meridian of `lon`. */
  lemma ConvertLongitudeCanonical(lon: real, r: real, k: int)
    requires -180.0 <= r < 180.0 && SameMeridian(r, lon, k)
    ensures ConvertLongitude(lon) == r
  {
    var c := ConvertLongitude(lon);
    var kc :| SameMeridian(c, lon, kc);
    SameMeridianUnique(c, r, lon, kc, k);
  }

  /** On [-180, 180) the conversion is the identity, and so it is idempotent. */
  lemma ConvertLongitudeIdentity(lon: real)
    requires -180.0 <= lon < 180.0
    ensures ConvertLongitude(lon) == lon
  {
    ConvertLongitudeCanonical(lon, lon, 0);
  }

  lemma ConvertLongitudeIdempotent(lon: real)
    ensures ConvertLongitude(ConvertLongitude(lon)) == ConvertLongitude(lon)
  {
    ConvertLongitudeIdentity(ConvertLongitude(lon));
  }

  /**
   * `convert_longitudes` applied to a whole coordinate vector: every entry
   * is moved into [-180, 180) and stays on the meridian of its input.
   */
  function ConvertAll(lons: seq<real>): (r: seq<real>)
    ensures |r| == |lons|
    ensures forall i :: 0 <= i < |r| ==> r[i] == ConvertLongitude(lons[i])
    ensures InRange(r)
    ensures forall i :: 0 <= i < |r| ==> SameMeridian(r[i], lons[i], Turns(lons[i]))
  {
    seq(|lons|, i requires 0 <= i < |lons| => ConvertLongitude(lons[i]))
  }

  predicate InRange(lons: seq<real>)
  {
    forall i :: 0 <= i < |lons| ==> -180.0 <= lons[i] < 180.0
  }

  /** `if longitude.max() > 180: convert` (the climatology's longitude fix). */
  function FixLongitudes(lons: seq<real>): seq<real>
  {
    if exists i :: 0 <= i < |lons| && lons[i] > 180.0 then ConvertAll(lons) else lons
  }

  /** After a shift every longitude lies in [-180, 180); without one the axis is unchanged and at most 180. */
  lemma FixLongitudesResult(lons: seq<real>)
    ensures (exists i :: 0 <= i < |lons| && lons[i] > 180.0) ==> InRange(FixLongitudes(lons))
    ensures (forall i :: 0 <= i < |lons| ==> lons[i] <= 180.0) ==> FixLongitudes(lons) == lons
  {
  }

  /** An axis already in [-180, 180) is left as it is. */
  lemma ConvertAllIdentity(lons: seq<real>)
    requires InRange(lons)
    ensures ConvertAll(lons) == lons
  {
    forall i | 0 <= i < |lons| ensures ConvertAll(lons)[i] == lons[i] {
      ConvertLongitudeIdentity(lons[i]);
    }
  }
}
