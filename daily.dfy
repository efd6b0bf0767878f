/**
 * The daily reduction of the daily scripts: hourly samples of one grid cell
 * are bucketed by their timestamp floored to the calendar day
 * (`groupby(time.dt.floor("D"))`, or `resample(time="1D")`), and each day
 * gets the mean, minimum and maximum of its samples.  Every cell of the grid
 * is reduced the same way, with the same buckets.
 *
 * The reduction is one pass that keeps a running sum, count, minimum and
 * maximum per day; `DailySpec` states what it computes.
 */
module Daily {
  import opened Reduce
  import opened Group

  const SecondsPerDay: int := 86400

  /** A sample at `time` seconds since the epoch (UTC). */
  datatype Sample = Sample(time: int, value: real)

  /** `time.dt.floor("D")`, as a day number. */
  function DayOf(time: int): (d: int)
    ensures d * SecondsPerDay <= time < d * SecondsPerDay + SecondsPerDay
  {
    time / SecondsPerDay
  }

  /** Each sample keyed by its day. */
  function Keyed(samples: seq<Sample>): (r: seq<(int, real)>)
    ensures |r| == |samples|
    ensures forall i :: 0 <= i < |r| ==> r[i] == (DayOf(samples[i].time), samples[i].value)
  {
    seq(|samples|, i requires 0 <= i < |samples| => (DayOf(samples[i].time), samples[i].value))
  }

  /** The days that receive a bucket: exactly the days of the samples. */
  function Days(samples: seq<Sample>): set<int>
  {
    Keys(Keyed(samples))
  }

  /** The values `T_mean`, `T_min` and `T_max` of one day. */
  datatype Stats = Stats(mean: real, min: real, max: real)

  function DayStats(s: seq<real>): Stats
    requires |s| > 0
  {
    Stats(Mean(s), Min(s), Max(s))
  }

  /** The per-day mean, minimum and maximum of the samples of each day. */
  function DailySpec(samples: seq<Sample>): map<int, Stats>
  {
    map d | d in Days(samples) :: DayStats(Members(Keyed(samples), d))
  }

  /** Running totals of one day's bucket. */
  datatype Acc = Acc(sum: real, count: nat, lo: real, hi: real)

  function AccOf(s: seq<real>): Acc
    requires |s| > 0
  {
    Acc(Sum(s), |s|, Min(s), Max(s))
  }

  /** `acc` holds the running totals of every day of `rows`. */
  predicate Tracks(acc: map<int, Acc>, rows: seq<(int, real)>)
  {
    acc.Keys == Keys(rows) && forall d :: d in acc ==> acc[d] == AccOf(Members(rows, d))
  }

  /** The totals after one more sample of day `d`. */
  function Update(acc: map<int, Acc>, d: int, v: real): map<int, Acc>
  {
    if d in acc then
      var a := acc[d];
      acc[d := Acc(a.sum + v, a.count + 1, if v < a.lo then v else a.lo, if v > a.hi then v else a.hi)]
    else acc[d := Acc(v, 1, v, v)]
  }

  /** One pass over the samples, updating the bucket of each sample's day. */
  method ReduceDaily(samples: seq<Sample>) returns (out: map<int, Stats>)
    ensures out == DailySpec(samples)
  {
    var acc: map<int, Acc> := map[];
    for i := 0 to |samples|
      invariant Tracks(acc, Keyed(samples[..i]))
    {
      KeyedStep(samples, i, acc);
      acc := Update(acc, DayOf(samples[i].time), samples[i].value);
    }
    KeyedAll(samples);
    out := map d | d in acc :: Stats(acc[d].sum / acc[d].count as real, acc[d].lo, acc[d].hi);
    FinishTracks(acc, samples);
  }

  /** The totals after sample `i` track the samples up to and including it. */
  lemma KeyedStep(samples: seq<Sample>, i: nat, acc: map<int, Acc>)
    requires i < |samples| && Tracks(acc, Keyed(samples[..i]))
    ensures Tracks(Update(acc, DayOf(samples[i].time), samples[i].value), Keyed(samples[..i + 1]))
  {
    var d, v := DayOf(samples[i].time), samples[i].value;
    assert Keyed(samples[..i + 1]) == Keyed(samples[..i]) + [(d, v)];
    UpdateTracks(acc, Keyed(samples[..i]), d, v);
  }

  lemma KeyedAll(samples: seq<Sample>)
    ensures Keyed(samples[..|samples|]) == Keyed(samples)
  {
    assert samples[..|samples|] == samples;
  }

  lemma UpdateTracks(acc: map<int, Acc>, rows: seq<(int, real)>, d: int, v: real)
    requires Tracks(acc, rows)
    ensures Tracks(Update(acc, d, v), rows + [(d, v)])
  {
    var next := Update(acc, d, v);
    forall k ensures k in next <==> k in Keys(rows + [(d, v)]) {
      AddRowKeys(rows, d, v, k);
    }
    forall k | k in next ensures next[k] == AccOf(Members(rows + [(d, v)], k)) {
      AddRow(rows, d, v, k);
    }
  }

  lemma FinishTracks(acc: map<int, Acc>, samples: seq<Sample>)
    requires Tracks(acc, Keyed(samples))
    ensures (map d | d in acc :: Stats(acc[d].sum / acc[d].count as real, acc[d].lo, acc[d].hi)) == DailySpec(samples)
  {
    var out := map d | d in acc :: Stats(acc[d].sum / acc[d].count as real, acc[d].lo, acc[d].hi);
    var spec := DailySpec(samples);
    assert out.Keys == acc.Keys;
    assert spec.Keys == Days(samples) == Keys(Keyed(samples));
    forall d | d in out ensures out[d] == spec[d] {
      FinishDay(acc, samples, d);
    }
  }

  /** The totals of one day give that day's mean, minimum and maximum. */
  lemma FinishDay(acc: map<int, Acc>, samples: seq<Sample>, d: int)
    requires Tracks(acc, Keyed(samples)) && d in acc
    ensures acc[d].count > 0
    ensures Stats(acc[d].sum / acc[d].count as real, acc[d].lo, acc[d].hi) == DayStats(Members(Keyed(samples), d))
  {
    var m := Members(Keyed(samples), d);
    assert acc[d] == AccOf(m);
  }

  /** Appending a sample adds it to its own day's bucket and to no other. */
  lemma AddRow(rows: seq<(int, real)>, d: int, v: real, k: int)
    ensures Members(rows + [(d, v)], k) == if k == d then Members(rows, k) + [v] else Members(rows, k)
    ensures k == d && |Members(rows, k)| > 0 ==>
      var m := Members(rows, k);
      AccOf(m + [v]) == Acc(Sum(m) + v, |m| + 1, if v < Min(m) then v else Min(m), if v > Max(m) then v else Max(m))
    ensures k == d && |Members(rows, k)| == 0 ==> AccOf(Members(rows + [(d, v)], k)) == Acc(v, 1, v, v)
  {
    assert (rows + [(d, v)])[..|rows|] == rows;
    var m := Members(rows, k);
    if k == d && |m| > 0 {
      assert Init(m + [v]) == m;
    }
    if k == d && |m| == 0 {
      Singleton(v);
    }
  }

  lemma AddRowKeys(rows: seq<(int, real)>, d: int, v: real, k: int)
    ensures k in Keys(rows + [(d, v)]) <==> k in Keys(rows) || k == d
  {
    AddRow(rows, d, v, k);
  }

  /** Every output day has at least one sample, and every sample's day is an output day. */
  lemma DaysOfSamples(samples: seq<Sample>, d: int)
    ensures d in DailySpec(samples) <==> exists i :: 0 <= i < |samples| && DayOf(samples[i].time) == d
  {
    if d in Days(samples) {
      var i :| 0 <= i < |Keyed(samples)| && Keyed(samples)[i].0 == d;
      assert DayOf(samples[i].time) == d;
    }
    if exists i :: 0 <= i < |samples| && DayOf(samples[i].time) == d {
      var i :| 0 <= i < |samples| && DayOf(samples[i].time) == d;
      assert Keyed(samples)[i].0 == d;
    }
  }

  /**
   * For every day, min <= mean <= max; the mean reaches the minimum or the
   * maximum only when all of the day's samples are equal.
   */
  lemma DailyOrdered(samples: seq<Sample>, d: int)
    requires d in DailySpec(samples)
    ensures DailySpec(samples)[d].min <= DailySpec(samples)[d].mean <= DailySpec(samples)[d].max
    ensures DailySpec(samples)[d].mean == DailySpec(samples)[d].min ==> DailySpec(samples)[d].max == DailySpec(samples)[d].min
    ensures DailySpec(samples)[d].mean == DailySpec(samples)[d].max ==> DailySpec(samples)[d].min == DailySpec(samples)[d].max
  {
    var m := Members(Keyed(samples), d);
    MinMeanMax(m);
    if Mean(m) == Min(m) {
      MeanAtMin(m);
    }
    if Mean(m) == Max(m) {
      MeanAtMax(m);
    }
  }

  /** A day with a single sample has that sample as its mean, minimum and maximum. */
  lemma SingleSampleDay(samples: seq<Sample>, d: int, x: real)
    requires Members(Keyed(samples), d) == [x]
    ensures d in DailySpec(samples) && DailySpec(samples)[d] == Stats(x, x, x)
  {
    Singleton(x);
  }

  lemma KeyedAppend(a: seq<Sample>, b: seq<Sample>)
    ensures Keyed(a + b) == Keyed(a) + Keyed(b)
  {
  }

  /** Reordering the samples reorders the keyed rows. */
  lemma {:induction false} KeyedPermutation(a: seq<Sample>, b: seq<Sample>)
    requires multiset(a) == multiset(b)
    ensures multiset(Keyed(a)) == multiset(Keyed(b))
    decreases |a|
  {
    if |a| > 0 {
      var n := |a| - 1;
      var i := FindIn(b, a[n]);
      SplitAt(a, n);
      SplitAt(b, i);
      KeyedPermutation(a[..n] + a[n + 1..], b[..i] + b[i + 1..]);
      KeyedRemove(a, n);
      KeyedRemove(b, i);
    } else {
      assert |b| == |multiset(b)| == 0;
    }
  }

  /** Taking out sample `i` takes its keyed row out of the keyed rows. */
  lemma KeyedRemove(b: seq<Sample>, i: nat)
    requires i < |b|
    ensures multiset(Keyed(b)) == multiset(Keyed(b[..i] + b[i + 1..])) + multiset(Keyed([b[i]]))
  {
    SplitAt(b, i);
    KeyedAppend(b[..i] + [b[i]], b[i + 1..]);
    KeyedAppend(b[..i], [b[i]]);
    KeyedAppend(b[..i], b[i + 1..]);
  }

  /** The per-day mean, minimum and maximum do not depend on the order of the samples. */
  lemma DailyOrderIndependent(a: seq<Sample>, b: seq<Sample>)
    requires multiset(a) == multiset(b)
    ensures DailySpec(a) == DailySpec(b)
  {
    KeyedPermutation(a, b);
    forall d | d in Days(a) ensures d in Days(b) && DayStats(Members(Keyed(a), d)) == DayStats(Members(Keyed(b), d)) {
      GroupReductionsPermutation(Keyed(a), Keyed(b), d);
    }
    forall d | d in Days(b) ensures d in Days(a) {
      GroupReductionsPermutation(Keyed(b), Keyed(a), d);
    }
  }
}
