/**
 * The degree-day rule of `calculate_cdd` (and of `calculate_qdd`, which is
 * the same rule with another default threshold).  For one cell and one day,
 * from the day's maximum, mean and minimum of a metric and a threshold
 * `t`, four conditions select four formulas:
 *
 *   1. max <= t               ->  0
 *   2. mean <= t < max        ->  (max - t) / 4
 *   3. min < t < mean         ->  (max - t) / 2 - (t - min) / 4
 *   4. min >= t               ->  mean - t
 *
 * The source applies them as four masked writes, in this order, into an
 * array of zeros, so a cell where several conditions hold keeps the value of
 * the last one.  `Masked` models exactly that; `DegreeDay` is the guarded
 * dispatch over mutually exclusive cases that the rule is meant to be.
 */
module DegreeDays {

  /** Default threshold of `calculate_cdd` (cooling degree days on temperature). */
  const CddBase: real := 19.0
  /** Default threshold of `calculate_qdd` (enthalpy degree days). */
  const QddBase: real := 22.0

  /** Condition `k` (1..4) of the rule. */
  predicate Condition(k: nat, mx: real, mean: real, mn: real, t: real)
  {
    match k
    case 1 => mx <= t
    case 2 => mean <= t && t < mx
    case 3 => mn < t && t < mean
    case 4 => mn >= t
    case _ => false
  }

  /** The value branch `k` (1..4) writes. */
  function BranchValue(k: nat, mx: real, mean: real, mn: real, t: real): real
  {
    match k
    case 1 => 0.0
    case 2 => (mx - t) / 4.0
    case 3 => (mx - t) / 2.0 - (t - mn) / 4.0
    case _ => mean - t
  }

  /** `cdd[condition_k] = value_k` seen from one cell: the cell changes only where the mask holds. */
  function MaskedWrite(k: nat, current: real, mx: real, mean: real, mn: real, t: real): real
  {
    if Condition(k, mx, mean, mn, t) then BranchValue(k, mx, mean, mn, t) else current
  }

  /** A cell after `np.zeros_like` and the four masked writes in source order. */
  function Masked(mx: real, mean: real, mn: real, t: real): real
  {
    MaskedWrite(4, MaskedWrite(3, MaskedWrite(2, MaskedWrite(1, 0.0, mx, mean, mn, t), mx, mean, mn, t), mx, mean, mn, t), mx, mean, mn, t)
  }

  /** The rule as a dispatch over exclusive cases, checked in threshold order. */
  function DegreeDay(mx: real, mean: real, mn: real, t: real): real
  {
    if mx <= t then 0.0
    else if mean <= t then (mx - t) / 4.0
    else if mn < t then (mx - t) / 2.0 - (t - mn) / 4.0
    else mean - t
  }

  predicate Ordered(mx: real, mean: real, mn: real)
  {
    mn <= mean <= mx
  }

  /**
   * What the statistics of a non-empty set of samples satisfy: ordered, and
   * a mean equal to the minimum or to the maximum means every sample is equal.
   */
  predicate StatsShape(mx: real, mean: real, mn: real)
  {
    Ordered(mx, mean, mn) && (mean == mn ==> mx == mn) && (mean == mx ==> mn == mx)
  }

  /** For any reals at least one of the four conditions holds, so the initial zero is always overwritten. */
  lemma SomeConditionHolds(mx: real, mean: real, mn: real, t: real)
    ensures exists k :: 1 <= k <= 4 && Condition(k, mx, mean, mn, t)
  {
    if !Condition(1, mx, mean, mn, t) && !Condition(2, mx, mean, mn, t) && !Condition(4, mx, mean, mn, t) {
      assert Condition(3, mx, mean, mn, t);
    }
  }

  /** Each cell ends with the value of the highest-numbered condition that holds for it. */
  lemma LastConditionWins(k: nat, mx: real, mean: real, mn: real, t: real)
    requires 1 <= k <= 4 && Condition(k, mx, mean, mn, t)
    requires forall j :: k < j <= 4 ==> !Condition(j, mx, mean, mn, t)
    ensures Masked(mx, mean, mn, t) == BranchValue(k, mx, mean, mn, t)
  {
    assert !Condition(k + 1, mx, mean, mn, t) && !Condition(k + 2, mx, mean, mn, t) && !Condition(k + 3, mx, mean, mn, t);
  }

  /**
   * For daily statistics two conditions hold together only when
   * min = mean = max = t, and then they are conditions 1 and 4.
   */
  lemma OnlyOverlapAtThreshold(j: nat, k: nat, mx: real, mean: real, mn: real, t: real)
    requires StatsShape(mx, mean, mn)
    requires 1 <= j < k <= 4
    requires Condition(j, mx, mean, mn, t) && Condition(k, mx, mean, mn, t)
    ensures j == 1 && k == 4 && mn == mean == mx == t
  {
  }

  /** At that single overlap both branches give 0. */
  lemma OverlapAgrees(t: real)
    ensures Condition(1, t, t, t, t) && Condition(4, t, t, t, t)
    ensures BranchValue(1, t, t, t, t) == BranchValue(4, t, t, t, t) == 0.0
  {
  }

  /** For daily statistics the masked writes compute the piecewise rule. */
  lemma MaskedIsDegreeDay(mx: real, mean: real, mn: real, t: real)
    requires StatsShape(mx, mean, mn)
    ensures Masked(mx, mean, mn, t) == DegreeDay(mx, mean, mn, t)
  {
  }

  /**
   * The ordering min <= mean <= max alone does not make the conditions
   * exclusive: with min = mean = t < max conditions 2 and 4 both hold, and
   * the later write (branch 4, value 0) replaces branch 2's (max - t) / 4.
   */
  lemma OrderingAloneOverlaps()
    ensures Ordered(25.0, 19.0, 19.0)
    ensures Condition(2, 25.0, 19.0, 19.0, CddBase) && Condition(4, 25.0, 19.0, 19.0, CddBase)
    ensures Masked(25.0, 19.0, 19.0, CddBase) == 0.0
    ensures DegreeDay(25.0, 19.0, 19.0, CddBase) == 1.5
  {
  }

  /** Without the ordering the two disagree: condition 4 overrides condition 2 here. */
  lemma UnorderedInputsDiverge()
    ensures !Ordered(30.0, 18.0, 20.0)
    ensures Masked(30.0, 18.0, 20.0, 19.0) == -1.0
    ensures DegreeDay(30.0, 18.0, 20.0, 19.0) == 2.75
  {
  }

  /** The worked case: max 30, mean 20, min 10 at threshold 19 takes branch 3 and gives 3.25. */
  lemma WorkedExample()
    ensures Condition(3, 30.0, 20.0, 10.0, CddBase)
    ensures Masked(30.0, 20.0, 10.0, CddBase) == DegreeDay(30.0, 20.0, 10.0, CddBase) == 3.25
  {
  }

  /** A day whose maximum does not exceed the threshold contributes nothing. */
  lemma NoExcessNoDegreeDays(mx: real, mean: real, mn: real, t: real)
    requires Ordered(mx, mean, mn) && mx <= t
    ensures Masked(mx, mean, mn, t) == 0.0
  {
  }

  /** Branch 2 is strictly positive, branch 4 is non-negative, and branches 1 and 2 meet at max = t. */
  lemma BranchSigns(mx: real, mean: real, mn: real, t: real)
    ensures Condition(2, mx, mean, mn, t) ==> BranchValue(2, mx, mean, mn, t) > 0.0
    ensures Condition(4, mx, mean, mn, t) && mn <= mean ==> BranchValue(4, mx, mean, mn, t) >= 0.0
    ensures BranchValue(2, t, mean, mn, t) == BranchValue(1, t, mean, mn, t) == 0.0
  {
  }

  /**
   * Branch 3 is not sign-definite: it is positive when the mean does not
   * exceed the midrange (max + min) / 2, but negative values occur for
   * ordered inputs whose mean sits close to the maximum.
   */
  lemma Branch3Sign(mx: real, mean: real, mn: real, t: real)
    requires Condition(3, mx, mean, mn, t) && Ordered(mx, mean, mn)
    requires 2.0 * mean <= mx + mn
    ensures BranchValue(3, mx, mean, mn, t) > 0.0
  {
  }

  lemma Branch3CanBeNegative()
    ensures Ordered(20.0, 19.5, 0.0) && Condition(3, 20.0, 19.5, 0.0, 19.0)
    ensures DegreeDay(20.0, 19.5, 0.0, 19.0) == -4.25
  {
  }

  predicate SameShape(a: array3<real>, b: array3<real>)
  {
    a.Length0 == b.Length0 && a.Length1 == b.Length1 && a.Length2 == b.Length2
  }

  /**
   * `calculate_cdd(t2_max, t2_mean, t2_min, t_base)`: a fresh array of the
   * inputs' shape holding, per (day, lat, lon), the result of the four
   * masked writes; where the inputs have the shape of daily statistics this
   * is the piecewise rule.  `calculate_qdd` is the same call with threshold 22.
   */
  method CalculateDegreeDays(tMax: array3<real>, tMean: array3<real>, tMin: array3<real>, tBase: real)
    returns (dd: array3<real>)
    requires SameShape(tMax, tMean) && SameShape(tMax, tMin)
    ensures fresh(dd) && SameShape(dd, tMax)
    ensures forall d, i, j :: 0 <= d < dd.Length0 && 0 <= i < dd.Length1 && 0 <= j < dd.Length2 ==>
      dd[d, i, j] == Masked(tMax[d, i, j], tMean[d, i, j], tMin[d, i, j], tBase)
    ensures forall d, i, j ::
      (0 <= d < dd.Length0 && 0 <= i < dd.Length1 && 0 <= j < dd.Length2 &&
       StatsShape(tMax[d, i, j], tMean[d, i, j], tMin[d, i, j])) ==>
      dd[d, i, j] == DegreeDay(tMax[d, i, j], tMean[d, i, j], tMin[d, i, j], tBase)
  {
    dd := new real[tMax.Length0, tMax.Length1, tMax.Length2]((d, i, j) => 0.0);
    ApplyBranch(dd, tMax, tMean, tMin, tBase, 1);
    ApplyBranch(dd, tMax, tMean, tMin, tBase, 2);
    ApplyBranch(dd, tMax, tMean, tMin, tBase, 3);
    ApplyBranch(dd, tMax, tMean, tMin, tBase, 4);
    forall d, i, j | 0 <= d < dd.Length0 && 0 <= i < dd.Length1 && 0 <= j < dd.Length2 &&
      StatsShape(tMax[d, i, j], tMean[d, i, j], tMin[d, i, j])
      ensures dd[d, i, j] == DegreeDay(tMax[d, i, j], tMean[d, i, j], tMin[d, i, j], tBase)
    {
      MaskedIsDegreeDay(tMax[d, i, j], tMean[d, i, j], tMin[d, i, j], tBase);
    }
  }

  /** One masked write `dd[condition_k] = value_k` over the whole array. */
  method ApplyBranch(dd: array3<real>, tMax: array3<real>, tMean: array3<real>, tMin: array3<real>, tBase: real, k: nat)
    requires SameShape(dd, tMax) && SameShape(tMax, tMean) && SameShape(tMax, tMin)
    requires dd != tMax && dd != tMean && dd != tMin
    modifies dd
    ensures forall d, i, j :: 0 <= d < dd.Length0 && 0 <= i < dd.Length1 && 0 <= j < dd.Length2 ==>
      dd[d, i, j] == MaskedWrite(k, old(dd[d, i, j]), tMax[d, i, j], tMean[d, i, j], tMin[d, i, j], tBase)
  {
    for d := 0 to dd.Length0
      invariant forall a, b, c :: 0 <= a < dd.Length0 && 0 <= b < dd.Length1 && 0 <= c < dd.Length2 ==>
        dd[a, b, c] == if a < d then MaskedWrite(k, old(dd[a, b, c]), tMax[a, b, c], tMean[a, b, c], tMin[a, b, c], tBase)
                       else old(dd[a, b, c])
    {
      for i := 0 to dd.Length1
        invariant forall a, b, c :: 0 <= a < dd.Length0 && 0 <= b < dd.Length1 && 0 <= c < dd.Length2 ==>
          dd[a, b, c] == if a < d || (a == d && b < i) then MaskedWrite(k, old(dd[a, b, c]), tMax[a, b, c], tMean[a, b, c], tMin[a, b, c], tBase)
                         else old(dd[a, b, c])
      {
        for j := 0 to dd.Length2
          invariant forall a, b, c :: 0 <= a < dd.Length0 && 0 <= b < dd.Length1 && 0 <= c < dd.Length2 ==>
            dd[a, b, c] == if a < d || (a == d && b < i) || (a == d && b == i && c < j)
                           then MaskedWrite(k, old(dd[a, b, c]), tMax[a, b, c], tMean[a, b, c], tMin[a, b, c], tBase)
                           else old(dd[a, b, c])
        {
          dd[d, i, j] := MaskedWrite(k, dd[d, i, j], tMax[d, i, j], tMean[d, i, j], tMin[d, i, j], tBase);
        }
      }
    }
  }

  /**
   * `resize_array(arr, target_shape)` for three axes: a fresh array of the
   * target shape that copies `arr` on the index box both shapes share and
   * holds 0 everywhere else.
   */
  method ResizeArray(arr: array3<real>, n0: nat, n1: nat, n2: nat) returns (r: array3<real>)
    ensures fresh(r) && r.Length0 == n0 && r.Length1 == n1 && r.Length2 == n2
    ensures forall d, i, j :: 0 <= d < n0 && 0 <= i < n1 && 0 <= j < n2 ==>
      r[d, i, j] == if d < arr.Length0 && i < arr.Length1 && j < arr.Length2 then arr[d, i, j] else 0.0
  {
    r := new real[n0, n1, n2]((d, i, j) => 0.0);
    var m0 := if arr.Length0 < n0 then arr.Length0 else n0;
    var m1 := if arr.Length1 < n1 then arr.Length1 else n1;
    var m2 := if arr.Length2 < n2 then arr.Length2 else n2;
    for d := 0 to m0
      invariant forall a, b, c :: 0 <= a < n0 && 0 <= b < n1 && 0 <= c < n2 ==>
        r[a, b, c] == if a < d && b < m1 && c < m2 then arr[a, b, c] else 0.0
    {
      for i := 0 to m1
        invariant forall a, b, c :: 0 <= a < n0 && 0 <= b < n1 && 0 <= c < n2 ==>
          r[a, b, c] == if (a < d || (a == d && b < i)) && b < m1 && c < m2 then arr[a, b, c] else 0.0
      {
        for j := 0 to m2
          invariant forall a, b, c :: 0 <= a < n0 && 0 <= b < n1 && 0 <= c < n2 ==>
            r[a, b, c] == if (a < d || (a == d && b < i) || (a == d && b == i && c < j)) && b < m1 && c < m2 then arr[a, b, c] else 0.0
        {
          r[d, i, j] := arr[d, i, j];
        }
      }
    }
  }
}
