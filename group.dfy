/**
 * Keyed rows and the members of one group, as pandas `groupby(key)[col]`
 * and xarray `groupby(label)` see them: a row is a (key, value) pair and the
 * members of key `k` are the values of the rows carrying `k`, in row order.
 */
module Group {
  import opened Reduce

  /** The keys that occur in `rows`. */
  function Keys<K>(rows: seq<(K, real)>): set<K>
  {
    set i | 0 <= i < |rows| :: rows[i].0
  }

  /** The keys of `rows` in row order. */
  function KeyList<K>(rows: seq<(K, real)>): (r: seq<K>)
    ensures |r| == |rows|
  {
    seq(|rows|, i requires 0 <= i < |rows| => rows[i].0)
  }

  /** The values of the rows whose key is `k`, in row order. */
  function Members<K(==)>(rows: seq<(K, real)>, k: K): (r: seq<real>)
    ensures |r| > 0 <==> k in Keys(rows)
    ensures |r| <= |rows|
  {
    if |rows| == 0 then []
    else
      var init := rows[..|rows| - 1];
      var m := Members(init, k);
      assert Keys(rows) == Keys(init) + {rows[|rows| - 1].0} by {
        forall x | x in Keys(rows) ensures x in Keys(init) + {rows[|rows| - 1].0} {
          var i :| 0 <= i < |rows| && rows[i].0 == x;
          if i < |rows| - 1 {
            assert init[i] == rows[i];
          }
        }
        forall x | x in Keys(init) ensures x in Keys(rows) {
          var i :| 0 <= i < |init| && init[i].0 == x;
          assert rows[i] == init[i];
        }
      }
      if rows[|rows| - 1].0 == k then m + [rows[|rows| - 1].1] else m
  }

  /** Each row lands in the group of its own key and in no other. */
  lemma {:induction false} MembersAppend<K>(a: seq<(K, real)>, b: seq<(K, real)>, k: K)
    ensures Members(a + b, k) == Members(a, k) + Members(b, k)
    decreases |b|
  {
    if |b| == 0 {
      assert a + b == a;
    } else {
      assert (a + b)[..|a + b| - 1] == a + b[..|b| - 1];
      MembersAppend(a, b[..|b| - 1], k);
    }
  }

  /** The size of a group is the number of rows carrying its key. */
  lemma {:induction false} MembersCount<K>(rows: seq<(K, real)>, k: K)
    ensures |Members(rows, k)| == multiset(KeyList(rows))[k]
  {
    if |rows| > 0 {
      var init := rows[..|rows| - 1];
      MembersCount(init, k);
      assert KeyList(rows) == KeyList(init) + [rows[|rows| - 1].0];
    }
  }

  /** Grouping does not depend on the order of the rows: each group keeps the same members. */
  lemma {:induction false} MembersPermutation<K>(a: seq<(K, real)>, b: seq<(K, real)>, k: K)
    requires multiset(a) == multiset(b)
    ensures multiset(Members(a, k)) == multiset(Members(b, k))
    decreases |a|
  {
    if |a| > 0 {
      var n := |a| - 1;
      var i := FindIn(b, a[n]);
      SplitAt(a, n);
      SplitAt(b, i);
      MembersPermutation(a[..n] + a[n + 1..], b[..i] + b[i + 1..], k);
      MembersRemove(a, n, k);
      MembersRemove(b, i, k);
    } else {
      assert |b| == |multiset(b)| == 0;
    }
  }

  /** Taking out row `i` takes its value out of its group, if it is group `k`. */
  lemma MembersRemove<K>(b: seq<(K, real)>, i: nat, k: K)
    requires i < |b|
    ensures multiset(Members(b, k)) == multiset(Members(b[..i] + b[i + 1..], k)) + multiset(Members([b[i]], k))
  {
    SplitAt(b, i);
    MembersAppend(b[..i] + [b[i]], b[i + 1..], k);
    MembersAppend(b[..i], [b[i]], k);
    MembersAppend(b[..i], b[i + 1..], k);
  }

  /** So the mean, minimum and maximum of every group do not depend on the row order either. */
  lemma GroupReductionsPermutation<K>(a: seq<(K, real)>, b: seq<(K, real)>, k: K)
    requires multiset(a) == multiset(b)
    requires k in Keys(a)
    ensures k in Keys(b)
    ensures Sum(Members(a, k)) == Sum(Members(b, k))
    ensures Mean(Members(a, k)) == Mean(Members(b, k))
    ensures Min(Members(a, k)) == Min(Members(b, k))
    ensures Max(Members(a, k)) == Max(Members(b, k))
  {
    MembersPermutation(a, b, k);
    assert |Members(b, k)| == |multiset(Members(b, k))| == |multiset(Members(a, k))| == |Members(a, k)|;
    ReductionsPermutation(Members(a, k), Members(b, k));
    SumPermutation(Members(a, k), Members(b, k));
  }
}
