/** Weighted counts of the elements of a sequence. The protocols use them for
    "how many threads are at these program points" and for termination measures. */
module Sums {

  function Sum<T>(s: seq<T>, weight: T -> nat): nat {
    if s == [] then 0 else weight(s[0]) + Sum(s[1..], weight)
  }

  lemma {:induction false} SumUpdate<T>(s: seq<T>, i: nat, x: T, weight: T -> nat)
    requires i < |s|
    ensures Sum(s[i := x], weight) + weight(s[i]) == Sum(s, weight) + weight(x)
  {
    if i == 0 {
      assert s[i := x][1..] == s[1..];
    } else {
      assert s[i := x][1..] == s[1..][i - 1 := x];
      SumUpdate(s[1..], i - 1, x, weight);
    }
  }

  /** Raising weights pointwise raises the sum, strictly if one is raised strictly. */
  lemma {:induction false} SumMonotone<T>(s: seq<T>, t: seq<T>, weight: T -> nat)
    requires |s| == |t|
    requires forall k :: 0 <= k < |s| ==> weight(s[k]) <= weight(t[k])
    ensures Sum(s, weight) <= Sum(t, weight)
    ensures (exists k :: 0 <= k < |s| && weight(s[k]) < weight(t[k])) ==> Sum(s, weight) < Sum(t, weight)
  {
    if s != [] {
      forall k | 0 <= k < |s[1..]| ensures weight(s[1..][k]) <= weight(t[1..][k]) {
        assert weight(s[k + 1]) <= weight(t[k + 1]);
      }
      SumMonotone(s[1..], t[1..], weight);
      if k :| 0 <= k < |s| && weight(s[k]) < weight(t[k]) {
        if k > 0 {
          assert weight(s[1..][k - 1]) < weight(t[1..][k - 1]);
        }
      }
    }
  }

  lemma {:induction false} SumBound<T>(s: seq<T>, weight: T -> nat, bound: nat)
    requires forall k :: 0 <= k < |s| ==> weight(s[k]) <= bound
    ensures Sum(s, weight) <= |s| * bound
  {
    if s != [] {
      forall k | 0 <= k < |s[1..]| ensures weight(s[1..][k]) <= bound {
        assert weight(s[k + 1]) <= bound;
      }
      SumBound(s[1..], weight, bound);
    }
  }

  lemma {:induction false} SumPositive<T>(s: seq<T>, weight: T -> nat) returns (i: nat)
    requires Sum(s, weight) > 0
    ensures i < |s| && weight(s[i]) > 0
  {
    if weight(s[0]) > 0 {
      i := 0;
    } else {
      i := SumPositive(s[1..], weight);
      i := i + 1;
    }
  }
}
