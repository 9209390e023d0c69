// The median of statistics.median: the middle of the sorted values, or the mean
// of the two in the middle.
module Medians {
  function Inserted(x: real, s: seq<real>): (r: seq<real>)
    ensures |r| == |s| + 1
  {
    if s == [] || s[|s| - 1] <= x then s + [x] else Inserted(x, s[..|s| - 1]) + [s[|s| - 1]]
  }

  function Sorted(s: seq<real>): (r: seq<real>)
    ensures |r| == |s|
  {
    if s == [] then [] else Inserted(s[|s| - 1], Sorted(s[..|s| - 1]))
  }

  function Median(s: seq<real>): real
    requires s != []
  {
    var t, n := Sorted(s), |s|;
    if n % 2 == 1 then t[n / 2] else (t[n / 2 - 1] + t[n / 2]) / 2.0
  }

  function Below(s: seq<real>, x: real): nat {
    if s == [] then 0 else Below(s[..|s| - 1], x) + if s[|s| - 1] < x then 1 else 0
  }

  function Above(s: seq<real>, x: real): nat {
    if s == [] then 0 else Above(s[..|s| - 1], x) + if s[|s| - 1] > x then 1 else 0
  }

  ghost predicate Rising(s: seq<real>) { forall i, j :: 0 <= i < j < |s| ==> s[i] <= s[j] }

  lemma {:induction false} InsertedRises(x: real, s: seq<real>)
    requires Rising(s)
    ensures Rising(Inserted(x, s)) && forall y :: y in Inserted(x, s) ==> y == x || y in s
  {
    if s != [] && s[|s| - 1] > x {
      var front := s[..|s| - 1];
      InsertedRises(x, front);
      RisesOneMore(Inserted(x, front), s[|s| - 1]);
    } else {
      RisesOneMore(s, x);
    }
  }

  lemma RisesOneMore(s: seq<real>, x: real)
    requires Rising(s) && forall y :: y in s ==> y <= x
    ensures Rising(s + [x])
  {
    forall i, j | 0 <= i < j < |s| + 1 ensures (s + [x])[i] <= (s + [x])[j] {
      assert s[i] in s;
    }
  }

  lemma {:induction false} SortedRises(s: seq<real>)
    ensures Rising(Sorted(s))
  {
    if s != [] {
      SortedRises(s[..|s| - 1]);
      InsertedRises(s[|s| - 1], Sorted(s[..|s| - 1]));
    }
  }

  lemma {:induction false} InsertedCounts(x: real, s: seq<real>, y: real)
    ensures Below(Inserted(x, s), y) == Below(s, y) + if x < y then 1 else 0
    ensures Above(Inserted(x, s), y) == Above(s, y) + if x > y then 1 else 0
  {
    var r := Inserted(x, s);
    if s != [] && s[|s| - 1] > x {
      InsertedCounts(x, s[..|s| - 1], y);
      assert r[..|r| - 1] == Inserted(x, s[..|s| - 1]);
    } else {
      assert r[..|r| - 1] == s;
    }
  }

  lemma {:induction false} SortedCounts(s: seq<real>, y: real)
    ensures Below(Sorted(s), y) == Below(s, y) && Above(Sorted(s), y) == Above(s, y)
  {
    if s != [] {
      SortedCounts(s[..|s| - 1], y);
      InsertedCounts(s[|s| - 1], Sorted(s[..|s| - 1]), y);
    }
  }

  lemma {:induction false} BelowAtMost(s: seq<real>, x: real, k: nat)
    requires forall i :: k <= i < |s| ==> s[i] >= x
    ensures Below(s, x) <= k
    decreases |s|
  {
    if |s| > k { BelowAtMost(s[..|s| - 1], x, k); } else { BelowLength(s, x); }
  }

  lemma {:induction false} BelowLength(s: seq<real>, x: real)
    ensures Below(s, x) <= |s|
  {
    if s != [] { BelowLength(s[..|s| - 1], x); }
  }

  lemma {:induction false} AboveAtMost(s: seq<real>, x: real, k: nat)
    requires k <= |s| && forall i :: 0 <= i < k ==> s[i] <= x
    ensures Above(s, x) <= |s| - k
    decreases |s|
  {
    if |s| > k {
      AboveAtMost(s[..|s| - 1], x, k);
    } else if s != [] {
      AboveAtMost(s[..|s| - 1], x, k - 1);
    }
  }

  // At most half of the values lie on either side.
  lemma MedianIsMiddle(s: seq<real>)
    requires s != []
    ensures 2 * Below(s, Median(s)) <= |s| && 2 * Above(s, Median(s)) <= |s|
  {
    var t, m := Sorted(s), Median(s);
    SortedCounts(s, m);
    Middle(s);
    BelowAtMost(t, m, |s| / 2);
    AboveAtMost(t, m, (|s| + 1) / 2);
  }

  lemma Middle(s: seq<real>)
    requires s != []
    ensures forall i :: |s| / 2 <= i < |s| ==> Sorted(s)[i] >= Median(s)
    ensures forall i :: 0 <= i < (|s| + 1) / 2 ==> Sorted(s)[i] <= Median(s)
  {
    var t, n := Sorted(s), |s|;
    SortedRises(s);
    forall i | n / 2 <= i < n ensures t[i] >= Median(s) {
      AtLeast(t, n / 2, i);
      if n % 2 == 0 { AtLeast(t, n / 2 - 1, i); }
    }
    forall i | 0 <= i < (n + 1) / 2 ensures t[i] <= Median(s) {
      AtLeast(t, i, n / 2);
      if n % 2 == 0 { AtLeast(t, i, n / 2 - 1); }
    }
  }

  lemma AtLeast(t: seq<real>, i: nat, j: nat)
    requires Rising(t) && i <= j < |t|
    ensures t[i] <= t[j]
  {
  }
}
