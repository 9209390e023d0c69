// The ground station's set of received frame numbers, kept as ranges.
module SeqSets {

  // What a list of ranges holds.
  ghost predicate Member(lo: seq<int>, hi: seq<int>, x: int)
    requires |lo| == |hi|
  {
    exists i :: 0 <= i < |lo| && lo[i] <= x <= hi[i]
  }

  // Sorted, disjoint, non-empty and not even touching.
  ghost predicate Canonical(lo: seq<int>, hi: seq<int>) {
    && |lo| == |hi|
    && (forall i :: 0 <= i < |lo| ==> lo[i] <= hi[i])
    && (forall i, j :: 0 <= i < j < |lo| ==> hi[i] + 1 < lo[j])
  }

  // Equal sets have equal range lists.
  lemma {:induction false} EqualSetsEqualRanges(lo0: seq<int>, hi0: seq<int>, lo1: seq<int>, hi1: seq<int>)
    requires Canonical(lo0, hi0) && Canonical(lo1, hi1)
    requires forall x :: Member(lo0, hi0, x) <==> Member(lo1, hi1, x)
    ensures lo0 == lo1 && hi0 == hi1
  {
    assert lo0 != [] ==> Member(lo0, hi0, lo0[0]);
    assert lo1 != [] ==> Member(lo1, hi1, lo1[0]);
    if lo0 != [] && lo1 != [] {
      FirstRangeStarts(lo0, hi0, lo1, hi1);
      FirstRangeStarts(lo1, hi1, lo0, hi0);
      FirstRangeEnds(lo0, hi0, lo1, hi1);
      FirstRangeEnds(lo1, hi1, lo0, hi0);
      SameTails(lo0, hi0, lo1, hi1);
      EqualSetsEqualRanges(lo0[1..], hi0[1..], lo1[1..], hi1[1..]);
      assert lo0 == [lo0[0]] + lo0[1..] && lo1 == [lo1[0]] + lo1[1..];
      assert hi0 == [hi0[0]] + hi0[1..] && hi1 == [hi1[0]] + hi1[1..];
    }
  }

  lemma FirstRangeStarts(lo0: seq<int>, hi0: seq<int>, lo1: seq<int>, hi1: seq<int>)
    requires Canonical(lo0, hi0) && Canonical(lo1, hi1) && lo0 != [] && lo1 != []
    requires forall x :: Member(lo0, hi0, x) <==> Member(lo1, hi1, x)
    ensures lo0[0] <= lo1[0]
  {
    assert Member(lo1, hi1, lo1[0]);
    var i :| 0 <= i < |lo0| && lo0[i] <= lo1[0] <= hi0[i];
    assert i > 0 ==> hi0[0] + 1 < lo0[i];
  }

  lemma SameTails(lo0: seq<int>, hi0: seq<int>, lo1: seq<int>, hi1: seq<int>)
    requires Canonical(lo0, hi0) && Canonical(lo1, hi1) && lo0 != [] && lo1 != [] && hi0[0] == hi1[0]
    requires forall x :: Member(lo0, hi0, x) <==> Member(lo1, hi1, x)
    ensures Canonical(lo0[1..], hi0[1..]) && Canonical(lo1[1..], hi1[1..])
    ensures forall x :: Member(lo0[1..], hi0[1..], x) <==> Member(lo1[1..], hi1[1..], x)
  {
    forall x ensures Member(lo0[1..], hi0[1..], x) <==> Member(lo1[1..], hi1[1..], x) {
      TailMembers(lo0, hi0, x);
      TailMembers(lo1, hi1, x);
    }
  }

  lemma FirstRangeEnds(lo0: seq<int>, hi0: seq<int>, lo1: seq<int>, hi1: seq<int>)
    requires Canonical(lo0, hi0) && Canonical(lo1, hi1) && lo0 != [] && lo1 != [] && lo0[0] == lo1[0]
    requires forall x :: Member(lo0, hi0, x) <==> Member(lo1, hi1, x)
    ensures hi0[0] <= hi1[0]
  {
    var x := hi1[0] + 1;
    assert !Member(lo1, hi1, x);
    assert !(lo0[0] <= x <= hi0[0]);
  }

  lemma TailMembers(lo: seq<int>, hi: seq<int>, x: int)
    requires Canonical(lo, hi) && lo != []
    ensures Member(lo[1..], hi[1..], x) <==> Member(lo, hi, x) && x > hi[0]
  {
    if Member(lo[1..], hi[1..], x) {
      var i :| 0 <= i < |lo[1..]| && lo[1..][i] <= x <= hi[1..][i];
      assert lo[i + 1] <= x <= hi[i + 1];
    }
    if Member(lo, hi, x) && x > hi[0] {
      var i :| 0 <= i < |lo| && lo[i] <= x <= hi[i];
      assert lo[1..][i - 1] <= x <= hi[1..][i - 1];
    }
  }

  // The same set, spelled out.
  ghost function Interval(lo: int, hi: int): (s: set<int>)
    ensures forall x :: x in s <==> lo <= x <= hi
    decreases hi - lo + 1
  {
    if hi < lo then {} else Interval(lo, hi - 1) + {hi}
  }

  ghost function Elements(lo: seq<int>, hi: seq<int>): set<int>
    requires |lo| == |hi|
  {
    if lo == [] then {}
    else
      var n := |lo| - 1;
      Elements(lo[..n], hi[..n]) + Interval(lo[n], hi[n])
  }

  lemma {:induction false} ElementsAreMembers(lo: seq<int>, hi: seq<int>, x: int)
    requires |lo| == |hi|
    ensures x in Elements(lo, hi) <==> Member(lo, hi, x)
  {
    if lo != [] {
      var n := |lo| - 1;
      ElementsAreMembers(lo[..n], hi[..n], x);
      if Member(lo[..n], hi[..n], x) {
        var i :| 0 <= i < n && lo[..n][i] <= x <= hi[..n][i];
        assert lo[i] <= x <= hi[i];
      }
      if Member(lo, hi, x) {
        var i :| 0 <= i < |lo| && lo[i] <= x <= hi[i];
        if i < n { assert lo[..n][i] <= x <= hi[..n][i]; }
      }
    }
  }

  lemma {:induction false} IntervalSize(lo: int, hi: int)
    requires lo <= hi + 1
    ensures |Interval(lo, hi)| == hi - lo + 1
    decreases hi - lo + 1
  {
    if lo <= hi { IntervalSize(lo, hi - 1); }
  }

  function Lengths(lo: seq<int>, hi: seq<int>): int
    requires |lo| == |hi|
  {
    if lo == [] then 0
    else
      var n := |lo| - 1;
      Lengths(lo[..n], hi[..n]) + (hi[n] - lo[n] + 1)
  }

  lemma {:induction false} LengthsCountElements(lo: seq<int>, hi: seq<int>)
    requires Canonical(lo, hi)
    ensures Lengths(lo, hi) == |Elements(lo, hi)|
  {
    if lo != [] {
      var n := |lo| - 1;
      LengthsCountElements(lo[..n], hi[..n]);
      IntervalSize(lo[n], hi[n]);
      forall x | x in Elements(lo[..n], hi[..n]) ensures x < lo[n] {
        ElementsAreMembers(lo[..n], hi[..n], x);
        var i :| 0 <= i < n && lo[..n][i] <= x <= hi[..n][i];
        assert hi[i] + 1 < lo[n];
      }
      assert Elements(lo[..n], hi[..n]) !! Interval(lo[n], hi[n]);
    }
  }

  // ---------- bisect ----------

  ghost predicate Increasing(a: seq<int>) {
    forall i, j :: 0 <= i < j < |a| ==> a[i] < a[j]
  }

  method BisectRight(a: seq<int>, x: int) returns (at: nat)
    requires Increasing(a)
    ensures at <= |a| && (forall i :: 0 <= i < at ==> a[i] <= x) && (forall i :: at <= i < |a| ==> x < a[i])
  {
    var lo, hi := 0, |a|;
    while lo < hi
      invariant 0 <= lo <= hi <= |a|
      invariant (forall i :: 0 <= i < lo ==> a[i] <= x) && (forall i :: hi <= i < |a| ==> x < a[i])
    {
      var mid := (lo + hi) / 2;
      if x < a[mid] { hi := mid; } else { lo := mid + 1; }
    }
    at := lo;
  }

  method BisectLeft(a: seq<int>, x: int) returns (at: nat)
    requires Increasing(a)
    ensures at <= |a| && (forall i :: 0 <= i < at ==> a[i] < x) && (forall i :: at <= i < |a| ==> x <= a[i])
  {
    var lo, hi := 0, |a|;
    while lo < hi
      invariant 0 <= lo <= hi <= |a|
      invariant (forall i :: 0 <= i < lo ==> a[i] < x) && (forall i :: hi <= i < |a| ==> x <= a[i])
    {
      var mid := (lo + hi) / 2;
      if a[mid] < x { lo := mid + 1; } else { hi := mid; }
    }
    at := lo;
  }

  // ---------- putting a range in ----------

  lemma MemberOfConcat(lo0: seq<int>, hi0: seq<int>, lo1: seq<int>, hi1: seq<int>, x: int)
    requires |lo0| == |hi0| && |lo1| == |hi1|
    ensures Member(lo0 + lo1, hi0 + hi1, x) <==> Member(lo0, hi0, x) || Member(lo1, hi1, x)
  {
    var lo, hi := lo0 + lo1, hi0 + hi1;
    if i :| 0 <= i < |lo0| && lo0[i] <= x <= hi0[i] { assert lo[i] <= x <= hi[i]; }
    if i :| 0 <= i < |lo1| && lo1[i] <= x <= hi1[i] { assert lo[|lo0| + i] <= x <= hi[|lo0| + i]; }
    if i :| 0 <= i < |lo| && lo[i] <= x <= hi[i] {
      if i < |lo0| { assert lo0[i] <= x <= hi0[i]; } else { assert lo1[i - |lo0|] <= x <= hi1[i - |lo0|]; }
    }
  }

  // Ranges that all touch [from, to], with it, fill their hull.
  lemma HullMembers(lo: seq<int>, hi: seq<int>, from: int, to: int, first: int, last: int, x: int)
    requires Canonical(lo, hi) && from <= to
    requires forall k :: 0 <= k < |lo| ==> from - 1 <= hi[k] && lo[k] <= to + 1
    requires first == (if lo != [] && lo[0] < from then lo[0] else from)
    requires last == (if lo != [] && hi[|lo| - 1] > to then hi[|lo| - 1] else to)
    ensures first <= x <= last <==> Member(lo, hi, x) || from <= x <= to
  {
    if first <= x < from { assert lo[0] <= x <= hi[0]; }
    if to < x <= last { assert lo[|lo| - 1] <= x <= hi[|lo| - 1]; }
  }

  lemma HullKeepsCanonical(lo0: seq<int>, hi0: seq<int>, first: int, last: int, lo1: seq<int>, hi1: seq<int>)
    requires Canonical(lo0, hi0) && Canonical(lo1, hi1) && first <= last
    requires forall k :: 0 <= k < |lo0| ==> hi0[k] + 1 < first
    requires forall k :: 0 <= k < |lo1| ==> last + 1 < lo1[k]
    requires forall k, l :: 0 <= k < |lo0| && 0 <= l < |lo1| ==> hi0[k] + 1 < lo1[l]
    ensures Canonical(lo0 + [first] + lo1, hi0 + [last] + hi1)
  {
  }

  // With M the ranges touching [from, to], A those before and B those after,
  // the hull in M's place adds exactly [from, to].
  lemma HullAdds(loA: seq<int>, hiA: seq<int>, loM: seq<int>, hiM: seq<int>, loB: seq<int>, hiB: seq<int>,
                 from: int, to: int, first: int, last: int, x: int)
    requires |loA| == |hiA| && |loB| == |hiB| && Canonical(loM, hiM) && from <= to
    requires forall k :: 0 <= k < |loM| ==> from - 1 <= hiM[k] && loM[k] <= to + 1
    requires first == (if loM != [] && loM[0] < from then loM[0] else from)
    requires last == (if loM != [] && hiM[|loM| - 1] > to then hiM[|loM| - 1] else to)
    ensures Member(loA + [first] + loB, hiA + [last] + hiB, x)
       <==> Member(loA + loM + loB, hiA + hiM + hiB, x) || from <= x <= to
  {
    MemberOfConcat(loA + [first], hiA + [last], loB, hiB, x);
    MemberOfConcat(loA, hiA, [first], [last], x);
    if first <= x <= last { assert [first][0] <= x <= [last][0]; }
    HullMembers(loM, hiM, from, to, first, last, x);
    MemberOfConcat(loA + loM, hiA + hiM, loB, hiB, x);
    MemberOfConcat(loA, hiA, loM, hiM, x);
  }

  // Ranges [i, j) are the ones touching [from, to].
  ghost predicate Touching(lo: seq<int>, hi: seq<int>, from: int, to: int, i: int, j: int)
    requires |lo| == |hi|
  {
    && 0 <= i <= j <= |lo|
    && (forall k :: 0 <= k < i ==> hi[k] + 1 < from)
    && (forall k :: i <= k < j ==> from - 1 <= hi[k] && lo[k] <= to + 1)
    && (forall k :: j <= k < |lo| ==> to + 1 < lo[k])
  }

  lemma Splice(lo: seq<int>, hi: seq<int>, i: int, j: int, from: int, to: int, first: int, last: int)
    requires Canonical(lo, hi) && from <= to && Touching(lo, hi, from, to, i, j)
    requires first == (if i < j && lo[i] < from then lo[i] else from)
    requires last == (if i < j && hi[j - 1] > to then hi[j - 1] else to)
    ensures Canonical(lo[..i] + [first] + lo[j..], hi[..i] + [last] + hi[j..])
    ensures forall x :: Member(lo[..i] + [first] + lo[j..], hi[..i] + [last] + hi[j..], x)
                   <==> Member(lo, hi, x) || from <= x <= to
  {
    forall x
      ensures Member(lo[..i] + [first] + lo[j..], hi[..i] + [last] + hi[j..], x)
         <==> Member(lo, hi, x) || from <= x <= to
    {
      SpliceMember(lo, hi, i, j, from, to, first, last, x);
      Pieces(lo, i, j);
      Pieces(hi, i, j);
    }
    SpliceCanonical(lo, hi, i, j, from, to, first, last);
  }

  lemma SpliceMember(lo: seq<int>, hi: seq<int>, i: int, j: int, from: int, to: int, first: int, last: int, x: int)
    requires Canonical(lo, hi) && from <= to && Touching(lo, hi, from, to, i, j)
    requires first == (if i < j && lo[i] < from then lo[i] else from)
    requires last == (if i < j && hi[j - 1] > to then hi[j - 1] else to)
    ensures Member(lo[..i] + [first] + lo[j..], hi[..i] + [last] + hi[j..], x)
       <==> Member(lo[..i] + lo[i..j] + lo[j..], hi[..i] + hi[i..j] + hi[j..], x) || from <= x <= to
  {
    CanonicalSlice(lo, hi, i, j);
    TouchingSlice(lo, hi, from, to, i, j);
    HullAdds(lo[..i], hi[..i], lo[i..j], hi[i..j], lo[j..], hi[j..], from, to, first, last, x);
  }

  lemma Pieces(s: seq<int>, i: int, j: int)
    requires 0 <= i <= j <= |s|
    ensures s == s[..i] + s[i..j] + s[j..] && |s[i..j]| == j - i
  {
  }

  lemma CanonicalSlice(lo: seq<int>, hi: seq<int>, i: int, j: int)
    requires Canonical(lo, hi) && 0 <= i <= j <= |lo|
    ensures Canonical(lo[i..j], hi[i..j]) && Canonical(lo[..i], hi[..i]) && Canonical(lo[j..], hi[j..])
  {
  }

  lemma TouchingSlice(lo: seq<int>, hi: seq<int>, from: int, to: int, i: int, j: int)
    requires |lo| == |hi| && Touching(lo, hi, from, to, i, j)
    ensures forall k :: 0 <= k < |lo[i..j]| ==> from - 1 <= hi[i..j][k] && lo[i..j][k] <= to + 1
    ensures i < j ==> lo[i..j][0] == lo[i] && hi[i..j][|lo[i..j]| - 1] == hi[j - 1]
  {
  }

  lemma SpliceCanonical(lo: seq<int>, hi: seq<int>, i: int, j: int, from: int, to: int, first: int, last: int)
    requires Canonical(lo, hi) && from <= to && Touching(lo, hi, from, to, i, j)
    requires first == (if i < j && lo[i] < from then lo[i] else from)
    requires last == (if i < j && hi[j - 1] > to then hi[j - 1] else to)
    ensures Canonical(lo[..i] + [first] + lo[j..], hi[..i] + [last] + hi[j..])
  {
    CanonicalSlice(lo, hi, i, j);
    HullKeepsCanonical(lo[..i], hi[..i], first, last, lo[j..], hi[j..]);
  }

  // ---------- the set ----------

  // A range as JSON has it; what does not read as two numbers is skipped.
  datatype Item = Range(lo: int, hi: int) | Malformed

  datatype Json = Null | Flag(on: bool) | Number(n: int) | Items(items: seq<Item>)

  ghost predicate InItems(items: seq<Item>, x: int) {
    exists i :: 0 <= i < |items| && items[i].Range? && items[i].lo <= x <= items[i].hi
  }

  class SeqSet {
    var lo: seq<int>
    var hi: seq<int>

    ghost predicate Valid()
      reads this
    {
      Canonical(lo, hi)
    }

    ghost predicate Has(x: int)
      requires Valid()
      reads this
    {
      Member(lo, hi, x)
    }

    // An empty set, or the one a JSON value stands for: its ranges, or for the
    // legacy cursor everything from 0 up to it.
    constructor FromJson(data: Json)
      ensures Valid()
      ensures data.Number? ==> forall x :: Has(x) <==> 0 <= x <= data.n
      ensures data.Items? ==> forall x :: Has(x) <==> InItems(data.items, x)
      ensures data.Null? || data.Flag? ==> lo == []
    {
      lo, hi := [], [];
      new;
      match data
      case Null =>
      case Flag(_) =>
      case Number(n) =>
        if n >= 0 { AddRange(0, n); }
      case Items(items) =>
        for i := 0 to |items|
          invariant Valid() && forall x :: Has(x) <==> InItems(items[..i], x)
        {
          forall x ensures InItems(items[..i + 1], x) <==>
            InItems(items[..i], x) || (items[i].Range? && items[i].lo <= x <= items[i].hi)
          {
            assert items[..i + 1] == items[..i] + [items[i]];
          }
          if items[i].Range? { AddRange(items[i].lo, items[i].hi); }
        }
        assert items[..|items|] == items;
    }

    method Contains(x: int) returns (found: bool)
      requires Valid()
      ensures found <==> Has(x)
    {
      var at := BisectRight(lo, x);
      found := at > 0 && hi[at - 1] >= x;
      if i :| 0 <= i < |lo| && lo[i] <= x <= hi[i] {
        assert i < at && lo[at - 1] <= x <= hi[i];
      }
    }

    method Len() returns (n: int)
      requires Valid()
      ensures n == |Elements(lo, hi)|
    {
      n := 0;
      for i := 0 to |lo|
        invariant n == Lengths(lo[..i], hi[..i])
      {
        n := n + (hi[i] - lo[i] + 1);
        assert lo[..i + 1][..i] == lo[..i] && hi[..i + 1][..i] == hi[..i];
      }
      assert lo[..|lo|] == lo && hi[..|hi|] == hi;
      LengthsCountElements(lo, hi);
    }

    // The greatest element, -1 when there is none.
    function Max(): (m: int)
      requires Valid()
      reads this
      ensures lo == [] ==> m == -1
      ensures lo != [] ==> Has(m) && forall x :: Has(x) ==> x <= m
    {
      if hi == [] then -1
      else
        assert lo[|lo| - 1] <= hi[|hi| - 1];
        hi[|hi| - 1]
    }

    // True exactly when `x` is new.
    method Add(x: int) returns (added: bool)
      requires Valid()
      modifies this
      ensures Valid()
      ensures added <==> !old(Has(x))
      ensures forall y :: Has(y) <==> old(Has(y)) || y == x
    {
      var found := Contains(x);
      if found { return false; }
      AddRange(x, x);
      added := true;
    }

    method AddRange(from: int, to: int)
      requires Valid()
      modifies this
      ensures Valid()
      ensures forall x :: Has(x) <==> old(Has(x)) || from <= x <= to
    {
      if to < from { return; }
      var i, j := FindTouching(from, to);
      var first, last := from, to;
      if i < j {
        if lo[i] < first { first := lo[i]; }
        if hi[j - 1] > last { last := hi[j - 1]; }
      }
      Splice(lo, hi, i, j, from, to, first, last);
      lo, hi := lo[..i] + [first] + lo[j..], hi[..i] + [last] + hi[j..];
    }

    method FindTouching(from: int, to: int) returns (i: nat, j: nat)
      requires Valid() && from <= to
      ensures Touching(lo, hi, from, to, i, j)
    {
      i := BisectLeft(lo, from);
      if i > 0 && hi[i - 1] >= from - 1 { i := i - 1; }
      j := i;
      while j < |lo| && lo[j] <= to + 1
        invariant i <= j <= |lo| && forall k :: i <= k < j ==> lo[k] <= to + 1
      {
        j := j + 1;
      }
    }

    function ToJson(): (items: seq<Item>)
      requires Valid()
      reads this
      ensures |items| == |lo|
      ensures forall x :: InItems(items, x) <==> Has(x)
    {
      var items := seq(|lo|, i requires 0 <= i < |lo| reads this requires Valid() => Range(lo[i], hi[i]));
      assert forall x :: InItems(items, x) <==> Has(x) by {
        forall x ensures InItems(items, x) <==> Has(x) {
          if Has(x) {
            var i :| 0 <= i < |lo| && lo[i] <= x <= hi[i];
            assert items[i].Range? && items[i].lo <= x <= items[i].hi;
          }
        }
      }
      items
    }

    // Reading back what was written gives the very same ranges.
    method RoundTrip() returns (again: SeqSet)
      requires Valid()
      ensures again.Valid() && again.lo == lo && again.hi == hi
    {
      again := new SeqSet.FromJson(Items(ToJson()));
      forall x ensures Member(again.lo, again.hi, x) <==> Member(lo, hi, x) {
        assert again.Has(x) <==> Has(x);
      }
      EqualSetsEqualRanges(again.lo, again.hi, lo, hi);
    }
  }
}
