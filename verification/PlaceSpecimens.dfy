// Moving specimens between motors.
module PlaceSpecimens {
  import opened Layouts
  import opened Wrappers

  // The motor a sample belongs to now.
  function MotorOf(motors: Groups, s: nat): (m: nat)
    requires s < |Specimens(motors)|
    ensures m < |motors|
  {
    var before := motors[..|motors| - 1];
    if s < |Specimens(before)| then MotorOf(before, s) else |motors| - 1
  }

  // And after the moves; the rest stay.
  function Placed(motors: Groups, moves: map<nat, nat>, s: nat): nat
    requires s < |Specimens(motors)|
  {
    if s in moves then moves[s] else MotorOf(motors, s)
  }

  function PlacedAll(motors: Groups, moves: map<nat, nat>): (p: seq<nat>)
    ensures |p| == |Specimens(motors)|
  {
    seq(|Specimens(motors)|, s requires 0 <= s < |Specimens(motors)| => Placed(motors, moves, s))
  }

  // The samples placed on motor m.
  ghost function On(placed: seq<nat>, m: nat): set<nat> { set s: nat | s < |placed| && placed[s] == m }

  ghost function OnFirst(placed: seq<nat>, m: nat): set<nat> { set s: nat | s < |placed| && placed[s] < m }

  // Heated ones before unheated ones, each kind in sample order.
  ghost predicate HeatedFirst(ss: seq<Specimen>, samples: seq<nat>) {
    && (forall i :: 0 <= i < |samples| ==> samples[i] < |ss|)
    && (forall i, j :: 0 <= i < j < |samples| ==>
          (if ss[samples[i]].line.Some? == ss[samples[j]].line.Some? then samples[i] < samples[j]
           else ss[samples[i]].line.Some?))
  }

  method Pick(ss: seq<Specimen>, placed: seq<nat>, m: nat) returns (samples: seq<nat>)
    requires |placed| == |ss|
    ensures HeatedFirst(ss, samples) && forall s :: s in samples <==> s in On(placed, m)
  {
    var heated: seq<nat>, unheated: seq<nat> := [], [];
    for s := 0 to |ss|
      invariant forall i :: 0 <= i < |heated| ==> heated[i] < s <= |ss| && ss[heated[i]].line.Some?
      invariant forall i :: 0 <= i < |unheated| ==> unheated[i] < s && ss[unheated[i]].line.None?
      invariant forall i, j :: 0 <= i < j < |heated| ==> heated[i] < heated[j]
      invariant forall i, j :: 0 <= i < j < |unheated| ==> unheated[i] < unheated[j]
      invariant forall t :: t in heated || t in unheated <==> t < s && t in On(placed, m)
    {
      if placed[s] == m {
        if ss[s].line.Some? { heated := heated + [s]; } else { unheated := unheated + [s]; }
      }
    }
    samples := heated + unheated;
  }

  lemma {:induction false} DistinctMultiset(s: seq<nat>, elements: set<nat>)
    requires Distinct(s) && forall x :: x in s <==> x in elements
    ensures multiset(s) == multiset(elements)
  {
    if s != [] {
      var n := |s| - 1;
      assert s == s[..n] + [s[n]];
      DistinctOneMore(s[..n], s[n]);
      DistinctMultiset(s[..n], elements - {s[n]});
      assert multiset(elements) == multiset(elements - {s[n]}) + multiset{s[n]};
    } else {
      assert elements == {};
    }
  }

  // The specimen on the motor's click comes first, if it is there.
  method ToFront(samples: seq<nat>, first: Option<nat>) returns (r: seq<nat>)
    ensures multiset(r) == multiset(samples)
    ensures first.Some? && first.value in samples ==> r[0] == first.value
    ensures first.None? || first.value !in samples ==> r == samples
    ensures first.Some? && first.value in samples ==>
      exists i :: 0 <= i < |samples| && samples[i] == first.value && r[1..] == samples[..i] + samples[i + 1..]
  {
    if first.None? || first.value !in samples { return samples; }
    var i := 0;
    while samples[i] != first.value
      invariant i < |samples| && first.value in samples[i..]
      decreases |samples| - i
    {
      i := i + 1;
    }
    r := [samples[i]] + samples[..i] + samples[i + 1..];
    assert samples == samples[..i] + [samples[i]] + samples[i + 1..];
    assert r[1..] == samples[..i] + samples[i + 1..];
  }

  predicate Within(samples: seq<nat>, n: nat) { forall i :: 0 <= i < |samples| ==> samples[i] < n }

  function Of(ss: seq<Specimen>, samples: seq<nat>): (r: seq<Specimen>)
    requires Within(samples, |ss|)
    ensures |r| == |samples|
  {
    seq(|samples|, i requires 0 <= i < |samples| => ss[samples[i]])
  }

  // The click given for a motor, else its present first sample.
  function ClickOf(motors: Groups, clicks: map<nat, nat>, m: nat): Option<nat>
    requires m < |motors|
  {
    if m in clicks then Some(clicks[m])
    else if MotorSamples(motors)[m] == [] then None
    else Some(MotorSamples(motors)[m][0])
  }

  // Group m of the new layout holds the samples placed there, click first.
  ghost predicate GroupOk(motors: Groups, moves: map<nat, nat>, clicks: map<nat, nat>, m: nat, samples: seq<nat>) {
    && m < |motors|
    && multiset(samples) == multiset(On(PlacedAll(motors, moves), m))
    && Within(samples, |Specimens(motors)|)
    && var first := ClickOf(motors, clicks, m);
       if first.Some? && first.value in On(PlacedAll(motors, moves), m)
       then samples != [] && samples[0] == first.value && HeatedFirst(Specimens(motors), samples[1..])
       else HeatedFirst(Specimens(motors), samples)
  }

  method PlaceGroup(motors: Groups, moves: map<nat, nat>, clicks: map<nat, nat>, m: nat) returns (samples: seq<nat>)
    requires m < |motors|
    ensures GroupOk(motors, moves, clicks, m, samples)
  {
    var ss := Specimens(motors);
    var placed := PlacedAll(motors, moves);
    var sorted := Pick(ss, placed, m);
    HeatedFirstDistinct(ss, sorted);
    DistinctMultiset(sorted, On(placed, m));
    samples := ToFront(sorted, ClickOf(motors, clicks, m));
    SameElements(sorted, samples);
    ghost var first := ClickOf(motors, clicks, m);
    if first.Some? && first.value in sorted {
      var i :| 0 <= i < |sorted| && sorted[i] == first.value && samples[1..] == sorted[..i] + sorted[i + 1..];
      WithoutStaysSorted(ss, sorted, i);
      assert samples != [] by { assert |multiset(samples)| == |multiset(sorted)|; }
    }
  }

  lemma SameElements(a: seq<nat>, b: seq<nat>)
    requires multiset(a) == multiset(b)
    ensures forall x :: x in b ==> x in a
    ensures |a| == |b|
  {
    forall x | x in b ensures x in a { assert x in multiset(b); }
    assert |multiset(a)| == |a| && |multiset(b)| == |b|;
  }

  lemma HeatedFirstDistinct(ss: seq<Specimen>, samples: seq<nat>)
    requires HeatedFirst(ss, samples)
    ensures Distinct(samples)
  {
  }

  lemma WithoutStaysSorted(ss: seq<Specimen>, samples: seq<nat>, i: nat)
    requires HeatedFirst(ss, samples) && i < |samples|
    ensures HeatedFirst(ss, samples[..i] + samples[i + 1..])
  {
    var rest := samples[..i] + samples[i + 1..];
    assert forall j :: 0 <= j < |rest| ==> rest[j] == samples[if j < i then j else j + 1];
  }

  function Flat(groups: seq<seq<nat>>): seq<nat> {
    if groups == [] then [] else Flat(groups[..|groups| - 1]) + groups[|groups| - 1]
  }

  ghost predicate GroupsOk(motors: Groups, moves: map<nat, nat>, clicks: map<nat, nat>, groups: seq<seq<nat>>) {
    |groups| <= |motors| && forall m :: 0 <= m < |groups| ==> GroupOk(motors, moves, clicks, m, groups[m])
  }

  // `now` is the layout these samples make.
  ghost predicate Shows(ss: seq<Specimen>, now: Groups, groups: seq<seq<nat>>) {
    |now| == |groups| && forall m :: 0 <= m < |groups| ==> Within(groups[m], |ss|) && now[m] == Of(ss, groups[m])
  }

  method Place(motors: Groups, moves: map<nat, nat>, clicks: map<nat, nat>) returns (now: Groups, ghost groups: seq<seq<nat>>)
    ensures |now| == |motors| && GroupsOk(motors, moves, clicks, groups) && Shows(Specimens(motors), now, groups)
    // A specimen is lost exactly when it is moved to a motor there is not.
    ensures multiset(Specimens(now)) == multiset(Specimens(motors))
       <==> forall s :: 0 <= s < |Specimens(motors)| ==> PlacedAll(motors, moves)[s] < |motors|
  {
    now, groups := [], [];
    for m := 0 to |motors|
      invariant |now| == m && |groups| == m
      invariant GroupsOk(motors, moves, clicks, groups) && Shows(Specimens(motors), now, groups)
    {
      var samples := PlaceGroup(motors, moves, clicks, m);
      now, groups := now + [Of(Specimens(motors), samples)], groups + [samples];
    }
    PlacingPermutes(motors, moves, clicks, now, groups);
  }

  lemma {:induction false} FlatHolds(motors: Groups, moves: map<nat, nat>, clicks: map<nat, nat>, groups: seq<seq<nat>>)
    requires GroupsOk(motors, moves, clicks, groups)
    ensures multiset(Flat(groups)) == multiset(OnFirst(PlacedAll(motors, moves), |groups|))
  {
    var placed := PlacedAll(motors, moves);
    if groups != [] {
      var n := |groups| - 1;
      FlatHolds(motors, moves, clicks, groups[..n]);
      assert GroupOk(motors, moves, clicks, n, groups[n]);
      assert OnFirst(placed, n + 1) == OnFirst(placed, n) + On(placed, n);
      assert OnFirst(placed, n) !! On(placed, n);
      SumOfSets(OnFirst(placed, n), On(placed, n));
    } else {
      assert OnFirst(placed, 0) == {};
    }
  }

  lemma SumOfSets(a: set<nat>, b: set<nat>)
    requires a !! b
    ensures multiset(a + b) == multiset(a) + multiset(b)
  {
  }

  lemma {:induction false} SpecimensShown(ss: seq<Specimen>, now: Groups, groups: seq<seq<nat>>)
    requires Shows(ss, now, groups)
    ensures Within(Flat(groups), |ss|) && Specimens(now) == Of(ss, Flat(groups))
  {
    if groups != [] {
      var n := |groups| - 1;
      SpecimensShown(ss, now[..n], groups[..n]);
      assert Of(ss, Flat(groups)) == Of(ss, Flat(groups[..n])) + Of(ss, groups[n]);
    }
  }

  // Rearranged samples show rearranged specimens.
  lemma {:induction false} Rearranged(ss: seq<Specimen>, a: seq<nat>, b: seq<nat>)
    requires multiset(a) == multiset(b)
    requires Within(a, |ss|) && Within(b, |ss|)
    ensures multiset(Of(ss, a)) == multiset(Of(ss, b))
    decreases |a|
  {
    if a == [] {
      assert |multiset(a)| == |a| && |multiset(b)| == |b|;
    } else {
      var n := |a| - 1;
      assert a == a[..n] + [a[n]];
      assert a[n] in multiset(b);
      var i :| 0 <= i < |b| && b[i] == a[n];
      var rest := b[..i] + b[i + 1..];
      TakenOut(b, i);
      Cancel(multiset(a[..n]), multiset(rest), multiset{a[n]});
      Rearranged(ss, a[..n], rest);
      assert Of(ss, a) == Of(ss, a[..n]) + [ss[a[n]]];
      ShownWithout(ss, b, i);
    }
  }

  lemma Cancel(x: multiset<nat>, y: multiset<nat>, z: multiset<nat>)
    requires x + z == y + z
    ensures x == y
  {
    assert x == (x + z) - z && y == (y + z) - z;
  }

  lemma TakenOut<T>(b: seq<T>, i: nat)
    requires i < |b|
    ensures multiset(b) == multiset(b[..i] + b[i + 1..]) + multiset{b[i]}
  {
    assert b == b[..i] + [b[i]] + b[i + 1..];
  }

  lemma ShownWithout(ss: seq<Specimen>, b: seq<nat>, i: nat)
    requires i < |b| && Within(b, |ss|)
    ensures Within(b[..i] + b[i + 1..], |ss|)
    ensures multiset(Of(ss, b)) == multiset(Of(ss, b[..i] + b[i + 1..])) + multiset{ss[b[i]]}
  {
    var shown := Of(ss, b);
    TakenOut(shown, i);
    assert Of(ss, b[..i] + b[i + 1..]) == shown[..i] + shown[i + 1..];
  }

  lemma PlacingPermutes(motors: Groups, moves: map<nat, nat>, clicks: map<nat, nat>, now: Groups, groups: seq<seq<nat>>)
    requires |groups| == |motors| && GroupsOk(motors, moves, clicks, groups) && Shows(Specimens(motors), now, groups)
    ensures multiset(Specimens(now)) == multiset(Specimens(motors))
       <==> forall s :: 0 <= s < |Specimens(motors)| ==> PlacedAll(motors, moves)[s] < |motors|
  {
    var ss, placed := Specimens(motors), PlacedAll(motors, moves);
    FlatHolds(motors, moves, clicks, groups);
    SpecimensShown(ss, now, groups);
    if forall s :: 0 <= s < |ss| ==> placed[s] < |motors| {
      NoneLost(ss, placed, |motors|, Flat(groups));
    } else {
      SomeLost(ss, placed, |motors|, Flat(groups));
    }
  }

  lemma NoneLost(ss: seq<Specimen>, placed: seq<nat>, m: nat, flat: seq<nat>)
    requires |placed| == |ss| && Within(flat, |ss|) && multiset(flat) == multiset(OnFirst(placed, m))
    requires forall s :: 0 <= s < |ss| ==> placed[s] < m
    ensures multiset(Of(ss, flat)) == multiset(ss)
  {
    AllOnce(|ss|);
    assert OnFirst(placed, m) == Below(|ss|);
    assert Of(ss, Range(0, |ss|)) == ss;
    Rearranged(ss, flat, Range(0, |ss|));
  }

  lemma SomeLost(ss: seq<Specimen>, placed: seq<nat>, m: nat, flat: seq<nat>)
    requires |placed| == |ss| && Within(flat, |ss|) && multiset(flat) == multiset(OnFirst(placed, m))
    requires exists s :: 0 <= s < |ss| && placed[s] >= m
    ensures multiset(Of(ss, flat)) != multiset(ss)
  {
    var s :| 0 <= s < |ss| && placed[s] >= m;
    AllOnce(|ss|);
    Fewer(OnFirst(placed, m), Below(|ss|), s);
    SameSize(flat, OnFirst(placed, m));
    SameSize(Range(0, |ss|), Below(|ss|));
    assert |multiset(Of(ss, flat))| == |flat| && |multiset(ss)| == |ss|;
  }

  ghost function Below(n: nat): set<nat> { set x | x in Range(0, n) }

  lemma AllOnce(n: nat)
    ensures multiset(Range(0, n)) == multiset(Below(n)) && forall s: nat :: s in Below(n) <==> s < n
  {
    forall s: nat | s < n ensures s in Below(n) { assert Range(0, n)[s] == s; }
    DistinctMultiset(Range(0, n), Below(n));
  }

  lemma SameSize(s: seq<nat>, elements: set<nat>)
    requires multiset(s) == multiset(elements)
    ensures |s| == |elements|
  {
    assert |multiset(s)| == |s| && |multiset(elements)| == |elements|;
  }

  lemma Fewer(a: set<nat>, b: set<nat>, x: nat)
    requires a <= b && x in b && x !in a
    ensures |a| < |b|
  {
    assert b == a + (b - a);
  }
}
