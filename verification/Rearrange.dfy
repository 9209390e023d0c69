// What the association script does to a layout once it has heated every
// heater: believe the pairs it measured, give the rest what is left, and move
// specimens between motors.
module Rearrange {
  import opened Layouts
  import opened Medians
  import opened Wrappers

  // ---------- which measurements to believe ----------

  datatype HeaterResult = HeaterResult(heater: nat, paired: bool, channel: nat, seconds: real)

  // The heaters whose test ended with this terminal, in test order.
  function HeatersOn(rs: seq<HeaterResult>, channel: nat): seq<nat> {
    if rs == [] then []
    else
      var last := rs[|rs| - 1];
      var before := HeatersOn(rs[..|rs| - 1], channel);
      if last.paired && last.channel == channel then before + [last.heater] else before
  }

  lemma {:induction false} TestedOn(rs: seq<HeaterResult>, channel: nat, i: nat)
    requires i < |rs| && rs[i].paired && rs[i].channel == channel
    ensures rs[i].heater in HeatersOn(rs, channel)
  {
    var n := |rs| - 1;
    if i < n { TestedOn(rs[..n], channel, i); }
  }

  // Two different heaters on one terminal are never believed.
  lemma TwoOnOne(rs: seq<HeaterResult>, i: nat, j: nat)
    requires i < |rs| && j < |rs| && rs[i].paired && rs[j].paired && rs[i].channel == rs[j].channel
    requires rs[i].heater != rs[j].heater
    ensures |HeatersOn(rs, rs[i].channel)| > 1
  {
    TestedOn(rs, rs[i].channel, i);
    TestedOn(rs, rs[i].channel, j);
  }

  ghost predicate Injective(m: map<nat, nat>) {
    forall h, k :: h in m && k in m && h != k ==> m[h] != m[k]
  }

  ghost predicate MeasuredAs(rs: seq<HeaterResult>, heater: nat, channel: nat) {
    exists i :: 0 <= i < |rs| && rs[i].paired && rs[i].heater == heater && rs[i].channel == channel
  }

  // No terminal warmed clearly, or one that another heater warmed too.
  predicate Doubtful(rs: seq<HeaterResult>, r: HeaterResult) { !r.paired || |HeatersOn(rs, r.channel)| > 1 }

  ghost function DoubtfulHeaters(rs: seq<HeaterResult>): set<nat> {
    set i | 0 <= i < |rs| && Doubtful(rs, rs[i]) :: rs[i].heater
  }

  // How long the heaters outside `doubtful` took, in test order.
  function Times(rs: seq<HeaterResult>, doubtful: set<nat>): seq<real> {
    if rs == [] then []
    else
      var last := rs[|rs| - 1];
      var before := Times(rs[..|rs| - 1], doubtful);
      if last.paired && last.heater !in doubtful then before + [last.seconds] else before
  }

  // Among three or more, one far slower than the median is a neighbour's heat.
  predicate FarSlower(r: HeaterResult, times: seq<real>) {
    |times| >= 3 && r.seconds > 3.0 * Median(times) && r.seconds > Median(times) + 10.0
  }

  ghost function SlowHeaters(rs: seq<HeaterResult>, doubtful: set<nat>): set<nat> {
    set i | 0 <= i < |rs| && rs[i].paired && rs[i].heater !in doubtful && FarSlower(rs[i], Times(rs, doubtful)) :: rs[i].heater
  }

  ghost function HeatersAbove(rs: seq<HeaterResult>, doubtful: set<nat>, x: real): set<nat> {
    set i | 0 <= i < |rs| && rs[i].paired && rs[i].heater !in doubtful && rs[i].seconds > x :: rs[i].heater
  }

  lemma {:induction false} AboveCount(rs: seq<HeaterResult>, doubtful: set<nat>, x: real)
    ensures |HeatersAbove(rs, doubtful, x)| <= Above(Times(rs, doubtful), x)
  {
    if rs != [] {
      var front, last := rs[..|rs| - 1], rs[|rs| - 1];
      AboveCount(front, doubtful, x);
      var counted := last.paired && last.heater !in doubtful;
      assert HeatersAbove(rs, doubtful, x)
          == HeatersAbove(front, doubtful, x) + (if counted && last.seconds > x then {last.heater} else {});
      var times := Times(front, doubtful);
      assert counted ==> (times + [last.seconds])[..|times|] == times;
    }
  }

  // However the times lie, at most half of the clear measurements are distrusted as slow.
  lemma SlowAreFew(rs: seq<HeaterResult>, doubtful: set<nat>)
    ensures 2 * |SlowHeaters(rs, doubtful)| <= |Times(rs, doubtful)|
  {
    var times := Times(rs, doubtful);
    if |times| >= 3 {
      var above := HeatersAbove(rs, doubtful, Median(times));
      AboveCount(rs, doubtful, Median(times));
      MedianIsMiddle(times);
      assert SlowHeaters(rs, doubtful) <= above;
      assert above == SlowHeaters(rs, doubtful) + (above - SlowHeaters(rs, doubtful));
    } else {
      assert SlowHeaters(rs, doubtful) == {};
    }
  }

  // Exactly the doubtful and the far slower heaters have a problem; every other
  // one is believed, with what its last test measured.
  method Resolve(rs: seq<HeaterResult>) returns (association: map<nat, nat>, problems: set<nat>)
    ensures Injective(association)
    ensures problems == DoubtfulHeaters(rs) + SlowHeaters(rs, DoubtfulHeaters(rs))
    ensures association.Keys == (set i | 0 <= i < |rs| :: rs[i].heater) - problems
    ensures forall i :: 0 <= i < |rs| && rs[i].heater !in problems && LastTest(rs, i, |rs|) ==>
      association[rs[i].heater] == rs[i].channel
  {
    var doubtful := FindDoubtful(rs);
    var slow := FindSlow(rs, doubtful);
    problems := doubtful + slow;
    association := Believed(rs, problems);
    forall h, k | h in association && k in association && h != k ensures association[h] != association[k] {
      var i :| 0 <= i < |rs| && rs[i].paired && rs[i].heater == h && rs[i].channel == association[h];
      var j :| 0 <= j < |rs| && rs[j].paired && rs[j].heater == k && rs[j].channel == association[k];
      if association[h] == association[k] { TwoOnOne(rs, i, j); }
    }
    forall i | 0 <= i < |rs| && rs[i].heater !in problems ensures rs[i].paired {
      assert !Doubtful(rs, rs[i]);
    }
  }

  ghost predicate LastTest(rs: seq<HeaterResult>, i: nat, n: nat)
    requires i < |rs| && n <= |rs|
  {
    forall j :: i < j < n ==> rs[j].heater != rs[i].heater
  }

  method FindDoubtful(rs: seq<HeaterResult>) returns (doubtful: set<nat>)
    ensures doubtful == DoubtfulHeaters(rs)
  {
    doubtful := {};
    for i := 0 to |rs|
      invariant doubtful == set j | 0 <= j < i && !rs[j].paired :: rs[j].heater
    {
      if !rs[i].paired { doubtful := doubtful + {rs[i].heater}; }
    }
    for i := 0 to |rs|
      invariant doubtful == (set j | 0 <= j < |rs| && !rs[j].paired :: rs[j].heater)
                          + (set j | 0 <= j < i && rs[j].paired && |HeatersOn(rs, rs[j].channel)| > 1 :: rs[j].heater)
    {
      if rs[i].paired && |HeatersOn(rs, rs[i].channel)| > 1 { doubtful := doubtful + {rs[i].heater}; }
    }
  }

  method FindSlow(rs: seq<HeaterResult>, doubtful: set<nat>) returns (slow: set<nat>)
    ensures slow == SlowHeaters(rs, doubtful)
  {
    slow := {};
    var times := [];
    for i := 0 to |rs|
      invariant times == Times(rs[..i], doubtful)
    {
      assert rs[..i + 1][..i] == rs[..i];
      if rs[i].paired && rs[i].heater !in doubtful { times := times + [rs[i].seconds]; }
    }
    assert rs[..|rs|] == rs;
    if |times| < 3 { return; }
    for i := 0 to |rs|
      invariant slow == set j | 0 <= j < i && rs[j].paired && rs[j].heater !in doubtful
                                && FarSlower(rs[j], times) :: rs[j].heater
    {
      if rs[i].paired && rs[i].heater !in doubtful && FarSlower(rs[i], times) {
        slow := slow + {rs[i].heater};
      }
    }
  }

  method Believed(rs: seq<HeaterResult>, problems: set<nat>) returns (association: map<nat, nat>)
    requires forall i :: 0 <= i < |rs| && rs[i].heater !in problems ==> rs[i].paired
    ensures association.Keys == (set i | 0 <= i < |rs| :: rs[i].heater) - problems
    ensures forall h :: h in association ==> MeasuredAs(rs, h, association[h])
    ensures forall i :: 0 <= i < |rs| && rs[i].heater !in problems && LastTest(rs, i, |rs|) ==>
      association[rs[i].heater] == rs[i].channel
  {
    association := map[];
    for i := 0 to |rs|
      invariant association.Keys == (set j | 0 <= j < i :: rs[j].heater) - problems
      invariant forall h :: h in association ==> MeasuredAs(rs, h, association[h])
      invariant forall j :: 0 <= j < i && rs[j].heater !in problems && LastTest(rs, j, i) ==>
        association[rs[j].heater] == rs[j].channel
    {
      if rs[i].paired && rs[i].heater !in problems {
        assert MeasuredAs(rs, rs[i].heater, rs[i].channel);
        association := association[rs[i].heater := rs[i].channel];
      }
    }
  }

  // ---------- writing the measured terminals into the layout ----------

  // Terminals as far as they are settled.
  type Draft = seq<Option<nat>>

  ghost function Settled(d: Draft): set<int> { set i | 0 <= i < |d| && d[i].Some? }

  // The settled terminals are `taken`, no two samples have the same.
  ghost predicate DraftOk(d: Draft, taken: set<nat>) {
    && (forall i :: 0 <= i < |d| && d[i].Some? ==> d[i].value in taken)
    && (forall i, j {:trigger Unlike(d, i, j)} :: 0 <= i < j < |d| ==> Unlike(d, i, j))
    && |taken| == |Settled(d)|
  }

  predicate Unlike(d: Draft, i: nat, j: nat)
    requires i < |d| && j < |d|
  {
    d[i].Some? && d[j].Some? ==> d[i].value != d[j].value
  }

  lemma SettleOne(d: Draft, taken: set<nat>, i: nat, c: nat)
    requires DraftOk(d, taken) && i < |d| && d[i].None? && c !in taken
    ensures DraftOk(d[i := Some(c)], taken + {c})
  {
    var d' := d[i := Some(c)];
    assert Settled(d') == Settled(d) + {i};
    forall j, k | 0 <= j < k < |d'| ensures Unlike(d', j, k) {
      assert Unlike(d, j, k);
    }
  }

  lemma {:induction false} HeaterSamplesRise(ss: seq<Specimen>)
    ensures forall h :: 0 <= h < |HeaterSamples(ss)| ==> HeaterSamples(ss)[h] < |ss|
    ensures Distinct(HeaterSamples(ss))
  {
    if ss != [] { HeaterSamplesRise(ss[..|ss| - 1]); }
  }

  // Every sample a measured heater heats reads the terminal that warmed; `hs`
  // are the heated samples in heater order.
  ghost predicate Honours(d: Draft, hs: seq<nat>, association: map<nat, nat>, below: nat) {
    forall h :: h in association && h < below && h < |hs| && hs[h] < |d| ==> d[hs[h]] == Some(association[h])
  }

  ghost predicate MeasuredSample(hs: seq<nat>, association: map<nat, nat>, below: nat, i: nat) {
    exists h :: h in association && h < below && h < |hs| && hs[h] == i
  }

  // The pairs of the heaters below n are in.
  ghost predicate MeasuredTo(hs: seq<nat>, association: map<nat, nat>, d: Draft, taken: set<nat>, n: nat) {
    && DraftOk(d, taken) && Honours(d, hs, association, n) && taken == ValuesBelow(association, n)
    && (forall i :: 0 <= i < |d| && d[i].Some? ==> MeasuredSample(hs, association, n, i))
  }

  ghost function ValuesBelow(association: map<nat, nat>, n: nat): set<nat> {
    set k | k in association && k < n :: association[k]
  }

  lemma OneMoreValue(association: map<nat, nat>, h: nat)
    requires Injective(association) && h in association
    ensures ValuesBelow(association, h + 1) == ValuesBelow(association, h) + {association[h]}
    ensures association[h] !in ValuesBelow(association, h)
  {
  }

  lemma SampleStillFree(hs: seq<nat>, association: map<nat, nat>, d: Draft, taken: set<nat>, h: nat)
    requires MeasuredTo(hs, association, d, taken, h)
    requires h < |hs| && Distinct(hs) && hs[h] < |d|
    ensures d[hs[h]].None?
  {
    assert !MeasuredSample(hs, association, h, hs[h]);
  }

  lemma MeasureOne(hs: seq<nat>, association: map<nat, nat>, d: Draft, taken: set<nat>, h: nat)
    requires MeasuredTo(hs, association, d, taken, h) && Injective(association) && h in association
    requires h < |hs| && Distinct(hs) && forall k :: 0 <= k < |hs| ==> hs[k] < |d|
    ensures MeasuredTo(hs, association, d[hs[h] := Some(association[h])], taken + {association[h]}, h + 1)
  {
    var d' := d[hs[h] := Some(association[h])];
    OneMoreValue(association, h);
    SampleStillFree(hs, association, d, taken, h);
    SettleOne(d, taken, hs[h], association[h]);
    forall j | 0 <= j < |d'| && d'[j].Some? ensures MeasuredSample(hs, association, h + 1, j) {
      if j != hs[h] { StillMeasured(hs, association, h, j); }
    }
  }

  lemma StillMeasured(hs: seq<nat>, association: map<nat, nat>, h: nat, j: nat)
    ensures MeasuredSample(hs, association, h, j) ==> MeasuredSample(hs, association, h + 1, j)
  {
  }

  lemma NotMeasured(hs: seq<nat>, association: map<nat, nat>, d: Draft, taken: set<nat>, h: nat)
    requires MeasuredTo(hs, association, d, taken, h) && h !in association
    ensures MeasuredTo(hs, association, d, taken, h + 1)
  {
    assert ValuesBelow(association, h + 1) == ValuesBelow(association, h);
    forall j | 0 <= j < |d| && d[j].Some? ensures MeasuredSample(hs, association, h + 1, j) {
      StillMeasured(hs, association, h, j);
    }
  }

  method Measured(ss: seq<Specimen>, association: map<nat, nat>) returns (d: Draft)
    requires Injective(association) && forall h :: h in association ==> h < |HeaterSamples(ss)|
    ensures |d| == |ss| && MeasuredTo(HeaterSamples(ss), association, d, association.Values, |HeaterSamples(ss)|)
  {
    var samples := HeaterSamples(ss);
    HeaterSamplesRise(ss);
    d := seq(|ss|, i => None);
    ghost var taken: set<nat> := {};
    assert Settled(d) == {};
    for h := 0 to |samples|
      invariant |d| == |ss| && MeasuredTo(samples, association, d, taken, h)
    {
      if h in association {
        MeasureOne(samples, association, d, taken, h);
        d := d[samples[h] := Some(association[h])];
        taken := taken + {association[h]};
      } else {
        NotMeasured(samples, association, d, taken, h);
      }
    }
    assert taken == association.Values;
  }

  // This specimen is not measured and first in line for its own terminal.
  ghost predicate FirstInLine(ss: seq<Specimen>, d0: Draft, taken0: set<nat>, i: nat)
    requires |d0| == |ss| && i < |ss|
  {
    && d0[i].None? && ss[i].channel !in taken0
    && forall j :: 0 <= j < i && d0[j].None? ==> ss[j].channel != ss[i].channel
  }

  // Of the specimens below n, those first in line have kept their terminals.
  ghost predicate Kept(ss: seq<Specimen>, d0: Draft, taken0: set<nat>, d: Draft, taken: set<nat>, n: nat) {
    && |d0| == |d| == |ss| && n <= |ss| && DraftOk(d, taken)
    && (forall j {:trigger KeptAt(ss, d0, taken0, d, n, j)} :: 0 <= j < |ss| ==> KeptAt(ss, d0, taken0, d, n, j))
    && (forall c :: c in taken <==> c in taken0 || Claimed(ss, d0, c, n))
  }

  ghost predicate KeptAt(ss: seq<Specimen>, d0: Draft, taken0: set<nat>, d: Draft, n: nat, j: nat)
    requires |d0| == |d| == |ss| && j < |ss|
  {
    d[j] == if j < n && FirstInLine(ss, d0, taken0, j) then Some(ss[j].channel) else d0[j]
  }

  ghost predicate Claimed(ss: seq<Specimen>, d0: Draft, c: nat, n: nat)
    requires |d0| == |ss| && n <= |ss|
  {
    exists j :: 0 <= j < n && d0[j].None? && ss[j].channel == c
  }

  lemma KeepOne(ss: seq<Specimen>, d0: Draft, taken0: set<nat>, d: Draft, taken: set<nat>, n: nat)
    requires Kept(ss, d0, taken0, d, taken, n) && n < |ss|
    ensures d[n].None? && ss[n].channel !in taken ==>
      Kept(ss, d0, taken0, d[n := Some(ss[n].channel)], taken + {ss[n].channel}, n + 1)
    ensures d[n].Some? || ss[n].channel in taken ==> Kept(ss, d0, taken0, d, taken, n + 1)
  {
    var own := ss[n].channel;
    assert KeptAt(ss, d0, taken0, d, n, n);
    forall c ensures Claimed(ss, d0, c, n + 1) <==> Claimed(ss, d0, c, n) || (d0[n].None? && c == own) {
      assert d0[n].None? && c == own ==> Claimed(ss, d0, c, n + 1);
    }
    NextInLine(ss, d0, taken0, n);
    var d' := if d[n].None? && own !in taken then d[n := Some(own)] else d;
    var m := n + 1;
    forall j | 0 <= j < |ss| ensures KeptAt(ss, d0, taken0, d', m, j) {
      assert KeptAt(ss, d0, taken0, d, n, j);
    }
    if d[n].None? && own !in taken { SettleOne(d, taken, n, own); }
  }

  lemma NextInLine(ss: seq<Specimen>, d0: Draft, taken0: set<nat>, n: nat)
    requires |d0| == |ss| && n < |ss|
    ensures FirstInLine(ss, d0, taken0, n) <==>
      d0[n].None? && ss[n].channel !in taken0 && !Claimed(ss, d0, ss[n].channel, n)
  {
  }

  lemma KeptNone(ss: seq<Specimen>, d0: Draft, taken0: set<nat>)
    requires |d0| == |ss| && DraftOk(d0, taken0)
    ensures Kept(ss, d0, taken0, d0, taken0, 0)
  {
  }

  method KeepOwn(ss: seq<Specimen>, d0: Draft, taken0: set<nat>) returns (d: Draft, taken: set<nat>)
    requires |d0| == |ss| && DraftOk(d0, taken0)
    ensures Kept(ss, d0, taken0, d, taken, |ss|)
  {
    d, taken := d0, taken0;
    KeptNone(ss, d0, taken0);
    for i := 0 to |ss|
      invariant Kept(ss, d0, taken0, d, taken, i)
    {
      KeepOne(ss, d0, taken0, d, taken, i);
      if d[i].None? && ss[i].channel !in taken {
        d, taken := d[i := Some(ss[i].channel)], taken + {ss[i].channel};
      }
    }
  }

  const CARD_TERMINALS: seq<nat> := [1, 2, 3, 4, 5, 6, 7, 8]

  // The terminals in the order they are handed out: as the layout lists them,
  // then the card's.
  function Terminals(ss: seq<Specimen>): seq<nat> { Channels(ss) + CARD_TERMINALS }

  function FirstAt(s: seq<nat>, c: nat): (k: nat)
    ensures k <= |s| && (k < |s| ==> s[k] == c) && forall j :: 0 <= j < k ==> s[j] != c
  {
    if s == [] || s[0] == c then 0 else 1 + FirstAt(s[1..], c)
  }

  ghost predicate InOrder(all: seq<nat>, spare: seq<nat>) {
    forall a, b {:trigger RightOrder(all, spare, a, b)} :: 0 <= a < b < |spare| ==> RightOrder(all, spare, a, b)
  }

  predicate RightOrder(all: seq<nat>, spare: seq<nat>, a: nat, b: nat)
    requires a < |spare| && b < |spare|
  {
    FirstAt(all, spare[a]) < FirstAt(all, spare[b])
  }

  lemma InOrderOneMore(all: seq<nat>, spare: seq<nat>, c: nat)
    requires InOrder(all, spare) && forall a :: 0 <= a < |spare| ==> FirstAt(all, spare[a]) < FirstAt(all, c)
    ensures InOrder(all, spare + [c])
  {
    forall a, b | 0 <= a < b < |spare + [c]| ensures RightOrder(all, spare + [c], a, b) {
      if b < |spare| { assert RightOrder(all, spare, a, b); }
    }
  }

  // The terminals nobody has, each once, in order.
  method Spare(ss: seq<Specimen>, taken: set<nat>) returns (spare: seq<nat>)
    ensures Distinct(spare) && forall c :: c in spare <==> (c in Channels(ss) || c in CARD_TERMINALS) && c !in taken
    ensures InOrder(Terminals(ss), spare)
  {
    var all := Terminals(ss);
    spare := [];
    for i := 0 to |all|
      invariant Distinct(spare) && forall c :: c in spare <==> c in all[..i] && c !in taken
      invariant InOrder(all, spare) && forall a :: 0 <= a < |spare| ==> FirstAt(all, spare[a]) < i
    {
      assert all[..i + 1] == all[..i] + [all[i]];
      if all[i] !in taken && all[i] !in spare {
        DistinctOneMore(spare, all[i]);
        assert all[i] !in all[..i];
        assert FirstAt(all, all[i]) == i;
        InOrderOneMore(all, spare, all[i]);
        spare := spare + [all[i]];
      }
    }
    assert all[..|all|] == all;
  }

  function Unsettled(d: Draft, n: nat): nat
    requires n <= |d|
  {
    if n == 0 then 0 else Unsettled(d, n - 1) + (if d[n - 1].None? then 1 else 0)
  }

  lemma {:induction false} UnsettledCount(d: Draft, n: nat)
    requires n <= |d|
    ensures Unsettled(d, n) == n - |Settled(d[..n])|
  {
    if n == 0 {
      assert Settled(d[..0]) == {};
    } else {
      UnsettledCount(d, n - 1);
      assert d[..n][..n - 1] == d[..n - 1];
      var was, now := Settled(d[..n - 1]), Settled(d[..n]);
      assert now == was + (if d[n - 1].Some? then {n - 1} else {});
    }
  }

  ghost function Members(s: seq<nat>): set<nat> { set x | x in s }

  lemma {:induction false} DistinctSize(s: seq<nat>)
    requires Distinct(s)
    ensures |Members(s)| == |s|
  {
    if s != [] {
      var n := |s| - 1;
      assert s == s[..n] + [s[n]];
      DistinctOneMore(s[..n], s[n]);
      DistinctSize(s[..n]);
      assert Members(s) == Members(s[..n]) + {s[n]};
    }
  }

  lemma UnionSize(a: set<nat>, b: set<nat>, c: set<nat>)
    requires a <= b + c
    ensures |a| <= |b| + |c|
  {
    assert b + c == a + ((b + c) - a);
    assert b + c == b + (c - b);
    assert c == (c - b) + (c * b);
  }

  // With eight specimens at most, or no terminal listed twice, there are
  // terminals enough for everybody.
  lemma SpareIsEnough(ss: seq<Specimen>, d: Draft, taken: set<nat>, spare: seq<nat>)
    requires |d| == |ss| && DraftOk(d, taken) && Distinct(spare)
    requires forall c :: c in spare <==> (c in Channels(ss) || c in CARD_TERMINALS) && c !in taken
    requires |ss| <= 8 || Distinct(Channels(ss))
    ensures Unsettled(d, |d|) <= |spare|
  {
    UnsettledCount(d, |d|);
    assert d[..|d|] == d;
    DistinctSize(spare);
    var enough := if |ss| <= 8 then CARD_TERMINALS else Channels(ss);
    DistinctSize(enough);
    UnionSize(Members(enough), Members(spare), taken);
  }

  method FillIn(d: Draft, ghost taken: set<nat>, spare: seq<nat>) returns (r: Option<seq<nat>>)
    requires DraftOk(d, taken) && Distinct(spare) && forall c :: c in spare ==> c !in taken
    ensures r.Some? <==> Unsettled(d, |d|) <= |spare|
    ensures r.Some? ==> Distinct(r.value) && FilledTo(d, spare, r.value, |d|)
  {
    var chosen := [];
    for i := 0 to |d|
      invariant FilledTo(d, spare, chosen, i) && Distinct(chosen)
    {
      if d[i].Some? {
        NotAmong(d, taken, spare, chosen, i);
        DistinctOneMore(chosen, d[i].value);
        FilledOneMore(d, spare, chosen, i, d[i].value);
        chosen := chosen + [d[i].value];
      } else if Unsettled(d, i) == |spare| {
        MoreUnsettled(d, i + 1, |d|);
        return None;
      } else {
        var c := spare[Unsettled(d, i)];
        FreshSpare(d, spare, chosen, i);
        DistinctOneMore(chosen, c);
        FilledOneMore(d, spare, chosen, i, c);
        chosen := chosen + [c];
      }
    }
    r := Some(chosen);
  }

  lemma {:induction false} MoreUnsettled(d: Draft, m: nat, n: nat)
    requires m <= n <= |d|
    ensures Unsettled(d, m) <= Unsettled(d, n)
  {
    if m < n { MoreUnsettled(d, m, n - 1); }
  }

  // The first i samples have their settled terminal or the next spare one.
  ghost predicate FilledTo(d: Draft, spare: seq<nat>, cs: seq<nat>, i: nat) {
    && i <= |d| && |cs| == i && Unsettled(d, i) <= |spare|
    && forall j {:trigger FilledAt(d, spare, cs, j)} :: 0 <= j < i ==> FilledAt(d, spare, cs, j)
  }

  predicate FilledAt(d: Draft, spare: seq<nat>, cs: seq<nat>, j: nat)
    requires j < |d| && j < |cs|
  {
    if d[j].Some? then cs[j] == d[j].value else Unsettled(d, j) < |spare| && cs[j] == spare[Unsettled(d, j)]
  }

  lemma NotAmong(d: Draft, taken: set<nat>, spare: seq<nat>, chosen: seq<nat>, i: nat)
    requires DraftOk(d, taken) && FilledTo(d, spare, chosen, i) && i < |d| && d[i].Some?
    requires forall c :: c in spare ==> c !in taken
    ensures d[i].value !in chosen
  {
    forall j | 0 <= j < i ensures chosen[j] != d[i].value {
      assert FilledAt(d, spare, chosen, j) && Unlike(d, j, i);
      assert d[j].None? ==> chosen[j] in spare;
    }
  }

  lemma FreshSpare(d: Draft, spare: seq<nat>, chosen: seq<nat>, i: nat)
    requires FilledTo(d, spare, chosen, i) && Distinct(spare) && i < |d| && Unsettled(d, i) < |spare|
    requires forall j :: 0 <= j < |d| && d[j].Some? ==> d[j].value !in spare
    ensures spare[Unsettled(d, i)] !in chosen
  {
    forall j | 0 <= j < i ensures chosen[j] != spare[Unsettled(d, i)] {
      assert FilledAt(d, spare, chosen, j);
      if d[j].None? { MoreUnsettled(d, j + 1, i); }
    }
  }

  lemma FilledOneMore(d: Draft, spare: seq<nat>, cs: seq<nat>, i: nat, c: nat)
    requires FilledTo(d, spare, cs, i) && i < |d| && Unsettled(d, i + 1) <= |spare|
    requires c == if d[i].Some? then d[i].value else spare[Unsettled(d, i)]
    ensures FilledTo(d, spare, cs + [c], i + 1)
  {
    forall j | 0 <= j < i + 1 ensures FilledAt(d, spare, cs + [c], j) {
      if j < i { assert FilledAt(d, spare, cs, j); }
    }
  }

  // ---------- the composed layout ----------

  function WithChannels(ss: seq<Specimen>, cs: seq<nat>): (r: seq<Specimen>)
    requires |cs| == |ss|
    ensures |r| == |ss|
  {
    seq(|ss|, i requires 0 <= i < |ss| => ss[i].(channel := cs[i]))
  }

  // The specimens of each motor as before, only their terminals new.
  method Regroup(motors: Groups, cs: seq<nat>) returns (r: Groups)
    requires |cs| == |Specimens(motors)|
    ensures Specimens(r) == WithChannels(Specimens(motors), cs)
    ensures SameGroups(motors, r)
  {
    r := [];
    var start := 0;
    for m := 0 to |motors|
      invariant |r| == m && start == |Specimens(motors[..m])| <= |cs|
      invariant Specimens(r) == WithChannels(Specimens(motors[..m]), cs[..start])
      invariant forall k :: 0 <= k < m ==> |r[k]| == |motors[k]|
    {
      SpecimensOfPrefix(motors, m);
      PrefixOfSpecimens(motors, m + 1);
      ghost var before := Specimens(motors[..m]);
      var n := start + |motors[m]|;
      var group := WithChannels(motors[m], cs[start..n]);
      assert WithChannels(before + motors[m], cs[..n]) == WithChannels(before, cs[..start]) + group;
      assert (r + [group])[..m] == r;
      r, start := r + [group], start + |motors[m]|;
    }
    assert motors[..|motors|] == motors && cs[..|cs|] == cs;
  }

  // The measured terminals are believed, nobody shares one, groups, order and
  // heater lines stay. A specimen not measured keeps its terminal exactly when no
  // measured heater took it and no earlier one has it; the others get the first
  // terminals left over, in order.
  method ComposeLayout(association: map<nat, nat>, motors: Groups) returns (r: Option<Groups>)
    requires Injective(association) && forall h :: h in association ==> h < |HeaterSamples(Specimens(motors))|
    ensures |Specimens(motors)| <= 8 || Distinct(Channels(Specimens(motors))) ==> r.Some?
    ensures r.Some? ==> SameGroups(motors, r.value)
    ensures r.Some? ==> Composed(association, Specimens(motors), Specimens(r.value))
  {
    var ss := Specimens(motors);
    var d0 := Measured(ss, association);
    var d, taken := KeepOwn(ss, d0, association.Values);
    var spare := Spare(ss, taken);
    if |ss| <= 8 || Distinct(Channels(ss)) { SpareIsEnough(ss, d, taken, spare); }
    var cs := FillIn(d, taken, spare);
    if cs.None? { return None; }
    ComposedSo(association, ss, d0, d, taken, spare, cs.value);
    var groups := Regroup(motors, cs.value);
    r := Some(groups);
  }

  lemma {:induction false} HandedOut(d: Draft, spare: seq<nat>, cs: seq<nat>, n: nat, k: nat)
    requires FilledTo(d, spare, cs, |d|) && n <= |d| && k < Unsettled(d, n) && k < |spare|
    ensures spare[k] in cs
  {
    if k < Unsettled(d, n - 1) {
      HandedOut(d, spare, cs, n - 1, k);
    } else {
      assert FilledAt(d, spare, cs, n - 1);
    }
  }

  lemma ComposedSo(association: map<nat, nat>, ss: seq<Specimen>, d0: Draft, d: Draft, taken: set<nat>,
                   spare: seq<nat>, cs: seq<nat>)
    requires MeasuredTo(HeaterSamples(ss), association, d0, association.Values, |HeaterSamples(ss)|)
    requires forall h :: h in association ==> h < |HeaterSamples(ss)|
    requires Kept(ss, d0, association.Values, d, taken, |ss|) && InOrder(Terminals(ss), spare)
    requires forall c :: c in spare <==> (c in Channels(ss) || c in CARD_TERMINALS) && c !in taken
    requires Distinct(cs) && FilledTo(d, spare, cs, |d|)
    ensures Composed(association, ss, WithChannels(ss, cs))
  {
    var now := WithChannels(ss, cs);
    assert Channels(now) == cs;
    MeasuredStay(association, ss, d0, d, taken, spare, cs);
    DraftMeans(association, ss, d0, d, taken);
    forall i | 0 <= i < |ss| && StaysOn(association, ss, i) ensures cs[i] == ss[i].channel {
      assert FilledAt(d, spare, cs, i);
    }
    LeftoversSo(association, ss, d0, d, taken, spare, cs);
  }

  lemma LeftoversSo(association: map<nat, nat>, ss: seq<Specimen>, d0: Draft, d: Draft, taken: set<nat>,
                    spare: seq<nat>, cs: seq<nat>)
    requires MeasuredTo(HeaterSamples(ss), association, d0, association.Values, |HeaterSamples(ss)|)
    requires forall h :: h in association ==> h < |HeaterSamples(ss)|
    requires Kept(ss, d0, association.Values, d, taken, |ss|) && InOrder(Terminals(ss), spare)
    requires forall c :: c in spare <==> (c in Channels(ss) || c in CARD_TERMINALS) && c !in taken
    requires FilledTo(d, spare, cs, |d|)
    ensures LeftoversInOrder(association, ss, WithChannels(ss, cs))
  {
    forall c | c in taken ensures c in cs {
      TakenIsUsed(association, ss, d0, d, taken, c);
      var i :| 0 <= i < |d| && d[i] == Some(c);
      assert FilledAt(d, spare, cs, i);
    }
    RehousedSo(ss, d, taken, spare, cs);
    forall i | 0 <= i < |ss| && Rehoused(association, ss, i) ensures d[i].None? {
      DraftMeans(association, ss, d0, d, taken);
    }
    assert Channels(WithChannels(ss, cs)) == cs;
  }

  lemma MeasuredStay(association: map<nat, nat>, ss: seq<Specimen>, d0: Draft, d: Draft, taken: set<nat>,
                     spare: seq<nat>, cs: seq<nat>)
    requires MeasuredTo(HeaterSamples(ss), association, d0, association.Values, |HeaterSamples(ss)|)
    requires Kept(ss, d0, association.Values, d, taken, |ss|) && FilledTo(d, spare, cs, |d|)
    ensures forall h :: h in association && h < |HeaterSamples(ss)| && HeaterSamples(ss)[h] < |cs| ==>
      cs[HeaterSamples(ss)[h]] == association[h]
  {
    var hs := HeaterSamples(ss);
    forall h | h in association && h < |hs| && hs[h] < |cs| ensures cs[hs[h]] == association[h] {
      assert d0[hs[h]] == Some(association[h]);
      assert KeptAt(ss, d0, association.Values, d, |ss|, hs[h]) && FilledAt(d, spare, cs, hs[h]);
    }
  }

  lemma DraftMeans(association: map<nat, nat>, ss: seq<Specimen>, d0: Draft, d: Draft, taken: set<nat>)
    requires MeasuredTo(HeaterSamples(ss), association, d0, association.Values, |HeaterSamples(ss)|)
    requires Kept(ss, d0, association.Values, d, taken, |ss|)
    ensures forall i :: 0 <= i < |ss| && StaysOn(association, ss, i) ==> d[i] == Some(ss[i].channel)
    ensures forall i :: 0 <= i < |ss| && Rehoused(association, ss, i) ==> d[i].None?
  {
    forall i | 0 <= i < |ss| ensures IsMeasured(association, ss, i) <==> d0[i].Some? {
      MeasuredSettled(association, ss, d0, i);
    }
    forall i | 0 <= i < |ss|
      ensures StaysOn(association, ss, i) ==> d[i] == Some(ss[i].channel)
      ensures Rehoused(association, ss, i) ==> d[i].None?
    {
      assert KeptAt(ss, d0, association.Values, d, |ss|, i);
      assert StaysOn(association, ss, i) <==> FirstInLine(ss, d0, association.Values, i);
    }
  }

  lemma MeasuredSettled(association: map<nat, nat>, ss: seq<Specimen>, d0: Draft, i: nat)
    requires MeasuredTo(HeaterSamples(ss), association, d0, association.Values, |HeaterSamples(ss)|)
    requires |d0| == |ss| && i < |ss|
    ensures IsMeasured(association, ss, i) <==> d0[i].Some?
  {
  }

  lemma TakenIsUsed(association: map<nat, nat>, ss: seq<Specimen>, d0: Draft, d: Draft, taken: set<nat>, c: nat)
    requires MeasuredTo(HeaterSamples(ss), association, d0, association.Values, |HeaterSamples(ss)|)
    requires forall h :: h in association ==> h < |HeaterSamples(ss)|
    requires Kept(ss, d0, association.Values, d, taken, |ss|) && c in taken
    ensures exists i :: 0 <= i < |d| && d[i] == Some(c)
  {
    if c in association.Values {
      var h :| h in association && association[h] == c;
      HeaterSamplesRise(ss);
      assert d0[HeaterSamples(ss)[h]] == Some(c);
      assert KeptAt(ss, d0, association.Values, d, |ss|, HeaterSamples(ss)[h]);
    } else {
      var j := FirstClaim(ss, d0, association.Values, c, |ss|);
      assert KeptAt(ss, d0, association.Values, d, |ss|, j);
    }
  }

  lemma {:induction false} FirstClaim(ss: seq<Specimen>, d0: Draft, taken0: set<nat>, c: nat, n: nat) returns (j: nat)
    requires |d0| == |ss| && n <= |ss| && Claimed(ss, d0, c, n) && c !in taken0
    ensures j < n && ss[j].channel == c && FirstInLine(ss, d0, taken0, j)
  {
    j := n - 1;
    if Claimed(ss, d0, c, n - 1) { j := FirstClaim(ss, d0, taken0, c, n - 1); }
  }

  lemma RehousedSo(ss: seq<Specimen>, d: Draft, taken: set<nat>, spare: seq<nat>, cs: seq<nat>)
    requires |d| == |ss| && InOrder(Terminals(ss), spare) && FilledTo(d, spare, cs, |d|)
    requires forall c :: c in spare <==> (c in Channels(ss) || c in CARD_TERMINALS) && c !in taken
    requires forall c :: c in taken ==> c in cs
    ensures forall i, j :: 0 <= i < j < |d| && d[i].None? && d[j].None? ==> Before(ss, cs[i], cs[j])
    ensures forall i, c :: 0 <= i < |d| && d[i].None? && c in Terminals(ss) && c !in cs ==> Before(ss, cs[i], c)
  {
    forall i, j | 0 <= i < j < |d| && d[i].None? && d[j].None? ensures Before(ss, cs[i], cs[j]) {
      MoreUnsettled(d, i + 1, j);
      assert FilledAt(d, spare, cs, i) && FilledAt(d, spare, cs, j);
      SpareOrder(ss, spare, Unsettled(d, i), Unsettled(d, j));
    }
    forall i, c | 0 <= i < |d| && d[i].None? && c in Terminals(ss) && c !in cs ensures Before(ss, cs[i], c) {
      assert c in spare;
      NotHandedOut(ss, d, spare, cs, i, c);
    }
  }

  lemma SpareOrder(ss: seq<Specimen>, spare: seq<nat>, a: nat, b: nat)
    requires InOrder(Terminals(ss), spare) && a < b < |spare|
    ensures Before(ss, spare[a], spare[b])
  {
    assert RightOrder(Terminals(ss), spare, a, b);
  }

  lemma NotHandedOut(ss: seq<Specimen>, d: Draft, spare: seq<nat>, cs: seq<nat>, i: nat, c: nat)
    requires InOrder(Terminals(ss), spare) && FilledTo(d, spare, cs, |d|) && i < |d| && d[i].None?
    requires c in spare && c !in cs
    ensures Before(ss, cs[i], c)
  {
    var k :| 0 <= k < |spare| && spare[k] == c;
    if k < Unsettled(d, |d|) { HandedOut(d, spare, cs, |d|, k); }
    MoreUnsettled(d, i + 1, |d|);
    assert FilledAt(d, spare, cs, i);
    SpareOrder(ss, spare, Unsettled(d, i), k);
  }

  // ---------- what the composed layout is ----------

  ghost predicate SameGroups(motors: Groups, r: Groups) {
    |r| == |motors| && forall m :: 0 <= m < |motors| ==> |r[m]| == |motors[m]|
  }

  ghost predicate IsMeasured(association: map<nat, nat>, was: seq<Specimen>, i: nat) {
    MeasuredSample(HeaterSamples(was), association, |HeaterSamples(was)|, i)
  }

  ghost predicate StaysOn(association: map<nat, nat>, was: seq<Specimen>, i: nat)
    requires i < |was|
  {
    && !IsMeasured(association, was, i) && was[i].channel !in association.Values
    && forall j :: 0 <= j < i && !IsMeasured(association, was, j) ==> was[j].channel != was[i].channel
  }

  ghost predicate Rehoused(association: map<nat, nat>, was: seq<Specimen>, i: nat)
    requires i < |was|
  {
    !IsMeasured(association, was, i) && !StaysOn(association, was, i)
  }

  predicate Before(was: seq<Specimen>, c: nat, c': nat) { FirstAt(Terminals(was), c) < FirstAt(Terminals(was), c') }

  ghost predicate Composed(association: map<nat, nat>, was: seq<Specimen>, now: seq<Specimen>) {
    var hs := HeaterSamples(was);
    && |now| == |was| && (forall i :: 0 <= i < |was| ==> now[i].line == was[i].line)
    && Distinct(Channels(now))
    && (forall h :: h in association && h < |hs| && hs[h] < |now| ==> now[hs[h]].channel == association[h])
    && (forall i :: 0 <= i < |was| && StaysOn(association, was, i) ==> now[i].channel == was[i].channel)
    && LeftoversInOrder(association, was, now)
  }

  // Left-over terminals go out in order, the first of them first.
  ghost predicate LeftoversInOrder(association: map<nat, nat>, was: seq<Specimen>, now: seq<Specimen>)
    requires |now| == |was|
  {
    && (forall i, j :: 0 <= i < j < |was| && Rehoused(association, was, i) && Rehoused(association, was, j) ==>
          Before(was, now[i].channel, now[j].channel))
    && (forall i, c :: 0 <= i < |was| && Rehoused(association, was, i) && c in Terminals(was) && c !in Channels(now) ==>
          Before(was, now[i].channel, c))
  }
}
