// Which specimen hangs on which motor, terminal and heater line: the setup
// scripts' view of it and the onboard's derivation of its index maps.
module Layouts {
  import opened Wrappers

  datatype Specimen = Specimen(channel: nat, line: Option<nat>)

  // Each motor's specimens in sample order.
  type Groups = seq<seq<Specimen>>

  // ---------- the scripts' view ----------

  function Specimens(motors: Groups): seq<Specimen> {
    if motors == [] then [] else Specimens(motors[..|motors| - 1]) + motors[|motors| - 1]
  }

  function Channels(ss: seq<Specimen>): (cs: seq<nat>)
    ensures |cs| == |ss| && forall i :: 0 <= i < |ss| ==> cs[i] == ss[i].channel
  {
    seq(|ss|, i requires 0 <= i < |ss| => ss[i].channel)
  }

  function HeaterLines(ss: seq<Specimen>): seq<nat> {
    if ss == [] then []
    else
      var last := ss[|ss| - 1];
      var before := HeaterLines(ss[..|ss| - 1]);
      if last.line.Some? then before + [last.line.value] else before
  }

  // Which samples are heated, in heater order.
  function HeaterSamples(ss: seq<Specimen>): (hs: seq<nat>)
    ensures |hs| == |HeaterLines(ss)|
  {
    if ss == [] then []
    else
      var before := HeaterSamples(ss[..|ss| - 1]);
      if ss[|ss| - 1].line.Some? then before + [|ss| - 1] else before
  }

  function Range(start: nat, count: nat): (r: seq<nat>)
    ensures |r| == count && forall i :: 0 <= i < count ==> r[i] == start + i
  {
    seq(count, i => start + i)
  }

  function MotorSamples(motors: Groups): (r: seq<seq<nat>>)
    ensures |r| == |motors|
  {
    if motors == [] then []
    else
      var before := motors[..|motors| - 1];
      MotorSamples(before) + [Range(|Specimens(before)|, |motors[|motors| - 1]|)]
  }

  // The first sample of every group that has one.
  function Clicks(motors: Groups): seq<nat> {
    if motors == [] then []
    else
      var before := motors[..|motors| - 1];
      if motors[|motors| - 1] == [] then Clicks(before) else Clicks(before) + [|Specimens(before)|]
  }

  ghost predicate Distinct(s: seq<nat>) { forall i, j :: 0 <= i < j < |s| ==> s[i] != s[j] }

  // What the onboard accepts: every motor has specimens, terminals are card
  // terminals and, like heater lines, used once, and both counts are right.
  ghost predicate Accepted(motors: Groups, sampleCount: nat, heaterCount: nat) {
    && (forall m :: 0 <= m < |motors| ==> motors[m] != [])
    && Good(Specimens(motors))
    && |Specimens(motors)| == sampleCount && |HeaterLines(Specimens(motors))| == heaterCount
  }

  ghost predicate Good(ss: seq<Specimen>) {
    && (forall i :: 0 <= i < |ss| ==> 1 <= ss[i].channel <= 8)
    && Distinct(Channels(ss)) && Distinct(HeaterLines(ss))
  }

  lemma HeaterLinesOfConcat(a: seq<Specimen>, b: seq<Specimen>)
    ensures HeaterLines(a + b) == HeaterLines(a) + HeaterLines(b)
    decreases |b|
  {
    if b == [] {
      assert a + b == a;
    } else {
      assert (a + b)[..|a + b| - 1] == a + b[..|b| - 1];
      HeaterLinesOfConcat(a, b[..|b| - 1]);
    }
  }

  lemma GoodPrefix(a: seq<Specimen>, b: seq<Specimen>)
    ensures Good(a + b) ==> Good(a)
  {
    HeaterLinesOfConcat(a, b);
    if Good(a + b) {
      forall i | 0 <= i < |a| ensures 1 <= a[i].channel <= 8 {
        assert (a + b)[i] == a[i];
      }
      assert Channels(a) <= Channels(a + b) && HeaterLines(a) <= HeaterLines(a + b);
    }
  }

  lemma GoodOneMore(a: seq<Specimen>, s: Specimen)
    ensures Good(a + [s]) <==> Good(a) && 1 <= s.channel <= 8 && s.channel !in Channels(a)
                               && (s.line.Some? ==> s.line.value !in HeaterLines(a))
  {
    assert (a + [s])[..|a|] == a;
    assert Channels(a + [s]) == Channels(a) + [s.channel];
    GoodPrefix(a, [s]);
    DistinctOneMore(Channels(a), s.channel);
    if s.line.Some? { DistinctOneMore(HeaterLines(a), s.line.value); }
    assert (a + [s])[|a|] == s;
  }

  lemma DistinctOneMore(s: seq<nat>, x: nat)
    ensures Distinct(s + [x]) <==> Distinct(s) && x !in s
  {
    var t := s + [x];
    if Distinct(t) {
      forall i, j | 0 <= i < j < |s| ensures s[i] != s[j] { assert t[i] == s[i] && t[j] == s[j]; }
      forall i | 0 <= i < |s| ensures s[i] != x { assert t[i] == s[i] && t[|s|] == x; }
    }
  }

  lemma SpecimensOfPrefix(motors: Groups, m: nat)
    requires m < |motors|
    ensures Specimens(motors[..m + 1]) == Specimens(motors[..m]) + motors[m]
  {
    assert motors[..m + 1][..m] == motors[..m];
  }

  lemma {:induction false} PrefixOfSpecimens(motors: Groups, m: nat)
    requires m <= |motors|
    ensures Specimens(motors[..m]) <= Specimens(motors)
    decreases |motors|
  {
    if m == |motors| {
      assert motors[..m] == motors;
    } else {
      var before := motors[..|motors| - 1];
      assert before[..m] == motors[..m];
      PrefixOfSpecimens(before, m);
    }
  }

  // ---------- what the scripts find wrong ----------

  datatype Faults = Faults(emptyGroups: set<nat>, notTerminals: set<nat>, terminalsTwice: set<nat>, linesTwice: set<nat>,
                           wrongSampleCount: bool, wrongHeaterCount: bool)

  const NO_FAULTS := Faults({}, {}, {}, {}, false, false)

  function Twice(s: seq<nat>): set<nat> { set x | x in s && multiset(s)[x] > 1 }

  function LayoutErrors(motors: Groups, sampleCount: nat, heaterCount: nat): Faults {
    var ss := Specimens(motors);
    Faults((set m: nat | m < |motors| && motors[m] == []),
           (set c | c in Channels(ss) && !(1 <= c <= 8)),
           Twice(Channels(ss)), Twice(HeaterLines(ss)),
           |Channels(ss)| != sampleCount, |HeaterLines(ss)| != heaterCount)
  }

  lemma {:induction false} TwiceMeansNotDistinct(s: seq<nat>)
    ensures Twice(s) == {} <==> Distinct(s)
  {
    if s != [] {
      var n := |s| - 1;
      var before, last := s[..n], s[n];
      assert s == before + [last];
      TwiceMeansNotDistinct(before);
      DistinctOneMore(before, last);
      assert forall x :: multiset(s)[x] == multiset(before)[x] + (if x == last then 1 else 0);
      if last in before { assert last in Twice(s); }
      if x :| x in Twice(before) { assert x in Twice(s); }
      if x :| x in Twice(s) { assert x == last || x in Twice(before); }
    }
  }

  // The scripts find no fault exactly with what the onboard accepts.
  lemma NoFaultsMeansAccepted(motors: Groups, sampleCount: nat, heaterCount: nat)
    ensures LayoutErrors(motors, sampleCount, heaterCount) == NO_FAULTS <==> Accepted(motors, sampleCount, heaterCount)
  {
    var f := LayoutErrors(motors, sampleCount, heaterCount);
    var ss := Specimens(motors);
    TwiceMeansNotDistinct(Channels(ss));
    TwiceMeansNotDistinct(HeaterLines(ss));
    assert forall m: nat :: m in f.emptyGroups <==> m < |motors| && motors[m] == [];
    forall i | 0 <= i < |ss| ensures ss[i].channel in f.notTerminals <==> !(1 <= ss[i].channel <= 8) {
      assert Channels(ss)[i] == ss[i].channel;
    }
    if c :| c in f.notTerminals {
      var i :| 0 <= i < |ss| && Channels(ss)[i] == c;
      assert ss[i].channel in f.notTerminals;
    }
  }

  // ---------- the onboard's derivation ----------

  datatype Maps = Maps(rtdChannels: seq<nat>, clicks: seq<nat>, outputLines: seq<nat>, temperatureChannels: seq<nat>,
                       motorSamples: seq<seq<nat>>)

  // The scripts' maps of a layout.
  function MapsOf(motors: Groups): Maps {
    var ss := Specimens(motors);
    Maps(Channels(ss), Clicks(motors), HeaterLines(ss), HeaterSamples(ss), MotorSamples(motors))
  }

  // Accepts exactly what the scripts find no fault with, and fills the very
  // maps the scripts show.
  method DeriveLayoutFromSpecimens(motors: Groups, sampleCount: nat, heaterCount: nat) returns (maps: Option<Maps>)
    ensures maps.Some? <==> Accepted(motors, sampleCount, heaterCount)
    ensures maps.Some? ==> maps.value == MapsOf(motors)
  {
    var ok := CheckGroups(motors, sampleCount, heaterCount);
    if !ok { return None; }
    var m := FillMaps(motors);
    maps := Some(m);
  }

  method CheckGroups(motors: Groups, sampleCount: nat, heaterCount: nat) returns (ok: bool)
    ensures ok <==> Accepted(motors, sampleCount, heaterCount)
  {
    var specimenCount, heatedCount := 0, 0;
    var terminals: set<nat>, lines: set<nat> := {}, {};
    for m := 0 to |motors|
      invariant Seen(Specimens(motors[..m]), terminals, lines, specimenCount, heatedCount)
      invariant forall k :: 0 <= k < m ==> motors[k] != []
    {
      SpecimensOfPrefix(motors, m);
      if motors[m] == [] { return false; }
      ok, terminals, lines, specimenCount, heatedCount :=
        CheckGroup(Specimens(motors[..m]), motors[m], terminals, lines, specimenCount, heatedCount);
      if !ok {
        PrefixOfSpecimens(motors, m + 1);
        ghost var all, done := Specimens(motors), Specimens(motors[..m + 1]);
        assert all == done + all[|done|..];
        GoodPrefix(done, all[|done|..]);
        return;
      }
    }
    assert motors[..|motors|] == motors;
    ok := specimenCount == sampleCount && heatedCount == heaterCount;
  }

  ghost predicate Seen(ss: seq<Specimen>, terminals: set<nat>, lines: set<nat>, specimenCount: nat, heatedCount: nat) {
    && Good(ss) && specimenCount == |ss| && heatedCount == |HeaterLines(ss)|
    && (forall c :: c in terminals <==> c in Channels(ss))
    && (forall l :: l in lines <==> l in HeaterLines(ss))
  }

  method CheckGroup(ghost before: seq<Specimen>, group: seq<Specimen>, terminals0: set<nat>, lines0: set<nat>,
                    count0: nat, heated0: nat)
    returns (ok: bool, terminals: set<nat>, lines: set<nat>, count: nat, heated: nat)
    requires Seen(before, terminals0, lines0, count0, heated0)
    ensures ok <==> Good(before + group)
    ensures ok ==> Seen(before + group, terminals, lines, count, heated)
  {
    terminals, lines, count, heated := terminals0, lines0, count0, heated0;
    assert before + group[..0] == before;
    for j := 0 to |group|
      invariant Seen(before + group[..j], terminals, lines, count, heated)
    {
      var s := group[j];
      ghost var more := before + group[..j + 1];
      assert more == (before + group[..j]) + [s] && before + group == more + group[j + 1..];
      GoodOneMore(before + group[..j], s);
      GoodPrefix(more, group[j + 1..]);
      if s.channel < 1 || s.channel > 8 || s.channel in terminals { return false, terminals, lines, count, heated; }
      if s.line.Some? && s.line.value in lines { return false, terminals, lines, count, heated; }
      SeenOneMore(before + group[..j], s, terminals, lines, count, heated);
      count, terminals := count + 1, terminals + {s.channel};
      if s.line.Some? { heated, lines := heated + 1, lines + {s.line.value}; }
    }
    assert group[..|group|] == group;
    ok := true;
  }

  lemma SeenOneMore(ss: seq<Specimen>, s: Specimen, terminals: set<nat>, lines: set<nat>, count: nat, heated: nat)
    requires Seen(ss, terminals, lines, count, heated) && Good(ss + [s])
    ensures Seen(ss + [s], terminals + {s.channel}, if s.line.Some? then lines + {s.line.value} else lines,
                 count + 1, if s.line.Some? then heated + 1 else heated)
  {
    assert (ss + [s])[..|ss|] == ss;
    assert Channels(ss + [s]) == Channels(ss) + [s.channel];
  }

  method FillMaps(motors: Groups) returns (maps: Maps)
    requires forall m :: 0 <= m < |motors| ==> motors[m] != []
    ensures maps == MapsOf(motors)
  {
    maps := Maps([], [], [], [], []);
    var sample := 0;
    for m := 0 to |motors|
      invariant maps == MapsOf(motors[..m]) && sample == |Specimens(motors[..m])|
    {
      SpecimensOfPrefix(motors, m);
      assert motors[..m + 1][..m] == motors[..m];
      var filled := FillGroup(Specimens(motors[..m]), motors[m], maps, sample);
      maps := filled.(clicks := maps.clicks + [sample], motorSamples := maps.motorSamples + [Range(sample, |motors[m]|)]);
      sample := sample + |motors[m]|;
    }
    assert motors[..|motors|] == motors;
  }

  method FillGroup(ghost before: seq<Specimen>, group: seq<Specimen>, maps: Maps, first: nat) returns (r: Maps)
    requires first == |before| && maps.rtdChannels == Channels(before)
    requires maps.outputLines == HeaterLines(before) && maps.temperatureChannels == HeaterSamples(before)
    ensures r == maps.(rtdChannels := Channels(before + group), outputLines := HeaterLines(before + group),
                       temperatureChannels := HeaterSamples(before + group))
  {
    r := maps;
    assert before + group[..0] == before;
    for j := 0 to |group|
      invariant r == maps.(rtdChannels := Channels(before + group[..j]), outputLines := HeaterLines(before + group[..j]),
                           temperatureChannels := HeaterSamples(before + group[..j]))
    {
      var s := group[j];
      ghost var so := before + group[..j];
      assert before + group[..j + 1] == so + [s] && (so + [s])[..|so|] == so;
      assert Channels(so + [s]) == Channels(so) + [s.channel];
      r := r.(rtdChannels := r.rtdChannels + [s.channel]);
      if s.line.Some? {
        r := r.(outputLines := r.outputLines + [s.line.value], temperatureChannels := r.temperatureChannels + [first + j]);
      }
    }
    assert group[..|group|] == group;
  }
}
