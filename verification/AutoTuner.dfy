// The relay auto-tuner: it lets the plant oscillate and measures the cycle.
module AutoTuners {
  import opened Reals
  import opened Wrappers

  const PI := 3.14159265358979323846

  datatype State = NotStarted | Running | Done | Failed

  datatype Config = Config(setpoint: real, relayDuty: real, hysteresis: real, cycles: int, timeout: real, ceiling: real) {
    function High(): real { setpoint + hysteresis }
    function Low(): real { setpoint - hysteresis }
    function Need(): nat { if cycles < 1 then 1 else cycles }
  }

  datatype Gains = Gains(kp: real, ki: real, kd: real)
  datatype Result = Result(ku: real, tu: real, amplitude: real, cyclesUsed: nat, tyreusLuyben: Gains, zieglerNichols: Gains)

  const NO_RESULT := Result(0.0, 0.0, 0.0, 0, Gains(0.0, 0.0, 0.0), Gains(0.0, 0.0, 0.0))

  // ---------- means ----------

  function Mean(s: seq<real>): real { if s == [] then 0.0 else Sum(s) / (|s| as real) }

  function Copies(n: nat, x: real): real { (n as real) * x }

  lemma {:induction false} SumAtLeast(s: seq<real>, x: real)
    requires forall i :: 0 <= i < |s| ==> s[i] >= x
    ensures Sum(s) >= Copies(|s|, x)
  {
    if s != [] {
      SumAtLeast(s[..|s| - 1], x);
      assert Copies(|s|, x) == Copies(|s| - 1, x) + x;
    }
  }

  lemma {:induction false} SumAtMost(s: seq<real>, x: real)
    requires forall i :: 0 <= i < |s| ==> s[i] <= x
    ensures Sum(s) <= Copies(|s|, x)
  {
    if s != [] {
      SumAtMost(s[..|s| - 1], x);
      assert Copies(|s|, x) == Copies(|s| - 1, x) + x;
    }
  }

  lemma MeanTimes(s: seq<real>)
    requires s != []
    ensures Copies(|s|, Mean(s)) == Sum(s)
  {
  }

  lemma Divided(n: nat, a: real, b: real)
    requires n > 0
    ensures Copies(n, a) >= Copies(n, b) ==> a >= b
  {
    var m := n as real;
    if a < b {
      assert m * (b - a) > 0.0;
      assert m * (b - a) == m * b - m * a;
    }
  }

  lemma MeanAtLeast(s: seq<real>, x: real)
    requires s != [] && forall i :: 0 <= i < |s| ==> s[i] >= x
    ensures Mean(s) >= x
  {
    SumAtLeast(s, x);
    MeanTimes(s);
    Divided(|s|, Mean(s), x);
  }

  lemma MeanAtMost(s: seq<real>, x: real)
    requires s != [] && forall i :: 0 <= i < |s| ==> s[i] <= x
    ensures Mean(s) <= x
  {
    SumAtMost(s, x);
    MeanTimes(s);
    Divided(|s|, x, Mean(s));
  }

  // ---------- the oscillation, read off the samples ----------

  datatype Sample = Sample(temp: real, time: real)

  ghost predicate Highest(ss: seq<Sample>, a: nat, b: nat, x: real) {
    && a <= b < |ss| && (forall k :: a <= k <= b ==> ss[k].temp <= x)
    && exists k :: a <= k <= b && ss[k].temp == x
  }

  ghost predicate Lowest(ss: seq<Sample>, a: nat, b: nat, x: real) {
    && a <= b < |ss| && (forall k :: a <= k <= b ==> x <= ss[k].temp)
    && exists k :: a <= k <= b && ss[k].temp == x
  }

  // The heater was off from sample a, which tripped it, and nothing before b trips it on.
  ghost predicate OffPhase(ss: seq<Sample>, c: Config, a: nat, b: nat) {
    a < b <= |ss| && ss[a].temp >= c.High() && forall k :: a < k < b ==> ss[k].temp > c.Low()
  }

  ghost predicate OnPhase(ss: seq<Sample>, c: Config, a: nat, b: nat) {
    a < b <= |ss| && ss[a].temp <= c.Low() && forall k :: a < k < b ==> ss[k].temp < c.High()
  }

  // The switches so far, newest outermost, each with what it completes: a
  // switching off the trough of the on phase before it (the approach has none),
  // a switching on the peak of the off phase and the period since the last one.
  datatype Trace =
    | Approach
    | Off(before: Trace, at: nat, trough: Option<real>)
    | On(before: Trace, at: nat, peak: real, period: Option<real>)

  // The switches are where the samples first leave the band, and what they
  // complete is the extremes of the phases and the times between switchings on.
  ghost predicate Traced(ss: seq<Sample>, c: Config, t: Trace) {
    match t
    case Approach => true
    case Off(before, at, trough) =>
      && Traced(ss, c, before) && at < |ss| && ss[at].temp >= c.High() && !before.Off?
      && (if before.Approach? then trough.None? && Below(ss, c, at)
          else trough.Some? && OnPhase(ss, c, before.at, at) && Lowest(ss, before.at, at, trough.value))
    case On(before, at, peak, period) =>
      && Traced(ss, c, before) && at < |ss| && ss[at].temp <= c.Low() && before.Off?
      && OffPhase(ss, c, before.at, at) && Highest(ss, before.at, at, peak)
      && period == SinceLastOn(ss, before.before, at)
  }

  ghost predicate Below(ss: seq<Sample>, c: Config, n: nat) {
    n <= |ss| && forall k :: 0 <= k < n ==> ss[k].temp < c.High()
  }

  function SinceLastOn(ss: seq<Sample>, last: Trace, at: nat): Option<real> {
    if last.On? && last.at < |ss| && at < |ss| then Some(ss[at].time - ss[last.at].time) else None
  }

  function Peaks(t: Trace): seq<real> {
    match t
    case Approach => []
    case Off(before, _, _) => Peaks(before)
    case On(before, _, peak, _) => Peaks(before) + [peak]
  }

  function Troughs(t: Trace): seq<real> {
    match t
    case Approach => []
    case Off(before, _, trough) => if trough.Some? then Troughs(before) + [trough.value] else Troughs(before)
    case On(before, _, _, _) => Troughs(before)
  }

  function Periods(t: Trace): seq<real> {
    match t
    case Approach => []
    case Off(before, _, _) => Periods(before)
    case On(before, _, _, period) => if period.Some? then Periods(before) + [period.value] else Periods(before)
  }

  // When the relay last switched on, and when it first did.
  function LastOn(t: Trace): Option<nat> {
    match t
    case Approach => None
    case Off(before, _, _) => LastOn(before)
    case On(_, at, _, _) => Some(at)
  }

  function FirstOn(t: Trace): Option<nat> {
    match t
    case Approach => None
    case Off(before, _, _) => FirstOn(before)
    case On(before, at, _, _) => if FirstOn(before).None? then Some(at) else FirstOn(before)
  }

  function TimeOfLastOn(ss: seq<Sample>, t: Trace): Option<real> {
    match LastOn(t)
    case None => None
    case Some(at) => if at < |ss| then Some(ss[at].time) else None
  }

  function FromFirstToLastOn(ss: seq<Sample>, t: Trace): Option<real> {
    if LastOn(t).None? || FirstOn(t).None? || LastOn(t).value >= |ss| || FirstOn(t).value >= |ss| then None
    else Some(ss[LastOn(t).value].time - ss[FirstOn(t).value].time)
  }

  lemma {:induction false} TracedCounts(ss: seq<Sample>, c: Config, t: Trace)
    requires Traced(ss, c, t)
    ensures t.On? ==> |Peaks(t)| == |Troughs(t)| + 1 == |Periods(t)| + 1
    ensures t.Off? ==> |Peaks(t)| == |Troughs(t)| && |Periods(t)| == (if t.before.On? then |Peaks(t)| - 1 else 0)
    ensures t.Approach? || (t.Off? && t.before.Approach?) <==> |Peaks(t)| == 0
    ensures LastOn(t).Some? <==> |Peaks(t)| > 0
    ensures LastOn(t).Some? <==> FirstOn(t).Some?
  {
    if !t.Approach? { TracedCounts(ss, c, t.before); }
  }

  lemma {:induction false} TracedBand(ss: seq<Sample>, c: Config, t: Trace)
    requires Traced(ss, c, t)
    ensures forall i :: 0 <= i < |Peaks(t)| ==> Peaks(t)[i] >= c.High()
    ensures forall i :: 0 <= i < |Troughs(t)| ==> Troughs(t)[i] <= c.Low()
  {
    if !t.Approach? { TracedBand(ss, c, t.before); }
    if t.On? { assert ss[t.before.at].temp <= t.peak; }
    if t.Off? && !t.before.Approach? { assert ss[t.before.at].temp >= t.trough.value; }
  }

  // The periods add up to the time from the first to the last switching on.
  lemma {:induction false} PeriodsTelescope(ss: seq<Sample>, c: Config, t: Trace)
    requires Traced(ss, c, t) && LastOn(t).Some?
    ensures FromFirstToLastOn(ss, t) == Some(Sum(Periods(t)))
  {
    TracedCounts(ss, c, t);
    TracedCounts(ss, c, t.before);
    if t.Off? {
      PeriodsTelescope(ss, c, t.before);
    } else if t.before.before.On? {
      PeriodsTelescope(ss, c, t.before);
      assert Periods(t)[..|Periods(t)| - 1] == Periods(t.before);
    }
  }

  // Every off phase starts above the band and every on phase below it, so the
  // measured half-amplitude is at least the band's half-width.
  lemma AmplitudeCoversBand(ss: seq<Sample>, c: Config, t: Trace)
    requires Traced(ss, c, t) && Peaks(t) != [] && Troughs(t) != []
    ensures Amplitude(Peaks(t), Troughs(t)) >= c.hysteresis
  {
    TracedBand(ss, c, t);
    MeanAtLeast(Peaks(t), c.High());
    MeanAtMost(Troughs(t), c.Low());
  }

  // What has been measured stays measured.
  lemma {:induction false} OneMoreSample(ss: seq<Sample>, c: Config, t: Trace, s: Sample)
    requires Traced(ss, c, t)
    ensures Traced(ss + [s], c, t)
  {
    if !t.Approach? { OneMoreSample(ss, c, t.before, s); }
    if t.On? { LowestGrows(ss, t.before.at, t.at, t.peak, s); }
    if t.Off? && !t.before.Approach? { LowestGrows(ss, t.before.at, t.at, t.trough.value, s); }
  }

  lemma PeriodSoFar(ss: seq<Sample>, c: Config, t: Trace, s: Sample)
    requires Traced(ss, c, t) && t.Off?
    ensures SinceLastOn(ss + [s], t.before, |ss|)
         == if TimeOfLastOn(ss, t).Some? then Some(s.time - TimeOfLastOn(ss, t).value) else None
  {
    assert (ss + [s])[|ss|] == s;
    if t.before.On? { assert LastOn(t) == Some(t.before.at) && (ss + [s])[t.before.at] == ss[t.before.at]; }
    else { assert t.before == Approach && LastOn(t) == LastOn(t.before) == None; }
  }

  // ---------- where a tune stands ----------

  // The phase the relay is in, up to the last sample, and its extreme so far.
  ghost predicate OnSoFar(ss: seq<Sample>, c: Config, t: Trace, trough: Option<real>) {
    if t.Approach? then Below(ss, c, |ss|)
    else t.On? && OnPhase(ss, c, t.at, |ss|) && trough.Some? && Lowest(ss, t.at, |ss| - 1, trough.value)
  }

  ghost predicate OffSoFar(ss: seq<Sample>, c: Config, t: Trace, peak: Option<real>) {
    t.Off? && OffPhase(ss, c, t.at, |ss|) && peak.Some? && Highest(ss, t.at, |ss| - 1, peak.value)
  }

  function Lower(low: Option<real>, x: real): real { if low.None? || x < low.value then x else low.value }
  function Higher(high: Option<real>, x: real): real { if high.None? || x > high.value then x else high.value }

  lemma LowestGrows(ss: seq<Sample>, a: nat, b: nat, x: real, s: Sample)
    ensures Lowest(ss, a, b, x) ==> Lowest(ss + [s], a, b, x)
    ensures Highest(ss, a, b, x) ==> Highest(ss + [s], a, b, x)
  {
    if Lowest(ss, a, b, x) {
      var k :| a <= k <= b && ss[k].temp == x;
      assert (ss + [s])[k].temp == x;
    }
    if Highest(ss, a, b, x) {
      var k :| a <= k <= b && ss[k].temp == x;
      assert (ss + [s])[k].temp == x;
    }
  }

  lemma LowestExtends(ss: seq<Sample>, a: nat, x: real, s: Sample)
    requires ss != []
    ensures Lowest(ss, a, |ss| - 1, x) ==> Lowest(ss + [s], a, |ss|, Lower(Some(x), s.temp))
    ensures Highest(ss, a, |ss| - 1, x) ==> Highest(ss + [s], a, |ss|, Higher(Some(x), s.temp))
  {
    var more := ss + [s];
    assert more[|ss|] == s;
    if Lowest(ss, a, |ss| - 1, x) {
      var k :| a <= k <= |ss| - 1 && ss[k].temp == x;
      assert more[k].temp == x;
      assert more[if s.temp < x then |ss| else k].temp == Lower(Some(x), s.temp);
    }
    if Highest(ss, a, |ss| - 1, x) {
      var k :| a <= k <= |ss| - 1 && ss[k].temp == x;
      assert more[k].temp == x;
      assert more[if s.temp > x then |ss| else k].temp == Higher(Some(x), s.temp);
    }
  }

  // ---------- one sample ----------

  // Still heating.
  lemma StaysOn(ss: seq<Sample>, c: Config, t: Trace, trough: Option<real>, s: Sample)
    requires OnSoFar(ss, c, t, trough) && s.temp < c.High()
    ensures OnSoFar(ss + [s], c, t, Some(Lower(trough, s.temp)))
  {
    if t.On? { LowestExtends(ss, t.at, trough.value, s); }
  }

  // Still cooling.
  lemma StaysOff(ss: seq<Sample>, c: Config, t: Trace, peak: Option<real>, s: Sample)
    requires OffSoFar(ss, c, t, peak) && s.temp > c.Low()
    ensures OffSoFar(ss + [s], c, t, Some(Higher(peak, s.temp)))
  {
    LowestExtends(ss, t.at, peak.value, s);
  }

  // The band's top is reached: the on phase, unless it was the approach, has its trough.
  lemma SwitchesOff(ss: seq<Sample>, c: Config, t: Trace, trough: Option<real>, s: Sample)
    requires Traced(ss, c, t) && OnSoFar(ss, c, t, trough) && s.temp >= c.High()
    ensures var t' := Off(t, |ss|, if t.Approach? then None else Some(Lower(trough, s.temp)));
      Traced(ss + [s], c, t') && OffSoFar(ss + [s], c, t', Some(s.temp))
  {
    OneMoreSample(ss, c, t, s);
    if t.On? { LowestExtends(ss, t.at, trough.value, s); }
    assert (ss + [s])[|ss|] == s;
  }

  // The band's bottom is reached: the off phase has its peak, the cycle its period.
  lemma SwitchesOn(ss: seq<Sample>, c: Config, t: Trace, peak: Option<real>, s: Sample)
    requires Traced(ss, c, t) && OffSoFar(ss, c, t, peak) && s.temp <= c.Low()
    ensures var t' := On(t, |ss|, Higher(peak, s.temp), SinceLastOn(ss + [s], t.before, |ss|));
      Traced(ss + [s], c, t') && OnSoFar(ss + [s], c, t', Some(s.temp))
  {
    OneMoreSample(ss, c, t, s);
    LowestExtends(ss, t.at, peak.value, s);
    assert (ss + [s])[|ss|] == s;
  }

  class PidAutoTuner {
    var config: Config
    var state: State
    var result: Result
    var start: real
    var relayOn: bool
    var firstOn: bool
    var lastOn: Option<real>    // when the relay last switched on
    var trough: Option<real>    // lowest of the present on phase
    var peak: Option<real>      // highest of the present off phase
    var peaks: seq<real>
    var troughs: seq<real>
    var periods: seq<real>
    ghost var samples: seq<Sample>
    ghost var trace: Trace

    ghost predicate Valid()
      reads this
    {
      state == Running ==>
        && Traced(samples, config, trace) && ReadOff() && |periods| < config.Need()
        && if relayOn then OnSoFar(samples, config, trace, trough) else OffSoFar(samples, config, trace, peak)
    }

    // The fields say what the trace says.
    ghost predicate ReadOff()
      reads this
    {
      && peaks == Peaks(trace) && troughs == Troughs(trace) && periods == Periods(trace)
      && firstOn == trace.Approach? && relayOn == !trace.Off? && lastOn == TimeOfLastOn(samples, trace)
    }

    // What a finished tune has measured.
    ghost predicate Measured()
      reads this
    {
      var n := config.Need();
      && Traced(samples, config, trace) && trace.On?
      && peaks == Peaks(trace) && troughs == Troughs(trace) && periods == Periods(trace)
      && |periods| == |troughs| == n && |peaks| == n + 1 && result.cyclesUsed == n
      && result.amplitude == Amplitude(peaks, troughs)
      && result.amplitude >= config.hysteresis && result.amplitude >= 0.05 && result.tu >= 5.0
      && Some(Copies(n, result.tu)) == FromFirstToLastOn(samples, trace)
    }

    constructor ()
      ensures Valid() && state == NotStarted && result == NO_RESULT && relayOn
    {
      state := NotStarted;
      config := Config(40.0, 0.5, 1.0, 4, 1500.0, 80.0);
      result, start, relayOn, firstOn, lastOn, trough, peak := NO_RESULT, 0.0, true, true, None, None, None;
      peaks, troughs, periods, samples, trace := [], [], [], [], Approach;
    }

    method Start(c: Config, now: real)
      modifies this
      ensures Valid() && state == Running && config == c && samples == [] && start == now && relayOn
    {
      config, result, start := c, NO_RESULT, now;
      relayOn, firstOn, lastOn, trough, peak := true, true, None, None, None;
      peaks, troughs, periods, samples, trace := [], [], [], [], Approach;
      state := Running;
    }

    method Abort()
      requires Valid()
      modifies this`state
      ensures Valid() && state == if old(state) == Running then Failed else old(state)
    {
      if state == Running { state := Failed; }
    }

    // One control tick; what comes back is the duty the relay wants.
    method Tick(valid: bool, temp: real, now: real) returns (duty: real)
      requires Valid()
      modifies this`samples, this`trace, this`trough, this`peak, this`peaks, this`troughs, this`periods, this`relayOn,
               this`firstOn, this`lastOn, this`state, this`result
      ensures Valid()
      ensures duty == if state == Running && relayOn then config.relayDuty else 0.0
      ensures old(state) != Running ==> state == old(state) && result == old(result) && samples == old(samples)
      ensures old(state) == Running && state == Done ==> Measured() && GainsFollow(result, config.relayDuty)
      // Exactly when a running tune fails, and exactly when it is done.
      ensures old(state) == Running ==>
        (state == Failed <==> Spoilt(valid, temp, now) || (old(Completes(temp)) && !old(WellMeasured(temp, now))))
      ensures old(state) == Running ==>
        (state == Done <==> !Spoilt(valid, temp, now) && old(Completes(temp) && WellMeasured(temp, now)))
      ensures old(state) == Running && !Spoilt(valid, temp, now) ==>
        && samples == old(samples) + [Sample(temp, now)]
        && relayOn == if old(relayOn) then temp < config.High() else temp <= config.Low()
    {
      if state != Running { return 0.0; }
      if !valid || temp >= config.ceiling || now - start > config.timeout {
        state := Failed;
        return 0.0;
      }
      if relayOn {
        TickOn(Sample(temp, now));
      } else {
        TickOff(Sample(temp, now));
        if state != Running { return 0.0; }
      }
      duty := if relayOn then config.relayDuty else 0.0;
    }

    // An unreadable, too hot or late sample.
    predicate Spoilt(valid: bool, temp: real, now: real)
      reads this
    {
      !valid || temp >= config.ceiling || now - start > config.timeout
    }

    // This sample switches on, and with it the last of the periods needed is over.
    predicate Completes(temp: real)
      reads this
    {
      !relayOn && temp <= config.Low() && lastOn.Some? && |periods| + 1 == config.Need()
    }

    // What was measured with this sample can be used.
    predicate WellMeasured(temp: real, now: real)
      requires lastOn.Some?
      reads this
    {
      && Amplitude(peaks + [Higher(peak, temp)], troughs) >= 0.05
      && Mean(periods + [now - lastOn.value]) >= 5.0
    }

    // An on phase ends at the band's top. The first is the approach: its trough
    // is not measured.
    method TickOn(s: Sample)
      requires Valid() && state == Running && relayOn
      modifies this`samples, this`trace, this`trough, this`peak, this`troughs, this`relayOn, this`firstOn
      ensures Valid() && samples == old(samples) + [s] && relayOn == (s.temp < config.High())
    {
      OneMoreSample(samples, config, trace, s);
      TracedCounts(samples, config, trace);
      if s.temp < config.High() {
        StaysOn(samples, config, trace, trough, s);
        trough := Some(Lower(trough, s.temp));
      } else {
        SwitchesOff(samples, config, trace, trough, s);
        SwitchOff(s);
      }
      samples := samples + [s];
    }

    method SwitchOff(s: Sample)
      requires Traced(samples, config, trace) && ReadOff() && OnSoFar(samples, config, trace, trough) && s.temp >= config.High()
      modifies this`trace, this`trough, this`peak, this`troughs, this`relayOn, this`firstOn
      ensures trace == Off(old(trace), |samples|, if old(trace).Approach? then None else Some(Lower(old(trough), s.temp)))
      ensures peak == Some(s.temp) && ReadOff()
    {
      trough := Some(Lower(trough, s.temp));
      if !firstOn { troughs := troughs + [trough.value]; }
      trace := Off(trace, |samples|, if firstOn then None else trough);
      firstOn, relayOn, peak := false, false, Some(s.temp);
    }

    // An off phase ends at the band's bottom, and with it a period unless it was the first.
    method TickOff(s: Sample)
      requires Valid() && state == Running && !relayOn
      modifies this`samples, this`trace, this`trough, this`peak, this`peaks, this`periods, this`relayOn, this`lastOn,
               this`state, this`result
      ensures Valid() && samples == old(samples) + [s] && relayOn == (s.temp <= config.Low())
      ensures !old(Completes(s.temp)) ==> state == Running
      ensures old(Completes(s.temp)) ==> state == if old(WellMeasured(s.temp, s.time)) then Done else Failed
      ensures state == Done ==> Measured() && GainsFollow(result, config.relayDuty)
    {
      if s.temp > config.Low() {
        Cool(s);
      } else {
        SwitchOn(s);
        CloseCycle();
      }
    }

    method Cool(s: Sample)
      requires Valid() && state == Running && !relayOn && s.temp > config.Low()
      modifies this`samples, this`peak
      ensures Valid() && samples == old(samples) + [s]
    {
      OneMoreSample(samples, config, trace, s);
      TracedCounts(samples, config, trace);
      StaysOff(samples, config, trace, peak, s);
      peak := Some(Higher(peak, s.temp));
      samples := samples + [s];
    }

    method SwitchOn(s: Sample)
      requires Traced(samples, config, trace) && ReadOff() && OffSoFar(samples, config, trace, peak) && s.temp <= config.Low()
      modifies this`samples, this`trace, this`trough, this`peak, this`peaks, this`periods, this`relayOn, this`lastOn
      ensures Traced(samples, config, trace) && ReadOff() && OnSoFar(samples, config, trace, trough) && trace.On?
      ensures samples == old(samples) + [s] && relayOn
      ensures peaks == old(peaks) + [Higher(old(peak), s.temp)] && troughs == old(troughs)
      ensures periods == old(periods) + if old(lastOn).Some? then [s.time - old(lastOn).value] else []
    {
      SwitchesOn(samples, config, trace, peak, s);
      PeriodSoFar(samples, config, trace, s);
      peak := Some(Higher(peak, s.temp));
      peaks := peaks + [peak.value];
      if lastOn.Some? { periods := periods + [s.time - lastOn.value]; }
      trace := On(trace, |samples|, peak.value, SinceLastOn(samples + [s], trace.before, |samples|));
      lastOn, relayOn, trough := Some(s.time), true, Some(s.temp);
      samples := samples + [s];
    }

    // With enough cycles measured the tune is over.
    method CloseCycle()
      requires state == Running && relayOn && Traced(samples, config, trace) && trace.On? && ReadOff()
      requires OnSoFar(samples, config, trace, trough) && |periods| <= config.Need()
      modifies this`state, this`result
      ensures Valid()
      ensures |periods| < config.Need() ==> state == Running && result == old(result)
      ensures |periods| == config.Need() ==>
        state == if Amplitude(peaks, troughs) >= 0.05 && Mean(periods) >= 5.0 then Done else Failed
      ensures state == Done ==> Measured() && GainsFollow(result, config.relayDuty)
    {
      TracedCounts(samples, config, trace);
      if |periods| >= config.Need() && |troughs| >= config.Need() && |peaks| >= config.Need() { Finish(); }
    }

    method Finish()
      requires Traced(samples, config, trace) && trace.On? && |periods| == config.Need()
      requires peaks == Peaks(trace) && troughs == Troughs(trace) && periods == Periods(trace)
      modifies this`result, this`state
      ensures state in {Done, Failed} && (state == Done ==> Measured())
      ensures state == Failed <==> Amplitude(peaks, troughs) < 0.05 || Mean(periods) < 5.0
      ensures state == Done ==> GainsFollow(result, config.relayDuty)
    {
      TracedCounts(samples, config, trace);
      CycleMeasured(samples, config, trace);
      Judge(Amplitude(peaks, troughs), Mean(periods));
    }

    method Judge(amplitude: real, tu: real)
      modifies this`result, this`state
      ensures state == if amplitude < 0.05 || tu < 5.0 then Failed else Done
      ensures state == Done ==> GainsFollow(result, config.relayDuty)
      ensures state == Done ==> result.amplitude == amplitude && result.tu == tu && result.cyclesUsed == |periods|
    {
      if amplitude < 0.05 || tu < 5.0 {
        state := Failed;
        return;
      }
      GainsOfRelay(config.relayDuty, amplitude, tu, |periods|);
      result := RelayResult(config.relayDuty, amplitude, tu, |periods|);
      state := Done;
    }
  }

  function Amplitude(peaks: seq<real>, troughs: seq<real>): real { (Mean(peaks) - Mean(troughs)) / 2.0 }

  lemma CycleMeasured(ss: seq<Sample>, c: Config, t: Trace)
    requires Traced(ss, c, t) && t.On? && Periods(t) != []
    ensures Amplitude(Peaks(t), Troughs(t)) >= c.hysteresis
    ensures FromFirstToLastOn(ss, t) == Some(Copies(|Periods(t)|, Mean(Periods(t))))
  {
    TracedCounts(ss, c, t);
    AmplitudeCoversBand(ss, c, t);
    PeriodsTelescope(ss, c, t);
    MeanTimes(Periods(t));
  }

  function RelayResult(relayDuty: real, amplitude: real, tu: real, cycles: nat): (r: Result)
    requires amplitude >= 0.05 && tu >= 5.0
    ensures r.amplitude == amplitude && r.tu == tu && r.cyclesUsed == cycles
  {
    assert PI * amplitude > 0.0;
    var ku := 4.0 * (relayDuty / 2.0) / (PI * amplitude);
    Result(ku, tu, amplitude, cycles, TyreusLuyben(ku, tu), ZieglerNichols(ku, tu))
  }

  lemma GainsOfRelay(relayDuty: real, amplitude: real, tu: real, cycles: nat)
    requires amplitude >= 0.05 && tu >= 5.0
    ensures GainsFollow(RelayResult(relayDuty, amplitude, tu, cycles), relayDuty)
  {
  }

  // The integral time is Ti = kp / ki and the derivative time Td = kd / kp.
  predicate Times(g: Gains, ti: real, td: real) { g.ki * ti == g.kp && g.kd == g.kp * td }

  // Tyreus-Luyben asks for Ti = 2.2 Tu and Td = Tu / 6.3, Ziegler-Nichols for
  // Ti = Tu / 2 and Td = Tu / 8.
  lemma GainTimes(ku: real, tu: real)
    requires tu > 0.0
    ensures var g := TyreusLuyben(ku, tu); g.kp * 3.2 == ku && Times(g, 2.2 * tu, tu / 6.3)
    ensures var g := ZieglerNichols(ku, tu); g.kp == 0.6 * ku && Times(g, tu / 2.0, tu / 8.0)
  {
    Quotient(ku / 3.2, 2.2 * tu);
    Quotient(0.6 * ku, tu / 2.0);
  }

  lemma Quotient(a: real, b: real)
    requires b != 0.0
    ensures (a / b) * b == a
  {
  }

  // Parallel form: the integral gain is kp over Ti, the derivative gain kp times Td.
  function TyreusLuyben(ku: real, tu: real): Gains
    requires tu != 0.0
  {
    var kp := ku / 3.2;
    Gains(kp, kp / (2.2 * tu), kp * (tu / 6.3))
  }

  function ZieglerNichols(ku: real, tu: real): Gains
    requires tu != 0.0
  {
    var kp := 0.6 * ku;
    Gains(kp, kp / (tu / 2.0), kp * (tu / 8.0))
  }

  // The relay's first harmonic: ku times pi times the amplitude is four times
  // half the relay's swing.
  predicate GainsFollow(r: Result, relayDuty: real) {
    && r.ku * (PI * r.amplitude) == 2.0 * relayDuty
    && r.tu != 0.0 && r.tyreusLuyben == TyreusLuyben(r.ku, r.tu) && r.zieglerNichols == ZieglerNichols(r.ku, r.tu)
  }
}
