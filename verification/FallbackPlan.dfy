// The bend plan as a value: what one tick does to it and what every run keeps.
module FallbackPlans {
  import opened Wrappers

  datatype PlanState = Unplanned | Armed | Running | Done | Failed
  datatype MotorState = Unconfigured | Pending | Bending | Bent | Skipped | Broken

  datatype Plan = Plan(configured: bool, target: int, hold: real, speed: real, state: MotorState)
  const NO_PLAN := Plan(false, 0, 0.0, 0.0, Unconfigured)

  datatype Phase = PreFloat | Float | Landed | OtherPhase

  datatype MotorInput = MotorInput(enabled: bool, zeroed: bool, healthy: bool, busy: bool, aborted: bool,
                                   temperature: Option<real>)
  const NO_INPUT := MotorInput(false, false, false, false, false, None)

  datatype TickInput = TickInput(fallback: bool, phase: Phase, now: real, motors: seq<MotorInput>)

  datatype Config = Config(minC: real, maxC: real, deadline: real)

  datatype Action = Action(motor: nat, target: int, hold: real, speed: real)

  function InputOf(ins: seq<MotorInput>, i: nat): MotorInput { if i < |ins| then ins[i] else NO_INPUT }

  predicate Ready(m: MotorInput) { m.enabled && m.zeroed && m.healthy }

  predicate Warm(m: MotorInput, c: Config) { m.temperature.Some? && c.minC <= m.temperature.value <= c.maxC }

  predicate Settled(p: Plan) { p.state in {Bent, Skipped, Broken} }

  predicate AllSettled(ps: seq<Plan>) { forall p :: p in ps && p.configured ==> Settled(p) }

  predicate AnyFailed(ps: seq<Plan>) { exists p :: p in ps && p.configured && p.state == Broken }

  function EndState(ps: seq<Plan>): PlanState { if AnyFailed(ps) then Failed else Done }

  // A bend is over when the motor is still; one a safety abort cut short is broken.
  function Completed(p: Plan, m: MotorInput): Plan {
    if p.state != Bending || m.busy then p
    else p.(state := if m.aborted then Broken else Bent)
  }

  function CompletedAll(ps: seq<Plan>, ins: seq<MotorInput>): (r: seq<Plan>)
    ensures |r| == |ps|
  {
    seq(|ps|, i requires 0 <= i < |ps| => Completed(ps[i], InputOf(ins, i)))
  }

  predicate Waiting(p: Plan) { p.configured && p.state == Pending }

  // After the deadline a motor that is not ready is passed over.
  predicate PassedOver(p: Plan, m: MotorInput, late: bool) { !Waiting(p) || (late && !Ready(m)) }

  // The first motor from i on that is waiting and may not be passed over.
  function FirstWaiting(ps: seq<Plan>, ins: seq<MotorInput>, late: bool, i: nat): (k: nat)
    requires i <= |ps|
    ensures i <= k <= |ps|
    ensures k < |ps| ==> !PassedOver(ps[k], InputOf(ins, k), late)
    ensures forall j :: i <= j < k ==> PassedOver(ps[j], InputOf(ins, j), late)
    decreases |ps| - i
  {
    if i < |ps| && PassedOver(ps[i], InputOf(ins, i), late) then FirstWaiting(ps, ins, late, i + 1) else i
  }

  // The waiting motors before k are skipped.
  function SkippedBefore(ps: seq<Plan>, k: nat): (r: seq<Plan>)
    ensures |r| == |ps|
  {
    seq(|ps|, i requires 0 <= i < |ps| => if i < k && Waiting(ps[i]) then ps[i].(state := Skipped) else ps[i])
  }

  predicate Startable(m: MotorInput, c: Config, late: bool) { Ready(m) && (Warm(m, c) || late) }

  // ---------- one tick as a whole ----------

  function StateAfter(ps: seq<Plan>, was: PlanState): PlanState {
    if was == Running && AllSettled(ps) then EndState(ps) else was
  }

  // The plan is armed or running and the fallback window is open.
  predicate InWindow(input: TickInput, was: seq<Plan>, wasState: PlanState) {
    && StateAfter(CompletedAll(was, input.motors), wasState) in {Armed, Running}
    && input.fallback && input.phase in {PreFloat, Float}
  }

  predicate NoneBends(ps: seq<Plan>) { forall p :: p in ps ==> p.state != Bending }

  // The plan after a tick and the motor that is offered a start, if one is.
  datatype Decision = Decision(plans: seq<Plan>, state: PlanState, offer: Option<nat>)

  function TickOf(input: TickInput, ps: seq<Plan>, state: PlanState, c: Config, late: bool): Decision {
    var done := CompletedAll(ps, input.motors);
    var after := StateAfter(done, state);
    if !InWindow(input, ps, state) || !NoneBends(done) then Decision(done, after, None)
    else
      var k := FirstWaiting(done, input.motors, late, 0);
      var skipped := SkippedBefore(done, k);
      if k == |done| then Decision(skipped, if AllSettled(skipped) then EndState(skipped) else after, None)
      else if Startable(InputOf(input.motors, k), c, late)
      then Decision(skipped[k := skipped[k].(state := Bending)], Running, Some(k))
      else Decision(skipped, after, None)
  }

  // The deadline runs from `start` on, or from now if it does not run yet.
  predicate LateBy(start: Option<real>, now: real, c: Config) {
    now - (if start.Some? then start.value else now) >= c.deadline
  }

  // It starts with the first tick inside the window.
  function ClockOf(start: Option<real>, input: TickInput, was: seq<Plan>, wasState: PlanState): Option<real> {
    if start.None? && InWindow(input, was, wasState) then Some(input.now) else start
  }

  // A motor may start now: the link is lost in flight, it is switched on, zeroed and
  // healthy, and warm as it should be unless the deadline is past.
  predicate MayStart(input: TickInput, m: MotorInput, c: Config, late: bool) {
    && input.fallback && (input.phase == PreFloat || input.phase == Float)
    && m.enabled && m.zeroed && m.healthy
    && (late || (m.temperature.Some? && c.minC <= m.temperature.value <= c.maxC))
  }

  // What is offered a start may start, waits, has no motor waiting before it and
  // none bending beside it; and the first waiting motor that may start is offered
  // one when none bends and those before it are done or passed over.
  lemma OfferExactly(input: TickInput, ps: seq<Plan>, state: PlanState, c: Config, late: bool, k: nat)
    requires k < |ps|
    ensures TickOf(input, ps, state, c, late).offer == Some(k) <==>
      var done := CompletedAll(ps, input.motors);
      && Waiting(ps[k]) && MayStart(input, InputOf(input.motors, k), c, late) && NoneBends(done)
      && StateAfter(done, state) in {Armed, Running}
      && forall j :: 0 <= j < k ==> PassedOver(done[j], InputOf(input.motors, j), late)
  {
    var done := CompletedAll(ps, input.motors);
    var first := FirstWaiting(done, input.motors, late, 0);
    assert Waiting(done[k]) == Waiting(ps[k]);
    assert k < first ==> PassedOver(done[k], InputOf(input.motors, k), late);
  }

  lemma OfferedMayStart(input: TickInput, ps: seq<Plan>, state: PlanState, c: Config, late: bool)
    ensures var offer := TickOf(input, ps, state, c, late).offer;
      offer.Some? ==>
        && offer.value < |ps| && offer.value < |input.motors|
        && MayStart(input, input.motors[offer.value], c, late)
  {
    var offer := TickOf(input, ps, state, c, late).offer;
    if offer.Some? { OfferExactly(input, ps, state, c, late, offer.value); }
  }

  // ---------- what every run keeps ----------

  ghost predicate PlansOk(ps: seq<Plan>, state: PlanState) {
    && (forall i :: 0 <= i < |ps| ==> if ps[i].configured then ps[i].state != Unconfigured else ps[i] == NO_PLAN)
    && (state != Unplanned ==> exists i :: 0 <= i < |ps| && ps[i].configured)
    && (forall i :: 0 <= i < |ps| && ps[i].state == Bending ==> state == Running)
    && (forall i, j :: 0 <= i < j < |ps| ==> ps[i].state != Bending || ps[j].state != Bending)
    && (state == Done ==> forall i :: 0 <= i < |ps| ==> ps[i].state in {Unconfigured, Bent, Skipped})
  }

  // Since the last new plan or disarming: which motors were offered a start,
  // and which of these starts were accepted.
  datatype Log = Log(offered: seq<nat>, accepted: seq<nat>)

  ghost predicate NonDecreasing(s: seq<nat>) { forall i, j :: 0 <= i < j < |s| ==> s[i] <= s[j] }
  ghost predicate Increasing(s: seq<nat>) { forall i, j :: 0 <= i < j < |s| ==> s[i] < s[j] }

  // Starts go up in id order; no motor before one that was offered still waits,
  // and none that was accepted waits again.
  ghost predicate LogOk(ps: seq<Plan>, log: Log) {
    && NonDecreasing(log.offered) && Increasing(log.accepted)
    && (forall m :: m in log.offered ==> m < |ps| && forall j :: 0 <= j < m ==> !Waiting(ps[j]))
    && (forall m :: m in log.accepted ==> m in log.offered && !Waiting(ps[m]))
  }

  lemma CompletedKeeps(ps: seq<Plan>, state: PlanState, ins: seq<MotorInput>, log: Log)
    requires PlansOk(ps, state) && LogOk(ps, log)
    ensures PlansOk(CompletedAll(ps, ins), state) && LogOk(CompletedAll(ps, ins), log)
  {
    var done := CompletedAll(ps, ins);
    assert forall i :: 0 <= i < |ps| ==> Waiting(done[i]) == Waiting(ps[i]);
  }

  lemma SkippingKeeps(ps: seq<Plan>, state: PlanState, k: nat, log: Log)
    requires PlansOk(ps, state) && LogOk(ps, log) && k <= |ps|
    ensures PlansOk(SkippedBefore(ps, k), state) && LogOk(SkippedBefore(ps, k), log)
    ensures forall j :: 0 <= j < k ==> !Waiting(SkippedBefore(ps, k)[j])
  {
    var skipped := SkippedBefore(ps, k);
    assert forall i :: 0 <= i < |ps| ==> Waiting(skipped[i]) ==> Waiting(ps[i]);
  }

  lemma StartingKeeps(ps: seq<Plan>, state: PlanState, k: nat, log: Log)
    requires PlansOk(ps, state) && LogOk(ps, log) && k < |ps| && Waiting(ps[k]) && state != Done
    requires forall j :: 0 <= j < |ps| ==> ps[j].state != Bending
    requires forall j :: 0 <= j < k ==> !Waiting(ps[j])
    ensures PlansOk(ps[k := ps[k].(state := Bending)], Running)
    ensures LogOk(ps[k := ps[k].(state := Bending)], log.(offered := log.offered + [k]))
    ensures forall m :: m in log.offered ==> m <= k
    ensures forall m :: m in log.accepted ==> m < k
  {
    forall i | 0 <= i < |log.offered| ensures log.offered[i] <= k {
      assert log.offered[i] in log.offered;
    }
    forall i | 0 <= i < |log.accepted| ensures log.accepted[i] < k {
      assert log.accepted[i] in log.offered && log.accepted[i] in log.accepted;
    }
    OnlyThisBends(ps, state, k);
  }

  lemma OnlyThisBends(ps: seq<Plan>, state: PlanState, k: nat)
    requires PlansOk(ps, state) && k < |ps| && Waiting(ps[k]) && state != Done
    requires forall j :: 0 <= j < |ps| ==> ps[j].state != Bending
    ensures PlansOk(ps[k := ps[k].(state := Bending)], Running)
  {
    assert ps[k := ps[k].(state := Bending)][k].configured;
  }

  // Whatever becomes of the motor that was offered, the others are not bending.
  lemma AnswerKeeps(ps: seq<Plan>, state: PlanState, k: nat, log: Log)
    requires PlansOk(ps, state) && LogOk(ps, log) && k < |ps| && ps[k].state == Bending && k in log.offered
    requires (forall m :: m in log.offered ==> m <= k) && forall m :: m in log.accepted ==> m < k
    ensures LogOk(ps, log.(accepted := log.accepted + [k]))
    ensures LogOk(ps[k := ps[k].(state := Pending)], log) && LogOk(ps[k := ps[k].(state := Broken)], log)
    ensures PlansOk(ps[k := ps[k].(state := Pending)], Running) && PlansOk(ps[k := ps[k].(state := Pending)], Armed)
    ensures PlansOk(ps[k := ps[k].(state := Broken)], Failed)
  {
    forall i | 0 <= i < |log.accepted| ensures log.accepted[i] < k {
      assert log.accepted[i] in log.accepted;
    }
    assert ps[k := ps[k].(state := Pending)][k].configured && ps[k := ps[k].(state := Broken)][k].configured;
  }

  lemma EndKeeps(ps: seq<Plan>, state: PlanState)
    requires PlansOk(ps, state) && AllSettled(ps) && state != Unplanned
    ensures PlansOk(ps, EndState(ps))
  {
    forall i | 0 <= i < |ps| ensures ps[i].state != Bending && (ps[i].state == Broken ==> AnyFailed(ps)) {
      assert ps[i] in ps;
    }
  }
}
