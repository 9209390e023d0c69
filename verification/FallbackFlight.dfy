// The plan and the motors together: one tick of the bend plan as the control
// loop carries it out, the motors' ticks, and the motors switched off after landing.
module FallbackFlight {
  import opened FallbackPlans
  import opened FallbackPlanners
  import opened HeaterSchedulers
  import opened Interlock
  import opened Reals
  import opened StepperChannels
  import opened StepperMotion
  import opened Wrappers

  // What came of one tick of the plan.
  datatype Outcome = NoStart | Started(motor: nat) | Postponed(motor: nat) | Refused(motor: nat)

  // What is known of a motor besides its channel: whether the operator has set
  // its zero, its driver's health, its specimens' mean temperature.
  datatype Sensed = Sensed(zeroed: bool, healthy: bool, temperature: Option<real>)

  class Flight {
    const loop: ControlLoop
    const planner: FallbackPlanner
    const landedSafe: bool
    var landedSafed: bool
    var heatersOff: bool     // the operator's override for all heaters

    constructor (loop: ControlLoop, planner: FallbackPlanner, landedSafe: bool)
      ensures this.loop == loop && this.planner == planner && this.landedSafe == landedSafe && !landedSafed
    {
      this.loop, this.planner, this.landedSafe := loop, planner, landedSafe;
      landedSafed, heatersOff := false, false;
    }

    // Motor numbers are channel numbers, and every offered start is answered.
    ghost predicate Valid()
      reads this, loop, loop.lock, loop.scheduler, loop.channels, planner
    {
      && loop.Valid() && planner.Valid() && planner.awaiting.None? && Numbered()
    }

    ghost predicate Numbered()
      reads this, loop
    {
      forall i :: 0 <= i < |loop.channels| ==> loop.channels[i].id == i
    }

    // ---------- what a motor that bends comes to ----------

    // The motor still goes where its plan says, or a safety stop has ended it.
    ghost predicate ToPlan(i: nat)
      requires i < |planner.motors|
      reads this, loop, loop.channels, planner
    {
      i < |loop.channels| && (loop.channels[i].aborted || Goal(loop.channels[i].State()) == planner.motors[i].target)
    }

    // No command has come between a motor that bends and its plan.
    ghost predicate Undisturbed()
      reads this, loop, loop.channels, planner
    {
      forall i :: 0 <= i < |planner.motors| && planner.motors[i].state == Bending ==> ToPlan(i)
    }

    function InputAt(i: nat, s: Sensed): MotorInput
      requires i < |loop.channels|
      reads this, loop, loop.channels
    {
      var ch := loop.channels[i];
      MotorInput(ch.enabled, s.zeroed, s.healthy, ch.moving || ch.mode == Holding, ch.aborted, s.temperature)
    }

    method ReadMotors(sensed: seq<Sensed>) returns (ins: seq<MotorInput>)
      requires |sensed| == |loop.channels|
      ensures |ins| == |sensed| && forall i :: 0 <= i < |ins| ==> ins[i] == InputAt(i, sensed[i])
    {
      ins := [];
      for i := 0 to |sensed|
        invariant |ins| == i && forall j :: 0 <= j < i ==> ins[j] == InputAt(j, sensed[j])
      {
        ins := ins + [InputAt(i, sensed[i])];
      }
    }

    // One tick of the plan. Heaters out, then the speed, then the move; a move
    // that only the lock stands against is tried again later. Every offered start
    // is answered once. A bend counts as done when the motor is at rest and no
    // safety stop ended it: without a command in between, it is then where the
    // plan wanted it.
    method TickFallbackPlan(fallback: bool, phase: Phase, now: real, sensed: seq<Sensed>)
      returns (outcome: Outcome, ghost ins: seq<MotorInput>)
      requires Valid() && |sensed| == |loop.channels|
      modifies loop`duties, loop.lock, loop.channels, planner
      ensures Valid() && Answered(old(planner.log), outcome)
      // What the plan goes by, which motor is offered a start, what comes of the
      // offer, and what then becomes of the plan.
      ensures |ins| == |sensed| && forall i :: 0 <= i < |ins| ==> ins[i] == old(InputAt(i, sensed[i]))
      ensures Decided(TickInput(fallback, phase, now, ins), outcome)
      ensures Carried(outcome, old(Motors()), old(loop.duties))
      // Nothing starts but what may.
      ensures !outcome.NoStart? ==> old(MotorAllowed(fallback, phase, sensed, now, outcome.motor))
      ensures AllFollowed(old(planner.motors), old(Undisturbed())) && (old(Undisturbed()) ==> Undisturbed())
    {
      var read := ReadMotors(sensed);
      ins := read;
      var input := TickInput(fallback, phase, now, read);
      assert Motors() == old(Motors()) && Coming(Due(input)) == old(Coming(Due(input)));
      outcome := TickWith(input, sensed);
    }

    method TickWith(input: TickInput, ghost sensed: seq<Sensed>) returns (outcome: Outcome)
      requires Valid() && |input.motors| == |loop.channels| == |sensed|
      requires forall i :: 0 <= i < |input.motors| ==> input.motors[i] == InputAt(i, sensed[i])
      modifies loop`duties, loop.lock, loop.channels, planner
      ensures Valid() && Answered(old(planner.log), outcome) && Decided(input, outcome)
      ensures Carried(outcome, old(Motors()), old(loop.duties))
      ensures !outcome.NoStart? ==> old(MotorAllowed(input.fallback, input.phase, sensed, input.now, outcome.motor))
      ensures AllFollowed(old(planner.motors), old(Undisturbed())) && (old(Undisturbed()) ==> Undisturbed())
    {
      AllowedByPlan(input, sensed);
      outcome := TickByPlan(input);
    }

    method TickByPlan(input: TickInput) returns (outcome: Outcome)
      requires Valid() && |input.motors| == |loop.channels|
      requires forall i :: 0 <= i < |input.motors| ==> ReadFrom(input.motors[i], i)
      modifies loop`duties, loop.lock, loop.channels, planner
      ensures Valid() && Answered(old(planner.log), outcome) && Decided(input, outcome)
      ensures Carried(outcome, old(Motors()), old(loop.duties))
      ensures AllFollowed(old(planner.motors), old(Undisturbed())) && (old(Undisturbed()) ==> Undisturbed())
    {
      ghost var undisturbed := Undisturbed();
      ghost var before, was := planner.log, planner.motors;
      var action := PlanTick(input);
      assert Motors() == old(Motors()) && Coming(old(Due(input))) == old(Coming(Due(input)));
      if action.None? { return NoStart; }
      outcome := StartBesides(action.value, before, was, undisturbed);
    }

    // What a tick makes of the plan, which motor it offers a start, and what comes
    // of the offer.
    function Due(input: TickInput): Decision
      reads planner
    {
      TickOf(input, planner.motors, planner.state, planner.config, LateBy(planner.deadlineStart, input.now, planner.config))
    }

    function Coming(d: Decision): Outcome
      reads this, loop, loop.lock, loop.channels
    {
      if d.offer.None? then NoStart else StartOf(d.offer.value, d.plans)
    }

    function Clock(input: TickInput): Option<real>
      reads planner
    {
      ClockOf(planner.deadlineStart, input, planner.motors, planner.state)
    }

    twostate predicate Decided(input: TickInput, outcome: Outcome)
      reads this, loop, loop.lock, loop.channels, planner
    {
      && outcome == old(Coming(Due(input))) && planner.deadlineStart == old(Clock(input))
      && (planner.motors, planner.state) == AfterAnswer(old(Due(input)).plans, old(Due(input)).state, outcome)
    }

    // The link is lost in flight, and the motor is switched on, zeroed, healthy and,
    // unless it is late, warm as it should be.
    predicate MotorAllowed(fallback: bool, phase: Phase, sensed: seq<Sensed>, now: real, motor: nat)
      reads this, loop, loop.channels, planner
    {
      && motor < |loop.channels| && motor < |sensed| && fallback && phase in {PreFloat, Float}
      && loop.channels[motor].enabled && sensed[motor].zeroed && sensed[motor].healthy
      && (WarmEnough(sensed[motor]) || LateBy(planner.deadlineStart, now, planner.config))
    }

    lemma AllowedByPlan(input: TickInput, sensed: seq<Sensed>)
      requires |input.motors| == |sensed| == |loop.channels|
      requires forall i :: 0 <= i < |input.motors| ==> input.motors[i] == InputAt(i, sensed[i])
      ensures Due(input).offer.Some? ==>
        MotorAllowed(input.fallback, input.phase, sensed, input.now, Due(input).offer.value)
    {
      OfferedMayStart(input, planner.motors, planner.state, planner.config,
                      LateBy(planner.deadlineStart, input.now, planner.config));
    }

    predicate WarmEnough(s: Sensed)
      reads this
    {
      s.temperature.Some? && planner.config.minC <= s.temperature.value <= planner.config.maxC
    }

    // What a start of this motor comes to: refused without the motor or when its move
    // does not fit, postponed when only the lock stands against it.
    function StartOf(motor: nat, plans: seq<Plan>): Outcome
      reads this, loop, loop.lock, loop.channels
    {
      if motor >= |loop.channels| || motor >= |plans| then Outcome.Refused(motor)
      else if !loop.MoveFits(motor, plans[motor].target, plans[motor].hold) then Outcome.Refused(motor)
      else if loop.LockedOut(motor, plans[motor].target, plans[motor].hold) then Postponed(motor)
      else Started(motor)
    }

    static function AfterAnswer(plans: seq<Plan>, state: PlanState, outcome: Outcome): (seq<Plan>, PlanState) {
      match outcome
      case Postponed(k) =>
        if k >= |plans| then (plans, state)
        else
          var waiting := plans[k := plans[k].(state := Pending)];
          (waiting, if exists p :: p in waiting && p.state == Bent then Running else Armed)
      case Refused(k) => if k >= |plans| then (plans, state) else (plans[k := plans[k].(state := Broken)], Failed)
      case _ => (plans, state)
    }

    // The motors that were bending are left alone by a start.
    method StartBesides(a: Action, ghost before: Log, ghost was: seq<Plan>, ghost undisturbed: bool)
      returns (outcome: Outcome)
      requires loop.Valid() && planner.Valid() && planner.awaiting == Some(a.motor) && Numbered()
      requires a == ActionOf(planner.motors, a.motor)
      requires planner.log == before.(offered := before.offered + [a.motor])
      requires AllFollowed(was, undisturbed) && was[a.motor].state == Pending
      requires undisturbed ==> UndisturbedBut(Some(a.motor))
      modifies loop`duties, loop.lock, loop.channels, planner
      ensures Valid() && Answered(before, outcome)
      ensures outcome == old(StartOf(a.motor, planner.motors)) && Carried(outcome, old(Motors()), old(loop.duties))
      ensures (planner.motors, planner.state) == AfterAnswer(old(planner.motors), old(planner.state), outcome)
      ensures planner.deadlineStart == old(planner.deadlineStart)
      ensures AllFollowed(was, undisturbed) && (undisturbed ==> Undisturbed())
    {
      assert MoveOf(a) == StartOf(a.motor, planner.motors);
      outcome := StartAndReport(a, before);
      forall i | 0 <= i < |planner.motors| && i != a.motor
        ensures old(Followed(i, undisturbed)) ==> Followed(i, undisturbed)
        ensures old(ToPlan(i)) ==> ToPlan(i)
      {
      }
    }

    // The start that was offered, if one was, has been answered.
    ghost predicate Answered(before: Log, outcome: Outcome)
      reads this, loop, loop.lock, loop.channels, planner
    {
      if outcome.NoStart? then planner.log == before
      else
        var motor := outcome.motor;
        && planner.log.offered == before.offered + [motor]
        && planner.log.accepted == before.accepted + (if outcome.Started? then [motor] else [])
        && (outcome.Started? ==> Under(motor))
        && (outcome.Postponed? ==>
              && motor < |planner.motors| && Waiting(planner.motors[motor])
              && loop.lock.holder != NOBODY && loop.lock.holder != motor)
        && (outcome.Refused? ==> planner.state == Failed)
    }

    // The planner's tick moves nothing: it only follows the motors that bend.
    method PlanTick(input: TickInput) returns (action: Option<Action>)
      requires Valid() && |input.motors| == |loop.channels|
      requires forall i :: 0 <= i < |input.motors| ==> ReadFrom(input.motors[i], i)
      modifies planner
      ensures loop.Valid() && planner.Valid()
      ensures old(Due(input))
           == Decision(planner.motors, planner.state, if action.Some? then Some(action.value.motor) else None)
      ensures planner.deadlineStart == old(Clock(input))
      ensures planner.awaiting == if action.None? then None else Some(action.value.motor)
      ensures planner.log == if action.None? then old(planner.log)
                             else old(planner.log).(offered := old(planner.log).offered + [action.value.motor])
      ensures action.Some? ==>
        && action.value.motor < |planner.motors| == |old(planner.motors)|
        && old(planner.motors)[action.value.motor].state == Pending
        && action.value == ActionOf(planner.motors, action.value.motor)
      ensures AllFollowed(old(planner.motors), old(Undisturbed()))
      ensures old(Undisturbed()) ==> UndisturbedBut(if action.None? then None else Some(action.value.motor))
    {
      ghost var was, undisturbed := planner.motors, Undisturbed();
      action := TickPlanner(input);
      forall i | 0 <= i < |was|
        ensures was[i].state == Bending ==> Followed(i, undisturbed)
        ensures undisturbed && planner.motors[i].state == Bending ==>
          ToPlan(i) || (action.Some? && action.value.motor == i)
      {
        assert Moved(input, was[i], planner.motors[i], action, i);
        if was[i].state == Bending { FollowedByInput(was[i], input, i); }
      }
    }

    // Of a motor that was bending the tick makes what its input says, and only
    // the offered one begins to bend.
    static predicate Moved(input: TickInput, was: Plan, now: Plan, action: Option<Action>, i: nat) {
      && now.target == was.target
      && (was.state == Bending ==> now == Completed(was, InputOf(input.motors, i)))
      && (now.state == Bending ==> was.state == Bending || (action.Some? && action.value.motor == i))
    }

    method TickPlanner(input: TickInput) returns (action: Option<Action>)
      requires planner.Valid() && planner.awaiting.None?
      modifies planner
      ensures planner.Valid() && |planner.motors| == |old(planner.motors)|
      ensures old(Due(input))
           == Decision(planner.motors, planner.state, if action.Some? then Some(action.value.motor) else None)
      ensures planner.deadlineStart == old(Clock(input))
      ensures planner.awaiting == if action.None? then None else Some(action.value.motor)
      ensures planner.log == if action.None? then old(planner.log)
                             else old(planner.log).(offered := old(planner.log).offered + [action.value.motor])
      ensures action.Some? ==>
        && action.value.motor < |planner.motors| && old(planner.motors)[action.value.motor].state == Pending
        && action.value == ActionOf(planner.motors, action.value.motor)
      ensures forall i :: 0 <= i < |planner.motors| ==>
        Moved(input, old(planner.motors)[i], planner.motors[i], action, i)
    {
      ghost var was, wasState := planner.motors, planner.state;
      action := planner.Tick(input);
      forall i | 0 <= i < |was| ensures Moved(input, was[i], planner.motors[i], action, i) {
        planner.BendsFollowed(input, was, wasState, action, i);
      }
    }

    lemma FollowedByInput(was: Plan, input: TickInput, i: nat)
      requires loop.Valid() && i < |planner.motors| && was.state == Bending && was.target == planner.motors[i].target
      requires |input.motors| == |loop.channels| && (i < |loop.channels| ==> ReadFrom(input.motors[i], i))
      requires planner.motors[i] == Completed(was, InputOf(input.motors, i))
      ensures Followed(i, ToPlan(i))
    {
    }

    ghost predicate ReadFrom(m: MotorInput, i: nat)
      requires i < |loop.channels|
      reads this, loop, loop.channels
    {
      m.busy == Active(loop.channels[i].mode) && m.aborted == loop.channels[i].aborted
    }

    ghost predicate UndisturbedBut(motor: Option<nat>)
      reads this, loop, loop.channels, planner
    {
      forall i :: 0 <= i < |planner.motors| && Some(i) != motor && planner.motors[i].state == Bending ==> ToPlan(i)
    }

    ghost predicate AllFollowed(was: seq<Plan>, undisturbed: bool)
      reads this, loop, loop.channels, planner
    {
      && |planner.motors| == |was|
      && forall i {:trigger Followed(i, undisturbed)} :: 0 <= i < |was| && was[i].state == Bending ==>
           Followed(i, undisturbed)
    }

    // What a tick of the plan makes of a motor that was bending.
    ghost predicate Followed(i: nat, undisturbed: bool)
      requires i < |planner.motors|
      reads this, loop, loop.channels, planner
    {
      var p := planner.motors[i];
      if i >= |loop.channels| then p.state == Bent
      else
        var ch := loop.channels[i];
        && (p.state == Bending <==> Active(ch.mode))
        && (p.state == Broken <==> !Active(ch.mode) && ch.aborted)
        && (p.state == Bent ==> !ch.aborted && (undisturbed ==> ch.position == p.target))
    }

    method StartAndReport(a: Action, ghost before: Log) returns (outcome: Outcome)
      requires loop.Valid() && planner.Valid() && planner.awaiting == Some(a.motor) && Numbered()
      requires planner.log == before.(offered := before.offered + [a.motor])
      requires a == ActionOf(planner.motors, a.motor)
      modifies loop`duties, loop.lock, loop.channels, planner
      ensures Valid() && !outcome.NoStart? && outcome.motor == a.motor && Answered(before, outcome)
      ensures outcome == old(MoveOf(a))
      ensures (planner.motors, planner.state) == AfterAnswer(old(planner.motors), old(planner.state), outcome)
      ensures planner.deadlineStart == old(planner.deadlineStart)
      ensures |planner.motors| == |old(planner.motors)| && (!outcome.Started? ==> planner.motors[a.motor].state != Bending)
      ensures forall i :: 0 <= i < |planner.motors| && i != a.motor ==> planner.motors[i] == old(planner.motors)[i]
      ensures OthersLeft(outcome) && LaunchedMotors(a, outcome, old(Motors())) && ActionOf(planner.motors, a.motor) == a
      ensures loop.duties
           == if a.motor < |loop.channels| || a.speed <= 0.0 then Zeros(|old(loop.duties)|) else old(loop.duties)
    {
      outcome := Launch(a);
      Report(a, outcome, before);
    }

    method Launch(a: Action) returns (outcome: Outcome)
      requires loop.Valid() && Numbered()
      modifies loop`duties, loop.lock, loop.channels
      ensures loop.Valid() && !outcome.NoStart? && outcome.motor == a.motor && outcome == old(MoveOf(a))
      ensures outcome.Started? ==> a.motor < |loop.channels| && HeadedFor(a.motor, a.target, a.hold)
      ensures outcome.Postponed? ==> loop.lock.holder != NOBODY && loop.lock.holder != a.motor
      ensures OthersLeft(outcome) && LaunchedMotors(a, outcome, old(Motors()))
      ensures loop.duties
           == if a.motor < |loop.channels| || a.speed <= 0.0 then Zeros(|old(loop.duties)|) else old(loop.duties)
    {
      outcome := Start(a);
    }

    method Report(a: Action, outcome: Outcome, ghost before: Log)
      requires loop.Valid() && planner.Valid() && planner.awaiting == Some(a.motor) && Numbered()
      requires !outcome.NoStart? && outcome.motor == a.motor && a == ActionOf(planner.motors, a.motor)
      requires planner.log == before.(offered := before.offered + [a.motor])
      requires outcome.Started? ==> a.motor < |loop.channels| && HeadedFor(a.motor, a.target, a.hold)
      requires outcome.Postponed? ==> loop.lock.holder != NOBODY && loop.lock.holder != a.motor
      modifies planner
      ensures Valid() && Answered(before, outcome) && Motors() == old(Motors())
      ensures (planner.motors, planner.state) == AfterAnswer(old(planner.motors), old(planner.state), outcome)
      ensures |planner.motors| == |old(planner.motors)| && (!outcome.Started? ==> planner.motors[a.motor].state != Bending)
      ensures forall i :: 0 <= i < |planner.motors| && i != a.motor ==> planner.motors[i] == old(planner.motors)[i]
      ensures planner.deadlineStart == old(planner.deadlineStart) && ActionOf(planner.motors, a.motor) == a
    {
      planner.ReportStartResult(a.motor, outcome.Started?, outcome.Postponed?);
    }

    // The motor is under way as its plan says, with every heater out.
    ghost predicate Under(motor: nat)
      reads this, loop, loop.lock, loop.channels, planner
    {
      && motor < |loop.channels| && motor < |planner.motors|
      && planner.motors[motor].state == Bending
      && HeadedFor(motor, planner.motors[motor].target, planner.motors[motor].hold)
    }

    ghost predicate HeadedFor(motor: nat, target: int, hold: real)
      requires motor < |loop.channels|
      reads this, loop, loop.channels
    {
      var ch := loop.channels[motor];
      ch.target == target == Goal(ch.State()) && ch.hold == hold && !ch.aborted && loop.AllOff()
    }

    function MoveOf(a: Action): Outcome
      reads this, loop, loop.lock, loop.channels
    {
      if a.motor >= |loop.channels| || !loop.MoveFits(a.motor, a.target, a.hold) then Outcome.Refused(a.motor)
      else if loop.LockedOut(a.motor, a.target, a.hold) then Postponed(a.motor)
      else Started(a.motor)
    }

    // A start leaves every channel but its own alone, and no start leaves all.
    twostate predicate OthersLeft(outcome: Outcome)
      reads loop.channels
    {
      forall i :: 0 <= i < |loop.channels| && (outcome.NoStart? || i != outcome.motor) ==> unchanged(loop.channels[i])
    }

    // The speed is set whether or not the move then starts.
    twostate predicate LaunchedAs(a: Action, started: bool)
      requires a.motor < |loop.channels|
      reads loop.channels
    {
      var ch := loop.channels[a.motor];
      ch.State() == Launched(old(ch.State()), ch.limits, a, started)
    }

    static function ActionOf(plans: seq<Plan>, k: nat): Action
      requires k < |plans|
    {
      Action(k, plans[k].target, plans[k].hold, plans[k].speed)
    }

    ghost function Motors(): (ms: seq<Motor>)
      reads this, loop, loop.channels
      ensures |ms| == |loop.channels| && forall i :: 0 <= i < |ms| ==> ms[i] == loop.channels[i].State()
    {
      seq(|loop.channels|, i requires 0 <= i < |loop.channels| reads loop, loop.channels => loop.channels[i].State())
    }

    ghost predicate LaunchedMotors(a: Action, outcome: Outcome, was: seq<Motor>)
      reads this, loop, loop.channels
    {
      && |was| == |loop.channels|
      && Motors() == if a.motor >= |was| then was
                     else was[a.motor := Launched(was[a.motor], loop.channels[a.motor].limits, a, outcome.Started?)]
    }

    // What the outcome means for heaters and motors. Without such a motor its speed
    // is refused before the heaters are put out.
    ghost predicate Carried(outcome: Outcome, was: seq<Motor>, duties: seq<real>)
      reads this, loop, loop.channels, planner
    {
      if outcome.NoStart? then loop.duties == duties && Motors() == was
      else
        var k := outcome.motor;
        && k < |planner.motors| && LaunchedMotors(ActionOf(planner.motors, k), outcome, was)
        && loop.duties == if k < |loop.channels| || planner.motors[k].speed <= 0.0 then Zeros(|duties|) else duties
    }

    static function Launched(m: Motor, l: Limits, a: Action, started: bool): Motor {
      var paced := if a.speed > 0.0 then m.(stepHz := RMin(a.speed, l.maxHz)) else m;
      if started then SetOut(paced, a.target, a.hold, m.position, false, if a.hold > 0.0 then Holding else Idle) else paced
    }

    method Start(a: Action) returns (outcome: Outcome)
      requires loop.Valid() && Numbered()
      modifies loop`duties, loop.lock, loop.channels
      ensures loop.Valid() && !outcome.NoStart? && outcome.motor == a.motor
      ensures outcome.Started? ==> a.motor < |loop.channels| && HeadedFor(a.motor, a.target, a.hold)
      ensures outcome.Postponed? ==> loop.lock.holder != NOBODY && loop.lock.holder != a.motor
      ensures outcome == old(MoveOf(a))
      ensures OthersLeft(outcome) && (a.motor < |loop.channels| ==> LaunchedAs(a, outcome.Started?))
      ensures a.motor < |loop.channels| || a.speed <= 0.0 ==> loop.duties == Zeros(|old(loop.duties)|)
      ensures a.motor >= |loop.channels| && a.speed > 0.0 ==> loop.duties == old(loop.duties)
    {
      if a.speed > 0.0 {
        var faster := loop.Apply(a.motor, Speed(a.speed));
        if !faster { return Outcome.Refused(a.motor); }
        assert LaunchedAs(a, false);
      }
      outcome := Move(a);
    }

    method Move(a: Action) returns (outcome: Outcome)
      requires loop.Valid() && Numbered()
      modifies loop`duties, loop.lock, loop.channels
      ensures loop.Valid() && !outcome.NoStart? && outcome.motor == a.motor
      ensures outcome.Started? ==> a.motor < |loop.channels| && HeadedFor(a.motor, a.target, a.hold)
      ensures outcome.Postponed? ==> loop.lock.holder != NOBODY && loop.lock.holder != a.motor
      ensures outcome == old(MoveOf(a))
      ensures OthersLeft(outcome) && (a.motor < |loop.channels| ==> LaunchedAs(a.(speed := 0.0), outcome.Started?))
      ensures loop.duties == Zeros(|old(loop.duties)|)
    {
      loop.InhibitHeatersForMotion();
      var at := loop.Find(a.motor);
      if at.None? { return Outcome.Refused(a.motor); }
      assert at.value == a.motor;
      var fits := loop.MoveFits(at.value, a.target, a.hold);
      var ok := loop.Dispatch(at.value, MoveTo(a.target, a.hold));
      outcome := if ok then Started(a.motor) else if fits then Postponed(a.motor) else Outcome.Refused(a.motor);
    }

    // ---------- between the plan's ticks ----------

    // However the drivers answer, ticking the motors keeps them on the plan.
    method TickMotors(dt: real, brakes: seq<real>, answers: seq<Answers>)
      requires Valid() && |brakes| == |answers| == |loop.channels|
      requires forall i :: 0 <= i < |loop.channels| ==> loop.RightBrake(i, brakes[i])
      modifies loop.lock, loop.channels
      ensures forall i :: 0 <= i < |loop.channels| ==> loop.RanOn(i, dt, brakes[i], answers[i])
      ensures Valid() && (old(Undisturbed()) ==> Undisturbed())
    {
      loop.TickMotors(dt, brakes, answers);
      forall i | 0 <= i < |planner.motors| && planner.motors[i].state == Bending && i < |loop.channels|
        ensures old(ToPlan(i)) ==> ToPlan(i)
      {
        assert loop.RanOn(i, dt, brakes[i], answers[i]);
      }
    }

    // A motor stopped by command is at rest and no safety stop ended its bend: the
    // plan takes the bend for done, wherever the motor stands.
    method StoppedCountsAsBent(i: nat, input: TickInput)
      requires Valid() && |input.motors| == |loop.channels|
      requires i < |loop.channels| && i < |planner.motors| && planner.motors[i].state == Bending
      requires !input.motors[i].busy && !input.motors[i].aborted
      modifies loop`duties, loop.lock, loop.channels, planner
      ensures ReadFrom(input.motors[i], i)
      ensures i < |planner.motors| && planner.motors[i].state == Bent
      ensures loop.channels[i].position == old(loop.channels[i].position)
    {
      StopMotor(i);
      RestedCountsAsBent(i, input);
    }

    // So does a plan loaded in the middle of a bend: a channel set up anew is at
    // rest and has seen no safety stop.
    method RestedCountsAsBent(i: nat, input: TickInput)
      requires Valid() && |input.motors| == |loop.channels| && i < |loop.channels| && i < |planner.motors|
      requires planner.motors[i].state == Bending && !Active(loop.channels[i].mode) && !loop.channels[i].aborted
      requires ReadFrom(input.motors[i], i)
      modifies planner
      ensures i < |planner.motors| && planner.motors[i].state == Bent
    {
      ghost var was := planner.motors;
      var action := TickPlanner(input);
      assert Moved(input, was[i], planner.motors[i], action, i);
    }

    method StopMotor(i: nat)
      requires Valid() && i < |loop.channels|
      modifies loop`duties, loop.lock, loop.channels
      ensures Valid() && !Active(loop.channels[i].mode) && !loop.channels[i].aborted
      ensures loop.channels[i].position == old(loop.channels[i].position)
    {
      assert loop.channels[i].id == i;
      var ok := loop.Apply(i, Stop);
    }

    // Once, on the ground and without a link: heaters off, every motor stopped
    // and switched off, the lock free, whatever the drivers answer.
    method SafeIfLanded(fallback: bool, phase: Phase, driverOk: seq<bool>) returns (safed: bool)
      requires Valid() && |driverOk| == |loop.channels|
      modifies this`landedSafed, this`heatersOff, loop.lock, loop.channels
      ensures Valid() && safed == (fallback && phase == Landed && landedSafe && !old(landedSafed))
      ensures landedSafed == (old(landedSafed) || safed)
      ensures safed ==> heatersOff && loop.lock.holder == NOBODY
      ensures safed ==> forall i :: 0 <= i < |loop.channels| ==>
        !loop.channels[i].enabled && !Active(loop.channels[i].mode)
      ensures !safed ==> heatersOff == old(heatersOff) && unchanged(loop.lock)
      ensures !safed ==> forall i :: 0 <= i < |loop.channels| ==> unchanged(loop.channels[i])
    {
      safed := fallback && phase == Landed && landedSafe && !landedSafed;
      if !safed { return; }
      landedSafed, heatersOff := true, true;
      SwitchAllOff(driverOk);
    }

    method SwitchAllOff(driverOk: seq<bool>)
      requires Valid() && |driverOk| == |loop.channels|
      modifies loop.lock, loop.channels
      ensures Valid() && loop.lock.holder == NOBODY
      ensures forall i :: 0 <= i < |loop.channels| ==> !loop.channels[i].enabled && !Active(loop.channels[i].mode)
    {
      for i := 0 to |loop.channels|
        invariant Valid()
        invariant forall j :: 0 <= j < i ==> SwitchedOff(j)
      {
        assert forall j :: 0 <= j < i ==> SwitchedOff(j) && loop.channels[j] != loop.channels[i];
        SwitchOff(i, driverOk[i]);
      }
      NobodyHolds();
    }

    lemma NobodyHolds()
      requires Valid() && forall i :: 0 <= i < |loop.channels| ==> SwitchedOff(i)
      ensures loop.lock.holder == NOBODY
      ensures forall i :: 0 <= i < |loop.channels| ==> !loop.channels[i].enabled && !Active(loop.channels[i].mode)
    {
      forall i | 0 <= i < |loop.channels|
        ensures loop.channels[i].id != loop.lock.holder && !loop.channels[i].enabled && loop.channels[i].mode == Idle
      {
        assert SwitchedOff(i) && loop.channels[i].Valid();
      }
    }

    ghost predicate SwitchedOff(i: nat)
      requires i < |loop.channels|
      reads this, loop, loop.channels
    {
      var ch := loop.channels[i];
      !ch.enabled && ch.mode == Idle && !ch.lockHeld
    }

    method SwitchOff(i: nat, driverOk: bool)
      requires Valid() && i < |loop.channels|
      modifies loop.lock, loop.channels[i]
      ensures Valid() && SwitchedOff(i)
    {
      var stopped := loop.Dispatch(i, Stop);
      var ok := loop.Dispatch(i, Enable(false, driverOk));
    }
  }
}
