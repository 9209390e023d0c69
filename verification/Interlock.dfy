// Heaters and motors together: what the control loop and the commands between
// its ticks keep true.
module Interlock {
  import opened HeaterSchedulers
  import opened Reals
  import opened StepperChannels
  import opened StepperMotion
  import opened Wrappers

  class ControlLoop {
    const channels: seq<StepperChannel>
    const lock: MotionLock
    const scheduler: HeaterScheduler
    var duties: seq<real>   // what every PWM output is set to

    // Channels share one lock, and each has an identity of its own.
    ghost predicate Wired()
      reads this
    {
      && scheduler.lock == lock
      && (forall i :: 0 <= i < |channels| ==> channels[i].lock == lock && channels[i].pullHold >= 0.0)
      && (forall i, j :: 0 <= i < j < |channels| ==> channels[i] != channels[j] && channels[i].id != channels[j].id)
    }

    constructor (channels: seq<StepperChannel>, lock: MotionLock, scheduler: HeaterScheduler, heaters: nat)
      requires scheduler.Valid() && scheduler.lock == lock && lock.holder == NOBODY
      requires forall i :: 0 <= i < |channels| ==> channels[i].lock == lock && channels[i].pullHold >= 0.0 && channels[i].Valid()
      requires forall i, j :: 0 <= i < j < |channels| ==> channels[i] != channels[j] && channels[i].id != channels[j].id
      ensures Valid() && AllOff() && this.channels == channels && this.lock == lock && this.scheduler == scheduler
    {
      this.channels, this.lock, this.scheduler, duties := channels, lock, scheduler, Zeros(heaters);
    }

    ghost predicate AllOff()
      reads this
    {
      forall k :: 0 <= k < |duties| ==> duties[k] == 0.0
    }

    ghost predicate Valid()
      reads this, lock, scheduler, channels
    {
      && Wired() && scheduler.Valid()
      && (forall i :: 0 <= i < |channels| ==> channels[i].Valid())
      && (lock.holder != NOBODY ==> AllOff() && exists i :: 0 <= i < |channels| && channels[i].id == lock.holder)
    }

    // The interlock: a motor that moves, holds or retracts has the lock, is the
    // only one to do so, and every heater is off.
    lemma ActiveMeansAloneAndCold(i: nat)
      requires Valid() && i < |channels| && Active(channels[i].mode)
      ensures lock.holder == channels[i].id && AllOff()
      ensures forall j :: 0 <= j < |channels| && j != i ==> !Active(channels[j].mode)
    {
      forall j | 0 <= j < |channels| && j != i ensures !Active(channels[j].mode) {
        assert channels[j].id != channels[i].id;
      }
    }

    // Nobody but the holder opens the lock.
    method ForeignRelease(motor: nat)
      requires Valid() && lock.holder != motor
      modifies lock
      ensures Valid() && lock.holder == old(lock.holder)
    {
      lock.Release(motor);
    }

    // A step of one channel that touches the lock only as that channel may.
    twostate lemma OthersStay(i: nat)
      requires i < |channels| && old(Valid()) && Wired()
      requires channels[i].Valid() && channels[i].LockOnlyOurs()
      requires forall j :: 0 <= j < |channels| && j != i ==> unchanged(channels[j])
      requires unchanged(scheduler) && (lock.holder != NOBODY ==> AllOff())
      ensures Valid()
    {
      forall j | 0 <= j < |channels| ensures channels[j].Valid() {
        if j != i { assert channels[j].id != channels[i].id && old(channels[j].Valid()); }
      }
      if lock.holder != NOBODY && lock.holder == old(lock.holder) {
        var k :| 0 <= k < |channels| && channels[k].id == old(lock.holder);
        assert channels[k].id == lock.holder;
      }
    }

    method Find(motor: nat) returns (at: Option<nat>)
      requires Wired()
      ensures at.Some? ==> at.value < |channels| && channels[at.value].id == motor
      ensures at.None? ==> forall i :: 0 <= i < |channels| ==> channels[i].id != motor
    {
      for i := 0 to |channels|
        invariant forall j :: 0 <= j < i ==> channels[j].id != motor
      {
        if channels[i].id == motor { return Some(i); }
      }
      at := None;
    }

    method InhibitHeatersForMotion()
      requires Valid()
      modifies this`duties
      ensures Valid() && AllOff() && duties == Zeros(|old(duties)|)
    {
      duties := Zeros(|duties|);
    }

    // ---------- commands, between ticks ----------

    // Apart from the lock, nothing stands against this move.
    predicate MoveFits(i: nat, to: int, holdFor: real)
      requires i < |channels|
      reads channels[i]
    {
      channels[i].enabled && Abs(to) <= channels[i].limits.maxPosition && holdFor >= 0.0
    }

    // The lock is another motor's, and the move would need it.
    predicate LockedOut(i: nat, to: int, holdFor: real)
      requires i < |channels|
      reads channels[i], lock
    {
      (channels[i].position != to || holdFor > 0.0) && lock.holder != NOBODY && lock.holder != channels[i].id
    }

    // When a command is accepted.
    predicate Accepts(i: nat, c: Command)
      requires i < |channels|
      reads channels[i], lock
    {
      var ch := channels[i];
      match c
      case Move(delta) => MoveFits(i, ch.target + delta, 0.0) && !LockedOut(i, ch.target + delta, 0.0)
      case MoveTo(to, holdFor) => MoveFits(i, to, holdFor) && !LockedOut(i, to, holdFor)
      case Home => ch.enabled && !LockedOut(i, 0, 0.0)
      case ArmPull => MoveFits(i, ch.pullTravel, 0.0) && lock.holder == NOBODY
      case Stop => true
      case Enable(_, driverOk) => driverOk
      case Speed(hz) => hz > 0.0
      case Zero => !Active(ch.mode)
    }

    // The answer to a command, and all that it does to its channel and the lock.
    twostate predicate Outcome(i: nat, c: Command, ok: bool)
      requires i < |channels|
      reads channels[i], lock
    {
      var ch := channels[i];
      var m := old(ch.State());
      && ok == old(Accepts(i, c))
      && ch.State() == (if ok then Obeyed(m, ch.limits, ch.pullTravel, ch.pullHold, c)
                        else Unmoved(m, c, old(lock.holder) == NOBODY))
      && ch.aborted == (old(ch.aborted) && !(ok && (Starts(c) || c.Stop? || c.Zero?)))
      && ch.losses == old(ch.losses) + (if SwitchesOff(c) && m.mode in {Moving, Retracting} then 1 else 0)
      && ch.uncertain == (ch.losses > old(ch.losses) || (old(ch.uncertain) && !(ok && c.Zero?)))
      && lock.holder == (if ok && Takes(m, ch.pullTravel, c) then ch.id
                         else if GivesBack(c, ok) && old(lock.holder) == ch.id then NOBODY
                         else old(lock.holder))
    }

    // Every command that can start a motor puts the heaters out first.
    method Apply(motor: nat, c: Command) returns (ok: bool)
      requires Valid()
      modifies this`duties, lock, channels
      ensures Valid()
      ensures forall i :: 0 <= i < |channels| && channels[i].id != motor ==> unchanged(channels[i])
      ensures ok && Starts(c) ==> AllOff()
      ensures forall i :: 0 <= i < |channels| && channels[i].id == motor ==> Outcome(i, c, ok)
      ensures (forall i :: 0 <= i < |channels| ==> channels[i].id != motor) ==> !ok && lock.holder == old(lock.holder)
      ensures duties == if Starts(c) then Zeros(|old(duties)|) else old(duties)
    {
      var at := Find(motor);
      if at.None? {
        if Starts(c) { InhibitHeatersForMotion(); }
        return false;
      }
      label Found:
      ok := ApplyTo(at.value, c);
      assert old@Found(Accepts(at.value, c)) == old(Accepts(at.value, c));
      assert Outcome(at.value, c, ok);
    }

    method ApplyTo(i: nat, c: Command) returns (ok: bool)
      requires Valid() && i < |channels|
      modifies this`duties, lock, channels[i]
      ensures Valid() && Outcome(i, c, ok) && duties == if Starts(c) then Zeros(|old(duties)|) else old(duties)
      ensures forall j :: 0 <= j < |channels| && j != i ==> unchanged(channels[j])
    {
      if Starts(c) { InhibitHeatersForMotion(); }
      ok := Dispatch(i, c);
    }

    method Dispatch(i: nat, c: Command) returns (ok: bool)
      requires Valid() && i < |channels| && (Starts(c) ==> AllOff())
      modifies lock, channels[i]
      ensures Valid() && channels[i].LockOnlyOurs() && Outcome(i, c, ok)
      ensures !Starts(c) && lock.holder != NOBODY ==> lock.holder == old(lock.holder)
      ensures c.Enable? && !c.on ==> !channels[i].enabled && channels[i].mode == Idle && !channels[i].lockHeld
    {
      ok := CommandChannel(i, c);
      OthersStay(i);
    }

    method CommandChannel(i: nat, c: Command) returns (ok: bool)
      requires i < |channels| && channels[i].Valid() && channels[i].lock == lock && channels[i].pullHold >= 0.0
      modifies lock, channels[i]
      ensures channels[i].Valid() && channels[i].LockOnlyOurs() && Outcome(i, c, ok)
      ensures !Starts(c) && lock.holder != NOBODY ==> lock.holder == old(lock.holder)
      ensures c.Enable? && !c.on ==> !channels[i].enabled && channels[i].mode == Idle && !channels[i].lockHeld
    {
      var channel := channels[i];
      ok := true;
      match c {
        case Move(delta) => ok := channel.MoveSteps(delta);
        case MoveTo(to, holdFor) => ok := channel.MoveToSteps(to, holdFor);
        case Home => ok := channel.Home();
        case ArmPull => ok := channel.ArmPullCycle();
        case Stop => channel.Stop();
        case Enable(on, driverOk) => ok := channel.SetEnabled(on, driverOk);
        case Speed(hz) => ok := channel.SetSpeed(hz);
        case Zero =>
          if channel.moving || channel.mode == Holding { ok := false; } else { channel.SetPositionZero(); }
      }
    }

    // ---------- one round of the control loop ----------

    // Heaters are scheduled before any motor is started or ticked. A control reset
    // clears the energy latch, with the count, only once it has tripped. `granted`
    // is what the power limit leaves, before the energy budget is looked at.
    method ScheduleHeaters(requested: seq<real>, deprioritize: bool, dt: real, reset: bool)
      returns (ghost granted: seq<real>)
      requires Valid()
      modifies this`duties, scheduler
      ensures Valid() && scheduler.WithinLimits(duties, requested) && scheduler.inhibited == (lock.holder != NOBODY)
      ensures Scheduled(requested, deprioritize, dt, granted, !reset && old(scheduler.exhausted),
                        if reset && old(scheduler.exhausted) then 0.0 else old(scheduler.energyWh))
      ensures !reset || !old(scheduler.exhausted) ==> scheduler.deliveredWh >= old(scheduler.deliveredWh)
    {
      if reset && scheduler.exhausted { scheduler.Reset(); }
      duties, granted := scheduler.Schedule(requested, deprioritize, dt);
    }

    // With the lock held or the budget latched nothing heats; otherwise what is
    // granted goes out, unless its energy would reach the budget.
    ghost predicate Scheduled(requested: seq<real>, deprioritize: bool, dt: real, granted: seq<real>, latched: bool,
                              spent: real)
      reads this, lock, scheduler
    {
      if lock.holder != NOBODY || latched then
        duties == Zeros(|requested|) && scheduler.exhausted == latched && scheduler.energyWh == spent
      else
        var counted := scheduler.budgetWh > 0.0 && dt > 0.0;
        && scheduler.Granted(granted, requested, deprioritize)
        && scheduler.energyWh == spent + (if counted then scheduler.EnergyWh(scheduler.PowerW(granted), dt) else 0.0)
        && scheduler.exhausted == (counted && scheduler.energyWh >= scheduler.budgetWh)
        && duties == if scheduler.exhausted then Zeros(|requested|) else granted
    }

    // Bench open-loop heating goes around the scheduler: the interlock then
    // survives exactly when no motor has the lock or nothing is asked for.
    method OpenLoopHeaters(requested: seq<real>)
      requires Valid()
      modifies this`duties
      ensures duties == Clamped(requested)
      ensures Valid() <==> lock.holder == NOBODY || forall k :: 0 <= k < |requested| ==> requested[k] <= 0.0
    {
      duties := Clamped(requested);
      assert forall k :: 0 <= k < |requested| ==> (duties[k] == 0.0 <==> requested[k] <= 0.0);
    }

    // The planner's bend or a sequence's step: speed first, then the move. It
    // starts exactly when the speed makes sense, the move fits and the lock is
    // had or free; a bend that does not start leaves at most a new speed behind.
    method StartBend(motor: nat, to: int, holdFor: real, speed: Option<real>) returns (ok: bool)
      requires Valid()
      modifies this`duties, lock, channels
      ensures Valid()
      ensures forall i :: 0 <= i < |channels| && channels[i].id != motor ==> unchanged(channels[i])
      ensures (forall i :: 0 <= i < |channels| ==> channels[i].id != motor) ==> !ok
      ensures forall i :: 0 <= i < |channels| && channels[i].id == motor ==> Bent(i, to, holdFor, speed, ok)
      ensures ok ==> AllOff()
    {
      var paced := SetPace(motor, speed);
      if !paced { return false; }
      label Move:
      ok := MoveTarget(motor, to, holdFor);
      forall i | 0 <= i < |channels| && channels[i].id == motor ensures Bent(i, to, holdFor, speed, ok) {
        assert Bent@Move(i, to, holdFor, None, ok);
        assert old@Move(Accepts(i, MoveTo(to, holdFor))) == old(Accepts(i, MoveTo(to, holdFor)));
      }
    }

    method MoveTarget(motor: nat, to: int, holdFor: real) returns (ok: bool)
      requires Valid()
      modifies this`duties, lock, channels
      ensures Valid() && (ok ==> AllOff())
      ensures forall i :: 0 <= i < |channels| && channels[i].id != motor ==> unchanged(channels[i])
      ensures (forall i :: 0 <= i < |channels| ==> channels[i].id != motor) ==> !ok
      ensures forall i :: 0 <= i < |channels| && channels[i].id == motor ==>
        Bent(i, to, holdFor, None, ok) && channels[i].stepHz == old(channels[i].stepHz)
    {
      ok := Apply(motor, MoveTo(to, holdFor));
    }

    method SetPace(motor: nat, speed: Option<real>) returns (ok: bool)
      requires Valid()
      modifies this`duties, lock, channels
      ensures Valid()
      ensures forall i :: 0 <= i < |channels| && channels[i].id != motor ==> unchanged(channels[i])
      ensures speed.Some? && (forall i :: 0 <= i < |channels| ==> channels[i].id != motor) ==> !ok
      ensures forall i :: 0 <= i < |channels| && channels[i].id == motor ==> SpeedOnly(i, speed, ok)
    {
      ok := true;
      if speed.Some? { ok := Apply(motor, Speed(speed.value)); }
      forall i | 0 <= i < |channels| && channels[i].id == motor ensures SpeedOnly(i, speed, ok) {
        assert speed.Some? ==> Outcome(i, Speed(speed.value), ok);
      }
    }

    twostate predicate SpeedOnly(i: nat, speed: Option<real>, ok: bool)
      requires i < |channels|
      reads channels[i], lock
    {
      var ch := channels[i];
      && (ok <==> (speed.Some? ==> speed.value > 0.0)) && (ok && speed.Some? ==> Paced(i, speed.value))
      && ch.State() == old(ch.State()).(stepHz := ch.stepHz) && ch.aborted == old(ch.aborted)
      && lock.holder == old(lock.holder)
    }

    twostate predicate Bent(i: nat, to: int, holdFor: real, speed: Option<real>, ok: bool)
      requires i < |channels|
      reads channels[i], lock
    {
      var ch := channels[i];
      && (ok <==> (speed.Some? ==> speed.value > 0.0) && old(Accepts(i, MoveTo(to, holdFor))))
      && if ok then
           && ch.target == to == Goal(ch.State()) && ch.hold == holdFor && !ch.aborted
           && (speed.Some? ==> Paced(i, speed.value))
         else
           && ch.State() == old(ch.State()).(stepHz := ch.stepHz) && ch.aborted == old(ch.aborted)
           && lock.holder == old(lock.holder)
    }

    predicate Paced(i: nat, hz: real)
      requires i < |channels|
      reads channels[i]
    {
      channels[i].stepHz == RMin(hz, channels[i].limits.maxHz)
    }

    method TickMotors(dt: real, brakes: seq<real>, answers: seq<Answers>)
      requires Valid() && |brakes| == |answers| == |channels|
      requires forall i :: 0 <= i < |channels| ==> RightBrake(i, brakes[i])
      modifies lock, channels
      ensures Valid()
      ensures lock.holder == old(lock.holder) || lock.holder == NOBODY
      ensures forall i :: 0 <= i < |channels| ==> RanOn(i, dt, brakes[i], answers[i])
    {
      for i := 0 to |channels|
        invariant Valid()
        invariant forall j :: i <= j < |channels| ==> unchanged(channels[j])
        invariant forall j :: 0 <= j < i ==> RanOn(j, dt, brakes[j], answers[j])
        invariant lock.holder == old(lock.holder) || lock.holder == NOBODY
      {
        TickNext(i, dt, brakes[i], answers[i]);
      }
    }

    method TickNext(i: nat, dt: real, brake: real, a: Answers)
      requires Valid() && i < |channels| && RightBrake(i, brake)
      modifies lock, channels[i]
      ensures Valid() && RanOn(i, dt, brake, a) && forall j :: 0 <= j < |channels| && j != i ==> unchanged(channels[j])
      ensures lock.holder == old(lock.holder) || lock.holder == NOBODY
    {
      TickOne(i, dt, brake, a);
    }

    // The channel is what its driver's answers make of it. No tick starts a motor,
    // and a move ends where it was to end unless a safety stop ends it.
    twostate predicate RanOn(i: nat, dt: real, brake: real, a: Answers)
      requires i < |channels|
      reads channels[i]
    {
      && channels[i].CameTo(TickUpshot(old(channels[i].State()), channels[i].limits, dt, brake, a))
      && channels[i].OnCourse() && (old(channels[i].mode) == Idle ==> channels[i].mode == Idle)
    }

    ghost predicate RightBrake(i: nat, brake: real)
      requires i < |channels|
      reads channels[i]
    {
      channels[i].limits.microstep >= 1
      && BrakeRate(brake, channels[i].accel, Remaining(channels[i].State()), channels[i].limits.microstep)
    }

    method TickOne(i: nat, dt: real, brake: real, a: Answers)
      requires Valid() && i < |channels| && RightBrake(i, brake)
      modifies lock, channels[i]
      ensures Valid() && channels[i].Ticked() && RanOn(i, dt, brake, a)
      ensures lock.holder == old(lock.holder) || lock.holder == NOBODY
    {
      channels[i].Tick(dt, brake, a);
      OthersStay(i);
    }
  }

  // What bench open-loop heating can come to: a motor under way and a heater on.
  method HeatedWhileMoving() returns (loop: ControlLoop)
    ensures fresh(loop) && |loop.channels| == 1 && !loop.Valid()
    ensures loop.channels[0].mode == Moving && loop.channels[0].lock.holder == loop.channels[0].id && loop.duties == [1.0]
  {
    var lock := new MotionLock();
    var channel := new StepperChannel(0, Limits(100.0, 16, 1000), 100.0, 50.0, 100.0, 10, 0.0, true, lock);
    var scheduler := new HeaterScheduler(1, 10.0, 10.0, 100.0, None, lock);
    loop := new ControlLoop([channel], lock, scheduler, 1);
    var ok := StartOne(loop);
    loop.OpenLoopHeaters([1.0]);
    assert Clamped([1.0])[0] == 1.0;
  }

  method StartOne(loop: ControlLoop) returns (ok: bool)
    requires loop.Valid() && |loop.channels| == 1 && loop.channels[0].id == 0 && loop.channels[0].enabled
    requires loop.channels[0].position == 0 && loop.channels[0].limits.maxPosition == 1000 && loop.lock.holder == NOBODY
    modifies loop`duties, loop.lock, loop.channels
    ensures loop.Valid() && ok && loop.channels[0].mode == Moving && loop.lock.holder == 0
  {
    assert loop.channels[0].id == 0 && loop.MoveFits(0, 10, 0.0) && !loop.LockedOut(0, 10, 0.0);
    ok := loop.Apply(0, MoveTo(10, 0.0));
  }

  datatype Command =
    | Move(delta: int) | MoveTo(to: int, holdFor: real) | Home | ArmPull
    | Stop | Enable(on: bool, driverOk: bool) | Speed(hz: real) | Zero

  predicate Starts(c: Command) { c.Move? || c.MoveTo? || c.Home? || c.ArmPull? }

  predicate SwitchesOff(c: Command) { c.Enable? && !c.on }

  // The motor headed for `to`, or standing there.
  function SetOut(m: Motor, to: int, holdFor: real, back: int, retract: bool, standing: Mode): Motor {
    m.(target := to, hold := holdFor, retractTarget := back, retractAfterHold := retract,
       mode := if m.position != to then Moving else standing)
  }

  // The motor after a command that is accepted.
  function Obeyed(m: Motor, l: Limits, pullTravel: int, pullHold: real, c: Command): Motor {
    match c
    case Move(delta) => SetOut(m, m.target + delta, 0.0, m.position, false, Idle)
    case MoveTo(to, holdFor) => SetOut(m, to, holdFor, m.position, false, if holdFor > 0.0 then Holding else Idle)
    case Home => SetOut(m, 0, 0.0, 0, false, Idle)
    case ArmPull => SetOut(m, pullTravel, pullHold, 0, true, Holding).(stepHz := l.maxHz)
    case Stop => Halted(m, true)
    case Enable(on, _) => if on then m.(enabled := true) else SwitchedOff(m)
    case Speed(hz) => m.(stepHz := RMin(hz, l.maxHz))
    case Zero => Halted(m.(position := 0), true)
  }

  function SwitchedOff(m: Motor): Motor { m.(enabled := false, mode := Idle, hz := 0.0) }

  // And after one that is refused: a motor is switched off whatever the driver
  // says, and a pull out of range has its way back set before that is found out.
  function Unmoved(m: Motor, c: Command, lockFree: bool): Motor {
    if SwitchesOff(c) then SwitchedOff(m)
    else if c.ArmPull? && m.enabled && lockFree then m.(retractTarget := 0, retractAfterHold := true)
    else m
  }

  // Whether the motor has to have the lock for it.
  predicate Takes(m: Motor, pullTravel: int, c: Command) {
    match c
    case Move(delta) => m.target + delta != m.position
    case MoveTo(to, holdFor) => m.position != to || holdFor > 0.0
    case Home => m.position != 0
    case ArmPull => true
    case _ => false
  }

  predicate GivesBack(c: Command, ok: bool) { SwitchesOff(c) || c.Stop? || (c.Zero? && ok) }
}
