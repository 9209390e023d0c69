// One motor and the lock that lets only one of them move.
module StepperChannels {
  import opened Reals
  import opened StepperMotion

  const NOBODY: int := -1

  class MotionLock {
    var holder: int

    constructor ()
      ensures holder == NOBODY
    {
      holder := NOBODY;
    }

    // Refused while anybody holds it, the same motor included.
    method TryAcquire(motor: nat) returns (ok: bool)
      modifies this
      ensures ok <==> old(holder) == NOBODY
      ensures holder == if ok then motor else old(holder)
    {
      if holder != NOBODY { return false; }
      holder := motor;
      ok := true;
    }

    // Only the holder's own release counts.
    method Release(motor: nat)
      modifies this
      ensures holder == if old(holder) == motor then NOBODY else old(holder)
    {
      if holder == motor { holder := NOBODY; }
    }
  }

  // What the driver says to one pulse: whether it stepped, the step-loss
  // events it counted since it was last asked, and whether it wants a stop.
  datatype Pulse = Pulse(stepped: bool, lost: nat, stop: bool)

  const SMOOTH := Pulse(true, 0, false)

  // The answer to pulse i: as listed, and smooth after the end of the list.
  function AnswerTo(pulses: seq<Pulse>, i: nat): Pulse {
    if i < |pulses| then pulses[i] else SMOOTH
  }

  // What the driver says during one tick.
  datatype Answers = Answers(
    healthy: bool, retryDue: bool, recovered: bool, reenabled: bool,
    idle: Pulse, hot: bool, pulses: seq<Pulse>, confirmLost: nat)
  {
    ghost predicate Nominal() {
      && healthy && !hot && idle == SMOOTH && confirmLost == 0
      && forall i: nat :: AnswerTo(pulses, i) == SMOOTH
    }
  }

  // Of n pulses, how many the driver takes before it refuses one or asks to stop.
  function Smooth(pulses: seq<Pulse>, i: nat, n: nat): (k: nat)
    ensures i <= n ==> i <= k <= n
    ensures i <= k < n ==> !AnswerTo(pulses, k).stepped || AnswerTo(pulses, k).stop
    ensures forall j: nat :: i <= j < k ==> AnswerTo(pulses, j).stepped && !AnswerTo(pulses, j).stop
    decreases n - i
  {
    if i >= n then n
    else if !AnswerTo(pulses, i).stepped || AnswerTo(pulses, i).stop then i
    else Smooth(pulses, i + 1, n)
  }

  predicate Active(mode: Mode) { mode != Idle }

  // ---------- what one tick comes to, whatever the driver says ----------

  // The motor after it, the step losses counted on the way, and whether a safety
  // stop ended the move.
  datatype Upshot = Upshot(motor: Motor, lost: nat, stopped: bool)

  function Advanced(m: Motor, steps: nat): Motor {
    m.(position := if m.target > m.position then m.position + steps else m.position - steps)
  }

  // The losses the driver counts over the first n pulses.
  function Lost(pulses: seq<Pulse>, n: nat): nat {
    if n == 0 then 0 else Lost(pulses, n - 1) + AnswerTo(pulses, n - 1).lost
  }

  // The move ends where the motor is: after a stop it stays energised, a refusal
  // disables it.
  function Halted(m: Motor, stop: bool): Motor {
    var still := m.(target := m.position, mode := Idle, hold := 0.0, retractAfterHold := false);
    if stop then still.(retractTarget := m.position, hz := 0.0, fractional := 0.0) else still.(enabled := false)
  }

  // The pulse that ends the move: the last one tried, taken or not. A refusal
  // nobody counted is counted as one loss; after a stop the driver compares positions.
  function Broken(m: Motor, k: nat, a: Answers): Upshot {
    var p := AnswerTo(a.pulses, k);
    var issued := if p.stepped then k + 1 else k;
    Upshot(Halted(Advanced(m, issued), p.stop),
           Lost(a.pulses, k + 1) + (if !p.stop && p.lost == 0 then 1 else 0)
                                 + (if p.stop && issued > 0 then a.confirmLost else 0),
           true)
  }

  // n due pulses: all taken, or those before the first one that ends the move.
  function Pulsed(m: Motor, n: nat, a: Answers): Upshot {
    var k := Smooth(a.pulses, 0, n);
    if k < n then Broken(m, k, a)
    else Upshot(Advanced(m, n), Lost(a.pulses, n) + (if n > 0 && n == Remaining(m) then a.confirmLost else 0), false)
  }

  function Settled(m: Motor): Motor {
    if m.position != m.target then m
    else if m.mode == Idle then m.(fractional := 0.0, hz := 0.0)
    else Arrived(m.(fractional := 0.0))
  }

  // The ramped rate's travel is added to what is due.
  function DueTravel(m: Motor, l: Limits, dt: real, brake: real): real {
    m.fractional + Travel(RampedHz(m, dt, brake), l.microstep, dt)
  }

  // Whole microsteps of it are issued, as far as the target.
  function DueSteps(m: Motor, l: Limits, dt: real, brake: real): nat {
    var steps := DueTravel(m, l, dt, brake).Floor;
    if steps < 0 then 0 else Fewer(steps, Remaining(m))
  }

  function Fewer(a: nat, b: nat): nat { if a > b then b else a }

  // The motor with its new rate and the part of a microstep left over.
  function Paced(m: Motor, l: Limits, dt: real, brake: real): Motor {
    var due := DueTravel(m, l, dt, brake);
    m.(hz := RampedHz(m, dt, brake), fractional := due - due.Floor as real)
  }

  function AtRest(u: Upshot): Upshot { u.(motor := Settled(u.motor)) }

  function MovingTick(m: Motor, l: Limits, dt: real, brake: real, a: Answers): Upshot {
    AtRest(Pulsed(Paced(m, l, dt, brake), DueSteps(m, l, dt, brake), a))
  }

  // A faulty idle driver is retried; one that holds the motor still is asked for losses.
  function Polled(m: Motor, a: Answers): Upshot {
    if !a.healthy && m.mode == Idle then
      if !a.retryDue then Upshot(m, 0, false)
      else Upshot(if a.recovered && m.enabled then m.(enabled := a.reenabled) else m, a.idle.lost, false)
    else if m.enabled && m.mode in {Idle, Holding} then
      if a.idle.stop && m.mode == Holding then Upshot(Halted(m, true), a.idle.lost, true)
      else Upshot(m, a.idle.lost, false)
    else Upshot(m, 0, false)
  }

  function Overheated(m: Motor): Motor {
    Halted(m, false).(retractTarget := m.position, hz := 0.0, fractional := 0.0)
  }

  function ModeTick(m: Motor, l: Limits, dt: real, brake: real, a: Answers): Upshot {
    if m.mode in {Moving, Retracting} && m.position != m.target then MovingTick(m, l, dt, brake, a)
    else Upshot(NominalTick(m, l, dt, brake), 0, false)
  }

  function TickUpshot(m: Motor, l: Limits, dt: real, brake: real, a: Answers): Upshot {
    if dt <= 0.0 then Upshot(m, 0, false)
    else
      var p := Polled(m, a);
      if p.stopped then p
      else if p.motor.enabled && a.hot then Upshot(Overheated(p.motor), p.lost + 1, true)
      else
        var t := ModeTick(p.motor, l, dt, brake, a);
        t.(lost := p.lost + t.lost)
  }

  lemma {:induction false} SmoothPulsesLoseNothing(pulses: seq<Pulse>, n: nat)
    requires forall i: nat :: AnswerTo(pulses, i) == SMOOTH
    ensures Lost(pulses, n) == 0 && Smooth(pulses, 0, n) == n
  {
    if n > 0 { SmoothPulsesLoseNothing(pulses, n - 1); }
  }

  // With a driver that takes every step it is the nominal tick.
  lemma NominalUpshot(m: Motor, l: Limits, dt: real, brake: real, a: Answers)
    requires MotorOk(m, l) && dt > 0.0 && brake >= 0.0 && a.Nominal()
    ensures TickUpshot(m, l, dt, brake, a) == Upshot(NominalTick(m, l, dt, brake), 0, false)
  {
    if m.mode in {Moving, Retracting} && m.position != m.target {
      var n := DueSteps(m, l, dt, brake);
      SmoothPulsesLoseNothing(a.pulses, n);
      assert Pulsed(Paced(m, l, dt, brake), n, a) == Upshot(Advanced(Paced(m, l, dt, brake), n), 0, false);
      NominalMove(m, l, dt, brake);
    }
  }

  // Issuing every due pulse and settling is the nominal tick.
  lemma NominalMove(m: Motor, l: Limits, dt: real, brake: real)
    requires MotorOk(m, l) && m.mode in {Moving, Retracting} && m.position != m.target && dt > 0.0 && brake >= 0.0
    ensures DueTravel(m, l, dt, brake) >= 0.0
    ensures Settled(Advanced(Paced(m, l, dt, brake), DueSteps(m, l, dt, brake))) == NominalTick(m, l, dt, brake)
  {
    TravelPositive(RampedHz(m, dt, brake), l.microstep, dt);
  }

  // The first of the due pulses that the driver refuses or stops at ends the move
  // at the step it got to; a refusal disables the motor and is a loss.
  lemma BadPulseEndsMove(m: Motor, l: Limits, dt: real, brake: real, a: Answers, k: nat)
    requires dt > 0.0 && !a.hot && m.mode in {Moving, Retracting} && m.position != m.target
    requires k < DueSteps(m, l, dt, brake) && Smooth(a.pulses, 0, DueSteps(m, l, dt, brake)) == k
    ensures var u, p := TickUpshot(m, l, dt, brake, a), AnswerTo(a.pulses, k);
      && u.stopped && u.motor.mode == Idle && u.motor.enabled == (m.enabled && p.stop)
      && u.motor.position == u.motor.target == Advanced(m, if p.stepped then k + 1 else k).position
      && u.lost >= Lost(a.pulses, k + 1) && (!p.stop ==> u.lost >= 1)
  {
    assert TickUpshot(m, l, dt, brake, a) == MovingTick(m, l, dt, brake, a);
    BrokenAtRest(Paced(m, l, dt, brake), k, a);
  }

  lemma BrokenAtRest(m: Motor, k: nat, a: Answers)
    ensures var u, p := AtRest(Broken(m, k, a)), AnswerTo(a.pulses, k);
      && u.stopped && u.motor.mode == Idle && u.motor.enabled == (m.enabled && p.stop)
      && u.motor.position == u.motor.target == Advanced(m, if p.stepped then k + 1 else k).position
      && u.lost >= Lost(a.pulses, k + 1) && (!p.stop ==> u.lost >= 1)
  {
    assert Lost(a.pulses, k + 1) >= AnswerTo(a.pulses, k).lost;
  }

  class StepperChannel {
    const id: nat
    const limits: Limits
    const maxAccel: real
    const pullTravel: int     // microsteps
    const pullHold: real
    const lock: MotionLock

    var position: int
    var target: int
    var stepHz: real
    var hz: real
    var accel: real
    var enabled: bool
    var moving: bool
    var hold: real
    var mode: Mode
    var lockHeld: bool
    var retractTarget: int
    var retractAfterHold: bool
    var fractional: real
    var losses: nat
    var uncertain: bool
    var aborted: bool         // a safety stop has ended a move, and no command has come since

    ghost function State(): Motor
      reads this
    {
      Motor(position, target, stepHz, hz, accel, enabled, mode, hold, retractTarget, retractAfterHold, fractional)
    }

    ghost predicate Valid()
      reads this, lock
    {
      && MotorOk(State(), limits)
      && moving == (mode == Moving || mode == Retracting)
      && lockHeld == (lock.holder == id)
      && (Active(mode) ==> lockHeld)
    }

    // The lock changes hands only between nobody and this motor.
    twostate predicate LockOnlyOurs()
      reads lock
    {
      lock.holder != old(lock.holder) ==>
        (old(lock.holder) == NOBODY && lock.holder == id) || (old(lock.holder) == id && lock.holder == NOBODY)
    }

    constructor (id: nat, limits: Limits, defaultHz: real, accel: real, maxAccel: real, pullTravel: int,
                 pullHold: real, enableOnBoot: bool, lock: MotionLock)
      requires limits.Valid() && accel > 0.0 && pullHold >= 0.0 && lock.holder != id
      ensures Valid() && this.lock == lock && this.id == id && this.limits == limits && !lockHeld && mode == Idle
      ensures this.pullTravel == pullTravel && this.pullHold == pullHold && position == target == 0 && !aborted
      ensures enabled == enableOnBoot && this.maxAccel == maxAccel && this.accel == accel
      ensures hz == 0.0 && !uncertain && losses == 0
      ensures stepHz == if 0.0 < defaultHz <= limits.maxHz then defaultHz else limits.maxHz
    {
      this.id, this.limits, this.maxAccel, this.lock := id, limits, maxAccel, lock;
      this.pullTravel, this.pullHold := pullTravel, pullHold;
      position, target, retractTarget, retractAfterHold := 0, 0, 0, false;
      stepHz := if defaultHz > limits.maxHz || defaultHz <= 0.0 then limits.maxHz else defaultHz;
      hz, fractional, hold, this.accel := 0.0, 0.0, 0.0, accel;
      enabled, moving, mode, lockHeld := enableOnBoot, false, Idle, false;
      losses, uncertain, aborted := 0, false, false;
    }

    // ---------- the lock ----------

    method ReleaseLockIfHeld()
      requires lockHeld ==> lock.holder == id
      modifies this`lockHeld, lock
      ensures !lockHeld && LockOnlyOurs()
      ensures lock.holder == if old(lockHeld) then NOBODY else old(lock.holder)
    {
      if lockHeld {
        lock.Release(id);
        lockHeld := false;
      }
    }

    ghost predicate MayMove()
      reads this, lock
    {
      lockHeld || lock.holder == NOBODY
    }

    method AcquireLockForMotion() returns (ok: bool)
      requires lockHeld ==> lock.holder == id
      modifies this`lockHeld, lock
      ensures ok == old(MayMove()) && lockHeld == ok && LockOnlyOurs()
      ensures ok ==> lock.holder == id
      ensures !ok ==> lock.holder == old(lock.holder)
    {
      if lockHeld { return true; }
      var taken := lock.TryAcquire(id);
      if !taken { return false; }
      lockHeld := true;
      ok := true;
    }

    // ---------- step loss ----------

    twostate predicate LossesLatched()
      reads this
    {
      losses >= old(losses) && uncertain == (old(uncertain) || losses > old(losses))
    }

    method Absorb(lost: nat)
      modifies this`losses, this`uncertain
      ensures losses == old(losses) + lost && LossesLatched()
    {
      if lost != 0 {
        losses := losses + lost;
        uncertain := true;
      }
    }

    method LatchStepLoss()
      modifies this`losses, this`uncertain
      ensures losses == old(losses) + 1 && uncertain && LossesLatched()
    {
      losses := losses + 1;
      uncertain := true;
    }

    method AcknowledgeStepLoss()
      modifies this`uncertain
      ensures !uncertain
    {
      uncertain := false;
    }

    // At rest where the motor is, with the lock given back.
    twostate predicate StoppedHere()
      reads this, lock
    {
      && mode == Idle && !moving && target == position && position == old(position) && hold == 0.0
      && !retractAfterHold && !lockHeld && stepHz == old(stepHz) && accel == old(accel)
      && lock.holder == if old(lockHeld) then NOBODY else old(lock.holder)
    }

    method Halt()
      modifies this`target, this`moving, this`mode, this`hold, this`retractAfterHold
      ensures State() == old(State()).(target := position, mode := Idle, hold := 0.0, retractAfterHold := false)
      ensures !moving
    {
      target, hold, retractAfterHold := position, 0.0, false;
      moving, mode := false, Idle;
    }

    // The end of a move, for safety's sake or by command.
    method EndMove(safety: bool)
      requires Valid()
      modifies this, lock
      ensures Valid() && StoppedHere() && hz == fractional == 0.0 && retractTarget == position && enabled == old(enabled)
      ensures State() == Halted(old(State()), true)
      ensures losses == old(losses) && uncertain == old(uncertain) && LockOnlyOurs() && aborted == safety
    {
      Halt();
      retractTarget, hz, fractional, aborted := position, 0.0, 0.0, safety;
      ReleaseLockIfHeld();
    }

    method AbortMoveForStepLoss()
      requires Valid()
      modifies this, lock
      ensures Valid() && StoppedHere() && State() == Halted(old(State()), true) && aborted
      ensures losses == old(losses) && uncertain == old(uncertain) && LockOnlyOurs()
    {
      EndMove(true);
    }

    // Unless a safety stop has ended the move, it still ends where it was to end.
    twostate predicate OnCourse()
      reads this
    {
      (old(aborted) ==> aborted) && (!aborted ==> Goal(State()) == old(Goal(State())))
    }

    // De-energised mid-move: the driver refused, or cut its power stage.
    method Refused()
      requires Valid()
      modifies this, lock
      ensures Valid() && StoppedHere() && State() == Halted(old(State()), false) && aborted
      ensures losses == old(losses) && uncertain == old(uncertain) && LockOnlyOurs()
    {
      enabled, aborted := false, true;
      Halt();
      ReleaseLockIfHeld();
    }

    // ---------- pulses ----------

    method UpdateRampSpeed(dt: real, brake: real)
      requires Valid() && mode in {Moving, Retracting} && dt > 0.0 && brake >= 0.0
      modifies this`hz
      ensures Valid() && hz == old(RampedHz(State(), dt, brake))
    {
      var goal := if brake < stepHz then brake else stepHz;
      var next := hz;
      if next < goal {
        next := next + accel * dt;
        if next > goal { next := goal; }
      } else if next > goal {
        next := next - accel * dt;
        if next < goal { next := goal; }
      }
      // The ramp stays within these bounds by itself.
      hz := if next < 0.0 then 0.0 else if next > limits.maxHz then limits.maxHz else next;
    }

    // One step towards the target per pulse the driver takes; stops for good at
    // the first one it refuses or asks to stop at.
    method IssuePulses(allowed: nat, a: Answers)
      requires Valid() && mode in {Moving, Retracting} && position != target
      modifies this, lock
      ensures Valid() && LockOnlyOurs() && LossesLatched() && OnCourse() && (mode == Idle ==> lock.holder == NOBODY)
      ensures CameTo(Pulsed(old(State()), Fewer(allowed, old(Remaining(State()))), a))
      ensures mode != Idle ==> lockHeld
    {
      ghost var start := State();
      var remaining := Abs(target - position);
      var n := if allowed > remaining then remaining else allowed;
      for i := 0 to n
        invariant Valid() && LockOnlyOurs() && LossesLatched() && lockHeld && aborted == old(aborted)
        invariant State() == Advanced(start, i) && Smooth(a.pulses, 0, n) == Smooth(a.pulses, i, n)
        invariant losses == old(losses) + Lost(a.pulses, i)
      {
        var stopped := IssueNext(start, i, n, a);
        if stopped { return; }
      }
      ConfirmTarget(n, a.confirmLost);
    }

    // The motor, the losses and the safety flag after what came of it.
    twostate predicate CameTo(u: Upshot)
      reads this
    {
      State() == u.motor && losses == old(losses) + u.lost && aborted == (old(aborted) || u.stopped)
    }

    method IssueNext(ghost start: Motor, i: nat, n: nat, a: Answers) returns (stopped: bool)
      requires Valid() && start.mode in {Moving, Retracting} && lockHeld
      requires i < n <= Remaining(start) && State() == Advanced(start, i)
      requires Smooth(a.pulses, 0, n) == Smooth(a.pulses, i, n)
      modifies this, lock
      ensures Valid() && LockOnlyOurs() && LossesLatched()
      ensures stopped ==> Pulsed(start, n, a).stopped && State() == Pulsed(start, n, a).motor && aborted
      ensures stopped ==> losses + Lost(a.pulses, i) == old(losses) + Pulsed(start, n, a).lost && lock.holder == NOBODY
      ensures !stopped ==> lockHeld && aborted == old(aborted) && State() == Advanced(start, i + 1)
      ensures !stopped ==> losses == old(losses) + AnswerTo(a.pulses, i).lost
      ensures !stopped ==> Smooth(a.pulses, 0, n) == Smooth(a.pulses, i + 1, n)
    {
      var p := AnswerTo(a.pulses, i);
      stopped := IssueOne(target > position, p);
      if stopped { ConfirmTarget(if p.stepped then i + 1 else i, a.confirmLost); }
    }

    // At the end of the leg the driver compares its own position with ours.
    method ConfirmTarget(issued: nat, lost: nat)
      modifies this`losses, this`uncertain
      ensures LossesLatched()
      ensures losses == old(losses) + if issued > 0 && enabled && position == target then lost else 0
    {
      if issued > 0 && enabled && position == target { Absorb(lost); }
    }

    method IssueOne(forward: bool, p: Pulse) returns (stopped: bool)
      requires Valid() && mode in {Moving, Retracting} && forward == (target > position) && target != position
      modifies this, lock
      ensures Valid() && LockOnlyOurs() && LossesLatched()
      ensures stopped <==> !p.stepped || p.stop
      ensures position == old(position) + if !p.stepped then 0 else if forward then 1 else -1
      ensures !stopped ==> State() == old(State()).(position := position) && moving && lockHeld && aborted == old(aborted)
      ensures !stopped ==> losses == old(losses) + p.lost
      ensures stopped ==> State() == Halted(old(State()).(position := position), p.stop) && lock.holder == NOBODY && aborted
      ensures stopped ==> losses == old(losses) + p.lost + if !p.stop && p.lost == 0 then 1 else 0
    {
      Absorb(p.lost);
      if p.stepped { position := position + if forward then 1 else -1; }
      if p.stop {
        AbortMoveForStepLoss();
        return true;
      }
      if !p.stepped {
        if p.lost == 0 { LatchStepLoss(); }
        Refused();
        return true;
      }
      stopped := false;
    }

    // ---------- the tick ----------

    // What a tick may do to a motor whatever its driver says: it never starts
    // one, never passes the target, and gives the lock back on coming to rest.
    twostate predicate Ticked()
      reads this, lock
    {
      && Valid() && LockOnlyOurs() && LossesLatched() && OnCourse()
      && Between(old(position), position, old(target))
      && (old(mode) == Idle ==> mode == Idle && position == old(position) && (lockHeld ==> old(lockHeld)))
      && (old(mode) == Idle && (enabled || !old(enabled)) ==> lockHeld == old(lockHeld))
      && (old(mode) != Idle && mode == Idle ==> !lockHeld && lock.holder == NOBODY)
      && (mode != Idle ==> lockHeld)
    }

    method Tick(dt: real, brake: real, a: Answers)
      requires Valid() && BrakeRate(brake, accel, Remaining(State()), limits.microstep)
      modifies this, lock
      ensures Ticked()
      // And exactly what it does, whatever the driver says.
      ensures CameTo(TickUpshot(old(State()), limits, dt, brake, a))
      ensures dt > 0.0 && a.Nominal() ==> State() == NominalTick(old(State()), limits, dt, brake)
      // A driver too hot to drive is switched off at once.
      ensures dt > 0.0 && a.hot && a.healthy && old(enabled) ==> mode == Idle && aborted && (!enabled ==> uncertain)
    {
      if dt > 0.0 && a.Nominal() { NominalUpshot(State(), limits, dt, brake, a); }
      if dt <= 0.0 { return; }
      var ended := Poll(a);
      if ended { return; }
      var off := SwitchOffIfHot(a.hot);
      if off { return; }
      TickMode(dt, brake, a);
    }

    method SwitchOffIfHot(hot: bool) returns (off: bool)
      requires Valid()
      modifies this, lock
      ensures Ticked() && position == old(position)
      ensures off == (old(enabled) && hot)
      ensures off ==> State() == Overheated(old(State())) && losses == old(losses) + 1 && aborted
      ensures !off ==> State() == old(State()) && lockHeld == old(lockHeld) && lock.holder == old(lock.holder)
      ensures !off ==> losses == old(losses) && aborted == old(aborted)
    {
      if !enabled || !hot { return false; }
      LatchStepLoss();
      retractTarget, hz, fractional := position, 0.0, 0.0;
      Refused();
      off := true;
    }

    method TickMode(dt: real, brake: real, a: Answers)
      requires Valid() && dt > 0.0 && BrakeRate(brake, accel, Remaining(State()), limits.microstep)
      modifies this, lock
      ensures Ticked() && CameTo(ModeTick(old(State()), limits, dt, brake, a))
    {
      match mode
      case Holding => TickHolding(dt);
      case Idle => moving, hz := false, 0.0;
      case _ =>
        if position == target { EndLeg(); } else { TickMoving(dt, brake, a); }
    }

    // A faulty idle driver is retried; a driver that holds the motor still is
    // asked for losses, and a stop it asks for ends the hold.
    method Poll(a: Answers) returns (ended: bool)
      requires Valid()
      modifies this, lock
      ensures Ticked() && position == old(position)
      ensures CameTo(Polled(old(State()), a)) && ended == Polled(old(State()), a).stopped
      ensures !ended ==> lockHeld == old(lockHeld)
    {
      ended := false;
      if !a.healthy && mode == Idle {
        if a.retryDue {
          if a.recovered && enabled { enabled := a.reenabled; }
          Absorb(a.idle.lost);
        }
      } else if enabled && (mode == Idle || mode == Holding) {
        Absorb(a.idle.lost);
        if a.idle.stop && mode == Holding {
          AbortMoveForStepLoss();
          ended := true;
        }
      }
    }

    method TickHolding(dt: real)
      requires Valid() && mode == Holding && dt > 0.0
      modifies this, lock
      ensures Ticked() && position == old(position) && losses == old(losses) && aborted == old(aborted)
      ensures State() == if old(hold) > dt then old(State()).(hold := old(hold) - dt) else HoldOver(old(State()))
    {
      hold := if hold > dt then hold - dt else 0.0;
      if hold <= 0.0 {
        EndHold();
      }
    }

    method EndHold()
      requires Valid() && mode == Holding && hold == 0.0
      modifies this`target, this`mode, this`moving, this`hz, this`fractional, this`retractAfterHold, this`lockHeld, lock
      ensures Ticked() && State() == HoldOver(old(State()))
    {
      if retractAfterHold {
        target := retractTarget;
        mode := if position != target then Retracting else Idle;
      } else {
        mode := Idle;
      }
      moving := mode != Idle;
      fractional, hz := 0.0, 0.0;
      if mode == Idle {
        retractAfterHold := false;
        ReleaseLockIfHeld();
      }
    }

    // A finished leg: on to the hold if there is one, else to rest.
    method EndLeg()
      requires Valid() && mode in {Moving, Retracting} && position == target
      modifies this, lock
      ensures Ticked() && State() == Arrived(old(State())) && position == old(position)
      ensures losses == old(losses) && uncertain == old(uncertain) && aborted == old(aborted)
    {
      moving, hz := false, 0.0;
      if mode == Moving && hold > 0.0 {
        mode := Holding;
        return;
      }
      if mode == Retracting { retractAfterHold := false; }
      mode := Idle;
      ReleaseLockIfHeld();
    }

    method TickMoving(dt: real, brake: real, a: Answers)
      requires Valid() && mode in {Moving, Retracting} && position != target && dt > 0.0
      requires BrakeRate(brake, accel, Remaining(State()), limits.microstep)
      modifies this, lock
      ensures Ticked() && CameTo(MovingTick(old(State()), limits, dt, brake, a))
    {
      var toIssue := Accelerate(dt, brake);
      StepAndSettle(toIssue, a);
    }

    method StepAndSettle(toIssue: nat, a: Answers)
      requires Valid() && mode in {Moving, Retracting} && position != target
      modifies this, lock
      ensures Ticked()
      ensures CameTo(AtRest(Pulsed(old(State()), Fewer(toIssue, old(Remaining(State()))), a)))
    {
      IssuePulses(toIssue, a);
      SettleLeg();
    }

    // The ramped rate's travel is added to what is due; whole microsteps are issued.
    method Accelerate(dt: real, brake: real) returns (toIssue: nat)
      requires Valid() && mode in {Moving, Retracting} && dt > 0.0 && brake >= 0.0
      modifies this`hz, this`fractional
      ensures Valid()
      ensures State() == Paced(old(State()), limits, dt, brake)
      ensures toIssue == DueTravel(old(State()), limits, dt, brake).Floor
    {
      UpdateRampSpeed(dt, brake);
      TravelPositive(hz, limits.microstep, dt);
      fractional := fractional + Travel(hz, limits.microstep, dt);
      toIssue := fractional.Floor;
      fractional := fractional - toIssue as real;
    }

    // Whether the leg is over after this tick's pulses.
    method SettleLeg()
      requires Valid() && (mode == Idle ==> position == target && !lockHeld) && mode != Holding
      modifies this`moving, this`fractional, this`hz, this`mode, this`retractAfterHold, this`lockHeld, lock
      ensures Valid() && LockOnlyOurs() && OnCourse() && (mode == Idle ==> !lockHeld)
      ensures old(mode) != Idle && mode == Idle ==> lock.holder == NOBODY
      ensures mode == Idle && old(mode) == Idle ==> lock.holder == old(lock.holder)
      ensures State() == Settled(old(State()))
    {
      moving := position != target;
      if !moving {
        fractional, hz := 0.0, 0.0;
        if mode == Moving && hold > 0.0 {
          mode := Holding;
        } else {
          if mode == Retracting { retractAfterHold := false; }
          mode := Idle;
          ReleaseLockIfHeld();
        }
      }
    }

    // ---------- commands ----------

    // A command that is refused changes nothing.
    twostate predicate Untouched()
      reads this, lock
    {
      && State() == old(State()) && lockHeld == old(lockHeld) && moving == old(moving)
      && lock.holder == old(lock.holder) && aborted == old(aborted)
    }

    // Sets out for `to`, or stands if it is there. The lock is taken for a move
    // or a hold, and never given back here: standing still keeps it if it was held.
    method SetOut(to: int, holdFor: real, back: int, standing: Mode)
      requires Valid() && enabled && holdFor >= 0.0 && standing in {Idle, Holding}
      requires Abs(to) <= limits.maxPosition && Abs(back) <= limits.maxPosition
      requires to != position || standing == Holding ==> lockHeld
      modifies this`target, this`hold, this`retractTarget, this`retractAfterHold, this`mode, this`moving, this`aborted
      ensures Valid() && !aborted
      ensures State() == old(State()).(target := to, hold := holdFor, retractTarget := back, retractAfterHold := false,
                                       mode := if position != to then Moving else standing)
    {
      target, hold, retractTarget, retractAfterHold := to, holdFor, back, false;
      mode := if position != target then Moving else standing;
      moving, aborted := mode == Moving, false;
    }

    // Relative to the present target. A retarget to where the motor stands ends
    // the move without giving the lock back.
    method MoveSteps(delta: int) returns (ok: bool)
      requires Valid()
      modifies this, lock
      ensures Valid() && LockOnlyOurs()
      ensures ok <==>
        old(enabled && Abs(target + delta) <= limits.maxPosition && (target + delta == position || MayMove()))
      ensures !ok ==> Untouched()
      ensures ok ==>
        State() == old(State()).(target := old(target) + delta, hold := 0.0,
                                 retractTarget := position, retractAfterHold := false,
                                 mode := if position != target then Moving else Idle)
      ensures ok ==> !aborted && lockHeld == (old(lockHeld) || position != target)
      ensures losses == old(losses) && uncertain == old(uncertain)
    {
      if !enabled { return false; }
      var to := target + delta;
      if Abs(to) > limits.maxPosition { return false; }
      if to != position {
        ok := AcquireLockForMotion();
        if !ok { return; }
      }
      SetOut(to, 0.0, position, Idle);
      ok := true;
    }

    method MoveToSteps(to: int, holdFor: real) returns (ok: bool)
      requires Valid()
      modifies this, lock
      ensures Valid() && LockOnlyOurs()
      ensures ok <==> old(enabled && Abs(to) <= limits.maxPosition && holdFor >= 0.0
                          && ((position == to && holdFor == 0.0) || MayMove()))
      ensures !ok ==> Untouched()
      ensures ok ==>
        State() == old(State()).(target := to, hold := holdFor, retractTarget := position, retractAfterHold := false,
                                 mode := if position != to then Moving else if holdFor > 0.0 then Holding else Idle)
      ensures ok ==> !aborted && lockHeld == (old(lockHeld) || mode != Idle)
      ensures losses == old(losses) && uncertain == old(uncertain)
    {
      if !enabled { return false; }
      if Abs(to) > limits.maxPosition { return false; }
      if holdFor < 0.0 { return false; }
      if position != to || holdFor > 0.0 {
        ok := AcquireLockForMotion();
        if !ok { return; }
      }
      SetOut(to, holdFor, position, if holdFor > 0.0 then Holding else Idle);
      ok := true;
    }

    method Home() returns (ok: bool)
      requires Valid()
      modifies this, lock
      ensures Valid() && LockOnlyOurs()
      ensures ok <==> old(enabled && (position == 0 || MayMove()))
      ensures !ok ==> Untouched()
      ensures ok ==>
        State() == old(State()).(target := 0, hold := 0.0, retractTarget := 0, retractAfterHold := false,
                                 mode := if position != 0 then Moving else Idle)
      ensures ok ==> !aborted && lockHeld == (old(lockHeld) || mode != Idle)
      ensures losses == old(losses) && uncertain == old(uncertain)
    {
      if !enabled { return false; }
      if position != 0 {
        ok := AcquireLockForMotion();
        if !ok { return; }
      }
      SetOut(0, 0.0, 0, Idle);
      ok := true;
    }

    // A pull goes out, holds and comes back to 0. It needs a free lock: a motor
    // that still has the lock itself is refused too.
    method ArmPullCycle() returns (ok: bool)
      requires Valid() && pullHold >= 0.0
      modifies this, lock
      ensures Valid() && LockOnlyOurs()
      ensures ok <==> old(enabled && lock.holder == NOBODY) && Abs(pullTravel) <= limits.maxPosition
      ensures !ok ==> lock.holder == old(lock.holder) && lockHeld == old(lockHeld)
      ensures !ok ==> State() == if old(enabled && lock.holder == NOBODY)
                                 then old(State()).(retractTarget := 0, retractAfterHold := true) else old(State())
      ensures aborted == (old(aborted) && !ok)
      ensures ok ==>
        State() == old(State()).(target := pullTravel, hold := pullHold, retractTarget := 0, retractAfterHold := true,
                                 mode := if position != pullTravel then Moving else Holding, stepHz := limits.maxHz)
      ensures ok ==> lockHeld
      ensures losses == old(losses) && uncertain == old(uncertain)
    {
      if !enabled { return false; }
      ok := lock.TryAcquire(id);
      if !ok { return; }
      lockHeld := true;
      retractTarget, retractAfterHold := 0, true;
      if Abs(pullTravel) > limits.maxPosition {
        ReleaseLockIfHeld();
        return false;
      }
      SetOut(pullTravel, pullHold, 0, Holding);
      retractAfterHold, stepHz := true, limits.maxHz;
    }

    method SetPositionZero()
      requires Valid()
      modifies this, lock
      ensures Valid() && LockOnlyOurs() && mode == Idle && position == target == retractTarget == 0
      ensures !uncertain && !aborted && !lockHeld && lock.holder == if old(lockHeld) then NOBODY else old(lock.holder)
      ensures hz == fractional == hold == 0.0 && enabled == old(enabled) && stepHz == old(stepHz) && losses == old(losses)
      ensures State() == Halted(old(State()).(position := 0), true)
    {
      position := 0;
      uncertain := false;
      EndMove(false);
    }

    method Stop()
      requires Valid()
      modifies this, lock
      ensures Valid() && LockOnlyOurs() && StoppedHere() && hz == fractional == 0.0 && enabled == old(enabled)
      ensures State() == Halted(old(State()), true)
      ensures losses == old(losses) && uncertain == old(uncertain) && !aborted
    {
      EndMove(false);
    }

    // Switching off ends any move and gives the lock back even when the driver
    // reports a failure; switching on needs the driver.
    method SetEnabled(enable: bool, driverOk: bool) returns (ok: bool)
      requires Valid()
      modifies this, lock
      ensures Valid() && LockOnlyOurs() && LossesLatched() && ok == driverOk && position == old(position)
      ensures !enable ==> State() == old(State()).(enabled := false, mode := Idle, hz := 0.0) && !lockHeld
      ensures losses == old(losses) + if !enable && old(mode) in {Moving, Retracting} then 1 else 0
      ensures aborted == old(aborted)
      ensures !enable ==> lock.holder == if old(lockHeld) then NOBODY else old(lock.holder)
      ensures enable ==> State() == old(State()).(enabled := old(enabled) || driverOk) && lockHeld == old(lockHeld)
                         && lock.holder == old(lock.holder)
    {
      if !enable {
        if mode == Moving || mode == Retracting { LatchStepLoss(); }
        enabled, moving, mode, hz := false, false, Idle, 0.0;
        ReleaseLockIfHeld();
        return driverOk;
      }
      if !driverOk { return false; }
      enabled := true;
      ok := true;
    }

    method SetSpeed(fullStepHz: real) returns (ok: bool)
      requires Valid()
      modifies this`stepHz
      ensures Valid() && (ok <==> fullStepHz > 0.0)
      ensures stepHz == if ok then RMin(fullStepHz, limits.maxHz) else old(stepHz)
    {
      if fullStepHz <= 0.0 { return false; }
      stepHz := if fullStepHz > limits.maxHz then limits.maxHz else fullStepHz;
      ok := true;
    }

    method SetAccel(slope: real) returns (ok: bool)
      requires Valid()
      modifies this`accel
      ensures Valid() && (ok <==> 0.0 < slope <= maxAccel)
      ensures accel == if ok then slope else old(accel)
    {
      if slope <= 0.0 { return false; }
      if slope > maxAccel { return false; }
      accel := slope;
      ok := true;
    }

    // Idle does not mean that the lock is free: a move retargeted to where the
    // motor stands ends Idle with the lock still held.
    method RetargetKeepsLock()
      requires Valid() && mode == Moving
      modifies this, lock
      ensures Valid() && mode == Idle && lockHeld && lock.holder == id
    {
      var ok := MoveSteps(position - target);
    }
  }

  // One tick after another with a driver that takes every step, and no command in
  // between: the motor comes to rest at its goal within its rank, and the lock it
  // moved with is free.
  method LeaveAlone(c: StepperChannel, dt: real, sqrt: real -> real, ticks: seq<Answers>, ghost slow: real)
    requires c.Valid() && dt > 0.0 && SlowestHz(slow, c.State(), c.limits, dt)
    requires forall x :: x >= 0.0 ==> IsRoot(sqrt(x), x)
    requires forall i :: 0 <= i < |ticks| ==> ticks[i].Nominal()
    modifies c, c.lock
    ensures c.Valid() && Goal(c.State()) == old(Goal(c.State()))
    ensures Travel(slow, c.limits.microstep, dt) > 0.0
    ensures |ticks| >= old(Rank(c.State(), Travel(slow, c.limits.microstep, dt), dt)) ==>
      c.mode == Idle && c.position == old(Goal(c.State()))
    ensures old(c.mode) != Idle && c.mode == Idle ==> c.lock.holder == NOBODY
  {
    ghost var start := c.State();
    TravelPositive(slow, c.limits.microstep, dt);
    ghost var pace := Travel(slow, c.limits.microstep, dt);
    for i := 0 to |ticks|
      invariant c.Valid() && Goal(c.State()) == Goal(start) && SlowestHz(slow, c.State(), c.limits, dt)
      invariant c.mode == Idle || Rank(c.State(), pace, dt) + i <= Rank(start, pace, dt)
      invariant start.mode != Idle && c.mode == Idle ==> c.lock.holder == NOBODY
    {
      BrakeSquaredNatural(c.accel, Remaining(c.State()), c.limits.microstep);
      var brake := sqrt(BrakeSquared(c.accel, Abs(c.target - c.position), c.limits.microstep));
      TickKeepsMotor(c.State(), c.limits, dt, brake, slow);
      if c.mode != Idle { TickLowersRank(c.State(), c.limits, dt, brake, slow); }
      c.Tick(dt, brake, ticks[i]);
    }
  }

  predicate IsRoot(r: real, x: real) { r >= 0.0 && r * r == x }

  lemma BrakeSquaredNatural(accel: real, remaining: nat, microstep: nat)
    requires accel > 0.0 && microstep >= 1
    ensures BrakeSquared(accel, remaining, microstep) >= 0.0
  {
    assert remaining as real / microstep as real >= 0.0;
  }
}
