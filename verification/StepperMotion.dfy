// One motor as a value: the four-mode machine, the ramp, and how long a move
// takes when the driver accepts every step and nobody commands anything else.
module StepperMotion {
  import opened Reals

  datatype Mode = Idle | Moving | Holding | Retracting

  // Limits that never change, in microsteps except maxHz (full steps per second).
  datatype Limits = Limits(maxHz: real, microstep: nat, maxPosition: nat) {
    predicate Valid() { maxHz > 0.0 && microstep >= 1 }
  }

  datatype Motor = Motor(
    position: int, target: int,
    stepHz: real, hz: real, accel: real,   // commanded rate, present rate, ramp slope
    enabled: bool, mode: Mode,
    hold: real, retractTarget: int, retractAfterHold: bool,
    fractional: real)                      // part of a microstep not issued yet

  function Abs(x: int): nat { if x < 0 then -x else x }

  function Remaining(m: Motor): nat { Abs(m.target - m.position) }

  predicate Between(a: int, x: int, b: int) { a <= x <= b || b <= x <= a }

  ghost predicate MotorOk(m: Motor, l: Limits) {
    && l.Valid() && 0.0 < m.stepHz <= l.maxHz && 0.0 <= m.hz <= l.maxHz && m.accel > 0.0
    && 0.0 <= m.fractional < 1.0 && m.hold >= 0.0
    && Abs(m.position) <= l.maxPosition && Abs(m.target) <= l.maxPosition && Abs(m.retractTarget) <= l.maxPosition
    && (!m.enabled ==> m.mode == Idle)
  }

  // ---------- the ramp ----------

  // A product kept out of the arithmetic around it.
  function Travel(hz: real, microstep: nat, dt: real): real { hz * (microstep as real) * dt }

  lemma TravelMonotone(a: real, b: real, microstep: nat, dt: real)
    requires a <= b && dt >= 0.0
    ensures Travel(a, microstep, dt) <= Travel(b, microstep, dt)
  {
    var k := (microstep as real) * dt;
    assert Travel(a, microstep, dt) == a * k && Travel(b, microstep, dt) == b * k;
    assert (b - a) * k >= 0.0;
  }

  lemma TravelPositive(hz: real, microstep: nat, dt: real)
    requires hz >= 0.0 && microstep >= 1 && dt > 0.0
    ensures Travel(hz, microstep, dt) >= 0.0
    ensures hz > 0.0 ==> Travel(hz, microstep, dt) > 0.0
  {
    assert (microstep as real) * dt > 0.0;
    assert Travel(hz, microstep, dt) == hz * ((microstep as real) * dt);
  }

  // The square of the greatest rate from which the motor can still stop in time.
  function BrakeSquared(accel: real, remaining: nat, microstep: nat): real
    requires microstep >= 1
  {
    2.0 * accel * (remaining as real / microstep as real)
  }

  // The answer of the square root.
  predicate BrakeRate(brake: real, accel: real, remaining: nat, microstep: nat)
    requires microstep >= 1
  {
    brake >= 0.0 && brake * brake == BrakeSquared(accel, remaining, microstep)
  }

  // `hz` moved towards `goal` by at most `step`, never past it.
  function Towards(hz: real, goal: real, step: real): real {
    if hz < goal then RMin(hz + step, goal)
    else if hz > goal then (if hz - step < goal then goal else hz - step)
    else hz
  }

  function RampedHz(m: Motor, dt: real, brake: real): real {
    Towards(m.hz, RMin(m.stepHz, brake), m.accel * dt)
  }

  // In one tick the rate changes by at most the slope allows, towards the lesser of
  // the commanded and the braking rate and never past it.
  lemma RampLimited(m: Motor, dt: real, brake: real)
    requires m.accel > 0.0 && dt > 0.0
    ensures -(m.accel * dt) <= RampedHz(m, dt, brake) - m.hz <= m.accel * dt
    ensures var goal, hz := RMin(m.stepHz, brake), RampedHz(m, dt, brake);
      && (m.hz <= hz <= goal || goal <= hz <= m.hz)
      && (hz == goal || hz - m.hz == m.accel * dt || m.hz - hz == m.accel * dt)
  {
    Scales(m.accel, 0.0, dt);
  }

  // A rate below which no moving tick ever is: one tick of acceleration, the
  // commanded rate, or the braking rate for the last microstep.
  ghost predicate SlowestHz(slow: real, m: Motor, l: Limits, dt: real)
    requires l.microstep >= 1
  {
    slow > 0.0 && slow <= m.stepHz && slow <= m.accel * dt && slow * slow <= BrakeSquared(m.accel, 1, l.microstep)
  }

  lemma BrakeGrows(accel: real, remaining: nat, microstep: nat)
    requires accel > 0.0 && remaining >= 1 && microstep >= 1
    ensures BrakeSquared(accel, remaining, microstep) >= BrakeSquared(accel, 1, microstep)
  {
    var r, ms := remaining as real, microstep as real;
    assert (r - 1.0) / ms >= 0.0;
    assert r / ms == 1.0 / ms + (r - 1.0) / ms;
    Scales(2.0 * accel, 1.0 / ms, r / ms);
  }

  lemma Scales(k: real, a: real, b: real)
    requires k >= 0.0 && a <= b
    ensures k * a <= k * b
  {
    assert k * (b - a) >= 0.0;
  }

  lemma SquareOrder(a: real, b: real)
    requires a >= 0.0 && b >= 0.0
    ensures a <= b || a * a > b * b
  {
    if a > b {
      assert a * a - b * a == (a - b) * a > 0.0;
      assert b * a - b * b == b * (a - b) >= 0.0;
    }
  }

  // There always is such a rate.
  lemma SlowestExists(m: Motor, l: Limits, dt: real) returns (slow: real)
    requires MotorOk(m, l) && dt > 0.0
    ensures SlowestHz(slow, m, l, dt)
  {
    var b := BrakeSquared(m.accel, 1, l.microstep);
    Scales(m.accel, 0.0, dt);
    slow := RMin(RMin(m.stepHz, m.accel * dt), RMin(1.0, b));
    BrakePositive(m.accel, l.microstep);
    SquareBelow(slow, b);
  }

  lemma SquareBelow(x: real, b: real)
    requires 0.0 <= x <= 1.0 && x <= b
    ensures x * x <= b
  {
    Scales(x, x, 1.0);
    assert x * x <= x;
  }

  lemma BrakePositive(accel: real, microstep: nat)
    requires accel > 0.0 && microstep >= 1
    ensures BrakeSquared(accel, 1, microstep) > 0.0
  {
    assert 1.0 / microstep as real > 0.0;
  }

  lemma NeverSlower(m: Motor, l: Limits, dt: real, brake: real, slow: real)
    requires MotorOk(m, l) && dt > 0.0 && SlowestHz(slow, m, l, dt) && Remaining(m) >= 1
    requires BrakeRate(brake, m.accel, Remaining(m), l.microstep)
    ensures slow <= RampedHz(m, dt, brake) <= l.maxHz
  {
    BrakeGrows(m.accel, Remaining(m), l.microstep);
    SquareOrder(slow, brake);
  }

  // ---------- one tick with a driver that accepts every step ----------

  // What follows a leg that has come to its end.
  function Arrived(m: Motor): Motor {
    if m.mode == Moving && m.hold > 0.0 then m.(mode := Holding, hz := 0.0)
    else m.(mode := Idle, hz := 0.0, retractAfterHold := m.retractAfterHold && m.mode != Retracting)
  }

  function HoldOver(m: Motor): Motor {
    var still := m.(hold := 0.0, hz := 0.0, fractional := 0.0);
    if !m.retractAfterHold then still.(mode := Idle)
    else if m.position != m.retractTarget then still.(target := m.retractTarget, mode := Retracting)
    else still.(target := m.retractTarget, mode := Idle, retractAfterHold := false)
  }

  function NominalTick(m: Motor, l: Limits, dt: real, brake: real): Motor {
    match m.mode
    case Idle => m.(hz := 0.0)
    case Holding => if m.hold > dt then m.(hold := m.hold - dt) else HoldOver(m)
    case _ =>
      if m.position == m.target then Arrived(m)
      else
        var hz := RampedHz(m, dt, brake);
        var due := m.fractional + Travel(hz, l.microstep, dt);
        if due.Floor >= Remaining(m) then Arrived(m.(position := m.target, fractional := 0.0))
        else
          var step := if m.target > m.position then due.Floor else -due.Floor;
          m.(position := m.position + step, hz := hz, fractional := due - due.Floor as real)
  }

  // ---------- how far there is to go ----------

  // Microsteps left on the leg, counting the part of one already due.
  function Lead(m: Motor): real { Remaining(m) as real - m.fractional }

  // Every moving tick that does not arrive gets closer by at least `slow`'s travel,
  // and never passes the target.
  lemma MovingTickProgress(m: Motor, l: Limits, dt: real, brake: real, slow: real)
    requires MotorOk(m, l) && dt > 0.0 && SlowestHz(slow, m, l, dt)
    requires m.mode in {Moving, Retracting} && m.position != m.target
    requires BrakeRate(brake, m.accel, Remaining(m), l.microstep)
    ensures var m' := NominalTick(m, l, dt, brake);
      && MotorOk(m', l) && Between(m.position, m'.position, m.target)
      && (m'.mode == m.mode ==> m'.position != m'.target && Lead(m') <= Lead(m) - Travel(slow, l.microstep, dt))
      && (m'.mode != m.mode ==> m'.position == m.target && m' == Arrived(m.(position := m.target, fractional := 0.0)))
  {
    NeverSlower(m, l, dt, brake, slow);
    var hz := RampedHz(m, dt, brake);
    TravelPositive(hz, l.microstep, dt);
    TravelMonotone(slow, hz, l.microstep, dt);
    var due := m.fractional + Travel(hz, l.microstep, dt);
    assert due >= 0.0 && due.Floor >= 0;
  }

  // ---------- the ranking ----------

  function Ceil(x: real): int { -((-x).Floor) }

  // Ticks enough for `x` to run out at `step` a tick.
  function Ticks(x: real, step: real): nat
    requires step > 0.0
  {
    if x <= 0.0 then 1 else Max(1, Ceil(x / step))
  }

  function Max(a: nat, b: int): nat { if a < b then b else a }

  lemma OneTickLess(x: real, y: real, step: real)
    requires step > 0.0 && 0.0 < y <= x - step
    ensures Ticks(y, step) + 1 <= Ticks(x, step)
  {
    var d := (x - y) / step;
    assert d * step == x - y;
    AtLeastOne(d, step);
    assert x / step == y / step + d;
  }

  lemma AtLeastOne(d: real, step: real)
    requires step > 0.0
    ensures d >= 1.0 || d * step < step
  {
    if d < 1.0 {
      assert (1.0 - d) * step > 0.0;
      assert (1.0 - d) * step == step - d * step;
    }
  }

  // Ticks left until Idle, for a leg pace of `pace` microsteps a tick.
  function Rank(m: Motor, pace: real, dt: real): nat
    requires pace > 0.0 && dt > 0.0
  {
    match m.mode
    case Idle => 0
    case Retracting => LegTicks(m, pace)
    case Holding => Ticks(m.hold, dt) + RetractTicks(m, m.position, pace)
    case Moving =>
      LegTicks(m, pace) + (if m.hold > 0.0 then Ticks(m.hold, dt) + RetractTicks(m, m.target, pace) else 0)
  }

  function LegTicks(m: Motor, pace: real): nat
    requires pace > 0.0
  {
    Ticks(Lead(m), pace)
  }

  function RetractTicks(m: Motor, from: int, pace: real): nat
    requires pace > 0.0
  {
    if m.retractAfterHold then Ticks(Abs(m.retractTarget - from) as real, pace) else 0
  }

  lemma {:induction false} TickLowersRank(m: Motor, l: Limits, dt: real, brake: real, slow: real)
    requires MotorOk(m, l) && dt > 0.0 && SlowestHz(slow, m, l, dt) && m.mode != Idle
    requires BrakeRate(brake, m.accel, Remaining(m), l.microstep)
    ensures Travel(slow, l.microstep, dt) > 0.0
    ensures var pace := Travel(slow, l.microstep, dt);
      Rank(NominalTick(m, l, dt, brake), pace, dt) < Rank(m, pace, dt)
  {
    TravelPositive(slow, l.microstep, dt);
    var pace := Travel(slow, l.microstep, dt);
    var m' := NominalTick(m, l, dt, brake);
    if m.mode == Holding {
      if m.hold > dt { OneTickLess(m.hold, m.hold - dt, dt); }
    } else if m.position != m.target {
      MovingTickProgress(m, l, dt, brake, slow);
      if m'.mode == m.mode { OneTickLess(Lead(m), Lead(m'), pace); }
    }
  }

  lemma TickKeepsMotor(m: Motor, l: Limits, dt: real, brake: real, slow: real)
    requires MotorOk(m, l) && dt > 0.0 && SlowestHz(slow, m, l, dt)
    requires BrakeRate(brake, m.accel, Remaining(m), l.microstep)
    ensures var m' := NominalTick(m, l, dt, brake);
      MotorOk(m', l) && SlowestHz(slow, m', l, dt) && Goal(m') == Goal(m) && (m.mode == Idle ==> m'.mode == Idle)
  {
    if m.mode in {Moving, Retracting} && m.position != m.target {
      MovingTickProgress(m, l, dt, brake, slow);
    }
  }

  // Where the motor will come to rest. A pull whose hold is 0 does not retract.
  function Goal(m: Motor): int {
    match m.mode
    case Idle => m.position
    case Retracting => m.target
    case Holding => if m.retractAfterHold then m.retractTarget else m.position
    case Moving => if m.hold > 0.0 && m.retractAfterHold then m.retractTarget else m.target
  }

  // A motor left alone: one tick after another, no command in between.
  ghost predicate Alone(trace: seq<Motor>, l: Limits, dt: real)
    requires l.Valid()
  {
    forall i :: 0 <= i < |trace| - 1 ==> TickTo(trace[i], trace[i + 1], l, dt)
  }

  ghost predicate TickTo(m: Motor, m': Motor, l: Limits, dt: real)
    requires l.Valid()
  {
    exists brake :: BrakeRate(brake, m.accel, Remaining(m), l.microstep) && m' == NominalTick(m, l, dt, brake)
  }

  // It comes to rest at its goal within its rank, and stays there.
  lemma {:induction false} ComesToRest(trace: seq<Motor>, l: Limits, dt: real, slow: real)
    requires trace != [] && dt > 0.0 && MotorOk(trace[0], l) && SlowestHz(slow, trace[0], l, dt)
    requires Alone(trace, l, dt)
    ensures Travel(slow, l.microstep, dt) > 0.0
    ensures |trace| > Rank(trace[0], Travel(slow, l.microstep, dt), dt) ==>
      trace[|trace| - 1].mode == Idle && trace[|trace| - 1].position == Goal(trace[0])
    ensures MotorOk(trace[|trace| - 1], l) && Goal(trace[|trace| - 1]) == Goal(trace[0])
    decreases |trace|
  {
    TravelPositive(slow, l.microstep, dt);
    if |trace| > 1 {
      assert TickTo(trace[0], trace[0 + 1], l, dt);
      var brake :| BrakeRate(brake, trace[0].accel, Remaining(trace[0]), l.microstep)
                && trace[1] == NominalTick(trace[0], l, dt, brake);
      TickKeepsMotor(trace[0], l, dt, brake, slow);
      if trace[0].mode != Idle { TickLowersRank(trace[0], l, dt, brake, slow); }
      var rest := trace[1..];
      forall i | 0 <= i < |rest| - 1 ensures TickTo(rest[i], rest[i + 1], l, dt) {
        assert TickTo(trace[i + 1], trace[i + 1 + 1], l, dt);
      }
      ComesToRest(rest, l, dt, slow);
    }
  }
}
