// The operator-armed bend plan the onboard carries out alone once the link is lost.
module FallbackPlanners {
  import opened FallbackPlans
  import opened FallbackText
  import opened Text
  import opened Wrappers

  class FallbackPlanner {
    const config: Config
    var motors: seq<Plan>
    var state: PlanState
    var deadlineStart: Option<real>   // the clock of the deadline, once started
    var dirty: bool
    ghost var log: Log
    ghost var awaiting: Option<nat>   // the offered start that has not been reported on

    ghost predicate Valid()
      reads this
    {
      && PlansOk(motors, state) && LogOk(motors, log)
      && (awaiting.Some? ==>
            && awaiting.value < |motors| && motors[awaiting.value].state == Bending && awaiting.value in log.offered
            && (forall m :: m in log.offered ==> m <= awaiting.value)
            && (forall m :: m in log.accepted ==> m < awaiting.value))
    }

    // Whatever is saved has changed only if it is marked for saving.
    twostate predicate Marked()
      reads this
    {
      (old(dirty) ==> dirty) && (motors != old(motors) || state != old(state) ==> dirty)
    }

    constructor (config: Config, motorCount: nat)
      ensures Valid() && state == Unplanned && |motors| == motorCount && log == Log([], []) && awaiting.None?
      ensures forall i :: 0 <= i < motorCount ==> motors[i] == NO_PLAN
      ensures this.config == config && deadlineStart.None? && !dirty
    {
      this.config := config;
      motors := seq(motorCount, i => NO_PLAN);
      state, deadlineStart, dirty, log, awaiting := Unplanned, None, false, Log([], []), None;
    }

    static function Cleared(ps: seq<Plan>): (r: seq<Plan>)
      ensures |r| == |ps|
    {
      seq(|ps|, i requires 0 <= i < |ps| => ps[i].(state := if ps[i].configured then Pending else Unconfigured))
    }

    method ResetToNone()
      requires forall i :: 0 <= i < |motors| && !motors[i].configured ==> motors[i] == NO_PLAN
      modifies this`state, this`deadlineStart, this`motors, this`log, this`awaiting
      ensures Valid() && state == Unplanned && deadlineStart.None? && log == Log([], []) && awaiting.None?
      ensures motors == Cleared(old(motors))
    {
      state, deadlineStart, log, awaiting := Unplanned, None, Log([], []), None;
      motors := Cleared(motors);
    }

    method SetMotorPlan(motor: nat, target: int, hold: real, speed: real) returns (ok: bool)
      requires Valid() && awaiting.None?
      modifies this
      ensures Valid() && Marked() && awaiting.None?
      ensures ok <==> motor < |old(motors)| && old(state) != Running
      ensures !ok ==> motors == old(motors) && state == old(state) && log == old(log)
      ensures ok ==> log == Log([], []) && state == (if old(state) == Armed then Armed else Unplanned)
      ensures deadlineStart == if ok && old(state) in {Done, Failed} then None else old(deadlineStart)
      ensures ok ==>
        motors == (if old(state) in {Done, Failed} then Cleared(old(motors)) else old(motors))
                  [motor := Plan(true, target, hold, speed, Pending)]
    {
      if motor >= |motors| { return false; }
      if state == Running { return false; }
      if state == Done || state == Failed { ResetToNone(); }
      motors := motors[motor := Plan(true, target, hold, speed, Pending)];
      assert motors[motor].configured;
      log := Log([], []);
      dirty := true;
      ok := true;
    }

    method Arm() returns (ok: bool)
      requires Valid()
      modifies this`state, this`dirty
      ensures Valid() && Marked()
      ensures ok <==> (exists p :: p in motors && p.configured) && old(state) in {Unplanned, Armed}
      ensures state == if ok then Armed else old(state)
    {
      if !(exists p :: p in motors && p.configured) { return false; }
      if state == Running { return false; }
      if state == Done || state == Failed { return false; }
      state := Armed;
      dirty := true;
      ok := true;
    }

    method Disarm()
      requires Valid()
      modifies this
      ensures Valid() && dirty && state == Unplanned && deadlineStart.None? && motors == Cleared(old(motors))
      ensures log == Log([], []) && awaiting.None?
    {
      ResetToNone();
      dirty := true;
    }

    // ---------- the tick ----------

    method Tick(input: TickInput) returns (action: Option<Action>)
      requires Valid() && awaiting.None?
      modifies this
      ensures Valid() && Marked()
      // Every rule a start obeys.
      ensures action.Some? ==> RightStart(input, old(motors), old(state), action.value)
      ensures action.Some? ==>
        awaiting == Some(action.value.motor) && log == old(log).(offered := old(log).offered + [action.value.motor])
      ensures action.None? ==> log == old(log) && awaiting.None?
      // And what it does to the plan, start or no start.
      ensures Ticked(input, old(motors), old(state), action)
      ensures Decision(motors, state, if action.Some? then Some(action.value.motor) else None)
           == TickOf(input, old(motors), old(state), config, LateBy(old(deadlineStart), input.now, config))
      ensures deadlineStart == ClockOf(old(deadlineStart), input, old(motors), old(state))
    {
      ghost var was, wasState, start := motors, state, deadlineStart;
      action := TickGated(input);
      TickedIsTickOf(input, was, wasState, start, action);
    }

    method TickGated(input: TickInput) returns (action: Option<Action>)
      requires Valid() && awaiting.None?
      modifies this
      ensures Valid() && Marked()
      ensures action.Some? ==> RightStart(input, old(motors), old(state), action.value)
      ensures action.Some? ==>
        awaiting == Some(action.value.motor) && log == old(log).(offered := old(log).offered + [action.value.motor])
      ensures action.None? ==> log == old(log) && awaiting.None?
      ensures Ticked(input, old(motors), old(state), action)
      ensures deadlineStart == ClockOf(old(deadlineStart), input, old(motors), old(state))
    {
      TrackCompletion(input.motors);
      if state != Armed && state != Running { return None; }
      if !(input.fallback && (input.phase == PreFloat || input.phase == Float)) { return None; }
      ghost var done := motors;
      action := TickInWindow(input);
      if action.Some? { RulesFollowed(old(motors), done, input.motors, DeadlinePassed(input.now)); }
    }

    method TickInWindow(input: TickInput) returns (action: Option<Action>)
      requires Valid() && awaiting.None? && state in {Armed, Running}
      modifies this
      ensures Valid() && Marked()
      ensures Decided(input, old(motors), old(state), action)
      ensures log == if action.Some? then old(log).(offered := old(log).offered + [action.value.motor]) else old(log)
      ensures awaiting == if action.Some? then Some(action.value.motor) else None
      ensures deadlineStart == if old(deadlineStart).None? then Some(input.now) else old(deadlineStart)
    {
      if deadlineStart.None? { deadlineStart := Some(input.now); }
      action := TickRunning(input);
    }

    method TickRunning(input: TickInput) returns (action: Option<Action>)
      requires Valid() && awaiting.None? && state in {Armed, Running} && deadlineStart.Some?
      modifies this`motors, this`state, this`dirty, this`log, this`awaiting
      ensures Valid() && Marked()
      ensures Decided(input, old(motors), old(state), action)
      ensures log == if action.Some? then old(log).(offered := old(log).offered + [action.value.motor]) else old(log)
      ensures awaiting == if action.Some? then Some(action.value.motor) else None
    {
      if exists p :: p in motors && p.state == Bending { return None; }
      var late := input.now - deadlineStart.value >= config.deadline;
      action := StartNext(input.motors, late);
    }

    static predicate StartRules(was: seq<Plan>, now: seq<Plan>, k: nat) {
      && k < |was| == |now| && Waiting(was[k]) && (forall j :: 0 <= j < k ==> !Waiting(now[j]))
      && (forall j :: 0 <= j < |now| ==> (now[j].state == Bending <==> j == k))
    }

    static lemma RulesFollowed(was: seq<Plan>, done: seq<Plan>, ins: seq<MotorInput>, late: bool)
      requires done == CompletedAll(was, ins) && forall p :: p in done ==> p.state != Bending
      ensures var k := FirstWaiting(done, ins, late, 0);
        k < |was| ==> StartRules(was, SkippedBefore(done, k)[k := SkippedBefore(done, k)[k].(state := Bending)], k)
    {
      var k := FirstWaiting(done, ins, late, 0);
      assert forall j :: 0 <= j < |done| ==> done[j] in done;
    }

    ghost predicate RightStart(input: TickInput, was: seq<Plan>, wasState: PlanState, action: Action)
      reads this
    {
      var k := action.motor;
      && StartRules(was, motors, k) && wasState in {Armed, Running} && state == Running
      && input.fallback && input.phase in {PreFloat, Float}
      && Startable(InputOf(input.motors, k), config, DeadlinePassed(input.now))
      && action == Action(k, motors[k].target, motors[k].hold, motors[k].speed)
    }

    predicate DeadlinePassed(now: real)
      reads this
    {
      deadlineStart.Some? && now - deadlineStart.value >= config.deadline
    }

    ghost predicate Ticked(input: TickInput, was: seq<Plan>, wasState: PlanState, action: Option<Action>)
      reads this
    {
      var done := CompletedAll(was, input.motors);
      if !InWindow(input, was, wasState) then
        motors == done && state == StateAfter(done, wasState) && action.None?
      else
        Decided(input, done, StateAfter(done, wasState), action)
    }

    // With the window open: nothing while a motor bends, else the first waiting
    // motor that is not passed over starts or holds up the rest.
    ghost predicate Decided(input: TickInput, done: seq<Plan>, wasState: PlanState, action: Option<Action>)
      reads this
    {
      var late := DeadlinePassed(input.now);
      var k := FirstWaiting(done, input.motors, late, 0);
      var skipped := SkippedBefore(done, k);
      if exists p :: p in done && p.state == Bending then
        motors == done && state == wasState && action.None?
      else if k == |done| then
        && motors == skipped && action.None?
        && state == if AllSettled(skipped) then EndState(skipped) else wasState
      else if Startable(InputOf(input.motors, k), config, late) then
        && motors == skipped[k := skipped[k].(state := Bending)] && state == Running
        && action == Some(Action(k, motors[k].target, motors[k].hold, motors[k].speed))
      else
        motors == skipped && state == wasState && action.None?
    }

    lemma TickedIsTickOf(input: TickInput, was: seq<Plan>, wasState: PlanState, start: Option<real>, action: Option<Action>)
      requires Ticked(input, was, wasState, action) && deadlineStart == ClockOf(start, input, was, wasState)
      ensures Decision(motors, state, if action.Some? then Some(action.value.motor) else None)
           == TickOf(input, was, wasState, config, LateBy(start, input.now, config))
    {
    }

    // Of a motor that was bending a tick makes what its input says, and only the
    // offered one begins to bend.
    lemma BendsFollowed(input: TickInput, was: seq<Plan>, wasState: PlanState, action: Option<Action>, i: nat)
      requires Ticked(input, was, wasState, action) && i < |was|
      ensures |motors| == |was| && motors[i].target == was[i].target
      ensures was[i].state == Bending ==> motors[i] == Completed(was[i], InputOf(input.motors, i))
      ensures motors[i].state == Bending ==> was[i].state == Bending || (action.Some? && action.value.motor == i)
    {
    }

    // A bend that started is followed to its end whatever the gate says.
    method TrackCompletion(ins: seq<MotorInput>)
      requires Valid() && awaiting.None?
      modifies this`motors, this`state, this`dirty
      ensures Valid() && Marked()
      ensures motors == CompletedAll(old(motors), ins) && state == StateAfter(motors, old(state))
    {
      CompletedKeeps(motors, state, ins, log);
      ghost var done := CompletedAll(motors, ins);
      for i := 0 to |motors|
        invariant |motors| == |done| && state == old(state)
        invariant forall j :: 0 <= j < |motors| ==> motors[j] == if j < i then done[j] else old(motors)[j]
        invariant old(dirty) ==> dirty
        invariant motors != old(motors) ==> dirty
      {
        if motors[i].state == Bending {
          if !(i < |ins| && ins[i].busy) {
            var aborted := i < |ins| && ins[i].aborted;
            motors := motors[i := motors[i].(state := if aborted then Broken else Bent)];
            dirty := true;
          }
        }
      }
      assert motors == done;
      if state == Running && AllSettled(motors) {
        EndKeeps(motors, state);
        state := EndState(motors);
        dirty := true;
      }
    }

    // Strict id order: the first waiting motor starts or keeps the rest waiting.
    method StartNext(ins: seq<MotorInput>, late: bool) returns (action: Option<Action>)
      requires Valid() && awaiting.None? && state in {Armed, Running}
      requires forall i :: 0 <= i < |motors| ==> motors[i].state != Bending
      modifies this`motors, this`state, this`dirty, this`log, this`awaiting
      ensures Valid() && Marked()
      ensures var k := FirstWaiting(old(motors), ins, late, 0);
        var skipped := SkippedBefore(old(motors), k);
        if k == |old(motors)| then
          && motors == skipped && action.None? && log == old(log) && awaiting.None?
          && state == (if AllSettled(skipped) then EndState(skipped) else old(state))
        else if Startable(InputOf(ins, k), config, late) then
          && motors == skipped[k := skipped[k].(state := Bending)] && state == Running
          && action == Some(Action(k, motors[k].target, motors[k].hold, motors[k].speed))
          && log == old(log).(offered := old(log).offered + [k]) && awaiting == Some(k)
        else
          motors == skipped && state == old(state) && action.None? && log == old(log) && awaiting.None?
    {
      var k := PassOver(ins, late);
      if k == |motors| {
        action := None;
        if AllSettled(motors) {
          EndKeeps(motors, state);
          state := EndState(motors);
          dirty := true;
        }
        return;
      }
      if !(Ready(InputOf(ins, k)) && (Warm(InputOf(ins, k), config) || late)) { return None; }
      StartingKeeps(motors, state, k, log);
      action := Some(Action(k, motors[k].target, motors[k].hold, motors[k].speed));
      motors := motors[k := motors[k].(state := Bending)];
      state, dirty := Running, true;
      log, awaiting := log.(offered := log.offered + [k]), Some(k);
    }

    // Skips the waiting motors that are not ready when it is late, up to the
    // first that is waiting still.
    method PassOver(ins: seq<MotorInput>, late: bool) returns (k: nat)
      requires Valid() && awaiting.None?
      modifies this`motors, this`dirty
      ensures Valid() && Marked()
      ensures k == FirstWaiting(old(motors), ins, late, 0) && motors == SkippedBefore(old(motors), k)
    {
      ghost var end := FirstWaiting(motors, ins, late, 0);
      SkippingKeeps(motors, state, end, log);
      k := 0;
      assert motors == SkippedBefore(motors, 0);
      while k < |motors|
        invariant k <= end && |motors| == |old(motors)| && FirstWaiting(old(motors), ins, late, k) == end
        invariant motors == SkippedBefore(old(motors), k)
        invariant (old(dirty) ==> dirty) && (motors != old(motors) ==> dirty)
      {
        if motors[k].configured && motors[k].state == Pending {
          if Ready(InputOf(ins, k)) || !late { return; }
          motors := motors[k := motors[k].(state := Skipped)];
          dirty := true;
        }
        assert motors == SkippedBefore(old(motors), k + 1);
        k := k + 1;
      }
    }

    // ---------- the answer to an offered start ----------

    method ReportStartResult(motor: nat, accepted: bool, retryLater: bool)
      requires Valid() && awaiting == Some(motor)
      modifies this
      ensures Valid() && Marked() && awaiting.None? && deadlineStart == old(deadlineStart)
      ensures accepted ==> motors == old(motors) && state == old(state)
                           && log == old(log).(accepted := old(log).accepted + [motor])
      ensures !accepted ==> log == old(log)
      ensures !accepted && retryLater ==>
        && motors == old(motors)[motor := old(motors)[motor].(state := Pending)]
        && state == if exists p :: p in motors && p.state == Bent then Running else Armed
      ensures !accepted && !retryLater ==>
        motors == old(motors)[motor := old(motors)[motor].(state := Broken)] && state == Failed
    {
      AnswerKeeps(motors, state, motor, log);
      awaiting := None;
      if accepted {
        log := log.(accepted := log.accepted + [motor]);
        return;
      }
      motors := motors[motor := motors[motor].(state := if retryLater then Pending else Broken)];
      if retryLater {
        state := if exists p :: p in motors && p.state == Bent then Running else Armed;
      } else {
        state := Failed;
      }
      dirty := true;
    }

    // ---------- saving and loading ----------

    method Serialize(d: Doubles) returns (text: string)
      ensures text == PlanText(motors, state, config.deadline, d)
    {
      var header := Header(state, config.deadline, d);
      text := Join(header);
      assert header + [] == header;
      for i := 0 to |motors|
        invariant text == Join(header + MotorLines(motors, i, d))
      {
        if motors[i].configured {
          var line := MotorLine(i, motors[i], d);
          assert header + MotorLines(motors, i + 1, d) == header + MotorLines(motors, i, d) + [line];
          JoinOneMore(header + MotorLines(motors, i, d), line);
          text := text + line + "\n";
        }
      }
    }

    // A text that does not read as a plan leaves none. The plan that was saved
    // goes on where it was: `past` is what had been started of it.
    method Deserialize(text: string, d: Doubles, ghost past: Log) returns (ok: bool)
      modifies this
      ensures ok <==> ReadPlan(text, |old(motors)|, d).Some?
      ensures ok ==> (motors, state) == ReadPlan(text, |old(motors)|, d).value
      ensures !ok ==> motors == Blanks(|old(motors)|) && state == Unplanned
      ensures deadlineStart.None? && awaiting.None? && dirty == old(dirty)
      ensures log == if ok && LogOk(motors, past) then past else Log([], [])
      ensures PlansOk(motors, state) ==> Valid()
    {
      motors := Blanks(|motors|);
      ResetToNone();
      assert motors == Blanks(|motors|);
      var lines := Split(text, '\n');
      var draft := Draft(None, Blanks(|motors|));
      for i := 0 to |lines|
        invariant motors == Blanks(|old(motors)|) && state == Unplanned && dirty == old(dirty)
        invariant deadlineStart.None? && log == Log([], []) && awaiting.None?
        invariant ReadLines(Draft(None, Blanks(|motors|)), lines[..i], d) == Some(draft)
      {
        var read := ReadLine(draft, lines[i], d);
        ReadOneMore(Draft(None, Blanks(|motors|)), lines[..i], lines[i], d);
        assert lines[..i + 1] == lines[..i] + [lines[i]];
        if read.None? {
          NoneStays(Draft(None, Blanks(|motors|)), lines, i + 1, d);
          return false;
        }
        draft := read.value;
      }
      assert lines[..|lines|] == lines;
      if draft.state.None? { return false; }
      if draft.state != Some(Unplanned) && forall p :: p in draft.motors ==> !p.configured { return false; }
      motors, state := draft.motors, draft.state.value;
      if LogOk(motors, past) { log := past; }
      ok := true;
    }

    // One line that cannot be read spoils the text.
    static lemma {:induction false} NoneStays(draft: Draft, lines: seq<string>, n: nat, d: Doubles)
      requires n <= |lines| && ReadLines(draft, lines[..n], d).None?
      ensures ReadLines(draft, lines, d).None?
      decreases |lines|
    {
      if n == |lines| {
        assert lines[..n] == lines;
      } else {
        var m := |lines| - 1;
        assert lines[..m][..n] == lines[..n];
        NoneStays(draft, lines[..m], n, d);
      }
    }

    // A planner saved in any state it can get into and loaded into another of
    // its size goes on in that state: what was accepted before the restart counts
    // as accepted after it. Only the numbers may come back different.
    method SaveAndLoad(into: FallbackPlanner, d: Doubles) returns (ok: bool)
      requires Valid() && into != this && |into.motors| == |motors| <= INT64_MAX && Fits(d, config.deadline)
      requires forall i :: 0 <= i < |motors| ==> Writable(motors[i], d)
      modifies into
      ensures ok <==> AllReadable(motors, |motors|, d)
      ensures ok ==> into.Valid() && into.log == log && into.state == state
      ensures ok ==> into.motors == Reloaded(motors, |motors|, d)
      ensures !ok ==> into.Valid() && into.state == Unplanned && into.motors == Blanks(|motors|)
      ensures ok && into.motors == motors <==> forall i :: 0 <= i < |motors| ==> NumbersReadBack(motors[i], d)
    {
      SavedPlanLoads(motors, state, config.deadline, d);
      ReloadedIsSame(motors, d);
      if AllReadable(motors, |motors|, d) { ReloadedKeeps(motors, state, log, d); }
      var text := Serialize(d);
      ok := into.Deserialize(text, d, log);
    }

    // What a run comes to: at most one motor bends at a time, starts go up in
    // id order, each accepted once at most, and done means bent or skipped.
    lemma RunsAreOrdered()
      requires Valid()
      ensures forall i, j :: 0 <= i < j < |motors| ==> motors[i].state != Bending || motors[j].state != Bending
      ensures NonDecreasing(log.offered) && Increasing(log.accepted)
      ensures state == Done ==> forall p :: p in motors && p.configured ==> p.state in {Bent, Skipped}
    {
    }
  }
}
