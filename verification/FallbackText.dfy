// The plan's text form. How a double is printed and read back is the C++
// library's affair and comes in as a parameter.
module FallbackText {
  import opened FallbackPlans
  import opened Text
  import opened Wrappers

  // operator<< and std::stod; stod also says how many characters it used.
  datatype Doubles = Doubles(show: real -> string, read: string -> Option<(real, nat)>)

  predicate Blank(c: char) { c == ' ' || c == '\t' || c == '\r' || c == '\n' }

  // Its text fits in a field.
  predicate Fits(d: Doubles, x: real) {
    var s := d.show(x);
    s != "" && forall c :: c in s ==> c != ',' && !Blank(c)
  }

  // The number a printed number reads as, if it reads as one.
  function Reread(d: Doubles, x: real): Option<real> { ReadDouble(d.show(x), d) }

  predicate ReadsBack(d: Doubles, x: real) { Reread(d, x) == Some(x) }

  function PlanStateName(s: PlanState): string {
    match s
    case Unplanned => "none"
    case Armed => "armed"
    case Running => "running"
    case Done => "done"
    case Failed => "failed"
  }

  function MotorStateName(s: MotorState): string {
    match s
    case Unconfigured => "unconfigured"
    case Pending => "pending"
    case Bending => "running"
    case Bent => "done"
    case Skipped => "skipped"
    case Broken => "failed"
  }

  function PlanStateOf(text: string): Option<PlanState> {
    if text == "none" then Some(Unplanned)
    else if text == "armed" then Some(Armed)
    else if text == "running" then Some(Running)
    else if text == "done" then Some(Done)
    else if text == "failed" then Some(Failed)
    else None
  }

  function MotorStateOf(text: string): Option<MotorState> {
    if text == "unconfigured" then Some(Unconfigured)
    else if text == "pending" then Some(Pending)
    else if text == "running" then Some(Bending)
    else if text == "done" then Some(Bent)
    else if text == "skipped" then Some(Skipped)
    else if text == "failed" then Some(Broken)
    else None
  }

  lemma NamesReadBack(s: PlanState, m: MotorState)
    ensures PlanStateOf(PlanStateName(s)) == Some(s) && MotorStateOf(MotorStateName(m)) == Some(m)
  {
    assert "none"[0] == 'n' && "done"[0] == 'd' && "pending"[0] == 'p' && "running"[0] == 'r' && "skipped"[0] == 's';
  }

  // ---------- writing ----------

  function MotorLine(i: nat, p: Plan, d: Doubles): string {
    Entry("m" + Digits(i), MotorFields(p, d))
  }

  function MotorFields(p: Plan, d: Doubles): string {
    FormatInt(p.target) + [','] + (d.show(p.hold) + [','] + (d.show(p.speed) + [','] + MotorStateName(p.state)))
  }

  // The configured motors below n.
  function MotorLines(ps: seq<Plan>, n: nat, d: Doubles): seq<string>
    requires n <= |ps|
  {
    if n == 0 then []
    else if ps[n - 1].configured then MotorLines(ps, n - 1, d) + [MotorLine(n - 1, ps[n - 1], d)]
    else MotorLines(ps, n - 1, d)
  }

  function Header(state: PlanState, deadline: real, d: Doubles): seq<string> {
    [Entry("armed", if state == Armed || state == Running then "1" else "0"),
     Entry("state", PlanStateName(state)),
     Entry("deadline_s", d.show(deadline))]
  }

  function Entry(key: string, value: string): string { key + ['='] + value }

  function PlanText(ps: seq<Plan>, state: PlanState, deadline: real, d: Doubles): string {
    Join(Header(state, deadline, d) + MotorLines(ps, |ps|, d))
  }

  // ---------- reading ----------

  // What has been read so far.
  datatype Draft = Draft(state: Option<PlanState>, motors: seq<Plan>)

  function ReadDouble(text: string, d: Doubles): Option<real> {
    match d.read(text)
    case Some((x, used)) => if used == |text| then Some(x) else None
    case None => None
  }

  function ReadInt(text: string): Option<int> {
    match Stoll(text)
    case Some((v, used)) => if used == |text| then Some(v) else None
    case None => None
  }

  function ReadFields(fields: seq<string>, d: Doubles): Option<Plan> {
    if |fields| != 4 then None
    else
      match (ReadInt(fields[0]), ReadDouble(fields[1], d), ReadDouble(fields[2], d), MotorStateOf(fields[3]))
      case (Some(target), Some(hold), Some(speed), Some(state)) =>
        if state == Unconfigured then None else Some(Plan(true, target, hold, speed, state))
      case (_, _, _, _) => None
  }

  function ReadMotor(draft: Draft, index: string, value: string, d: Doubles): Option<Draft> {
    match ReadInt(index)
    case None => None
    case Some(i) =>
      if i < 0 || i >= |draft.motors| then None
      else
        match ReadFields(Split(value, ','), d)
        case None => None
        case Some(p) => Some(draft.(motors := draft.motors[i := p]))
  }

  function ReadLine(draft: Draft, raw: string, d: Doubles): Option<Draft> {
    var line := Trim(raw, Blank);
    if line == "" || line[0] == '#' then Some(draft)
    else
      match Cut(line, '=')
      case None => None
      case Some((key, value)) =>
        if key == "state" then
          match PlanStateOf(value)
          case None => None
          case Some(state) => Some(draft.(state := Some(state)))
        else if |key| >= 2 && key[0] == 'm' then ReadMotor(draft, key[1..], value, d)
        else Some(draft)
  }

  function ReadLines(draft: Draft, lines: seq<string>, d: Doubles): Option<Draft> {
    if lines == [] then Some(draft)
    else
      match ReadLines(draft, lines[..|lines| - 1], d)
      case None => None
      case Some(before) => ReadLine(before, lines[|lines| - 1], d)
  }

  function Blanks(n: nat): (ps: seq<Plan>)
    ensures |ps| == n
  {
    seq(n, i => NO_PLAN)
  }

  // The plan a text stands for, if it stands for one.
  function ReadPlan(text: string, motorCount: nat, d: Doubles): Option<(seq<Plan>, PlanState)> {
    match ReadLines(Draft(None, Blanks(motorCount)), Split(text, '\n'), d)
    case None => None
    case Some(draft) =>
      if draft.state.None? || (draft.state != Some(Unplanned) && forall p :: p in draft.motors ==> !p.configured)
      then None
      else Some((draft.motors, draft.state.value))
  }

  // ---------- reading what was written ----------

  predicate Solid(s: string) { s != "" && !Blank(s[0]) && !Blank(s[|s| - 1]) }

  // A 64-bit target and numbers whose texts fit in a field.
  predicate Writable(p: Plan, d: Doubles) {
    p.configured ==> INT64_MIN <= p.target <= INT64_MAX && Fits(d, p.hold) && Fits(d, p.speed)
  }

  // The plan a saved plan comes back as.
  function RereadPlan(p: Plan, d: Doubles): Option<Plan> {
    if !p.configured then Some(p)
    else
      match (Reread(d, p.hold), Reread(d, p.speed))
      case (Some(hold), Some(speed)) => Some(p.(hold := hold, speed := speed))
      case (_, _) => None
  }

  predicate NumbersReadBack(p: Plan, d: Doubles) { p.configured ==> ReadsBack(d, p.hold) && ReadsBack(d, p.speed) }

  predicate Readable(p: Plan, d: Doubles) { RereadPlan(p, d).Some? }

  // What the motors below n come back as, where all of them read.
  function Reloaded(ps: seq<Plan>, n: nat, d: Doubles): (r: seq<Plan>)
    ensures |r| == |ps|
  {
    seq(|ps|, i requires 0 <= i < |ps| =>
      if i < n && ps[i].configured && Readable(ps[i], d) then RereadPlan(ps[i], d).value else NO_PLAN)
  }

  predicate AllReadable(ps: seq<Plan>, n: nat, d: Doubles)
    requires n <= |ps|
  {
    forall i :: 0 <= i < n ==> Readable(ps[i], d)
  }

  predicate Word(s: string) { Solid(s) && forall c :: c in s ==> c != ',' && !Blank(c) }

  lemma PlanNameIsSolid(s: PlanState)
    ensures Word(PlanStateName(s))
  {
  }

  lemma MotorNameIsSolid(s: MotorState)
    ensures Word(MotorStateName(s))
  {
  }

  lemma IntReadsBack(v: int)
    requires INT64_MIN <= v <= INT64_MAX
    ensures ReadInt(FormatInt(v)) == Some(v)
  {
    StollOfFormat(v);
  }

  lemma SplitFour(a: string, b: string, c: string, e: string)
    requires ',' !in a && ',' !in b && ',' !in c && ',' !in e && e != ""
    ensures Split(a + [','] + (b + [','] + (c + [','] + e)), ',') == [a, b, c, e]
  {
    SplitFirst(a, ',', b + [','] + (c + [','] + e));
    SplitFirst(b, ',', c + [','] + e);
    SplitFirst(c, ',', e);
    SplitLast(e, ',');
  }

  lemma FieldsReadBack(p: Plan, d: Doubles)
    requires p.configured && p.state != Unconfigured && Writable(p, d)
    ensures ReadFields(Split(MotorFields(p, d), ','), d) == RereadPlan(p, d)
  {
    MotorNameIsSolid(p.state);
    NamesReadBack(Armed, p.state);
    IntReadsBack(p.target);
    FormatHasNo(p.target, ',');
    SplitFour(FormatInt(p.target), d.show(p.hold), d.show(p.speed), MotorStateName(p.state));
  }

  lemma MotorLineIsMotor(draft: Draft, i: nat, p: Plan, d: Doubles)
    ensures ReadLine(draft, MotorLine(i, p, d), d) == ReadMotor(draft, FormatInt(i), MotorFields(p, d), d)
  {
    var line, key := MotorLine(i, p, d), "m" + Digits(i);
    MotorNameIsSolid(p.state);
    assert line[|line| - 1] == MotorStateName(p.state)[|MotorStateName(p.state)| - 1];
    assert line[0] == 'm' == key[0];
    TrimSolid(line, Blank);
    FormatHasNo(i, '=');
    CutField(key, '=', MotorFields(p, d));
    assert key[1..] == FormatInt(i);
  }

  // A motor's line reads as the motor with its numbers as they read; as the
  // very motor exactly when both numbers read back.
  lemma MotorLineReadsBack(draft: Draft, i: nat, p: Plan, d: Doubles)
    requires i < |draft.motors| && i <= INT64_MAX && p.configured && p.state != Unconfigured && Writable(p, d)
    ensures ReadLine(draft, MotorLine(i, p, d), d)
         == if Readable(p, d) then Some(draft.(motors := draft.motors[i := RereadPlan(p, d).value])) else None
    ensures ReadLine(draft, MotorLine(i, p, d), d) == Some(draft.(motors := draft.motors[i := p]))
       <==> NumbersReadBack(p, d)
  {
    MotorLineIsMotor(draft, i, p, d);
    IntReadsBack(i);
    FieldsReadBack(p, d);
    assert draft.motors[i := p][i] == p;
    assert Readable(p, d) ==> draft.motors[i := RereadPlan(p, d).value][i] == RereadPlan(p, d).value;
  }

  lemma ReadOneMore(draft: Draft, lines: seq<string>, line: string, d: Doubles)
    ensures ReadLines(draft, lines + [line], d)
         == if ReadLines(draft, lines, d).None? then None else ReadLine(ReadLines(draft, lines, d).value, line, d)
  {
    assert (lines + [line])[..|lines|] == lines;
  }

  lemma HeaderReadsBack(draft: Draft, state: PlanState, deadline: real, d: Doubles)
    requires Fits(d, deadline)
    ensures ReadLines(draft, Header(state, deadline, d), d) == Some(draft.(state := Some(state)))
  {
    var flag := if state == Armed || state == Running then "1" else "0";
    PlanNameIsSolid(state);
    NamesReadBack(state, Pending);
    KeyReads(draft, "armed", flag, d);
    KeyReads(draft, "state", PlanStateName(state), d);
    KeyReads(draft.(state := Some(state)), "deadline_s", d.show(deadline), d);
    var h := Header(state, deadline, d);
    assert h == [] + [h[0]] + [h[1]] + [h[2]];
    ReadOneMore(draft, [], h[0], d);
    ReadOneMore(draft, [] + [h[0]], h[1], d);
    ReadOneMore(draft, [] + [h[0]] + [h[1]], h[2], d);
  }

  lemma KeyReads(draft: Draft, key: string, value: string, d: Doubles)
    requires key in {"armed", "state", "deadline_s"} && Solid(value)
    ensures ReadLine(draft, Entry(key, value), d)
         == if key != "state" then Some(draft)
            else if PlanStateOf(value).None? then None
            else Some(draft.(state := PlanStateOf(value)))
  {
    var line := key + ['='] + value;
    assert line[0] == key[0] && line[|line| - 1] == value[|value| - 1];
    TrimSolid(line, Blank);
    CutField(key, '=', value);
  }

  lemma ReloadedOneMore(ps: seq<Plan>, n: nat, d: Doubles)
    requires 0 < n <= |ps|
    ensures AllReadable(ps, n, d) <==> AllReadable(ps, n - 1, d) && Readable(ps[n - 1], d)
    ensures Reloaded(ps, n, d)
         == if ps[n - 1].configured && Readable(ps[n - 1], d)
            then Reloaded(ps, n - 1, d)[n - 1 := RereadPlan(ps[n - 1], d).value] else Reloaded(ps, n - 1, d)
  {
  }

  lemma LastMotorReadsBack(read: Draft, ps: seq<Plan>, i: nat, d: Doubles)
    requires i < |ps| <= INT64_MAX && ps[i].configured && ps[i].state != Unconfigured && Writable(ps[i], d)
    requires |read.motors| == |ps|
    ensures ReadLine(read, MotorLine(i, ps[i], d), d)
         == if Readable(ps[i], d) then Some(read.(motors := read.motors[i := RereadPlan(ps[i], d).value])) else None
  {
    MotorLineReadsBack(read, i, ps[i], d);
  }

  lemma OneMoreMotor(draft: Draft, ps: seq<Plan>, n: nat, lines: seq<string>, state: PlanState, d: Doubles)
    requires 0 < n <= |ps| <= INT64_MAX
    requires ps[n - 1].configured && ps[n - 1].state != Unconfigured && Writable(ps[n - 1], d)
    requires ReadLines(draft, lines, d)
          == if AllReadable(ps, n - 1, d) then Some(Draft(Some(state), Reloaded(ps, n - 1, d))) else None
    ensures ReadLines(draft, lines + [MotorLine(n - 1, ps[n - 1], d)], d)
         == if AllReadable(ps, n, d) then Some(Draft(Some(state), Reloaded(ps, n, d))) else None
  {
    ReadOneMore(draft, lines, MotorLine(n - 1, ps[n - 1], d), d);
    ReloadedOneMore(ps, n, d);
    if AllReadable(ps, n - 1, d) { LastMotorReadsBack(Draft(Some(state), Reloaded(ps, n - 1, d)), ps, n - 1, d); }
  }

  lemma {:induction false} MotorsReadBack(draft: Draft, ps: seq<Plan>, n: nat, header: seq<string>, state: PlanState,
                                           d: Doubles)
    requires n <= |ps| <= INT64_MAX && draft == Draft(None, Blanks(|ps|))
    requires forall i :: 0 <= i < |ps| ==> Writable(ps[i], d) && (ps[i].configured ==> ps[i].state != Unconfigured)
    requires ReadLines(draft, header, d) == Some(draft.(state := Some(state)))
    ensures ReadLines(draft, header + MotorLines(ps, n, d), d)
         == if AllReadable(ps, n, d) then Some(Draft(Some(state), Reloaded(ps, n, d))) else None
  {
    if n == 0 {
      assert header + [] == header && Reloaded(ps, 0, d) == Blanks(|ps|);
    } else {
      var lines := header + MotorLines(ps, n - 1, d);
      MotorsReadBack(draft, ps, n - 1, header, state, d);
      if ps[n - 1].configured {
        assert header + MotorLines(ps, n, d) == lines + [MotorLine(n - 1, ps[n - 1], d)];
        OneMoreMotor(draft, ps, n, lines, state, d);
      } else {
        ReloadedOneMore(ps, n, d);
      }
    }
  }

  lemma {:induction false} MotorLinesAreLines(ps: seq<Plan>, n: nat, d: Doubles)
    requires n <= |ps| && forall i :: 0 <= i < |ps| ==> Writable(ps[i], d)
    ensures forall l :: l in MotorLines(ps, n, d) ==> '\n' !in l
  {
    if n > 0 {
      MotorLinesAreLines(ps, n - 1, d);
      if ps[n - 1].configured {
        FormatHasNo(n - 1, '\n');
        FormatHasNo(ps[n - 1].target, '\n');
        MotorNameIsSolid(ps[n - 1].state);
        assert '\n' !in MotorLine(n - 1, ps[n - 1], d);
      }
    }
  }

  // A saved plan loads exactly when each of its numbers reads as some number; it
  // then has its states and targets again, and its numbers as they read. It is
  // the very same plan exactly when every number reads back.
  lemma SavedPlanLoads(ps: seq<Plan>, state: PlanState, deadline: real, d: Doubles)
    requires PlansOk(ps, state) && |ps| <= INT64_MAX && Fits(d, deadline)
    requires forall i :: 0 <= i < |ps| ==> Writable(ps[i], d)
    ensures ReadPlan(PlanText(ps, state, deadline, d), |ps|, d)
         == if AllReadable(ps, |ps|, d) then Some((Reloaded(ps, |ps|, d), state)) else None
    ensures ReadPlan(PlanText(ps, state, deadline, d), |ps|, d) == Some((ps, state))
       <==> forall i :: 0 <= i < |ps| ==> NumbersReadBack(ps[i], d)
  {
    SavedLinesRead(ps, state, deadline, d);
    SavedLinesAreLines(ps, state, deadline, d);
    SplitOfJoin(Header(state, deadline, d) + MotorLines(ps, |ps|, d));
    if AllReadable(ps, |ps|, d) { SomeConfigured(ps, state, d); }
    ReloadedIsSame(ps, d);
  }

  lemma SavedLinesRead(ps: seq<Plan>, state: PlanState, deadline: real, d: Doubles)
    requires PlansOk(ps, state) && |ps| <= INT64_MAX && Fits(d, deadline)
    requires forall i :: 0 <= i < |ps| ==> Writable(ps[i], d)
    ensures ReadLines(Draft(None, Blanks(|ps|)), Header(state, deadline, d) + MotorLines(ps, |ps|, d), d)
         == if AllReadable(ps, |ps|, d) then Some(Draft(Some(state), Reloaded(ps, |ps|, d))) else None
  {
    HeaderReadsBack(Draft(None, Blanks(|ps|)), state, deadline, d);
    MotorsReadBack(Draft(None, Blanks(|ps|)), ps, |ps|, Header(state, deadline, d), state, d);
  }

  lemma SomeConfigured(ps: seq<Plan>, state: PlanState, d: Doubles)
    requires PlansOk(ps, state) && AllReadable(ps, |ps|, d)
    ensures state != Unplanned ==> exists p :: p in Reloaded(ps, |ps|, d) && p.configured
  {
    if state != Unplanned {
      var i :| 0 <= i < |ps| && ps[i].configured;
      assert Readable(ps[i], d) && Reloaded(ps, |ps|, d)[i] in Reloaded(ps, |ps|, d);
    }
  }

  lemma ReloadedIsSame(ps: seq<Plan>, d: Doubles)
    requires forall i :: 0 <= i < |ps| && !ps[i].configured ==> ps[i] == NO_PLAN
    ensures AllReadable(ps, |ps|, d) && Reloaded(ps, |ps|, d) == ps
       <==> forall i :: 0 <= i < |ps| ==> NumbersReadBack(ps[i], d)
  {
    var r := Reloaded(ps, |ps|, d);
    if AllReadable(ps, |ps|, d) && r == ps {
      forall i | 0 <= i < |ps| ensures NumbersReadBack(ps[i], d) {
        assert Readable(ps[i], d) && r[i] == ps[i];
      }
    }
    if forall i :: 0 <= i < |ps| ==> NumbersReadBack(ps[i], d) {
      forall i | 0 <= i < |ps| ensures Readable(ps[i], d) && r[i] == ps[i] {
        assert NumbersReadBack(ps[i], d);
      }
    }
  }

  // What numbers alone change leaves a plan as it can come up and a history as it can be.
  lemma ReloadedKeeps(ps: seq<Plan>, state: PlanState, log: Log, d: Doubles)
    requires PlansOk(ps, state) && AllReadable(ps, |ps|, d)
    ensures PlansOk(Reloaded(ps, |ps|, d), state)
    ensures LogOk(ps, log) ==> LogOk(Reloaded(ps, |ps|, d), log)
  {
    var r := Reloaded(ps, |ps|, d);
    forall i | 0 <= i < |ps|
      ensures r[i].configured == ps[i].configured && r[i].state == ps[i].state
      ensures !ps[i].configured ==> r[i] == NO_PLAN
    {
      assert Readable(ps[i], d);
    }
  }

  lemma SavedLinesAreLines(ps: seq<Plan>, state: PlanState, deadline: real, d: Doubles)
    requires Fits(d, deadline) && forall i :: 0 <= i < |ps| ==> Writable(ps[i], d)
    ensures forall l :: l in Header(state, deadline, d) + MotorLines(ps, |ps|, d) ==> '\n' !in l
  {
    PlanNameIsSolid(state);
    MotorLinesAreLines(ps, |ps|, d);
    EntryIsLine("armed", if state == Armed || state == Running then "1" else "0");
    EntryIsLine("state", PlanStateName(state));
    EntryIsLine("deadline_s", d.show(deadline));
  }

  lemma EntryIsLine(key: string, value: string)
    requires '\n' !in key && '\n' !in value
    ensures '\n' !in Entry(key, value)
  {
  }
}
