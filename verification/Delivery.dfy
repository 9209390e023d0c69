// Delivery end to end: the onboard queue, one frame outstanding at a time, the
// connections between, and the ground station. The network may lose lines and
// ACKs, deliver late from dead connections, and reset at any time; either end
// may be restarted.
module Delivery {
  import opened GroundStations
  import opened QueueFile
  import opened TelemetryDrains
  import opened TelemetryQueues
  import opened Wrappers

  type Reader = Frame -> Reading

  // ---------- the whole system ----------

  // `ever` and `dropped` remember what was enqueued and what was given up.
  datatype System = System(
    core: Core, conn: nat, out: Option<Frame>,
    lines: multiset<(nat, Frame)>, acks: multiset<(nat, Ack)>,
    ground: Ground, ever: set<Frame>, dropped: set<Frame>)

  const START := System(Core(map[], map[], 0), 0, None, multiset{}, multiset{}, EMPTY_GROUND, {}, {})

  datatype Op =
    | Enqueue(f: Frame)
    | Prune(index: nat)
    | Send(index: nat)
    | Arrive(conn: nat, line: Frame, sent: bool, w: CursorWrite)   // maybe of a dead connection
    | Lose(conn: nat, line: Frame)
    | Accept(ack: Ack)                             // the outstanding frame's own ACK
    | Mismatch(ack: Ack)                           // any other ACK on the connection
    | Reset                                        // timeout, error, failover
    | Restart(back: Core)                          // a new process with what its file gave back
    | GroundRestart                                // a new ground station; what was not read is lost
    | GroundDies(conn: nat, line: Frame, w: CursorWrite)           // right after an answer

  ghost predicate Legal(s: System, op: Op) {
    match op
    case Enqueue(f) => f !in s.ever && forall g :: g in s.ever ==> KeyOf(g) != KeyOf(f)
    case Prune(index) => index in s.core.frames
    case Send(index) => s.out.None? && index in s.core.frames
    case Arrive(conn, line, _, _) => (conn, line) in s.lines
    case Lose(conn, line) => (conn, line) in s.lines
    case Accept(ack) => s.out.Some? && (s.conn, ack) in s.acks && ack == Expected(s.out.value)
    case Mismatch(ack) => s.out.Some? && (s.conn, ack) in s.acks
    case Reset => true
    case Restart(back) => CoreOk(back) && forall i :: i in back.frames ==> back.frames[i] in s.ever
    case GroundRestart => true
    case GroundDies(conn, line, _) => (conn, line) in s.lines
  }

  function Next(s: System, op: Op, parse: Reader): System {
    match op
    case Enqueue(f) => s.(core := InsertOf(s.core, f), ever := s.ever + {f})
    case Prune(index) =>
      if index in s.core.frames then
        s.(core := RemoveOf(s.core, index), dropped := s.dropped + {s.core.frames[index]})
      else s
    case Send(index) =>
      if index in s.core.frames then
        s.(out := Some(s.core.frames[index]), lines := s.lines + multiset{(s.conn, s.core.frames[index])})
      else s
    case Arrive(conn, line, sent, w) =>
      s.(lines := s.lines - multiset{(conn, line)},
         ground := Receive(s.ground, parse(line), sent, w),
         acks := if sent then WithAnswer(s.acks, conn, parse(line)) else s.acks)
    case Lose(conn, line) => s.(lines := s.lines - multiset{(conn, line)})
    case Accept(ack) =>
      if s.out.None? then s
      else s.(acks := s.acks - multiset{(s.conn, ack)}, core := AcknowledgeOf(s.core, s.out.value), out := None)
    case Mismatch(ack) => s.(acks := s.acks - multiset{(s.conn, ack)}, out := None)
    case Reset => s.(conn := s.conn + 1, out := None)
    case Restart(back) =>
      s.(core := back, conn := s.conn + 1, out := None, dropped := s.dropped + (s.core.frames.Values - back.frames.Values))
    case GroundRestart => s.(lines := multiset{}, ground := Reborn(s.ground))
    case GroundDies(conn, line, w) =>
      s.(lines := multiset{}, ground := Killed(s.ground, parse(line), w), acks := WithAnswer(s.acks, conn, parse(line)))
  }

  function WithAnswer(acks: multiset<(nat, Ack)>, conn: nat, r: Reading): multiset<(nat, Ack)> {
    if Answered(r).Some? then acks + multiset{(conn, Answered(r).value)} else acks
  }

  // The ground reads a frame's own key, or own pull, out of it.
  predicate WellFormed(f: Frame, parse: Reader) {
    parse(f) == Packet(KeyOf(f)) || (parse(f).Pull? && parse(f).session == f.session)
  }

  // On the current connection there is one message at most: the outstanding
  // frame's line or its answer, and an answer means the ground has read it.
  ghost predicate OneOutstanding(s: System, parse: Reader) {
    && (forall c, f :: (c, f) in s.lines ==> c <= s.conn && (c == s.conn ==> s.out == Some(f) && s.lines[(c, f)] == 1))
    && (forall c, a :: (c, a) in s.acks ==> c <= s.conn && (c == s.conn ==> AckOfOutstanding(s, a, parse)))
  }

  ghost predicate AckOfOutstanding(s: System, a: Ack, parse: Reader) {
    && s.out.Some? && Answered(parse(s.out.value)) == Some(a) && s.acks[(s.conn, a)] == 1
    && Known(s.ground, parse(s.out.value)) && (s.conn, s.out.value) !in s.lines
  }

  // Whatever was enqueued is pending, or known to the ground, or was dropped.
  ghost predicate Conserved(s: System, parse: Reader) {
    && (forall i :: i in s.core.frames ==> s.core.frames[i] in s.ever)
    && (forall f :: f in s.ever && WellFormed(f, parse) ==>
          f in s.core.frames.Values || Known(s.ground, parse(f)) || f in s.dropped)
  }

  // Distinct frames have distinct keys, and everything on its way was enqueued.
  ghost predicate Origins(s: System) {
    && (forall f, g :: f in s.ever && g in s.ever && KeyOf(f) == KeyOf(g) ==> f == g)
    && (s.out.Some? ==> s.out.value in s.ever)
    && (forall c, f :: (c, f) in s.lines ==> f in s.ever)
  }

  // The ground has read nothing that was not enqueued.
  ghost predicate NothingInvented(s: System, parse: Reader) {
    forall r :: r in s.ground.read ==> Source(s, r, parse)
  }

  ghost predicate Source(s: System, r: Reading, parse: Reader) {
    exists f :: f in s.ever && parse(f) == r
  }

  ghost predicate Inv(s: System, parse: Reader) {
    && CoreOk(s.core) && GroundOk(s.ground)
    && OneOutstanding(s, parse) && Conserved(s, parse) && Origins(s) && NothingInvented(s, parse)
  }

  lemma EnqueueStep(s: System, f: Frame, parse: Reader)
    requires Inv(s, parse) && Legal(s, Enqueue(f))
    ensures Inv(Next(s, Enqueue(f), parse), parse)
  {
    InsertKeepsIndexed(s.core, f);
    EnqueueConserves(s, f, parse);
    EnqueueKeepsOrigins(s, f, parse);
  }

  lemma EnqueueKeepsOrigins(s: System, f: Frame, parse: Reader)
    requires Origins(s) && NothingInvented(s, parse) && Legal(s, Enqueue(f))
    ensures var s' := Next(s, Enqueue(f), parse); Origins(s') && NothingInvented(s', parse)
  {
    var s' := Next(s, Enqueue(f), parse);
    forall r | r in s'.ground.read ensures Source(s', r, parse) {
      var g :| g in s.ever && parse(g) == r;
      assert g in s'.ever;
    }
  }

  lemma EnqueueConserves(s: System, f: Frame, parse: Reader)
    requires Conserved(s, parse) && CoreOk(s.core)
    ensures Conserved(Next(s, Enqueue(f), parse), parse)
  {
    InsertedOne(s.core, f);
  }

  lemma InsertedOne(c: Core, f: Frame)
    requires CoreOk(c)
    ensures forall g :: g in InsertOf(c, f).frames.Values <==> g in c.frames.Values || g == f
  {
    var c' := InsertOf(c, f);
    assert c'.frames[c.next] == f;
    forall g | g in c.frames.Values ensures g in c'.frames.Values {
      var i :| i in c.frames && c.frames[i] == g;
      assert c'.frames[i] == g;
    }
  }

  lemma PruneStep(s: System, index: nat, parse: Reader)
    requires Inv(s, parse) && Legal(s, Prune(index))
    ensures Inv(Next(s, Prune(index), parse), parse)
  {
    RemovedOne(s.core, index);
  }

  lemma ResetStep(s: System, parse: Reader)
    requires Inv(s, parse)
    ensures Inv(Next(s, Op.Reset, parse), parse)
  {
  }

  lemma RestartStep(s: System, back: Core, parse: Reader)
    requires Inv(s, parse) && Legal(s, Restart(back))
    ensures Inv(Next(s, Restart(back), parse), parse)
  {
  }

  // Only the frame at `index` goes.
  lemma RemovedOne(c: Core, index: nat)
    requires CoreOk(c) && index in c.frames
    ensures CoreOk(RemoveOf(c, index))
    ensures forall f :: f in c.frames.Values ==> f in RemoveOf(c, index).frames.Values || f == c.frames[index]
  {
    RemoveKeepsIndexed(c, index);
    var c' := RemoveOf(c, index);
    forall f | f in c.frames.Values && f != c.frames[index] ensures f in c'.frames.Values {
      var i :| i in c.frames && c.frames[i] == f;
      assert c'.frames[i] == f;
    }
  }

  lemma SendStep(s: System, index: nat, parse: Reader)
    requires Inv(s, parse) && Legal(s, Send(index))
    ensures Inv(Next(s, Send(index), parse), parse)
  {
    var f := s.core.frames[index];
    assert (s.conn, f) !in s.lines;
  }

  lemma ArriveStep(s: System, conn: nat, line: Frame, sent: bool, w: CursorWrite, parse: Reader)
    requires Inv(s, parse) && Legal(s, Arrive(conn, line, sent, w))
    ensures Inv(Next(s, Arrive(conn, line, sent, w), parse), parse)
  {
    ReceiveKeepsGround(s.ground, parse(line), sent, w);
    ArriveKeepsOne(s, conn, line, sent, w, parse);
    LineKeepsOrigins(s, conn, line, Next(s, Arrive(conn, line, sent, w), parse), parse);
  }

  lemma LineKeepsOrigins(s: System, conn: nat, line: Frame, s': System, parse: Reader)
    requires Origins(s) && NothingInvented(s, parse) && (conn, line) in s.lines
    requires s'.ever == s.ever && s'.out == s.out && s'.lines <= s.lines
    requires s'.ground.read <= s.ground.read + {parse(line)}
    ensures Origins(s') && NothingInvented(s', parse)
  {
    forall r | r in s'.ground.read ensures Source(s', r, parse) {
      if r in s.ground.read { assert Source(s, r, parse); } else { assert line in s'.ever && parse(line) == r; }
    }
  }

  lemma ArriveKeepsOne(s: System, conn: nat, line: Frame, sent: bool, w: CursorWrite, parse: Reader)
    requires OneOutstanding(s, parse) && GroundOk(s.ground) && Legal(s, Arrive(conn, line, sent, w))
    ensures OneOutstanding(Next(s, Arrive(conn, line, sent, w), parse), parse)
  {
    var s' := Next(s, Arrive(conn, line, sent, w), parse);
    ReceiveKeepsGround(s.ground, parse(line), sent, w);
    AnswersKeepOne(s, conn, line, s', parse);
  }

  // A line read and perhaps answered.
  lemma AnswersKeepOne(s: System, conn: nat, line: Frame, s': System, parse: Reader)
    requires OneOutstanding(s, parse) && (conn, line) in s.lines
    requires s'.conn == s.conn && s'.out == s.out && s'.lines <= s.lines - multiset{(conn, line)}
    requires s'.acks == s.acks || s'.acks == WithAnswer(s.acks, conn, parse(line))
    requires s.ground.read <= s'.ground.read && Known(s'.ground, parse(line))
    ensures OneOutstanding(s', parse)
  {
    forall c, a | (c, a) in s'.acks
      ensures c <= s.conn && (c == s.conn ==> AckOfOutstanding(s', a, parse))
    {
      if (c, a) !in s.acks || (c == conn && c == s.conn) {
        assert c == conn && s.lines[(conn, line)] >= 1;
      }
    }
  }

  lemma GroundRestartStep(s: System, parse: Reader)
    requires Inv(s, parse)
    ensures Inv(Next(s, GroundRestart, parse), parse)
  {
    RebornKeepsGround(s.ground);
    var s' := Next(s, GroundRestart, parse);
    forall r | r in s'.ground.read ensures Source(s', r, parse) {
      assert Source(s, r, parse);
    }
  }

  lemma GroundDiesStep(s: System, conn: nat, line: Frame, w: CursorWrite, parse: Reader)
    requires Inv(s, parse) && Legal(s, GroundDies(conn, line, w))
    ensures Inv(Next(s, GroundDies(conn, line, w), parse), parse)
  {
    var s' := Next(s, GroundDies(conn, line, w), parse);
    KilledKeepsGround(s.ground, parse(line), w);
    AnswersKeepOne(s, conn, line, s', parse);
    LineKeepsOrigins(s, conn, line, s', parse);
  }

  lemma LoseStep(s: System, conn: nat, line: Frame, parse: Reader)
    requires Inv(s, parse) && Legal(s, Lose(conn, line))
    ensures Inv(Next(s, Lose(conn, line), parse), parse)
  {
  }

  lemma AcceptStep(s: System, ack: Ack, parse: Reader)
    requires Inv(s, parse) && Legal(s, Accept(ack))
    ensures Inv(Next(s, Accept(ack), parse), parse)
  {
    var f := s.out.value;
    if KeyOf(f) in s.core.byKey {
      RemovedOne(s.core, s.core.byKey[KeyOf(f)]);
    }
  }

  lemma MismatchStep(s: System, ack: Ack, parse: Reader)
    requires Inv(s, parse) && Legal(s, Mismatch(ack))
    ensures Inv(Next(s, Mismatch(ack), parse), parse)
  {
  }

  lemma StepKeepsInv(s: System, op: Op, parse: Reader)
    requires Inv(s, parse) && Legal(s, op)
    ensures Inv(Next(s, op, parse), parse) && Continues(s.ground, Next(s, op, parse).ground)
  {
    match op
    case Send(index) => SendStep(s, index, parse);
    case Arrive(conn, line, sent, w) =>
      ArriveStep(s, conn, line, sent, w, parse);
      ReceiveKeepsGround(s.ground, parse(line), sent, w);
    case Lose(conn, line) => LoseStep(s, conn, line, parse);
    case Accept(ack) => AcceptStep(s, ack, parse);
    case Mismatch(ack) => MismatchStep(s, ack, parse);
    case Enqueue(f) => EnqueueStep(s, f, parse);
    case Prune(index) => PruneStep(s, index, parse);
    case Reset => ResetStep(s, parse);
    case Restart(back) => RestartStep(s, back, parse);
    case GroundRestart =>
      GroundRestartStep(s, parse);
      RebornKeepsGround(s.ground);
    case GroundDies(conn, line, w) =>
      GroundDiesStep(s, conn, line, w, parse);
      KilledKeepsGround(s.ground, parse(line), w);
  }

  // ---------- whole runs ----------

  function Run(s: System, ops: seq<Op>, parse: Reader): System
    decreases |ops|
  {
    if ops == [] then s else Run(Next(s, ops[0], parse), ops[1..], parse)
  }

  ghost predicate LegalRun(s: System, ops: seq<Op>, parse: Reader)
    decreases |ops|
  {
    ops == [] || (Legal(s, ops[0]) && LegalRun(Next(s, ops[0], parse), ops[1..], parse))
  }

  lemma {:induction false} RunKeepsInv(s: System, ops: seq<Op>, parse: Reader)
    requires Inv(s, parse) && LegalRun(s, ops, parse)
    ensures Inv(Run(s, ops, parse), parse) && Continues(s.ground, Run(s, ops, parse).ground)
    decreases |ops|
  {
    if ops != [] {
      StepKeepsInv(s, ops[0], parse);
      RunKeepsInv(Next(s, ops[0], parse), ops[1..], parse);
    }
  }

  // No frame is lost silently: what is no longer pending was received by the
  // ground, unless the queue itself dropped it.
  lemma NothingLostSilently(ops: seq<Op>, parse: Reader, f: Frame)
    requires LegalRun(START, ops, parse)
    ensures var s := Run(START, ops, parse);
      f in s.ever && WellFormed(f, parse) && f !in s.core.frames.Values && f !in s.dropped ==>
        Known(s.ground, parse(f))
  {
    RunKeepsInv(START, ops, parse);
  }

  // Logged is only what was enqueued. A packet is logged at most once as long as
  // the cursor file kept all that was known over every restart of the ground
  // station; a pull at most once without such a restart; and neither ever more
  // often than there were processes to log it.
  lemma LoggedAtMostOnce(ops: seq<Op>, parse: Reader)
    requires LegalRun(START, ops, parse)
    ensures var s := Run(START, ops, parse);
      && (forall k :: k in s.ground.log ==> Source(s, Packet(k), parse))
      && (forall p :: p in s.ground.pulls ==> Source(s, Pull(p.0, p.1), parse))
      && (s.ground.kept ==> forall k :: Times(s.ground.log, k) <= 1)
      && (s.ground.restarts == 0 ==> forall p :: Times(s.ground.pulls, p) <= 1)
      && (forall k :: Times(s.ground.log, k) <= 1 + s.ground.restarts)
      && (forall p :: Times(s.ground.pulls, p) <= 1 + s.ground.restarts)
  {
    RunKeepsInv(START, ops, parse);
  }

  // Every write of the cursor file gets through, or a restart comes before it.
  predicate CursorWorks(op: Op) {
    (op.Arrive? ==> op.w == Saved) && (op.GroundDies? ==> op.w != Torn)
  }

  // Then the file keeps all that is known, over every restart.
  lemma {:induction false} WorkingCursorKeeps(s: System, ops: seq<Op>, parse: Reader)
    requires s.ground.kept && s.ground.stored == s.ground.seen
    requires forall i :: 0 <= i < |ops| ==> CursorWorks(ops[i])
    ensures var g := Run(s, ops, parse).ground; g.kept && g.stored == g.seen
    decreases |ops|
  {
    if ops != [] {
      WorkingCursorStep(s, ops[0], parse);
      WorkingCursorKeeps(Next(s, ops[0], parse), ops[1..], parse);
    }
  }

  lemma WorkingCursorStep(s: System, op: Op, parse: Reader)
    requires s.ground.kept && s.ground.stored == s.ground.seen && CursorWorks(op)
    ensures var g := Next(s, op, parse).ground; g.kept && g.stored == g.seen
  {
    match op
    case Arrive(conn, line, sent, w) => CursorHolds(s.ground, parse(line), sent, w);
    case GroundDies(conn, line, w) => CursorHolds(s.ground, parse(line), true, w);
    case _ =>
  }

  // A packet that was read is in the log, or its first answer could not be sent,
  // or the ground station ended right after that answer. While the file keeps
  // what is known, a known packet is in the log exactly when its first answer was
  // sent and the log entry reached; if not, no later step ever logs it.
  lemma LoggedUnlessMuted(ops: seq<Op>, more: seq<Op>, parse: Reader, k: Key)
    requires LegalRun(START, ops, parse) && LegalRun(Run(START, ops, parse), more, parse)
    ensures var g, g' := Run(START, ops, parse).ground, Run(Run(START, ops, parse), more, parse).ground;
      && (Packet(k) in g.read ==> k in g.log || k in g.muted || k in g.gone)
      && (g.kept && k in g.seen ==> (k in g.log <==> k !in g.muted))
      && (g'.kept && k in g.muted ==> k !in g'.log)
  {
    RunKeepsInv(START, ops, parse);
    RunKeepsInv(Run(START, ops, parse), more, parse);
  }

  // A pending frame leaves, if the queue does not drop it, with its own ACK
  // only, and then the ground has read it.
  lemma LeavesOnlyWhenKnown(s: System, op: Op, parse: Reader, i: nat)
    requires Inv(s, parse) && Legal(s, op) && !op.Prune? && !op.Restart?
    requires i in s.core.frames && i !in Next(s, op, parse).core.frames
    ensures op.Accept? && op.ack == Expected(s.core.frames[i])
    ensures s.out == Some(s.core.frames[i]) && Known(s.ground, parse(s.core.frames[i]))
  {
  }

  // A queue that can find every frame by its key stays so until a restart
  // brings back a file with a frame twice in it.
  lemma StepKeepsIndexed(s: System, op: Op, parse: Reader)
    requires Inv(s, parse) && Legal(s, op) && Indexed(s.core)
    ensures op.Restart? || Indexed(Next(s, op, parse).core)
    ensures op.Restart? ==> (Indexed(Next(s, op, parse).core) <==> Indexed(op.back))
  {
    if op.Enqueue? { InsertKeepsIndexed(s.core, op.f); }
    if op.Prune? { RemoveKeepsIndexed(s.core, op.index); }
    if op.Accept? && KeyOf(s.out.value) in s.core.byKey {
      RemoveKeepsIndexed(s.core, s.core.byKey[KeyOf(s.out.value)]);
    }
  }

  // While the queue finds every frame by its key, an accepted ACK takes the
  // outstanding frame out, wherever it is by then.
  lemma AcceptTakesItsFrame(s: System, ack: Ack, parse: Reader)
    requires Inv(s, parse) && Legal(s, Accept(ack)) && Indexed(s.core)
    ensures s.out.value !in Next(s, Accept(ack), parse).core.frames.Values
  {
  }

  lemma Backwards(s: System, op: Op, s': System, ops: seq<Op>, parse: Reader) returns (longer: seq<Op>)
    requires Legal(s, op) && Next(s, op, parse) == s' && LegalRun(s', ops, parse)
    ensures LegalRun(s, longer, parse) && Run(s, longer, parse) == Run(s', ops, parse)
  {
    longer := [op] + ops;
    assert longer[1..] == ops;
  }

  // The gap: the ground marks a packet, cannot send its ACK and does not log
  // it; the repeat is acknowledged as a duplicate. It is delivered and in no log.
  lemma DeliveredButNeverLogged(f: Frame, parse: Reader) returns (ops: seq<Op>)
    requires !f.IsEvent() && parse(f) == Packet(KeyOf(f))
    ensures LegalRun(START, ops, parse)
    ensures var s := Run(START, ops, parse);
      s.core.frames == map[] && s.dropped == {} && KeyOf(f) in s.ground.seen && s.ground.log == []
  {
    var s2 := OnItsWay(f);
    var s3 := s2.(lines := multiset{}, ground := Receive(EMPTY_GROUND, parse(f), false, Saved));
    var s4 := s3.(conn := 1, out := None);
    assert Next(s2, Arrive(0, f, false, Saved), parse) == s3;
    ops := Exchange(s4, 0, f, parse);
    ops := Backwards(s3, Op.Reset, s4, ops, parse);
    ops := Backwards(s2, Arrive(0, f, false, Saved), s3, ops, parse);
    ops := FromStart(f, ops, parse);
  }

  // One frame, put in and sent.
  function OnItsWay(f: Frame): System {
    START.(core := Core(map[0 := f], map[KeyOf(f) := 0], 1), ever := {f}, out := Some(f), lines := multiset{(0, f)})
  }

  lemma FromStart(f: Frame, ops: seq<Op>, parse: Reader) returns (longer: seq<Op>)
    requires LegalRun(OnItsWay(f), ops, parse)
    ensures LegalRun(START, longer, parse) && Run(START, longer, parse) == Run(OnItsWay(f), ops, parse)
  {
    var s1 := OnItsWay(f).(out := None, lines := multiset{});
    assert Next(START, Enqueue(f), parse) == s1;
    assert Next(s1, Send(0), parse) == OnItsWay(f);
    longer := Backwards(s1, Send(0), OnItsWay(f), ops, parse);
    longer := Backwards(START, Enqueue(f), s1, longer, parse);
  }

  // An exchange with nothing else on its way: the ground reads the frame, and
  // its answer takes the frame out of the queue.
  lemma Exchange(s: System, index: nat, f: Frame, parse: Reader) returns (ops: seq<Op>)
    requires index in s.core.frames && s.core.frames[index] == f && s.out == None
    requires (s.conn, f) !in s.lines && Answered(parse(f)) == Some(Expected(f)) && (s.conn, Expected(f)) !in s.acks
    ensures LegalRun(s, ops, parse)
    ensures Run(s, ops, parse)
         == s.(core := AcknowledgeOf(s.core, f), ground := Receive(s.ground, parse(f), true, Saved))
  {
    var s1 := s.(out := Some(f), lines := s.lines + multiset{(s.conn, f)});
    assert Next(s, Send(index), parse) == s1;
    ops := ReadAndAccepted(s, f, parse);
    ops := Backwards(s, Send(index), s1, ops, parse);
  }

  // The second half of it, with `s` as it was before the frame was sent.
  lemma ReadAndAccepted(s: System, f: Frame, parse: Reader) returns (ops: seq<Op>)
    requires (s.conn, f) !in s.lines && Answered(parse(f)) == Some(Expected(f)) && (s.conn, Expected(f)) !in s.acks
    ensures var s1 := s.(out := Some(f), lines := s.lines + multiset{(s.conn, f)});
      && LegalRun(s1, ops, parse)
      && Run(s1, ops, parse)
           == s.(out := None, core := AcknowledgeOf(s.core, f), ground := Receive(s.ground, parse(f), true, Saved))
  {
    var ack := Expected(f);
    var s1 := s.(out := Some(f), lines := s.lines + multiset{(s.conn, f)});
    var s2 := s1.(lines := s.lines, acks := s.acks + multiset{(s.conn, ack)},
                  ground := Receive(s.ground, parse(f), true, Saved));
    var s3 := s2.(acks := s.acks, core := AcknowledgeOf(s.core, f), out := None);
    assert Next(s1, Arrive(s.conn, f, true, Saved), parse) == s2;
    assert Next(s2, Accept(ack), parse) == s3;
    ops := Backwards(s2, Accept(ack), s3, [], parse);
    ops := Backwards(s1, Arrive(s.conn, f, true, Saved), s2, ops, parse);
  }

  // ---------- what a restart of the ground station may bring again ----------

  // Until the next restart of either end, and with no second frame of this reading.
  predicate Calm(op: Op, r: Reading, parse: Reader) {
    !op.Restart? && !op.GroundRestart? && !op.GroundDies? && (op.Enqueue? ==> parse(op.f) != r)
  }

  predicate AllCalm(ops: seq<Op>, r: Reading, parse: Reader) { forall i :: 0 <= i < |ops| ==> Calm(ops[i], r, parse) }

  ghost predicate PendingReads(s: System, r: Reading, parse: Reader) {
    exists i :: i in s.core.frames && parse(s.core.frames[i]) == r
  }

  ghost predicate OnTheWay(s: System, r: Reading, parse: Reader) {
    exists c, f :: (c, f) in s.lines && parse(f) == r
  }

  ghost predicate LogsAgain(s: System, ops: seq<Op>, r: Reading, parse: Reader) {
    LegalRun(s, ops, parse) && AllCalm(ops, r, parse) && Entries(Run(s, ops, parse).ground, r) > Entries(s.ground, r)
  }

  ghost predicate MayLogAgain(s: System, r: Reading, parse: Reader) { exists ops :: LogsAgain(s, ops, r, parse) }

  // After a restart of the ground station a packet or pull can get another log
  // entry exactly when its frame is still pending and it was not in the cursor
  // file, where no pull ever is.
  lemma RelogExactly(s: System, r: Reading, parse: Reader)
    requires Inv(s, parse) && (r.Packet? || r.Pull?)
    ensures MayLogAgain(Next(s, GroundRestart, parse), r, parse)
       <==> PendingReads(s, r, parse) && (r.Packet? ==> r.key !in s.ground.stored)
  {
    var s' := Next(s, GroundRestart, parse);
    assert Remembered(s'.ground, r) <==> r.Packet? && r.key in s.ground.stored;
    if PendingReads(s, r, parse) && !Remembered(s'.ground, r) {
      OnceMore(s', r, parse);
    } else {
      assert !OnTheWay(s', r, parse) && (PendingReads(s', r, parse) <==> PendingReads(s, r, parse));
      NeverAgain(s', r, parse);
    }
  }

  lemma OnceMore(s: System, r: Reading, parse: Reader)
    requires PendingReads(s, r, parse) && !Remembered(s.ground, r) && (r.Packet? || r.Pull?)
    ensures MayLogAgain(s, r, parse)
  {
    var i :| i in s.core.frames && parse(s.core.frames[i]) == r;
    var ops := LoggedOnceMore(s, i, parse);
    assert LogsAgain(s, ops, r, parse);
  }

  lemma NeverAgain(s: System, r: Reading, parse: Reader)
    requires Remembered(s.ground, r) || (!PendingReads(s, r, parse) && !OnTheWay(s, r, parse))
    requires r.Packet? || r.Pull?
    ensures !MayLogAgain(s, r, parse)
  {
    if ops :| LogsAgain(s, ops, r, parse) { NotLoggedAgain(s, ops, r, parse); }
  }

  lemma LoggedOnceMore(s: System, i: nat, parse: Reader) returns (ops: seq<Op>)
    requires i in s.core.frames && !Remembered(s.ground, parse(s.core.frames[i]))
    requires parse(s.core.frames[i]).Packet? || parse(s.core.frames[i]).Pull?
    ensures LegalRun(s, ops, parse) && AllCalm(ops, parse(s.core.frames[i]), parse)
    ensures Entries(Run(s, ops, parse).ground, parse(s.core.frames[i])) == Entries(s.ground, parse(s.core.frames[i])) + 1
  {
    var f := s.core.frames[i];
    var r := parse(f);
    var s1 := Next(s, Op.Reset, parse);
    var s2 := Next(s1, Send(i), parse);
    var s3 := Next(s2, Arrive(s1.conn, f, true, Saved), parse);
    assert s3.ground == Receive(s.ground, r, true, Saved);
    EntryExactly(s.ground, r, true, Saved, r);
    ops := BackwardsCalm(s2, Arrive(s1.conn, f, true, Saved), s3, [], r, parse);
    ops := BackwardsCalm(s1, Send(i), s2, ops, r, parse);
    ops := BackwardsCalm(s, Op.Reset, s1, ops, r, parse);
  }

  lemma BackwardsCalm(s: System, op: Op, s': System, ops: seq<Op>, r: Reading, parse: Reader) returns (longer: seq<Op>)
    requires Legal(s, op) && Next(s, op, parse) == s' && LegalRun(s', ops, parse)
    requires Calm(op, r, parse) && AllCalm(ops, r, parse)
    ensures LegalRun(s, longer, parse) && Run(s, longer, parse) == Run(s', ops, parse) && AllCalm(longer, r, parse)
  {
    longer := [op] + ops;
    assert longer[1..] == ops;
  }

  lemma {:induction false} NotLoggedAgain(s: System, ops: seq<Op>, r: Reading, parse: Reader)
    requires LegalRun(s, ops, parse) && AllCalm(ops, r, parse) && (r.Packet? || r.Pull?)
    requires Remembered(s.ground, r) || (!PendingReads(s, r, parse) && !OnTheWay(s, r, parse))
    ensures Entries(Run(s, ops, parse).ground, r) == Entries(s.ground, r)
    decreases |ops|
  {
    if ops != [] {
      CalmStep(s, ops[0], r, parse);
      NotLoggedAgain(Next(s, ops[0], parse), ops[1..], r, parse);
    }
  }

  lemma CalmStep(s: System, op: Op, r: Reading, parse: Reader)
    requires Legal(s, op) && Calm(op, r, parse) && (r.Packet? || r.Pull?)
    requires Remembered(s.ground, r) || (!PendingReads(s, r, parse) && !OnTheWay(s, r, parse))
    ensures var s' := Next(s, op, parse);
      && Entries(s'.ground, r) == Entries(s.ground, r)
      && (Remembered(s'.ground, r) || (!PendingReads(s', r, parse) && !OnTheWay(s', r, parse)))
  {
    GroundStaysCalm(s, op, r, parse);
    if !Remembered(s.ground, r) {
      NoneComesIn(s, op, r, parse);
      NoneSetsOut(s, op, r, parse);
    }
  }

  lemma GroundStaysCalm(s: System, op: Op, r: Reading, parse: Reader)
    requires Legal(s, op) && Calm(op, r, parse) && (r.Packet? || r.Pull?)
    requires Remembered(s.ground, r) || !OnTheWay(s, r, parse)
    ensures var g := Next(s, op, parse).ground;
      Entries(g, r) == Entries(s.ground, r) && (Remembered(s.ground, r) ==> Remembered(g, r))
  {
    if op.Arrive? { EntryExactly(s.ground, parse(op.line), op.sent, op.w, r); }
  }

  lemma NoneComesIn(s: System, op: Op, r: Reading, parse: Reader)
    requires Legal(s, op) && Calm(op, r, parse) && !PendingReads(s, r, parse)
    ensures !PendingReads(Next(s, op, parse), r, parse)
  {
    var c' := Next(s, op, parse).core;
    forall i | i in c'.frames ensures parse(c'.frames[i]) != r {
      assert i in s.core.frames || (op.Enqueue? && c'.frames[i] == op.f);
    }
  }

  lemma NoneSetsOut(s: System, op: Op, r: Reading, parse: Reader)
    requires Legal(s, op) && Calm(op, r, parse) && !PendingReads(s, r, parse) && !OnTheWay(s, r, parse)
    ensures !OnTheWay(Next(s, op, parse), r, parse)
  {
    var lines := Next(s, op, parse).lines;
    forall c, f | (c, f) in lines ensures parse(f) != r {
      assert (c, f) in s.lines || (op.Send? && f == s.core.frames[op.index]);
    }
  }

  // It happens to a pull that was logged and whose answer could not be sent.
  lemma PullLoggedTwice(f: Frame, id: nat, parse: Reader) returns (ops: seq<Op>)
    requires f.IsEvent() && parse(f) == Pull(f.session, id)
    ensures LegalRun(START, ops, parse)
    ensures var s := Run(START, ops, parse);
      s.core.frames == map[] && s.ground.kept && s.ground.pulls == [(f.session, id), (f.session, id)]
  {
    ops := ReadTwice(f, false, Saved, parse);
  }

  // And to a packet whose cursor write failed and whose answer was lost.
  lemma PacketLoggedTwice(f: Frame, parse: Reader) returns (ops: seq<Op>)
    requires !f.IsEvent() && parse(f) == Packet(KeyOf(f))
    ensures LegalRun(START, ops, parse)
    ensures var s := Run(START, ops, parse);
      s.core.frames == map[] && !s.ground.kept && s.ground.log == [KeyOf(f), KeyOf(f)]
  {
    ops := ReadTwice(f, true, Unsaved, parse);
  }

  // Read once, then the ground station restarts, then read and answered again.
  lemma ReadTwice(f: Frame, sent: bool, w: CursorWrite, parse: Reader) returns (ops: seq<Op>)
    requires Answered(parse(f)) == Some(Expected(f))
    ensures LegalRun(START, ops, parse)
    ensures var s := Run(START, ops, parse);
      && s.core.frames == map[]
      && s.ground == Receive(Reborn(Receive(EMPTY_GROUND, parse(f), sent, w)), parse(f), true, Saved)
  {
    var s2 := OnItsWay(f);
    var s3 := Next(s2, Arrive(0, f, sent, w), parse);
    var s4 := Next(s3, GroundRestart, parse);
    var s5 := Next(s4, Op.Reset, parse);
    ops := Exchange(s5, 0, f, parse);
    ops := Backwards(s4, Op.Reset, s5, ops, parse);
    ops := Backwards(s3, GroundRestart, s4, ops, parse);
    ops := Backwards(s2, Arrive(0, f, sent, w), s3, ops, parse);
    ops := FromStart(f, ops, parse);
  }

  // The ground station ends between the answer to a packet and its cursor write:
  // the frame leaves the queue and nobody knows of it.
  lemma AnsweredThenForgotten(f: Frame, parse: Reader) returns (ops: seq<Op>)
    requires !f.IsEvent() && parse(f) == Packet(KeyOf(f))
    ensures LegalRun(START, ops, parse)
    ensures var s := Run(START, ops, parse);
      s.core.frames == map[] && s.dropped == {} && s.ground.seen == {} && s.ground.stored == {} && s.ground.log == []
  {
    var s2 := OnItsWay(f);
    var s3 := Next(s2, GroundDies(0, f, Unsaved), parse);
    var s4 := Next(s3, Accept(Expected(f)), parse);
    ops := Backwards(s3, Accept(Expected(f)), s4, [], parse);
    ops := Backwards(s2, GroundDies(0, f, Unsaved), s3, ops, parse);
    ops := FromStart(f, ops, parse);
  }
}
