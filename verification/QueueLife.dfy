// The queue over whole lives: any run of operations from an empty start or
// from a file, and what the next process finds.
module QueueLives {
  import opened QueueDisks
  import opened QueueFile
  import opened Subsequence
  import opened TelemetryQueues
  import opened Text
  import opened Wrappers

  datatype QueueOp =
    | Put(f: Frame, now: int, io: Io)
    | AckExact(f: Frame, io: Io)
    | AckUpTo(session: string, number: nat, io: Io)

  // The disk may fail at this operation, but not without being noticed, and a
  // frame put in can be kept.
  predicate Quiet(op: QueueOp) {
    !op.io.retry.Unnoticed? && !op.io.compact.Unnoticed? && (op.Put? ==> Keepable(op.f))
  }

  predicate AllQuiet(ops: seq<QueueOp>) { forall i :: 0 <= i < |ops| ==> Quiet(ops[i]) }

  lemma QuietOneMore(ops: seq<QueueOp>, op: QueueOp)
    ensures AllQuiet(ops + [op]) <==> AllQuiet(ops) && Quiet(op)
  {
    assert (ops + [op])[|ops|] == op;
    forall i | 0 <= i < |ops| ensures (ops + [op])[i] == ops[i] {}
  }

  // How a process is set up, and what its start meets.
  datatype Setup = Setup(retention: int, maxBytes: nat, limits: Limits, now: int, dirReady: bool, created: bool, first: Rewrite)

  // What a restart would read back.
  ghost predicate Recoverable(q: TelemetryQueue, now: int)
    reads q
  {
    && q.file.Some?
    && Sub(Fresh(Pending(q.frames, q.next), now, q.retention), Recovered(Split(q.file.value, '\n'), now, q.retention))
  }

  // ---------- what a life comes to ----------

  datatype Life = Life(core: Core, disk: Disk)
  {
    function LiveBytes(): nat { BytesBelow(core.frames, core.next) }

    function AllBytes(): nat { LiveBytes() + disk.dead }

    function PendingText(): string { Join(Lines(Pending(core.frames, core.next))) }

    // With other frames: what is no longer pending is dead, as `added` new bytes are.
    function With(c: Core, added: nat): Life {
      var dead := AllBytes() + added - Life(c, disk).LiveBytes();
      Life(c, disk.(dead := if dead < 0 then 0 else dead))
    }
  }

  ghost function Now(q: TelemetryQueue): Life
    reads q
  {
    Life(q.State(), q.OnDisk())
  }

  // A start without a directory or a new file leaves persistence off; what the
  // file of the last process holds is loaded in order and rewritten.
  function StartOf(s: Setup, onDisk: Option<string>): Life {
    if !s.dirReady then Life(LoadOf([]), Disk(false, onDisk, 0))
    else if onDisk.None? then Life(LoadOf([]), Disk(s.created, if s.created then Some("") else None, 0))
    else
      var loaded := Life(LoadOf(Recovered(Split(onDisk.value, '\n'), s.now, s.retention)), Disk(true, onDisk, 0));
      loaded.(disk := Rewriting(loaded.disk, loaded.PendingText(), s.first))
  }

  // The new frame goes in last, the head is cut off where pruning cuts.
  function PutOf(c: Core, f: Frame, now: int, s: Setup): Core {
    var kept := PruneOf(c.frames[c.next := f], c.next + 1, now, s.retention, s.maxBytes);
    Core(kept, KeptKeys(c.byKey[KeyOf(f) := c.next], kept), c.next + 1)
  }

  function UpTo(c: Core, session: string, number: nat): Core {
    var kept := map i | i in c.frames && !(c.frames[i].session == session && c.frames[i].number <= number) :: c.frames[i];
    Core(kept, KeptKeys(c.byKey, kept), c.next)
  }

  function AfterTaking(was: Life, c: Core, s: Setup, io: Io): Life {
    var left := was.With(c, 0);
    if c == was.core then was
    else left.(disk := AfterRemoval(left.disk, left.PendingText(), left.LiveBytes(), s.limits, io))
  }

  function StepOf(was: Life, op: QueueOp, s: Setup): Life {
    match op
    case Put(f, now, io) =>
      var more := was.With(PutOf(was.core, f, now, s), LineBytes(f));
      more.(disk := AfterEnqueue(more.disk, FormatLine(f), more.PendingText(), more.LiveBytes(), s.limits, io))
    case AckExact(f, io) => AfterTaking(was, AcknowledgeOf(was.core, f), s, io)
    case AckUpTo(session, number, io) => AfterTaking(was, UpTo(was.core, session, number), s, io)
  }

  function LifeOf(s: Setup, onDisk: Option<string>, ops: seq<QueueOp>): Life {
    if ops == [] then StartOf(s, onDisk)
    else StepOf(LifeOf(s, onDisk, ops[..|ops| - 1]), ops[|ops| - 1], s)
  }

  ghost predicate SetUpAs(q: TelemetryQueue, s: Setup) {
    q.retention == s.retention && q.maxBytes == s.maxBytes && q.limits == s.limits
  }

  // ---------- and what it keeps ----------

  method Perform(q: TelemetryQueue, op: QueueOp, ghost s: Setup)
    requires q.Valid() && SetUpAs(q, s)
    modifies q
    ensures q.Valid() && Now(q) == StepOf(old(Now(q)), op, s)
    ensures old(q.Persisted()) && Quiet(op) ==> q.Persisted()
  {
    match op
    case Put(f, now, io) => PutIn(q, f, now, io, s);
    case AckExact(f, io) => TakeExact(q, f, io, s);
    case AckUpTo(session, number, io) => TakeUpTo(q, session, number, io, s);
  }

  method PutIn(q: TelemetryQueue, f: Frame, now: int, io: Io, ghost s: Setup)
    requires q.Valid() && SetUpAs(q, s)
    modifies q
    ensures q.Valid() && Now(q) == StepOf(old(Now(q)), Put(f, now, io), s)
    ensures old(q.Persisted()) && Quiet(Put(f, now, io)) ==> q.Persisted()
  {
    ghost var was := Now(q);
    var index := q.Enqueue(f, now, io);
    PutIs(was, Now(q), f, now, io, s);
    NoticedIsHarmless(was.With(q.State(), LineBytes(f)).disk, FormatLine(f), q.PendingLines(), q.liveBytes, q.limits, io);
  }

  lemma PutIs(was: Life, l: Life, f: Frame, now: int, io: Io, s: Setup)
    requires l.core == PutOf(was.core, f, now, s)
    requires var more := was.With(l.core, LineBytes(f));
      l.disk == AfterEnqueue(more.disk, FormatLine(f), l.PendingText(), l.LiveBytes(), s.limits, io)
    ensures l == StepOf(was, Put(f, now, io), s)
  {
  }

  method TakeExact(q: TelemetryQueue, f: Frame, io: Io, ghost s: Setup)
    requires q.Valid() && SetUpAs(q, s)
    modifies q
    ensures q.Valid() && Now(q) == StepOf(old(Now(q)), AckExact(f, io), s)
    ensures old(q.Persisted()) && Quiet(AckExact(f, io)) ==> q.Persisted()
  {
    q.AcknowledgeExact(f, io);
  }

  method TakeUpTo(q: TelemetryQueue, session: string, number: nat, io: Io, ghost s: Setup)
    requires q.Valid() && SetUpAs(q, s)
    modifies q
    ensures q.Valid() && Now(q) == StepOf(old(Now(q)), AckUpTo(session, number, io), s)
    ensures old(q.Persisted()) && Quiet(AckUpTo(session, number, io)) ==> q.Persisted()
  {
    ghost var was := q.State();
    q.Acknowledge(session, number, io);
    assert q.frames == UpTo(was, session, number).frames;
  }

  method Start(setup: Setup, onDisk: Option<string>) returns (q: TelemetryQueue)
    ensures fresh(q) && q.Valid() && SetUpAs(q, setup) && Now(q) == StartOf(setup, onDisk)
    ensures !setup.first.Unnoticed? ==> q.Persisted()
  {
    q := new TelemetryQueue(setup.retention, setup.maxBytes, setup.limits, onDisk);
    var ok := q.Initialize(setup.now, setup.dirReady, setup.created, setup.first);
  }

  // From a start on any file, through any operations: as long as no failure of
  // the disk goes unnoticed, the file holds the pending frames whenever
  // persistence is on, and a restart at any time reads back every fresh one.
  method Live(setup: Setup, onDisk: Option<string>, ops: seq<QueueOp>, later: int) returns (q: TelemetryQueue)
    ensures fresh(q) && q.Valid() && SetUpAs(q, setup) && Now(q) == LifeOf(setup, onDisk, ops)
    ensures !setup.first.Unnoticed? && AllQuiet(ops) ==> q.Persisted()
    ensures q.persistence && q.Persisted() ==> Recoverable(q, later)
  {
    q := Start(setup, onDisk);
    for i := 0 to |ops|
      invariant fresh(q) && q.Valid() && SetUpAs(q, setup) && Now(q) == LifeOf(setup, onDisk, ops[..i])
      invariant !setup.first.Unnoticed? && AllQuiet(ops[..i]) ==> q.Persisted()
    {
      QuietOneMore(ops[..i], ops[i]);
      assert ops[..i + 1] == ops[..i] + [ops[i]];
      Perform(q, ops[i], setup);
    }
    assert ops[..|ops|] == ops;
    if q.persistence && q.Persisted() { q.RestartRecovers(later); }
  }

  // The next process starts with every fresh frame the last one had pending,
  // in order, and its own file holds them again.
  method LiveAndRestart(setup: Setup, onDisk: Option<string>, ops: seq<QueueOp>, later: Setup)
    returns (q: TelemetryQueue, again: TelemetryQueue)
    requires later.retention == setup.retention && later.dirReady
    ensures fresh(q) && fresh(again) && again.Valid()
    ensures Now(q) == LifeOf(setup, onDisk, ops) && Now(again) == StartOf(later, q.file)
    ensures q.persistence && !setup.first.Unnoticed? && AllQuiet(ops) ==>
      Sub(Fresh(Pending(q.frames, q.next), later.now, q.retention), Pending(again.frames, again.next))
    ensures !later.first.Unnoticed? ==> again.Persisted()
  {
    q := Live(setup, onDisk, ops, later.now);
    again := Start(later, q.file);
    if q.file.Some? { LoadedPending(Recovered(Split(q.file.value, '\n'), later.now, later.retention)); }
  }

  // What is loaded is pending, in order.
  lemma {:induction false} LoadedPending(fs: seq<Frame>)
    ensures CoreOk(LoadOf(fs)) && Pending(LoadOf(fs).frames, LoadOf(fs).next) == fs
  {
    if fs != [] {
      LoadedPending(fs[..|fs| - 1]);
      InsertKeepsIndexed(LoadOf(fs[..|fs| - 1]), fs[|fs| - 1]);
      IndexAfterInsert(LoadOf(fs[..|fs| - 1]), fs[|fs| - 1]);
    }
  }

  // ---------- two runs that do less than the code's comments say ----------

  const GOOD_DISK := Io(false, false, Rewritten, Written, Rewritten)
  const ROOMY := Limits(0, 0, 1_000_000)

  // With no size and no retention nothing is pruned.
  lemma KeptWhole(was: map<nat, Frame>, n: nat, now: int)
    requires Below(was, n)
    ensures PruneOf(was, n, now, 0, 0) == was
  {
    var c := PruneCut(was, n, now, 0, 0);
    assert forall i :: i in was && i < c ==> Stale(was[i], now, 0);
  }

  // Persistence recovers inside an enqueue: the line is written twice.
  method RecoverInEnqueue(f: Frame) returns (q: TelemetryQueue)
    requires Keepable(f)
    ensures fresh(q) && q.Valid() && q.frames == map[0 := f] && q.persistence && Indexed(q.State())
    ensures q.file == Some(Join([FormatLine(f)] + [FormatLine(f)]))
  {
    q := new TelemetryQueue(0, 0, ROOMY, None);
    var ok := q.Initialize(f.epoch, false, false, Rewritten);
    ghost var disk := q.OnDisk();
    var index := q.Enqueue(f, f.epoch, Io(true, true, Rewritten, Written, Rewritten));
    KeptWhole(map[0 := f], 1, f.epoch);
    OnePending(f);
    RecoveryDoubles([], FormatLine(f), q.liveBytes, ROOMY, disk.file, 0);
    assert [] + [FormatLine(f)] == [FormatLine(f)];
  }

  lemma OnePending(f: Frame)
    ensures Lines(Pending(map[0 := f], 1)) == [FormatLine(f)] && BytesBelow(map[0 := f], 1) == LineBytes(f)
  {
    assert Pending(map[0 := f], 0) == [];
  }

  // The next process then has the frame twice and can find only one of the two
  // by its key.
  method RecoverThenRestart(f: Frame) returns (q: TelemetryQueue, again: TelemetryQueue)
    requires Keepable(f)
    ensures fresh(q) && fresh(again) && q.frames == map[0 := f] && Indexed(q.State())
    ensures Pending(again.frames, again.next) == [f, f] && again.Valid() && !Indexed(again.State())
  {
    q := RecoverInEnqueue(f);
    again := new TelemetryQueue(0, 0, ROOMY, q.file);
    var ok := again.Initialize(f.epoch, true, true, Rewritten);
    TwiceTheLine(f, f.epoch);
    if Indexed(again.State()) { IndexedKeysDiffer(again.State(), again.next, 0, 1); }
  }

  lemma TwiceTheLine(f: Frame, now: int)
    requires Keepable(f)
    ensures var l := FormatLine(f); Recovered(Split(Join([l] + [l]), '\n'), now, 0) == [f, f]
  {
    LineHasNoNewline(f);
    ParseOfFormat(f);
    ReadTwice(FormatLine(f), f, now);
  }

  lemma ReadTwice(line: string, f: Frame, now: int)
    requires ParseLine(line) == Some(f) && '\n' !in line
    ensures Recovered(Split(Join([line] + [line]), '\n'), now, 0) == [f, f]
  {
    SplitOfJoin([line] + [line]);
    RecoveredOneMore([], line, now, 0);
    RecoveredOneMore([line], line, now, 0);
    assert [] + [line] == [line];
  }

  // Where every frame can be found by its key, no two pending ones share a key.
  lemma {:induction false} IndexedKeysDiffer(c: Core, n: nat, a: nat, b: nat)
    requires Indexed(c) && a < b < |Pending(c.frames, n)|
    ensures KeyOf(Pending(c.frames, n)[a]) != KeyOf(Pending(c.frames, n)[b])
  {
    var before := Pending(c.frames, n - 1);
    if b < |before| {
      IndexedKeysDiffer(c, n - 1, a, b);
    } else {
      PendingBelow(c.frames, n - 1, a);
    }
  }

  lemma {:induction false} PendingBelow(frames: map<nat, Frame>, n: nat, a: nat)
    requires a < |Pending(frames, n)|
    ensures exists i: nat :: i < n && i in frames && frames[i] == Pending(frames, n)[a]
  {
    if a < |Pending(frames, n - 1)| { PendingBelow(frames, n - 1, a); }
  }

  // A quiet disk takes a frame without a dead byte.
  method PutOne(q: TelemetryQueue, f: Frame)
    requires q.Valid() && Indexed(q.State()) && !KeyPending(q.State(), KeyOf(f))
    requires q.persistence && q.deadBytes == 0 && q.maxBytes == 0 && q.retention == 0
    modifies q
    ensures q.Valid() && Indexed(q.State()) && q.persistence && q.deadBytes == 0
    ensures q.frames == old(q.frames)[old(q.next) := f] && q.next == old(q.next) + 1
  {
    IndexAfterInsert(q.State(), f);
    var index := q.Enqueue(f, 0, GOOD_DISK);
    KeptWhole(old(q.frames)[index := f], q.next, 0);
  }

  method TwoPending(f: Frame, g: Frame) returns (q: TelemetryQueue)
    requires KeyOf(f) != KeyOf(g)
    ensures fresh(q) && q.Valid() && Indexed(q.State()) && q.frames == map[0 := f, 1 := g] && q.next == 2
    ensures q.persistence && q.deadBytes == 0 && q.limits == ROOMY && q.retention == 0
  {
    q := new TelemetryQueue(0, 0, ROOMY, None);
    var ok := q.Initialize(0, true, true, Rewritten);
    PutOne(q, f);
    PutOne(q, g);
  }

  // A full disk: the compaction after an acknowledgement fails at its very end.
  // The code calls it a success and keeps persistence on; the file is empty
  // while a frame is pending, and the next process will not have it.
  method FullDiskRun(f: Frame, g: Frame) returns (q: TelemetryQueue)
    requires KeyOf(f) != KeyOf(g) && LineBytes(g) <= 1_000_000
    ensures fresh(q) && q.frames == map[1 := g] && q.persistence && q.file == Some("")
    ensures !Recoverable(q, g.epoch)
  {
    q := TwoPending(f, g);
    SecondPending(f, g);
    q.AcknowledgeExact(f, GOOD_DISK.(compact := Unnoticed("")));
    NothingRead(g, g.epoch);
  }

  lemma SecondPending(f: Frame, g: Frame)
    ensures map[0 := f, 1 := g] - {0} == map[1 := g]
    ensures BytesBelow(map[1 := g], 2) == LineBytes(g) && BytesBelow(map[0 := f, 1 := g], 2) == LineBytes(f) + LineBytes(g)
    ensures Pending(map[1 := g], 2) == [g]
  {
    assert Pending(map[1 := g], 1) == Pending(map[1 := g], 0) == [];
    assert BytesBelow(map[1 := g], 1) == 0;
    assert BytesBelow(map[0 := f, 1 := g], 1) == LineBytes(f);
  }

  lemma NothingRead(g: Frame, now: int)
    ensures Recovered(Split("", '\n'), now, 0) == [] && !Sub(Fresh([g], now, 0), [])
  {
    assert Split("", '\n') == [];
    assert [g][..0] == [] && Fresh([g], now, 0) == [g];
  }
}
