// The queue's file as the disk leaves it: what each operation writes, how a
// write can end, and exactly when the pending frames are still in the file.
module QueueDisks {
  import opened QueueFile
  import opened Subsequence
  import opened Text
  import opened Wrappers

  // An append is flushed before it is judged: one that fails is noticed, and
  // may leave anything in the file, or no file.
  datatype Write = Written | Failed(left: Option<string>)

  // A rewrite is judged before its last bytes are out. One that fails at the
  // very end goes unnoticed: what it left takes the old file's place.
  datatype Rewrite = Rewritten | NotRewritten(left: Option<string>) | Unnoticed(short: string)

  // What one operation meets: whether the persistence retry is due, and how
  // the directory, the retry's rewrite, the append and the compaction turn out.
  datatype Io = Io(retryDue: bool, dirReady: bool, retry: Rewrite, append: Write, compact: Rewrite)

  // When a compaction is worth it: dead bytes at least, live bytes at most; and
  // live bytes so few that it always is.
  datatype Limits = Limits(minDead: nat, maxLive: nat, cheapLive: nat)

  // Whether persistence is on, the file, and the bytes of lines no longer pending.
  datatype Disk = Disk(on: bool, file: Option<string>, dead: nat)

  function Content(d: Disk): string { if d.file.Some? then d.file.value else "" }

  // ---------- what is written ----------

  function Rewriting(d: Disk, text: string, w: Rewrite): Disk {
    match w
    case Rewritten => Disk(true, Some(text), 0)
    case NotRewritten(left) => Disk(false, left, d.dead)
    case Unnoticed(short) => Disk(true, Some(short), 0)
  }

  predicate Retries(d: Disk, io: Io) { !d.on && io.retryDue && io.dirReady }

  function Retried(d: Disk, text: string, io: Io): Disk {
    if Retries(d, io) then Rewriting(d, text, io.retry) else d
  }

  function Appended(d: Disk, line: string, w: Write): Disk {
    match w
    case Written => d.(file := Some(Content(d) + line + "\n"))
    case Failed(left) => Disk(false, left, d.dead)
  }

  predicate Compacts(d: Disk, live: nat, l: Limits) {
    d.on && d.dead > 0 && (live <= l.cheapLive || (d.dead >= l.minDead && live <= l.maxLive))
  }

  function Compacted(d: Disk, text: string, live: nat, l: Limits, w: Rewrite): Disk {
    if Compacts(d, live, l) then Rewriting(d, text, w) else d
  }

  function AfterEnqueue(d: Disk, line: string, text: string, live: nat, l: Limits, io: Io): Disk {
    var r := Retried(d, text, io);
    if r.on then Compacted(Appended(r, line, io.append), text, live, l, io.compact) else r
  }

  function AfterRemoval(d: Disk, text: string, live: nat, l: Limits, io: Io): Disk {
    Compacted(Retried(d, text, io), text, live, l, io.compact)
  }

  // ---------- what stays in the file ----------

  // While persistence is on, the pending lines are in the file.
  ghost predicate Durable(d: Disk, pending: seq<string>) {
    d.on ==> d.file.Some? && Holds(d.file.value, pending)
  }

  // What an unnoticed rewrite left still holds the pending lines.
  ghost predicate Harmless(w: Rewrite, pending: seq<string>) {
    w.Unnoticed? ==> Holds(w.short, pending)
  }

  lemma RewriteHolds(pending: seq<string>)
    requires forall l :: l in pending ==> '\n' !in l
    ensures Holds(Join(pending), pending)
  {
    SplitOfJoin(pending);
    JoinIsWholeLines(pending);
    SubSelf(pending);
  }

  lemma RewriteDurable(d: Disk, pending: seq<string>, w: Rewrite)
    requires forall l :: l in pending ==> '\n' !in l
    ensures Durable(Rewriting(d, Join(pending), w), pending) <==> Harmless(w, pending)
  {
    RewriteHolds(pending);
  }

  lemma AppendHolds(content: string, before: seq<string>, line: string)
    requires Holds(content, before) && '\n' !in line
    ensures Holds(content + line + "\n", before + [line])
  {
    SplitOneMore(content, line);
    SubAppend(before, Split(content, '\n'), line);
  }

  lemma HoldsFewer(content: string, more: seq<string>, fewer: seq<string>)
    requires Holds(content, more) && Sub(fewer, more)
    ensures Holds(content, fewer)
  {
    SubTransitive(fewer, more, Split(content, '\n'));
  }

  // The lost case of an enqueue that appends to what an unnoticed retry left.
  ghost predicate EnqueueLosesNothing(d: Disk, line: string, pending: seq<string>, live: nat, l: Limits, io: Io) {
    var r := Retried(d, Join(pending), io);
    if !r.on || io.append.Failed? then true
    else if Compacts(Appended(r, line, io.append), live, l) then Harmless(io.compact, pending)
    else Retries(d, io) && io.retry.Unnoticed? ==> Holds(io.retry.short + line + "\n", pending)
  }

  // Exactly when an enqueue keeps the pending lines in the file: `pending` is
  // what pruning left of the old lines and the new one.
  lemma EnqueueDurable(d: Disk, before: seq<string>, line: string, pending: seq<string>, live: nat, l: Limits, io: Io)
    requires Durable(d, before) && Sub(pending, before + [line])
    requires '\n' !in line && forall p :: p in pending ==> '\n' !in p
    ensures Durable(AfterEnqueue(d, line, Join(pending), live, l, io), pending)
       <==> EnqueueLosesNothing(d, line, pending, live, l, io)
  {
    var r := Retried(d, Join(pending), io);
    if r.on && io.append.Written? {
      var a := Appended(r, line, io.append);
      RewriteDurable(a, pending, io.compact);
      if d.on {
        AppendHolds(d.file.value, before, line);
        HoldsFewer(d.file.value + line + "\n", before + [line], pending);
      } else if io.retry.Rewritten? {
        RewriteHolds(pending);
        AppendHolds(Join(pending), pending, line);
        SubSelf(pending);
        SubAppend(pending, pending, line);
        HoldsFewer(Join(pending) + line + "\n", pending + [line], pending);
      }
    }
  }

  ghost predicate RemovalLosesNothing(d: Disk, pending: seq<string>, live: nat, l: Limits, io: Io) {
    var r := Retried(d, Join(pending), io);
    if Compacts(r, live, l) then Harmless(io.compact, pending)
    else Retries(d, io) ==> Harmless(io.retry, pending)
  }

  // Exactly when an acknowledgement does.
  lemma RemovalDurable(d: Disk, before: seq<string>, pending: seq<string>, live: nat, l: Limits, io: Io)
    requires Durable(d, before) && Sub(pending, before)
    requires forall p :: p in pending ==> '\n' !in p
    ensures Durable(AfterRemoval(d, Join(pending), live, l, io), pending)
       <==> RemovalLosesNothing(d, pending, live, l, io)
  {
    RewriteDurable(Retried(d, Join(pending), io), pending, io.compact);
    RewriteDurable(d, pending, io.retry);
    if d.on { HoldsFewer(d.file.value, before, pending); }
  }

  // A disk none of whose failures goes unnoticed loses nothing.
  lemma NoticedIsHarmless(d: Disk, line: string, pending: seq<string>, live: nat, l: Limits, io: Io)
    ensures !io.retry.Unnoticed? && !io.compact.Unnoticed? ==>
      EnqueueLosesNothing(d, line, pending, live, l, io) && RemovalLosesNothing(d, pending, live, l, io)
  {
  }

  // The code's promise fails on a full disk: a compaction whose last bytes do
  // not get out leaves an empty file, reports success and persistence stays on.
  lemma UnnoticedLoss(d: Disk, pending: seq<string>, live: nat, l: Limits)
    requires Compacts(d, live, l) && pending != []
    ensures var io := Io(false, false, Rewritten, Written, Unnoticed(""));
      var after := AfterRemoval(d, Join(pending), live, l, io);
      after == Disk(true, Some(""), 0) && !Durable(after, pending)
  {
    NothingInEmptyFile(pending);
  }

  lemma NothingInEmptyFile(pending: seq<string>)
    requires pending != []
    ensures !Sub(pending, Split("", '\n'))
  {
    assert Split("", '\n') == [];
  }

  // After a retry inside an enqueue the new line stands in the file twice.
  lemma RecoveryDoubles(before: seq<string>, line: string, live: nat, l: Limits, file: Option<string>, dead: nat)
    ensures var pending := before + [line];
      var io := Io(true, true, Rewritten, Written, Rewritten);
      AfterEnqueue(Disk(false, file, dead), line, Join(pending), live, l, io)
        == Disk(true, Some(Join(pending + [line])), 0)
  {
    var pending := before + [line];
    assert (pending + [line])[..|pending|] == pending;
  }
}
