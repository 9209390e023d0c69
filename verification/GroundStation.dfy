// The ground station's end of delivery: what it reads, answers, logs and keeps
// in its cursor file, and what it knows again after a restart.
module GroundStations {
  import opened QueueFile
  import opened SeqSets
  import opened TelemetryDrains
  import opened TelemetryQueues
  import opened Wrappers

  // What the ground reads out of a line; of an unreadable one maybe an ACK.
  datatype Reading =
    | Packet(key: Key)
    | Pull(session: string, id: nat)
    | Cycle(session: string)
    | Unreadable(ack: Option<Ack>)

  function Answered(r: Reading): Option<Ack> {
    match r
    case Packet(key) => Some(Ack(key.0, key.1))
    case Pull(session, _) => Some(Ack(session, 0))
    case Cycle(session) => Some(Ack(session, 0))
    case Unreadable(ack) => ack
  }

  // How a write of the cursor file turns out. A torn file reads as an empty one.
  datatype CursorWrite = Saved | Unsaved | Torn

  // `seen` and `seenPulls` are what this process knows, `stored` what the cursor
  // file holds. The rest is history: the logs, all that was ever read, the packets
  // remembered but never logged (`muted`), the packets answered and then forgotten
  // (`gone`), the restarts, and whether at each of them the file held all that was
  // known (`kept`).
  datatype Ground = Ground(
    seen: set<Key>, seenPulls: set<(string, nat)>, stored: set<Key>,
    log: seq<Key>, pulls: seq<(string, nat)>,
    read: set<Reading>, muted: set<Key>, gone: set<Key>, restarts: nat, kept: bool)

  const EMPTY_GROUND := Ground({}, {}, {}, [], [], {}, {}, {}, 0, true)

  function Written(g: Ground, w: CursorWrite): Ground {
    g.(stored := match w case Saved => g.seen case Unsaved => g.stored case Torn => {})
  }

  // A new packet is marked, answered, its mark written to the file, then logged,
  // which a failed answer prevents; a new pull is logged, then answered.
  function Receive(g: Ground, r: Reading, sent: bool, w: CursorWrite): Ground {
    match r
    case Packet(key) =>
      if key in g.seen then g
      else
        var marked := Written(g.(seen := g.seen + {key}, read := g.read + {r}), w);
        if sent then marked.(log := g.log + [key]) else marked.(muted := g.muted + {key})
    case Pull(session, id) =>
      if (session, id) in g.seenPulls then g
      else
        g.(seenPulls := g.seenPulls + {(session, id)}, pulls := g.pulls + [(session, id)], read := g.read + {r})
    case _ => g
  }

  // A new process knows what the cursor file holds, and no pulls.
  function Reborn(g: Ground): Ground {
    g.(seen := g.stored, seenPulls := {}, restarts := g.restarts + 1, kept := g.kept && g.seen <= g.stored)
  }

  // The process ends when an answer is out: before the log entry of a packet,
  // after that of a pull.
  function Killed(g: Ground, r: Reading, w: CursorWrite): Ground {
    match r
    case Packet(key) =>
      if key in g.seen then Reborn(g)
      else
        var answered := g.(read := g.read + {r});
        if w == Saved then Reborn(answered.(stored := g.seen + {key}, muted := g.muted + {key}))
        else Reborn(Written(answered, w).(gone := g.gone + {key}))
    case _ => Reborn(Receive(g, r, true, w))
  }

  function Times<T(==)>(s: seq<T>, x: T): nat { multiset(s)[x] }

  // What is known has been read, what was read is accounted for, and nothing is
  // logged twice without a restart in between.
  ghost predicate GroundOk(g: Ground) { PacketsOk(g) && PullsOk(g) && (g.kept ==> KeptOk(g)) }

  ghost predicate PacketsOk(g: Ground) {
    && g.stored <= g.seen
    && (forall k :: k in g.seen || k in g.log ==> Packet(k) in g.read)
    && (forall k :: Packet(k) in g.read ==> k in g.log || k in g.muted || k in g.gone)
    && (forall k :: Times(g.log, k) <= g.restarts + if k in g.seen then 1 else 0)
  }

  ghost predicate PullsOk(g: Ground) {
    && (forall p :: p in g.seenPulls ==> p in g.pulls)
    && (forall p :: p in g.pulls <==> Pull(p.0, p.1) in g.read)
    && (forall p :: Times(g.pulls, p) <= g.restarts + if p in g.seenPulls then 1 else 0)
  }

  // As long as the cursor file kept all that was known over every restart: every
  // known packet is logged or muted, never both, and none is logged twice.
  ghost predicate KeptOk(g: Ground) {
    && (forall k :: k in g.seen <==> k in g.log || k in g.muted)
    && (forall k :: k in g.log ==> k !in g.muted)
    && (forall k :: Times(g.log, k) <= 1)
  }

  // What the ground has once it has read `r`.
  predicate Known(g: Ground, r: Reading) { r.Packet? || r.Pull? ==> r in g.read }

  // What this process would take for a repeat.
  predicate Remembered(g: Ground, r: Reading) {
    match r
    case Packet(key) => key in g.seen
    case Pull(session, id) => (session, id) in g.seenPulls
    case _ => false
  }

  // How often a packet or a pull is in its log.
  function Entries(g: Ground, r: Reading): nat {
    match r
    case Packet(key) => Times(g.log, key)
    case Pull(session, id) => Times(g.pulls, (session, id))
    case _ => 0
  }

  // No entry, no reading and no restart is undone; while the file keeps what is
  // known, nothing known is forgotten.
  ghost predicate Continues(g: Ground, g': Ground) {
    && g.log <= g'.log && g.pulls <= g'.pulls && g.read <= g'.read
    && g.muted <= g'.muted && g.gone <= g'.gone && g.restarts <= g'.restarts
    && (g'.kept ==> g.kept && g.seen <= g'.seen)
  }

  lemma ReceiveKeepsGround(g: Ground, r: Reading, sent: bool, w: CursorWrite)
    requires GroundOk(g)
    ensures GroundOk(Receive(g, r, sent, w)) && Known(Receive(g, r, sent, w), r)
    ensures Continues(g, Receive(g, r, sent, w))
  {
    match r
    case Packet(key) => PacketKeepsGround(g, key, sent, w);
    case Pull(session, id) => PullKeepsGround(g, session, id, sent, w);
    case _ =>
  }

  lemma PacketKeepsGround(g: Ground, key: Key, sent: bool, w: CursorWrite)
    requires GroundOk(g)
    ensures var g' := Receive(g, Packet(key), sent, w); GroundOk(g') && Packet(key) in g'.read && Continues(g, g')
  {
    PacketCounted(g, key, sent, w);
    if g.kept { PacketKept(g, key, sent, w); }
  }

  lemma PacketCounted(g: Ground, key: Key, sent: bool, w: CursorWrite)
    requires PacketsOk(g) && PullsOk(g)
    ensures PacketsOk(Receive(g, Packet(key), sent, w)) && PullsOk(Receive(g, Packet(key), sent, w))
  {
  }

  lemma PacketKept(g: Ground, key: Key, sent: bool, w: CursorWrite)
    requires KeptOk(g)
    ensures KeptOk(Receive(g, Packet(key), sent, w))
  {
    var g' := Receive(g, Packet(key), sent, w);
    if key !in g.seen && sent {
      assert forall k :: k in g'.log <==> k in g.log || k == key;
      assert forall k :: Times(g'.log, k) == Times(g.log, k) + if k == key then 1 else 0;
      assert Times(g.log, key) == 0;
    }
  }

  lemma PullKeepsGround(g: Ground, session: string, id: nat, sent: bool, w: CursorWrite)
    requires GroundOk(g)
    ensures var g' := Receive(g, Pull(session, id), sent, w); GroundOk(g') && Pull(session, id) in g'.read && Continues(g, g')
  {
    var g' := Receive(g, Pull(session, id), sent, w);
    assert PacketsOk(g');
    assert PullsOk(g');
  }

  lemma RebornKeepsGround(g: Ground)
    requires GroundOk(g)
    ensures GroundOk(Reborn(g)) && Continues(g, Reborn(g))
  {
  }

  lemma KilledKeepsGround(g: Ground, r: Reading, w: CursorWrite)
    requires GroundOk(g)
    ensures GroundOk(Killed(g, r, w)) && Known(Killed(g, r, w), r)
    ensures Continues(g, Killed(g, r, w))
  {
    if r.Packet? && r.key !in g.seen {
      KilledNewPacket(g, r.key, w);
    } else {
      ReceiveKeepsGround(g, r, true, w);
      RebornKeepsGround(Receive(g, r, true, w));
    }
  }

  lemma KilledNewPacket(g: Ground, key: Key, w: CursorWrite)
    requires GroundOk(g) && key !in g.seen
    ensures var g' := Killed(g, Packet(key), w); GroundOk(g') && Packet(key) in g'.read && Continues(g, g')
  {
    KilledCounted(g, key, w);
    if g.kept && g.seen <= Killed(g, Packet(key), w).stored { KilledKept(g, key, w); }
  }

  lemma KilledCounted(g: Ground, key: Key, w: CursorWrite)
    requires PacketsOk(g) && PullsOk(g) && key !in g.seen
    ensures PacketsOk(Killed(g, Packet(key), w)) && PullsOk(Killed(g, Packet(key), w))
  {
  }

  lemma KilledKept(g: Ground, key: Key, w: CursorWrite)
    requires KeptOk(g) && key !in g.seen && g.stored <= g.seen <= Killed(g, Packet(key), w).stored
    ensures KeptOk(Killed(g, Packet(key), w))
  {
  }

  // A cursor file that holds all that is known still does, unless a write fails
  // that another line could come after.
  lemma CursorHolds(g: Ground, r: Reading, sent: bool, w: CursorWrite)
    requires g.kept && g.stored == g.seen
    ensures var g' := Receive(g, r, sent, w); w == Saved ==> g'.kept && g'.stored == g'.seen
    ensures var g' := Killed(g, r, w); w != Torn ==> g'.kept && g'.stored == g'.seen
  {
  }

  // A line adds an entry exactly when it is not taken for a repeat and, for a
  // packet, its answer goes out.
  lemma EntryExactly(g: Ground, line: Reading, sent: bool, w: CursorWrite, r: Reading)
    requires r.Packet? || r.Pull?
    ensures Entries(Receive(g, line, sent, w), r)
         == Entries(g, r) + if line == r && !Remembered(g, r) && (sent || r.Pull?) then 1 else 0
  {
  }

  // ---------- telemetry_server.py ----------

  type Sessions = map<string, seq<Item>>

  // The receiver with its sets of received numbers and its cursor file, None
  // where there is none to be read.
  class Receiver {
    var received: map<string, SeqSet>
    var seenPulls: set<(string, nat)>
    var log: seq<Key>
    var pulls: seq<(string, nat)>
    var cursor: Option<Sessions>
    ghost var ground: Ground

    ghost predicate Sets()
      reads this, received.Values
    {
      && (forall s, t :: s in received && t in received && s != t ==> received[s] != received[t])
      && (forall s :: s in received ==> received[s].Valid())
    }

    ghost predicate Holds(keys: set<Key>)
      requires Sets()
      reads this, received.Values
    {
      forall key: Key :: key in keys <==> key.0 in received && received[key.0].Has(key.1)
    }

    // The sets of received numbers hold exactly the known keys, and the file the stored ones.
    ghost predicate Valid()
      reads this, received.Values
    {
      && Sets() && Holds(ground.seen) && InCursor(cursor, ground.stored)
      && log == ground.log && pulls == ground.pulls && seenPulls == ground.seenPulls
    }

    constructor ()
      ensures Valid() && ground == EMPTY_GROUND && GroundOk(ground)
    {
      received, seenPulls, log, pulls, cursor, ground := map[], {}, [], [], None, EMPTY_GROUND;
    }

    // True when the key was not received before.
    method Mark(key: Key) returns (added: bool)
      requires Valid()
      modifies this`received, received.Values
      ensures added <==> key !in ground.seen
      ensures forall s :: s in received ==> s in old(received) || fresh(received[s])
      ensures forall s :: s in old(received) ==> s in received && received[s] == old(received)[s]
      ensures Sets() && Holds(ground.seen + {key})
    {
      if key.0 !in received {
        var empty := new SeqSet.FromJson(Null);
        received := received[key.0 := empty];
      }
      added := received[key.0].Add(key.1);
    }

    // Failures of the write are passed over.
    method PersistCursor(w: CursorWrite, ghost known: set<Key>, ghost stored: set<Key>)
      requires Sets() && Holds(known) && InCursor(cursor, stored)
      modifies this`cursor
      ensures InCursor(cursor, match w case Saved => known case Unsaved => stored case Torn => {})
    {
      match w
      case Saved => cursor := Some(map s | s in received :: received[s].ToJson());
      case Unsaved =>
      case Torn => cursor := None;
    }

    // What the cursor file holds, in sets of its own.
    method LoadCursor(ghost stored: set<Key>)
      requires InCursor(cursor, stored)
      modifies this`received
      ensures Sets() && Holds(stored) && forall s :: s in received ==> fresh(received[s])
    {
      received := map[];
      if cursor.None? { return; }
      var left := cursor.value.Keys;
      while left != {}
        invariant left <= cursor.value.Keys && received.Keys == cursor.value.Keys - left
        invariant Sets() && forall s :: s in received ==> fresh(received[s])
        invariant forall s :: s in received ==> Loaded(s)
      {
        var s :| s in left;
        LoadSession(s);
        left := left - {s};
      }
      assert forall s :: s in received ==> Loaded(s);
    }

    method LoadSession(s: string)
      requires cursor.Some? && s in cursor.value && s !in received && Sets()
      requires forall t :: t in received ==> t in cursor.value && Loaded(t)
      modifies this`received
      ensures Sets() && received.Keys == old(received).Keys + {s} && fresh(received[s])
      ensures forall t :: t in old(received) ==> received[t] == old(received)[t]
      ensures forall t :: t in received ==> Loaded(t)
    {
      var seqs := new SeqSet.FromJson(Items(cursor.value[s]));
      received := received[s := seqs];
    }

    ghost predicate Loaded(s: string)
      requires s in received && cursor.Some? && s in cursor.value && received[s].Valid()
      reads this, received.Values
    {
      forall n: int :: received[s].Has(n) <==> InItems(cursor.value[s], n)
    }

    // A new process.
    method Restart()
      requires Valid()
      modifies this
      ensures Valid() && ground == Reborn(old(ground)) && forall s :: s in received ==> fresh(received[s])
      ensures old(GroundOk(ground)) ==> GroundOk(ground)
    {
      if GroundOk(ground) { RebornKeepsGround(ground); }
      ground := Reborn(ground);
      seenPulls := {};
      LoadCursor(ground.stored);
    }

    // One line: `sent` says whether its answer could be sent; the connection is
    // left when it could not.
    method Take(r: Reading, sent: bool, w: CursorWrite) returns (stay: bool)
      requires Valid()
      modifies this, received.Values
      ensures Valid() && ground == Receive(old(ground), r, sent, w) && KeepsSets()
      ensures old(GroundOk(ground)) ==> GroundOk(ground)
      ensures stay <==> sent || Answered(r).None?
    {
      if GroundOk(ground) { ReceiveKeepsGround(ground, r, sent, w); }
      match r {
        case Packet(key) => TakePacket(key, sent, w);
        case Pull(session, id) => TakePull((session, id), sent, w);
        case _ =>
      }
      stay := sent || Answered(r).None?;
    }

    twostate predicate KeepsSets()
      reads this
    {
      forall s :: s in received ==> received[s] in old(received.Values) || fresh(received[s])
    }

    method TakePacket(key: Key, sent: bool, w: CursorWrite)
      requires Valid()
      modifies this, received.Values
      ensures Valid() && ground == Receive(old(ground), Packet(key), sent, w) && KeepsSets()
    {
      var added := MarkAndSave(key, w);
      if added && sent { log := log + [key]; }
      ground := Receive(ground, Packet(key), sent, w);
    }

    // The mark, and its write to the file, which nothing but a repeat spares.
    method MarkAndSave(key: Key, w: CursorWrite) returns (added: bool)
      requires Valid()
      modifies this`received, this`cursor, received.Values
      ensures added <==> key !in ground.seen
      ensures Sets() && Holds(Receive(ground, Packet(key), true, w).seen) && KeepsSets()
      ensures InCursor(cursor, Receive(ground, Packet(key), true, w).stored)
    {
      added := Mark(key);
      assert !added ==> ground.seen + {key} == ground.seen;
      if added { PersistCursor(w, ground.seen + {key}, ground.stored); }
    }

    method TakePull(pull: (string, nat), sent: bool, w: CursorWrite)
      requires Valid()
      modifies this`seenPulls, this`pulls, this`ground
      ensures Valid() && ground == Receive(old(ground), Pull(pull.0, pull.1), sent, w)
    {
      ground := Receive(ground, Pull(pull.0, pull.1), sent, w);
      if pull !in seenPulls {
        seenPulls := seenPulls + {pull};
        pulls := pulls + [pull];
      }
    }

    // A line whose answer is the last thing the process sends, and the next process.
    method TakeAndDie(r: Reading, w: CursorWrite)
      requires Valid()
      modifies this, received.Values
      ensures Valid() && ground == Killed(old(ground), r, w) && forall s :: s in received ==> fresh(received[s])
      ensures old(GroundOk(ground)) ==> GroundOk(ground)
    {
      if GroundOk(ground) { KilledKeepsGround(ground, r, w); }
      ghost var killed := Killed(ground, r, w);
      TakeLast(r, w);
      ground := killed;
      seenPulls := {};
      LoadCursor(killed.stored);
    }

    // What the line and its answer leave in the logs and in the cursor file.
    method TakeLast(r: Reading, w: CursorWrite)
      requires Valid()
      modifies this, received.Values
      ensures log == Killed(old(ground), r, w).log && pulls == Killed(old(ground), r, w).pulls
      ensures InCursor(cursor, Killed(old(ground), r, w).stored)
    {
      match r {
        case Packet(key) =>
          var added := MarkAndSave(key, w);
        case Pull(session, id) =>
          TakePull((session, id), true, w);
        case _ =>
      }
    }
  }

  ghost predicate InCursor(cursor: Option<Sessions>, keys: set<Key>) {
    forall key: Key :: key in keys <==> cursor.Some? && key.0 in cursor.value && InItems(cursor.value[key.0], key.1)
  }
}
