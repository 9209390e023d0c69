// The theorem both link-budget ledgers exist for: entries kept within the share
// at every admission keep every window of the wire within it. A ledger
// forgets expired entries, so the argument is made about a history that
// remembers every entry ever placed; each ledger class keeps such a history in
// a ghost field beside its real list of live entries.
module LinkHistory {

  // When an entry stops covering bytes: never (an open hold), or at `at`.
  datatype End = Open | Closed(at: real)

  // One entry, live or forgotten. `admission` is the rank of the admission that
  // placed its bytes (a part split off a hold keeps the hold's rank); `gone` is
  // None while the ledger still has the entry, else how many admissions had
  // been made when the ledger dropped it.
  datatype Record = Record(admission: nat, end: End, bytes: nat, gone: Gone)
  datatype Gone = Live | GoneAt(admissions: nat)

  // Entry number id is records[id - 1]; admission number a was made at
  // placedAt[a].
  datatype History = History(records: seq<Record>, placedAt: seq<real>, clock: real)

  const EMPTY := History([], [], 0.0)

  // What the ledger's own list shows of an entry.
  datatype Entry = Entry(id: nat, end: End, bytes: nat)

  predicate Expired(end: End, window: real, now: real) {
    end.Closed? && end.at + window <= now
  }

  // ---------- the steps a ledger takes ----------

  datatype Op =
    | Query(now: real)                              // drops expired entries
    | Admit(now: real, bytes: nat, end: End)        // drops expired entries, then places one
    | ReleaseAt(id: nat, when: real)
    | ReleasePart(id: nat, part: nat, when: real)
    | Refund(id: nat, part: nat)

  function Min(a: nat, b: nat): nat { if a < b then a else b }

  predicate IsLive(h: History, id: nat) {
    1 <= id <= |h.records| && h.records[id - 1].gone.Live?
  }

  function PruneRecord(r: Record, admissions: nat, window: real, now: real): Record {
    if r.gone.Live? && Expired(r.end, window, now) then r.(gone := GoneAt(admissions)) else r
  }

  function PruneRecords(rs: seq<Record>, admissions: nat, window: real, now: real): (p: seq<Record>)
    ensures |p| == |rs|
  {
    seq(|rs|, i requires 0 <= i < |rs| => PruneRecord(rs[i], admissions, window, now))
  }

  function Step(h: History, op: Op, window: real): History {
    match op
    case Query(now) =>
      h.(records := PruneRecords(h.records, |h.placedAt|, window, now), clock := now)
    case Admit(now, bytes, end) =>
      History(PruneRecords(h.records, |h.placedAt|, window, now) + [Record(|h.placedAt|, end, bytes, Live)],
              h.placedAt + [now], now)
    case ReleaseAt(id, when) =>
      if IsLive(h, id) then h.(records := h.records[id - 1 := h.records[id - 1].(end := Closed(when))]) else h
    case ReleasePart(id, part, when) =>
      if IsLive(h, id) then
        var r := h.records[id - 1];
        var moved := Min(part, r.bytes);
        h.(records := h.records[id - 1 := r.(bytes := r.bytes - moved)]
                    + [Record(r.admission, Closed(when), moved, Live)])
      else h
    case Refund(id, part) =>
      if IsLive(h, id) then
        var r := h.records[id - 1];
        h.(records := h.records[id - 1 := r.(bytes := r.bytes - Min(part, r.bytes))])
      else h
  }

  // The clock never runs backwards, and an admission fits what is counting.
  predicate Legal(h: History, op: Op, share: nat, window: real) {
    match op
    case Query(now) => h.clock <= now
    case Admit(now, bytes, end) =>
      && h.clock <= now
      && LiveBytes(PruneRecords(h.records, |h.placedAt|, window, now)) + bytes <= share
    case _ => true
  }

  function LiveBytes(rs: seq<Record>): nat {
    if rs == [] then 0
    else LiveBytes(rs[..|rs| - 1]) + (if rs[|rs| - 1].gone.Live? then rs[|rs| - 1].bytes else 0)
  }

  // The live entries in the order the ledger lists them.
  function LiveEntries(rs: seq<Record>): seq<Entry> {
    if rs == [] then []
    else
      var r := rs[|rs| - 1];
      var before := LiveEntries(rs[..|rs| - 1]);
      if r.gone.Live? then before + [Entry(|rs|, r.end, r.bytes)] else before
  }

  function SumBytes(es: seq<Entry>): nat {
    if es == [] then 0 else SumBytes(es[..|es| - 1]) + es[|es| - 1].bytes
  }

  // ---------- the invariant of every run ----------

  // Entry r counted against the share at admission a, and was not dropped before it.
  predicate CountedAt(r: Record, a: nat) {
    r.admission <= a && (r.gone.Live? || a < r.gone.admissions)
  }

  // The bytes that counted at admission a and were not refunded since.
  function Load(rs: seq<Record>, a: nat): nat {
    if rs == [] then 0
    else Load(rs[..|rs| - 1], a) + (if CountedAt(rs[|rs| - 1], a) then rs[|rs| - 1].bytes else 0)
  }

  ghost predicate RecordOk(h: History, r: Record, window: real) {
    && r.admission < |h.placedAt|
    && (r.gone.GoneAt? ==>
          && r.gone.admissions <= |h.placedAt|
          && Expired(r.end, window, h.clock)
          && forall a :: r.gone.admissions <= a < |h.placedAt| ==> Expired(r.end, window, h.placedAt[a]))
  }

  ghost predicate Inv(h: History, share: nat, window: real) {
    && (forall i :: 0 <= i < |h.records| ==> RecordOk(h, h.records[i], window))
    && (forall a :: 0 <= a < |h.placedAt| ==> h.placedAt[a] <= h.clock && Load(h.records, a) <= share)
  }

  lemma {:induction false} LoadUpdate(rs: seq<Record>, i: nat, r: Record, a: nat)
    requires i < |rs| && r.admission == rs[i].admission && r.gone == rs[i].gone
    ensures Load(rs[i := r], a) + (if CountedAt(r, a) then rs[i].bytes else 0)
         == Load(rs, a) + (if CountedAt(r, a) then r.bytes else 0)
  {
    var n := |rs| - 1;
    if i == n {
      assert rs[i := r][..n] == rs[..n];
    } else {
      LoadUpdate(rs[..n], i, r, a);
      assert rs[i := r][..n] == rs[..n][i := r];
    }
  }

  lemma {:induction false} LoadPrune(rs: seq<Record>, admissions: nat, window: real, now: real, a: nat)
    requires a < admissions
    ensures Load(PruneRecords(rs, admissions, window, now), a) == Load(rs, a)
  {
    if rs != [] {
      var n := |rs| - 1;
      LoadPrune(rs[..n], admissions, window, now, a);
      assert PruneRecords(rs, admissions, window, now)[..n] == PruneRecords(rs[..n], admissions, window, now);
    }
  }

  lemma {:induction false} LoadIsLive(rs: seq<Record>, a: nat)
    requires forall i :: 0 <= i < |rs| ==>
      rs[i].admission <= a && (rs[i].gone.GoneAt? ==> rs[i].gone.admissions <= a)
    ensures Load(rs, a) == LiveBytes(rs)
  {
    if rs != [] { LoadIsLive(rs[..|rs| - 1], a); }
  }

  // A record appended after its own admission leaves every earlier load alone.
  lemma LoadAppend(rs: seq<Record>, r: Record, a: nat)
    ensures Load(rs + [r], a) == Load(rs, a) + (if CountedAt(r, a) then r.bytes else 0)
  {
    assert (rs + [r])[..|rs|] == rs;
  }

  lemma QueryKeepsInv(h: History, now: real, share: nat, window: real)
    requires Inv(h, share, window) && h.clock <= now
    ensures Inv(Step(h, Query(now), window), share, window)
  {
    var h' := Step(h, Query(now), window);
    forall i | 0 <= i < |h'.records| ensures RecordOk(h', h'.records[i], window) {
      assert RecordOk(h, h.records[i], window);
    }
    forall a | 0 <= a < |h'.placedAt| ensures Load(h'.records, a) <= share {
      LoadPrune(h.records, |h.placedAt|, window, now, a);
    }
  }

  lemma AdmitKeepsInv(h: History, now: real, bytes: nat, end: End, share: nat, window: real)
    requires Inv(h, share, window) && Legal(h, Admit(now, bytes, end), share, window)
    ensures Inv(Step(h, Admit(now, bytes, end), window), share, window)
  {
    var h' := Step(h, Admit(now, bytes, end), window);
    var n := |h.placedAt|;
    var pruned := PruneRecords(h.records, n, window, now);
    forall i | 0 <= i < |h.records|
      ensures RecordOk(h', pruned[i], window)
      ensures pruned[i].admission <= n && (pruned[i].gone.GoneAt? ==> pruned[i].gone.admissions <= n)
    { assert RecordOk(h, h.records[i], window); }
    LoadIsLive(pruned, n);
    forall a | 0 <= a < |h'.placedAt| ensures Load(h'.records, a) <= share {
      LoadAppend(pruned, h'.records[|pruned|], a);
      if a < n { LoadPrune(h.records, n, window, now, a); }
    }
  }

  // Changing one live entry, and appending a live part of it, keeps the
  // invariant when no byte is added.
  lemma EditKeepsInv(h: History, i: nat, r: Record, parts: seq<Record>, share: nat, window: real)
    requires Inv(h, share, window) && i < |h.records| && h.records[i].gone.Live? && r.gone.Live?
    requires r.admission == h.records[i].admission && |parts| <= 1
    requires forall p :: p in parts ==> p.gone.Live? && p.admission == r.admission
    requires r.bytes + (if parts == [] then 0 else parts[0].bytes) <= h.records[i].bytes
    ensures Inv(h.(records := h.records[i := r] + parts), share, window)
  {
    var h' := h.(records := h.records[i := r] + parts);
    assert RecordOk(h, h.records[i], window);
    forall j | 0 <= j < |h'.records| ensures RecordOk(h', h'.records[j], window) {
      if j < |h.records| && j != i { assert RecordOk(h, h.records[j], window); }
    }
    forall a | 0 <= a < |h.placedAt| ensures Load(h'.records, a) <= share {
      LoadUpdate(h.records, i, r, a);
      if parts == [] {
        assert h'.records == h.records[i := r];
      } else {
        assert h'.records == h.records[i := r] + [parts[0]];
        LoadAppend(h.records[i := r], parts[0], a);
      }
    }
  }

  lemma StepKeepsInv(h: History, op: Op, share: nat, window: real)
    requires Inv(h, share, window) && Legal(h, op, share, window)
    ensures Inv(Step(h, op, window), share, window)
  {
    match op
    case Query(now) => QueryKeepsInv(h, now, share, window);
    case Admit(now, bytes, end) => AdmitKeepsInv(h, now, bytes, end, share, window);
    case ReleaseAt(id, when) =>
      if IsLive(h, id) {
        var r := h.records[id - 1].(end := Closed(when));
        EditKeepsInv(h, id - 1, r, [], share, window);
        assert h.records[id - 1 := r] + [] == h.records[id - 1 := r];
      }
    case ReleasePart(id, part, when) =>
      if IsLive(h, id) {
        var r := h.records[id - 1];
        var moved := Min(part, r.bytes);
        EditKeepsInv(h, id - 1, r.(bytes := r.bytes - moved),
                     [Record(r.admission, Closed(when), moved, Live)], share, window);
      }
    case Refund(id, part) =>
      if IsLive(h, id) {
        var r := h.records[id - 1];
        var rest := r.(bytes := r.bytes - Min(part, r.bytes));
        EditKeepsInv(h, id - 1, rest, [], share, window);
        assert h.records[id - 1 := rest] + [] == h.records[id - 1 := rest];
      }
  }

  // ---------- the ledger's list against the history ----------

  // What the lazy prune leaves of the list.
  function Keep(es: seq<Entry>, window: real, now: real): seq<Entry> {
    if es == [] then []
    else
      var last := es[|es| - 1];
      var before := Keep(es[..|es| - 1], window, now);
      if Expired(last.end, window, now) then before else before + [last]
  }

  lemma {:induction false} LiveAfterPrune(rs: seq<Record>, admissions: nat, window: real, now: real)
    ensures LiveEntries(PruneRecords(rs, admissions, window, now)) == Keep(LiveEntries(rs), window, now)
  {
    if rs != [] {
      var n := |rs| - 1;
      LiveAfterPrune(rs[..n], admissions, window, now);
      assert PruneRecords(rs, admissions, window, now)[..n] == PruneRecords(rs[..n], admissions, window, now);
      if rs[n].gone.Live? {
        assert LiveEntries(rs)[..|LiveEntries(rs)| - 1] == LiveEntries(rs[..n]);
      }
    }
  }

  lemma PruneTwice(rs: seq<Record>, admissions: nat, window: real, now: real)
    ensures var p := PruneRecords(rs, admissions, window, now);
      PruneRecords(p, admissions, window, now) == p
  {
  }

  // Dropping the expired entries in between changes nothing later.
  lemma PruneLater(rs: seq<Record>, admissions: nat, window: real, now: real, later: real)
    requires now <= later
    ensures PruneRecords(PruneRecords(rs, admissions, window, now), admissions, window, later)
         == PruneRecords(rs, admissions, window, later)
  {
  }

  // Between two expiries nothing stops counting.
  lemma {:induction false} CountingConstant(rs: seq<Record>, admissions: nat, window: real, now: real, t: real)
    requires now <= t
    requires forall i :: 0 <= i < |rs| && rs[i].gone.Live? && Expired(rs[i].end, window, t) ==>
      Expired(rs[i].end, window, now)
    ensures LiveBytes(PruneRecords(rs, admissions, window, t)) == LiveBytes(PruneRecords(rs, admissions, window, now))
  {
    assert forall i :: 0 <= i < |rs| ==>
      PruneRecord(rs[i], admissions, window, t) == PruneRecord(rs[i], admissions, window, now);
    assert PruneRecords(rs, admissions, window, t) == PruneRecords(rs, admissions, window, now);
  }

  lemma {:induction false} SumOfLive(rs: seq<Record>)
    ensures SumBytes(LiveEntries(rs)) == LiveBytes(rs)
  {
    if rs != [] {
      var n := |rs| - 1;
      SumOfLive(rs[..n]);
      if rs[n].gone.Live? {
        assert LiveEntries(rs)[..|LiveEntries(rs)| - 1] == LiveEntries(rs[..n]);
      }
    }
  }

  // The list shows exactly the live entries, each once, oldest id first.
  lemma {:induction false} ListedIsLive(rs: seq<Record>, j: nat)
    requires j < |LiveEntries(rs)|
    ensures var e := LiveEntries(rs)[j];
      && 1 <= e.id <= |rs| && rs[e.id - 1].gone.Live?
      && rs[e.id - 1].end == e.end && rs[e.id - 1].bytes == e.bytes
    ensures forall l :: 0 <= l < j ==> LiveEntries(rs)[l].id < LiveEntries(rs)[j].id
  {
    var n := |rs| - 1;
    if j < |LiveEntries(rs[..n])| {
      ListedIsLive(rs[..n], j);
      forall l | 0 <= l < j ensures LiveEntries(rs)[l].id < LiveEntries(rs)[j].id {
        assert LiveEntries(rs)[l] == LiveEntries(rs[..n])[l];
      }
    } else {
      forall l | 0 <= l < j ensures LiveEntries(rs)[l].id < LiveEntries(rs)[j].id {
        ListedIsLive(rs[..n], l);
      }
    }
  }

  lemma {:induction false} LiveIsListed(rs: seq<Record>, id: nat)
    requires 1 <= id <= |rs| && rs[id - 1].gone.Live?
    ensures exists j :: 0 <= j < |LiveEntries(rs)| && LiveEntries(rs)[j].id == id
  {
    var n := |rs| - 1;
    if id == |rs| {
      assert LiveEntries(rs)[|LiveEntries(rs[..n])|].id == id;
    } else {
      LiveIsListed(rs[..n], id);
      var j :| 0 <= j < |LiveEntries(rs[..n])| && LiveEntries(rs[..n])[j].id == id;
      assert LiveEntries(rs)[j].id == id;
    }
  }

  lemma {:induction false} LiveUpdate(rs: seq<Record>, j: nat, r: Record)
    requires j < |LiveEntries(rs)| && r.gone.Live?
    requires 1 <= LiveEntries(rs)[j].id <= |rs| && rs[LiveEntries(rs)[j].id - 1].gone.Live?
    ensures LiveEntries(rs[LiveEntries(rs)[j].id - 1 := r])
         == LiveEntries(rs)[j := Entry(LiveEntries(rs)[j].id, r.end, r.bytes)]
  {
    var n := |rs| - 1;
    var i := LiveEntries(rs)[j].id - 1;
    if j < |LiveEntries(rs[..n])| {
      ListedIsLive(rs[..n], j);
      LiveUpdate(rs[..n], j, r);
      assert rs[i := r][..n] == rs[..n][i := r];
    } else {
      assert i == n;
      assert rs[i := r][..n] == rs[..n];
    }
  }

  // The live entries never add up to more than the share.
  lemma {:induction false} LiveAtMostLoad(rs: seq<Record>, a: nat)
    requires forall i :: 0 <= i < |rs| ==> rs[i].admission <= a
    ensures LiveBytes(rs) <= Load(rs, a)
  {
    if rs != [] { LiveAtMostLoad(rs[..|rs| - 1], a); }
  }

  lemma LiveWithinShare(h: History, share: nat, window: real)
    requires Inv(h, share, window)
    ensures LiveBytes(h.records) <= share
  {
    if h.records != [] {
      assert RecordOk(h, h.records[0], window);
      var a := |h.placedAt| - 1;
      forall i | 0 <= i < |h.records| ensures h.records[i].admission <= a {
        assert RecordOk(h, h.records[i], window);
      }
      LiveAtMostLoad(h.records, a);
    }
  }

  // ---------- runs ----------

  function Run(h: History, ops: seq<Op>, window: real): History
    decreases ops
  {
    if ops == [] then h else Run(Step(h, ops[0], window), ops[1..], window)
  }

  ghost predicate LegalRun(h: History, ops: seq<Op>, share: nat, window: real)
    decreases ops
  {
    ops == [] || (Legal(h, ops[0], share, window) && LegalRun(Step(h, ops[0], window), ops[1..], share, window))
  }

  lemma {:induction false} RunKeepsInv(h: History, ops: seq<Op>, share: nat, window: real)
    requires Inv(h, share, window) && LegalRun(h, ops, share, window)
    ensures Inv(Run(h, ops, window), share, window)
    decreases ops
  {
    if ops != [] {
      StepKeepsInv(h, ops[0], share, window);
      RunKeepsInv(Step(h, ops[0], window), ops[1..], share, window);
    }
  }

  // ---------- the wire ----------

  // `bytes` bytes of entry number `record + 1` on the wire at time `at`.
  datatype Emission = Emission(record: nat, at: real, bytes: nat)

  predicate Within(e: Emission, t: real, window: real) { t <= e.at < t + window }

  function Emitted(wire: seq<Emission>, record: nat): nat {
    if wire == [] then 0
    else Emitted(wire[1..], record) + (if wire[0].record == record then wire[0].bytes else 0)
  }

  // Bytes on the wire in [t, t + window): all of them, and those of one entry.
  function WindowBytes(wire: seq<Emission>, t: real, window: real): nat {
    if wire == [] then 0
    else WindowBytes(wire[1..], t, window) + (if Within(wire[0], t, window) then wire[0].bytes else 0)
  }

  function WindowBytesOf(wire: seq<Emission>, record: nat, t: real, window: real): nat {
    if wire == [] then 0
    else
      var first := if wire[0].record == record && Within(wire[0], t, window) then wire[0].bytes else 0;
      first + WindowBytesOf(wire[1..], record, t, window)
  }

  // Every byte on the wire belongs to an entry, leaves between its placement
  // and its end, and no entry emits more than it still holds after refunds.
  ghost predicate Covered(h: History, wire: seq<Emission>) {
    && (forall k :: 0 <= k < |wire| ==> EmissionOk(h, wire[k]))
    && (forall i :: 0 <= i < |h.records| ==> Emitted(wire, i) <= h.records[i].bytes)
  }

  ghost predicate EmissionOk(h: History, e: Emission) {
    && e.record < |h.records|
    && h.records[e.record].admission < |h.placedAt|
    && h.placedAt[h.records[e.record].admission] <= e.at
    && (h.records[e.record].end.Closed? ==> e.at <= h.records[e.record].end.at)
  }

  function WindowBytesBelow(wire: seq<Emission>, n: nat, t: real, window: real): nat {
    if n == 0 then 0 else WindowBytesBelow(wire, n - 1, t, window) + WindowBytesOf(wire, n - 1, t, window)
  }

  lemma {:induction false} SplitByEntry(wire: seq<Emission>, n: nat, t: real, window: real)
    requires forall k :: 0 <= k < |wire| ==> wire[k].record < n
    ensures WindowBytes(wire, t, window) == WindowBytesBelow(wire, n, t, window)
  {
    if wire == [] {
      NothingBelow(n, t, window);
    } else {
      SplitByEntry(wire[1..], n, t, window);
      AddOne(wire, n, t, window);
    }
  }

  lemma {:induction false} NothingBelow(n: nat, t: real, window: real)
    ensures WindowBytesBelow([], n, t, window) == 0
  {
    if n > 0 { NothingBelow(n - 1, t, window); }
  }

  lemma {:induction false} AddOne(wire: seq<Emission>, n: nat, t: real, window: real)
    requires wire != []
    ensures WindowBytesBelow(wire, n, t, window)
         == WindowBytesBelow(wire[1..], n, t, window)
          + (if wire[0].record < n && Within(wire[0], t, window) then wire[0].bytes else 0)
  {
    if n > 0 { AddOne(wire, n - 1, t, window); }
  }

  lemma {:induction false} WindowOfAtMostEmitted(wire: seq<Emission>, record: nat, t: real, window: real)
    ensures WindowBytesOf(wire, record, t, window) <= Emitted(wire, record)
    ensures WindowBytesOf(wire, record, t, window) > 0 ==>
              exists k :: 0 <= k < |wire| && wire[k].record == record && Within(wire[k], t, window)
  {
    if wire != [] {
      WindowOfAtMostEmitted(wire[1..], record, t, window);
      if WindowBytesOf(wire[1..], record, t, window) > 0 {
        var k :| 0 <= k < |wire[1..]| && wire[1..][k].record == record && Within(wire[1..][k], t, window);
        assert wire[k + 1].record == record && Within(wire[k + 1], t, window);
      } else if WindowBytesOf(wire, record, t, window) > 0 {
        assert wire[0].record == record && Within(wire[0], t, window);
      }
    }
  }

  // Among the emissions of the window, one of an entry admitted last.
  lemma {:induction false} LastAdmission(h: History, wire: seq<Emission>, t: real, window: real) returns (last: nat)
    requires forall k :: 0 <= k < |wire| ==> wire[k].record < |h.records|
    requires exists k :: 0 <= k < |wire| && Within(wire[k], t, window)
    ensures last < |wire| && Within(wire[last], t, window)
    ensures forall k :: 0 <= k < |wire| && Within(wire[k], t, window) ==>
              h.records[wire[k].record].admission <= h.records[wire[last].record].admission
  {
    last :| 0 <= last < |wire| && Within(wire[last], t, window);
    for n := 0 to |wire|
      invariant last < |wire| && Within(wire[last], t, window)
      invariant forall k :: 0 <= k < n && Within(wire[k], t, window) ==>
        h.records[wire[k].record].admission <= h.records[wire[last].record].admission
    {
      if Within(wire[n], t, window)
         && h.records[wire[last].record].admission < h.records[wire[n].record].admission {
        last := n;
      }
    }
  }

  // An entry emitting inside the window still counted when the last of the
  // window's admissions was made.
  lemma EmittingEntryCounted(h: History, wire: seq<Emission>, share: nat, window: real, t: real, last: nat, k: nat)
    requires Inv(h, share, window) && Covered(h, wire)
    requires last < |wire| && k < |wire| && Within(wire[last], t, window) && Within(wire[k], t, window)
    requires h.records[wire[k].record].admission <= h.records[wire[last].record].admission
    ensures CountedAt(h.records[wire[k].record], h.records[wire[last].record].admission)
  {
    assert EmissionOk(h, wire[k]) && EmissionOk(h, wire[last]);
    assert RecordOk(h, h.records[wire[k].record], window);
  }

  lemma {:induction false} WindowAtMostLoad(h: History, wire: seq<Emission>, share: nat, window: real, t: real,
                                            last: nat, n: nat)
    requires Inv(h, share, window) && Covered(h, wire) && n <= |h.records|
    requires last < |wire| && Within(wire[last], t, window)
    requires forall k :: 0 <= k < |wire| && Within(wire[k], t, window) ==>
      h.records[wire[k].record].admission <= h.records[wire[last].record].admission
    ensures WindowBytesBelow(wire, n, t, window)
         <= Load(h.records[..n], h.records[wire[last].record].admission)
  {
    if n > 0 {
      WindowAtMostLoad(h, wire, share, window, t, last, n - 1);
      assert h.records[..n][..n - 1] == h.records[..n - 1];
      WindowOfAtMostEmitted(wire, n - 1, t, window);
      if WindowBytesOf(wire, n - 1, t, window) > 0 {
        var k :| 0 <= k < |wire| && wire[k].record == n - 1 && Within(wire[k], t, window);
        EmittingEntryCounted(h, wire, share, window, t, last, k);
      }
    }
  }

  // The window theorem: no half-open window on the wire carries more than the share.
  lemma NoWindowExceedsShare(h: History, wire: seq<Emission>, share: nat, window: real, t: real)
    requires Inv(h, share, window) && Covered(h, wire)
    ensures WindowBytes(wire, t, window) <= share
  {
    SplitByEntry(wire, |h.records|, t, window);
    if exists k :: 0 <= k < |wire| && Within(wire[k], t, window) {
      var last := LastAdmission(h, wire, t, window);
      WindowAtMostLoad(h, wire, share, window, t, last, |h.records|);
      assert h.records[..|h.records|] == h.records;
      assert EmissionOk(h, wire[last]);
    } else {
      NothingInWindow(wire, t, window);
    }
  }

  lemma {:induction false} NothingInWindow(wire: seq<Emission>, t: real, window: real)
    requires forall k :: 0 <= k < |wire| ==> !Within(wire[k], t, window)
    ensures WindowBytes(wire, t, window) == 0
  {
    if wire != [] { NothingInWindow(wire[1..], t, window); }
  }

  // The same over every run from an empty ledger.
  lemma EveryRunKeepsTheShare(ops: seq<Op>, wire: seq<Emission>, share: nat, window: real, t: real)
    requires LegalRun(EMPTY, ops, share, window)
    requires Covered(Run(EMPTY, ops, window), wire)
    ensures WindowBytes(wire, t, window) <= share
  {
    RunKeepsInv(EMPTY, ops, share, window);
    NoWindowExceedsShare(Run(EMPTY, ops, window), wire, share, window, t);
  }
}
