// The onboard's share of the E-Link: the ledger every onboard sender charges.
module OnboardBudget {
  import opened LinkHistory
  import opened Egress
  import opened Reals
  import opened Wrappers

  const UINT32_MAX: nat := 0xFFFF_FFFF

  // A priority is a number, the most urgent 0.

  // What one attempt of a waiting hold came to.
  datatype Attempt = Admitted(id: nat) | GivenUp | Waiting

  // One attempt of a waiting hold: when, and whether the ledger had room then.
  datatype Try = Try(now: real, fits: bool)

  // What a hold comes to that is tried at these times: it goes at the first
  // attempt that fits and gives up at the first one from the deadline on.
  function Outcome(tries: seq<Try>, deadline: real): Attempt
    decreases |tries|
  {
    if tries == [] then Waiting
    else if tries[0].fits then Admitted(0)
    else if tries[0].now >= deadline then GivenUp
    else Outcome(tries[1..], deadline)
  }

  // Whatever the other senders do between the attempts: a hold is admitted
  // exactly when an attempt up to the deadline fits, the one at or past the
  // deadline being the last, and it waits on exactly while neither has come.
  lemma {:induction false} WaitEnds(tries: seq<Try>, deadline: real)
    ensures Outcome(tries, deadline).Admitted? <==>
      exists i :: 0 <= i < |tries| && tries[i].fits && forall j :: 0 <= j < i ==> tries[j].now < deadline
    ensures Outcome(tries, deadline).Waiting? <==>
      forall i :: 0 <= i < |tries| ==> !tries[i].fits && tries[i].now < deadline
    decreases |tries|
  {
    if tries != [] && !tries[0].fits && tries[0].now < deadline {
      var rest := tries[1..];
      WaitEnds(rest, deadline);
      if Outcome(rest, deadline).Admitted? {
        var i :| 0 <= i < |rest| && rest[i].fits && forall j :: 0 <= j < i ==> rest[j].now < deadline;
        assert tries[i + 1].fits && forall j :: 1 <= j < i + 1 ==> tries[j] == rest[j - 1];
      }
      if i :| 0 <= i < |tries| && tries[i].fits && forall j :: 0 <= j < i ==> tries[j].now < deadline {
        assert rest[i - 1].fits && forall j :: 0 <= j < i - 1 ==> rest[j] == tries[j + 1];
      }
      assert forall i :: 0 <= i < |rest| ==> rest[i] == tries[i + 1];
    }
  }

  // A waiter for `priority` blocks every less urgent (greater) one.
  predicate MoreUrgentWaiting(waiting: seq<int>, priority: int) {
    exists i :: 0 <= i < |waiting| && waiting[i] < priority
  }

  class LinkBudget {
    const share: nat
    const window: real
    var entries: seq<Entry>
    var waiting: seq<int>     // priorities of blocked WaitHold calls
    var nextId: nat
    var egress: Bucket
    ghost var history: History

    ghost predicate Valid()
      reads this
    {
      && share <= UINT32_MAX
      && entries == LiveEntries(history.records)
      && nextId == |history.records| + 1
      && Inv(history, share, window)
    }

    constructor (shareBytes: nat, windowSeconds: real)
      requires shareBytes <= UINT32_MAX
      ensures Valid() && share == shareBytes && window == windowSeconds
      ensures history == EMPTY && waiting == [] && !egress.Shaped()
    {
      share, window := shareBytes, windowSeconds;
      entries, waiting, nextId, egress, history := [], [], 1, NO_SHAPER, EMPTY;
    }

    // ---------- the admission rule ----------

    // Bytes that would count against the share at `now`.
    ghost function Counting(now: real): nat
      reads this
    {
      LiveBytes(PruneRecords(history.records, |history.placedAt|, window, now))
    }

    ghost predicate Fits(bytes: nat, priority: int, waiters: seq<int>, now: real, tx: nat)
      reads this
    {
      && !MoreUrgentWaiting(waiters, priority)
      && Counting(now) + bytes <= share
      && (egress.Shaped() && tx > 0 ==> Holds(Refill(egress, now), tx))
    }

    // What the bucket is after an admission at `now`.
    function EgressAfter(now: real, tx: nat): Bucket
      reads this
    {
      if egress.Shaped() && tx > 0 then Take(Refill(egress, now), tx) else egress
    }

    // Sums the counting entries, dropping the expired ones.
    method InWindow(now: real) returns (sum: nat)
      requires Valid() && history.clock <= now
      modifies this`entries, this`history
      ensures Valid() && history == Step(old(history), Query(now), window)
      ensures sum == old(Counting(now)) <= share
      ensures sum == LiveBytes(history.records)
    {
      var kept := [];
      for i := 0 to |entries|
        invariant entries == old(entries) && history == old(history) && Valid()
        invariant kept == Keep(entries[..i], window, now)
      {
        if !(entries[i].end.Closed? && entries[i].end.at + window <= now) {
          kept := kept + [entries[i]];
        }
        assert entries[..i + 1][..i] == entries[..i];
      }
      assert entries[..|entries|] == entries;
      LiveAfterPrune(history.records, |history.placedAt|, window, now);
      StepKeepsInv(history, Query(now), share, window);
      history := Step(history, Query(now), window);
      entries := kept;

      sum := 0;
      for i := 0 to |entries|
        invariant sum == SumBytes(entries[..i])
      {
        sum := sum + entries[i].bytes;
        assert entries[..i + 1][..i] == entries[..i];
      }
      assert entries[..|entries|] == entries;
      SumOfLive(history.records);
      LiveWithinShare(history, share, window);
      // The sum is reported in 32 bits.
      if sum > UINT32_MAX { sum := UINT32_MAX; }
    }

    // A refused charge leaves at most a prune and a refill behind.
    twostate predicate Refused(now: real)
      reads this
    {
      LedgerKept(now) && waiting == old(waiting)
    }

    twostate predicate LedgerKept(now: real)
      reads this
    {
      && (history == old(history) || history == Step(old(history), Query(now), window))
      && (egress == old(egress) || egress == Refill(old(egress), now))
    }

    twostate predicate Placed(id: nat, now: real, bytes: nat, end: End, tx: nat)
      reads this
    {
      && history == Step(old(history), LinkHistory.Admit(now, bytes, end), window)
      && egress == old(EgressAfter(now, tx))
      && id == |history.records|
    }

    method AdmitLocked(bytes: nat, priority: int, now: real, open: bool, tx: nat) returns (ticket: Option<nat>)
      requires Valid() && history.clock <= now
      modifies this`entries, this`history, this`nextId, this`egress
      ensures Valid()
      ensures ticket.Some? <==> old(Fits(bytes, priority, waiting, now, tx))
      ensures ticket.Some? ==> Placed(ticket.value, now, bytes, if open then Open else Closed(now), tx)
      ensures ticket.None? ==> Refused(now)
      ensures old(egress.Bounded()) && (ticket.None? || tx as real <= old(egress.burst)) ==> egress.Bounded()
    {
      if egress.Bounded() && egress.Shaped() { RefillBounded(egress, now); }
      if bytes > share { return None; }
      if exists i :: 0 <= i < |waiting| && waiting[i] < priority { return None; }
      ghost var before := history;
      var counting := InWindow(now);
      if counting + bytes > share { return None; }
      if egress.burst > 0.0 && tx > 0 {
        egress := Refill(egress, now);
        if egress.tokens < RMin(tx as real, egress.burst) { return None; }
        egress := egress.(tokens := egress.tokens - tx as real);
      }
      ticket := Place(before, bytes, now, if open then Open else Closed(now));
    }

    // Enters an admitted charge after the expired ones have been dropped.
    method Place(ghost before: History, bytes: nat, now: real, end: End) returns (ticket: Option<nat>)
      requires Valid() && history == Step(before, Query(now), window)
      requires Inv(before, share, window) && Legal(before, LinkHistory.Admit(now, bytes, end), share, window)
      modifies this`entries, this`history, this`nextId
      ensures Valid() && history == Step(before, LinkHistory.Admit(now, bytes, end), window)
      ensures ticket == Some(|history.records|)
    {
      entries := entries + [Entry(nextId, end, bytes)];
      ticket := Some(nextId);
      nextId := nextId + 1;
      StepKeepsInv(before, LinkHistory.Admit(now, bytes, end), share, window);
      history := Step(before, LinkHistory.Admit(now, bytes, end), window);
      assert history.records[..|history.records| - 1] == PruneRecords(before.records, |before.placedAt|, window, now);
    }

    // Charges `bytes` for one window from now, or nothing.
    method TryCharge(bytes: nat, priority: int, now: real, tx: nat) returns (ok: bool)
      requires Valid() && history.clock <= now
      modifies this`entries, this`history, this`nextId, this`egress
      ensures Valid()
      ensures ok <==> old(Fits(bytes, priority, waiting, now, tx))
      ensures ok ==> Placed(|history.records|, now, bytes, Closed(now), tx)
      ensures !ok ==> Refused(now)
      ensures old(egress.Bounded()) && (!ok || tx as real <= old(egress.burst)) ==> egress.Bounded()
    {
      var ticket := AdmitLocked(bytes, priority, now, false, tx);
      ok := ticket.Some?;
    }

    method TryHold(bytes: nat, priority: int, now: real, tx: nat) returns (ticket: Option<nat>)
      requires Valid() && history.clock <= now
      modifies this`entries, this`history, this`nextId, this`egress
      ensures Valid()
      ensures ticket.Some? <==> old(Fits(bytes, priority, waiting, now, tx))
      ensures ticket.Some? ==> Placed(ticket.value, now, bytes, Open, tx)
      ensures ticket.None? ==> Refused(now)
      ensures old(egress.Bounded()) && (ticket.None? || tx as real <= old(egress.burst)) ==> egress.Bounded()
    {
      ticket := AdmitLocked(bytes, priority, now, true, tx);
    }

    // WaitHold is an attempt when it is called and one at each wake-up; between
    // them the lock is free and any other step may happen.
    method WaitHoldFirst(bytes: nat, priority: int, now: real, deadline: real, tx: nat) returns (r: Attempt)
      requires Valid() && history.clock <= now
      modifies this`entries, this`history, this`nextId, this`egress, this`waiting
      ensures Valid()
      ensures r.Admitted? <==> old(Fits(bytes, priority, waiting, now, tx))
      ensures r.Admitted? ==> Placed(r.id, now, bytes, Open, tx)
      ensures r.Waiting? <==> bytes <= share && !old(Fits(bytes, priority, waiting, now, tx)) && now < deadline
      ensures waiting == old(waiting) + if r.Waiting? then [priority] else []
      ensures !r.Admitted? ==> LedgerKept(now)
      ensures old(egress.Bounded()) && (!r.Admitted? || tx as real <= old(egress.burst)) ==> egress.Bounded()
    {
      if bytes > share { return GivenUp; }
      r := WaitAttempt(bytes, priority, now, deadline, tx);
    }

    method WaitHoldAgain(bytes: nat, priority: int, now: real, deadline: real, tx: nat) returns (r: Attempt)
      requires Valid() && history.clock <= now && priority in waiting && bytes <= share
      modifies this`entries, this`history, this`nextId, this`egress, this`waiting
      ensures Valid()
      // Its own registration never stands in a waiter's way.
      ensures r.Admitted? <==> old(Fits(bytes, priority, waiting, now, tx))
      ensures r.Admitted? ==> Placed(r.id, now, bytes, Open, tx)
      ensures r.Waiting? <==> !old(Fits(bytes, priority, waiting, now, tx)) && now < deadline
      ensures r.Waiting? ==> multiset(waiting) == multiset(old(waiting))
      ensures !r.Waiting? ==> multiset(waiting) == multiset(old(waiting)) - multiset{priority}
      ensures !r.Admitted? ==> LedgerKept(now)
      ensures old(egress.Bounded()) && (!r.Admitted? || tx as real <= old(egress.burst)) ==> egress.Bounded()
    {
      waiting := WithoutOne(waiting, priority);
      r := WaitAttempt(bytes, priority, now, deadline, tx);
    }

    static method WithoutOne(waiting: seq<int>, priority: int) returns (rest: seq<int>)
      requires priority in waiting
      ensures multiset(rest) == multiset(waiting) - multiset{priority}
      ensures MoreUrgentWaiting(rest, priority) <==> MoreUrgentWaiting(waiting, priority)
    {
      var at := 0;
      while waiting[at] != priority
        invariant at < |waiting| && priority in waiting[at..]
        decreases |waiting| - at
      {
        at := at + 1;
      }
      assert waiting == waiting[..at] + [priority] + waiting[at + 1..];
      UrgencyIgnoresOneself(waiting, at);
      rest := waiting[..at] + waiting[at + 1..];
    }

    static lemma UrgencyIgnoresOneself(waiting: seq<int>, at: nat)
      requires at < |waiting|
      ensures MoreUrgentWaiting(waiting, waiting[at])
         <==> MoreUrgentWaiting(waiting[..at] + waiting[at + 1..], waiting[at])
    {
      var rest := waiting[..at] + waiting[at + 1..];
      if i :| 0 <= i < |waiting| && waiting[i] < waiting[at] {
        assert rest[if i < at then i else i - 1] == waiting[i];
      }
      if i :| 0 <= i < |rest| && rest[i] < waiting[at] {
        assert waiting[if i < at then i else i + 1] == rest[i];
      }
    }

    method WaitAttempt(bytes: nat, priority: int, now: real, deadline: real, tx: nat) returns (r: Attempt)
      requires Valid() && history.clock <= now && bytes <= share
      modifies this`entries, this`history, this`nextId, this`egress, this`waiting
      ensures Valid()
      ensures r.Admitted? <==> old(Fits(bytes, priority, waiting, now, tx))
      ensures r.Admitted? ==> Placed(r.id, now, bytes, Open, tx)
      ensures r.Waiting? <==> !old(Fits(bytes, priority, waiting, now, tx)) && now < deadline
      ensures waiting == old(waiting) + if r.Waiting? then [priority] else []
      ensures !r.Admitted? ==> LedgerKept(now)
      ensures old(egress.Bounded()) && (!r.Admitted? || tx as real <= old(egress.burst)) ==> egress.Bounded()
    {
      var ticket := AdmitLocked(bytes, priority, now, true, tx);
      if ticket.Some? { return Admitted(ticket.value); }
      if now >= deadline { return GivenUp; }
      waiting := waiting + [priority];
      r := Waiting;
    }

    // A hold that waits while nobody else touches the ledger: called at the first
    // of these times and woken at the others, it is admitted exactly when the ledger
    // as it is now has room at one of them, up to the first at or past the deadline.
    method WaitAlone(bytes: nat, priority: int, wakes: seq<real>, deadline: real, tx: nat) returns (r: Attempt)
      requires Valid() && wakes != [] && history.clock <= wakes[0] && egress.Bounded()
      requires forall i, j :: 0 <= i < j < |wakes| ==> wakes[i] <= wakes[j]
      modifies this`entries, this`history, this`nextId, this`egress, this`waiting
      ensures Valid()
      ensures r.Admitted? <==> exists i :: 0 <= i < |wakes| && old(Fits(bytes, priority, waiting, wakes[i], tx))
                                           && forall j :: 0 <= j < i ==> wakes[j] < deadline
      ensures r.Waiting? <==> bytes <= share && forall i :: 0 <= i < |wakes| ==>
        wakes[i] < deadline && !old(Fits(bytes, priority, waiting, wakes[i], tx))
    {
      ghost var h0, e0, urgent := history, egress, MoreUrgentWaiting(waiting, priority);
      assert forall t :: Fits(bytes, priority, waiting, t, tx) <==> FitsThen(h0, e0, urgent, bytes, t, tx);
      if bytes > share { return GivenUp; }
      r := FirstTry(bytes, priority, wakes[0], deadline, tx);
      var n := 1;
      while r.Waiting? && n < |wakes|
        invariant 1 <= n <= |wakes| && Valid()
        invariant r.Waiting? ==> StillWaits(h0, e0, urgent, priority, wakes[n - 1])
        invariant forall i :: 0 <= i < n - 1 ==> wakes[i] < deadline && !FitsThen(h0, e0, urgent, bytes, wakes[i], tx)
        invariant r.Admitted? <==> FitsThen(h0, e0, urgent, bytes, wakes[n - 1], tx)
        invariant r.Waiting? <==> !r.Admitted? && wakes[n - 1] < deadline
      {
        r := NextTry(h0, e0, urgent, bytes, priority, wakes[n - 1], wakes[n], deadline, tx);
        n := n + 1;
      }
    }

    // Room for a hold at a later time in a ledger nobody touches until then.
    ghost predicate FitsThen(h0: History, e0: Bucket, urgent: bool, bytes: nat, t: real, tx: nat) {
      && !urgent && LiveBytes(PruneRecords(h0.records, |h0.placedAt|, window, t)) + bytes <= share
      && (e0.Shaped() && tx > 0 ==> Holds(Refill(e0, t), tx))
    }

    ghost predicate StillWaits(h0: History, e0: Bucket, urgent: bool, priority: int, now: real)
      reads this
    {
      && history.clock <= now && egress.Bounded() && priority in waiting
      && (MoreUrgentWaiting(waiting, priority) <==> urgent) && Alike(h0, e0, history, egress, now)
    }

    method FirstTry(bytes: nat, priority: int, now: real, deadline: real, tx: nat) returns (r: Attempt)
      requires Valid() && history.clock <= now && egress.Bounded() && bytes <= share
      modifies this`entries, this`history, this`nextId, this`egress, this`waiting
      ensures Valid()
      ensures var urgent := old(MoreUrgentWaiting(waiting, priority));
        && (r.Admitted? <==> FitsThen(old(history), old(egress), urgent, bytes, now, tx))
        && (r.Waiting? ==> StillWaits(old(history), old(egress), urgent, priority, now))
      ensures r.Waiting? <==> !r.Admitted? && now < deadline
    {
      r := WaitHoldFirst(bytes, priority, now, deadline, tx);
      if r.Waiting? {
        AlikeAfterStep(old(history), old(egress), old(history), old(egress), history, egress, now, now);
        UrgencyIgnoresOneself(waiting, |waiting| - 1);
        assert waiting[..|waiting| - 1] + waiting[|waiting|..] == old(waiting);
      }
    }

    method NextTry(ghost h0: History, ghost e0: Bucket, ghost urgent: bool, bytes: nat, priority: int,
                   ghost before: real, now: real, deadline: real, tx: nat) returns (r: Attempt)
      requires Valid() && StillWaits(h0, e0, urgent, priority, before) && before <= now && bytes <= share
      modifies this`entries, this`history, this`nextId, this`egress, this`waiting
      ensures Valid()
      ensures r.Admitted? <==> FitsThen(h0, e0, urgent, bytes, now, tx)
      ensures r.Waiting? ==> StillWaits(h0, e0, urgent, priority, now)
      ensures r.Waiting? <==> !r.Admitted? && now < deadline
    {
      assert LaterSame(h0, e0, history, egress, now);
      r := WaitHoldAgain(bytes, priority, now, deadline, tx);
      if r.Waiting? {
        AlikeAfterStep(h0, e0, old(history), old(egress), history, egress, before, now);
        SameUrgency(old(waiting), waiting, priority);
      }
    }

    // What the ledger counts and what the bucket holds at a later time.
    ghost predicate LaterSame(h0: History, e0: Bucket, h: History, e: Bucket, t: real) {
      && PruneRecords(h.records, |h.placedAt|, window, t) == PruneRecords(h0.records, |h0.placedAt|, window, t)
      && (e.Shaped() ==> Refill(e, t) == Refill(e0, t))
    }

    ghost predicate Alike(h0: History, e0: Bucket, h: History, e: Bucket, now: real) {
      && |h.placedAt| == |h0.placedAt| && e.burst == e0.burst
      && forall t :: now <= t ==> LaterSame(h0, e0, h, e, t)
    }

    // An attempt that fails changes nothing for later ones.
    lemma AlikeAfterStep(h0: History, e0: Bucket, h: History, e: Bucket, h': History, e': Bucket, now: real, next: real)
      requires (h == h0 && e == e0) || Alike(h0, e0, h, e, now)
      requires now <= next && (h' == h || h' == Step(h, Query(next), window)) && (e' == e || e' == Refill(e, next))
      requires e.Bounded()
      ensures Alike(h0, e0, h', e', next)
    {
      forall t | next <= t ensures LaterSame(h0, e0, h', e', t) {
        assert h != h0 || e != e0 ==> LaterSame(h0, e0, h, e, t);
        PruneLater(h.records, |h.placedAt|, window, next, t);
        if e.Shaped() { RefillTwice(e, next, t); }
      }
    }

    static lemma SameUrgency(a: seq<int>, b: seq<int>, priority: int)
      requires multiset(a) == multiset(b)
      ensures MoreUrgentWaiting(a, priority) <==> MoreUrgentWaiting(b, priority)
      ensures priority in a ==> priority in b
    {
      assert priority in a ==> priority in multiset(b);
      if i :| 0 <= i < |a| && a[i] < priority { assert a[i] in multiset(b); }
      if i :| 0 <= i < |b| && b[i] < priority { assert b[i] in multiset(a); }
    }

    // Whatever was charged, released and refunded so far: no window of what the
    // onboard's charges cover carries more than its share.
    lemma WireWithinShare(wire: seq<Emission>, t: real)
      requires Valid() && Covered(history, wire)
      ensures WindowBytes(wire, t, window) <= share
    {
      NoWindowExceedsShare(history, wire, share, window, t);
    }

    // ---------- changes to placed entries ----------

    method Find(id: nat) returns (at: Option<nat>)
      requires Valid()
      ensures at.Some? <==> IsLive(history, id)
      ensures at.Some? ==> at.value < |entries| && entries[at.value].id == id
    {
      for i := 0 to |entries|
        invariant forall j :: 0 <= j < i ==> entries[j].id != id
      {
        if entries[i].id == id {
          ListedIsLive(history.records, i);
          return Some(i);
        }
      }
      at := None;
      if IsLive(history, id) { LiveIsListed(history.records, id); }
    }

    // Closes a hold at `when`; an unknown or expired ticket changes nothing.
    method ReleaseAt(id: nat, when: real)
      requires Valid()
      modifies this`entries, this`history
      ensures Valid() && history == Step(old(history), LinkHistory.ReleaseAt(id, when), window)
    {
      var at := Find(id);
      StepKeepsInv(history, LinkHistory.ReleaseAt(id, when), share, window);
      if at.Some? {
        ListedIsLive(history.records, at.value);
        LiveUpdate(history.records, at.value, history.records[id - 1].(end := Closed(when)));
        entries := entries[at.value := entries[at.value].(end := Closed(when))];
      }
      history := Step(history, LinkHistory.ReleaseAt(id, when), window);
    }

    // Takes a part off a hold and closes that part at `when`.
    method ReleasePart(id: nat, bytes: nat, when: real)
      requires Valid()
      modifies this`entries, this`history, this`nextId
      ensures Valid() && history == Step(old(history), LinkHistory.ReleasePart(id, bytes, when), window)
    {
      var at := Find(id);
      var op := LinkHistory.ReleasePart(id, bytes, when);
      StepKeepsInv(history, op, share, window);
      if at.Some? {
        ListedIsLive(history.records, at.value);
        var part := Min(bytes, entries[at.value].bytes);
        ghost var r := history.records[id - 1];
        LiveUpdate(history.records, at.value, r.(bytes := r.bytes - part));
        entries := entries[at.value := entries[at.value].(bytes := entries[at.value].bytes - part)]
                 + [Entry(nextId, Closed(when), part)];
        nextId := nextId + 1;
        assert Step(history, op, window).records[..|history.records|]
            == history.records[id - 1 := r.(bytes := r.bytes - part)];
      }
      history := Step(history, op, window);
    }

    // Takes back bytes that never reached the wire.
    method Refund(id: nat, bytes: nat)
      requires Valid()
      modifies this`entries, this`history
      ensures Valid() && history == Step(old(history), LinkHistory.Refund(id, bytes), window)
    {
      var at := Find(id);
      StepKeepsInv(history, LinkHistory.Refund(id, bytes), share, window);
      if at.Some? {
        ListedIsLive(history.records, at.value);
        var e := entries[at.value];
        ghost var r := history.records[id - 1];
        LiveUpdate(history.records, at.value, r.(bytes := r.bytes - Min(bytes, r.bytes)));
        entries := entries[at.value := e.(bytes := e.bytes - Min(bytes, e.bytes))];
      }
      history := Step(history, LinkHistory.Refund(id, bytes), window);
    }

    // ---------- the modelled shaper ----------

    method SetEgressShaper(burst: nat, rate: nat, now: real)
      requires Valid()
      modifies this`egress
      ensures Valid() && egress == Bucket(burst as real, rate as real, burst as real, now) && egress.Bounded()
    {
      egress := Bucket(burst as real, rate as real, burst as real, now);
    }

    method DebitEgress(bytes: nat, now: real)
      requires Valid() && egress.Bounded()
      modifies this`egress
      ensures Valid() && egress.Bounded()
      ensures egress == if old(egress.Shaped()) then Debit(Refill(old(egress), now), bytes) else old(egress)
    {
      if egress.burst <= 0.0 { return; }
      RefillBounded(egress, now);
      egress := Refill(egress, now);
      egress := egress.(tokens := RMax(egress.tokens - bytes as real, -egress.burst));
    }

    method RefundEgress(bytes: nat, now: real)
      requires Valid() && egress.Bounded()
      modifies this`egress
      ensures Valid() && egress.Bounded()
      ensures egress == if old(egress.Shaped()) then Egress.Refund(Refill(old(egress), now), bytes) else old(egress)
    {
      if egress.burst <= 0.0 { return; }
      RefillBounded(egress, now);
      egress := Refill(egress, now);
      egress := egress.(tokens := RMin(egress.burst, egress.tokens + bytes as real));
    }
  }
}
