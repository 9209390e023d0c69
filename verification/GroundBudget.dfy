// The ground station's share of the E-Link. Its holds wait in a strict order:
// by priority, then by arrival.
module GroundBudget {
  import opened LinkHistory
  import opened Egress
  import opened Reals
  import opened Wrappers

  // Lower is more urgent.
  const CRITICAL := 0

  // One ledger entry; its holder releases it through this object, even after
  // the ledger has dropped it.
  class Charge {
    const nbytes: nat
    var releasedAt: End     // Open while the hold is open
    ghost const id: nat     // its number in the ledger's history

    constructor (nbytes: nat, releasedAt: End, ghost id: nat)
      ensures this.nbytes == nbytes && this.releasedAt == releasedAt && this.id == id
    {
      this.nbytes, this.releasedAt, this.id := nbytes, releasedAt, id;
    }
  }

  datatype Waiter = Waiter(priority: int, order: nat)

  // The order in which waiting holds go.
  predicate Before(a: Waiter, b: Waiter) {
    a.priority < b.priority || (a.priority == b.priority && a.order < b.order)
  }

  datatype Outcome = Placed(charge: Charge) | Refused | Waiting(waiter: Waiter)

  class LinkBudget {
    const share: nat
    const window: real
    var charges: seq<Charge>
    var waiters: seq<Waiter>
    var orders: nat
    var egress: Bucket
    var reserve: real
    ghost var history: History

    ghost predicate Valid()
      reads this, charges
    {
      && Inv(history, share, window)
      && |charges| == |LiveEntries(history.records)|
      && (forall j :: 0 <= j < |charges| ==> Shows(charges[j], LiveEntries(history.records)[j]))
      && (forall j :: 0 <= j < |waiters| ==> waiters[j].order < orders)
      && Queued(waiters)
      && reserve >= 0.0
    }

    static ghost predicate Shows(c: Charge, e: Entry)
      reads c
    {
      c.id == e.id && c.releasedAt == e.end && c.nbytes == e.bytes
    }

    constructor (shareBytes: nat, windowSeconds: real)
      ensures Valid() && share == shareBytes && window == windowSeconds
      ensures history == EMPTY && waiters == [] && charges == [] && !egress.Shaped()
    {
      share, window := shareBytes, windowSeconds;
      charges, waiters, orders, egress, reserve, history := [], [], 0, NO_SHAPER, 0.0, EMPTY;
    }

    ghost function Counting(now: real): nat
      reads this
    {
      LiveBytes(PruneRecords(history.records, |history.placedAt|, window, now))
    }

    // The least level of the bucket at which `tx` bytes may go. All but critical
    // traffic leaves the reserve in it.
    function EgressNeed(priority: int, tx: nat): real
      reads this
    {
      if egress.burst <= 0.0 || tx == 0 then 0.0
      else RMin(tx as real + (if priority == CRITICAL then 0.0 else reserve), egress.burst)
    }

    // A plain charge yields to more urgent holds only; a hold also to earlier
    // ones of its own priority.
    predicate ClearOfWaiters(priority: int, waiter: Option<Waiter>)
      reads this
    {
      forall j :: 0 <= j < |waiters| && (waiter.None? || waiters[j] != waiter.value) ==>
        && priority <= waiters[j].priority
        && (waiter.Some? ==> !Before(waiters[j], waiter.value))
    }

    ghost predicate Fits(nbytes: nat, priority: int, now: real, waiter: Option<Waiter>, tx: nat)
      reads this
    {
      && Counting(now) + nbytes <= share
      && (EgressNeed(priority, tx) > 0.0 ==> Refill(egress, now).tokens >= EgressNeed(priority, tx))
      && ClearOfWaiters(priority, waiter)
    }

    method InWindow(now: real) returns (sum: nat)
      requires Valid() && history.clock <= now
      modifies this`charges, this`history
      ensures Valid() && history == Step(old(history), Query(now), window)
      ensures sum == old(Counting(now)) == LiveBytes(history.records)
      ensures forall c :: c in charges ==> c in old(charges)
    {
      var kept := [];
      ghost var live := LiveEntries(history.records);
      for i := 0 to |charges|
        invariant charges == old(charges) && history == old(history) && Valid()
        invariant |kept| == |Keep(live[..i], window, now)|
        invariant forall j :: 0 <= j < |kept| ==> Shows(kept[j], Keep(live[..i], window, now)[j])
        invariant forall c :: c in kept ==> c in charges
      {
        assert Shows(charges[i], live[i]);
        assert live[..i + 1][..i] == live[..i];
        if charges[i].releasedAt.Open? || charges[i].releasedAt.at + window > now {
          kept := kept + [charges[i]];
        }
      }
      assert live[..|charges|] == live;
      LiveAfterPrune(history.records, |history.placedAt|, window, now);
      StepKeepsInv(history, Query(now), share, window);
      history := Step(history, Query(now), window);
      charges := kept;
      sum := SumCharges();
    }

    method SumCharges() returns (sum: nat)
      requires Valid()
      ensures sum == LiveBytes(history.records)
    {
      sum := 0;
      ghost var live := LiveEntries(history.records);
      for i := 0 to |charges|
        invariant sum == SumBytes(live[..i])
      {
        assert Shows(charges[i], live[i]);
        sum := sum + charges[i].nbytes;
        assert live[..i + 1][..i] == live[..i];
      }
      assert live[..|charges|] == live;
      SumOfLive(history.records);
    }

    method CheckFits(nbytes: nat, priority: int, now: real, waiter: Option<Waiter>, tx: nat) returns (ok: bool)
      requires Valid() && history.clock <= now && (waiter.Some? ==> waiter.value.priority == priority)
      modifies this`charges, this`history, this`egress
      ensures Valid()
      ensures ok ==> Counting(now) + nbytes <= share && history.clock <= now
      ensures ok ==> PruneRecords(history.records, |history.placedAt|, window, now) == history.records
      ensures ok <==> old(Fits(nbytes, priority, now, waiter, tx))
      ensures LedgerKept(now)
      ensures ok ==> history == Step(old(history), Query(now), window)
      ensures ok && tx > 0 && egress.Shaped() ==> egress == Refill(old(egress), now)
      ensures tx == 0 || !old(egress.Shaped()) ==> egress == old(egress)
      ensures old(egress.Bounded()) ==> egress.Bounded()
      ensures ok && tx > 0 && egress.Shaped() ==> egress.tokens >= RMin(tx as real, egress.burst)
    {
      ok := RoomFor(nbytes, now);
      if ok { ok := TokensFit(priority, tx, now); }
      if ok { ok := NobodyBefore(priority, waiter); }
    }

    method RoomFor(nbytes: nat, now: real) returns (ok: bool)
      requires Valid() && history.clock <= now
      modifies this`charges, this`history
      ensures Valid()
      ensures ok <==> old(Counting(now)) + nbytes <= share
      ensures ok ==> Counting(now) + nbytes <= share && history.clock <= now
      ensures ok ==> PruneRecords(history.records, |history.placedAt|, window, now) == history.records
      ensures history == old(history) || history == Step(old(history), Query(now), window)
      ensures ok ==> history == Step(old(history), Query(now), window)
    {
      if nbytes > share { return false; }
      PruneTwice(history.records, |history.placedAt|, window, now);
      var counting := InWindow(now);
      ok := counting + nbytes <= share;
    }

    // Whether the bucket holds enough; it is refilled only where it matters.
    method TokensFit(priority: int, tx: nat, now: real) returns (ok: bool)
      requires reserve >= 0.0
      modifies this`egress
      ensures ok <==> old(EgressNeed(priority, tx) > 0.0 ==> Refill(egress, now).tokens >= EgressNeed(priority, tx))
      ensures egress == old(if EgressNeed(priority, tx) > 0.0 then Refill(egress, now) else egress)
      ensures ok && tx > 0 && egress.Shaped() ==>
        egress == Refill(old(egress), now) && egress.tokens >= RMin(tx as real, egress.burst)
      ensures tx == 0 || !old(egress.Shaped()) ==> egress == old(egress)
      ensures old(egress.Bounded()) ==> egress.Bounded()
    {
      if egress.Bounded() && egress.Shaped() { RefillBounded(egress, now); }
      var need := EgressNeed(priority, tx);
      if need > 0.0 {
        egress := Refill(egress, now);
        if egress.tokens < need { return false; }
      }
      ok := true;
    }

    method NobodyBefore(priority: int, waiter: Option<Waiter>) returns (ok: bool)
      requires waiter.Some? ==> waiter.value.priority == priority
      ensures ok <==> ClearOfWaiters(priority, waiter)
    {
      for j := 0 to |waiters|
        invariant forall i :: 0 <= i < j && (waiter.None? || waiters[i] != waiter.value) ==>
          priority <= waiters[i].priority && (waiter.Some? ==> !Before(waiters[i], waiter.value))
      {
        var other := waiters[j];
        if waiter.None? || other != waiter.value {
          if other.priority < priority { return false; }
          if waiter.Some? && other.priority == priority && other.order < waiter.value.order { return false; }
        }
      }
      ok := true;
    }

    // What an admission at `now` leaves behind.
    twostate predicate PlacedAs(new c: Charge, now: real, nbytes: nat, end: End, tx: nat)
      reads this, c
    {
      && history == Step(Step(old(history), Query(now), window), Admit(now, nbytes, end), window)
      && c.nbytes == nbytes && c.releasedAt == end && c.id == |history.records| && c in charges
      && egress == if old(egress.Shaped()) && tx > 0 then Take(Refill(old(egress), now), tx) else old(egress)
    }

    // What a refused or still waiting one leaves behind: at most a prune and a refill.
    twostate predicate LedgerKept(now: real)
      reads this
    {
      && (history == old(history) || history == Step(old(history), Query(now), window))
      && (egress == old(egress) || egress == Refill(old(egress), now))
    }

    method Place(nbytes: nat, now: real, released: bool, tx: nat) returns (charge: Charge)
      requires Valid() && history.clock <= now && Counting(now) + nbytes <= share
      requires PruneRecords(history.records, |history.placedAt|, window, now) == history.records
      modifies this`charges, this`history, this`egress
      ensures Valid() && fresh(charge) && charge in charges
      ensures charge.nbytes == nbytes && charge.releasedAt == (if released then Closed(now) else Open)
      ensures history == Step(old(history), Admit(now, nbytes, charge.releasedAt), window)
      ensures charge.id == |history.records|
      ensures egress == if old(egress.Shaped()) && tx > 0 then Take(Refill(old(egress), now), tx) else old(egress)
      ensures forall c :: c in charges ==> c == charge || c in old(charges)
    {
      charge := new Charge(nbytes, if released then Closed(now) else Open, |history.records| + 1);
      // The ledger was pruned at `now` a moment ago; placing prunes nothing more.
      ghost var before := history;
      ghost var pruned := PruneRecords(history.records, |history.placedAt|, window, now);
      charges := charges + [charge];
      TakeTokens(now, tx);
      StepKeepsInv(before, Admit(now, nbytes, charge.releasedAt), share, window);
      history := Step(before, Admit(now, nbytes, charge.releasedAt), window);
      assert history.records[..|history.records| - 1] == pruned;
    }

    method TakeTokens(now: real, tx: nat)
      modifies this`egress
      ensures egress == if old(egress.Shaped()) && tx > 0 then Take(Refill(old(egress), now), tx) else old(egress)
    {
      if egress.burst > 0.0 && tx > 0 {
        egress := Refill(egress, now);
        egress := egress.(tokens := egress.tokens - tx as real);
      }
    }

    // Places a charge if it may go now.
    method Enter(nbytes: nat, priority: int, now: real, waiter: Option<Waiter>, released: bool, tx: nat)
      returns (charge: Option<Charge>)
      requires Valid() && history.clock <= now && (waiter.Some? ==> waiter.value.priority == priority)
      modifies this`charges, this`history, this`egress
      ensures Valid()
      ensures charge.Some? <==> old(Fits(nbytes, priority, now, waiter, tx))
      ensures charge.Some? ==>
        fresh(charge.value) && PlacedAs(charge.value, now, nbytes, if released then Closed(now) else Open, tx)
      ensures charge.None? ==> LedgerKept(now)
      ensures old(egress.Bounded()) && (charge.None? || tx as real <= old(egress.burst)) ==> egress.Bounded()
    {
      var fits := CheckFits(nbytes, priority, now, waiter, tx);
      if !fits { return None; }
      var placed := Place(nbytes, now, released, tx);
      charge := Some(placed);
    }

    // Charges now, released at once, unless a more urgent hold is waiting.
    method TryCharge(nbytes: nat, priority: int, now: real, tx: nat) returns (outcome: Outcome)
      requires Valid() && history.clock <= now
      modifies this`charges, this`history, this`egress
      ensures Valid() && !outcome.Waiting?
      ensures outcome.Placed? <==> old(Fits(nbytes, priority, now, None, tx))
      ensures outcome.Placed? ==> PlacedAs(outcome.charge, now, nbytes, Closed(now), tx)
      ensures !outcome.Placed? ==> LedgerKept(now)
      ensures old(egress.Bounded()) && (!outcome.Placed? || tx as real <= old(egress.burst)) ==> egress.Bounded()
    {
      var charge := Enter(nbytes, priority, now, None, true, tx);
      outcome := if charge.Some? then Placed(charge.value) else Refused;
    }

    // A hold is tried when it arrives, and if it may wait, at each wake-up;
    // between them the lock is free and any other step may happen.
    method HoldFirst(nbytes: nat, priority: int, now: real, timeout: real, cancelled: bool, tx: nat)
      returns (outcome: Outcome)
      requires Valid() && history.clock <= now
      modifies this`charges, this`history, this`egress, this`waiters, this`orders
      ensures Valid()
      // A hold that goes at once is more urgent than every hold waiting.
      ensures outcome.Placed? ==>
        && PlacedAs(outcome.charge, now, nbytes, Open, tx)
        && forall w :: w in old(waiters) ==> priority < w.priority
      ensures outcome.Placed? <==> old(Fits(nbytes, priority, now, Some(Waiter(priority, orders)), tx))
      ensures outcome.Waiting? ==>
        outcome.waiter == Waiter(priority, old(orders)) && waiters == old(waiters) + [outcome.waiter]
      ensures outcome.Waiting? <==>
        && nbytes <= share && timeout > 0.0 && !cancelled
        && !old(Fits(nbytes, priority, now, Some(Waiter(priority, orders)), tx))
      ensures !outcome.Waiting? ==> waiters == old(waiters)
      ensures !outcome.Placed? ==> LedgerKept(now)
      ensures old(egress.Bounded()) && (!outcome.Placed? || tx as real <= old(egress.burst)) ==> egress.Bounded()
    {
      if nbytes > share { return Refused; }
      var waiter := Waiter(priority, orders);
      orders := orders + 1;
      var charge := Enter(nbytes, priority, now, Some(waiter), false, tx);
      if charge.Some? { return Placed(charge.value); }
      if timeout <= 0.0 || cancelled { return Refused; }
      Register(waiter);
      outcome := Waiting(waiter);
    }

    method Register(waiter: Waiter)
      requires Valid() && waiter.order < orders && forall w :: w in waiters ==> w.order < waiter.order
      modifies this`waiters
      ensures Valid() && waiters == old(waiters) + [waiter]
    {
      waiters := waiters + [waiter];
    }

    method HoldAgain(nbytes: nat, now: real, deadline: real, cancelled: bool, waiter: Waiter, tx: nat)
      returns (outcome: Outcome)
      requires Valid() && history.clock <= now && waiter in waiters
      modifies this`charges, this`history, this`egress, this`waiters
      ensures Valid()
      // No overtaking: a waiting hold goes before every other hold waiting then.
      ensures outcome.Placed? ==>
        && PlacedAs(outcome.charge, now, nbytes, Open, tx)
        && forall w :: w in old(waiters) && w != waiter ==> Before(waiter, w)
      ensures outcome.Placed? <==> !cancelled && old(Fits(nbytes, waiter.priority, now, Some(waiter), tx))
      ensures outcome.Waiting? ==> outcome.waiter == waiter && waiters == old(waiters)
      ensures outcome.Waiting? <==>
        !cancelled && now < deadline && !old(Fits(nbytes, waiter.priority, now, Some(waiter), tx))
      // However it ends, it is waiting no longer, and every other hold still is.
      ensures !outcome.Waiting? ==>
        waiter !in waiters && forall w :: w in waiters <==> w in old(waiters) && w != waiter
      ensures !outcome.Placed? ==> LedgerKept(now)
      ensures old(egress.Bounded()) && (!outcome.Placed? || tx as real <= old(egress.burst)) ==> egress.Bounded()
    {
      if cancelled {
        RemoveWaiter(waiter);
        return Refused;
      }
      var charge := Enter(nbytes, waiter.priority, now, Some(waiter), false, tx);
      if charge.Some? {
        forall w | w in waiters && w != waiter ensures Before(waiter, w) {
          var i :| 0 <= i < |waiters| && waiters[i] == w;
          var j :| 0 <= j < |waiters| && waiters[j] == waiter;
          assert i < j || j < i;
        }
        RemoveWaiter(waiter);
        return Placed(charge.value);
      }
      if now >= deadline {
        RemoveWaiter(waiter);
        return Refused;
      }
      outcome := Waiting(waiter);
    }

    method RemoveWaiter(waiter: Waiter)
      requires Valid() && waiter in waiters
      modifies this`waiters
      ensures Valid()
      ensures waiter !in waiters && forall w :: w in waiters <==> w in old(waiters) && w != waiter
    {
      var at := 0;
      while waiters[at] != waiter
        invariant at < |waiters| && waiters == old(waiters) && waiter in waiters[at..]
        decreases |waiters| - at
      {
        at := at + 1;
      }
      WithoutOne(waiters, at);
      waiters := waiters[..at] + waiters[at + 1..];
    }

    static ghost predicate Queued(ws: seq<Waiter>) {
      forall i, j :: 0 <= i < j < |ws| ==> ws[i].order < ws[j].order
    }

    static lemma WithoutOne(ws: seq<Waiter>, at: nat)
      requires Queued(ws) && at < |ws|
      ensures var rest := ws[..at] + ws[at + 1..];
        Queued(rest) && forall w :: w in rest <==> w in ws && w != ws[at]
    {
      var rest := ws[..at] + ws[at + 1..];
      forall w | w in ws && w != ws[at] ensures w in rest {
        var i :| 0 <= i < |ws| && ws[i] == w;
        assert rest[if i < at then i else i - 1] == w;
      }
    }

    // An open hold is closed `delay` from now; a second release does nothing.
    method Release(charge: Charge, now: real, delay: real)
      requires Valid() && (charge in charges || charge.releasedAt.Closed?)
      modifies this`history, charge
      ensures Valid()
      ensures history == if charge in charges && old(charge.releasedAt).Open?
        then Step(old(history), ReleaseAt(charge.id, now + RMax(0.0, delay)), window) else old(history)
      ensures charge.releasedAt == if old(charge.releasedAt).Open?
        then Closed(now + RMax(0.0, delay)) else old(charge.releasedAt)
    {
      if charge.releasedAt.Open? { Close(charge, now + RMax(0.0, delay)); }
    }

    method Close(charge: Charge, when: real)
      requires Valid() && charge in charges
      modifies this`history, charge
      ensures Valid() && charge.releasedAt == Closed(when)
      ensures history == Step(old(history), ReleaseAt(charge.id, when), window)
    {
      ghost var j :| 0 <= j < |charges| && charges[j] == charge;
      ListedOnce(j);
      ListedIsLive(history.records, j);
      assert Shows(charges[j], LiveEntries(history.records)[j]);
      LiveUpdate(history.records, j, history.records[charge.id - 1].(end := Closed(when)));
      StepKeepsInv(history, ReleaseAt(charge.id, when), share, window);
      charge.releasedAt := Closed(when);
      history := Step(history, ReleaseAt(charge.id, when), window);
    }

    // No charge stands in the list twice.
    lemma ListedOnce(j: nat)
      requires Valid() && j < |charges|
      ensures forall l :: 0 <= l < |charges| && l != j ==> charges[l] != charges[j]
    {
      ghost var live := LiveEntries(history.records);
      forall l | 0 <= l < |charges| && l != j ensures charges[l] != charges[j] {
        ListedIsLive(history.records, if l < j then j else l);
        assert Shows(charges[l], live[l]) && Shows(charges[j], live[j]);
      }
    }

    // Whatever was charged and released so far: no window of what the ground
    // station's charges cover carries more than its share.
    lemma WireWithinShare(wire: seq<Emission>, t: real)
      requires Valid() && Covered(history, wire)
      ensures WindowBytes(wire, t, window) <= share
    {
      NoWindowExceedsShare(history, wire, share, window, t);
    }

    // ---------- how long a hold sleeps ----------

    predicate StillCounts(c: Charge, now: real)
      reads c
    {
      !Expired(c.releasedAt, window, now)
    }

    // `wake` is no later than the moment `c` stops counting.
    predicate NotPast(c: Charge, wake: real)
      reads c
    {
      c.releasedAt.Closed? ==> wake <= c.releasedAt.at + window
    }

    // The bucket does not hold what it needs, but will.
    predicate Short(priority: int, tx: nat, now: real)
      reads this
    {
      EgressNeed(priority, tx) > 0.0 && egress.rate > 0.0 && Refill(egress, now).tokens < EgressNeed(priority, tx)
    }

    // The moment it will, and a millisecond.
    function EnoughAt(priority: int, tx: nat, now: real): real
      requires egress.rate > 0.0
      reads this
    {
      now + (EgressNeed(priority, tx) - Refill(egress, now).tokens) / egress.rate + 0.001
    }

    // `wake` is the first of the deadline, the moments at which a charge stops
    // counting, and the moment the bucket holds what it needs.
    ghost predicate WakesAt(wake: real, priority: int, tx: nat, now: real, deadline: real)
      reads this, charges
    {
      && wake <= deadline && (forall c :: c in charges && StillCounts(c, now) ==> NotPast(c, wake))
      && (Short(priority, tx, now) ==> wake <= EnoughAt(priority, tx, now))
      && (wake == deadline || Expires(charges, wake, now)
          || (Short(priority, tx, now) && wake == EnoughAt(priority, tx, now)))
    }

    ghost predicate Expires(cs: seq<Charge>, at: real, now: real)
      reads cs
    {
      now < at && exists c :: c in cs && c.releasedAt == Closed(at - window)
    }

    // How long a refused hold sleeps: until its deadline, the next expiry, or the
    // bucket holding what it needs (plus a millisecond), and a tenth of a second at
    // most while it can be called off. With nothing else happening it could not
    // have gone a millisecond before that.
    method WaitSeconds(nbytes: nat, priority: int, now: real, deadline: real, waiter: Waiter, cancellable: bool,
                       tx: nat) returns (wait: real, ghost wake: real)
      requires Valid() && egress.Bounded() && egress.stamp <= now && history.clock <= now
      requires !Fits(nbytes, priority, now, Some(waiter), tx)
      modifies this`egress
      ensures Valid()
      ensures egress
           == if EgressNeed(priority, tx) > 0.0 && old(egress).rate > 0.0 then Refill(old(egress), now) else old(egress)
      ensures old(WakesAt(wake, priority, tx, now, deadline))
      ensures wait == if cancellable then RMin(RMax(0.0, wake - now), 0.1) else RMax(0.0, wake - now)
      ensures forall t :: now <= t < now + wait - 0.001 ==> !old(Fits(nbytes, priority, t, Some(waiter), tx))
    {
      var first := NextExpiry(now, deadline);
      var need := EgressNeed(priority, tx);
      if need > 0.0 && egress.rate > 0.0 {
        egress := Refill(egress, now);
        if egress.tokens < need {
          first := RMin(first, now + (need - egress.tokens) / egress.rate + 0.001);
        }
      }
      wake := first;
      wait := RMax(0.0, first - now);
      if cancellable { wait := RMin(wait, 0.1); }
      forall t | now <= t < now + wait - 0.001
        ensures !old(Fits(nbytes, priority, t, Some(waiter), tx))
      {
        assert t < wake;
        if old(Counting(now)) + nbytes > share {
          NothingExpires(now, t);
        } else if need > 0.0 && old(Refill(egress, now)).tokens < need {
          TokensStillShort(old(egress), need, now, t);
        }
      }
    }

    method NextExpiry(now: real, deadline: real) returns (wake: real)
      ensures wake <= deadline && forall c :: c in charges && StillCounts(c, now) ==> NotPast(c, wake)
      ensures wake == deadline || Expires(charges, wake, now)
    {
      wake := deadline;
      for j := 0 to |charges|
        invariant wake <= deadline
        invariant forall i :: 0 <= i < j && StillCounts(charges[i], now) ==> NotPast(charges[i], wake)
        invariant wake == deadline || Expires(charges[..j], wake, now)
      {
        assert charges[..j + 1] == charges[..j] + [charges[j]];
        if charges[j].releasedAt.Closed? {
          var expiry := charges[j].releasedAt.at + window;
          if now < expiry < wake {
            wake := expiry;
            assert charges[j] in charges[..j + 1];
          }
        }
      }
      assert charges[..|charges|] == charges;
    }

    lemma NothingExpires(now: real, t: real)
      requires Valid() && now <= t
      requires forall i :: 0 <= i < |charges| && StillCounts(charges[i], now) ==> StillCounts(charges[i], t)
      ensures Counting(t) == Counting(now)
    {
      var rs := history.records;
      forall i | 0 <= i < |rs| && rs[i].gone.Live? && Expired(rs[i].end, window, t)
        ensures Expired(rs[i].end, window, now)
      {
        LiveIsListed(rs, i + 1);
        var j :| 0 <= j < |LiveEntries(rs)| && LiveEntries(rs)[j].id == i + 1;
        ListedIsLive(rs, j);
        assert Shows(charges[j], LiveEntries(rs)[j]);
      }
      CountingConstant(rs, |history.placedAt|, window, now, t);
    }

    static lemma TokensStillShort(b: Bucket, need: real, now: real, t: real)
      requires b.Shaped() && b.Bounded() && b.stamp <= now <= t && Refill(b, now).tokens < need
      requires b.rate > 0.0 ==> t < now + (need - Refill(b, now).tokens) / b.rate
      ensures Refill(b, t).tokens < need
    {
      RefillTwice(b, now, t);
      if b.rate > 0.0 && now < t {
        var short := need - Refill(b, now).tokens;
        assert (short / b.rate) * b.rate == short;
        GainLess(b.rate, t - now, short / b.rate);
      }
    }

    static lemma GainLess(rate: real, s0: real, s1: real)
      requires rate > 0.0 && 0.0 <= s0 < s1
      ensures Gain(rate, s0) < Gain(rate, s1)
    {
      GainAdds(rate, s0, s1 - s0);
      assert rate * (s1 - s0) > 0.0;
    }

    // ---------- the modelled shaper ----------

    method SetEgressShaper(burst: real, rate: real, reserveBytes: real, now: real)
      requires Valid() && burst >= 0.0 && rate >= 0.0 && reserveBytes >= 0.0
      modifies this`egress, this`reserve
      ensures Valid() && egress == Bucket(burst, rate, burst, now) && reserve == reserveBytes && egress.Bounded()
    {
      egress, reserve := Bucket(burst, rate, burst, now), reserveBytes;
    }

    method DebitEgress(bytes: nat, now: real)
      requires Valid() && egress.Bounded()
      modifies this`egress
      ensures Valid() && egress.Bounded()
      ensures egress == if old(egress.Shaped()) then Debit(Refill(old(egress), now), bytes) else old(egress)
    {
      if egress.burst <= 0.0 { return; }
      RefillBounded(egress, now);
      egress := Refill(egress, now);
      egress := egress.(tokens := RMax(egress.tokens - bytes as real, -egress.burst));
    }

    // Gives back what was never sent; never more than a full bucket.
    method RefundEgress(bytes: nat, now: real)
      requires Valid() && egress.Bounded()
      modifies this`egress
      ensures Valid() && egress.Bounded()
      ensures egress == if old(egress.Shaped()) then Egress.Refund(Refill(old(egress), now), bytes) else old(egress)
    {
      if egress.burst <= 0.0 { return; }
      RefillBounded(egress, now);
      egress := Refill(egress, now);
      egress := egress.(tokens := RMin(egress.burst, egress.tokens + bytes as real));
    }
  }
}
