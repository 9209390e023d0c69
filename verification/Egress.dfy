// The token bucket both ledgers keep as a model of the kernel shaper on their
// own port, and why what the model lets out never waits in the kernel.
module Egress {
  import opened Reals

  // Tokens are bytes as of `stamp`; a bucket with burst 0 models nothing.
  datatype Bucket = Bucket(burst: real, rate: real, tokens: real, stamp: real) {
    predicate Shaped() { burst > 0.0 }

    // Tokens are never above the burst, nor further in debt than one burst.
    predicate Bounded() { Shaped() ==> rate >= 0.0 && -burst <= tokens <= burst }
  }

  const NO_SHAPER := Bucket(0.0, 0.0, 0.0, 0.0)

  // What `seconds` at `rate` bring in.
  function Gain(rate: real, seconds: real): (g: real)
    requires seconds >= 0.0
    ensures rate >= 0.0 ==> g >= 0.0
  {
    rate * seconds
  }

  lemma GainAdds(rate: real, s0: real, s1: real)
    requires s0 >= 0.0 && s1 >= 0.0
    ensures Gain(rate, s0 + s1) == Gain(rate, s0) + Gain(rate, s1)
  {
  }

  lemma GainMonotone(rate0: real, rate1: real, s0: real, s1: real)
    requires 0.0 <= rate0 <= rate1 && 0.0 <= s0 <= s1
    ensures Gain(rate0, s0) <= Gain(rate1, s1)
  {
    assert Gain(rate1, s1) == Gain(rate1, s0) + Gain(rate1, s1 - s0);
    assert Gain(rate1, s0) == Gain(rate0, s0) + Gain(rate1 - rate0, s0);
  }

  function Refill(b: Bucket, now: real): Bucket {
    if now > b.stamp then b.(tokens := RMin(b.burst, b.tokens + Gain(b.rate, now - b.stamp)), stamp := now) else b
  }

  // What a charge of `tx` bytes needs before it goes: more than the bucket
  // holds goes from a full bucket.
  function Need(b: Bucket, tx: nat): real { RMin(tx as real, b.burst) }

  predicate Holds(b: Bucket, tx: nat) { b.Shaped() && tx > 0 ==> b.tokens >= Need(b, tx) }

  function Take(b: Bucket, tx: nat): Bucket { b.(tokens := b.tokens - tx as real) }

  // Bytes nobody waited for: the debt is at most one bucket.
  function Debit(b: Bucket, bytes: nat): Bucket { b.(tokens := RMax(b.tokens - bytes as real, -b.burst)) }

  function Refund(b: Bucket, bytes: nat): Bucket { b.(tokens := RMin(b.burst, b.tokens + bytes as real)) }

  lemma RefillBounded(b: Bucket, now: real)
    requires b.Bounded() && b.Shaped()
    ensures Refill(b, now).Bounded() && Refill(b, now).tokens >= b.tokens
  {
  }

  // Reading the bucket in between changes nothing.
  lemma RefillTwice(b: Bucket, t0: real, t1: real)
    requires b.Bounded() && b.Shaped() && t0 <= t1
    ensures Refill(Refill(b, t0), t1) == Refill(b, t1)
  {
    if b.stamp < t0 < t1 { GainAdds(b.rate, t0 - b.stamp, t1 - t0); }
  }

  // A charge leaves the model inside its bounds exactly when it is at most one
  // bucket more than the bucket holds; one of at most a bucket leaves no debt.
  lemma TakeBounded(b: Bucket, tx: nat)
    requires b.Bounded() && b.Shaped() && Holds(b, tx) && tx > 0
    ensures Take(b, tx).Bounded() <==> tx as real <= b.tokens + b.burst
    ensures tx as real <= b.burst ==> 0.0 <= Take(b, tx).tokens
  {
  }

  // ---------- the model against the kernel ----------

  // What the machine puts on its port.
  datatype Event =
    | Charge(now: real, tx: nat)     // an admitted charge, sent as it is admitted
    | Unasked(now: real, bytes: nat) // an ACK or a reset that no charge waited for

  function ModelStep(m: Bucket, e: Event): Bucket {
    match e
    case Charge(now, tx) => Take(Refill(m, now), tx)
    case Unasked(now, bytes) => Debit(Refill(m, now), bytes)
  }

  // The kernel's bucket; a backlog in its queue shows as debt, at most one
  // bucket (what does not fit is dropped).
  function KernelStep(k: Bucket, e: Event): Bucket {
    match e
    case Charge(now, tx) => Debit(Refill(k, now), tx)
    case Unasked(now, bytes) => Debit(Refill(k, now), bytes)
  }

  predicate Admitted(m: Bucket, e: Event) {
    m.stamp <= e.now && (e.Charge? ==> 0 < e.tx && e.tx as real <= m.burst && Holds(Refill(m, e.now), e.tx))
  }

  ghost predicate AdmittedRun(m: Bucket, events: seq<Event>)
    decreases events
  {
    events == [] || (Admitted(m, events[0]) && AdmittedRun(ModelStep(m, events[0]), events[1..]))
  }

  // No charge of the run finds fewer tokens in the kernel's bucket than it has bytes.
  ghost predicate NeverWaits(k: Bucket, events: seq<Event>)
    decreases events
  {
    events == [] ||
    (&& (events[0].Charge? ==> events[0].tx as real <= Refill(k, events[0].now).tokens)
     && NeverWaits(KernelStep(k, events[0]), events[1..]))
  }

  // Same size, an equal or faster refill, and now at least as full as the model.
  ghost predicate Simulates(k: Bucket, m: Bucket) {
    && m.Shaped() && m.Bounded() && k.Bounded()
    && k.burst == m.burst && k.rate >= m.rate && k.stamp == m.stamp
    && k.tokens >= m.tokens
  }

  lemma RefillKeepsSimulation(k: Bucket, m: Bucket, now: real)
    requires Simulates(k, m)
    ensures Simulates(Refill(k, now), Refill(m, now))
  {
    RefillBounded(k, now);
    RefillBounded(m, now);
    if now > m.stamp { GainMonotone(m.rate, k.rate, now - m.stamp, now - m.stamp); }
  }

  lemma StepKeepsSimulation(k: Bucket, m: Bucket, e: Event)
    requires Simulates(k, m) && Admitted(m, e)
    ensures Simulates(KernelStep(k, e), ModelStep(m, e))
    ensures e.Charge? ==> e.tx as real <= Refill(k, e.now).tokens
  {
    RefillKeepsSimulation(k, m, e.now);
  }

  // The bucket simulation: as long as nothing is refunded, no charge the model
  // admits waits in the kernel's shaper.
  lemma {:induction false} AdmittedChargesNeverWait(k: Bucket, m: Bucket, events: seq<Event>)
    requires Simulates(k, m) && AdmittedRun(m, events)
    ensures NeverWaits(k, events)
    decreases events
  {
    if events != [] {
      StepKeepsSimulation(k, m, events[0]);
      AdmittedChargesNeverWait(KernelStep(k, events[0]), ModelStep(m, events[0]), events[1..]);
    }
  }

  // A refund at the instant of its charge takes the charge back exactly...
  lemma RefundAtOnceUndoes(b: Bucket, now: real, tx: nat)
    requires b.Shaped() && b.Bounded() && Holds(Refill(b, now), tx)
    ensures Refund(Take(Refill(b, now), tx), tx) == Refill(b, now)
  {
    RefillBounded(b, now);
  }

  // ...but one made after the bucket has refilled puts the model ahead of a
  // kernel that never saw the bytes: the next charge is admitted and waits.
  lemma LateRefundBreaksSimulation()
    ensures var full := Bucket(1000.0, 800.0, 1000.0, 0.0);
      var m := Take(Refill(Take(full, 400), 1.0), 1000);      // 400 never sent, refilled, 1000 sent
      var k := Take(Refill(full, 1.0), 1000);
      Simulates(k, m) && Holds(Refund(m, 400), 400) && k.tokens < 400.0
  {
  }

  // The bytes of a pending refund would fit the model's bucket all the while:
  // it is never so full that a refund would be cut short, and never debited
  // past its floor.
  predicate RoomFor(m: Bucket, e: Event, tx: nat) {
    var b := Refill(m, e.now);
    b.tokens + tx as real <= b.burst && (e.Unasked? ==> b.tokens - e.bytes as real >= -b.burst)
  }

  ghost predicate RoomAllAlong(m: Bucket, events: seq<Event>, tx: nat)
    decreases events
  {
    events == [] || (RoomFor(m, events[0], tx) && RoomAllAlong(ModelStep(m, events[0]), events[1..], tx))
  }

  function ModelRun(m: Bucket, events: seq<Event>): Bucket
    decreases events
  {
    if events == [] then m else ModelRun(ModelStep(m, events[0]), events[1..])
  }

  function KernelRun(k: Bucket, events: seq<Event>): Bucket
    decreases events
  {
    if events == [] then k else KernelRun(KernelStep(k, events[0]), events[1..])
  }

  // Under that condition a late refund is safe: the kernel, which never saw the
  // bytes, stays ahead of the model by them until they are given back.
  lemma {:induction false} RefundWithRoomIsSafe(k: Bucket, m: Bucket, events: seq<Event>, tx: nat, now: real)
    requires Simulates(k, m) && k.tokens >= m.tokens + tx as real
    requires AdmittedRun(m, events) && RoomAllAlong(m, events, tx)
    ensures Simulates(Refill(KernelRun(k, events), now), Refund(Refill(ModelRun(m, events), now), tx))
    decreases events
  {
    if events == [] {
      AheadAfterRefill(k, m, tx, now);
      RefillKeepsSimulation(k, m, now);
    } else {
      AheadAfterRefill(k, m, tx, events[0].now);
      StepKeepsSimulation(k, m, events[0]);
      RefundWithRoomIsSafe(KernelStep(k, events[0]), ModelStep(m, events[0]), events[1..], tx, now);
    }
  }

  lemma AheadAfterRefill(k: Bucket, m: Bucket, tx: nat, now: real)
    requires Simulates(k, m) && k.tokens >= m.tokens + tx as real
    ensures Refill(k, now).tokens >= RMin(k.burst, Refill(m, now).tokens + tx as real)
  {
    if now > m.stamp { GainMonotone(m.rate, k.rate, now - m.stamp, now - m.stamp); }
  }

  lemma {:induction false} RunKeepsSimulation(k: Bucket, m: Bucket, events: seq<Event>)
    requires Simulates(k, m) && AdmittedRun(m, events)
    ensures Simulates(KernelRun(k, events), ModelRun(m, events))
    ensures KernelRun(k, events).rate == k.rate && ModelRun(m, events).rate == m.rate
    ensures KernelRun(k, events).burst == k.burst
    decreases events
  {
    if events != [] {
      StepKeepsSimulation(k, m, events[0]);
      RunKeepsSimulation(KernelStep(k, events[0]), ModelStep(m, events[0]), events[1..]);
    }
  }

  // What one event does to the kernel's lead over the model: with equal rates
  // it never grows, and a lead of `tx` bytes lasts exactly while there is room.
  lemma LeadAfterEvent(k: Bucket, m: Bucket, e: Event, tx: nat)
    requires Simulates(k, m) && k.rate == m.rate && Admitted(m, e) && tx > 0
    ensures k.tokens < m.tokens + tx as real ==> KernelStep(k, e).tokens < ModelStep(m, e).tokens + tx as real
    ensures k.tokens == m.tokens + tx as real ==>
      if RoomFor(m, e, tx) then KernelStep(k, e).tokens == ModelStep(m, e).tokens + tx as real
      else KernelStep(k, e).tokens < ModelStep(m, e).tokens + tx as real
  {
  }

  lemma {:induction false} LeadLost(k: Bucket, m: Bucket, events: seq<Event>, tx: nat)
    requires Simulates(k, m) && k.rate == m.rate && AdmittedRun(m, events) && tx > 0
    requires k.tokens < m.tokens + tx as real
    ensures KernelRun(k, events).tokens < ModelRun(m, events).tokens + tx as real
    decreases events
  {
    if events != [] {
      LeadAfterEvent(k, m, events[0], tx);
      StepKeepsSimulation(k, m, events[0]);
      LeadLost(KernelStep(k, events[0]), ModelStep(m, events[0]), events[1..], tx);
    }
  }

  lemma {:induction false} LeadKept(k: Bucket, m: Bucket, events: seq<Event>, tx: nat)
    requires Simulates(k, m) && k.rate == m.rate && AdmittedRun(m, events) && tx > 0
    requires k.tokens == m.tokens + tx as real
    ensures var lead := KernelRun(k, events).tokens - ModelRun(m, events).tokens;
      lead <= tx as real && (lead == tx as real <==> RoomAllAlong(m, events, tx))
    decreases events
  {
    if events != [] {
      LeadAfterEvent(k, m, events[0], tx);
      StepKeepsSimulation(k, m, events[0]);
      if RoomFor(m, events[0], tx) {
        LeadKept(KernelStep(k, events[0]), ModelStep(m, events[0]), events[1..], tx);
      } else {
        LeadLost(KernelStep(k, events[0]), ModelStep(m, events[0]), events[1..], tx);
      }
    }
  }

  // Exactly when: against a kernel of the same rate that never saw the bytes,
  // the model is not ahead after a late refund if and only if there was room
  // all along, or the kernel's bucket happens to be full.
  lemma RefundSafeExactlyWithRoom(k: Bucket, m: Bucket, events: seq<Event>, tx: nat, now: real)
    requires Simulates(k, m) && k.rate == m.rate && AdmittedRun(m, events) && tx > 0
    requires k.tokens == m.tokens + tx as real
    ensures Simulates(Refill(KernelRun(k, events), now), Refund(Refill(ModelRun(m, events), now), tx))
       <==> RoomAllAlong(m, events, tx) || Refill(KernelRun(k, events), now).tokens == k.burst
  {
    RunKeepsSimulation(k, m, events);
    LeadKept(k, m, events, tx);
    RefillKeepsSimulation(KernelRun(k, events), ModelRun(m, events), now);
    if RoomAllAlong(m, events, tx) { RefundWithRoomIsSafe(k, m, events, tx, now); }
  }

  // ---------- the hard cap ----------

  // Frames a shaper lets through, each only while the bucket holds it.
  datatype Frame = Frame(at: real, bytes: nat)

  ghost predicate Passes(k: Bucket, frames: seq<Frame>)
    decreases frames
  {
    frames == [] ||
    (&& k.stamp <= frames[0].at
     && frames[0].bytes as real <= Refill(k, frames[0].at).tokens
     && Passes(Take(Refill(k, frames[0].at), frames[0].bytes), frames[1..]))
  }

  function Total(frames: seq<Frame>): nat {
    if frames == [] then 0 else frames[0].bytes + Total(frames[1..])
  }

  // Bytes that left at or after `t`.
  function TotalFrom(frames: seq<Frame>, t: real): nat {
    if frames == [] then 0
    else (if frames[0].at >= t then frames[0].bytes else 0) + TotalFrom(frames[1..], t)
  }

  lemma {:induction false} BucketPaysForFrames(k: Bucket, frames: seq<Frame>, until: real)
    requires k.Shaped() && k.Bounded() && k.tokens >= 0.0 && Passes(k, frames) && k.stamp <= until
    requires forall i :: 0 <= i < |frames| ==> frames[i].at <= until
    ensures Total(frames) as real <= k.tokens + Gain(k.rate, until - k.stamp)
    decreases frames
  {
    if frames != [] {
      var at := frames[0].at;
      RefillBounded(k, at);
      BucketPaysForFrames(Take(Refill(k, at), frames[0].bytes), frames[1..], until);
      GainAdds(k.rate, at - k.stamp, until - at);
    }
  }

  // Whatever was sent before, a span of `span` seconds carries at most one
  // bucket and what refills it meanwhile.
  lemma {:induction false} SpanAtMostBurstPlusRate(k: Bucket, frames: seq<Frame>, t: real, span: real)
    requires k.Shaped() && k.Bounded() && k.tokens >= 0.0 && Passes(k, frames) && span >= 0.0
    requires forall i :: 0 <= i < |frames| ==> frames[i].at <= t + span
    ensures TotalFrom(frames, t) as real <= k.burst + Gain(k.rate, span)
    decreases frames
  {
    if frames != [] {
      var at := frames[0].at;
      RefillBounded(k, at);
      var next := Take(Refill(k, at), frames[0].bytes);
      if at < t {
        SpanAtMostBurstPlusRate(next, frames[1..], t, span);
      } else {
        BucketPaysForFrames(next, frames[1..], t + span);
        TotalFromAtMostTotal(frames[1..], t);
        GainMonotone(k.rate, k.rate, t + span - at, span);
      }
    }
  }

  lemma {:induction false} TotalFromAtMostTotal(frames: seq<Frame>, t: real)
    ensures TotalFrom(frames, t) <= Total(frames)
  {
    if frames != [] { TotalFromAtMostTotal(frames[1..], t); }
  }
}
