// One tick of telemetry delivery: the live frame first, events after it, and
// what is left of the tick for the backlog.
module TelemetryDrains {
  import opened QueueDisks
  import opened QueueFile
  import opened QueueRuns
  import opened TelemetryQueues
  import opened Wrappers

  datatype Status = Sent | NoBudget | NotConnected | Silent | Failed

  datatype Ack = Ack(session: string, number: nat)

  // How the link answers one SendFrame call.
  datatype Answer = Answer(status: Status, ack: Ack)

  // What each SendFrame call will give, silence after the end of the list; what the clock says at each replay
  // round, until the deadline is past for good; and the disk.
  datatype World = World(link: seq<Answer>, clock: seq<real>, disk: Io)

  function AnswerTo(link: seq<Answer>, call: nat): Answer {
    if call < |link| then link[call] else Answer(Silent, Ack("", 0))
  }

  datatype Result = Result(linkOk: bool, error: bool, sent: nat, replayed: nat)

  const MAX_EVENTS_PER_TICK: nat := 8

  // Events are acknowledged with number 0, other frames with their own.
  function Expected(f: Frame): Ack {
    Ack(f.session, if f.IsEvent() then 0 else f.number)
  }

  predicate Accepted(f: Frame, a: Answer) { a.status == Sent && a.ack == Expected(f) }

  // A replayed frame that leaves its run shortens the longest run as the
  // bisection bound expects.
  lemma ReplayedMiddle(pending: set<nat>, runs: map<nat, nat>, runs': map<nat, nat>, s: nat)
    requires RunsOf(pending, runs) && Chosen(runs, s) && s <= runs[s]
    requires RunsOf(pending - {Middle(runs, s)}, runs')
    ensures ReplayStep(runs, runs')
  {
    var expected := Without(runs, s, Middle(runs, s));
    WithoutKeepsRuns(pending, runs, s, Middle(runs, s));
    forall t ensures t in runs' <==> t in expected
      ensures t in runs' ==> runs'[t] == expected[t]
    {
      if t in runs' { RunsAreExactly(pending - {Middle(runs, s)}, expected, t, runs'[t]); }
      if t in expected { RunsAreExactly(pending - {Middle(runs, s)}, runs', t, expected[t]); }
    }
    assert runs' == expected;
  }

  // `frames` is `was` less exactly the acknowledged ones, each acknowledged once.
  ghost predicate Delivered(was: map<nat, Frame>, frames: map<nat, Frame>, acknowledged: seq<nat>) {
    && (forall i :: i in frames <==> i in was && i !in acknowledged)
    && (forall i :: i in frames ==> frames[i] == was[i])
    && AllApart(acknowledged)
  }

  predicate Apart(indices: seq<nat>, j: nat, k: nat)
    requires j < |indices| && k < |indices|
  {
    indices[j] != indices[k]
  }

  ghost predicate Acked(was: map<nat, Frame>, i: nat, calls: nat, link: seq<Answer>) {
    i in was && FrameAcked(was[i], calls, link)
  }

  ghost predicate FrameAcked(f: Frame, calls: nat, link: seq<Answer>) {
    exists c :: 0 <= c < calls && Accepted(f, AnswerTo(link, c))
  }

  predicate SameFrame(f: Frame, g: Frame) { KeyOf(f) == KeyOf(g) && f.text == g.text }

  // One of the acknowledged frames was this one, or its double.
  ghost predicate SentLike(was: map<nat, Frame>, acknowledged: seq<nat>, f: Frame) {
    exists j :: 0 <= j < |acknowledged| && acknowledged[j] in was && SameFrame(was[acknowledged[j]], f)
  }

  ghost predicate GoneForCause(was: map<nat, Frame>, frames: map<nat, Frame>, acknowledged: seq<nat>, i: nat)
    requires i in was
  {
    i !in frames ==> SentLike(was, acknowledged, was[i])
  }

  // Of `was`, only acknowledged frames or their doubles have left, and every
  // acknowledged one was answered by its own ACK among the first `calls` answers.
  ghost predicate Explained(was: map<nat, Frame>, frames: map<nat, Frame>, acknowledged: seq<nat>, calls: nat,
                            link: seq<Answer>) {
    && LeftOf(was, frames)
    && (forall i {:trigger GoneForCause(was, frames, acknowledged, i)} :: i in was ==>
          GoneForCause(was, frames, acknowledged, i))
    && (forall i {:trigger Acked(was, i, calls, link)} :: i in acknowledged ==> Acked(was, i, calls, link))
  }

  lemma ExplainedCall(was: map<nat, Frame>, frames: map<nat, Frame>, acknowledged: seq<nat>, calls: nat,
                      link: seq<Answer>)
    requires Explained(was, frames, acknowledged, calls, link)
    ensures Explained(was, frames, acknowledged, calls + 1, link)
  {
    forall i | i in acknowledged ensures Acked(was, i, calls + 1, link) {
      assert Acked(was, i, calls, link);
    }
  }

  lemma ExplainedSent(was: map<nat, Frame>, c: Core, acknowledged: seq<nat>, calls: nat, link: seq<Answer>, index: nat)
    requires Explained(was, c.frames, acknowledged, calls, link) && index in was && Accepted(was[index], AnswerTo(link, calls))
    requires CoreOk(c)
    ensures Explained(was, AcknowledgeOf(c, was[index]).frames, acknowledged + [index], calls + 1, link)
  {
    var frames, more := AcknowledgeOf(c, was[index]).frames, acknowledged + [index];
    assert FrameAcked(was[index], calls + 1, link);
    forall i | i in was ensures GoneForCause(was, frames, more, i) {
      assert GoneForCause(was, c.frames, acknowledged, i);
      SentLikeMore(was, acknowledged, index, was[i]);
    }
    AllAcked(was, acknowledged, calls, link, index);
  }

  lemma AllAcked(was: map<nat, Frame>, acknowledged: seq<nat>, calls: nat, link: seq<Answer>, index: nat)
    requires forall i {:trigger Acked(was, i, calls, link)} :: i in acknowledged ==> Acked(was, i, calls, link)
    requires Acked(was, index, calls + 1, link)
    ensures forall i {:trigger Acked(was, i, calls + 1, link)} :: i in acknowledged + [index] ==>
      Acked(was, i, calls + 1, link)
  {
    forall i | i in acknowledged + [index] ensures Acked(was, i, calls + 1, link) {
      if i != index { assert Acked(was, i, calls, link); }
    }
  }

  lemma SentLikeMore(was: map<nat, Frame>, acknowledged: seq<nat>, index: nat, f: Frame)
    requires index in was
    ensures SentLike(was, acknowledged, f) || SameFrame(was[index], f) ==> SentLike(was, acknowledged + [index], f)
  {
    var more := acknowledged + [index];
    assert more[|acknowledged|] == index;
    if SentLike(was, acknowledged, f) {
      var j :| 0 <= j < |acknowledged| && acknowledged[j] in was && SameFrame(was[acknowledged[j]], f);
      assert more[j] == acknowledged[j];
    }
  }

  lemma OneMoreDelivered(was: map<nat, Frame>, frames: map<nat, Frame>, acknowledged: seq<nat>, index: nat)
    requires Delivered(was, frames, acknowledged) && index in frames
    ensures Delivered(was, frames - {index}, acknowledged + [index])
  {
    var more := acknowledged + [index];
    forall j, k | 0 <= j < k < |more| ensures Apart(more, j, k) {
      if k < |acknowledged| { assert Apart(acknowledged, j, k); } else { assert more[j] in acknowledged; }
    }
  }

  function Elements(indices: seq<nat>): set<nat> { set i | i in indices }

  ghost predicate AllApart(indices: seq<nat>) {
    forall j, k {:trigger Apart(indices, j, k)} :: 0 <= j < k < |indices| ==> Apart(indices, j, k)
  }

  lemma {:induction false} ElementsCount(indices: seq<nat>)
    requires AllApart(indices)
    ensures |Elements(indices)| == |indices|
  {
    if indices != [] {
      var n := |indices| - 1;
      var earlier := indices[..n];
      forall j, k | 0 <= j < k < n ensures Apart(earlier, j, k) { assert Apart(indices, j, k); }
      forall j | 0 <= j < n ensures earlier[j] != indices[n] { assert Apart(indices, j, n); }
      ElementsCount(earlier);
      assert Elements(indices) == Elements(earlier) + {indices[n]};
    }
  }

  // Exactly as many frames have left as were acknowledged.
  lemma DeliveredCounts(was: map<nat, Frame>, frames: map<nat, Frame>, acknowledged: seq<nat>)
    requires Delivered(was, frames, acknowledged) && forall i :: i in acknowledged ==> i in was
    ensures |frames.Keys| + |acknowledged| == |was.Keys|
  {
    ElementsCount(acknowledged);
    assert was.Keys == frames.Keys + Elements(acknowledged);
  }

  // The runs from `first` to `last` as that many acknowledged replays leave them.
  ghost predicate TraceTo(trace: seq<map<nat, nat>>, replayed: nat, first: map<nat, nat>, last: map<nat, nat>) {
    ReplayTrace(trace) && |trace| == replayed + 1 && trace[0] == first && trace[replayed] == last
  }

  lemma LongerTrace(trace: seq<map<nat, nat>>, replayed: nat, first: map<nat, nat>, last: map<nat, nat>,
                    runs: map<nat, nat>)
    requires TraceTo(trace, replayed, first, last) && ReplayStep(last, runs)
    ensures TraceTo(trace + [runs], replayed + 1, first, runs)
  {
    var longer := trace + [runs];
    forall i | 0 <= i < |longer| - 1 ensures StepAt(longer, i) {
      if i < |trace| - 1 { assert StepAt(trace, i); }
    }
  }

  ghost predicate NoEvents(frames: map<nat, Frame>) {
    forall e :: e in frames ==> !frames[e].IsEvent()
  }

  // `fewer` is left of `frames`.
  ghost predicate LeftOf(frames: map<nat, Frame>, fewer: map<nat, Frame>) {
    forall i :: i in fewer ==> i in frames && frames[i] == fewer[i]
  }

  ghost predicate Bisected(frames: map<nat, Frame>, runs: map<nat, nat>, now: map<nat, Frame>, nowRuns: map<nat, nat>,
                           replayed: nat, trace: seq<map<nat, nat>>) {
    LeftOf(frames, now) && TraceTo(trace, replayed, runs, nowRuns)
  }

  // Of `before`, the first j frames of `order` have left.
  ghost predicate Through(before: map<nat, Frame>, frames: map<nat, Frame>, order: seq<nat>, j: nat) {
    && LeftOf(before, frames) && j <= |order|
    && (forall k :: j <= k < |order| ==> order[k] in frames)
    && (forall k :: 0 <= k < j ==> order[k] !in frames)
    && (forall k, l :: 0 <= k < l < |order| ==> order[k] < order[l])
  }

  lemma OneMoreThrough(before: map<nat, Frame>, frames: map<nat, Frame>, order: seq<nat>, j: nat)
    requires Through(before, frames, order, j) && j < |order|
    ensures Through(before, frames - {order[j]}, order, j + 1)
  {
  }

  // Once every frame of `order` is gone, an event can only be left when
  // `order` was as long as it may be.
  lemma EventsThrough(before: map<nat, Frame>, after: map<nat, Frame>, events: set<nat>, order: seq<nat>, max: nat)
    requires events == EventsOf(before) && LeftOf(before, after)
    requires forall e :: e in events && e !in order ==> |order| == max
    requires forall j :: 0 <= j < |order| ==> order[j] !in after
    ensures NoEvents(after) || |order| == max
  {
    if e :| e in after && after[e].IsEvent() { assert e in events && e !in order; }
  }

  // ---------- which frames a tick asks for, and what comes of them ----------

  // What a call for this frame comes to.
  function StatusOf(f: Frame, a: Answer): Status {
    if a.status != Sent then a.status else if a.ack == Expected(f) then Sent else Status.Failed
  }

  // The queue after these frames of it have been acknowledged, one after another.
  function Told(c: Core, indices: seq<nat>): Core {
    if indices == [] then c
    else
      var n := |indices| - 1;
      var before := Told(c, indices[..n]);
      if indices[n] in c.frames then AcknowledgeOf(before, c.frames[indices[n]]) else before
  }

  lemma ToldOneMore(c: Core, indices: seq<nat>, index: nat)
    requires index in c.frames
    ensures Told(c, indices + [index]) == AcknowledgeOf(Told(c, indices), c.frames[index])
  {
    assert (indices + [index])[..|indices|] == indices;
  }

  // The k-th call asked for a pending frame; it was acknowledged if it is one of the first n.
  ghost predicate AskedAt(was: map<nat, Frame>, asked: seq<nat>, k: nat, link: seq<Answer>, n: nat)
    requires k < |asked|
  {
    asked[k] in was && (Accepted(was[asked[k]], AnswerTo(link, k)) <==> k < n)
  }

  // Every call but perhaps the last was acknowledged.
  ghost predicate AllAsked(was: map<nat, Frame>, asked: seq<nat>, link: seq<Answer>, n: nat) {
    && n <= |asked| <= n + 1
    && forall k {:trigger AskedAt(was, asked, k, link, n)} :: 0 <= k < |asked| ==> AskedAt(was, asked, k, link, n)
  }

  lemma OneMoreAsked(was: map<nat, Frame>, asked: seq<nat>, link: seq<Answer>, index: nat)
    requires AllAsked(was, asked, link, |asked|) && index in was
    ensures AllAsked(was, asked + [index], link,
                     if Accepted(was[index], AnswerTo(link, |asked|)) then |asked| + 1 else |asked|)
  {
    var more, n := asked + [index], if Accepted(was[index], AnswerTo(link, |asked|)) then |asked| + 1 else |asked|;
    forall k | 0 <= k < |more| ensures AskedAt(was, more, k, link, n) {
      if k < |asked| { assert AskedAt(was, asked, k, link, |asked|); }
    }
  }

  lemma PrefixOneMore(before: seq<nat>, order: seq<nat>, j: nat)
    requires j < |order|
    ensures before + order[..j] + [order[j]] == before + order[..j + 1]
    ensures before <= before + order[..j] <= before + order
  {
  }

  lemma AllAccepted(was: map<nat, Frame>, asked: seq<nat>, link: seq<Answer>)
    requires AllAsked(was, asked, link, |asked|)
    ensures LastStatus(was, asked, link) == Sent
  {
    assert asked != [] ==> AskedAt(was, asked, |asked| - 1, link, |asked|);
  }

  // How the last call went.
  function LastStatus(was: map<nat, Frame>, asked: seq<nat>, link: seq<Answer>): Status {
    if asked == [] || asked[|asked| - 1] !in was then Sent
    else StatusOf(was[asked[|asked| - 1]], AnswerTo(link, |asked| - 1))
  }

  // The oldest pending events, all of them or as many as a tick takes.
  ghost predicate OldestEvents(frames: map<nat, Frame>, order: seq<nat>, max: nat) {
    && |order| <= max && (forall j :: 0 <= j < |order| ==> order[j] in frames && frames[order[j]].IsEvent())
    && (forall j, k :: 0 <= j < k < |order| ==> order[j] < order[k])
    && (forall e :: e in frames && frames[e].IsEvent() && e !in order ==>
          |order| == max && forall j :: 0 <= j < max ==> order[j] < e)
  }

  // The middle of the longest, then oldest, run of pending frames.
  ghost predicate MiddleOfLongest(pending: set<nat>, index: nat) {
    exists runs, s :: RunsOf(pending, runs) && Chosen(runs, s) && s <= runs[s] && index == Middle(runs, s)
  }

  ghost predicate PickedFrom(runs: map<nat, nat>, index: nat) {
    exists s :: Chosen(runs, s) && s <= runs[s] && index == Middle(runs, s)
  }

  lemma PickedMiddle(pending: set<nat>, runs: map<nat, nat>, index: nat)
    requires RunsOf(pending, runs) && PickedFrom(runs, index)
    ensures MiddleOfLongest(pending, index)
  {
  }

  lemma StepTaken(pending: set<nat>, runs: map<nat, nat>, pending': set<nat>, runs': map<nat, nat>, index: nat)
    requires RunsOf(pending, runs) && PickedFrom(runs, index)
    requires pending' == pending - {index} && RunsOf(pending', runs')
    ensures ReplayStep(runs, runs')
  {
    var s :| Chosen(runs, s) && s <= runs[s] && index == Middle(runs, s);
    ReplayedMiddle(pending, runs, runs', s);
  }

  ghost predicate ReplayAt(c: Core, asked: seq<nat>, from: nat, k: nat, clock: seq<real>, deadline: real)
    requires from <= k < |asked|
  {
    && k - from < |clock| && clock[k - from] < deadline
    && MiddleOfLongest(Told(c, asked[..k]).frames.Keys, asked[k])
  }

  // From call `from` on, replays only, each begun before the deadline.
  ghost predicate Replays(c: Core, asked: seq<nat>, from: nat, clock: seq<real>, deadline: real) {
    from <= |asked| && forall k {:trigger ReplayAt(c, asked, from, k, clock, deadline)} :: from <= k < |asked| ==>
      ReplayAt(c, asked, from, k, clock, deadline)
  }

  // Nothing is left to replay, or no time.
  ghost predicate ReplayOver(c: Core, replayed: nat, clock: seq<real>, deadline: real) {
    c.frames == map[] || replayed >= |clock| || clock[replayed] >= deadline
  }

  lemma ReplayAtStays(c: Core, asked: seq<nat>, index: nat, from: nat, k: nat, clock: seq<real>, deadline: real)
    requires from <= k < |asked| && ReplayAt(c, asked, from, k, clock, deadline)
    ensures ReplayAt(c, asked + [index], from, k, clock, deadline)
  {
    assert (asked + [index])[..k] == asked[..k];
  }

  lemma ReplayAtEnd(c: Core, asked: seq<nat>, index: nat, from: nat, clock: seq<real>, deadline: real)
    requires from <= |asked| && |asked| - from < |clock| && clock[|asked| - from] < deadline
    requires MiddleOfLongest(Told(c, asked).frames.Keys, index)
    ensures ReplayAt(c, asked + [index], from, |asked|, clock, deadline)
  {
    assert (asked + [index])[..|asked|] == asked;
  }

  lemma OneMoreReplay(c: Core, asked: seq<nat>, from: nat, index: nat, clock: seq<real>, deadline: real)
    requires Replays(c, asked, from, clock, deadline)
    requires |asked| - from < |clock| && clock[|asked| - from] < deadline
    requires MiddleOfLongest(Told(c, asked).frames.Keys, index)
    ensures Replays(c, asked + [index], from, clock, deadline)
  {
    forall k | from <= k < |asked + [index]| ensures ReplayAt(c, asked + [index], from, k, clock, deadline) {
      if k < |asked| {
        ReplayAtStays(c, asked, index, from, k, clock, deadline);
      } else {
        ReplayAtEnd(c, asked, index, from, clock, deadline);
      }
    }
  }

  class Drainer {
    const queue: TelemetryQueue
    const world: World
    var calls: nat          // SendFrame calls made
    var sent: nat
    var linkOk: bool
    var error: bool
    ghost var asked: seq<nat>          // indices of the frames sent, one for each call
    ghost var acknowledged: seq<nat>   // indices of those that were acknowledged

    constructor (queue: TelemetryQueue, world: World)
      ensures this.queue == queue && this.world == world
      ensures calls == 0 && sent == 0 && asked == acknowledged == [] && !linkOk && !error
    {
      this.queue, this.world := queue, world;
      calls, sent, linkOk, error, asked, acknowledged := 0, 0, false, false, [], [];
    }

    // Since the queue was `c`: one frame asked for by each call, all but perhaps the
    // last acknowledged, and the queue has been told of just these.
    ghost predicate Tally(c: Core)
      reads this, queue
    {
      && AllAsked(c.frames, asked, world.link, |acknowledged|) && acknowledged == asked[..|acknowledged|]
      && calls == |asked| && queue.State() == Told(c, acknowledged)
      && (error ==> LastStatus(c.frames, asked, world.link) in {NotConnected, Status.Failed})
    }

    // And the last call came to this: all is well, or it was not acknowledged.
    ghost predicate Stands(c: Core, status: Status)
      reads this, queue
    {
      && Tally(c)
      && if status == Sent then asked == acknowledged && !error
         else |asked| == |acknowledged| + 1 && status == LastStatus(c.frames, asked, world.link)
    }

    // The queue holds what it held at the start less what was acknowledged; and
    // exactly that where every frame could be found by its key (`tidy`).
    ghost predicate Faithful(was: map<nat, Frame>, tidy: bool)
      reads this, queue
    {
      && queue.Valid()
      && sent == |acknowledged| && linkOk == (sent > 0)
      && Explained(was, queue.frames, acknowledged, calls, world.link)
      && (tidy ==> Indexed(queue.State()) && Delivered(was, queue.frames, acknowledged))
    }

    // Sends one frame; the queue is told only when the frame's own ACK came, and
    // the frame then leaves exactly when the key index names it.
    method SendOne(ghost c: Core, ghost tidy: bool, ghost index: nat, frame: Frame) returns (status: Status)
      requires Faithful(c.frames, tidy) && Stands(c, Sent)
      requires index in c.frames && c.frames[index] == frame && (tidy ==> index in queue.frames)
      modifies this, queue
      ensures Faithful(c.frames, tidy) && calls == old(calls) + 1
      ensures Stands(c, status) && asked == old(asked) + [index]
      ensures status == StatusOf(frame, AnswerTo(world.link, old(calls)))
      ensures acknowledged == old(acknowledged) + (if status == Sent then [index] else [])
      ensures queue.State() == if status == Sent then AcknowledgeOf(old(queue.State()), frame) else old(queue.State())
      ensures status == Sent && index in old(queue.frames) ==> (index !in queue.frames <==> old(Named(queue.State(), index)))
      ensures tidy ==> queue.frames == old(queue.frames) - (if status == Sent then {index} else {})
      ensures status != Sent ==> queue.runs == old(queue.runs)
    {
      var answer := AnswerTo(world.link, calls);
      OneMoreAsked(c.frames, asked, world.link, index);
      ExplainedCall(c.frames, queue.frames, acknowledged, calls, world.link);
      if answer.status != Sent {
        calls, asked := calls + 1, asked + [index];
        return answer.status;
      }
      if answer.ack != Expected(frame) {
        calls, asked, error := calls + 1, asked + [index], true;
        return Status.Failed;
      }
      ToldOneMore(c, acknowledged, index);
      Accept(c.frames, tidy, index, frame);
      status := Sent;
    }

    method Accept(ghost was: map<nat, Frame>, ghost tidy: bool, ghost index: nat, frame: Frame)
      requires Faithful(was, tidy) && index in was && was[index] == frame && (tidy ==> index in queue.frames)
      requires Accepted(frame, AnswerTo(world.link, calls))
      modifies this, queue
      ensures Faithful(was, tidy) && calls == old(calls) + 1 && acknowledged == old(acknowledged) + [index]
      ensures asked == old(asked) + [index] && error == old(error)
      ensures queue.State() == AcknowledgeOf(old(queue.State()), frame)
      ensures index in old(queue.frames) ==> (index !in queue.frames <==> old(Named(queue.State(), index)))
      ensures tidy ==> queue.frames == old(queue.frames) - {index}
    {
      ExplainedSent(was, queue.State(), acknowledged, calls, world.link, index);
      if tidy { OneMoreDelivered(was, queue.frames, acknowledged, index); }
      Acknowledge(index, frame);
      Count(index);
    }

    method Count(ghost index: nat)
      modifies this`calls, this`linkOk, this`sent, this`asked, this`acknowledged
      ensures linkOk && sent == old(sent) + 1 && calls == old(calls) + 1
      ensures asked == old(asked) + [index] && acknowledged == old(acknowledged) + [index]
    {
      calls, linkOk, sent := calls + 1, true, sent + 1;
      asked, acknowledged := asked + [index], acknowledged + [index];
    }

    method Acknowledge(ghost index: nat, frame: Frame)
      requires queue.Valid() && (index in queue.frames ==> queue.frames[index] == frame)
      modifies queue
      ensures queue.Valid() && queue.State() == AcknowledgeOf(old(queue.State()), frame)
      ensures old(Indexed(queue.State())) ==> Indexed(queue.State())
      ensures old(Indexed(queue.State())) && index in old(queue.frames) ==> queue.frames == old(queue.frames) - {index}
      ensures index in old(queue.frames) ==> (index !in queue.frames <==> old(Named(queue.State(), index)))
    {
      if index in queue.frames { AcknowledgeShrinks(queue.State(), index); }
      queue.AcknowledgeExact(frame, world.disk);
    }

    // The frames of `order` as they were when they were listed, one by one,
    // until one is not acknowledged.
    method SendAll(ghost c: Core, ghost tidy: bool, listed: map<nat, Frame>, order: seq<nat>) returns (status: Status)
      requires Faithful(c.frames, tidy) && Stands(c, Sent)
      requires LeftOf(c.frames, listed) && forall j :: 0 <= j < |order| ==> order[j] in listed
      requires tidy ==> Through(queue.frames, queue.frames, order, 0)
      modifies this, queue
      ensures Faithful(c.frames, tidy) && Stands(c, status) && |acknowledged| >= |old(acknowledged)|
      ensures old(asked) <= asked <= old(asked) + order
      ensures status == Sent ==> asked == old(asked) + order
      ensures tidy ==> LeftOf(old(queue.frames), queue.frames)
      ensures tidy && status == Sent ==> forall j :: 0 <= j < |order| ==> order[j] !in queue.frames
    {
      for j := 0 to |order|
        invariant Faithful(c.frames, tidy) && Stands(c, Sent) && asked == old(asked) + order[..j]
        invariant tidy ==> Through(old(queue.frames), queue.frames, order, j)
      {
        PrefixOneMore(old(asked), order, j);
        status := SendNext(c, tidy, old(queue.frames), listed, order, j);
        if status != Sent { return; }
      }
      status := Sent;
    }

    method SendNext(ghost c: Core, ghost tidy: bool, ghost first: map<nat, Frame>, listed: map<nat, Frame>,
                    order: seq<nat>, j: nat) returns (status: Status)
      requires Faithful(c.frames, tidy) && Stands(c, Sent) && j < |order|
      requires LeftOf(c.frames, listed) && order[j] in listed
      requires tidy ==> Through(first, queue.frames, order, j)
      modifies this, queue
      ensures Faithful(c.frames, tidy) && Stands(c, status) && asked == old(asked) + [order[j]]
      ensures |acknowledged| == |old(acknowledged)| + if status == Sent then 1 else 0
      ensures tidy ==> LeftOf(first, queue.frames) && (status == Sent ==> Through(first, queue.frames, order, j + 1))
    {
      ghost var before := queue.frames;
      status := SendOne(c, tidy, order[j], listed[order[j]]);
      if tidy && status == Sent { OneMoreThrough(first, before, order, j); }
    }

    // One replayed frame, if the queue has one left.
    method ReplayOne(ghost c: Core, ghost tidy: bool) returns (status: Status, found: bool, ghost index: nat)
      requires Faithful(c.frames, tidy) && Stands(c, Sent)
      modifies this, queue
      ensures Faithful(c.frames, tidy) && Stands(c, status)
      ensures !found ==> queue.frames == map[] && acknowledged == old(acknowledged) && status == Sent
      ensures !found ==> asked == old(asked)
      ensures found ==> asked == old(asked) + [index] && MiddleOfLongest(old(queue.frames.Keys), index)
      ensures found && status == Sent ==> |acknowledged| == |old(acknowledged)| + 1
      ensures tidy && found && status == Sent ==>
        LeftOf(old(queue.frames), queue.frames) && ReplayStep(old(queue.runs), queue.runs)
      ensures found && status != Sent ==> acknowledged == old(acknowledged)
      ensures tidy && (!found || status != Sent) ==> queue.frames == old(queue.frames)
      ensures !found || status != Sent ==> queue.runs == old(queue.runs)
    {
      var next := queue.NextReplay();
      if next.None? { return Sent, false, 0; }
      found, index := true, next.value;
      PickedMiddle(queue.frames.Keys, queue.runs, next.value);
      status := SendPicked(c, tidy, next.value);
    }

    method SendPicked(ghost c: Core, ghost tidy: bool, index: nat) returns (status: Status)
      requires Faithful(c.frames, tidy) && Stands(c, Sent) && index in queue.frames && PickedFrom(queue.runs, index)
      modifies this, queue
      ensures Faithful(c.frames, tidy) && Stands(c, status) && asked == old(asked) + [index]
      ensures status == Sent ==> |acknowledged| == |old(acknowledged)| + 1
      ensures tidy && status == Sent ==>
        LeftOf(old(queue.frames), queue.frames) && ReplayStep(old(queue.runs), queue.runs)
      ensures status != Sent ==> acknowledged == old(acknowledged)
      ensures tidy && status != Sent ==> queue.frames == old(queue.frames)
      ensures status != Sent ==> queue.runs == old(queue.runs)
    {
      ghost var pending, runs := queue.frames.Keys, queue.runs;
      status := SendOne(c, tidy, index, queue.frames[index]);
      if tidy && status == Sent { StepTaken(pending, runs, queue.frames.Keys, queue.runs, index); }
    }

    // Replays until the deadline, an empty queue or a frame that is not
    // acknowledged. Where every frame can be found by its key each acknowledged
    // one is a step of the bisection, as the trace shows; where not, only the
    // clock is certain to end it.
    method Replay(ghost c: Core, ghost tidy: bool, deadline: real)
      returns (status: Status, replayed: nat, ghost trace: seq<map<nat, nat>>)
      requires Faithful(c.frames, tidy) && Stands(c, Sent)
      modifies this, queue
      ensures Faithful(c.frames, tidy) && Stands(c, status)
      ensures |acknowledged| == |old(acknowledged)| + replayed && replayed <= |world.clock|
      ensures old(asked) <= asked && Replays(c, asked, |old(asked)|, world.clock, deadline)
      // It stops only at a call that is not acknowledged, or when all is over.
      ensures status == Sent ==> ReplayOver(Told(c, acknowledged), replayed, world.clock, deadline)
      ensures tidy ==> LeftOf(old(queue.frames), queue.frames)
      ensures tidy ==> TraceTo(trace, replayed, old(queue.runs), queue.runs)
    {
      status, replayed := Sent, 0;
      trace := [queue.runs];
      ghost var frames, runs, before, from := queue.frames, queue.runs, |acknowledged|, |asked|;
      var more := true;
      while more && replayed < |world.clock| && world.clock[replayed] < deadline
        invariant replayed <= |world.clock| && |acknowledged| == before + replayed
        invariant Faithful(c.frames, tidy) && Stands(c, status) && (more ==> status == Sent)
        invariant Replays(c, asked, from, world.clock, deadline) && old(asked) <= asked
        invariant status == Sent && !more ==> queue.frames == map[]
        invariant tidy ==> Bisected(frames, runs, queue.frames, queue.runs, replayed, trace)
        decreases |world.clock| - replayed, more
      {
        status, more, trace := ReplayRound(c, tidy, frames, runs, replayed, trace, from, deadline);
        if more { replayed := replayed + 1; }
      }
    }

    method ReplayRound(ghost c: Core, ghost tidy: bool, ghost frames: map<nat, Frame>, ghost runs: map<nat, nat>,
                       ghost replayed: nat, ghost trace: seq<map<nat, nat>>, ghost from: nat, ghost deadline: real)
      returns (status: Status, more: bool, ghost longer: seq<map<nat, nat>>)
      requires Faithful(c.frames, tidy) && Stands(c, Sent) && Replays(c, asked, from, world.clock, deadline)
      requires |asked| == from + replayed && replayed < |world.clock| && world.clock[replayed] < deadline
      requires tidy ==> Bisected(frames, runs, queue.frames, queue.runs, replayed, trace)
      modifies this, queue
      ensures Faithful(c.frames, tidy) && Stands(c, status) && (more ==> status == Sent)
      ensures |acknowledged| == |old(acknowledged)| + if more then 1 else 0
      ensures Replays(c, asked, from, world.clock, deadline) && old(asked) <= asked
      ensures status == Sent && !more ==> queue.frames == map[]
      ensures tidy ==> Bisected(frames, runs, queue.frames, queue.runs, if more then replayed + 1 else replayed, longer)
    {
      ghost var now, nowRuns := queue.frames, queue.runs;
      status, more := ReplayInTime(c, tidy, from, deadline);
      longer := if more then trace + [queue.runs] else trace;
      if tidy && more { LongerTrace(trace, replayed, runs, nowRuns, queue.runs); }
    }

    method ReplayInTime(ghost c: Core, ghost tidy: bool, ghost from: nat, ghost deadline: real)
      returns (status: Status, more: bool)
      requires Faithful(c.frames, tidy) && Stands(c, Sent) && Replays(c, asked, from, world.clock, deadline)
      requires |asked| - from < |world.clock| && world.clock[|asked| - from] < deadline
      modifies this, queue
      ensures Faithful(c.frames, tidy) && Stands(c, status) && (more ==> status == Sent)
      ensures |acknowledged| == |old(acknowledged)| + if more then 1 else 0
      ensures Replays(c, asked, from, world.clock, deadline) && old(asked) <= asked
      ensures status == Sent && !more ==> queue.frames == map[]
      ensures tidy && more ==> LeftOf(old(queue.frames), queue.frames) && ReplayStep(old(queue.runs), queue.runs)
      ensures tidy && !more ==> queue.frames == old(queue.frames) && queue.runs == old(queue.runs)
    {
      ghost var earlier := asked;
      var found: bool;
      ghost var index: nat;
      status, found, index := ReplayOne(c, tidy);
      more := found && status == Sent;
      if found { OneMoreReplay(c, earlier, from, index, world.clock, deadline); }
    }

    // One tick: nothing is replayed before this tick's frame and the oldest
    // pending events are through.
    method Drain(liveIndex: Option<nat>, replayDeadline: real, connected: bool)
      returns (result: Result, ghost events: seq<nat>)
      requires queue.Valid()
      requires calls == 0 && sent == 0 && asked == acknowledged == [] && !linkOk && !error
      modifies this, queue
      ensures queue.Valid() && result.sent == sent == |acknowledged|
      ensures Explained(old(queue.frames), queue.frames, acknowledged, calls, world.link)
      // Exactly which frames it asked for, how far it got and what it reports.
      ensures Tally(old(queue.State()))
      ensures InTurn(old(queue.State()), LiveFrame(old(queue.frames), liveIndex), events, replayDeadline)
      ensures InFull(old(queue.State()), LiveFrame(old(queue.frames), liveIndex), events, replayDeadline)
           || |asked| == |acknowledged| + 1
      ensures result == Report(LastStatus(old(queue.frames), asked, world.link), connected, |acknowledged|,
                               |LiveFrame(old(queue.frames), liveIndex) + events|)
      // Where every frame can be found by its key:
      ensures old(Indexed(queue.State())) ==>
        && Indexed(queue.State()) && Delivered(old(queue.frames), queue.frames, acknowledged)
        && (result.replayed > 0 && liveIndex.Some? ==> liveIndex.value !in queue.frames)
        && (result.replayed > 0 ==>
              NoEvents(queue.frames) || |acknowledged| >= MAX_EVENTS_PER_TICK + result.replayed)
    {
      ghost var c, tidy := queue.State(), Indexed(queue.State());
      var status, replayed;
      status, replayed, events := SendInTurn(c, tidy, liveIndex, replayDeadline);
      Settle(status, connected);
      result := Result(linkOk, error, sent, replayed);
    }

    static function LiveFrame(frames: map<nat, Frame>, liveIndex: Option<nat>): seq<nat> {
      if liveIndex.Some? && liveIndex.value in frames then [liveIndex.value] else []
    }

    // This tick's frame first, then the oldest events then pending, then replays.
    ghost predicate InTurn(c: Core, live: seq<nat>, events: seq<nat>, deadline: real)
      reads this
    {
      && (asked <= live + events || (live + events <= asked && Replays(c, asked, |live + events|, world.clock, deadline)))
      && (live <= acknowledged ==> OldestEvents(Told(c, live).frames, events, MAX_EVENTS_PER_TICK))
    }

    // Every call was acknowledged, and the tick had nothing more to send, or no time.
    ghost predicate InFull(c: Core, live: seq<nat>, events: seq<nat>, deadline: real)
      reads this
    {
      && asked == acknowledged && live + events <= asked
      && ReplayOver(Told(c, acknowledged), |asked| - |live + events|, world.clock, deadline)
    }

    // `sure` frames come before the replays.
    static function Report(last: Status, connected: bool, sent: nat, sure: nat): Result {
      Result(sent > 0 || (last in {Status.Sent, Status.NoBudget} && connected),
             last in {Status.NotConnected, Status.Failed}, sent, if sent > sure then sent - sure else 0)
    }

    method SendInTurn(ghost c: Core, ghost tidy: bool, liveIndex: Option<nat>, replayDeadline: real)
      returns (status: Status, replayed: nat, ghost events: seq<nat>)
      requires Faithful(c.frames, tidy) && Stands(c, Sent) && c == queue.State() && asked == []
      modifies this, queue
      ensures Faithful(c.frames, tidy) && Stands(c, status)
      ensures InTurn(c, LiveFrame(c.frames, liveIndex), events, replayDeadline)
      ensures status == Sent ==> InFull(c, LiveFrame(c.frames, liveIndex), events, replayDeadline)
      ensures status == LastStatus(c.frames, asked, world.link)
      ensures replayed == Report(status, false, |acknowledged|, |LiveFrame(c.frames, liveIndex) + events|).replayed
      ensures tidy && replayed > 0 && liveIndex.Some? ==> liveIndex.value !in queue.frames
      ensures tidy && replayed > 0 ==>
        NoEvents(queue.frames) || |acknowledged| >= |old(acknowledged)| + MAX_EVENTS_PER_TICK + replayed
    {
      replayed, events := 0, [];
      ghost var live := LiveFrame(c.frames, liveIndex);
      status := SendLive(c, tidy, liveIndex);
      if status != Sent { return; }
      status, replayed, events := SendRest(c, tidy, live, replayDeadline);
    }

    // What follows the live frame.
    method SendRest(ghost c: Core, ghost tidy: bool, ghost live: seq<nat>, replayDeadline: real)
      returns (status: Status, replayed: nat, ghost events: seq<nat>)
      requires Faithful(c.frames, tidy) && Stands(c, Sent) && asked == live
      modifies this, queue
      ensures Faithful(c.frames, tidy) && Stands(c, status)
      ensures InTurn(c, live, events, replayDeadline)
      ensures status == Sent ==> InFull(c, live, events, replayDeadline)
      ensures status == LastStatus(c.frames, asked, world.link)
      ensures replayed == Report(status, false, |acknowledged|, |live + events|).replayed
      ensures tidy ==> LeftOf(old(queue.frames), queue.frames)
      ensures tidy && replayed > 0 ==>
        NoEvents(queue.frames) || |acknowledged| >= |old(acknowledged)| + MAX_EVENTS_PER_TICK + replayed
    {
      replayed := 0;
      status, events := SendEvents(c, tidy);
      if status != Sent { return; }
      ghost var trace;
      status, replayed, trace := Replay(c, tidy, replayDeadline);
      if status == Sent { AllAccepted(c.frames, asked, world.link); }
    }

    // An idle tick says of the link only whether it is connected.
    method Settle(status: Status, connected: bool)
      modifies this`linkOk, this`error
      ensures linkOk == if status == NoBudget then old(linkOk) || connected
                        else if status == Sent && sent == 0 then connected
                        else old(linkOk)
      ensures error == (old(error) || status == NotConnected || status == Status.Failed)
    {
      if status == NoBudget { linkOk := linkOk || connected; }
      if status == NotConnected || status == Status.Failed { error := true; }
      if status == Sent && sent == 0 { linkOk := connected; }
    }

    method SendLive(ghost c: Core, ghost tidy: bool, liveIndex: Option<nat>) returns (status: Status)
      requires Faithful(c.frames, tidy) && Stands(c, Sent) && c == queue.State() && asked == []
      modifies this, queue
      ensures Faithful(c.frames, tidy) && Stands(c, status)
      ensures asked == LiveFrame(c.frames, liveIndex)
      ensures tidy && status == Sent && liveIndex.Some? ==> liveIndex.value !in queue.frames
      ensures |acknowledged| >= |old(acknowledged)|
    {
      status := Sent;
      if liveIndex.Some? && liveIndex.value in queue.frames {
        status := SendOne(c, tidy, liveIndex.value, queue.frames[liveIndex.value]);
      }
    }

    // The oldest pending events: all of them, or as many as a tick takes.
    method SendEvents(ghost c: Core, ghost tidy: bool) returns (status: Status, ghost events: seq<nat>)
      requires Faithful(c.frames, tidy) && Stands(c, Sent)
      modifies this, queue
      ensures Faithful(c.frames, tidy) && Stands(c, status) && |acknowledged| >= |old(acknowledged)|
      ensures OldestEvents(old(queue.frames), events, MAX_EVENTS_PER_TICK)
      ensures old(asked) <= asked <= old(asked) + events
      ensures status == Sent ==> asked == old(asked) + events
      ensures tidy ==> LeftOf(old(queue.frames), queue.frames)
      ensures tidy && status == Sent ==>
        NoEvents(queue.frames) || |acknowledged| == |old(acknowledged)| + MAX_EVENTS_PER_TICK
    {
      var listed := queue.frames;
      ghost var all := queue.events;
      var order := queue.PendingEvents(MAX_EVENTS_PER_TICK);
      events := order;
      status := SendAll(c, tidy, listed, order);
      if tidy && status == Sent { EventsThrough(listed, queue.frames, all, order, MAX_EVENTS_PER_TICK); }
    }
  }
}
