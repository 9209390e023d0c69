// The durable retransmission queue: pending frames by arrival index, the
// indexes kept beside them, and the file they survive a restart in.
module TelemetryQueues {
  import opened QueueDisks
  import opened QueueFile
  import opened QueueRuns
  import opened Subsequence
  import opened Text
  import opened Wrappers

  type Key = (string, nat)

  function KeyOf(f: Frame): Key { (f.session, f.number) }

  const LENGTH_KEY_BASE: int := 0xFFFF_FFFF_FFFF_FFFF

  // ---------- what the operations do to the frames ----------

  datatype Core = Core(frames: map<nat, Frame>, byKey: map<Key, nat>, next: nat)

  function InsertOf(c: Core, f: Frame): Core {
    Core(c.frames[c.next := f], c.byKey[KeyOf(f) := c.next], c.next + 1)
  }

  function RemoveOf(c: Core, index: nat): Core {
    if index !in c.frames then c
    else
      var key := KeyOf(c.frames[index]);
      c.(frames := c.frames - {index},
         byKey := if key in c.byKey && c.byKey[key] == index then c.byKey - {key} else c.byKey)
  }

  // Exactly this frame: same session, number and text.
  function AcknowledgeOf(c: Core, f: Frame): Core {
    if KeyOf(f) !in c.byKey then c
    else
      var index := c.byKey[KeyOf(f)];
      if index !in c.frames || c.frames[index].text != f.text then c else RemoveOf(c, index)
  }

  ghost predicate CoreOk(c: Core) {
    && (forall i :: i in c.frames ==> i < c.next)
    && (forall k :: k in c.byKey ==> c.byKey[k] in c.frames && KeyOf(c.frames[c.byKey[k]]) == k)
  }

  // Every pending frame can be found by its key.
  ghost predicate Indexed(c: Core) {
    forall i :: i in c.frames ==> KeyOf(c.frames[i]) in c.byKey && c.byKey[KeyOf(c.frames[i])] == i
  }

  ghost predicate KeyPending(c: Core, key: Key) {
    exists i :: i in c.frames && KeyOf(c.frames[i]) == key
  }

  // An acknowledged frame leaves the queue exactly when the key index names it.
  lemma AcknowledgeShrinks(c: Core, i: nat)
    requires CoreOk(c) && i in c.frames
    ensures i !in AcknowledgeOf(c, c.frames[i]).frames <==> Named(c, i)
    ensures Indexed(c) ==> AcknowledgeOf(c, c.frames[i]) == RemoveOf(c, i)
  {
  }

  lemma InsertKeepsIndexed(c: Core, f: Frame)
    requires CoreOk(c)
    ensures CoreOk(InsertOf(c, f))
    ensures Indexed(InsertOf(c, f)) <==> Indexed(c) && !KeyPending(c, KeyOf(f))
  {
    var c' := InsertOf(c, f);
    if Indexed(c') {
      forall i | i in c.frames
        ensures KeyOf(c.frames[i]) != KeyOf(f) && KeyOf(c.frames[i]) in c.byKey && c.byKey[KeyOf(c.frames[i])] == i
      {
        assert i in c'.frames && c'.frames[i] == c.frames[i];
      }
    }
  }

  lemma RemoveKeepsIndexed(c: Core, index: nat)
    requires CoreOk(c)
    ensures CoreOk(RemoveOf(c, index))
    ensures Indexed(c) ==> Indexed(RemoveOf(c, index))
  {
  }

  // The keys that still name a frame.
  function KeptKeys(byKey: map<Key, nat>, frames: map<nat, Frame>): map<Key, nat> {
    map k | k in byKey && byKey[k] in frames :: byKey[k]
  }

  // Removals leave the key index to the frames that are left, in whatever order.
  lemma RemoveKeepsKeys(c: Core, index: nat)
    requires CoreOk(c)
    ensures RemoveOf(c, index).byKey == KeptKeys(c.byKey, RemoveOf(c, index).frames)
  {
  }

  lemma KeptTwice(byKey: map<Key, nat>, more: map<nat, Frame>, fewer: map<nat, Frame>)
    requires fewer.Keys <= more.Keys
    ensures KeptKeys(KeptKeys(byKey, more), fewer) == KeptKeys(byKey, fewer)
  {
  }

  lemma AllKept(c: Core)
    requires CoreOk(c)
    ensures KeptKeys(c.byKey, c.frames) == c.byKey
  {
  }

  predicate Covers(f: Frame, session: string, number: nat) { f.session == session && f.number <= number }

  // Without the frames below n that an acknowledgement up to `number` covers.
  function Uncovered(frames: map<nat, Frame>, session: string, number: nat, n: nat): map<nat, Frame> {
    map i | i in frames && !(i < n && Covers(frames[i], session, number)) :: frames[i]
  }

  lemma UncoveredOneMore(frames: map<nat, Frame>, session: string, number: nat, i: nat)
    ensures Uncovered(frames, session, number, i + 1)
         == if i in frames && Covers(frames[i], session, number) then Uncovered(frames, session, number, i) - {i}
            else Uncovered(frames, session, number, i)
    ensures i in frames && Covers(frames[i], session, number) ==> Uncovered(frames, session, number, i + 1) != frames
  {
  }

  // One frame after another into an empty queue.
  function LoadOf(fs: seq<Frame>): Core {
    if fs == [] then Core(map[], map[], 0) else InsertOf(LoadOf(fs[..|fs| - 1]), fs[|fs| - 1])
  }

  // The key index names this frame.
  predicate Named(c: Core, i: nat)
    requires i in c.frames
  {
    KeyOf(c.frames[i]) in c.byKey && c.byKey[KeyOf(c.frames[i])] == i
  }

  // Of two pending frames with one key, one is not named.
  lemma OneOfTwoUnnamed(c: Core, i: nat, j: nat)
    requires i in c.frames && j in c.frames && i != j && KeyOf(c.frames[i]) == KeyOf(c.frames[j])
    ensures !Named(c, i) || !Named(c, j)
  {
  }

  // What happens to the frames and the key index: a frame acknowledged, put in,
  // or taken out for another reason.
  datatype CoreStep = Acknowledged(f: Frame) | Inserted(f: Frame) | Removed(index: nat)

  function CoreRun(c: Core, steps: seq<CoreStep>): Core {
    if steps == [] then c
    else
      var before := CoreRun(c, steps[..|steps| - 1]);
      match steps[|steps| - 1]
      case Acknowledged(f) => AcknowledgeOf(before, f)
      case Inserted(f) => InsertOf(before, f)
      case Removed(index) => RemoveOf(before, index)
  }

  // A frame that is not named can never be acknowledged: it stays, unnamed, over
  // every run of acknowledgements, insertions and removals of other frames.
  lemma {:induction false} DuplicateSticks(c: Core, i: nat, steps: seq<CoreStep>)
    requires CoreOk(c) && i in c.frames && !Named(c, i) && Removed(i) !in steps
    ensures var d := CoreRun(c, steps); CoreOk(d) && i in d.frames && d.frames[i] == c.frames[i] && !Named(d, i)
  {
    if steps != [] { DuplicateSticks(c, i, steps[..|steps| - 1]); }
  }

  // ---------- order and size ----------

  // The frames with an index below n, oldest first.
  function Pending(frames: map<nat, Frame>, n: nat): seq<Frame> {
    if n == 0 then []
    else
      var before := Pending(frames, n - 1);
      if n - 1 in frames then before + [frames[n - 1]] else before
  }

  function BytesBelow(frames: map<nat, Frame>, n: nat): nat {
    if n == 0 then 0
    else BytesBelow(frames, n - 1) + (if n - 1 in frames then LineBytes(frames[n - 1]) else 0)
  }

  lemma {:induction false} BytesWithout(frames: map<nat, Frame>, index: nat, n: nat)
    requires index in frames
    ensures BytesBelow(frames, n)
         == BytesBelow(frames - {index}, n) + (if index < n then LineBytes(frames[index]) else 0)
  {
    if n > 0 { BytesWithout(frames, index, n - 1); }
  }

  ghost function EventsOf(frames: map<nat, Frame>): set<nat> {
    set i | i in frames && frames[i].IsEvent()
  }

  lemma IndexAfterInsert(c: Core, f: Frame)
    requires CoreOk(c)
    ensures InsertOf(c, f).frames.Keys == c.frames.Keys + {c.next}
    ensures EventsOf(InsertOf(c, f).frames) == EventsOf(c.frames) + (if f.IsEvent() then {c.next} else {})
    ensures BytesBelow(InsertOf(c, f).frames, c.next + 1) == BytesBelow(c.frames, c.next) + LineBytes(f)
    ensures Pending(InsertOf(c, f).frames, c.next + 1) == Pending(c.frames, c.next) + [f]
  {
    BelowIgnoresNewer(c.frames, c.next, f, c.next);
  }

  lemma IndexAfterRemove(c: Core, index: nat)
    requires CoreOk(c) && index in c.frames
    ensures RemoveOf(c, index).frames.Keys == c.frames.Keys - {index}
    ensures EventsOf(RemoveOf(c, index).frames) == EventsOf(c.frames) - {index}
    ensures BytesBelow(c.frames, c.next) == BytesBelow(RemoveOf(c, index).frames, c.next) + LineBytes(c.frames[index])
    ensures Sub(Pending(RemoveOf(c, index).frames, c.next), Pending(c.frames, c.next))
  {
    BytesWithout(c.frames, index, c.next);
    FewerPending(c.frames, c.frames - {index}, c.next);
  }

  lemma {:induction false} BelowIgnoresNewer(frames: map<nat, Frame>, index: nat, f: Frame, n: nat)
    requires n <= index
    ensures BytesBelow(frames[index := f], n) == BytesBelow(frames, n)
    ensures Pending(frames[index := f], n) == Pending(frames, n)
  {
    if n > 0 { BelowIgnoresNewer(frames, index, f, n - 1); }
  }

  lemma {:induction false} FewerPending(frames: map<nat, Frame>, fewer: map<nat, Frame>, n: nat)
    requires forall i :: i in fewer ==> i in frames && frames[i] == fewer[i]
    ensures Sub(Pending(fewer, n), Pending(frames, n))
  {
    if n > 0 {
      FewerPending(frames, fewer, n - 1);
      if n - 1 in frames {
        SubAppend(Pending(fewer, n - 1), Pending(frames, n - 1), frames[n - 1]);
      }
    }
  }

  lemma {:induction false} SubOfLines(a: seq<Frame>, b: seq<Frame>)
    requires Sub(a, b)
    ensures Sub(Lines(a), Lines(b))
  {
    if a != [] {
      assert Init(Lines(b)) == Lines(Init(b));
      if Sub(a, Init(b)) {
        SubOfLines(a, Init(b));
      } else {
        assert Init(Lines(a)) == Lines(Init(a));
        SubOfLines(Init(a), Init(b));
      }
    }
  }

  lemma Oldest(keys: set<nat>) returns (first: nat)
    requires keys != {}
    ensures first in keys && forall k :: k in keys ==> first <= k
  {
    var one :| one in keys;
    var rest := keys - {one};
    assert keys == rest + {one};
    first := one;
    if rest != {} {
      var other := Oldest(rest);
      if other < one { first := other; }
    }
  }

  lemma Newest(keys: set<nat>) returns (last: nat)
    requires keys != {}
    ensures last in keys && forall k :: k in keys ==> k <= last
  {
    var one :| one in keys;
    var rest := keys - {one};
    assert keys == rest + {one};
    last := one;
    if rest != {} {
      var other := Newest(rest);
      if other > one { last := other; }
    }
  }

  lemma {:induction false} PendingAreFrames(frames: map<nat, Frame>, n: nat)
    ensures forall f :: f in Pending(frames, n) ==> exists i :: i in frames && frames[i] == f
  {
    if n > 0 { PendingAreFrames(frames, n - 1); }
  }

  lemma {:induction false} FramesArePending(frames: map<nat, Frame>, n: nat)
    ensures forall i :: i in frames && i < n ==> frames[i] in Pending(frames, n)
  {
    if n > 0 { FramesArePending(frames, n - 1); }
  }

  lemma LinesOneMore(fs: seq<Frame>, f: Frame)
    ensures Lines(fs + [f]) == Lines(fs) + [FormatLine(f)]
    ensures Join(Lines(fs + [f])) == Join(Lines(fs)) + FormatLine(f) + "\n"
  {
    JoinOneMore(Lines(fs), FormatLine(f));
  }

  // The frames from index `cut` on.
  function From(frames: map<nat, Frame>, cut: nat): map<nat, Frame> {
    map i | i in frames && cut <= i :: frames[i]
  }

  // The first frame from index i on that is not stale, n if there is none.
  function StaleCut(frames: map<nat, Frame>, n: nat, i: nat, now: int, retention: int): (c: nat)
    requires i <= n
    ensures i <= c <= n && (c < n ==> c in frames && !Stale(frames[c], now, retention))
    ensures forall j :: i <= j < c && j in frames ==> Stale(frames[j], now, retention)
    decreases n - i
  {
    if i == n || (i in frames && !Stale(frames[i], now, retention)) then i
    else StaleCut(frames, n, i + 1, now, retention)
  }

  function BytesFrom(frames: map<nat, Frame>, n: nat, i: nat): nat { BytesBelow(From(frames, i), n) }

  // The first index from i on from which the frames fit the size.
  function SizeCut(frames: map<nat, Frame>, n: nat, i: nat, maxBytes: nat): (c: nat)
    requires i <= n
    ensures i <= c <= n && (c < n ==> BytesFrom(frames, n, c) <= maxBytes)
    ensures forall j :: i <= j < c ==> BytesFrom(frames, n, j) > maxBytes
    decreases n - i
  {
    if i == n || BytesFrom(frames, n, i) <= maxBytes then i else SizeCut(frames, n, i + 1, maxBytes)
  }

  // Where pruning cuts a queue off: past the stale frames at its head, or further
  // where the rest does not fit the size.
  function PruneCut(frames: map<nat, Frame>, n: nat, now: int, retention: int, maxBytes: nat): nat {
    var live := StaleCut(frames, n, 0, now, retention);
    if maxBytes == 0 then live else Later(live, SizeCut(frames, n, 0, maxBytes))
  }

  function Later(a: nat, b: nat): nat { if a < b then b else a }

  function PruneOf(frames: map<nat, Frame>, n: nat, now: int, retention: int, maxBytes: nat): map<nat, Frame> {
    From(frames, PruneCut(frames, n, now, retention, maxBytes))
  }

  ghost predicate Below(frames: map<nat, Frame>, n: nat) { forall i :: i in frames ==> i < n }

  lemma {:induction false} BytesShrink(frames: map<nat, Frame>, n: nat, j: nat, k: nat)
    requires j <= k
    ensures BytesFrom(frames, n, k) <= BytesFrom(frames, n, j)
  {
    if n > 0 { BytesShrink(frames, n - 1, j, k); }
  }

  lemma {:induction false} NoBytesFrom(frames: map<nat, Frame>, n: nat, cut: nat)
    requires n <= cut
    ensures BytesFrom(frames, n, cut) == 0
  {
    if n > 0 { NoBytesFrom(frames, n - 1, cut); }
  }

  // Two cuts with nothing pending between them.
  lemma SameFrom(frames: map<nat, Frame>, a: nat, b: nat)
    requires forall i :: i in frames ==> (a <= i <==> b <= i)
    ensures From(frames, a) == From(frames, b)
  {
  }

  lemma FromTwice(frames: map<nat, Frame>, a: nat, b: nat)
    ensures From(From(frames, a), b) == From(frames, Later(a, b))
  {
  }

  // Dropping the oldest frame while it is stale ends at the first fresh one.
  lemma StaleCutReached(was: map<nat, Frame>, n: nat, cut: nat, now: int, retention: int)
    requires Below(was, n) && forall j :: j in was && j < cut ==> Stale(was[j], now, retention)
    requires HeadFresh(From(was, cut), now, retention)
    ensures From(was, cut) == From(was, StaleCut(was, n, 0, now, retention))
  {
    var c := StaleCut(was, n, 0, now, retention);
    var kept := From(was, cut);
    if kept != map[] {
      var first := Oldest(kept.Keys);
      assert first in kept && !Stale(kept[first], now, retention);
    }
    forall i | i in was ensures cut <= i <==> c <= i {
      assert cut <= i ==> i in kept;
    }
    SameFrom(was, cut, c);
  }

  lemma StaleCutMoves(was: map<nat, Frame>, cut: nat, first: nat, now: int, retention: int)
    requires first in From(was, cut) && (forall i :: i in From(was, cut) ==> first <= i)
    requires Stale(was[first], now, retention) && forall j :: j in was && j < cut ==> Stale(was[j], now, retention)
    ensures From(From(was, cut), first + 1) == From(was, first + 1)
    ensures forall j :: j in was && j < first + 1 ==> Stale(was[j], now, retention)
  {
    forall j | j in was && j < first + 1 ensures Stale(was[j], now, retention) {
      assert cut <= j ==> j in From(was, cut);
    }
  }

  // Dropping the oldest frame while the queue is over its size ends where the rest fits.
  lemma SizeCutReached(was: map<nat, Frame>, n: nat, cut: nat, maxBytes: nat)
    requires cut <= n && BytesFrom(was, n, cut) <= maxBytes
    requires forall j :: 0 <= j < cut ==> BytesFrom(was, n, j) > maxBytes
    ensures SizeCut(was, n, 0, maxBytes) == cut
  {
  }

  // One more frame off a queue that is over its size.
  lemma OverSize(was: map<nat, Frame>, n: nat, cut: nat, first: nat, maxBytes: nat) returns (more: nat)
    requires Below(was, n) && first in From(was, cut) && (forall i :: i in From(was, cut) ==> first <= i)
    requires BytesFrom(was, n, cut) > maxBytes && forall j :: 0 <= j < cut ==> BytesFrom(was, n, j) > maxBytes
    ensures more == first + 1 <= n && From(From(was, cut), first + 1) == From(was, more)
    ensures forall j :: 0 <= j < more ==> BytesFrom(was, n, j) > maxBytes
  {
    more := first + 1;
    FromTwice(was, cut, first + 1);
    forall j | cut <= j < more ensures BytesFrom(was, n, j) > maxBytes {
      forall i | i in was ensures cut <= i <==> j <= i {
        assert cut <= i ==> i in From(was, cut);
      }
      SameFrom(was, cut, j);
    }
  }

  // Cutting for size what was cut for age is cutting at the later place.
  lemma CutTwice(was: map<nat, Frame>, n: nat, live: nat, maxBytes: nat)
    requires live <= n
    ensures From(From(was, live), SizeCut(From(was, live), n, 0, maxBytes))
         == From(was, Later(live, SizeCut(was, n, 0, maxBytes)))
  {
    var mid, c := From(was, live), SizeCut(was, n, 0, maxBytes);
    var d := if c <= live then 0 else c;
    forall j | 0 <= j <= n ensures BytesFrom(mid, n, j) == BytesFrom(was, n, Later(live, j)) {
      FromTwice(was, live, j);
    }
    NoBytesFrom(was, n, n);
    if c <= live { BytesShrink(was, n, c, live); }
    SizeCutReached(mid, n, d, maxBytes);
    FromTwice(was, live, d);
  }

  // Each frame pruned is stale, or too much together with the newer ones; and
  // what is left fits.
  lemma PrunedForCause(was: map<nat, Frame>, n: nat, now: int, retention: int, maxBytes: nat)
    ensures forall i :: i in was && i !in PruneOf(was, n, now, retention, maxBytes) ==>
      Stale(was[i], now, retention) || (maxBytes > 0 && BytesFrom(was, n, i) > maxBytes)
    ensures maxBytes > 0 ==> BytesBelow(PruneOf(was, n, now, retention, maxBytes), n) <= maxBytes
  {
    var c := PruneCut(was, n, now, retention, maxBytes);
    if maxBytes > 0 {
      NoBytesFrom(was, n, n);
      BytesShrink(was, n, SizeCut(was, n, 0, maxBytes), c);
    }
  }

  // The head of a pruned queue is stale exactly when the size cuts it later than
  // its age does, at a stale frame.
  lemma StaleHeadStays(was: map<nat, Frame>, n: nat, now: int, retention: int, maxBytes: nat)
    requires Below(was, n)
    ensures HeadFresh(PruneOf(was, n, now, retention, maxBytes), now, retention)
       <==> maxBytes == 0 || SizeCut(was, n, 0, maxBytes) <= StaleCut(was, n, 0, now, retention)
            || HeadFresh(From(was, SizeCut(was, n, 0, maxBytes)), now, retention)
  {
    var live := StaleCut(was, n, 0, now, retention);
    assert live < n ==> live in From(was, live);
    assert HeadFresh(From(was, live), now, retention);
  }

  // It happens: of a fresh frame and a stale one behind it, with room for the
  // second only, the stale one stays.
  lemma StaleFrameLeft(f: Frame, g: Frame, now: int, retention: int)
    requires !Stale(f, now, retention) && Stale(g, now, retention)
    ensures PruneOf(map[0 := f, 1 := g], 2, now, retention, LineBytes(g)) == map[1 := g]
    ensures !HeadFresh(map[1 := g], now, retention)
  {
    var was := map[0 := f, 1 := g];
    assert From(was, 0) == was && From(was, 1) == map[1 := g];
    assert BytesBelow(was, 1) == LineBytes(f);
    assert BytesBelow(map[1 := g], 1) == 0;
    SizeCutReached(was, 2, 1, LineBytes(g));
  }

  ghost predicate HeadFresh(frames: map<nat, Frame>, now: int, retention: int) {
    forall i :: i in frames && (forall j :: j in frames ==> i <= j) ==> !Stale(frames[i], now, retention)
  }

  // ---------- the index of runs by length ----------

  function LengthKey(start: nat, end: nat): (int, nat) { (LENGTH_KEY_BASE - (end - start + 1), start) }

  ghost function ByLength(runs: map<nat, nat>): set<(int, nat)> {
    set s | s in runs :: LengthKey(s, runs[s])
  }

  lemma InByLength(runs: map<nat, nat>, key: (int, nat))
    ensures key in ByLength(runs) <==> key.1 in runs && key == LengthKey(key.1, runs[key.1])
  {
  }

  lemma NoKeysNoRuns(runs: map<nat, nat>)
    ensures ByLength(runs) == {} ==> runs == map[]
  {
    forall s | s in runs ensures LengthKey(s, runs[s]) in ByLength(runs) {
      InByLength(runs, LengthKey(s, runs[s]));
    }
  }

  lemma ByLengthAdd(runs: map<nat, nat>, start: nat, end: nat)
    requires start !in runs
    ensures ByLength(runs[start := end]) == ByLength(runs) + {LengthKey(start, end)}
  {
    forall key
      ensures key in ByLength(runs[start := end]) <==> key in ByLength(runs) + {LengthKey(start, end)}
    {
      InByLength(runs, key);
      InByLength(runs[start := end], key);
    }
  }

  lemma ByLengthErase(runs: map<nat, nat>, start: nat)
    requires start in runs
    ensures ByLength(runs - {start}) == ByLength(runs) - {LengthKey(start, runs[start])}
  {
    forall key
      ensures key in ByLength(runs - {start}) <==> key in ByLength(runs) - {LengthKey(start, runs[start])}
    {
      InByLength(runs, key);
      InByLength(runs - {start}, key);
    }
  }

  predicate KeyBefore(a: (int, nat), b: (int, nat)) { a.0 < b.0 || (a.0 == b.0 && a.1 <= b.1) }

  // The least key is the longest run, the oldest of those.
  lemma LeastKeyIsChosen(runs: map<nat, nat>, key: (int, nat))
    requires key in ByLength(runs) && forall k :: k in ByLength(runs) ==> KeyBefore(key, k)
    ensures Chosen(runs, key.1)
  {
    forall t | t in runs
      ensures Length(runs, t) < Length(runs, key.1)
           || (Length(runs, t) == Length(runs, key.1) && key.1 <= t)
    {
      assert LengthKey(t, runs[t]) in ByLength(runs);
    }
  }

  lemma {:induction false} LeastKey(keys: set<(int, nat)>) returns (least: (int, nat))
    requires keys != {}
    ensures least in keys && forall k :: k in keys ==> KeyBefore(least, k)
    decreases |keys|
  {
    var one :| one in keys;
    var rest := keys - {one};
    assert keys == rest + {one};
    least := one;
    if rest != {} {
      var other := LeastKey(rest);
      if KeyBefore(other, one) { least := other; }
    }
  }

  lemma NoRunAt(pending: set<nat>, runs: map<nat, nat>, index: nat)
    requires RunsOf(pending, runs) && index !in pending
    ensures index !in runs
  {
  }

  lemma NothingPending(pending: set<nat>, runs: map<nat, nat>)
    requires RunsOf(pending, runs) && runs == map[]
    ensures pending == {}
  {
    assert forall i {:trigger Covered(runs, i)} :: !Covered(runs, i) && (i in pending ==> Covered(runs, i));
    assert forall i :: i in pending ==> !Covered(runs, i);
  }

  lemma NoRunInside(pending: set<nat>, runs: map<nat, nat>, start: nat, s: nat)
    requires RunsOf(pending, runs) && start in runs && start < s <= runs[start]  + 1
    ensures s !in runs
  {
    if s in runs { RunsApart(pending, runs, start, s); }
  }

  class TelemetryQueue {
    const retention: int
    const maxBytes: nat
    const limits: Limits

    var frames: map<nat, Frame>
    var byKey: map<Key, nat>
    var events: set<nat>
    var runs: map<nat, nat>
    var runsByLength: set<(int, nat)>
    var next: nat
    var liveBytes: nat
    var deadBytes: nat
    var persistence: bool
    var file: Option<string>

    ghost function State(): Core
      reads this
    {
      Core(frames, byKey, next)
    }

    // Every index agrees with the frames.
    ghost predicate Valid()
      reads this
    {
      && CoreOk(State())
      && RunsOf(frames.Keys, runs)
      && runsByLength == ByLength(runs)
      && events == EventsOf(frames)
      && liveBytes == BytesBelow(frames, next)
    }

    ghost function OnDisk(): Disk
      reads this
    {
      Disk(persistence, file, deadBytes)
    }

    // The lines of the pending frames, oldest first.
    ghost function PendingLines(): seq<string>
      reads this
    {
      Lines(Pending(frames, next))
    }

    ghost predicate AllKeepable()
      reads this
    {
      forall i :: i in frames ==> Keepable(frames[i])
    }

    // While persistence is on, the pending frames stand in the file in order.
    ghost predicate Persisted()
      reads this
    {
      AllKeepable() && Durable(OnDisk(), PendingLines())
    }

    // ---------- runs ----------

    method AddRun(start: nat, end: nat)
      requires start !in runs && runsByLength == ByLength(runs)
      modifies this`runs, this`runsByLength
      ensures runs == old(runs)[start := end] && runsByLength == ByLength(runs)
    {
      ByLengthAdd(runs, start, end);
      runs := runs[start := end];
      runsByLength := runsByLength + {LengthKey(start, end)};
    }

    method EraseRun(start: nat)
      requires start in runs && runsByLength == ByLength(runs)
      modifies this`runs, this`runsByLength
      ensures runs == old(runs) - {start} && runsByLength == ByLength(runs)
    {
      ByLengthErase(runs, start);
      runsByLength := runsByLength - {LengthKey(start, runs[start])};
      runs := runs - {start};
    }

    // ---------- insertion and removal ----------

    method Insert(f: Frame)
      requires Valid()
      modifies this
      ensures Valid() && State() == InsertOf(old(State()), f)
      ensures liveBytes == old(liveBytes) + LineBytes(f) && OnDisk() == old(OnDisk())
    {
      ghost var pending := frames.Keys;
      IndexAfterInsert(State(), f);
      var index := Remember(f);
      GrowRuns(pending, index);
    }

    method Remember(f: Frame) returns (index: nat)
      requires CoreOk(State()) && events == EventsOf(frames)
      modifies this`next, this`byKey, this`events, this`frames, this`liveBytes
      ensures index == old(next) && State() == InsertOf(old(State()), f)
      ensures CoreOk(State()) && events == EventsOf(frames)
      ensures liveBytes == old(liveBytes) + LineBytes(f)
    {
      InsertKeepsIndexed(State(), f);
      IndexAfterInsert(State(), f);
      index := next;
      next := next + 1;
      liveBytes := liveBytes + LineBytes(f);
      byKey := byKey[KeyOf(f) := index];
      if f.IsEvent() { events := events + {index}; }
      frames := frames[index := f];
    }

    // Arrival indices only grow, so the last run is the only one a new frame can join.
    method GrowRuns(ghost pending: set<nat>, index: nat)
      requires RunsOf(pending, runs) && runsByLength == ByLength(runs)
      requires forall i :: i in pending ==> i < index
      modifies this`runs, this`runsByLength
      ensures RunsOf(pending + {index}, runs) && runsByLength == ByLength(runs)
    {
      NoRunAt(pending, runs, index);
      if runs == map[] {
        NothingPending(pending, runs);
        assert pending + {index} == {index};
        FirstRun(index);
        AddRun(index, index);
      } else {
        var last := LastRun();
        GrowKeepsRuns(pending, runs, last, index);
        if runs[last] + 1 == index {
          EraseRun(last);
          AddRun(last, index);
        } else {
          AddRun(index, index);
        }
      }
    }

    method LastRun() returns (last: nat)
      requires runs != map[]
      ensures last in runs && forall s :: s in runs ==> s <= last
    {
      assert runs.Keys != {};
      ghost var newest := Newest(runs.Keys);
      last :| last in runs && forall s :: s in runs ==> s <= last;
    }

    // The run holding `index`: the last one starting at or before it.
    method RunHolding(ghost pending: set<nat>, index: nat) returns (start: nat)
      requires RunsOf(pending, runs) && index in pending
      ensures start in runs && start <= index <= runs[start]
    {
      ghost var holder := HoldingRun(pending, runs, index);
      start :| start in runs && start <= index && forall s :: s in runs && s <= index ==> s <= start;
      assert start == holder;
    }

    method Remove(index: nat)
      requires Valid()
      modifies this
      ensures Valid() && State() == RemoveOf(old(State()), index)
      ensures persistence == old(persistence) && file == old(file)
      ensures AllBytes() == old(AllBytes())
    {
      if index !in frames { return; }
      ghost var pending := frames.Keys;
      IndexAfterRemove(State(), index);
      Forget(index);
      ShrinkRuns(pending, index);
    }

    method Forget(index: nat)
      requires CoreOk(State()) && index in frames && events == EventsOf(frames)
      requires liveBytes >= LineBytes(frames[index])
      modifies this`byKey, this`events, this`frames, this`liveBytes, this`deadBytes
      ensures State() == RemoveOf(old(State()), index) && CoreOk(State()) && events == EventsOf(frames)
      ensures liveBytes == old(liveBytes) - LineBytes(old(frames)[index])
      ensures deadBytes == old(deadBytes) + LineBytes(old(frames)[index])
    {
      RemoveKeepsIndexed(State(), index);
      var bytes := LineBytes(frames[index]);
      liveBytes := liveBytes - bytes;
      deadBytes := deadBytes + bytes;
      var key := KeyOf(frames[index]);
      if key in byKey && byKey[key] == index { byKey := byKey - {key}; }
      events := events - {index};
      frames := frames - {index};
    }

    // What is left of a frame's run on either side of it.
    method ShrinkRuns(ghost pending: set<nat>, index: nat)
      requires RunsOf(pending, runs) && runsByLength == ByLength(runs) && index in pending
      modifies this`runs, this`runsByLength
      ensures RunsOf(pending - {index}, runs) && runsByLength == ByLength(runs)
      ensures exists start :: start in old(runs) && start <= index <= old(runs)[start]
                           && runs == Without(old(runs), start, index)
    {
      var start := RunHolding(pending, index);
      WithoutKeepsRuns(pending, runs, start, index);
      NoRunInside(pending, runs, start, index + 1);
      SplitRun(start, index);
    }

    method SplitRun(start: nat, index: nat)
      requires runsByLength == ByLength(runs)
      requires start in runs && start <= index <= runs[start] && index + 1 !in runs
      modifies this`runs, this`runsByLength
      ensures runsByLength == ByLength(runs) && runs == Without(old(runs), start, index)
    {
      var end := runs[start];
      EraseRun(start);
      if start < index { AddRun(start, index - 1); }
      if index < end { AddRun(index + 1, end); }
    }

    // ---------- queries ----------

    method PendingFrames(max: nat) returns (out: seq<Frame>)
      requires Valid()
      ensures |out| == if |Pending(frames, next)| < max then |Pending(frames, next)| else max
      ensures out == Pending(frames, next)[..|out|]
    {
      out := [];
      for i := 0 to next
        invariant |out| == if |Pending(frames, i)| < max then |Pending(frames, i)| else max
        invariant out == Pending(frames, i)[..|out|]
      {
        if i in frames && |out| < max { out := out + [frames[i]]; }
      }
    }

    // The oldest pending events, at most `max`.
    method PendingEvents(max: nat) returns (out: seq<nat>)
      requires Valid()
      ensures |out| <= max && forall j :: 0 <= j < |out| ==> out[j] in events && out[j] in frames
      ensures forall j, k :: 0 <= j < k < |out| ==> out[j] < out[k]
      ensures forall e :: e in events && e !in out ==> |out| == max && forall j :: 0 <= j < max ==> out[j] < e
    {
      out := [];
      for i := 0 to next
        invariant |out| <= max && forall j :: 0 <= j < |out| ==> out[j] in events && out[j] < i
        invariant forall j, k :: 0 <= j < k < |out| ==> out[j] < out[k]
        invariant forall e :: e in events && e < i && e !in out ==>
          |out| == max && forall j :: 0 <= j < max ==> out[j] < e
      {
        if i in events && |out| < max { out := out + [i]; }
      }
    }

    // The next backlog frame: the middle of the longest run, the oldest of those.
    method NextReplay() returns (index: Option<nat>)
      requires Valid()
      ensures index.None? <==> frames == map[]
      ensures index.Some? ==> index.value in frames
      ensures index.Some? ==> exists s :: Chosen(runs, s) && s <= runs[s] && index.value == Middle(runs, s)
    {
      if runsByLength == {} {
        NoKeysNoRuns(runs);
        NothingPending(frames.Keys, runs);
        return None;
      }
      var start := LongestRun();
      var end := runs[start];
      assert MaximalRun(frames.Keys, start, end) && start in frames;
      index := Some(start + (end - start) / 2);
    }

    // The first entry of the index by length.
    method LongestRun() returns (start: nat)
      requires runsByLength == ByLength(runs) && runsByLength != {}
      ensures Chosen(runs, start)
    {
      ghost var least := LeastKey(runsByLength);
      var key :| key in runsByLength && forall k :: k in runsByLength ==> KeyBefore(key, k);
      LeastKeyIsChosen(runs, key);
      start := key.1;
    }

    // ---------- the file ----------

    method Append(f: Frame, w: Write) returns (ok: bool)
      modifies this`file
      ensures ok <==> w.Written?
      ensures OnDisk().(on := ok && persistence) == Appended(old(OnDisk()), FormatLine(f), w).(on := ok && persistence)
    {
      match w {
        case Written =>
          file := Some((if file.Some? then file.value else "") + FormatLine(f) + "\n");
          ok := true;
        case Failed(left) =>
          file := left;
          ok := false;
      }
    }

    method Rendered() returns (out: string)
      ensures out == Join(PendingLines())
    {
      out := "";
      for i := 0 to next
        invariant out == Join(Lines(Pending(frames, i)))
      {
        if i in frames {
          LinesOneMore(Pending(frames, i), frames[i]);
          out := out + FormatLine(frames[i]) + "\n";
        }
      }
    }

    // Rewrites the file with the pending frames only. Whether the last bytes got
    // out is not looked at.
    method Compact(w: Rewrite) returns (ok: bool)
      modifies this`file, this`deadBytes
      ensures ok <==> !w.NotRewritten?
      ensures OnDisk().(on := ok) == Rewriting(old(OnDisk()), Join(PendingLines()), w)
    {
      var out := Rendered();
      match w {
        case Rewritten =>
          file, deadBytes := Some(out), 0;
          ok := true;
        case NotRewritten(left) =>
          file := left;
          ok := false;
        case Unnoticed(short) =>
          file, deadBytes := Some(short), 0;
          ok := true;
      }
    }

    // Compacts while that is cheap, or while dead lines have piled up.
    method MaybeCompact(w: Rewrite)
      modifies this`file, this`deadBytes, this`persistence
      ensures OnDisk() == Compacted(old(OnDisk()), Join(PendingLines()), liveBytes, limits, w)
    {
      if !persistence { return; }
      if deadBytes == 0 { return; }
      var cheap := liveBytes <= limits.cheapLive;
      var worthDropping := deadBytes >= limits.minDead && liveBytes <= limits.maxLive;
      if !cheap && !worthDropping { return; }
      var ok := Compact(w);
      if !ok { persistence := false; }
    }

    method RetryPersistence(io: Io)
      modifies this`file, this`deadBytes, this`persistence
      ensures OnDisk() == Retried(old(OnDisk()), Join(PendingLines()), io)
    {
      if persistence { return; }
      if !io.retryDue { return; }
      if !io.dirReady { return; }
      persistence := true;
      var ok := Compact(io.retry);
      if !ok { persistence := false; }
    }

    // ---------- pruning ----------

    method FirstIndex() returns (first: nat)
      requires frames != map[]
      ensures first in frames && forall i :: i in frames ==> first <= i
    {
      assert frames.Keys != {};
      ghost var oldest := Oldest(frames.Keys);
      first :| first in frames && forall i :: i in frames ==> first <= i;
    }

    method DropOldest() returns (ghost first: nat)
      requires Valid() && frames != map[]
      modifies this
      ensures Valid() && next == old(next) && liveBytes <= old(liveBytes) && AllBytes() == old(AllBytes())
      ensures persistence == old(persistence) && file == old(file)
      ensures first in old(frames) && (forall i :: i in old(frames) ==> first <= i)
      ensures frames == From(old(frames), first + 1) && |frames| < |old(frames)|
      ensures byKey == KeptKeys(old(byKey), frames)
      ensures old(Indexed(State())) ==> Indexed(State())
    {
      var oldest := FirstIndex();
      first := oldest;
      RemoveKeepsIndexed(State(), oldest);
      RemoveKeepsKeys(State(), oldest);
      IndexAfterRemove(State(), oldest);
      Remove(oldest);
    }

    // Drops the oldest frame while it is stale.
    method PruneStale(now: int)
      requires Valid()
      modifies this
      ensures Valid() && next == old(next) && liveBytes <= old(liveBytes) && AllBytes() == old(AllBytes())
      ensures persistence == old(persistence) && file == old(file)
      ensures frames == From(old(frames), StaleCut(old(frames), next, 0, now, retention))
      ensures byKey == KeptKeys(old(byKey), frames)
      ensures old(Indexed(State())) ==> Indexed(State())
    {
      ghost var cut: nat := 0;
      AllKept(State());
      while frames != map[]
        invariant Valid() && next == old(next) && liveBytes <= old(liveBytes) && AllBytes() == old(AllBytes())
        invariant persistence == old(persistence) && file == old(file)
        invariant frames == From(old(frames), cut) && byKey == KeptKeys(old(byKey), frames)
        invariant forall j :: j in old(frames) && j < cut ==> Stale(old(frames)[j], now, retention)
        invariant old(Indexed(State())) ==> Indexed(State())
        decreases |frames|
      {
        var first := FirstIndex();
        if !(retention > 0 && now - frames[first].epoch > retention) { break; }
        StaleCutMoves(old(frames), cut, first, now, retention);
        ghost var kept := frames;
        ghost var dropped := DropOldest();
        KeptTwice(old(byKey), kept, frames);
        cut := dropped + 1;
      }
      StaleCutReached(old(frames), next, cut, now, retention);
    }

    // Drops the oldest frame while the queue is over its size.
    method PruneSize()
      requires Valid()
      modifies this
      ensures Valid() && next == old(next) && AllBytes() == old(AllBytes())
      ensures persistence == old(persistence) && file == old(file)
      ensures frames == if maxBytes == 0 then old(frames) else From(old(frames), SizeCut(old(frames), next, 0, maxBytes))
      ensures byKey == KeptKeys(old(byKey), frames)
      ensures old(Indexed(State())) ==> Indexed(State())
    {
      AllKept(State());
      if maxBytes == 0 { return; }
      ghost var cut: nat := 0;
      while frames != map[] && liveBytes > maxBytes
        invariant Valid() && next == old(next) && AllBytes() == old(AllBytes())
        invariant persistence == old(persistence) && file == old(file)
        invariant cut <= next && frames == From(old(frames), cut) && byKey == KeptKeys(old(byKey), frames)
        invariant forall j :: 0 <= j < cut ==> BytesFrom(old(frames), next, j) > maxBytes
        invariant old(Indexed(State())) ==> Indexed(State())
        decreases |frames|
      {
        ghost var kept := frames;
        ghost var dropped := DropOldest();
        KeptTwice(old(byKey), kept, frames);
        cut := OverSize(old(frames), next, cut, dropped, maxBytes);
      }
      if frames == map[] { NoBytesFrom(frames, next, next); }
      SizeCutReached(old(frames), next, cut, maxBytes);
    }

    // Drops stale frames from the head, then whatever is over the size.
    method Prune(now: int)
      requires Valid()
      modifies this
      ensures Valid() && next == old(next) && AllBytes() == old(AllBytes())
      ensures persistence == old(persistence) && file == old(file)
      ensures frames == PruneOf(old(frames), next, now, retention, maxBytes) && byKey == KeptKeys(old(byKey), frames)
      ensures maxBytes > 0 ==> liveBytes <= maxBytes
      ensures old(Indexed(State())) ==> Indexed(State())
    {
      PruneStale(now);
      ghost var live := frames;
      PruneSize();
      KeptTwice(old(byKey), live, frames);
      CutTwice(old(frames), next, StaleCut(old(frames), next, 0, now, retention), maxBytes);
      PrunedForCause(old(frames), next, now, retention, maxBytes);
    }

    // ---------- the operations ----------

    constructor (retention: int, maxBytes: nat, limits: Limits, onDisk: Option<string>)
      ensures Valid() && State() == LoadOf([]) && Indexed(State()) && OnDisk() == Disk(true, onDisk, 0)
      ensures this.retention == retention && this.maxBytes == maxBytes && this.limits == limits
    {
      this.retention, this.maxBytes, this.limits := retention, maxBytes, limits;
      frames, byKey, events, runs, runsByLength := map[], map[], {}, map[], {};
      next, liveBytes, deadBytes, persistence, file := 0, 0, 0, true, onDisk;
    }

    // Takes the frames of the last run from the file, then rewrites it.
    method Initialize(now: int, dirReady: bool, created: bool, w: Rewrite) returns (ok: bool)
      requires Valid() && State() == LoadOf([]) && persistence && deadBytes == 0
      modifies this
      ensures Valid() && AllKeepable() && ok == persistence
      ensures ok <==> dirReady && (if old(file).Some? then !w.NotRewritten? else created)
      ensures dirReady && old(file).Some? ==>
        Pending(frames, next) == Recovered(Split(old(file).value, '\n'), now, retention)
      ensures State() == LoadOf(if dirReady && old(file).Some?
                                then Recovered(Split(old(file).value, '\n'), now, retention) else [])
      ensures dirReady && old(file).Some? ==> OnDisk() == Rewriting(old(OnDisk()), Join(PendingLines()), w)
      ensures !dirReady || old(file).None? ==> OnDisk() == Disk(ok, if ok then Some("") else old(file), 0)
      // Exactly when the file holds what was loaded.
      ensures Persisted() <==> (ok && old(file).Some? ==> Harmless(w, PendingLines()))
    {
      if !dirReady {
        persistence := false;
        return false;
      }
      if file.None? {
        if !created {
          persistence := false;
          return false;
        }
        file := Some("");
        return true;
      }
      Load(Split(file.value, '\n'), now);
      LoadedIsKeepable(old(file).value, now);
      RewriteDurable(OnDisk(), PendingLines(), w);
      ok := CompactOrStop(w);
    }

    // A rewrite that fails noticed turns persistence off.
    method CompactOrStop(w: Rewrite) returns (ok: bool)
      requires Valid() && persistence
      modifies this`file, this`deadBytes, this`persistence
      ensures Valid() && ok == persistence == !w.NotRewritten?
      ensures OnDisk() == Rewriting(old(OnDisk()), Join(PendingLines()), w)
    {
      ok := Compact(w);
      if !ok { persistence := false; }
    }

    lemma LoadedIsKeepable(content: string, now: int)
      requires Valid() && Pending(frames, next) == Recovered(Split(content, '\n'), now, retention)
      ensures AllKeepable() && forall l :: l in PendingLines() ==> '\n' !in l
    {
      PiecesAreLines(content);
      RecoveredAreKeepable(Split(content, '\n'), now, retention);
      FramesArePending(frames, next);
      KeepableLines(Pending(frames, next));
    }

    // Takes what parses and is not stale, skips the rest.
    method Load(read: seq<string>, now: int)
      requires Valid() && State() == LoadOf([])
      modifies this
      ensures Valid() && OnDisk() == old(OnDisk()) && State() == LoadOf(Recovered(read, now, retention))
      ensures Pending(frames, next) == Recovered(read, now, retention)
    {
      for i := 0 to |read|
        invariant Valid() && OnDisk() == old(OnDisk()) && State() == LoadOf(Recovered(read[..i], now, retention))
        invariant Pending(frames, next) == Recovered(read[..i], now, retention)
      {
        LoadLine(read[i], now, read[..i], read[..i + 1]);
      }
      assert read[..|read|] == read;
    }

    method LoadLine(line: string, now: int, ghost done: seq<string>, ghost more: seq<string>)
      requires Valid() && more == done + [line]
      requires Pending(frames, next) == Recovered(done, now, retention) && State() == LoadOf(Recovered(done, now, retention))
      modifies this
      ensures Valid() && OnDisk() == old(OnDisk()) && State() == LoadOf(Recovered(more, now, retention))
      ensures Pending(frames, next) == Recovered(more, now, retention)
    {
      assert more[..|more| - 1] == done;
      var parsed := ParseLine(line);
      if parsed.Some? && !Stale(parsed.value, now, retention) {
        LoadFrame(parsed.value);
      }
    }

    method LoadFrame(f: Frame)
      requires Valid()
      modifies this
      ensures Valid() && OnDisk() == old(OnDisk()) && State() == InsertOf(old(State()), f)
      ensures Pending(frames, next) == Pending(old(frames), old(next)) + [f]
    {
      IndexAfterInsert(State(), f);
      Insert(f);
    }

    // All the bytes accounted for, pending or not.
    function AllBytes(): nat
      reads this
    {
      liveBytes + deadBytes
    }

    method Enqueue(f: Frame, now: int, io: Io) returns (index: nat)
      requires Valid()
      modifies this
      ensures Valid() && index == old(next) && next == index + 1
      ensures frames == PruneOf(old(frames)[index := f], next, now, retention, maxBytes)
      ensures byKey == KeptKeys(old(byKey)[KeyOf(f) := index], frames)
      ensures old(Indexed(State()) && !KeyPending(State(), KeyOf(f))) ==> Indexed(State())
      ensures old(AllKeepable()) && Keepable(f) ==> AllKeepable()
      // The file and the persistence flag, whatever the disk does.
      ensures liveBytes <= old(AllBytes()) + LineBytes(f)
      ensures OnDisk() == AfterEnqueue(old(OnDisk()).(dead := old(AllBytes()) + LineBytes(f) - liveBytes),
                                       FormatLine(f), Join(PendingLines()), liveBytes, limits, io)
      // Exactly when the pending frames are still in the file.
      ensures old(Persisted()) && Keepable(f) ==>
        (Persisted() <==>
         EnqueueLosesNothing(old(OnDisk()).(dead := old(AllBytes()) + LineBytes(f) - liveBytes),
                             FormatLine(f), PendingLines(), liveBytes, limits, io))
    {
      index := next;
      ghost var before := PendingLines();
      InsertAndPrune(f, now);
      PersistNew(f, io, before);
    }

    // The file after an insertion, where `before` was pending before it.
    method PersistNew(f: Frame, io: Io, ghost before: seq<string>)
      requires Valid() && Sub(PendingLines(), before + [FormatLine(f)])
      modifies this`file, this`deadBytes, this`persistence
      ensures OnDisk() == AfterEnqueue(old(OnDisk()), FormatLine(f), Join(PendingLines()), liveBytes, limits, io)
      ensures Keepable(f) && AllKeepable() && old(Durable(OnDisk(), before)) ==>
        (Durable(OnDisk(), PendingLines()) <==>
         EnqueueLosesNothing(old(OnDisk()), FormatLine(f), PendingLines(), liveBytes, limits, io))
    {
      if Keepable(f) && AllKeepable() && Durable(OnDisk(), before) {
        LineHasNoNewline(f);
        PendingAreClean();
        EnqueueDurable(OnDisk(), before, FormatLine(f), PendingLines(), liveBytes, limits, io);
      }
      Persist(f, io);
    }

    method InsertAndPrune(f: Frame, now: int)
      requires Valid()
      modifies this
      ensures Valid() && next == old(next) + 1
      ensures persistence == old(persistence) && file == old(file)
      ensures AllBytes() == old(AllBytes()) + LineBytes(f)
      ensures frames == PruneOf(old(frames)[old(next) := f], next, now, retention, maxBytes)
      ensures byKey == KeptKeys(old(byKey)[KeyOf(f) := old(next)], frames)
      ensures old(Indexed(State()) && !KeyPending(State(), KeyOf(f))) ==> Indexed(State())
      ensures old(AllKeepable()) && Keepable(f) ==> AllKeepable()
      ensures Sub(PendingLines(), old(PendingLines()) + [FormatLine(f)])
      ensures old(Persisted()) && Keepable(f) ==> Durable(OnDisk(), old(PendingLines()))
    {
      ghost var inserted := InsertOf(State(), f);
      InsertKeepsIndexed(State(), f);
      IndexAfterInsert(State(), f);
      Insert(f);
      Prune(now);
      FewerPending(inserted.frames, frames, next);
      SubOfLines(Pending(frames, next), Pending(inserted.frames, next));
      LinesOneMore(Pending(old(frames), old(next)), f);
    }

    method Persist(f: Frame, io: Io)
      modifies this`file, this`deadBytes, this`persistence
      ensures OnDisk() == AfterEnqueue(old(OnDisk()), FormatLine(f), Join(PendingLines()), liveBytes, limits, io)
    {
      RetryPersistence(io);
      if !persistence { return; }
      var ok := Append(f, io.append);
      if !ok {
        persistence := false;
        return;
      }
      MaybeCompact(io.compact);
    }

    lemma PendingAreClean()
      requires Valid() && AllKeepable()
      ensures forall l :: l in PendingLines() ==> '\n' !in l
    {
      PendingAreFrames(frames, next);
      KeepableLines(Pending(frames, next));
    }

    // What follows every acknowledgement: the lost lines may be dropped now.
    method AfterAcknowledge(io: Io)
      modifies this`file, this`deadBytes, this`persistence
      ensures OnDisk() == AfterRemoval(old(OnDisk()), Join(PendingLines()), liveBytes, limits, io)
    {
      RetryPersistence(io);
      MaybeCompact(io.compact);
    }

    // Drops exactly this frame, if it is pending and the key index finds it.
    method AcknowledgeExact(f: Frame, io: Io)
      requires Valid()
      modifies this
      ensures Valid() && State() == AcknowledgeOf(old(State()), f)
      ensures old(Indexed(State())) ==> Indexed(State())
      ensures old(AllKeepable()) ==> AllKeepable()
      ensures State() == old(State()) ==> OnDisk() == old(OnDisk())
      ensures State() != old(State()) ==>
        && liveBytes <= old(AllBytes())
        && OnDisk() == AfterRemoval(old(OnDisk()).(dead := old(AllBytes()) - liveBytes),
                                    Join(PendingLines()), liveBytes, limits, io)
      ensures old(Persisted()) && State() != old(State()) ==>
        (Persisted() <==>
         RemovalLosesNothing(old(OnDisk()).(dead := old(AllBytes()) - liveBytes),
                             PendingLines(), liveBytes, limits, io))
    {
      var key := KeyOf(f);
      if key !in byKey { return; }
      var index := byKey[key];
      if index !in frames || frames[index].text != f.text { return; }
      ghost var before := PendingLines();
      RemoveInOrder(index);
      SettleRemoval(before, io);
    }

    // After removals that took the pending lines from `before` to what they are.
    method SettleRemoval(ghost before: seq<string>, io: Io)
      requires Valid() && Sub(PendingLines(), before)
      modifies this`file, this`deadBytes, this`persistence
      ensures Valid() && (old(AllKeepable()) ==> AllKeepable())
      ensures OnDisk() == AfterRemoval(old(OnDisk()), Join(PendingLines()), liveBytes, limits, io)
      ensures old(AllKeepable() && Durable(OnDisk(), before)) ==>
        (Persisted() <==> RemovalLosesNothing(old(OnDisk()), PendingLines(), liveBytes, limits, io))
    {
      if AllKeepable() && Durable(OnDisk(), before) {
        PendingAreClean();
        RemovalDurable(OnDisk(), before, PendingLines(), liveBytes, limits, io);
      }
      AfterAcknowledge(io);
    }

    method RemoveInOrder(index: nat)
      requires Valid() && index in frames
      modifies this
      ensures Valid() && State() == RemoveOf(old(State()), index) && byKey == KeptKeys(old(byKey), frames)
      ensures old(Indexed(State())) ==> Indexed(State())
      ensures old(AllKeepable()) ==> AllKeepable()
      ensures persistence == old(persistence) && file == old(file)
      ensures AllBytes() == old(AllBytes())
      ensures Sub(PendingLines(), old(PendingLines()))
    {
      RemoveKeepsIndexed(State(), index);
      RemoveKeepsKeys(State(), index);
      IndexAfterRemove(State(), index);
      SubOfLines(Pending(RemoveOf(State(), index).frames, next), Pending(frames, next));
      Remove(index);
    }

    // Drops every frame of the session up to `number`.
    method Acknowledge(session: string, number: nat, io: Io)
      requires Valid()
      modifies this
      ensures Valid()
      ensures forall i :: i in frames <==>
        i in old(frames) && !(old(frames)[i].session == session && old(frames)[i].number <= number)
      ensures forall i :: i in frames ==> frames[i] == old(frames)[i]
      ensures old(Indexed(State())) ==> Indexed(State())
      ensures old(AllKeepable()) ==> AllKeepable()
      ensures next == old(next) && byKey == KeptKeys(old(byKey), frames)
      ensures frames == old(frames) ==> State() == old(State()) && OnDisk() == old(OnDisk())
      ensures frames != old(frames) ==>
        && liveBytes <= old(AllBytes())
        && OnDisk() == AfterRemoval(old(OnDisk()).(dead := old(AllBytes()) - liveBytes),
                                    Join(PendingLines()), liveBytes, limits, io)
      ensures old(Persisted()) && frames != old(frames) ==>
        (Persisted() <==>
         RemovalLosesNothing(old(OnDisk()).(dead := old(AllBytes()) - liveBytes), PendingLines(), liveBytes, limits, io))
    {
      ghost var before := PendingLines();
      var acked := RemoveUpTo(session, number);
      if acked { SettleRemoval(before, io); }
    }

    method RemoveUpTo(session: string, number: nat) returns (acked: bool)
      requires Valid()
      modifies this
      ensures Valid() && next == old(next) && persistence == old(persistence) && file == old(file)
      ensures frames == Uncovered(old(frames), session, number, next) && byKey == KeptKeys(old(byKey), frames)
      ensures old(Indexed(State())) ==> Indexed(State())
      ensures Sub(PendingLines(), old(PendingLines())) && AllBytes() == old(AllBytes())
      ensures if acked then frames != old(frames) else State() == old(State()) && OnDisk() == old(OnDisk())
    {
      acked := false;
      AllKept(State());
      SubSelf(PendingLines());
      for i := 0 to next
        invariant Valid() && next == old(next) && persistence == old(persistence) && file == old(file)
        invariant frames == Uncovered(old(frames), session, number, i) && byKey == KeptKeys(old(byKey), frames)
        invariant old(Indexed(State())) ==> Indexed(State())
        invariant Sub(PendingLines(), old(PendingLines())) && AllBytes() == old(AllBytes())
        invariant if acked then frames != old(frames) else State() == old(State()) && OnDisk() == old(OnDisk())
      {
        ghost var before, kept := PendingLines(), frames;
        UncoveredOneMore(old(frames), session, number, i);
        if i in frames && frames[i].session == session && frames[i].number <= number {
          RemoveInOrder(i);
          SubTransitive(PendingLines(), before, old(PendingLines()));
          KeptTwice(old(byKey), kept, frames);
          acked := true;
        }
      }
    }

    // ---------- restarts ----------

    // A restart recovers every pending frame that is not stale, in order, out
    // of whatever the file holds besides.
    lemma RestartRecovers(now: int)
      requires Valid() && persistence && Persisted()
      ensures file.Some?
      ensures Sub(Fresh(Pending(frames, next), now, retention),
                  Recovered(Split(file.value, '\n'), now, retention))
    {
      PendingAreFrames(frames, next);
      PendingIsRecovered(Pending(frames, next), Split(file.value, '\n'), now, retention);
    }
  }
}
