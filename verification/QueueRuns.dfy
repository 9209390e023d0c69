// The telemetry queue's index of maximal runs of consecutive pending frames,
// and how fast replay by bisection thins out an outage.
module QueueRuns {

  // [s, e] is pending and cannot be extended on either side.
  ghost predicate MaximalRun(pending: set<nat>, s: nat, e: nat) {
    && s <= e
    && (forall i :: s <= i <= e ==> i in pending)
    && e + 1 !in pending
    && (s > 0 ==> s - 1 !in pending)
  }

  // `runs` maps the start of every maximal run to its end.
  ghost predicate RunsOf(pending: set<nat>, runs: map<nat, nat>) {
    && (forall s :: s in runs ==> MaximalRun(pending, s, runs[s]))
    && (forall i {:trigger Covered(runs, i)} :: i in pending ==> Covered(runs, i))
  }

  ghost predicate Covered(runs: map<nat, nat>, i: nat) {
    exists s :: s in runs && s <= i <= runs[s]
  }

  lemma RunsAreExactly(pending: set<nat>, runs: map<nat, nat>, s: nat, e: nat)
    requires RunsOf(pending, runs)
    ensures MaximalRun(pending, s, e) <==> s in runs && runs[s] == e
  {
    if MaximalRun(pending, s, e) {
      assert s in pending && Covered(runs, s);
      var t :| t in runs && t <= s <= runs[t];
      assert MaximalRun(pending, t, runs[t]);
      assert runs[t] + 1 !in pending && e + 1 !in pending && (s > 0 ==> s - 1 !in pending);
    }
  }

  // Two runs never share or touch a frame.
  lemma RunsApart(pending: set<nat>, runs: map<nat, nat>, s: nat, t: nat)
    requires RunsOf(pending, runs) && s in runs && t in runs
    ensures s < t ==> runs[s] + 1 < t
  {
    assert MaximalRun(pending, s, runs[s]) && MaximalRun(pending, t, runs[t]);
    assert t > 0 ==> t - 1 !in pending;
  }

  // A new newest frame extends the run ending just before it, or starts one.
  function Grow(runs: map<nat, nat>, last: nat, index: nat): map<nat, nat>
    requires last in runs
  {
    if runs[last] + 1 == index then (runs - {last})[last := index] else runs[index := index]
  }

  // The run just before a new frame can only be the last one.
  lemma OnlyLastRunGrows(pending: set<nat>, runs: map<nat, nat>, last: nat, index: nat)
    requires RunsOf(pending, runs) && last in runs && (forall s :: s in runs ==> s <= last)
    requires forall i :: i in pending ==> i < index
    ensures index > 0 && index - 1 in pending ==> runs[last] + 1 == index
    ensures runs[last] < index
  {
    assert MaximalRun(pending, last, runs[last]) && runs[last] in pending;
    if index > 0 && index - 1 in pending {
      assert Covered(runs, index - 1);
      var t :| t in runs && t <= index - 1 <= runs[t];
      assert MaximalRun(pending, t, runs[t]) && runs[t] in pending;
      RunsApart(pending, runs, t, last);
    }
  }

  lemma GrowKeepsRuns(pending: set<nat>, runs: map<nat, nat>, last: nat, index: nat)
    requires RunsOf(pending, runs) && last in runs && (forall s :: s in runs ==> s <= last)
    requires forall i :: i in pending ==> i < index
    ensures RunsOf(pending + {index}, Grow(runs, last, index))
  {
    var pending', runs' := pending + {index}, Grow(runs, last, index);
    OnlyLastRunGrows(pending, runs, last, index);
    forall s | s in runs' ensures MaximalRun(pending', s, runs'[s]) {
      if s in runs {
        RunsApart(pending, runs, s, last);
        assert MaximalRun(pending, s, runs[s]);
      }
    }
    forall i | i in pending' ensures Covered(runs', i) {
      if i == index {
        var s := if runs[last] + 1 == index then last else index;
        assert s in runs' && s <= i <= runs'[s];
      } else {
        assert Covered(runs, i);
        var s :| s in runs && s <= i <= runs[s];
        assert s in runs' && s <= i <= runs'[s];
      }
    }
  }

  lemma FirstRun(index: nat)
    ensures RunsOf({index}, map[index := index])
  {
    var runs: map<nat, nat> := map[index := index];
    assert index in runs && index <= index <= runs[index];
  }

  // The run starting at `start` without its frame `index`.
  function Without(runs: map<nat, nat>, start: nat, index: nat): map<nat, nat>
    requires start in runs && start <= index <= runs[start]
  {
    var rest := runs - {start};
    var left := if start < index then rest[start := index - 1] else rest;
    if index < runs[start] then left[index + 1 := runs[start]] else left
  }

  lemma OtherRunsStay(pending: set<nat>, runs: map<nat, nat>, start: nat, index: nat, s: nat)
    requires RunsOf(pending, runs) && start in runs && start <= index <= runs[start]
    requires s in runs && s != start
    ensures s in Without(runs, start, index) && Without(runs, start, index)[s] == runs[s]
    ensures MaximalRun(pending - {index}, s, runs[s])
  {
    RunsApart(pending, runs, s, start);
    RunsApart(pending, runs, start, s);
    assert MaximalRun(pending, s, runs[s]);
  }

  lemma PiecesAreRuns(pending: set<nat>, start: nat, end: nat, index: nat)
    requires MaximalRun(pending, start, end) && start <= index <= end
    ensures start < index ==> MaximalRun(pending - {index}, start, index - 1)
    ensures index < end ==> MaximalRun(pending - {index}, index + 1, end)
  {
  }

  lemma WithoutMaximal(pending: set<nat>, runs: map<nat, nat>, start: nat, index: nat, s: nat)
    requires RunsOf(pending, runs) && start in runs && start <= index <= runs[start]
    requires s in Without(runs, start, index)
    ensures MaximalRun(pending - {index}, s, Without(runs, start, index)[s])
  {
    if s in runs && s != start {
      OtherRunsStay(pending, runs, start, index, s);
    } else {
      PiecesAreRuns(pending, start, runs[start], index);
    }
  }

  lemma WithoutKeepsRuns(pending: set<nat>, runs: map<nat, nat>, start: nat, index: nat)
    requires RunsOf(pending, runs) && start in runs && start <= index <= runs[start]
    ensures RunsOf(pending - {index}, Without(runs, start, index))
  {
    var pending', runs' := pending - {index}, Without(runs, start, index);
    forall s | s in runs' ensures MaximalRun(pending', s, runs'[s]) {
      WithoutMaximal(pending, runs, start, index, s);
    }
    forall i | i in pending' ensures Covered(runs', i) {
      WithoutCovers(pending, runs, start, index, i);
    }
  }

  lemma WithoutCovers(pending: set<nat>, runs: map<nat, nat>, start: nat, index: nat, i: nat)
    requires RunsOf(pending, runs) && start in runs && start <= index <= runs[start]
    requires i in pending && i != index
    ensures Covered(Without(runs, start, index), i)
  {
    var runs' := Without(runs, start, index);
    assert Covered(runs, i);
    var s :| s in runs && s <= i <= runs[s];
    if s == start {
      var t := if i < index then start else index + 1;
      assert t in runs' && t <= i <= runs'[t];
    } else {
      OtherRunsStay(pending, runs, start, index, s);
    }
  }

  lemma HoldingRun(pending: set<nat>, runs: map<nat, nat>, index: nat) returns (holder: nat)
    requires RunsOf(pending, runs) && index in pending
    ensures holder in runs && holder <= index <= runs[holder]
    ensures forall s :: s in runs && s <= index ==> s <= holder
  {
    assert Covered(runs, index);
    holder :| holder in runs && holder <= index <= runs[holder];
    forall s | s in runs && s <= index ensures s <= holder {
      RunsApart(pending, runs, holder, s);
    }
  }

  // ---------- replay by bisection ----------

  function Length(runs: map<nat, nat>, s: nat): int
    requires s in runs
  {
    runs[s] - s + 1
  }

  // The run replayed next: the longest, the oldest of those.
  predicate Chosen(runs: map<nat, nat>, s: nat) {
    && s in runs
    && forall t :: t in runs ==> Length(runs, t) < Length(runs, s) || (Length(runs, t) == Length(runs, s) && s <= t)
  }

  function Middle(runs: map<nat, nat>, s: nat): int
    requires s in runs
  {
    s + (runs[s] - s) / 2
  }

  ghost predicate ReplayStep(runs: map<nat, nat>, runs': map<nat, nat>) {
    exists s :: Chosen(runs, s) && s <= runs[s] && runs' == Without(runs, s, Middle(runs, s))
  }

  // Runs as acknowledged replays leave them one by one, until none is left.
  ghost predicate ReplayTrace(trace: seq<map<nat, nat>>) {
    forall i {:trigger StepAt(trace, i)} :: 0 <= i < |trace| - 1 ==> StepAt(trace, i)
  }

  ghost predicate StepAt(trace: seq<map<nat, nat>>, i: nat)
    requires i < |trace| - 1
  {
    ReplayStep(trace[i], trace[i + 1]) || (trace[i] == map[] && trace[i + 1] == map[])
  }

  ghost predicate NoneLonger(runs: map<nat, nat>, n: int) {
    forall s :: s in runs ==> 0 < Length(runs, s) <= n
  }

  ghost function Longer(runs: map<nat, nat>, n: int): set<nat> {
    set s | s in runs && Length(runs, s) > n
  }

  // Taking the middle out of a run leaves nothing longer than half of it.
  lemma MiddleHalves(runs: map<nat, nat>, s: nat, n: nat)
    requires s in runs && s <= runs[s] && NoneLonger(runs, n)
    ensures NoneLonger(Without(runs, s, Middle(runs, s)), n)
    ensures Longer(Without(runs, s, Middle(runs, s)), n / 2) <= Longer(runs, n / 2) - {s}
  {
    var runs' := Without(runs, s, Middle(runs, s));
    forall t | t in runs'
      ensures 0 < Length(runs', t) <= n
      ensures Length(runs', t) > n / 2 ==> t != s && t in runs && runs'[t] == runs[t]
    {
      assert Length(runs, s) <= n;
      if t != s && t != Middle(runs, s) + 1 { assert Length(runs', t) == Length(runs, t); }
    }
  }

  lemma OneMoreRun(runs: map<nat, nat>, s: nat, index: nat)
    requires s in runs && s <= index <= runs[s]
    ensures |Without(runs, s, index)| <= |runs| + 1
  {
    var rest := runs.Keys - {s};
    CardinalityAtMost(Without(runs, s, index).Keys, rest, s, index + 1);
    assert runs.Keys == rest + {s};
  }

  // One replay halves the longest run: no run of more than half the bound is
  // left, or there is one fewer of them.
  lemma ReplayHalves(runs: map<nat, nat>, runs': map<nat, nat>, n: nat)
    requires ReplayStep(runs, runs') && NoneLonger(runs, n)
    ensures NoneLonger(runs', n) && |runs'| <= |runs| + 1
    ensures Longer(runs', n / 2) == {} || |Longer(runs', n / 2)| < |Longer(runs, n / 2)|
  {
    var s :| Chosen(runs, s) && s <= runs[s] && runs' == Without(runs, s, Middle(runs, s));
    MiddleHalves(runs, s, n);
    OneMoreRun(runs, s, Middle(runs, s));
    if s in Longer(runs, n / 2) {
      SubsetSmaller(Longer(runs', n / 2), Longer(runs, n / 2) - {s});
    } else {
      assert forall t :: t in runs ==> Length(runs, t) <= Length(runs, s);
      assert Longer(runs, n / 2) == {};
    }
  }

  lemma SubsetSmaller(a: set<nat>, b: set<nat>)
    requires a <= b
    ensures |a| <= |b|
  {
    assert b == a + (b - a);
  }

  lemma CardinalityAtMost(a: set<nat>, b: set<nat>, x: nat, y: nat)
    requires a <= b + {x, y}
    ensures |a| <= |b| + 2
  {
    SubsetSmaller(a, b + {x, y});
    assert b + {x, y} == b + ({x, y} - b);
    SubsetSmaller({x, y} - b, {x, y});
  }

  // After i replays of a phase that began with at most r runs, at most r - i
  // are longer than half the bound.
  lemma {:induction false} PhaseProgress(trace: seq<map<nat, nat>>, r: nat, n: nat, i: nat)
    requires ReplayTrace(trace) && i < |trace| && |trace[0]| <= r && NoneLonger(trace[0], n)
    ensures NoneLonger(trace[i], n) && |trace[i]| <= r + i
    ensures Longer(trace[i], n / 2) == {} || |Longer(trace[i], n / 2)| <= r - i
  {
    if i == 0 {
      SubsetSmaller(Longer(trace[0], n / 2), trace[0].Keys);
    } else {
      PhaseProgress(trace, r, n, i - 1);
      assert StepAt(trace, i - 1);
      if trace[i - 1] != map[] || trace[i] != map[] {
        ReplayHalves(trace[i - 1], trace[i], n);
      } else {
        assert Longer(trace[i], n / 2) == {};
      }
    }
  }

  function Pow2(k: nat): nat { if k == 0 then 1 else 2 * Pow2(k - 1) }

  lemma {:induction false} Pow2Positive(k: nat)
    ensures Pow2(k) >= 1
  {
    if k > 0 { Pow2Positive(k - 1); }
  }

  lemma TraceSuffix(trace: seq<map<nat, nat>>, r: nat)
    requires ReplayTrace(trace) && r < |trace|
    ensures ReplayTrace(trace[r..])
  {
    var rest := trace[r..];
    forall i | 0 <= i < |rest| - 1 ensures StepAt(rest, i) {
      assert StepAt(trace, r + i);
    }
  }

  // A phase of r replays from r runs halves the bound and doubles the runs at most.
  lemma OnePhase(trace: seq<map<nat, nat>>, r: nat, n: nat)
    requires ReplayTrace(trace) && r < |trace| && |trace[0]| <= r && NoneLonger(trace[0], n)
    ensures |trace[r]| <= 2 * r && NoneLonger(trace[r], n / 2)
  {
    PhaseProgress(trace, r, n, r);
    assert Longer(trace[r], n / 2) == {};
    forall s | s in trace[r] ensures 0 < Length(trace[r], s) <= n / 2 {
      assert s !in Longer(trace[r], n / 2);
    }
  }

  lemma PhaseFits(r: nat, p: nat)
    requires p >= 1
    ensures r * (2 * p - 1) == r + (2 * r) * (p - 1) && (2 * r) * (p - 1) >= 0
  {
  }

  // The replay bound: from r runs none longer than n, after r * (2^k - 1)
  // acknowledged replays none is longer than n / 2^k.
  lemma {:induction false} BisectionBound(trace: seq<map<nat, nat>>, r: nat, n: nat, k: nat)
    requires ReplayTrace(trace) && trace != [] && |trace[0]| <= r && NoneLonger(trace[0], n)
    requires |trace| == r * (Pow2(k) - 1) + 1
    ensures Pow2(k) >= 1 && NoneLonger(trace[|trace| - 1], n / Pow2(k))
    decreases k
  {
    Pow2Positive(k);
    if k > 0 {
      var p := Pow2(k - 1);
      Pow2Positive(k - 1);
      PhaseFits(r, p);
      OnePhase(trace, r, n);
      TraceSuffix(trace, r);
      BisectionBound(trace[r..], 2 * r, n / 2, k - 1);
      DivideTwice(n, p);
    }
  }

  lemma DivideTwice(n: nat, p: nat)
    requires p > 0
    ensures (n / 2) / p == n / (2 * p)
  {
    var q := n / (2 * p);
    var m := n % (2 * p);
    assert n == 2 * p * q + m;
    assert n / 2 == p * q + m / 2;
    assert m / 2 < p;
    DivideExactly(n / 2, p, q, m / 2);
  }

  lemma DivideExactly(x: nat, p: nat, q: nat, m: nat)
    requires p > 0 && m < p && x == p * q + m
    ensures x / p == q
  {
    var d := x / p - q;
    assert x == p * (x / p) + x % p;
    assert d * p == m - x % p;
    AtLeastOnce(d, p);
  }

  lemma AtLeastOnce(d: int, p: nat)
    requires p > 0
    ensures d >= 1 ==> d * p >= p
    ensures d <= -1 ==> d * p + p <= 0
  {
  }
}
