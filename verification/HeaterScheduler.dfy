// Which heaters may draw power this tick, and how much.
module HeaterSchedulers {
  import opened Reals
  import opened StepperChannels
  import opened Wrappers

  function Clamp01(x: real): real { if x < 0.0 then 0.0 else if x > 1.0 then 1.0 else x }

  function Clamped(requested: seq<real>): (c: seq<real>)
    ensures |c| == |requested| && forall i :: 0 <= i < |c| ==> 0.0 <= c[i] <= 1.0
  {
    seq(|requested|, i requires 0 <= i < |requested| => Clamp01(requested[i]))
  }

  // What the heaters are ranked by; the electronics heater can be put last.
  function Score(clamped: seq<real>, low: Option<nat>, i: nat): real
    requires i < |clamped|
  {
    if low == Some(i) then clamped[i] * 0.1 else clamped[i]
  }

  // The electronics heater yields to every other that wants more than a tenth of
  // what it wants; between the others the greater request ranks first.
  lemma ElectronicsYields(clamped: seq<real>, low: Option<nat>, i: nat, j: nat)
    requires i < |clamped| && j < |clamped| && i != j
    ensures low == Some(i) ==> (Score(clamped, low, j) > Score(clamped, low, i) <==> clamped[j] > clamped[i] / 10.0)
    ensures low != Some(i) && low != Some(j) ==> (Score(clamped, low, j) > Score(clamped, low, i) <==> clamped[j] > clamped[i])
  {
  }

  function Times(duties: seq<real>, factor: real): (r: seq<real>)
    ensures |r| == |duties|
  {
    seq(|duties|, i requires 0 <= i < |duties| => Cut(duties[i], factor))
  }

  function Cut(duty: real, factor: real): real { duty * factor }

  lemma {:induction false} SumTimes(duties: seq<real>, factor: real)
    ensures Sum(Times(duties, factor)) == Cut(Sum(duties), factor)
  {
    if duties != [] {
      var n := |duties| - 1;
      SumTimes(duties[..n], factor);
      assert Times(duties, factor)[..n] == Times(duties[..n], factor);
      Distribute(Sum(duties[..n]), duties[n], factor);
    }
  }

  lemma Distribute(a: real, b: real, k: real)
    ensures (a + b) * k == a * k + b * k
  {
  }

  lemma Shrinks(x: real, k: real)
    requires x >= 0.0 && 0.0 <= k <= 1.0
    ensures 0.0 <= Cut(x, k) <= x
  {
    assert x * (1.0 - k) >= 0.0 && x * k >= 0.0;
    assert x * (1.0 - k) == x - x * k;
  }

  lemma {:induction false} SumNotNegative(duties: seq<real>)
    requires forall i :: 0 <= i < |duties| ==> duties[i] >= 0.0
    ensures Sum(duties) >= 0.0
  {
    if duties != [] { SumNotNegative(duties[..|duties| - 1]); }
  }

  lemma {:induction false} SumOfZeros(n: nat)
    ensures Sum(Zeros(n)) == 0.0
  {
    if n > 0 {
      SumOfZeros(n - 1);
      assert Zeros(n)[..n - 1] == Zeros(n - 1);
    }
  }

  function Zeros(n: nat): (z: seq<real>)
    ensures |z| == n && forall i :: 0 <= i < n ==> z[i] == 0.0
  {
    seq(n, i => 0.0)
  }

  ghost function On(duties: seq<real>): set<int> {
    set i | 0 <= i < |duties| && duties[i] > 0.0
  }

  // `order` lists the heaters, each once, best score first.
  ghost predicate Ranked(order: seq<nat>, clamped: seq<real>, low: Option<nat>, n: nat)
    requires n <= |clamped|
  {
    && (forall p :: 0 <= p < |order| ==> order[p] < n)
    && (forall i: nat :: i < n ==> i in order)
    && (forall p, q :: 0 <= p < q < |order| ==>
          order[p] != order[q] && Score(clamped, low, order[p]) >= Score(clamped, low, order[q]))
  }

  // At most `most` heaters run; one that wants to and does not is outranked by
  // all that do, and there are then exactly `most` of these.
  ghost predicate TopRanked(chosen: seq<real>, clamped: seq<real>, low: Option<nat>, most: nat) {
    && |chosen| == |clamped| && |On(chosen)| <= most
    && (forall i :: 0 <= i < |chosen| ==> chosen[i] == 0.0 || chosen[i] == clamped[i] > 0.0)
    && (forall j :: 0 <= j < |chosen| && clamped[j] > 0.0 && chosen[j] == 0.0 ==>
          && |On(chosen)| == most
          && forall i :: 0 <= i < |chosen| && chosen[i] > 0.0 ==> Score(clamped, low, i) >= Score(clamped, low, j))
  }

  // The best of those that want to run, until `most` do.
  method Choose(clamped: seq<real>, low: Option<nat>, most: nat) returns (chosen: seq<real>)
    requires forall i :: 0 <= i < |clamped| ==> 0.0 <= clamped[i]
    ensures TopRanked(chosen, clamped, low, most)
  {
    var order := Rank(clamped, low);
    chosen := Zeros(|clamped|);
    var enabled := 0;
    assert On(chosen) == {};
    for p := 0 to |order|
      invariant |chosen| == |clamped| && |On(chosen)| == enabled <= most
      invariant forall i :: 0 <= i < |chosen| ==> chosen[i] == 0.0 || chosen[i] == clamped[i] > 0.0
      invariant forall q :: 0 <= q < p ==> chosen[order[q]] == clamped[order[q]]
      invariant forall q :: p <= q < |order| ==> chosen[order[q]] == 0.0
    {
      if enabled >= most {
        EnoughChosen(order, clamped, low, chosen, p, most);
        return;
      }
      if clamped[order[p]] > 0.0 {
        var more := chosen[order[p] := clamped[order[p]]];
        assert On(more) == On(chosen) + {order[p]};
        chosen, enabled := more, enabled + 1;
      }
    }
    forall j: nat | j < |chosen| ensures chosen[j] == clamped[j] {
      assert j in order;
    }
  }

  lemma EnoughChosen(order: seq<nat>, clamped: seq<real>, low: Option<nat>, chosen: seq<real>, p: nat, most: nat)
    requires Ranked(order, clamped, low, |clamped|) && p <= |order|
    requires |chosen| == |clamped| && |On(chosen)| == most
    requires forall i :: 0 <= i < |chosen| ==> chosen[i] == 0.0 || chosen[i] == clamped[i] > 0.0
    requires forall q :: 0 <= q < p ==> chosen[order[q]] == clamped[order[q]]
    requires forall q :: p <= q < |order| ==> chosen[order[q]] == 0.0
    ensures TopRanked(chosen, clamped, low, most)
  {
    forall i, j | 0 <= i < |chosen| && 0 <= j < |chosen| && chosen[i] > 0.0 && clamped[j] > 0.0 && chosen[j] == 0.0
      ensures Score(clamped, low, i) >= Score(clamped, low, j)
    {
      assert i in order && j in order;
      var a :| 0 <= a < |order| && order[a] == i;
      var b :| 0 <= b < |order| && order[b] == j;
      assert a < p <= b;
    }
  }

  // A sort by score; which of two equal scores comes first is not promised.
  method Rank(clamped: seq<real>, low: Option<nat>) returns (order: seq<nat>)
    ensures Ranked(order, clamped, low, |clamped|)
  {
    order := [];
    for i := 0 to |clamped|
      invariant Ranked(order, clamped, low, i)
    {
      order := InsertByScore(order, clamped, low, i);
    }
  }

  method InsertByScore(order: seq<nat>, clamped: seq<real>, low: Option<nat>, i: nat) returns (longer: seq<nat>)
    requires i < |clamped| && Ranked(order, clamped, low, i)
    ensures Ranked(longer, clamped, low, i + 1)
  {
    var at := 0;
    while at < |order| && Score(clamped, low, order[at]) >= Score(clamped, low, i)
      invariant at <= |order|
      invariant forall p :: 0 <= p < at ==> Score(clamped, low, order[p]) >= Score(clamped, low, i)
    {
      at := at + 1;
    }
    longer := order[..at] + [i] + order[at..];
    Inserted(order, longer, clamped, low, i, at);
  }

  lemma Inserted(order: seq<nat>, longer: seq<nat>, clamped: seq<real>, low: Option<nat>, i: nat, at: nat)
    requires i < |clamped| && Ranked(order, clamped, low, i) && at <= |order|
    requires longer == order[..at] + [i] + order[at..]
    requires forall p :: 0 <= p < at ==> Score(clamped, low, order[p]) >= Score(clamped, low, i)
    requires at < |order| ==> Score(clamped, low, order[at]) <= Score(clamped, low, i)
    ensures Ranked(longer, clamped, low, i + 1)
  {
    forall p | 0 <= p < |longer|
      ensures longer[p] == (if p < at then order[p] else if p == at then i else order[p - 1])
    {
    }
    forall j: nat | j < i + 1 ensures j in longer {
      if j == i {
        assert longer[at] == i;
      } else {
        assert j in order;
        var p :| 0 <= p < |order| && order[p] == j;
        assert longer[if p < at then p else p + 1] == j;
      }
    }
    forall p, q | 0 <= p < q < |longer|
      ensures longer[p] != longer[q] && Score(clamped, low, longer[p]) >= Score(clamped, low, longer[q])
    {
      assert p != at ==> longer[p] == order[if p < at then p else p - 1];
      assert q != at ==> longer[q] == order[if q < at then q else q - 1];
    }
  }

  class HeaterScheduler {
    const maxActive: nat
    const maxThermalW: real
    const nominalW: real
    const budgetWh: real
    const electronics: Option<nat>
    const lock: MotionLock
    var energyWh: real
    var exhausted: bool
    var inhibited: bool
    ghost var deliveredWh: real   // what the duties handed out amounted to since the last Reset

    ghost predicate Valid()
      reads this
    {
      && maxThermalW >= 0.0 && nominalW >= 0.0
      && 0.0 <= deliveredWh
      && (budgetWh > 0.0 ==> deliveredWh < budgetWh && exhausted == (energyWh >= budgetWh))
      && (budgetWh > 0.0 && !exhausted ==> deliveredWh == energyWh)
      && (budgetWh <= 0.0 ==> !exhausted)
    }

    constructor (maxActive: nat, maxThermalW: real, nominalW: real, budgetWh: real, electronics: Option<nat>, lock: MotionLock)
      requires maxThermalW >= 0.0 && nominalW >= 0.0
      ensures Valid() && this.lock == lock && !exhausted && energyWh == deliveredWh == 0.0
      ensures this.maxActive == maxActive && this.maxThermalW == maxThermalW && this.nominalW == nominalW
      ensures this.budgetWh == budgetWh && this.electronics == electronics
    {
      this.maxActive, this.maxThermalW, this.nominalW, this.budgetWh := maxActive, maxThermalW, nominalW, budgetWh;
      this.electronics, this.lock := electronics, lock;
      energyWh, exhausted, inhibited, deliveredWh := 0.0, false, false, 0.0;
    }

    method Reset()
      requires Valid()
      modifies this
      ensures Valid() && !exhausted && !inhibited && energyWh == deliveredWh == 0.0
    {
      energyWh, exhausted, inhibited, deliveredWh := 0.0, false, false, 0.0;
    }

    function Watts(duty: real): real { duty * nominalW }

    function PowerW(duties: seq<real>): real { Watts(Sum(duties)) }

    function EnergyWh(powerW: real, dt: real): real { powerW * (dt / 3600.0) }

    // The best-ranked requests, all cut by one factor when they are too much together.
    ghost predicate Granted(duties: seq<real>, requested: seq<real>, deprioritize: bool) {
      exists chosen, factor ::
        && TopRanked(chosen, Clamped(requested), if deprioritize then electronics else None, maxActive)
        && duties == Times(chosen, factor) && 0.0 <= factor <= 1.0
        && (factor != 1.0 ==> PowerW(duties) == maxThermalW < PowerW(chosen))
    }

    // What every schedule keeps to.
    ghost predicate WithinLimits(duties: seq<real>, requested: seq<real>) {
      && |duties| == |requested|
      && (forall i :: 0 <= i < |duties| ==> 0.0 <= duties[i] <= Clamp01(requested[i]))
      && |On(duties)| <= maxActive
      && (PowerW(duties) <= maxThermalW || PowerW(duties) <= 0.000000001)
    }

    // `granted` is what the power limit leaves, before the energy budget is looked at.
    method Schedule(requested: seq<real>, deprioritize: bool, dt: real)
      returns (duties: seq<real>, ghost granted: seq<real>)
      requires Valid()
      modifies this
      ensures Valid() && WithinLimits(duties, requested)
      ensures inhibited == (lock.holder != NOBODY)
      ensures inhibited || exhausted ==> duties == Zeros(|requested|)
      ensures !inhibited && !exhausted ==> Granted(duties, requested, deprioritize) && duties == granted
      // The budget latches exactly when this tick's energy would reach it.
      ensures !inhibited && !old(exhausted) ==>
        && Granted(granted, requested, deprioritize)
        && (exhausted <==> budgetWh > 0.0 && dt > 0.0 && old(energyWh) + EnergyWh(PowerW(granted), dt) >= budgetWh)
        && energyWh == old(energyWh) + if budgetWh > 0.0 && dt > 0.0 then EnergyWh(PowerW(granted), dt) else 0.0
      ensures inhibited ==> energyWh == old(energyWh)
      // Once latched, latched until Reset.
      ensures old(exhausted) ==> exhausted && energyWh == old(energyWh)
      ensures inhibited ==> exhausted == old(exhausted)
      ensures deliveredWh == old(deliveredWh) + if dt > 0.0 then EnergyWh(PowerW(duties), dt) else 0.0
      ensures deliveredWh >= old(deliveredWh)
    {
      NoPower(|requested|);
      granted := Zeros(|requested|);
      if lock.holder != NOBODY {
        inhibited := true;
        return Zeros(|requested|), granted;
      }
      inhibited := false;
      if exhausted { return Zeros(|requested|), granted; }
      var powerW;
      duties, powerW := Share(requested, deprioritize);
      granted := duties;
      Account(powerW, dt, duties);
      if exhausted { duties := Zeros(|requested|); }
    }

    // Adds this tick's energy, or latches when the budget would be reached:
    // then nothing of this tick is delivered.
    method Account(powerW: real, dt: real, ghost duties: seq<real>)
      requires Valid() && !exhausted && powerW == PowerW(duties) && forall i :: 0 <= i < |duties| ==> duties[i] >= 0.0
      modifies this`energyWh, this`exhausted, this`deliveredWh
      ensures Valid()
      ensures exhausted <==> budgetWh > 0.0 && dt > 0.0 && old(energyWh) + EnergyWh(powerW, dt) >= budgetWh
      ensures energyWh == old(energyWh) + if budgetWh > 0.0 && dt > 0.0 then EnergyWh(powerW, dt) else 0.0
      ensures deliveredWh == old(deliveredWh) + if dt > 0.0 && !exhausted then EnergyWh(powerW, dt) else 0.0
      ensures deliveredWh >= old(deliveredWh)
    {
      if dt > 0.0 { EnergyNotNegative(duties, dt); }
      if budgetWh > 0.0 && dt > 0.0 {
        energyWh := energyWh + EnergyWh(powerW, dt);
        if energyWh >= budgetWh { exhausted := true; }
      }
      if dt > 0.0 && !exhausted { deliveredWh := deliveredWh + EnergyWh(powerW, dt); }
    }

    // Best first, within the number and the power allowed.
    method Share(requested: seq<real>, deprioritize: bool) returns (duties: seq<real>, powerW: real)
      requires Valid()
      ensures WithinLimits(duties, requested) && Granted(duties, requested, deprioritize)
      ensures powerW == PowerW(duties)
    {
      var low := if deprioritize then electronics else None;
      var chosen := Choose(Clamped(requested), low, maxActive);
      powerW := TotalPower(chosen);
      duties := chosen;
      if powerW > maxThermalW && powerW > 0.000000001 {
        var factor := maxThermalW / powerW;
        duties := Times(chosen, factor);
        CutToLimit(Sum(chosen), nominalW, maxThermalW);
        Scaled(chosen, requested, factor);
        powerW := maxThermalW;
      } else {
        assert duties == Times(chosen, 1.0);
      }
    }

    method TotalPower(duties: seq<real>) returns (powerW: real)
      ensures powerW == PowerW(duties)
    {
      powerW := 0.0;
      for i := 0 to |duties|
        invariant powerW == PowerW(duties[..i])
      {
        assert duties[..i + 1][..i] == duties[..i];
        Distribute(Sum(duties[..i]), duties[i], nominalW);
        powerW := powerW + Watts(duties[i]);
      }
      assert duties[..|duties|] == duties;
    }

    // Cutting every duty by one factor cuts the power by it.
    lemma Scaled(chosen: seq<real>, requested: seq<real>, factor: real)
      requires Watts(Cut(Sum(chosen), factor)) == maxThermalW && 0.0 <= factor <= 1.0 && |chosen| == |requested|
      requires forall i :: 0 <= i < |chosen| ==> 0.0 <= chosen[i] <= Clamp01(requested[i])
      requires |On(chosen)| <= maxActive
      ensures PowerW(Times(chosen, factor)) == maxThermalW && WithinLimits(Times(chosen, factor), requested)
    {
      SumTimes(chosen, factor);
      TimesShrinks(chosen, factor);
    }

    static lemma CutToLimit(sum: real, watts: real, limit: real)
      requires 0.0 <= limit < sum * watts
      ensures 0.0 <= limit / (sum * watts) < 1.0
      ensures Cut(sum, limit / (sum * watts)) * watts == limit
    {
      var power := sum * watts;
      var factor := limit / power;
      assert power * factor == limit;
      assert (sum * factor) * watts == power * factor;
    }

    static lemma TimesShrinks(chosen: seq<real>, factor: real)
      requires 0.0 <= factor <= 1.0 && forall i :: 0 <= i < |chosen| ==> 0.0 <= chosen[i]
      ensures forall i :: 0 <= i < |chosen| ==> 0.0 <= Times(chosen, factor)[i] <= chosen[i]
      ensures |On(Times(chosen, factor))| <= |On(chosen)|
    {
      var duties := Times(chosen, factor);
      forall i | 0 <= i < |duties| ensures 0.0 <= duties[i] <= chosen[i] {
        assert duties[i] == Cut(chosen[i], factor);
        Shrinks(chosen[i], factor);
      }
      FewerOn(duties, chosen);
    }

    static lemma FewerOn(fewer: seq<real>, more: seq<real>)
      requires |fewer| == |more| && forall i :: 0 <= i < |more| ==> fewer[i] <= more[i]
      ensures |On(fewer)| <= |On(more)|
    {
      assert On(fewer) <= On(more);
      assert On(more) == On(fewer) + (On(more) - On(fewer));
    }

    lemma NoPower(n: nat)
      ensures PowerW(Zeros(n)) == 0.0 && On(Zeros(n)) == {}
    {
      SumOfZeros(n);
    }

    lemma EnergyNotNegative(duties: seq<real>, dt: real)
      requires nominalW >= 0.0 && dt > 0.0 && forall i :: 0 <= i < |duties| ==> duties[i] >= 0.0
      ensures EnergyWh(PowerW(duties), dt) >= 0.0
    {
      SumNotNegative(duties);
      assert Sum(duties) * nominalW >= 0.0;
      assert dt / 3600.0 > 0.0;
    }
  }
}
