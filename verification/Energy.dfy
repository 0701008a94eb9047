/** How much of an offered or requested amount of energy a store with a level takes or gives. */
module Energies {
  import opened Basics

  function AllowedEnergy(energy: int, bandwidth: Option<int>): int {
    if bandwidth.Some? then Min(energy, bandwidth.value) else energy
  }

  function CalcReceivedEnergy(stored: int, amount: int, bandwidth: Option<int>, capacity: int): (int, int) {
    var newStored := Min(stored + AllowedEnergy(amount, bandwidth), capacity);
    (newStored, newStored - stored)
  }

  function CalcConsumedEnergy(stored: int, amount: int, bandwidth: Option<int>): (int, int) {
    var newStored := Max(stored - AllowedEnergy(amount, bandwidth), 0);
    (newStored, stored - newStored)
  }

  predicate Sensible(amount: int, bandwidth: Option<int>) {
    0 <= amount && (bandwidth.Some? ==> 0 <= bandwidth.value)
  }

  /** A store takes between nothing and what it is offered, unless it is overfull: then it gives back. */
  lemma ReceivedWithinOffer(stored: int, amount: int, bandwidth: Option<int>, capacity: int)
    requires Sensible(amount, bandwidth)
    ensures var (level, used) := CalcReceivedEnergy(stored, amount, bandwidth, capacity);
      && level == stored + used && used <= amount
      && (0 <= used <==> stored <= capacity) && (stored <= capacity ==> stored <= level <= capacity)
  {
  }

  /** A store with room takes the smallest of the offer, its bandwidth if it has one, and the room. */
  lemma ReceivedIsSmallest(stored: int, amount: int, bandwidth: Option<int>, capacity: int)
    requires Sensible(amount, bandwidth) && stored <= capacity
    ensures var used, room := CalcReceivedEnergy(stored, amount, bandwidth, capacity).1, capacity - stored;
      && used <= amount && used <= room && (bandwidth.Some? ==> used <= bandwidth.value)
      && (used == amount || used == room || (bandwidth.Some? && used == bandwidth.value))
  {
  }

  /** A store yields exactly the smaller of the request and what it has usable. */
  lemma ConsumedIsUsable(stored: int, amount: int, bandwidth: Option<int>)
    requires Sensible(amount, bandwidth) && 0 <= stored
    ensures var (level, used) := CalcConsumedEnergy(stored, amount, bandwidth);
      level == stored - used && used == Min(amount, AllowedEnergy(stored, bandwidth)) && 0 <= level <= stored
  {
  }
}

/** One tick of the energy system of a cluster. */
module EnergySystems {
  import opened Basics
  import opened Grid
  import opened Energies

  /**
   A device that stores energy: an energy cell, whose level is known here, or any other, such as a
   battery bank, that keeps the contract of storages and receivers.
   */
  datatype Device = Cell(bandwidth: int, capacity: int) | Other

  /** What became of the energy in one tick, and what of it the energy cells gave and took. */
  datatype Balance = Balance(produced: int, drawn: int, consumed: int, received: int, spilled: int,
                             fromCells: int, toCells: int)

  /** A call of a device: what it was offered or asked for, and what it returned. */
  datatype Call =
    | Produced(pos: Vec, amount: int)
    | Consumed(pos: Vec, offer: int, amount: int)
    | Drew(pos: Vec, offer: int, amount: int)
    | Charged(pos: Vec, offer: int, amount: int)

  /** The calls of one tick. */
  datatype Calls = Calls(produce: seq<Call>, consume: seq<Call>, draw: seq<Call>, charge: seq<Call>)

  function SumOf(calls: seq<Call>): int {
    if calls == [] then 0 else SumOf(calls[..|calls| - 1]) + calls[|calls| - 1].amount
  }

  function Callees(calls: seq<Call>): set<Vec> {
    set c | c in calls :: c.pos
  }

  ghost predicate Once(calls: seq<Call>) {
    forall i, j :: 0 <= i < j < |calls| ==> calls[i].pos != calls[j].pos
  }

  /**
   Devices were called one after the other, each with what the others had left of a budget, until
   nothing was left or all of them had been called.
   */
  ghost predicate Shared(calls: seq<Call>, budget: int) {
    && Once(calls)
    && forall k :: 0 <= k < |calls| ==> !calls[k].Produced? && calls[k].offer == budget - SumOf(calls[..k]) > 0
  }

  ghost predicate Exhausted(calls: seq<Call>, budget: int, who: set<Vec>) {
    Callees(calls) <= who && (SumOf(calls) >= budget || Callees(calls) == who)
  }

  lemma OneMoreCall(calls: seq<Call>, c: Call, budget: int)
    requires Once(calls) && c.pos !in Callees(calls)
    ensures Once(calls + [c]) && SumOf(calls + [c]) == SumOf(calls) + c.amount
    ensures Callees(calls + [c]) == Callees(calls) + {c.pos}
    ensures Shared(calls, budget) && !c.Produced? && c.offer == budget - SumOf(calls) > 0 ==>
      Shared(calls + [c], budget)
  {
    assert (calls + [c])[..|calls|] == calls;
    OnceMore(calls, c);
    CalleesMore(calls, c);
    hide Once, Callees, Shared, SumOf;
    if Shared(calls, budget) && !c.Produced? && c.offer == budget - SumOf(calls) > 0 {
      SharedMore(calls, c, budget);
    }
  }

  lemma OnceMore(calls: seq<Call>, c: Call)
    requires Once(calls) && c.pos !in Callees(calls)
    ensures Once(calls + [c])
  {
    forall k | 0 <= k < |calls| ensures calls[k].pos in Callees(calls) {
      assert calls[k] in calls;
    }
  }

  lemma CalleesMore(calls: seq<Call>, c: Call)
    ensures Callees(calls + [c]) == Callees(calls) + {c.pos}
  {
  }

  lemma SharedMore(calls: seq<Call>, c: Call, budget: int)
    requires Shared(calls, budget) && Once(calls + [c]) && !c.Produced? && c.offer == budget - SumOf(calls) > 0
    ensures Shared(calls + [c], budget)
  {
    hide Once, SumOf;
    var more := calls + [c];
    assert more[..|calls|] == calls;
    forall k | 0 <= k < |calls| ensures more[..k] == calls[..k] {
    }
  }

  lemma NoCalls(budget: int, who: set<Vec>)
    ensures Once([]) && Shared([], budget) && Callees([]) == {} && SumOf([]) == 0
  {
  }

  /** The sum of some numbers, in any order. */
  ghost function Sum(s: set<Vec>, f: map<Vec, int>): int
    requires s <= f.Keys
  {
    if s == {} then 0 else var x :| x in s; f[x] + Sum(s - {x}, f)
  }

  lemma {:induction false} SumLess(s: set<Vec>, f: map<Vec, int>, x: Vec)
    requires x in s && s <= f.Keys
    ensures Sum(s, f) == f[x] + Sum(s - {x}, f)
  {
    var y :| y in s && Sum(s, f) == f[y] + Sum(s - {y}, f);
    if y != x {
      SumLess(s - {y}, f, x);
      SumLess(s - {x}, f, y);
      assert s - {y} - {x} == s - {x} - {y};
    }
  }

  lemma {:induction false} SumSame(s: set<Vec>, f: map<Vec, int>, g: map<Vec, int>)
    requires s <= f.Keys && s <= g.Keys && forall x :: x in s ==> f[x] == g[x]
    ensures Sum(s, f) == Sum(s, g)
  {
    if s != {} {
      var x :| x in s;
      SumLess(s, f, x);
      SumLess(s, g, x);
      SumSame(s - {x}, f, g);
    }
  }

  lemma SumUpdate(f: map<Vec, int>, x: Vec, v: int)
    requires x in f
    ensures Sum(f.Keys, f[x := v]) == Sum(f.Keys, f) - f[x] + v
  {
    SumLess(f.Keys, f, x);
    SumLess(f.Keys, f[x := v], x);
    SumSame(f.Keys - {x}, f, f[x := v]);
  }

  lemma {:induction false} SumNonNegative(s: set<Vec>, f: map<Vec, int>)
    requires s <= f.Keys && forall x :: x in s ==> f[x] >= 0
    ensures Sum(s, f) >= 0
  {
    if s != {} {
      var x :| x in s;
      SumLess(s, f, x);
      SumNonNegative(s - {x}, f);
    }
  }

  /** The nodes of a cluster that are listed in the groups of the energy system. */
  datatype Groups = Groups(producers: set<Vec>, storages: set<Vec>, consumers: set<Vec>, receivers: set<Vec>)

  class EnergySystem {
    const devices: map<Vec, Device>
    var levels: map<Vec, int>   // of the energy cells
    var reports: map<Vec, int>  // what the other storages report as usable
    var calls: seq<Call>        // the calls of devices, in order

    predicate Valid()
      reads this`levels, this`reports
    {
      && (forall p :: p in devices ==> if devices[p].Cell? then p in levels else p in reports && reports[p] >= 0)
      && forall p ::
        p in levels ==>
          p in devices && devices[p].Cell? && 0 <= levels[p] <= devices[p].capacity && 0 <= devices[p].bandwidth
    }

    ghost function Total(): int
      reads this`levels
    {
      Sum(levels.Keys, levels)
    }

    /** `get_usable_stored_energy`: a cell offers its level up to its bandwidth, another device what it likes. */
    function Usable(p: Vec): int
      requires Valid() && p in devices
      reads this`levels, this`reports
    {
      if devices[p].Cell? then Min(levels[p], devices[p].bandwidth) else reports[p]
    }

    ghost function UsableOf(s: set<Vec>): int
      requires Valid() && s <= devices.Keys
      reads this`levels, this`reports
    {
      Sum(s, map p | p in devices :: Usable(p))
    }

    lemma UsableLess(s: set<Vec>, x: Vec)
      requires Valid() && s <= devices.Keys && x in s
      ensures UsableOf(s) == Usable(x) + UsableOf(s - {x})
    {
      SumLess(s, map p | p in devices :: Usable(p), x);
    }

    lemma NothingUsable()
      requires Valid()
      ensures UsableOf({}) == 0
    {
    }

    lemma UsableNonNegative(s: set<Vec>)
      requires Valid() && s <= devices.Keys
      ensures UsableOf(s) >= 0
    {
      SumNonNegative(s, map p | p in devices :: Usable(p));
    }

    constructor (devices: map<Vec, Device>)
      requires forall p :: p in devices && devices[p].Cell? ==> 0 <= devices[p].capacity && 0 <= devices[p].bandwidth
      ensures Valid() && this.devices == devices && forall p :: p in levels ==> levels[p] == 0
      ensures calls == []
    {
      this.devices, calls := devices, [];
      levels := map p | p in devices && devices[p].Cell? :: 0;
      reports := map p | p in devices && devices[p].Other? :: 0;
    }

    /** A producer returns what it produced, nothing at least. */
    method ProduceEnergy(p: Vec) returns (amount: int)
      modifies this`calls
      ensures amount >= 0 && calls == old(calls) + [Produced(p, amount)]
    {
      amount :| amount >= 0;
      calls := calls + [Produced(p, amount)];
    }

    /** A consumer takes no more than it is offered. */
    method ConsumeEnergy(p: Vec, available: int) returns (amount: int)
      requires available >= 0
      modifies this`calls
      ensures 0 <= amount <= available && calls == old(calls) + [Consumed(p, available, amount)]
    {
      amount :| 0 <= amount <= available;
      calls := calls + [Consumed(p, available, amount)];
    }

    /**
     A storage yields the smaller of the request and what it has usable, and what it has usable
     then is its own affair.
     */
    method UseStoredEnergy(p: Vec, amount: int) returns (used: int)
      requires Valid() && p in devices && amount >= 0
      modifies this
      ensures Valid() && used == Min(amount, old(Usable(p)))
      ensures forall q :: q in devices && q != p ==> Usable(q) == old(Usable(q))
      ensures Total() == old(Total()) - if devices[p].Cell? then used else 0
      ensures levels == if devices[p].Cell? then old(levels)[p := old(levels)[p] - used] else old(levels)
      ensures calls == old(calls) + [Drew(p, amount, used)]
    {
      if devices[p].Cell? {
        ConsumedIsUsable(levels[p], amount, Some(devices[p].bandwidth));
        SumUpdate(levels, p, levels[p] - Min(amount, Usable(p)));
        var (level, consumed) := CalcConsumedEnergy(levels[p], amount, Some(devices[p].bandwidth));
        levels := levels[p := level];
        assert levels.Keys == old(levels.Keys);
        used := consumed;
      } else {
        used := Min(amount, reports[p]);
        var report: int :| report >= 0;
        reports := reports[p := report];
      }
      calls := calls + [Drew(p, amount, used)];
    }

    /**
     A receiver takes between nothing and what it is offered; a cell takes the smallest of the offer,
     its bandwidth and the room it has.
     */
    method ReceiveEnergy(p: Vec, amount: int) returns (used: int)
      requires Valid() && p in devices && amount >= 0
      modifies this
      ensures Valid() && 0 <= used <= amount
      ensures Total() == old(Total()) + if devices[p].Cell? then used else 0
      ensures levels == if devices[p].Cell? then old(levels)[p := old(levels)[p] + used] else old(levels)
      ensures devices[p].Cell? ==>
        used == Min(Min(amount, devices[p].bandwidth), devices[p].capacity - old(levels)[p])
      ensures calls == old(calls) + [Charged(p, amount, used)]
    {
      if devices[p].Cell? {
        ReceivedIsSmallest(levels[p], amount, Some(devices[p].bandwidth), devices[p].capacity);
        ReceivedWithinOffer(levels[p], amount, Some(devices[p].bandwidth), devices[p].capacity);
        var (level, received) := CalcReceivedEnergy(levels[p], amount, Some(devices[p].bandwidth), devices[p].capacity);
        SumUpdate(levels, p, level);
        levels := levels[p := level];
        assert levels.Keys == old(levels.Keys);
        used := received;
      } else {
        used :| 0 <= used <= amount;
        var report: int :| report >= 0;
        reports := reports[p := report];
      }
      calls := calls + [Charged(p, amount, used)];
    }

    /** The sum of what the producers return, each of which is called once. */
    method CalcEnergyProduced(g: Groups) returns (produced: int, ghost news: seq<Call>)
      modifies this`calls
      ensures produced >= 0 && calls == old(calls) + news
      ensures Once(news) && Callees(news) == g.producers && SumOf(news) == produced
      ensures forall c :: c in news ==> c.Produced?
    {
      hide Once, Callees, SumOf;
      produced, news := 0, [];
      NoCalls(0, {});
      var todo := g.producers;
      while todo != {}
        invariant produced >= 0 && calls == old(calls) + news && todo <= g.producers
        invariant Once(news) && Callees(news) == g.producers - todo && SumOf(news) == produced
        invariant forall c :: c in news ==> c.Produced?
        decreases todo
      {
        var p :| p in todo;
        var amount := ProduceEnergy(p);
        OneMoreCall(news, Produced(p, amount), 0);
        produced, news := produced + amount, news + [Produced(p, amount)];
        todo := todo - {p};
      }
    }

    method CalcEnergyStored(g: Groups) returns (stored: int)
      requires Valid() && g.storages <= devices.Keys
      ensures stored == UsableOf(g.storages) >= 0
    {
      stored := 0;
      var todo := g.storages;
      while todo != {}
        invariant todo <= g.storages && stored + UsableOf(todo) == UsableOf(g.storages)
        decreases todo
      {
        var p :| p in todo;
        UsableLess(todo, p);
        stored := stored + Usable(p);
        todo := todo - {p};
      }
      UsableNonNegative(g.storages);
    }

    /** The consumers are called with what is left, until nothing is. */
    method RunConsumeEnergy(available0: int, g: Groups) returns (consumed: int, available: int, ghost news: seq<Call>)
      requires available0 >= 0
      modifies this`calls
      ensures consumed >= 0 && available >= 0 && consumed + available == available0 && calls == old(calls) + news
      ensures Shared(news, available0) && Exhausted(news, available0, g.consumers) && SumOf(news) == consumed
      ensures forall c :: c in news ==> c.Consumed?
    {
      hide Shared, Callees, SumOf;
      consumed, available, news := 0, available0, [];
      NoCalls(available0, {});
      if available > 0 {
        var todo := g.consumers;
        while todo != {}
          invariant consumed >= 0 && available > 0 && consumed + available == available0 && calls == old(calls) + news
          invariant todo <= g.consumers && Shared(news, available0) && SumOf(news) == consumed
          invariant Callees(news) == g.consumers - todo && forall c :: c in news ==> c.Consumed?
          decreases todo
        {
          var p :| p in todo;
          todo := todo - {p};
          var amount := ConsumeEnergy(p, available);
          SharedIsOnce(news, available0);
          OneMoreCall(news, Consumed(p, available, amount), available0);
          news := news + [Consumed(p, available, amount)];
          available, consumed := available - amount, consumed + amount;
          if available <= 0 {
            break;
          }
        }
      }
    }

    lemma SharedIsOnce(news: seq<Call>, budget: int)
      requires Shared(news, budget)
      ensures Once(news)
    {
    }

    /** One storage is drawn from; the others have as much usable as before. */
    method DrawFrom(p: Vec, wanted: int, ghost rest: set<Vec>) returns (used: int)
      requires Valid() && p in devices && rest <= devices.Keys && p !in rest && wanted >= 0
      modifies this
      ensures Valid() && used == Min(wanted, old(Usable(p))) && UsableOf(rest) == old(UsableOf(rest))
      ensures Total() == old(Total()) - if devices[p].Cell? then used else 0
      ensures calls == old(calls) + [Drew(p, wanted, used)]
    {
      ghost var before := map q | q in devices :: Usable(q);
      used := UseStoredEnergy(p, wanted);
      SumSame(rest, before, map q | q in devices :: Usable(q));
    }

    /** Draws the request, or all there is if that is less, in any order; `given` is the part of the cells. */
    method RunUseStoredEnergy(request: int, g: Groups)
      returns (ghost drawn: int, ghost given: int, ghost news: seq<Call>)
      requires Valid() && g.storages <= devices.Keys && request >= 0
      modifies this
      ensures Valid() && drawn == Min(request, old(UsableOf(g.storages))) && 0 <= given <= drawn
      ensures Total() == old(Total()) - given
      ensures (forall p :: p in g.storages ==> devices[p].Cell?) ==> given == drawn
      ensures calls == old(calls) + news && SumOf(news) == drawn
      ensures Shared(news, request) && Exhausted(news, request, g.storages) && forall c :: c in news ==> c.Drew?
    {
      hide EnergySystem.Total, EnergySystem.UsableOf, Shared, Callees, SumOf;
      UsableNonNegative(g.storages);
      var wanted := request;
      drawn, given, news := 0, 0, [];
      NoCalls(request, {});
      if wanted > 0 {
        var todo := g.storages;
        while todo != {}
          invariant Valid() && todo <= g.storages && wanted > 0
          invariant Min(wanted, UsableOf(todo)) + drawn == Min(request, old(UsableOf(g.storages)))
          invariant drawn == request - wanted && 0 <= given <= drawn && Total() == old(Total()) - given
          invariant (forall p :: p in g.storages ==> devices[p].Cell?) ==> given == drawn
          invariant calls == old(calls) + news && SumOf(news) == drawn && Shared(news, request)
          invariant Callees(news) == g.storages - todo && forall c :: c in news ==> c.Drew?
          decreases todo
        {
          var p :| p in todo;
          UsableLess(todo, p);
          todo := todo - {p};
          UsableNonNegative(todo);
          var used := DrawFrom(p, wanted, todo);
          SharedIsOnce(news, request);
          OneMoreCall(news, Drew(p, wanted, used), request);
          news := news + [Drew(p, wanted, used)];
          wanted, drawn, given := wanted - used, drawn + used, given + if devices[p].Cell? then used else 0;
          if wanted <= 0 {
            break;
          }
        }
        NothingUsable();
      }
    }

    /** The cell is full, or has taken all that it can in a tick. */
    predicate Sated(p: Vec, before: map<Vec, int>)
      requires p in devices && devices[p].Cell? && p in levels && p in before
      reads this`levels
    {
      levels[p] == devices[p].capacity || levels[p] == before[p] + devices[p].bandwidth
    }

    /**
     What is no longer left was received; `taken` is the part of the cells. If anything is left, every
     cell is full or has taken its bandwidth.
     */
    method RunReceiveEnergy(left0: int, g: Groups) returns (ghost left: int, ghost taken: int, ghost news: seq<Call>)
      requires Valid() && g.receivers <= devices.Keys && left0 >= 0
      modifies this
      ensures Valid() && 0 <= left <= left0 && 0 <= taken <= left0 - left && Total() == old(Total()) + taken
      ensures (forall p :: p in g.receivers ==> devices[p].Cell?) ==> taken == left0 - left
      ensures calls == old(calls) + news && SumOf(news) == left0 - left
      ensures Shared(news, left0) && Exhausted(news, left0, g.receivers) && forall c :: c in news ==> c.Charged?
      ensures left > 0 ==> forall p :: p in g.receivers && devices[p].Cell? ==> Sated(p, old(levels))
    {
      hide EnergySystem.Total, Shared, Callees, SumOf;
      var energyLeft := left0;
      taken, news := 0, [];
      NoCalls(left0, {});
      if energyLeft > 0 {
        var todo := g.receivers;
        while todo != {}
          invariant Valid() && todo <= g.receivers && 0 < energyLeft <= left0
          invariant 0 <= taken <= left0 - energyLeft && Total() == old(Total()) + taken
          invariant (forall p :: p in g.receivers ==> devices[p].Cell?) ==> taken == left0 - energyLeft
          invariant calls == old(calls) + news && SumOf(news) == left0 - energyLeft && Shared(news, left0)
          invariant Callees(news) == g.receivers - todo && forall c :: c in news ==> c.Charged?
          invariant forall p :: p in g.receivers - todo && devices[p].Cell? ==> Sated(p, old(levels))
          invariant forall p :: p in todo && devices[p].Cell? ==> levels[p] == old(levels)[p]
          decreases todo
        {
          var p :| p in todo;
          todo := todo - {p};
          var received := ReceiveEnergy(p, energyLeft);
          SharedIsOnce(news, left0);
          OneMoreCall(news, Charged(p, energyLeft, received), left0);
          news := news + [Charged(p, energyLeft, received)];
          energyLeft, taken := energyLeft - received, taken + if devices[p].Cell? then received else 0;
          if energyLeft <= 0 {
            break;
          }
        }
      }
      left := energyLeft;
    }

    /**
     One tick neither makes nor loses energy but for what it spills, whatever the devices and in any
     order of them: storages give exactly what consumption exceeds production by, and no tick both
     draws from the storages and charges. What the cells hold changes by their part of it, which is
     all of it when all storages and receivers are cells.
     */
    method Update(g: Groups) returns (ghost t: Balance, ghost c: Calls)
      requires Valid() && g.storages <= devices.Keys && g.receivers <= devices.Keys
      modifies this
      ensures Valid() && t.produced >= 0 && t.consumed >= 0 && t.received >= 0 && t.spilled >= 0
      ensures t.produced + t.drawn == t.consumed + t.received + t.spilled
      ensures t.drawn == Max(0, t.consumed - t.produced) <= old(UsableOf(g.storages))
      ensures t.drawn == 0 || t.received == 0
      ensures Total() == old(Total()) - t.fromCells + t.toCells
      ensures 0 <= t.fromCells <= t.drawn && 0 <= t.toCells <= t.received
      ensures (forall p :: p in g.storages ==> devices[p].Cell?) ==> t.fromCells == t.drawn
      ensures (forall p :: p in g.receivers ==> devices[p].Cell?) ==> t.toCells == t.received
      ensures calls == old(calls) + c.produce + c.consume + c.draw + c.charge
      ensures Once(c.produce) && Callees(c.produce) == g.producers && SumOf(c.produce) == t.produced
      ensures Round(c.consume, old(UsableOf(g.storages)) + t.produced, g.consumers, t.consumed)
      ensures Round(c.draw, Max(0, t.consumed - t.produced), g.storages, t.drawn)
      ensures Round(c.charge, Max(0, t.produced - t.consumed), g.receivers, t.received)
      ensures t.spilled > 0 ==> forall p :: p in g.receivers && devices[p].Cell? ==> Sated(p, old(levels))
    {
      hide EnergySystem.Total, Shared, Exhausted, SumOf, EnergySystem.UsableOf, Once, Callees;
      ghost var ps, cs, ds, rs: seq<Call>;
      var produced, stored, consumed, available;
      produced, ps := CalcEnergyProduced(g);
      stored := CalcEnergyStored(g);
      consumed, available, cs := RunConsumeEnergy(stored + produced, g);
      var storeUsed := consumed - produced;
      ghost var drawn, given := 0, 0;
      ds, rs := [], [];
      NoRound(g.storages);
      NoRound(g.receivers);
      if storeUsed > 0 {
        drawn, given, ds := RunUseStoredEnergy(storeUsed, g);
      }
      ghost var spilled, taken := Max(0, produced - consumed), 0;
      if available > 0 {
        var left := produced - consumed;
        if left > 0 {
          spilled, taken, rs := RunReceiveEnergy(left, g);
        }
      }
      t := Balance(produced, drawn, consumed, Max(0, produced - consumed) - spilled, spilled, given, taken);
      c := Calls(ps, cs, ds, rs);
    }
  }

  /** Devices shared a budget until it was exhausted, and took some of it together. */
  ghost predicate Round(calls: seq<Call>, budget: int, who: set<Vec>, taken: int) {
    Shared(calls, budget) && Exhausted(calls, budget, who) && SumOf(calls) == taken
  }

  lemma NoRound(who: set<Vec>)
    ensures Round([], 0, who, 0)
  {
  }
}
