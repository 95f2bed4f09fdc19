/** No command and no pass of the timer makes a city richer, and stores never fall below zero, as long as
    batches have no negative counts. */
module Solvency {
  import opened Economy
  import opened World
  import opened Construction
  import opened Ledger
  import opened LedgerSteps
  import Training

  ghost predicate Whole(q: Training.Queue)
  {
    forall j | 0 <= j < |q.queue| :: q.queue[j].count >= 0
  }

  ghost predicate Stocked(r: Res)
  {
    forall k: Kind :: r.Of(k) >= 0.0
  }

  lemma StockedFields(r: Res)
    ensures Stocked(r) <==> r.gold >= 0.0 && r.food >= 0.0 && r.wood >= 0.0 && r.stone >= 0.0 && r.iron >= 0.0
  {
    assert r.Of(Gold) == r.gold && r.Of(Food) == r.food && r.Of(Wood) == r.wood && r.Of(Stone) == r.stone;
    assert r.Of(Iron) == r.iron;
  }

  ghost predicate Solvent(x: City)
  {
    Stocked(x.res) && forall i | 0 <= i < |x.queues| :: Whole(x.queues[i])
  }

  ghost predicate AllSolvent(w: Shape)
  {
    forall c | 0 <= c < |w.cities| :: Solvent(w.cities[c])
  }

  ghost predicate NoRicher(p: Prices, x: City, y: City)
  {
    forall k: Kind :: Worth(p, k, y) <= Worth(p, k, x)
  }

  ghost predicate NoGain(p: Prices, w: Shape, v: Shape)
  {
    |v.cities| == |w.cities| && forall c | 0 <= c < |w.cities| :: NoRicher(p, w.cities[c], v.cities[c])
  }

  /** Both, with only city `c` touched. */
  lemma AtCity(p: Prices, w: Shape, v: Shape, c: nat)
    requires AllSolvent(w) && c < |w.cities| == |v.cities| && v.cities == w.cities[c := v.cities[c]]
    requires Solvent(v.cities[c]) && NoRicher(p, w.cities[c], v.cities[c])
    ensures AllSolvent(v) && NoGain(p, w, v)
  {
    hide Solvent, Worth;
  }

  lemma Same(p: Prices, w: Shape)
    requires AllSolvent(w)
    ensures NoGain(p, w, w)
  {
  }

  lemma NoGainTrans(p: Prices, u: Shape, v: Shape, w: Shape)
    requires NoGain(p, u, v) && NoGain(p, v, w)
    ensures NoGain(p, u, w)
  {
    hide Worth;
    forall c | 0 <= c < |u.cities| ensures NoRicher(p, u.cities[c], w.cities[c]) {
      assert NoRicher(p, u.cities[c], v.cities[c]) && NoRicher(p, v.cities[c], w.cities[c]);
    }
  }

  lemma BatchesAreWorth(p: Prices, k: Kind, q: Training.Queue)
    requires Whole(q)
    ensures QueueWorth(p, k, q) >= 0
    ensures forall j | 0 <= j < |q.queue| :: BatchWorth(p, k, q.queue[j]) >= 0
  {
    forall j | 0 <= j < |q.queue| ensures BatchWorth(p, k, q.queue[j]) >= 0 {
      Scaled(p.troop(q.queue[j].troopid).Of(k), q.queue[j].count);
    }
    SumBound(Batches(p, k, q));
  }

  lemma Scaled(a: nat, b: nat)
    ensures a * b >= 0
  {
  }

  lemma {:induction false} StandingIsWorth(p: Prices, k: Kind, typ: int, level: int)
    ensures Standing(p, k, typ, level) >= 0
    decreases level
  {
    if level > 0 { StandingIsWorth(p, k, typ, level - 1); }
  }

  lemma LostIsWorth(p: Prices, k: Kind, x: City, typ: int, level: int, position: int)
    requires Solvent(x)
    ensures Lost(p, k, x, typ, level, position) >= 0
  {
    var i := QueueAt(x.queues, position);
    if i >= 0 { BatchesAreWorth(p, k, x.queues[i]); }
  }

  lemma SetBuildingSolvent(x: City, typ: int, level: int, position: int, status: int, starttime: int, endtime: int)
    requires |x.buildings| == 76 && Solvent(x)
    ensures Solvent(SetBuilding(x, typ, level, position, status, starttime, endtime))
  {
    var r := SetQueues(x.queues, typ, level, position);
    hide QueueAt, Whole;
    forall i | 0 <= i < |r| ensures Whole(r[i]) {
      if !(r[i] in x.queues) { EmptyWhole(r[i]); }
    }
  }

  lemma EmptyWhole(q: Training.Queue)
    requires q.queue == []
    ensures Whole(q)
  {
  }

  lemma Paid(r: Res, price: Res)
    requires r.Affords(price)
    ensures Stocked(r.Minus(price))
  {
  }

  lemma Given(r: Res, b: Res)
    requires Stocked(r) && Stocked(b)
    ensures Stocked(r.Plus(b))
  {
  }

  lemma NewBuildingPays(p: Prices, w: Shape, c: nat, typ: int, position: int, allowed: bool, duration: int, now: int)
    requires BuildInv(w) && AllSolvent(w) && c < |w.cities|
    ensures var v := NewBuilding(p, w, c, typ, position, allowed, duration, now);
      AllSolvent(v) && NoGain(p, w, v)
  {
    var v := NewBuilding(p, w, c, typ, position, allowed, duration, now);
    if v == w { Same(p, w); } else {
      var x := w.cities[c];
      var z := x.(res := x.res.Minus(p.building(typ, 0).Times(1)));
      Paid(x.res, p.building(typ, 0).Times(1));
      assert v.cities == w.cities[c := SetBuilding(z, typ, 0, position, 1, now, now + duration)];
      hide BuildInv, Worth, SetBuilding, NewBuilding, Lost;
      SetBuildingSolvent(z, typ, 0, position, 1, now, now + duration);
      forall k ensures Worth(p, k, v.cities[c]) <= Worth(p, k, x) {
        NewBuildingWorth(p, k, w, c, typ, position, allowed, duration, now);
        LostIsWorth(p, k, x, typ, 0, position);
      }
      AtCity(p, w, v, c);
    }
  }

  lemma UpgradePays(p: Prices, w: Shape, c: nat, position: int, allowed: bool, duration: int, now: int)
    requires BuildInv(w) && AllSolvent(w) && c < |w.cities|
    ensures var v := UpgradeBuilding(p, w, c, position, allowed, duration, now);
      AllSolvent(v) && NoGain(p, w, v)
  {
    var v := UpgradeBuilding(p, w, c, position, allowed, duration, now);
    if v == w { Same(p, w); } else {
      var x := w.cities[c];
      var b := x.buildings[Slot(position)];
      var z := x.(res := x.res.Minus(p.building(b.typ, b.level).Times(1)));
      Paid(x.res, p.building(b.typ, b.level).Times(1));
      assert v.cities == w.cities[c := SetBuilding(z, b.typ, b.level, position, 1, now, now + duration)];
      hide BuildInv, Worth, SetBuilding, UpgradeBuilding, Lost;
      SetBuildingSolvent(z, b.typ, b.level, position, 1, now, now + duration);
      forall k ensures Worth(p, k, v.cities[c]) <= Worth(p, k, x) {
        UpgradeWorth(p, k, w, c, position, allowed, duration, now);
        LostIsWorth(p, k, x, b.typ, b.level, position);
      }
      AtCity(p, w, v, c);
    }
  }

  lemma DestructPays(p: Prices, w: Shape, c: nat, position: int, duration: int, now: int)
    requires BuildInv(w) && AllSolvent(w) && c < |w.cities|
    ensures var v := DestructBuilding(w, c, position, duration, now);
      AllSolvent(v) && NoGain(p, w, v)
  {
    var v := DestructBuilding(w, c, position, duration, now);
    if v == w { Same(p, w); } else {
      var x := w.cities[c];
      var b := x.buildings[Slot(position)];
      assert v.cities == w.cities[c := SetBuilding(x, b.typ, b.level, position, 2, now, now + duration)];
      hide BuildInv, Worth, SetBuilding, DestructBuilding;
      SetBuildingSolvent(x, b.typ, b.level, position, 2, now, now + duration);
      forall k ensures Worth(p, k, v.cities[c]) <= Worth(p, k, x) {
        DestructWorth(p, k, w, c, position, duration, now);
      }
      AtCity(p, w, v, c);
    }
  }

  lemma SettleSolvent(x: City, b: Building, position: int)
    requires |x.buildings| == 76 && Solvent(x)
    ensures Solvent(Settle(x, b, position))
  {
    hide SetBuilding, Solvent;
    SetBuildingSolvent(x, 0, 0, position, 0, 0, 0);
    SetBuildingSolvent(x, b.typ, b.level, position, 0, 0, 0);
  }

  lemma CancelPays(p: Prices, w: Shape, position: int)
    requires BuildInv(w) && AllSolvent(w)
    ensures var v := CancelBuilding(w, position);
      AllSolvent(v) && NoGain(p, w, v)
  {
    var v := CancelBuilding(w, position);
    if v == w { Same(p, w); } else {
      var c := w.buildlist[EventAt(w.buildlist, position)].city;
      var x := w.cities[c];
      var b := x.buildings[Slot(position)];
      var z := x.(buildings := x.buildings[Slot(position) := b.(status := 0)]);
      assert v.cities == w.cities[c := Settle(z, b, position)];
      hide BuildInv, Worth, Settle, CancelBuilding;
      SettleSolvent(z, b, position);
      forall k ensures Worth(p, k, v.cities[c]) <= Worth(p, k, x) { CancelBuildingWorth(p, k, w, position); }
      AtCity(p, w, v, c);
    }
  }

  lemma ThirdStocked(c: Cost, n: nat)
    ensures Stocked(c.Third(n)) && Stocked(c.Times(n)) && Stocked(c.ExactThird())
  {
    forall k: Kind ensures c.Third(n).Of(k) >= 0.0 && c.Times(n).Of(k) >= 0.0 { Scaled(c.Of(k), n); }
  }

  lemma FinishPays(p: Prices, w: Shape, i: nat)
    requires BuildInv(w) && AllSolvent(w) && i < |w.buildlist|
    ensures var v := FinishBuilding(p, w, i);
      AllSolvent(v) && NoGain(p, w, v)
  {
    var v := FinishBuilding(p, w, i);
    var e := w.buildlist[i];
    var x := w.cities[e.city];
    var b := x.buildings[Slot(e.position)];
    var z := x.(res := x.res.Plus(p.building(b.typ, b.level - 1).Third(1)));
    assert v.cities == w.cities[e.city :=
      if b.status == 1 then SetBuilding(x, b.typ, b.level + 1, e.position, 0, 0, 0)
      else Settle(z, b.(level := b.level - 1), e.position)];
    ThirdStocked(p.building(b.typ, b.level - 1), 1);
    Given(x.res, p.building(b.typ, b.level - 1).Third(1));
    hide BuildInv, Worth, SetBuilding, Settle, FinishBuilding;
    SetBuildingSolvent(x, b.typ, b.level + 1, e.position, 0, 0, 0);
    SettleSolvent(z, b.(level := b.level - 1), e.position);
    forall k ensures Worth(p, k, v.cities[e.city]) <= Worth(p, k, x) { FinishWorth(p, k, w, i); }
    AtCity(p, w, v, e.city);
  }

  lemma {:induction false} BuildingPassPays(p: Prices, w: Shape, i: nat, now: int)
    requires BuildInv(w) && AllSolvent(w)
    ensures var v := BuildingPass(p, w, i, now);
      AllSolvent(v) && NoGain(p, w, v)
    decreases |w.buildlist| - i
  {
    hide BuildInv, FinishBuilding, AllSolvent, NoGain;
    if i >= |w.buildlist| { Same(p, w); } else {
      var e := w.buildlist[i];
      var b := w.cities[e.city].buildings[Slot(e.position)];
      if b.endtime < now && (b.status == 1 || b.status == 2) {
        var u := FinishBuilding(p, w, i);
        FinishInv(p, w, i);
        FinishPays(p, w, i);
        FinishShrinks(p, w, i);
        BuildingPassPays(p, u, i, now);
        NoGainTrans(p, w, u, BuildingPass(p, u, i, now));
      } else {
        BuildingPassPays(p, w, i + 1, now);
      }
    }
  }

  lemma SpeedUpPays(p: Prices, w: Shape, c: nat, position: int, reduce: int)
    requires BuildInv(w) && AllSolvent(w) && c < |w.cities|
    ensures var v := SpeedUpItem(w, c, position, reduce);
      AllSolvent(v) && NoGain(p, w, v)
    ensures var v := SpeedUpFree(w, c, position);
      AllSolvent(v) && NoGain(p, w, v)
  {
    Same(p, w);
    if Slot(position) >= 0 {
      SpeedUpFreePays(p, w, c, position);
      SpeedUpItemPays(p, w, c, position, reduce);
    }
  }

  lemma SpeedUpFreePays(p: Prices, w: Shape, c: nat, position: int)
    requires BuildInv(w) && AllSolvent(w) && c < |w.cities| && Slot(position) >= 0
    ensures var v := SpeedUpFree(w, c, position);
      AllSolvent(v) && NoGain(p, w, v)
  {
    var v := SpeedUpFree(w, c, position);
    assert Solvent(w.cities[c]) && v.cities[c].res == w.cities[c].res && v.cities[c].queues == w.cities[c].queues;
    assert v.cities == w.cities[c := v.cities[c]];
    hide BuildInv, Worth, SpeedUpFree;
    forall k ensures Worth(p, k, v.cities[c]) <= Worth(p, k, w.cities[c]) { SpeedUpFreeWorth(p, k, w, c, position); }
    AtCity(p, w, v, c);
  }

  lemma SpeedUpItemPays(p: Prices, w: Shape, c: nat, position: int, reduce: int)
    requires BuildInv(w) && AllSolvent(w) && c < |w.cities| && Slot(position) >= 0
    ensures var v := SpeedUpItem(w, c, position, reduce);
      AllSolvent(v) && NoGain(p, w, v)
  {
    var x := w.cities[c];
    var o := x.buildings[Slot(position)];
    var b := o.(endtime := o.endtime - reduce);
    var v := SpeedUpItem(w, c, position, reduce);
    var z := x.(buildings := x.buildings[Slot(position) := b]);
    assert v.cities == w.cities[c := SetBuilding(z, b.typ, b.level, b.id, b.status, b.starttime, b.endtime)];
    assert SlotsOk(x) && SlotOk(x.buildings[2], 2);
    hide BuildInv, SlotsOk, Worth, SetBuilding, SpeedUpItem, Lost;
    SetBuildingSolvent(z, b.typ, b.level, b.id, b.status, b.starttime, b.endtime);
    forall k ensures Worth(p, k, v.cities[c]) <= Worth(p, k, x) {
      SpeedUpItemWorth(p, k, w, c, position, reduce);
      LostIsWorth(p, k, x, o.typ, o.level, position);
      StandingIsWorth(p, k, x.buildings[2].typ, x.buildings[2].level);
    }
    AtCity(p, w, v, c);
  }

  lemma IncomeKeeps(w: Shape, c: nat, gain: Res)
    requires AllSolvent(w) && c < |w.cities| && Stocked(w.cities[c].res.Plus(gain))
    ensures AllSolvent(Income(w, c, gain))
  {
    hide Whole, Stocked;
    var v := Income(w, c, gain);
    forall d | 0 <= d < |w.cities| ensures Solvent(v.cities[d]) { assert Solvent(w.cities[d]); }
  }

  // ---- Training -------------------------------------------------------------------------------------

  lemma ProducePays(p: Prices, w: Shape, c: nat, position: int, troopid: int, count: nat, unit: int, now: int)
    requires AllSolvent(w) && c < |w.cities|
    ensures var v := Produce(p, w, c, position, troopid, count, unit, now);
      AllSolvent(v) && NoGain(p, w, v)
  {
    var v := Produce(p, w, c, position, troopid, count, unit, now);
    if v == w { Same(p, w); } else {
      var x := w.cities[c];
      ProduceSolvent(p, x, v.cities[c], position, troopid, count, unit, now);
      assert v.cities == w.cities[c := v.cities[c]];
      hide Worth, Produce, QueueAt, Solvent;
      forall k ensures Worth(p, k, v.cities[c]) <= Worth(p, k, x) {
        ProduceWorth(p, k, w, c, position, troopid, count, unit, now);
        Scaled(p.troop(troopid).Of(k), count);
      }
      AtCity(p, w, v, c);
    }
  }

  lemma ProduceSolvent(p: Prices, x: City, y: City, position: int, troopid: int, count: nat, unit: int, now: int)
    requires Solvent(x) && |x.buildings| == 76 && QueueAt(x.queues, position) >= 0 && Slot(position) >= 0
    requires x.res.Affords(p.troop(troopid).Times(count))
    requires var i := QueueAt(x.queues, position);
      y == x.(res := x.res.Minus(p.troop(troopid).Times(count)),
              queues := x.queues[i := Training.Add(x.queues[i], x.buildings[Slot(position)].level, troopid, count,
                  unit, now)])
    ensures Solvent(y)
  {
    var i := QueueAt(x.queues, position);
    hide QueueAt;
    Paid(x.res, p.troop(troopid).Times(count));
    assert Whole(y.queues[i]) by { assert Whole(x.queues[i]); }
    hide Whole, Stocked;
  }

  lemma CancelProducePays(p: Prices, w: Shape, c: nat, position: int, queueid: int, now: int)
    requires AllSolvent(w) && c < |w.cities|
    ensures var v := CancelProduce(p, w, c, position, queueid, now);
      AllSolvent(v) && NoGain(p, w, v)
  {
    var v := CancelProduce(p, w, c, position, queueid, now);
    if v == w { Same(p, w); } else {
      var x := w.cities[c];
      var i := QueueAt(x.queues, position);
      var j := Training.IndexOf(x.queues[i].queue, queueid);
      var t := x.queues[i].queue[j];
      assert v.cities == w.cities[c := v.cities[c]];
      assert Whole(x.queues[i]) && t.count >= 0;
      CancelProduceSolvent(p, x, v.cities[c], i, j, now);
      hide Worth, CancelProduce, Solvent;
      forall k ensures Worth(p, k, v.cities[c]) <= Worth(p, k, x) {
        CancelProduceWorth(p, k, w, c, position, queueid, now);
        Scaled(p.troop(t.troopid).Of(k), t.count);
      }
      AtCity(p, w, v, c);
    }
  }

  lemma CancelProduceSolvent(p: Prices, x: City, y: City, i: nat, j: nat, now: int)
    requires Solvent(x) && i < |x.queues| && j < |x.queues[i].queue|
    requires var t := x.queues[i].queue[j];
      y == x.(res := x.res.Plus(if t.endtime > 0 then p.troop(t.troopid).Third(t.count)
          else p.troop(t.troopid).Times(t.count)),
              queues := x.queues[i := Training.Remove(x.queues[i], j, now)])
    ensures Solvent(y)
  {
    var q := x.queues[i];
    var t := q.queue[j];
    assert Whole(q) && t.count >= 0;
    ThirdStocked(p.troop(t.troopid), t.count);
    Given(x.res, p.troop(t.troopid).Third(t.count));
    Given(x.res, p.troop(t.troopid).Times(t.count));
    RemoveWhole(q, j, now);
    hide Whole, Stocked, Training.Remove;
  }

  lemma RemoveWhole(q: Training.Queue, j: nat, now: int)
    requires Whole(q) && j < |q.queue|
    ensures Whole(Training.Remove(q, j, now))
  {
    var r := Training.Remove(q, j, now);
    RemoveCounts(q, j, now);
    hide Training.Remove;
    forall i | 0 <= i < |r.queue| ensures r.queue[i].count >= 0 {
      assert q.queue[if i < j then i else i + 1].count >= 0;
    }
  }

  lemma RemoveCounts(q: Training.Queue, j: nat, now: int)
    requires j < |q.queue|
    ensures var r := Training.Remove(q, j, now);
      |r.queue| == |q.queue| - 1 &&
      forall i {:trigger r.queue[i]} | 0 <= i < |r.queue| ::
          r.queue[i].count == q.queue[if i < j then i else i + 1].count
  {
  }

  lemma TrainingPays(p: Prices, w: Shape, now: int)
    requires AllSolvent(w)
    ensures var v := AllTraining(w, now);
      AllSolvent(v) && NoGain(p, w, v)
  {
    var v := AllTraining(w, now);
    hide Worth;
    forall c | 0 <= c < |w.cities| ensures Solvent(v.cities[c]) && NoRicher(p, w.cities[c], v.cities[c]) {
      assert Solvent(w.cities[c]);
      TrainingCityPays(p, w.cities[c], now);
    }
  }

  lemma TrainingCityPays(p: Prices, x: City, now: int)
    requires Solvent(x)
    ensures Solvent(TrainingPass(x, now)) && NoRicher(p, x, TrainingPass(x, now))
  {
    var y := TrainingPass(x, now);
    forall i | 0 <= i < |x.queues| ensures Whole(y.queues[i]) {
      assert Whole(x.queues[i]);
      if Training.Due(x.queues[i], now) {
        assert forall j | 0 <= j < |y.queues[i].queue| :: y.queues[i].queue[j].count == x.queues[i].queue[j + 1].count;
      }
    }
    hide Worth;
    forall k ensures Worth(p, k, y) <= Worth(p, k, x) {
      TrainingWorth(p, k, x, now);
      HeadsAreWorth(p, k, x, now);
    }
  }

  lemma HeadsAreWorth(p: Prices, k: Kind, x: City, now: int)
    requires Solvent(x)
    ensures Sum(Heads(p, k, x.queues, now)) >= 0
  {
    var h := Heads(p, k, x.queues, now);
    forall i | 0 <= i < |h| ensures h[i] >= 0 { BatchesAreWorth(p, k, x.queues[i]); }
    SumBound(h);
  }

  // ---- Research -------------------------------------------------------------------------------------

  lemma ResearchPays(p: Prices, w: Shape, c: nat, tech: int, allowed: bool, duration: int, now: int)
    requires AllSolvent(w) && c < |w.cities| && w.cities[c].castleid > 0
    ensures var v := Research(p, w, c, tech, allowed, duration, now);
      AllSolvent(v) && NoGain(p, w, v)
  {
    var v := Research(p, w, c, tech, allowed, duration, now);
    if v == w { Same(p, w); } else {
      var x := w.cities[c];
      assert Solvent(x) && v.cities == w.cities[c := v.cities[c]];
      Paid(x.res, p.research(tech, x.tech[tech].level).Times(1));
      hide Worth, Whole;
      assert Solvent(v.cities[c]);
      hide Solvent, Research;
      forall k ensures Worth(p, k, v.cities[c]) <= Worth(p, k, x) {
        ResearchWorth(p, k, w, c, tech, allowed, duration, now);
      }
      AtCity(p, w, v, c);
    }
  }

  lemma CancelResearchPays(p: Prices, w: Shape, c: nat)
    requires AllSolvent(w) && c < |w.cities| && w.cities[c].castleid > 0
    ensures var v := CancelResearch(p, w, c);
      AllSolvent(v) && NoGain(p, w, v)
  {
    var v := CancelResearch(p, w, c);
    if v == w { Same(p, w); } else {
      var x := w.cities[c];
      var tech := Claimed(x.tech, x.castleid);
      assert Solvent(x) && v.cities == w.cities[c := v.cities[c]];
      ThirdStocked(p.research(tech, x.tech[tech].level), 1);
      Given(x.res, p.research(tech, x.tech[tech].level).ExactThird());
      hide Worth, Whole, Claimed;
      assert Solvent(v.cities[c]);
      hide Solvent, CancelResearch;
      forall k ensures Worth(p, k, v.cities[c]) <= Worth(p, k, x) { CancelResearchWorth(p, k, w, c); }
      AtCity(p, w, v, c);
    }
  }

  lemma SpeedUpResearchPays(p: Prices, w: Shape, c: nat, reduce: int)
    requires AllSolvent(w) && c < |w.cities|
    ensures var v := SpeedUpResearch(w, c, reduce);
      AllSolvent(v) && NoGain(p, w, v)
  {
    var v := SpeedUpResearch(w, c, reduce);
    var x := w.cities[c];
    assert Solvent(x) && v.cities == w.cities[c := v.cities[c]];
    assert v.cities[c].res == x.res && v.cities[c].queues == x.queues;
    hide Worth, SpeedUpResearch;
    forall k ensures Worth(p, k, v.cities[c]) <= Worth(p, k, x) { SpeedUpResearchWorth(p, k, w, c, reduce); }
    AtCity(p, w, v, c);
  }

  lemma FinishResearchPays(p: Prices, w: Shape, i: nat)
    requires AllSolvent(w) && i < |w.researchlist|
    ensures var v := FinishResearch(w, i);
      AllSolvent(v) && NoGain(p, w, v)
  {
    var v := FinishResearch(w, i);
    var c := w.researchlist[i].city;
    assert Solvent(w.cities[c]) && v.cities == w.cities[c := v.cities[c]];
    assert v.cities[c].res == w.cities[c].res && v.cities[c].queues == w.cities[c].queues;
    hide Worth, FinishResearch;
    forall k ensures Worth(p, k, v.cities[c]) <= Worth(p, k, w.cities[c]) { FinishResearchWorth(p, k, w, i); }
    AtCity(p, w, v, c);
  }

  lemma {:induction false} ResearchPassPays(p: Prices, w: Shape, i: nat, now: int)
    requires AllSolvent(w)
    ensures var v := ResearchPass(w, i, now);
      AllSolvent(v) && NoGain(p, w, v)
    decreases |w.researchlist| - i
  {
    hide AllSolvent, NoGain, FinishResearch, DropResearch;
    if i >= |w.researchlist| { Same(p, w); } else {
      var e := w.researchlist[i];
      if e.tech == 0 {
        var u := DropResearch(w, i);
        Dropped(w, i);
        SameCities(p, w, u);
        ResearchPassPays(p, u, i, now);
        NoGainTrans(p, w, u, ResearchPass(u, i, now));
      } else if w.cities[e.city].tech[e.tech].endtime < now {
        var u := FinishResearch(w, i);
        FinishResearchPays(p, w, i);
        Dropped(w, i);
        ResearchPassPays(p, u, i, now);
        NoGainTrans(p, w, u, ResearchPass(u, i, now));
      } else {
        ResearchPassPays(p, w, i + 1, now);
      }
    }
  }

  lemma Dropped(w: Shape, i: nat)
    requires i < |w.researchlist|
    ensures |DropResearch(w, i).researchlist| == |FinishResearch(w, i).researchlist| == |w.researchlist| - 1
    ensures DropResearch(w, i).cities == w.cities
  {
  }

  lemma SameCities(p: Prices, w: Shape, u: Shape)
    requires AllSolvent(w) && u.cities == w.cities
    ensures AllSolvent(u) && NoGain(p, w, u)
  {
  }

  // ---- Negative counts ------------------------------------------------------------------------------

  const Nothing := Cost(0, 0, 0, 0, 0)

  lemma Sign(price: Cost, count: int)
    ensures (forall k: Kind :: price.Of(k) * count >= 0) <==> count >= 0 || price == Nothing
  {
    if count >= 0 {
      forall k: Kind ensures price.Of(k) * count >= 0 { Scaled(price.Of(k), count); }
    } else if forall k: Kind :: price.Of(k) * count >= 0 {
      forall k: Kind ensures price.Of(k) == 0 { Cancels(price.Of(k), count); }
      assert price.Of(Gold) == price.Of(Food) == price.Of(Wood) == price.Of(Stone) == price.Of(Iron) == 0;
    } else if price == Nothing {
      forall k: Kind ensures price.Of(k) * count >= 0 { assert price.Of(k) == 0; }
    }
  }

  lemma Cancels(a: nat, b: int)
    requires b < 0
    ensures a * b >= 0 <==> a == 0
  {
    if a > 0 { assert a * b <= b; }
  }

  /** The handler does not look at the sign of the number of troops. A queue that is full takes the price and
      gives nothing, so that the city gains exactly when the number is negative and troops cost something. */
  lemma FullQueueExact(p: Prices, w: Shape, c: nat, position: int, troopid: int, count: int, unit: int, now: int)
    requires c < |w.cities| && Ordered(p, w, c, position, troopid, count) && Full(w, c, position)
    ensures NoGain(p, w, Produce(p, w, c, position, troopid, count, unit, now)) <==>
            count >= 0 || p.troop(troopid) == Nothing
  {
    var x := w.cities[c];
    var v := Produce(p, w, c, position, troopid, count, unit, now);
    assert v.cities == w.cities[c := v.cities[c]];
    assert v.cities[c] == x.(res := x.res.Minus(p.troop(troopid).Times(count)));
    hide QueueAt, Worth, Produce;
    Sign(p.troop(troopid), count);
    forall k: Kind ensures Worth(p, k, v.cities[c]) == Worth(p, k, x) - (p.troop(troopid).Of(k) * count) as real {
      ResWorth(p, k, x, v.cities[c].res);
    }
    assert NoRicher(p, x, v.cities[c]) <==> count >= 0 || p.troop(troopid) == Nothing;
    if NoRicher(p, x, v.cities[c]) {
      forall d | 0 <= d < |w.cities| ensures NoRicher(p, w.cities[d], v.cities[d]) {
        assert d == c || v.cities[d] == w.cities[d];
      }
    }
  }

  /** A batch that is waiting can be taken back without gain or loss; a running one costs two thirds, which is
      a gain exactly when its number is negative and it cost something. */
  lemma CancelGainExact(p: Prices, w: Shape, c: nat, position: int, queueid: int, now: int)
    requires c < |w.cities| && QueueAt(w.cities[c].queues, position) >= 0
    requires Training.IndexOf(w.cities[c].queues[QueueAt(w.cities[c].queues, position)].queue, queueid) >= 0
    ensures var q := w.cities[c].queues[QueueAt(w.cities[c].queues, position)].queue;
      var t := q[Training.IndexOf(q, queueid)];
      NoRicher(p, w.cities[c], CancelProduce(p, w, c, position, queueid, now).cities[c]) <==>
      t.endtime <= 0 || t.count >= 0 || p.troop(t.troopid) == Nothing
  {
    var x := w.cities[c];
    var q := x.queues[QueueAt(x.queues, position)].queue;
    var t := q[Training.IndexOf(q, queueid)];
    var v := CancelProduce(p, w, c, position, queueid, now);
    hide QueueAt, Training.IndexOf, Worth, CancelProduce;
    Sign(p.troop(t.troopid), t.count);
    forall k: Kind
      ensures Worth(p, k, v.cities[c]) <= Worth(p, k, x) <==> t.endtime <= 0 || p.troop(t.troopid).Of(k) * t.count >= 0
    {
      CancelProduceWorth(p, k, w, c, position, queueid, now);
      RefundSign(p, k, t);
    }
  }

  lemma RefundSign(p: Prices, k: Kind, t: Training.Train)
    ensures Refund(p, k, t) <= BatchWorth(p, k, t) <==> t.endtime <= 0 || p.troop(t.troopid).Of(k) * t.count >= 0
  {
  }

  /** No order, then, takes a store below zero, whatever its number; and it makes a city richer exactly when it is
      taken, finds the queue full, and has a negative number of troops that cost something. */
  lemma OrderExact(p: Prices, w: Shape, c: nat, position: int, troopid: int, count: int, unit: int, now: int)
    requires c < |w.cities|
    ensures var v := Produce(p, w, c, position, troopid, count, unit, now);
      && |v.cities| == |w.cities|
      && (forall d | 0 <= d < |w.cities| && Stocked(w.cities[d].res) :: Stocked(v.cities[d].res))
      && (NoGain(p, w, v) <==>
            || !Ordered(p, w, c, position, troopid, count) || !Full(w, c, position)
            || count >= 0 || p.troop(troopid) == Nothing)
  {
    var v := Produce(p, w, c, position, troopid, count, unit, now);
    if Ordered(p, w, c, position, troopid, count) {
      Paid(w.cities[c].res, p.troop(troopid).Times(count));
      assert v.cities == w.cities[c := v.cities[c]];
      hide QueueAt, Worth, Produce, Stocked;
      if Full(w, c, position) { FullQueueExact(p, w, c, position, troopid, count, unit, now); }
      else { RoomKeepsWorth(p, w, c, position, troopid, count, unit, now); }
    }
  }

  lemma RoomKeepsWorth(p: Prices, w: Shape, c: nat, position: int, troopid: int, count: int, unit: int, now: int)
    requires c < |w.cities| && Ordered(p, w, c, position, troopid, count) && !Full(w, c, position)
    ensures NoGain(p, w, Produce(p, w, c, position, troopid, count, unit, now))
  {
    var v := Produce(p, w, c, position, troopid, count, unit, now);
    assert v.cities == w.cities[c := v.cities[c]];
    hide QueueAt, Worth, Produce;
    forall k: Kind ensures Worth(p, k, v.cities[c]) <= Worth(p, k, w.cities[c]) {
      ProduceWorth(p, k, w, c, position, troopid, count, unit, now);
    }
    forall d | 0 <= d < |w.cities| ensures NoRicher(p, w.cities[d], v.cities[d]) {
      assert d == c || v.cities[d] == w.cities[d];
    }
  }

  /** The gain of such an order comes later: by finishing its head a queue gains worth exactly when the head is due,
      its number negative, and its troops cost something. */
  lemma TickGainExact(p: Prices, q: Training.Queue, now: int)
    ensures (forall k: Kind :: QueueWorth(p, k, Training.Tick(q, now)) <= QueueWorth(p, k, q)) <==>
            !Training.Due(q, now) || q.queue[0].count >= 0 || p.troop(q.queue[0].troopid) == Nothing
  {
    hide QueueWorth, Training.Tick;
    forall k: Kind
      ensures QueueWorth(p, k, Training.Tick(q, now)) ==
              QueueWorth(p, k, q) - if Training.Due(q, now) then BatchWorth(p, k, q.queue[0]) else 0
    {
      TickWorth(p, k, q, now);
    }
    if Training.Due(q, now) {
      Sign(p.troop(q.queue[0].troopid), q.queue[0].count);
      assert forall k: Kind :: BatchWorth(p, k, q.queue[0]) == p.troop(q.queue[0].troopid).Of(k) * q.queue[0].count;
    }
  }

  /** A city becomes richer in a training pass exactly when, of some resource, its due heads together are worth less
      than nothing. */
  lemma TrainingGainExact(p: Prices, x: City, now: int)
    ensures NoRicher(p, x, TrainingPass(x, now)) <==> forall k: Kind :: Sum(Heads(p, k, x.queues, now)) >= 0
  {
    hide Worth, TrainingPass, Heads, Sum;
    forall k: Kind
      ensures Worth(p, k, TrainingPass(x, now)) == Worth(p, k, x) - Sum(Heads(p, k, x.queues, now)) as real
    {
      TrainingWorth(p, k, x, now);
    }
    forall k: Kind
      ensures Worth(p, k, TrainingPass(x, now)) <= Worth(p, k, x) <==> Sum(Heads(p, k, x.queues, now)) >= 0
    {
    }
  }

  /** With no other queue due, that is when this queue's head has a negative number and a price. */
  lemma LoneHeadExact(p: Prices, x: City, i: nat, now: int)
    requires i < |x.queues| && Training.Due(x.queues[i], now)
    requires forall j | 0 <= j < |x.queues| && j != i :: !Training.Due(x.queues[j], now)
    ensures NoRicher(p, x, TrainingPass(x, now)) <==>
            x.queues[i].queue[0].count >= 0 || p.troop(x.queues[i].queue[0].troopid) == Nothing
  {
    var t := x.queues[i].queue[0];
    TrainingGainExact(p, x, now);
    Sign(p.troop(t.troopid), t.count);
    forall k: Kind ensures Sum(Heads(p, k, x.queues, now)) == p.troop(t.troopid).Of(k) * t.count {
      LoneSum(Heads(p, k, x.queues, now), i);
    }
    hide Heads, Sum, TrainingPass, NoRicher, Training.Due;
    assert (forall k: Kind :: Sum(Heads(p, k, x.queues, now)) >= 0) <==>
           (forall k: Kind :: p.troop(t.troopid).Of(k) * t.count >= 0);
  }

  lemma {:induction false} LoneSum(s: seq<int>, i: nat)
    requires i < |s| && forall j | 0 <= j < |s| && j != i :: s[j] == 0
    ensures Sum(s) == s[i]
  {
    if i == 0 { ZeroSum(s[1..]); } else { LoneSum(s[1..], i - 1); }
  }

  lemma {:induction false} ZeroSum(s: seq<int>)
    requires forall j | 0 <= j < |s| :: s[j] == 0
    ensures Sum(s) == 0
  {
    if s != [] { ZeroSum(s[1..]); }
  }

  /** With others it need not be: a head of as many of the same troops makes up for it. */
  lemma HeadsOffset(p: Prices, x: City, now: int)
    requires |x.queues| == 2 && Training.Due(x.queues[0], now) && Training.Due(x.queues[1], now)
    requires x.queues[0].queue[0].troopid == x.queues[1].queue[0].troopid
    requires x.queues[0].queue[0].count == -x.queues[1].queue[0].count
    ensures NoRicher(p, x, TrainingPass(x, now))
  {
    TrainingGainExact(p, x, now);
    hide NoRicher, TrainingPass;
    forall k: Kind ensures Sum(Heads(p, k, x.queues, now)) >= 0 {
      var h := Heads(p, k, x.queues, now);
      var n, a := x.queues[1].queue[0].count, p.troop(x.queues[0].queue[0].troopid).Of(k);
      assert h == [a * -n, a * n];
      assert Sum(h) == h[0] + Sum(h[1..]) == h[0] + h[1];
      Opposite(a, n);
    }
  }

  lemma Opposite(a: int, n: int)
    ensures a * -n + a * n == 0
  {
  }
}
