/** By how much each command and each finished piece of work changes the ledger. */
module LedgerSteps {
  import opened Economy
  import opened World
  import opened Construction
  import opened Ledger
  import Training

  function Price(p: Prices, k: Kind, b: Building): nat
  {
    p.building(b.typ, b.level).Of(k)
  }

  /** The worth of the queue that `SetBuilding` drops. */
  function Lost(p: Prices, k: Kind, x: City, typ: int, level: int, position: int): int
  {
    if position > 1000 then 0 else Forgotten(p, k, x.queues, typ, level, position)
  }

  lemma ResWorth(p: Prices, k: Kind, x: City, r: Res)
    ensures Worth(p, k, x.(res := r)) == Worth(p, k, x) - x.res.Of(k) + r.Of(k)
  {
  }

  /** Income is what it says. */
  lemma IncomeWorth(p: Prices, k: Kind, w: Shape, c: nat, gain: Res)
    requires c < |w.cities|
    ensures var v := Income(w, c, gain);
      |v.cities| == |w.cities| && Worth(p, k, v.cities[c]) == Worth(p, k, w.cities[c]) + gain.Of(k)
  {
    ResWorth(p, k, w.cities[c], w.cities[c].res.Plus(gain));
  }

  /** The price moves from the stores into the building site. */
  lemma NewBuildingWorth(p: Prices, k: Kind, w: Shape, c: nat, typ: int, position: int, allowed: bool, duration: int,
      now: int)
    requires BuildInv(w) && c < |w.cities|
    ensures var v := NewBuilding(p, w, c, typ, position, allowed, duration, now);
      v == w || (|v.cities| == |w.cities| &&
                 Worth(p, k, v.cities[c]) == Worth(p, k, w.cities[c])
                     - Lost(p, k, w.cities[c], typ, 0, position) as real)
  {
    var x := w.cities[c];
    var v := NewBuilding(p, w, c, typ, position, allowed, duration, now);
    if v != w {
      var b := x.buildings[Slot(position)];
      assert SlotsOk(x) && SlotOk(b, Slot(position));
      hide BuildInv, SlotsOk, Worth, Forgotten, SetBuilding, Idle, QueueAt;
      var z := x.(res := x.res.Minus(p.building(typ, 0).Times(1)));
      ResWorth(p, k, x, z.res);
      assert BuildingWorth(p, k, b) == 0;
      SetBuildingWorth(p, k, z, Building(position, typ, 0, 1, now, now + duration), position);
      assert BuildingWorth(p, k, Building(position, typ, 0, 1, now, now + duration)) == p.building(typ, 0).Of(k);
    }
  }

  lemma UpgradeWorth(p: Prices, k: Kind, w: Shape, c: nat, position: int, allowed: bool, duration: int, now: int)
    requires BuildInv(w) && c < |w.cities|
    ensures var v := UpgradeBuilding(p, w, c, position, allowed, duration, now);
      v == w || (|v.cities| == |w.cities| && Slot(position) >= 0 &&
                 var b := w.cities[c].buildings[Slot(position)];
                 Worth(p, k, v.cities[c]) == Worth(p, k, w.cities[c])
                     - Lost(p, k, w.cities[c], b.typ, b.level, position) as real)
  {
    var x := w.cities[c];
    var v := UpgradeBuilding(p, w, c, position, allowed, duration, now);
    if v != w {
      var b := x.buildings[Slot(position)];
      SlotPosition(position);
      assert SlotsOk(x) && SlotOk(b, Slot(position));
      hide BuildInv, SlotsOk, Worth, Forgotten, SetBuilding, Idle, QueueAt;
      var z := x.(res := x.res.Minus(p.building(b.typ, b.level).Times(1)));
      ResWorth(p, k, x, z.res);
      SetBuildingWorth(p, k, z, Building(position, b.typ, b.level, 1, now, now + duration), position);
    }
  }

  /** Nothing is paid for tearing down. */
  lemma DestructWorth(p: Prices, k: Kind, w: Shape, c: nat, position: int, duration: int, now: int)
    requires BuildInv(w) && c < |w.cities|
    ensures var v := DestructBuilding(w, c, position, duration, now);
      |v.cities| == |w.cities| && Worth(p, k, v.cities[c]) == Worth(p, k, w.cities[c])
  {
    var x := w.cities[c];
    var v := DestructBuilding(w, c, position, duration, now);
    if v != w {
      var b := x.buildings[Slot(position)];
      SlotPosition(position);
      assert SlotsOk(x) && SlotOk(b, Slot(position));
      assert b.status == 0 by { assert Idle(x); }
      hide BuildInv, SlotsOk, Worth, SetBuilding, Idle, QueueAt;
      SetBuildingWorth(p, k, x, Building(position, b.typ, b.level, 2, now, now + duration), position);
    }
  }

  lemma SettleWorth(p: Prices, k: Kind, x: City, b: Building, position: int)
    requires |x.buildings| == 76 && Settable(position) && b.level >= 0
    ensures Worth(p, k, Settle(x, b, position)) ==
            Worth(p, k, x) + (Standing(p, k, b.typ, b.level) - BuildingWorth(p, k, x.buildings[Slot(position)])) as real
  {
    hide Worth, SetBuilding;
    if b.level == 0 { SetBuildingWorth(p, k, x, Building(position, 0, 0, 0, 0, 0), position); }
    else { SetBuildingWorth(p, k, x, Building(position, b.typ, b.level, 0, 0, 0), position); }
  }

  /** Giving up a building loses its whole price: the refund that the source means to give is never given.
      Nothing is lost by giving up a demolition. */
  lemma CancelBuildingWorth(p: Prices, k: Kind, w: Shape, position: int)
    requires BuildInv(w)
    ensures var i := EventAt(w.buildlist, position);
      var v := CancelBuilding(w, position);
      if i < 0 then v == w
      else
        var c := w.buildlist[i].city;
        var b := w.cities[c].buildings[Slot(position)];
        |v.cities| == |w.cities| && v.cities[c].res == w.cities[c].res && b.status != 0 &&
        Worth(p, k, v.cities[c]) == Worth(p, k, w.cities[c]) - (if b.status == 1 then Price(p, k, b) else 0) as real
  {
    var i := EventAt(w.buildlist, position);
    var v := CancelBuilding(w, position);
    if i >= 0 {
      var c := w.buildlist[i].city;
      var x := w.cities[c];
      var s := Slot(position);
      var b := x.buildings[s];
      assert SlotsOk(x) && SlotOk(b, s) && Settable(position) && OnlyBusy(x, s);
      var z := x.(buildings := x.buildings[s := b.(status := 0)]);
      assert v.cities[c] == Settle(z, b, position);
      hide BuildInv, SlotsOk, OnlyBusy, CancelBuilding, Settle;
      SettleWorth(p, k, z, b, position);
      BuildingsUpdate(p, k, x.buildings, s, b.(status := 0));
    }
  }

  /** A finished building keeps a third of its price in the ledger; a demolition hands that third out. */
  lemma FinishWorth(p: Prices, k: Kind, w: Shape, i: nat)
    requires BuildInv(w) && i < |w.buildlist|
    ensures var v := FinishBuilding(p, w, i);
      var c := w.buildlist[i].city;
      var b := w.cities[c].buildings[Slot(w.buildlist[i].position)];
      |v.cities| == |w.cities| &&
      Worth(p, k, v.cities[c]) ==
        Worth(p, k, w.cities[c]) - (if b.status == 1 then Price(p, k, b) - Div3(Price(p, k, b)) else 0) as real
  {
    var e := w.buildlist[i];
    var x := w.cities[e.city];
    var s := Slot(e.position);
    var b := x.buildings[s];
    assert SlotsOk(x) && SlotOk(b, s) && OnlyBusy(x, s) && b.status != 0;
    hide BuildInv, SlotsOk, OnlyBusy;
    var v := FinishBuilding(p, w, i);
    FinishCityWorth(p, k, x, b, e.position, v.cities[e.city]);
  }

  lemma FinishCityWorth(p: Prices, k: Kind, x: City, b: Building, position: int, y: City)
    requires |x.buildings| == 76 && Settable(position) && b == x.buildings[Slot(position)]
    requires b.level >= 0 && (b.status == 1 || (b.status == 2 && b.level > 0))
    requires y ==
      if b.status == 1 then SetBuilding(x, b.typ, b.level + 1, position, 0, 0, 0)
      else Settle(x.(res := x.res.Plus(p.building(b.typ, b.level - 1).Third(1))), b.(level := b.level - 1), position)
    ensures Worth(p, k, y) ==
      Worth(p, k, x) - (if b.status == 1 then Price(p, k, b) - Div3(Price(p, k, b)) else 0) as real
  {
    hide Worth, SetBuilding, Settle;
    if b.status == 1 {
      SetBuildingWorth(p, k, x, Building(position, b.typ, b.level + 1, 0, 0, 0), position);
    } else {
      var z := x.(res := x.res.Plus(p.building(b.typ, b.level - 1).Third(1)));
      ResWorth(p, k, x, z.res);
      SettleWorth(p, k, z, b.(level := b.level - 1), position);
    }
  }

  // ---- Training -------------------------------------------------------------------------------------

  lemma AppendWorth(p: Prices, k: Kind, q: Training.Queue, r: Training.Queue, t: Training.Train)
    requires r.queue == q.queue + [t]
    ensures QueueWorth(p, k, r) == QueueWorth(p, k, q) + BatchWorth(p, k, t)
  {
    assert Batches(p, k, r) == Batches(p, k, q) + [BatchWorth(p, k, t)];
    SumConcat(Batches(p, k, q), [BatchWorth(p, k, t)]);
  }

  /** The price moves from the stores into the queue; if the queue is full it is lost. */
  lemma ProduceWorth(p: Prices, k: Kind, w: Shape, c: nat, position: int, troopid: int, count: int, unit: int, now: int)
    requires c < |w.cities|
    ensures var v := Produce(p, w, c, position, troopid, count, unit, now);
      v == w || (|v.cities| == |w.cities| && QueueAt(w.cities[c].queues, position) >= 0 && Slot(position) >= 0 &&
                 var x := w.cities[c];
                 var full := |x.queues[QueueAt(x.queues, position)].queue| >= x.buildings[Slot(position)].level;
                 Worth(p, k, v.cities[c]) == Worth(p, k, x)
                     - if full then (p.troop(troopid).Of(k) * count) as real else 0.0)
  {
    var x := w.cities[c];
    var v := Produce(p, w, c, position, troopid, count, unit, now);
    if v != w {
      var i := QueueAt(x.queues, position);
      var q := x.queues[i];
      var level := x.buildings[Slot(position)].level;
      var r := Training.Add(q, level, troopid, count, unit, now);
      if |q.queue| < level { AppendWorth(p, k, q, r, r.queue[|q.queue|]); }
      QueuesUpdate(p, k, x.queues, i, r);
      hide QueueAt, QueueWorth, Queues, Buildings, Techs, Sum;
      assert r.queue == q.queue || BatchWorth(p, k, r.queue[|q.queue|]) == p.troop(troopid).Of(k) * count;
    }
  }

  /** Without batch `i`; starting the next one does not change its worth. */
  lemma RemoveWorth(p: Prices, k: Kind, q: Training.Queue, i: nat, now: int)
    requires i < |q.queue|
    ensures QueueWorth(p, k, Training.Remove(q, i, now)) == QueueWorth(p, k, q) - BatchWorth(p, k, q.queue[i])
  {
    var r := Training.Remove(q, i, now);
    SumErase(Batches(p, k, q), i);
    assert Batches(p, k, r) == Batches(p, k, q)[..i] + Batches(p, k, q)[i + 1..];
  }

  function Refund(p: Prices, k: Kind, t: Training.Train): int
  {
    if t.endtime > 0 then Div3(BatchWorth(p, k, t)) else BatchWorth(p, k, t)
  }

  lemma CancelProduceWorth(p: Prices, k: Kind, w: Shape, c: nat, position: int, queueid: int, now: int)
    requires c < |w.cities|
    ensures var x := w.cities[c];
      var i := QueueAt(x.queues, position);
      var v := CancelProduce(p, w, c, position, queueid, now);
      if i < 0 || Training.IndexOf(x.queues[i].queue, queueid) < 0 then v == w
      else
        var t := x.queues[i].queue[Training.IndexOf(x.queues[i].queue, queueid)];
        |v.cities| == |w.cities| &&
        v.cities[c].res.Of(k) == x.res.Of(k) + Refund(p, k, t) as real &&
        Worth(p, k, v.cities[c]) == Worth(p, k, x) - (BatchWorth(p, k, t) - Refund(p, k, t)) as real
  {
    var x := w.cities[c];
    var i := QueueAt(x.queues, position);
    if i >= 0 && Training.IndexOf(x.queues[i].queue, queueid) >= 0 {
      var q := x.queues[i];
      var j := Training.IndexOf(q.queue, queueid);
      RemoveWorth(p, k, q, j, now);
      QueuesUpdate(p, k, x.queues, i, Training.Remove(q, j, now));
      hide QueueAt, QueueWorth, Queues, Buildings, Techs, Sum, Training.Remove, Training.IndexOf;
    }
  }

  function Heads(p: Prices, k: Kind, qs: seq<Training.Queue>, now: int): seq<int>
  {
    seq(|qs|, i requires 0 <= i < |qs| => if Training.Due(qs[i], now) then BatchWorth(p, k, qs[i].queue[0]) else 0)
  }

  lemma TickWorth(p: Prices, k: Kind, q: Training.Queue, now: int)
    ensures QueueWorth(p, k, Training.Tick(q, now)) ==
            QueueWorth(p, k, q) - if Training.Due(q, now) then BatchWorth(p, k, q.queue[0]) else 0
  {
    if Training.Due(q, now) {
      assert Batches(p, k, Training.Tick(q, now)) == Batches(p, k, q)[1..];
    }
  }

  lemma {:induction false} SumMinus(r: seq<int>, s: seq<int>, t: seq<int>)
    requires |r| == |s| == |t| && forall i | 0 <= i < |s| :: r[i] == s[i] - t[i]
    ensures Sum(r) == Sum(s) - Sum(t)
  {
    if s != [] { SumMinus(r[1..], s[1..], t[1..]); }
  }

  /** A training pass takes out the due heads, and nothing else. */
  lemma TrainingWorth(p: Prices, k: Kind, x: City, now: int)
    ensures Worth(p, k, TrainingPass(x, now)) == Worth(p, k, x) - Sum(Heads(p, k, x.queues, now)) as real
  {
    var y := TrainingPass(x, now);
    forall i | 0 <= i < |x.queues|
      ensures Queues(p, k, y.queues)[i] == Queues(p, k, x.queues)[i] - Heads(p, k, x.queues, now)[i]
    {
      TickWorth(p, k, x.queues[i], now);
    }
    SumMinus(Queues(p, k, y.queues), Queues(p, k, x.queues), Heads(p, k, x.queues, now));
  }

  // ---- Research -------------------------------------------------------------------------------------

  lemma ResearchWorth(p: Prices, k: Kind, w: Shape, c: nat, tech: int, allowed: bool, duration: int, now: int)
    requires c < |w.cities| && w.cities[c].castleid > 0
    ensures var v := Research(p, w, c, tech, allowed, duration, now);
      v == w || (|v.cities| == |w.cities| && 0 < tech < 25 &&
                 Worth(p, k, v.cities[c]) == Worth(p, k, w.cities[c])
                     - TechWorth(p, k, tech, w.cities[c].tech[tech]) as real)
  {
    var x := w.cities[c];
    var v := Research(p, w, c, tech, allowed, duration, now);
    if v != w {
      TechsUpdate(p, k, x.tech, tech, v.cities[c].tech[tech]);
      hide Queues, Buildings, Techs, Sum;
    }
  }

  lemma CancelResearchWorth(p: Prices, k: Kind, w: Shape, c: nat)
    requires c < |w.cities| && w.cities[c].castleid > 0
    ensures var x := w.cities[c];
      var tech := Claimed(x.tech, x.castleid);
      var v := CancelResearch(p, w, c);
      if !x.researching || tech <= 0 then v == w
      else
        |v.cities| == |w.cities| &&
        Worth(p, k, v.cities[c]) == Worth(p, k, x) - p.research(tech, x.tech[tech].level).Of(k) as real * 2.0 / 3.0
  {
    var x := w.cities[c];
    var tech := Claimed(x.tech, x.castleid);
    if x.researching && tech > 0 {
      TechsUpdate(p, k, x.tech, tech, Tech(x.tech[tech].level, 0, 0, 0));
      hide Queues, Buildings, Techs, Sum, Claimed, EventOf;
    }
  }

  lemma SpeedUpResearchWorth(p: Prices, k: Kind, w: Shape, c: nat, reduce: int)
    requires c < |w.cities|
    ensures var v := SpeedUpResearch(w, c, reduce);
      |v.cities| == |w.cities| && Worth(p, k, v.cities[c]) == Worth(p, k, w.cities[c])
  {
    var x := w.cities[c];
    var tech := Claimed(x.tech, x.castleid);
    if tech >= 0 {
      TechsUpdate(p, k, x.tech, tech, x.tech[tech].(endtime := x.tech[tech].endtime - reduce));
      hide Queues, Buildings, Techs, Sum, Claimed;
    }
  }

  lemma FinishResearchWorth(p: Prices, k: Kind, w: Shape, i: nat)
    requires i < |w.researchlist|
    ensures var e := w.researchlist[i];
      var v := FinishResearch(w, i);
      |v.cities| == |w.cities| &&
      Worth(p, k, v.cities[e.city]) == Worth(p, k, w.cities[e.city])
          - TechWorth(p, k, e.tech, w.cities[e.city].tech[e.tech]) as real
  {
    var e := w.researchlist[i];
    var x := w.cities[e.city];
    TechsUpdate(p, k, x.tech, e.tech, Tech(x.tech[e.tech].level + 1, 0, 0, 0));
    hide Queues, Buildings, Techs, Sum;
  }

  // ---- Speeding up ----------------------------------------------------------------------------------

  lemma SpeedUpFreeWorth(p: Prices, k: Kind, w: Shape, c: nat, position: int)
    requires c < |w.cities|
    ensures var v := SpeedUpFree(w, c, position);
      |v.cities| == |w.cities| && Worth(p, k, v.cities[c]) == Worth(p, k, w.cities[c])
  {
    var x := w.cities[c];
    var s := Slot(position);
    if s >= 0 {
      var b := x.buildings[s];
      BuildingsUpdate(p, k, x.buildings, s, b.(endtime := b.endtime - 300000));
      hide Queues, Buildings, Techs, Sum;
    }
  }

  /** Nothing changes, unless position 0 is overwritten from a slot that was never set. */
  lemma SpeedUpItemWorth(p: Prices, k: Kind, w: Shape, c: nat, position: int, reduce: int)
    requires BuildInv(w) && c < |w.cities| && Slot(position) >= 0
    ensures var x := w.cities[c];
      var v := SpeedUpItem(w, c, position, reduce);
      |v.cities| == |w.cities| &&
      Worth(p, k, v.cities[c]) == Worth(p, k, x) -
        if x.buildings[Slot(position)].id == position
        then Lost(p, k, x, x.buildings[Slot(position)].typ, x.buildings[Slot(position)].level, position) as real
        else BuildingWorth(p, k, x.buildings[2]) as real
  {
    var x := w.cities[c];
    var s := Slot(position);
    var b := x.buildings[s].(endtime := x.buildings[s].endtime - reduce);
    SlotPosition(position);
    assert SlotsOk(x) && SlotOk(x.buildings[s], s);
    var z := x.(buildings := x.buildings[s := b]);
    assert SpeedUpItem(w, c, position, reduce).cities[c]
        == SetBuilding(z, b.typ, b.level, b.id, b.status, b.starttime, b.endtime);
    hide BuildInv, SlotsOk, SpeedUpItem, SetBuilding, Forgotten;
    BuildingsUpdate(p, k, x.buildings, s, b);
    if Settable(b.id) { SetBuildingWorth(p, k, z, b, b.id); }
    hide Queues, Buildings, Techs, Sum;
  }
}
