/** What each command does to the cities, field by field: when it is accepted, what is taken or given back, when the
    work will end, and that nothing else changes. Numbers are those of the source: types 2 and 32 have queues, 31 is
    the town hall, and `m_outerbuildings` begin behind the 35 of `m_innerbuildings`. */
module Commands {
  import opened Economy
  import opened World
  import Training

  // ---- Words ----------------------------------------------------------------------------------------

  predicate OnMap(position: int)
  {
    -2 <= position <= 31 || 1001 <= position <= 1040
  }

  /** Position 32 can be read, but no building can be set there. */
  predicate Readable(position: int)
  {
    OnMap(position) || position == 32
  }

  function Place(position: int): (s: int)
    ensures Readable(position) ==> 0 <= s < 76
  {
    if position > 1000 then position - 965 else position + 2
  }

  ghost predicate NoWork(x: City)
  {
    forall s | 0 <= s < |x.buildings| :: x.buildings[s].status == 0
  }

  ghost predicate CanPay(x: City, price: Cost, n: int)
  {
    forall k: Kind :: (price.Of(k) * n) as real <= x.res.Of(k)
  }

  ghost predicate Pays(x: City, y: City, price: Cost, n: int)
  {
    forall k: Kind :: y.res.Of(k) == x.res.Of(k) - (price.Of(k) * n) as real
  }

  /** What the tests of the handlers come to. */
  lemma Tests(x: City, price: Cost, n: int, position: int)
    ensures OnMap(position) <==> Settable(position)
    ensures Readable(position) <==> Slot(position) >= 0
    ensures Readable(position) ==> Place(position) == Slot(position)
    ensures NoWork(x) <==> Idle(x)
    ensures CanPay(x, price, n) <==> x.res.Affords(price.Times(n))
  {
  }

  lemma PaysIs(x: City, y: City, price: Cost, n: int)
    requires y.res == x.res.Minus(price.Times(n))
    ensures Pays(x, y, price, n)
  {
  }

  /** No other city has changed. */
  ghost predicate Only(w: Shape, v: Shape, c: nat)
  {
    |v.cities| == |w.cities| && forall d | 0 <= d < |w.cities| && d != c :: v.cities[d] == w.cities[d]
  }

  ghost predicate FirstQueue(qs: seq<Training.Queue>, i: int, position: int)
  {
    0 <= i < |qs| && qs[i].positionid == position && forall j | 0 <= j < i :: qs[j].positionid != position
  }

  ghost predicate NoQueue(qs: seq<Training.Queue>, position: int)
  {
    forall i | 0 <= i < |qs| :: qs[i].positionid != position
  }

  /** A barracks or wall of level 0 has no queue, one of a higher level has one, which is empty when it is new. */
  ghost predicate QueueRule(qs: seq<Training.Queue>, rs: seq<Training.Queue>, b: Building, position: int)
  {
    if (b.typ != 2 && b.typ != 32) || position > 1000 then rs == qs
    else if NoQueue(qs, position) then rs == if b.level > 0 then qs + [Training.Queue(position, 0, [])] else qs
    else if b.level == 0 then exists i :: FirstQueue(qs, i, position) && rs == qs[..i] + qs[i + 1..]
    else rs == qs
  }

  /** The building stands at the position, all others as before; the city has the level of its town hall. */
  ghost predicate Stands(x: City, y: City, b: Building, position: int)
    requires |x.buildings| == 76
  {
    && y.castleid == x.castleid && y.researching == x.researching && y.tech == x.tech && |y.buildings| == 76
    && if OnMap(position) then
         && y.buildings[Place(position)] == b
         && (forall s | 0 <= s < 76 && s != Place(position) :: y.buildings[s] == x.buildings[s])
         && QueueRule(x.queues, y.queues, b, position)
         && y.level == if b.typ == 31 && position <= 1000 then b.level else x.level
       else y.buildings == x.buildings && y.queues == x.queues && y.level == x.level
  }

  lemma SetStands(x: City, typ: int, level: int, position: int, status: int, starttime: int, endtime: int)
    requires |x.buildings| == 76
    ensures var y := SetBuilding(x, typ, level, position, status, starttime, endtime);
      y.res == x.res && Stands(x, y, Building(position, typ, level, status, starttime, endtime), position)
  {
    var b := Building(position, typ, level, status, starttime, endtime);
    hide SetQueues;
    if Settable(position) && position <= 1000 { SetQueuesRule(x.queues, b, position); }
    hide QueueRule;
  }

  lemma SetQueuesRule(qs: seq<Training.Queue>, b: Building, position: int)
    requires position <= 1000
    ensures QueueRule(qs, SetQueues(qs, b.typ, b.level, position), b, position)
  {
    var i := QueueAt(qs, position);
    if i >= 0 {
      assert qs[i].positionid == position;
      assert FirstQueue(qs, i, position);
    }
    hide QueueAt;
  }

  // ---- Buildings ------------------------------------------------------------------------------------

  /** An order for a new building is taken exactly on an empty slot of a city at rest that can pay; the work ends
      `duration` after now. */
  lemma NewBuildingExact(p: Prices, w: Shape, c: nat, typ: int, position: int, allowed: bool, duration: int, now: int)
    requires c < |w.cities|
    ensures var v, x := NewBuilding(p, w, c, typ, position, allowed, duration, now), w.cities[c];
      if OnMap(position) && 1 <= typ <= 34 && x.buildings[Place(position)].typ == 0 && NoWork(x) && allowed
         && CanPay(x, p.building(typ, 0), 1)
      then
        && Only(w, v, c) && Pays(x, v.cities[c], p.building(typ, 0), 1)
        && Stands(x, v.cities[c], Building(position, typ, 0, 1, now, now + duration), position)
        && v.buildlist == w.buildlist + [BuildEvent(c, position)] && v.researchlist == w.researchlist
      else v == w
  {
    var x := w.cities[c];
    var z := x.(res := x.res.Minus(p.building(typ, 0).Times(1)));
    Tests(x, p.building(typ, 0), 1, position);
    SetStands(z, typ, 0, position, 1, now, now + duration);
    PaysIs(x, z, p.building(typ, 0), 1);
    hide SetBuilding, QueueRule, NoWork, Idle, CanPay, Pays, OnMap, Settable, Place, Slot;
  }

  /** So is an order to raise one; the level stays what it is until the work is done. */
  lemma UpgradeExact(p: Prices, w: Shape, c: nat, position: int, allowed: bool, duration: int, now: int)
    requires c < |w.cities|
    ensures var v, x := UpgradeBuilding(p, w, c, position, allowed, duration, now), w.cities[c];
      if Readable(position) && 1 <= x.buildings[Place(position)].typ <= 35 && NoWork(x) && allowed
         && CanPay(x, p.building(x.buildings[Place(position)].typ, x.buildings[Place(position)].level), 1)
      then
        var b := x.buildings[Place(position)];
        && Only(w, v, c) && Pays(x, v.cities[c], p.building(b.typ, b.level), 1)
        && Stands(x, v.cities[c], Building(position, b.typ, b.level, 1, now, now + duration), position)
        && v.buildlist == w.buildlist + [BuildEvent(c, position)] && v.researchlist == w.researchlist
      else v == w
  {
    if Readable(position) {
      var x := w.cities[c];
      var b := x.buildings[Place(position)];
      Tests(x, p.building(b.typ, b.level), 1, position);
      if 1 <= b.typ <= 35 && NoWork(x) && allowed && CanPay(x, p.building(b.typ, b.level), 1) {
        UpgradeTaken(p, w, c, position, duration, now, b);
      }
    }
    hide SetBuilding, NoWork, CanPay, Stands, Pays;
  }

  lemma UpgradeTaken(p: Prices, w: Shape, c: nat, position: int, duration: int, now: int, b: Building)
    requires c < |w.cities| && Readable(position) && b == w.cities[c].buildings[Place(position)] && 1 <= b.typ <= 35
    requires NoWork(w.cities[c]) && CanPay(w.cities[c], p.building(b.typ, b.level), 1)
    ensures var v, x := UpgradeBuilding(p, w, c, position, true, duration, now), w.cities[c];
      && Only(w, v, c) && Pays(x, v.cities[c], p.building(b.typ, b.level), 1)
      && Stands(x, v.cities[c], Building(position, b.typ, b.level, 1, now, now + duration), position)
      && v.buildlist == w.buildlist + [BuildEvent(c, position)] && v.researchlist == w.researchlist
  {
    var x := w.cities[c];
    var z := x.(res := x.res.Minus(p.building(b.typ, b.level).Times(1)));
    Tests(x, p.building(b.typ, b.level), 1, position);
    SetStands(z, b.typ, b.level, position, 1, now, now + duration);
    PaysIs(x, z, p.building(b.typ, b.level), 1);
    assert b.status == 0;
    hide SetBuilding, QueueRule, NoWork, Idle, CanPay, Pays, OnMap;
  }

  /** An order to tear one down costs nothing. */
  lemma DestructExact(w: Shape, c: nat, position: int, duration: int, now: int)
    requires c < |w.cities|
    ensures var v, x := DestructBuilding(w, c, position, duration, now), w.cities[c];
      if Readable(position) && 1 <= x.buildings[Place(position)].typ <= 34 && NoWork(x)
         && x.buildings[Place(position)].level != 0
      then
        var b := x.buildings[Place(position)];
        && Only(w, v, c) && v.cities[c].res == x.res
        && Stands(x, v.cities[c], Building(position, b.typ, b.level, 2, now, now + duration), position)
        && v.buildlist == w.buildlist + [BuildEvent(c, position)] && v.researchlist == w.researchlist
      else v == w
  {
    if Readable(position) {
      var x := w.cities[c];
      var b := x.buildings[Place(position)];
      Tests(x, Cost(0, 0, 0, 0, 0), 1, position);
      SetStands(x, b.typ, b.level, position, 2, now, now + duration);
    }
    hide SetBuilding, QueueRule, NoWork, Idle, OnMap;
  }

  /** Only this slot's end has changed. */
  ghost predicate EndMoved(x: City, y: City, s: nat, end: int)
    requires s < |x.buildings|
  {
    y == x.(buildings := x.buildings[s := x.buildings[s].(endtime := end)])
  }

  /** The free speed-up takes five minutes off work of at most five. */
  lemma SpeedUpFreeExact(w: Shape, c: nat, position: int)
    requires c < |w.cities|
    ensures var v, x := SpeedUpFree(w, c, position), w.cities[c];
      if Readable(position) && x.buildings[Place(position)].endtime <= x.buildings[Place(position)].starttime + 300000
      then
        && Only(w, v, c) && v.buildlist == w.buildlist && v.researchlist == w.researchlist
        && EndMoved(x, v.cities[c], Place(position), x.buildings[Place(position)].endtime - 300000)
      else v == w
  {
  }

  /** An item takes off what it is worth, and the building is written back under its own id. */
  lemma ItemExact(w: Shape, c: nat, position: int, reduce: int)
    requires c < |w.cities|
    ensures var v, x := SpeedUpItem(w, c, position, reduce), w.cities[c];
      if Readable(position) then
        var b := x.buildings[Place(position)].(endtime := x.buildings[Place(position)].endtime - reduce);
        && Only(w, v, c) && v.buildlist == w.buildlist && v.researchlist == w.researchlist
        && v.cities[c].res == x.res
        && Stands(x.(buildings := x.buildings[Place(position) := b]), v.cities[c], b, b.id)
      else v == w
  {
    if Readable(position) {
      var x := w.cities[c];
      var b := x.buildings[Place(position)].(endtime := x.buildings[Place(position)].endtime - reduce);
      SetStands(x.(buildings := x.buildings[Place(position) := b]), b.typ, b.level, b.id, b.status, b.starttime,
          b.endtime);
    }
    hide SetBuilding, QueueRule;
  }

  ghost predicate FirstEvent(l: seq<BuildEvent>, i: int, position: int)
  {
    0 <= i < |l| && l[i].position == position && forall j | 0 <= j < i :: l[j].position != position
  }

  /** What is left of a building when work on it is given up: nothing of one that was never finished. */
  function LeftOf(b: Building, position: int): Building
  {
    if b.level == 0 then Building(position, 0, 0, 0, 0, 0) else Building(position, b.typ, b.level, 0, 0, 0)
  }

  lemma SettleStands(x: City, b: Building, position: int)
    requires |x.buildings| == 76
    ensures var y := Settle(x, b, position); y.res == x.res && Stands(x, y, LeftOf(b, position), position)
  {
    SetStands(x, if b.level == 0 then 0 else b.typ, if b.level == 0 then 0 else b.level, position, 0, 0, 0);
    hide SetBuilding, Stands;
  }

  /** A cancel without an event at the position does nothing. */
  lemma CancelNothing(w: Shape, position: int)
    requires forall i | 0 <= i < |w.buildlist| :: w.buildlist[i].position != position
    ensures CancelBuilding(w, position) == w
  {
  }

  /** One with an event gives up the work that the first one names, in whatever city, and gives nothing back. */
  lemma CancelBuildingExact(w: Shape, position: int, i: nat)
    requires FirstEvent(w.buildlist, i, position) && OnMap(position)
    ensures var v, c := CancelBuilding(w, position), w.buildlist[i].city;
      var x := w.cities[c];
      var b := x.buildings[Place(position)];
      if b.status == 0 then v == w
      else
        && Only(w, v, c) && v.cities[c].res == x.res
        && Stands(x, v.cities[c], LeftOf(b, position), position)
        && v.buildlist == w.buildlist[..i] + w.buildlist[i + 1..] && v.researchlist == w.researchlist
  {
    assert EventAt(w.buildlist, position) == i;
    var c := w.buildlist[i].city;
    var x := w.cities[c];
    var b := x.buildings[Place(position)];
    var z := x.(buildings := x.buildings[Place(position) := b.(status := 0)]);
    SettleStands(z, b, position);
    hide EventAt, Settle, QueueRule;
  }

  lemma IncomeExact(w: Shape, c: nat, gain: Res)
    requires c < |w.cities|
    ensures var v, x := Income(w, c, gain), w.cities[c];
      && Only(w, v, c) && v.buildlist == w.buildlist && v.researchlist == w.researchlist
      && v.cities[c] == x.(res := v.cities[c].res)
      && forall k: Kind :: v.cities[c].res.Of(k) == x.res.Of(k) + gain.Of(k)
  {
  }

  // ---- Troops ---------------------------------------------------------------------------------------

  /** The queue has one batch more: alone it runs from now on, behind others it waits; `unit` is in seconds. */
  ghost predicate Appended(q: Training.Queue, r: Training.Queue, troopid: int, count: int, unit: int, now: int)
  {
    && r.positionid == q.positionid && r.nextqueueid == q.nextqueueid + 1
    && r.queue == q.queue + [Training.Train(troopid, count, q.nextqueueid, now,
                                            if q.queue == [] then now + 1000 * (unit * count) else 0,
                                            1000 * (unit * count))]
  }

  /** Only this city's queue at the position, and its stores. */
  ghost predicate OnlyQueue(w: Shape, v: Shape, c: nat, i: nat)
    requires c < |w.cities| && i < |w.cities[c].queues|
  {
    && Only(w, v, c) && v.buildlist == w.buildlist && v.researchlist == w.researchlist
    && |v.cities[c].queues| == |w.cities[c].queues|
    && v.cities[c] == w.cities[c].(res := v.cities[c].res, queues := w.cities[c].queues[i := v.cities[c].queues[i]])
  }

  /** An order is taken exactly when there is a queue and the city can pay; the price is gone even if the queue, of as
      many places as the building has levels, is full. */
  lemma ProduceExact(p: Prices, w: Shape, c: nat, position: int, troopid: int, count: int, unit: int, now: int, i: nat)
    requires c < |w.cities| && FirstQueue(w.cities[c].queues, i, position)
    ensures var v, x := Produce(p, w, c, position, troopid, count, unit, now), w.cities[c];
      if Readable(position) && CanPay(x, p.troop(troopid), count) then
        && OnlyQueue(w, v, c, i) && Pays(x, v.cities[c], p.troop(troopid), count)
        && (if |x.queues[i].queue| < x.buildings[Place(position)].level
            then Appended(x.queues[i], v.cities[c].queues[i], troopid, count, unit, now)
            else v.cities[c].queues[i] == x.queues[i])
      else v == w
  {
    var x := w.cities[c];
    assert QueueAt(x.queues, position) == i;
    hide QueueAt;
    assert x.res.Affords(p.troop(troopid).Times(count)) <==> CanPay(x, p.troop(troopid), count);
    Thousand(unit, count);
  }

  lemma Thousand(unit: int, count: int)
    ensures unit * count * 1000 == 1000 * (unit * count)
  {
  }

  lemma ProduceNothing(p: Prices, w: Shape, c: nat, position: int, troopid: int, count: int, unit: int, now: int)
    requires c < |w.cities| && NoQueue(w.cities[c].queues, position)
    ensures Produce(p, w, c, position, troopid, count, unit, now) == w
  {
  }

  ghost predicate FirstBatch(s: seq<Training.Train>, j: int, queueid: int)
  {
    0 <= j < |s| && s[j].queueid == queueid && forall n | 0 <= n < j :: s[n].queueid != queueid
  }

  /** Batch `j` is gone; if it was running, the next one runs from now on. */
  ghost predicate TakenOut(s: seq<Training.Train>, r: seq<Training.Train>, j: nat, now: int)
    requires j < |s|
  {
    && |r| == |s| - 1
    && (forall n | 0 <= n < j :: r[n] == s[n])
    && (forall n {:trigger r[n]} | j < n < |r| :: r[n] == s[n + 1])
    && (j < |r| ==> r[j] == if s[j].endtime > 0 then s[j + 1].(endtime := now + s[j + 1].costtime) else s[j + 1])
  }

  /** A cancelled batch is paid back, a third of it in whole pieces once it was running. */
  lemma CancelProduceExact(p: Prices, w: Shape, c: nat, position: int, queueid: int, now: int, i: nat, j: nat)
    requires c < |w.cities| && FirstQueue(w.cities[c].queues, i, position)
    requires FirstBatch(w.cities[c].queues[i].queue, j, queueid)
    ensures var v, x := CancelProduce(p, w, c, position, queueid, now), w.cities[c];
      var q := x.queues[i];
      && OnlyQueue(w, v, c, i)
      && v.cities[c].queues[i] == q.(queue := v.cities[c].queues[i].queue)
      && TakenOut(q.queue, v.cities[c].queues[i].queue, j, now)
      && forall k: Kind ::
           var paid := p.troop(q.queue[j].troopid).Of(k) * q.queue[j].count;
           v.cities[c].res.Of(k) == x.res.Of(k) + (if q.queue[j].endtime > 0 then Div3(paid) else paid) as real
  {
    var q := w.cities[c].queues[i];
    assert QueueAt(w.cities[c].queues, position) == i && Training.IndexOf(q.queue, queueid) == j;
    hide QueueAt, Training.IndexOf;
    Training.RemoveAt(q, j, now);
    hide Training.Remove, Div3;
  }

  lemma CancelProduceNothing(p: Prices, w: Shape, c: nat, position: int, queueid: int, now: int)
    requires c < |w.cities|
    requires forall i | FirstQueue(w.cities[c].queues, i, position) ::
               forall j | 0 <= j < |w.cities[c].queues[i].queue| :: w.cities[c].queues[i].queue[j].queueid != queueid
    ensures CancelProduce(p, w, c, position, queueid, now) == w
  {
    var i := QueueAt(w.cities[c].queues, position);
    if i >= 0 { assert FirstQueue(w.cities[c].queues, i, position); }
    hide QueueAt;
  }

  // ---- Research -------------------------------------------------------------------------------------

  /** Only this city's slot, its flag and its stores. */
  ghost predicate OnlySlot(w: Shape, v: Shape, c: nat, tech: nat, t: Tech, researching: bool)
    requires c < |w.cities| && tech < |w.cities[c].tech|
  {
    && Only(w, v, c) && v.buildlist == w.buildlist
    && v.cities[c] == w.cities[c].(res := v.cities[c].res, researching := researching,
                                   tech := w.cities[c].tech[tech := t])
  }

  /** A research is taken exactly by a city that is at none and can pay, up to level 10. */
  lemma ResearchExact(p: Prices, w: Shape, c: nat, tech: int, allowed: bool, duration: int, now: int)
    requires c < |w.cities|
    ensures var v, x := Research(p, w, c, tech, allowed, duration, now), w.cities[c];
      if 1 <= tech <= 24 && allowed && !x.researching && x.tech[tech].level < 10
         && CanPay(x, p.research(tech, x.tech[tech].level), 1)
      then
        && OnlySlot(w, v, c, tech, Tech(x.tech[tech].level, x.castleid, now, now + duration), true)
        && Pays(x, v.cities[c], p.research(tech, x.tech[tech].level), 1)
        && v.researchlist == w.researchlist + [TechEvent(c, tech)]
      else v == w
  {
    var x := w.cities[c];
    if 1 <= tech <= 24 {
      var price := p.research(tech, x.tech[tech].level);
      assert x.res.Affords(price.Times(1)) <==> CanPay(x, price, 1);
    }
  }

  ghost predicate FirstClaim(ts: seq<Tech>, tech: int, castleid: int)
  {
    0 <= tech < |ts| && ts[tech].castleid == castleid && forall j | 0 <= j < tech :: ts[j].castleid != castleid
  }

  /** A cancelled research is paid back to a third, and the city's first event is marked. */
  lemma CancelResearchExact(p: Prices, w: Shape, c: nat, tech: nat)
    requires c < |w.cities| && FirstClaim(w.cities[c].tech, tech, w.cities[c].castleid)
    ensures var v, x := CancelResearch(p, w, c), w.cities[c];
      if x.researching && tech > 0 then
        && OnlySlot(w, v, c, tech, Tech(x.tech[tech].level, 0, 0, 0), false)
        && (forall k: Kind ::
              v.cities[c].res.Of(k) == x.res.Of(k) + p.research(tech, x.tech[tech].level).Of(k) as real / 3.0)
        && |v.researchlist| == |w.researchlist|
        && forall i | 0 <= i < |w.researchlist| :: v.researchlist[i] ==
             if w.researchlist[i].city == c && (forall j | 0 <= j < i :: w.researchlist[j].city != c)
             then TechEvent(c, 0) else w.researchlist[i]
      else v == w
  {
    assert Claimed(w.cities[c].tech, w.cities[c].castleid) == tech;
    hide Claimed;
  }

  /** The speed-ups of research move its end. */
  lemma SpeedUpResearchExact(w: Shape, c: nat, reduce: int, tech: nat)
    requires c < |w.cities| && FirstClaim(w.cities[c].tech, tech, w.cities[c].castleid)
    ensures var x := w.cities[c];
      var v, u, t := SpeedUpResearch(w, c, reduce), SpeedUpResearchFree(w, c), x.tech[tech];
      && v.researchlist == u.researchlist == w.researchlist
      && OnlySlot(w, v, c, tech, t.(endtime := t.endtime - reduce), x.researching) && v.cities[c].res == x.res
      && if t.endtime <= t.starttime + 300000
         then OnlySlot(w, u, c, tech, t.(endtime := t.endtime - 300000), x.researching) && u.cities[c].res == x.res
         else u == w
  {
    assert Claimed(w.cities[c].tech, w.cities[c].castleid) == tech;
    hide Claimed;
  }

  /** Without a slot that carries the city's id there is nothing to be given up or to be sped up. */
  lemma NoClaim(p: Prices, w: Shape, c: nat, reduce: int)
    requires c < |w.cities|
    requires forall t | 0 <= t < |w.cities[c].tech| :: w.cities[c].tech[t].castleid != w.cities[c].castleid
    ensures CancelResearch(p, w, c) == SpeedUpResearch(w, c, reduce) == SpeedUpResearchFree(w, c) == w
  {
  }
}
