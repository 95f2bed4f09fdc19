/** Training queues and the buildings they belong to. */
module Barracks {
  import opened Economy
  import opened World
  import opened Construction
  import Training

  predicate Trains(b: Building)
  {
    (b.typ == BARRACKS || b.typ == WALLS) && b.level > 0
  }

  ghost predicate Apart(qs: seq<Training.Queue>)
  {
    forall i, j | 0 <= i < j < |qs| :: qs[i].positionid != qs[j].positionid
  }

  /** Every barracks or wall of the inner city has a queue. */
  ghost predicate Served(buildings: seq<Building>, qs: seq<Training.Queue>)
  {
    forall s | 0 <= s < 35 && s < |buildings| && Trains(buildings[s]) :: QueueAt(qs, PositionOf(s)) >= 0
  }

  ghost predicate Disciplined(qs: seq<Training.Queue>)
  {
    forall i | 0 <= i < |qs| :: Training.Valid(qs[i])
  }

  ghost predicate QueuesOk(x: City)
  {
    |x.buildings| == 76 && Apart(x.queues) && Served(x.buildings, x.queues) && Disciplined(x.queues)
  }

  /** No position has two queues. */
  lemma ExactlyOne(x: City, s: nat)
    requires QueuesOk(x) && s < 35 && Trains(x.buildings[s])
    ensures exists i :: 0 <= i < |x.queues| && x.queues[i].positionid == PositionOf(s)
                        && forall j | 0 <= j < |x.queues| && x.queues[j].positionid == PositionOf(s) :: j == i
  {
    var i := QueueAt(x.queues, PositionOf(s));
    assert x.queues[i].positionid == PositionOf(s);
  }

  lemma AppendKeeps(qs: seq<Training.Queue>, q: Training.Queue)
    requires Apart(qs) && Disciplined(qs) && q.queue == [] && QueueAt(qs, q.positionid) < 0
    ensures var r := qs + [q];
      && Apart(r) && Disciplined(r) && QueueAt(r, q.positionid) >= 0
      && forall p :: QueueAt(qs, p) >= 0 ==> QueueAt(r, p) >= 0
  {
    var r := qs + [q];
    assert r[|qs|] == q;
    forall p | QueueAt(qs, p) >= 0 ensures QueueAt(r, p) >= 0 { assert r[QueueAt(qs, p)].positionid == p; }
  }

  lemma EraseKeeps(qs: seq<Training.Queue>, i: nat)
    requires Apart(qs) && Disciplined(qs) && i < |qs|
    ensures var r := qs[..i] + qs[i + 1..];
      && Apart(r) && Disciplined(r)
      && forall p :: p != qs[i].positionid && QueueAt(qs, p) >= 0 ==> QueueAt(r, p) >= 0
  {
    hide Training.Valid;
    var r := qs[..i] + qs[i + 1..];
    assert forall j {:trigger r[j]} | 0 <= j < |r| :: r[j] == qs[if j < i then j else j + 1];
    forall p | p != qs[i].positionid && QueueAt(qs, p) >= 0 ensures QueueAt(r, p) >= 0 {
      var j := QueueAt(qs, p);
      assert r[if j < i then j else j - 1].positionid == p;
    }
  }

  lemma SetQueuesKeeps(qs: seq<Training.Queue>, typ: int, level: int, position: int)
    requires Apart(qs) && Disciplined(qs) && level >= 0
    ensures var r := SetQueues(qs, typ, level, position);
      && Apart(r) && Disciplined(r)
      && (forall p :: p != position && QueueAt(qs, p) >= 0 ==> QueueAt(r, p) >= 0)
      && ((typ == BARRACKS || typ == WALLS) && level > 0 ==> QueueAt(r, position) >= 0)
      && (typ != BARRACKS && typ != WALLS ==> r == qs)
  {
    var i := QueueAt(qs, position);
    assert i >= 0 ==> qs[i].positionid == position;
    hide Apart, Disciplined, QueueAt;
    if i < 0 { AppendKeeps(qs, Training.Queue(position, 0, [])); }
    else { EraseKeeps(qs, i); }
  }

  /** Every use of `SetBuilding` keeps the queues in order: building, raising, tearing down, and building
      anew where something was torn down. */
  lemma SetBuildingKeeps(x: City, typ: int, level: int, position: int, status: int, starttime: int, endtime: int)
    requires QueuesOk(x) && level >= 0
    ensures QueuesOk(SetBuilding(x, typ, level, position, status, starttime, endtime))
  {
    if Settable(position) {
      var y := SetBuilding(x, typ, level, position, status, starttime, endtime);
      SlotPosition(position);
      if position <= 1000 { SetQueuesKeeps(x.queues, typ, level, position); }
      hide QueueAt, SetQueues;
      forall s | 0 <= s < 35 && Trains(y.buildings[s]) ensures QueueAt(y.queues, PositionOf(s)) >= 0 {
        if s != Slot(position) { assert y.buildings[s] == x.buildings[s]; }
      }
    }
  }

  ghost predicate SameKinds(x: City, y: City)
  {
    && y.queues == x.queues && |y.buildings| == |x.buildings|
    && forall s | 0 <= s < |x.buildings| ::
         y.buildings[s].typ == x.buildings[s].typ && y.buildings[s].level == x.buildings[s].level
  }

  lemma KindsKeep(x: City, y: City)
    requires QueuesOk(x) && SameKinds(x, y)
    ensures QueuesOk(y)
  {
    hide QueueAt;
    forall s | 0 <= s < 35 && Trains(y.buildings[s]) ensures QueueAt(y.queues, PositionOf(s)) >= 0 {
      assert Trains(x.buildings[s]);
    }
  }

  /** One queue is replaced by another of the same position. */
  lemma QueueKeeps(x: City, y: City, i: nat, q: Training.Queue)
    requires QueuesOk(x) && i < |x.queues| && y.buildings == x.buildings && y.queues == x.queues[i := q]
    requires Training.Valid(q) && q.positionid == x.queues[i].positionid
    ensures QueuesOk(y)
  {
    SamePositions(x.queues, y.queues);
    hide QueueAt;
  }

  lemma SamePositions(qs: seq<Training.Queue>, r: seq<Training.Queue>)
    requires |r| == |qs| && forall i | 0 <= i < |qs| :: r[i].positionid == qs[i].positionid
    ensures forall p :: QueueAt(qs, p) >= 0 ==> QueueAt(r, p) >= 0
    ensures Apart(qs) ==> Apart(r)
  {
    forall p | QueueAt(qs, p) >= 0 ensures QueueAt(r, p) >= 0 {
      assert r[QueueAt(qs, p)].positionid == p;
    }
  }

  lemma TrainingPassKeeps(x: City, now: int)
    requires QueuesOk(x) && now > 0
    ensures QueuesOk(TrainingPass(x, now))
  {
    var y := TrainingPass(x, now);
    SamePositions(x.queues, y.queues);
    forall i | 0 <= i < |y.queues| ensures Training.Valid(y.queues[i]) { Training.TickValid(x.queues[i], now); }
    hide QueueAt;
  }

  // ---- The commands and the timer -------------------------------------------------------------------

  ghost predicate AllQueuesOk(w: Shape)
  {
    forall c | 0 <= c < |w.cities| :: QueuesOk(w.cities[c])
  }

  lemma NewBuildingQueues(p: Prices, w: Shape, c: nat, typ: int, position: int, allowed: bool, duration: int, now: int)
    requires AllQueuesOk(w) && c < |w.cities|
    ensures AllQueuesOk(NewBuilding(p, w, c, typ, position, allowed, duration, now))
  {
    hide Idle, SetBuilding, Served, Apart, Disciplined;
    var x := w.cities[c];
    if NewBuilding(p, w, c, typ, position, allowed, duration, now) != w {
      SetBuildingKeeps(x.(res := x.res.Minus(p.building(typ, 0).Times(1))), typ, 0, position, 1, now, now + duration);
    }
  }

  lemma UpgradeQueues(p: Prices, w: Shape, c: nat, position: int, allowed: bool, duration: int, now: int)
    requires AllQueuesOk(w) && BuildInv(w) && c < |w.cities|
    ensures AllQueuesOk(UpgradeBuilding(p, w, c, position, allowed, duration, now))
  {
    hide Idle, SetBuilding, Served, Apart, Disciplined, EventsOk;
    var x := w.cities[c];
    if UpgradeBuilding(p, w, c, position, allowed, duration, now) != w {
      var b := x.buildings[Slot(position)];
      assert SlotOk(b, Slot(position));
      SetBuildingKeeps(x.(res := x.res.Minus(p.building(b.typ, b.level).Times(1))), b.typ, b.level, position, 1, now,
          now + duration);
    }
  }

  lemma DestructQueues(w: Shape, c: nat, position: int, duration: int, now: int)
    requires AllQueuesOk(w) && BuildInv(w) && c < |w.cities|
    ensures AllQueuesOk(DestructBuilding(w, c, position, duration, now))
  {
    hide Idle, SetBuilding, Served, Apart, Disciplined, EventsOk;
    var x := w.cities[c];
    if DestructBuilding(w, c, position, duration, now) != w {
      var b := x.buildings[Slot(position)];
      assert SlotOk(b, Slot(position));
      SetBuildingKeeps(x, b.typ, b.level, position, 2, now, now + duration);
    }
  }

  lemma SettleQueues(z: City, b: Building, position: int)
    requires QueuesOk(z) && b.level >= 0
    ensures QueuesOk(Settle(z, b, position))
  {
    hide SetBuilding, QueuesOk;
    if b.level == 0 { SetBuildingKeeps(z, 0, 0, position, 0, 0, 0); }
    else { SetBuildingKeeps(z, b.typ, b.level, position, 0, 0, 0); }
  }

  lemma CancelQueues(w: Shape, position: int)
    requires AllQueuesOk(w) && BuildInv(w)
    ensures AllQueuesOk(CancelBuilding(w, position))
  {
    hide Settle, EventsOk;
    var i := EventAt(w.buildlist, position);
    if i >= 0 {
      var x := w.cities[w.buildlist[i].city];
      var s := Slot(position);
      var b := x.buildings[s];
      assert SlotOk(b, s);
      if b.status != 0 {
        var z := x.(buildings := x.buildings[s := b.(status := 0)]);
        KindsKeep(x, z);
        hide QueuesOk;
        SettleQueues(z, b, position);
      }
    }
  }

  lemma SpeedUpQueues(w: Shape, c: nat, position: int, reduce: int)
    requires AllQueuesOk(w) && BuildInv(w) && c < |w.cities|
    ensures AllQueuesOk(SpeedUpFree(w, c, position)) && AllQueuesOk(SpeedUpItem(w, c, position, reduce))
  {
    hide EventsOk, SetBuilding;
    var x := w.cities[c];
    var s := Slot(position);
    if s >= 0 {
      var b := x.buildings[s];
      assert SlotOk(b, s);
      var f := x.(buildings := x.buildings[s := b.(endtime := b.endtime - 300000)]);
      var z := x.(buildings := x.buildings[s := b.(endtime := b.endtime - reduce)]);
      KindsKeep(x, f);
      KindsKeep(x, z);
      hide QueuesOk;
      SetBuildingKeeps(z, b.typ, b.level, b.id, b.status, b.starttime, b.endtime - reduce);
    }
  }

  /** The building that an event names. */
  lemma Named(w: Shape, i: nat)
    requires BuildInv(w) && i < |w.buildlist|
    ensures var e := w.buildlist[i];
      var b := w.cities[e.city].buildings[Slot(e.position)];
      && Settable(e.position) && SlotOk(b, Slot(e.position)) && (b.status == 1 || b.status == 2)
  {
    var e := w.buildlist[i];
    assert SlotsOk(w.cities[e.city]) && OnlyBusy(w.cities[e.city], Slot(e.position));
  }

  lemma FinishQueues(p: Prices, w: Shape, i: nat)
    requires AllQueuesOk(w) && BuildInv(w) && i < |w.buildlist|
    ensures AllQueuesOk(FinishBuilding(p, w, i))
  {
    hide BuildInv, QueuesOk, SetBuilding, Settle, AllQueuesOk, FinishBuilding;
    Named(w, i);
    var e := w.buildlist[i];
    var x := w.cities[e.city];
    CityOk(w, e.city);
    FinishCityQueues(p, x, x.buildings[Slot(e.position)], e.position);
    FinishIs(p, w, i, x, x.buildings[Slot(e.position)]);
    OneCity(w, FinishBuilding(p, w, i), e.city);
  }

  lemma CityOk(w: Shape, c: nat)
    requires AllQueuesOk(w) && c < |w.cities|
    ensures QueuesOk(w.cities[c])
  {
  }

  lemma FinishIs(p: Prices, w: Shape, i: nat, x: City, b: Building)
    requires i < |w.buildlist| && x == w.cities[w.buildlist[i].city] && b == x.buildings[Slot(w.buildlist[i].position)]
    ensures var e := w.buildlist[i];
      FinishBuilding(p, w, i).cities == w.cities[e.city :=
        if b.status == 1 then SetBuilding(x, b.typ, b.level + 1, e.position, 0, 0, 0)
        else Settle(x.(res := x.res.Plus(p.building(b.typ, b.level - 1).Third(1))), b.(level := b.level - 1),
            e.position)]
  {
    hide SetBuilding, Settle;
  }

  lemma OneCity(w: Shape, v: Shape, c: nat)
    requires AllQueuesOk(w) && c < |w.cities| && |v.cities| == |w.cities| && v.cities == w.cities[c := v.cities[c]]
    requires QueuesOk(v.cities[c])
    ensures AllQueuesOk(v)
  {
    hide QueuesOk;
  }

  lemma FinishCityQueues(p: Prices, x: City, b: Building, position: int)
    requires QueuesOk(x) && b.level >= 0 && (b.status == 2 ==> b.level > 0)
    ensures b.status == 1 ==> QueuesOk(SetBuilding(x, b.typ, b.level + 1, position, 0, 0, 0))
    ensures b.status == 2 ==>
      QueuesOk(Settle(x.(res := x.res.Plus(p.building(b.typ, b.level - 1).Third(1))), b.(level := b.level - 1),
          position))
  {
    hide SetBuilding, Settle, QueuesOk;
    if b.status == 1 {
      SetBuildingKeeps(x, b.typ, b.level + 1, position, 0, 0, 0);
    } else if b.status == 2 {
      var z := x.(res := x.res.Plus(p.building(b.typ, b.level - 1).Third(1)));
      ResOnly(x, z);
      SettleQueues(z, b.(level := b.level - 1), position);
    }
  }

  lemma ResOnly(x: City, z: City)
    requires QueuesOk(x) && z.buildings == x.buildings && z.queues == x.queues
    ensures QueuesOk(z)
  {
  }

  lemma {:induction false} BuildingPassQueues(p: Prices, w: Shape, i: nat, now: int)
    requires AllQueuesOk(w) && BuildInv(w)
    ensures AllQueuesOk(BuildingPass(p, w, i, now))
    decreases |w.buildlist| - i
  {
    hide BuildInv, FinishBuilding, AllQueuesOk;
    if i < |w.buildlist| {
      var e := w.buildlist[i];
      var b := w.cities[e.city].buildings[Slot(e.position)];
      if b.endtime < now && (b.status == 1 || b.status == 2) {
        FinishInv(p, w, i);
        FinishQueues(p, w, i);
        FinishShrinks(p, w, i);
        BuildingPassQueues(p, FinishBuilding(p, w, i), i, now);
      } else {
        BuildingPassQueues(p, w, i + 1, now);
      }
    }
  }

  lemma ProduceQueues(p: Prices, w: Shape, c: nat, position: int, troopid: int, count: nat, unit: nat, now: int)
    requires AllQueuesOk(w) && c < |w.cities| && now > 0
    ensures AllQueuesOk(Produce(p, w, c, position, troopid, count, unit, now))
  {
    hide Served, Apart;
    var x := w.cities[c];
    var i := QueueAt(x.queues, position);
    if i >= 0 && Slot(position) >= 0 {
      var q := Training.Add(x.queues[i], x.buildings[Slot(position)].level, troopid, count, unit, now);
      Training.Product(unit, count);
      if q != x.queues[i] {
        Training.AddValid(x.queues[i], x.buildings[Slot(position)].level, troopid, count, unit, now);
      }
      QueueKeeps(x, x.(res := x.res.Minus(p.troop(troopid).Times(count)), queues := x.queues[i := q]), i, q);
    }
  }

  /** An order keeps queues in order exactly when it is refused, finds the queue full, or does not take negative
      time; the handler asks for none of these. */
  lemma ProduceQueuesExact(p: Prices, w: Shape, c: nat, position: int, troopid: int, count: int, unit: nat, now: int)
    requires AllQueuesOk(w) && c < |w.cities| && now > 0
    ensures AllQueuesOk(Produce(p, w, c, position, troopid, count, unit, now)) <==>
            !Ordered(p, w, c, position, troopid, count) || Full(w, c, position) || unit * count >= 0
  {
    hide Served, Apart;
    var x := w.cities[c];
    var v := Produce(p, w, c, position, troopid, count, unit, now);
    if Ordered(p, w, c, position, troopid, count) {
      var i := QueueAt(x.queues, position);
      assert QueuesOk(x) && Training.Valid(x.queues[i]);
      var q := Training.Add(x.queues[i], x.buildings[Slot(position)].level, troopid, count, unit, now);
      assert v.cities == w.cities[c := v.cities[c]] && v.cities[c].queues == x.queues[i := q];
      if !Full(w, c, position) {
        AddedValid(x.queues[i], x.buildings[Slot(position)].level, troopid, count, unit, now);
      }
      hide Training.Valid, Training.Add, QueueAt, Produce;
      if Training.Valid(q) {
        QueueKeeps(x, v.cities[c], i, q);
        OneCity(w, v, c);
      } else {
        NotDisciplined(v, c, i);
      }
    }
  }

  lemma AddedValid(q: Training.Queue, level: int, troopid: int, count: int, unit: nat, now: int)
    requires Training.Valid(q) && |q.queue| < level && now > 0
    ensures Training.Valid(Training.Add(q, level, troopid, count, unit, now)) <==> unit * count >= 0
  {
    Training.AddValid(q, level, troopid, count, unit, now);
    hide Training.Valid, Training.Add;
  }

  lemma NotDisciplined(w: Shape, c: nat, i: nat)
    requires c < |w.cities| && i < |w.cities[c].queues| && !Training.Valid(w.cities[c].queues[i])
    ensures !AllQueuesOk(w)
  {
    hide Training.Valid, Apart, Served;
    assert !Disciplined(w.cities[c].queues);
    assert !QueuesOk(w.cities[c]);
  }

  lemma CancelProduceQueues(p: Prices, w: Shape, c: nat, position: int, queueid: int, now: int)
    requires AllQueuesOk(w) && c < |w.cities| && now > 0
    ensures AllQueuesOk(CancelProduce(p, w, c, position, queueid, now))
  {
    hide Served, Apart, Training.Remove;
    var x := w.cities[c];
    var i := QueueAt(x.queues, position);
    var v := CancelProduce(p, w, c, position, queueid, now);
    if v != w {
      var q := x.queues[i];
      var r := Training.Cancel(q, queueid, now);
      Training.CancelValid(q, queueid, now);
      CancelPosition(q, queueid, now);
      QueueKeeps(x, v.cities[c], i, r);
    }
  }

  lemma CancelPosition(q: Training.Queue, queueid: int, now: int)
    ensures Training.Cancel(q, queueid, now).positionid == q.positionid
  {
  }

  lemma AllTrainingQueues(w: Shape, now: int)
    requires AllQueuesOk(w) && now > 0
    ensures AllQueuesOk(AllTraining(w, now))
  {
    forall c | 0 <= c < |w.cities| ensures QueuesOk(AllTraining(w, now).cities[c]) {
      TrainingPassKeeps(w.cities[c], now);
    }
  }
}
