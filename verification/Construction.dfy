/** Construction events and busy buildings belong together: in every reachable state each city has at most one
    event, and its event names its one busy building. And every barracks has its training queue. */
module Construction {
  import opened Economy
  import opened World
  import Training

  function PositionOf(slot: nat): int
    requires slot < 76
  {
    if slot < 35 then slot - 2 else slot - 35 + 1000
  }

  /** A building knows its position, or its slot was never set. */
  predicate SlotOk(b: Building, slot: nat)
    requires slot < 76
  {
    && (b.id == PositionOf(slot) || (b.id == 0 && b.typ == 0 && b.level == 0 && b.status == 0))
    && 0 <= b.status <= 2
    && b.level >= 0
    && (b.status == 2 ==> b.level > 0)
    && (!Settable(PositionOf(slot)) ==> b.typ == 0 && b.status == 0)
    && (b.typ == 0 ==> b.status == 0 && b.level == 0)
  }

  ghost predicate SlotsOk(x: City)
  {
    |x.buildings| == 76 && forall s | 0 <= s < 76 :: SlotOk(x.buildings[s], s)
  }

  /** The building in this slot is under construction or being torn down, and no other one is. */
  ghost predicate OnlyBusy(x: City, slot: int)
  {
    forall s | 0 <= s < |x.buildings| :: x.buildings[s].status != 0 <==> s == slot
  }

  ghost predicate HasEvent(l: seq<BuildEvent>, c: nat)
  {
    exists i :: 0 <= i < |l| && l[i].city == c
  }

  ghost predicate EventsOk(cities: seq<City>, l: seq<BuildEvent>)
  {
    && (forall i | 0 <= i < |l| ::
          l[i].city < |cities| && Settable(l[i].position) && OnlyBusy(cities[l[i].city], Slot(l[i].position)))
    && (forall i, j | 0 <= i < j < |l| :: l[i].city != l[j].city)
    && (forall c | 0 <= c < |cities| :: Idle(cities[c]) || HasEvent(l, c))
  }

  ghost predicate BuildInv(w: Shape)
  {
    (forall c | 0 <= c < |w.cities| :: SlotsOk(w.cities[c])) && EventsOk(w.cities, w.buildlist)
  }

  /** Read as a bijection: each event names a building that is being built or torn down, each such building
      is named, and by no second event. */
  lemma Bijection(w: Shape)
    requires BuildInv(w)
    ensures forall i | 0 <= i < |w.buildlist| ::
              w.cities[w.buildlist[i].city].buildings[Slot(w.buildlist[i].position)].status in {1, 2}
    ensures forall c, s | 0 <= c < |w.cities| && 0 <= s < 76 && w.cities[c].buildings[s].status != 0 ::
              exists i :: 0 <= i < |w.buildlist| && w.buildlist[i] == BuildEvent(c, PositionOf(s))
    ensures forall i, j | 0 <= i < j < |w.buildlist| :: w.buildlist[i] != w.buildlist[j]
  {
    forall i | 0 <= i < |w.buildlist|
      ensures w.cities[w.buildlist[i].city].buildings[Slot(w.buildlist[i].position)].status in {1, 2}
    {
      assert SlotOk(w.cities[w.buildlist[i].city].buildings[Slot(w.buildlist[i].position)],
          Slot(w.buildlist[i].position));
    }
    forall c, s | 0 <= c < |w.cities| && 0 <= s < 76 && w.cities[c].buildings[s].status != 0
      ensures exists i :: 0 <= i < |w.buildlist| && w.buildlist[i] == BuildEvent(c, PositionOf(s))
    {
      BusyHasEvent(w, c, s);
    }
  }

  lemma BusyHasEvent(w: Shape, c: nat, s: nat)
    requires BuildInv(w) && c < |w.cities| && s < 76 && w.cities[c].buildings[s].status != 0
    ensures exists i :: 0 <= i < |w.buildlist| && w.buildlist[i] == BuildEvent(c, PositionOf(s))
  {
    var i :| 0 <= i < |w.buildlist| && w.buildlist[i].city == c;
    assert OnlyBusy(w.cities[c], Slot(w.buildlist[i].position));
    assert w.buildlist[i] == BuildEvent(c, PositionOf(s));
  }

  // ---- What a step may do -------------------------------------------------------------------------

  lemma SetBuildingSlots(x: City, typ: int, level: int, position: int, status: int, starttime: int, endtime: int)
    requires SlotsOk(x) && 0 <= status <= 2 && level >= 0 && (status == 2 ==> level > 0)
             && (typ == 0 ==> status == 0 && level == 0)
    ensures var y := SetBuilding(x, typ, level, position, status, starttime, endtime);
      SlotsOk(y) && (Settable(position) ==>
        y.buildings == x.buildings[Slot(position) := Building(position, typ, level, status, starttime, endtime)])
  {
  }

  /** Something is started in an idle city. */
  lemma Starts(w: Shape, c: nat, y: City, position: int)
    requires BuildInv(w) && c < |w.cities| && Idle(w.cities[c]) && |y.tech| == 25
    requires SlotsOk(y) && Settable(position) && OnlyBusy(y, Slot(position))
    ensures BuildInv(Put(w, c, y).(buildlist := w.buildlist + [BuildEvent(c, position)]))
  {
    hide SlotsOk;
    var l := w.buildlist + [BuildEvent(c, position)];
    var cities := w.cities[c := y];
    assert forall i | 0 <= i < |w.buildlist| :: w.buildlist[i].city != c by {
      forall i | 0 <= i < |w.buildlist| ensures w.buildlist[i].city != c {
        NotIdle(w.cities[w.buildlist[i].city], Slot(w.buildlist[i].position));
      }
    }
    hide OnlyBusy, Idle;
    forall d | 0 <= d < |cities| ensures Idle(cities[d]) || HasEvent(l, d) {
      if d == c {
        assert l[|w.buildlist|].city == d;
      } else if HasEvent(w.buildlist, d) {
        var i :| 0 <= i < |w.buildlist| && w.buildlist[i].city == d;
        assert l[i].city == d;
      }
    }
  }

  lemma NotIdle(x: City, slot: int)
    requires OnlyBusy(x, slot) && 0 <= slot < |x.buildings|
    ensures !Idle(x)
  {
    assert x.buildings[slot].status != 0;
  }

  /** The work of an event is done or given up. */
  lemma Ends(w: Shape, i: nat, y: City)
    requires BuildInv(w) && i < |w.buildlist| && |y.tech| == 25
    requires SlotsOk(y) && Idle(y)
    ensures BuildInv(Put(DropBuild(w, i), w.buildlist[i].city, y))
  {
    hide SlotsOk, OnlyBusy, Idle;
    var c := w.buildlist[i].city;
    var l := w.buildlist[..i] + w.buildlist[i + 1..];
    var cities := w.cities[c := y];
    assert forall j | 0 <= j < |l| :: l[j] == w.buildlist[if j < i then j else j + 1];
    forall d | 0 <= d < |cities| ensures Idle(cities[d]) || HasEvent(l, d) {
      if d != c && HasEvent(w.buildlist, d) {
        var j :| 0 <= j < |w.buildlist| && w.buildlist[j].city == d;
        assert l[if j < i then j else j - 1].city == d;
      }
    }
  }

  ghost predicate SameStatus(x: City, y: City)
  {
    |x.buildings| == |y.buildings|
        && forall s | 0 <= s < |x.buildings| :: x.buildings[s].status == y.buildings[s].status
  }

  /** A step that touches no status. */
  lemma Keeps(w: Shape, c: nat, y: City)
    requires BuildInv(w) && c < |w.cities| && SlotsOk(y) && SameStatus(w.cities[c], y) && |y.tech| == 25
    ensures BuildInv(Put(w, c, y))
  {
    hide SlotsOk;
    var cities := w.cities[c := y];
    StatusOnly(w.cities[c], y);
    hide SameStatus;
    assert forall i | 0 <= i < |w.buildlist| :: OnlyBusy(w.cities[w.buildlist[i].city], Slot(w.buildlist[i].position));
    hide OnlyBusy, Idle;
    assert forall d | 0 <= d < |cities| :: d == c || cities[d] == w.cities[d];
  }

  lemma StatusOnly(x: City, y: City)
    requires SameStatus(x, y)
    ensures Idle(x) <==> Idle(y)
    ensures forall s :: OnlyBusy(x, s) <==> OnlyBusy(y, s)
  {
    if Idle(x) { assert forall s | 0 <= s < |x.buildings| :: y.buildings[s].status == 0; }
    if Idle(y) { assert forall s | 0 <= s < |x.buildings| :: x.buildings[s].status == 0; }
    forall s ensures OnlyBusy(x, s) <==> OnlyBusy(y, s) {
    }
  }

  // ---- The commands and the timer -------------------------------------------------------------------

  lemma Begun(x: City, y: City, position: int, b: Building)
    requires |x.buildings| == 76 && Idle(x) && Settable(position) && b.status != 0
    requires y.buildings == x.buildings[Slot(position) := b]
    ensures OnlyBusy(y, Slot(position))
  {
  }

  lemma Ended(x: City, y: City, position: int, b: Building)
    requires |x.buildings| == 76 && Settable(position) && OnlyBusy(x, Slot(position)) && b.status == 0
    requires y.buildings == x.buildings[Slot(position) := b]
    ensures Idle(y)
  {
  }

  lemma NewBuildingInv(p: Prices, w: Shape, c: nat, typ: int, position: int, allowed: bool, duration: int, now: int)
    requires BuildInv(w) && c < |w.cities|
    ensures BuildInv(NewBuilding(p, w, c, typ, position, allowed, duration, now))
  {
    hide EventsOk, SlotsOk, OnlyBusy, Idle;
    var x := w.cities[c];
    if NewBuilding(p, w, c, typ, position, allowed, duration, now) != w {
      var z := x.(res := x.res.Minus(p.building(typ, 0).Times(1)));
      OtherFields(x, z);
      SetBuildingSlots(z, typ, 0, position, 1, now, now + duration);
      var y := SetBuilding(z, typ, 0, position, 1, now, now + duration);
      Begun(z, y, position, Building(position, typ, 0, 1, now, now + duration));
      Starts(w, c, y, position);
    }
  }

  /** Only the buildings matter here. */
  lemma OtherFields(x: City, z: City)
    requires x.buildings == z.buildings
    ensures SlotsOk(x) <==> SlotsOk(z)
    ensures Idle(x) <==> Idle(z)
    ensures forall s :: OnlyBusy(x, s) <==> OnlyBusy(z, s)
    ensures SameStatus(x, z)
  {
  }

  lemma SlotPosition(position: int)
    requires Slot(position) >= 0
    ensures PositionOf(Slot(position)) == position
  {
  }

  lemma UpgradeInv(p: Prices, w: Shape, c: nat, position: int, allowed: bool, duration: int, now: int)
    requires BuildInv(w) && c < |w.cities|
    ensures BuildInv(UpgradeBuilding(p, w, c, position, allowed, duration, now))
  {
    hide EventsOk, OnlyBusy, Idle;
    var x := w.cities[c];
    if UpgradeBuilding(p, w, c, position, allowed, duration, now) != w {
      SlotPosition(position);
      var b := x.buildings[Slot(position)];
      assert SlotOk(b, Slot(position));
      hide SlotsOk;
      var z := x.(res := x.res.Minus(p.building(b.typ, b.level).Times(1)));
      OtherFields(x, z);
      SetBuildingSlots(z, b.typ, b.level, position, 1, now, now + duration);
      var y := SetBuilding(z, b.typ, b.level, position, 1, now, now + duration);
      Begun(z, y, position, Building(position, b.typ, b.level, 1, now, now + duration));
      Starts(w, c, y, position);
    }
  }

  lemma DestructInv(w: Shape, c: nat, position: int, duration: int, now: int)
    requires BuildInv(w) && c < |w.cities|
    ensures BuildInv(DestructBuilding(w, c, position, duration, now))
  {
    hide EventsOk, OnlyBusy, Idle;
    var x := w.cities[c];
    if DestructBuilding(w, c, position, duration, now) != w {
      SlotPosition(position);
      var b := x.buildings[Slot(position)];
      assert SlotOk(b, Slot(position));
      hide SlotsOk;
      SetBuildingSlots(x, b.typ, b.level, position, 2, now, now + duration);
      var y := SetBuilding(x, b.typ, b.level, position, 2, now, now + duration);
      Begun(x, y, position, Building(position, b.typ, b.level, 2, now, now + duration));
      Starts(w, c, y, position);
    }
  }

  lemma SettleEnds(x: City, z: City, b: Building, position: int)
    requires SlotsOk(x) && OnlyBusy(x, Slot(position)) && Settable(position) && b.level >= 0
             && (b.level > 0 ==> b.typ != 0)
    requires z.buildings == x.buildings
             || (Slot(position) >= 0
                 && z.buildings == x.buildings[Slot(position) := x.buildings[Slot(position)].(status := 0)])
    ensures SlotsOk(Settle(z, b, position)) && Idle(Settle(z, b, position))
    ensures |Settle(z, b, position).tech| == |z.tech|
  {
    var y := Settle(z, b, position);
    var s := Slot(position);
    var typ, level := if b.level == 0 then 0 else b.typ, b.level;
    assert y.buildings == x.buildings[s := Building(position, typ, level, 0, 0, 0)];
  }

  lemma CancelInv(w: Shape, position: int)
    requires BuildInv(w)
    ensures BuildInv(CancelBuilding(w, position))
  {
    var i := EventAt(w.buildlist, position);
    if i >= 0 {
      var c := w.buildlist[i].city;
      var x := w.cities[c];
      var s := Slot(position);
      var b := x.buildings[s];
      assert SlotOk(b, s);
      if b.status != 0 {
        var z := x.(buildings := x.buildings[s := b.(status := 0)]);
        SettleEnds(x, z, b, position);
        Ends(w, i, Settle(z, b, position));
      }
    }
  }

  lemma FinishInv(p: Prices, w: Shape, i: nat)
    requires BuildInv(w) && i < |w.buildlist|
    ensures BuildInv(FinishBuilding(p, w, i))
  {
    var e := w.buildlist[i];
    var x := w.cities[e.city];
    var b := x.buildings[Slot(e.position)];
    assert SlotsOk(x) && SlotOk(b, Slot(e.position)) && OnlyBusy(x, Slot(e.position)) && b.status != 0;
    if b.status == 1 {
      hide BuildInv, SlotsOk, OnlyBusy, SetBuilding;
      Ends(w, i, Raised(x, b, e.position));
    } else {
      FinishDown(p, w, i, x, b, e.position);
    }
  }

  lemma FinishDown(p: Prices, w: Shape, i: nat, x: City, b: Building, position: int)
    requires BuildInv(w) && i < |w.buildlist| && w.buildlist[i].position == position
             && x == w.cities[w.buildlist[i].city]
    requires SlotsOk(x) && OnlyBusy(x, Slot(position)) && Settable(position) && b == x.buildings[Slot(position)]
    requires b.status == 2 && b.level > 0 && b.typ != 0
    ensures BuildInv(FinishBuilding(p, w, i))
  {
    hide BuildInv, SlotsOk, OnlyBusy, SetBuilding, Settle;
    var z := x.(res := x.res.Plus(p.building(b.typ, b.level - 1).Third(1)));
    var y := Settle(z, b.(level := b.level - 1), position);
    SettleEnds(x, z, b.(level := b.level - 1), position);
    Ends(w, i, y);
    assert FinishBuilding(p, w, i) == Put(DropBuild(w, i), w.buildlist[i].city, y);
  }

  /** One level up. */
  ghost function Raised(x: City, b: Building, position: int): (y: City)
    requires SlotsOk(x) && OnlyBusy(x, Slot(position)) && Settable(position) && b.typ != 0 && b.level >= 0
    ensures y == SetBuilding(x, b.typ, b.level + 1, position, 0, 0, 0)
    ensures SlotsOk(y) && Idle(y) && |y.tech| == |x.tech|
  {
    SetBuildingSlots(x, b.typ, b.level + 1, position, 0, 0, 0);
    var y := SetBuilding(x, b.typ, b.level + 1, position, 0, 0, 0);
    Ended(x, y, position, Building(position, b.typ, b.level + 1, 0, 0, 0));
    y
  }

  lemma {:induction false} BuildingPassInv(p: Prices, w: Shape, i: nat, now: int)
    requires BuildInv(w)
    ensures BuildInv(BuildingPass(p, w, i, now))
    decreases |w.buildlist| - i
  {
    hide BuildInv, FinishBuilding;
    if i < |w.buildlist| {
      var e := w.buildlist[i];
      var b := w.cities[e.city].buildings[Slot(e.position)];
      if b.endtime < now && (b.status == 1 || b.status == 2) {
        FinishInv(p, w, i);
        FinishShrinks(p, w, i);
        BuildingPassInv(p, FinishBuilding(p, w, i), i, now);
      } else {
        BuildingPassInv(p, w, i + 1, now);
      }
    }
  }

  lemma FinishShrinks(p: Prices, w: Shape, i: nat)
    requires i < |w.buildlist|
    ensures |FinishBuilding(p, w, i).buildlist| == |w.buildlist| - 1
  {
  }

  /** The work of event `i` is not due. */
  predicate Waits(w: Shape, i: nat, now: int)
    requires i < |w.buildlist|
  {
    w.cities[w.buildlist[i].city].buildings[Slot(w.buildlist[i].position)].endtime >= now
  }

  ghost predicate AllWait(w: Shape, now: int)
  {
    forall i | 0 <= i < |w.buildlist| :: Waits(w, i, now)
  }

  lemma FinishKeepsOthers(p: Prices, w: Shape, i: nat, now: int)
    requires BuildInv(w) && i < |w.buildlist|
    ensures var v := FinishBuilding(p, w, i);
      |v.buildlist| == |w.buildlist| - 1 && forall j | 0 <= j < i :: Waits(v, j, now) == Waits(w, j, now)
  {
    var v := FinishBuilding(p, w, i);
    assert forall j | 0 <= j < i :: v.buildlist[j] == w.buildlist[j] && w.buildlist[j].city != w.buildlist[i].city;
    hide BuildInv, SetBuilding, Settle;
  }

  /** Nothing is left behind: after a pass no event waits whose work is due. */
  lemma {:induction false} PassFinishesDue(p: Prices, w: Shape, i: nat, now: int)
    requires BuildInv(w) && i <= |w.buildlist| && forall j | 0 <= j < i :: Waits(w, j, now)
    ensures AllWait(BuildingPass(p, w, i, now), now)
    decreases |w.buildlist| - i
  {
    hide BuildInv, FinishBuilding;
    if i < |w.buildlist| {
      Underway(w, i);
      var e := w.buildlist[i];
      var b := w.cities[e.city].buildings[Slot(e.position)];
      if b.endtime < now {
        var u := FinishBuilding(p, w, i);
        FinishInv(p, w, i);
        FinishKeepsOthers(p, w, i, now);
        PassFinishesDue(p, u, i, now);
      } else {
        PassFinishesDue(p, w, i + 1, now);
      }
    }
  }

  /** What an event names is being built or torn down. */
  lemma Underway(w: Shape, i: nat)
    requires BuildInv(w) && i < |w.buildlist|
    ensures var e := w.buildlist[i]; w.cities[e.city].buildings[Slot(e.position)].status in {1, 2}
  {
    var e := w.buildlist[i];
    var x := w.cities[e.city];
    assert SlotsOk(x) && OnlyBusy(x, Slot(e.position)) && SlotOk(x.buildings[Slot(e.position)], Slot(e.position));
  }

  lemma SpeedUpFreeInv(w: Shape, c: nat, position: int)
    requires BuildInv(w) && c < |w.cities|
    ensures BuildInv(SpeedUpFree(w, c, position))
  {
    hide EventsOk;
    var x := w.cities[c];
    if SpeedUpFree(w, c, position) != w {
      var b := x.buildings[Slot(position)];
      assert SlotOk(b, Slot(position));
      Keeps(w, c, x.(buildings := x.buildings[Slot(position) := b.(endtime := b.endtime - 300000)]));
    }
  }

  /** Speeding up by an item writes the building back under the id it carries. For a slot that was never set
      that id is 0, and position 0 is overwritten: all is well exactly when the slot is its own or nothing
      is going on at position 0. */
  lemma SpeedUpItemExact(w: Shape, c: nat, position: int, reduce: int)
    requires BuildInv(w) && c < |w.cities| && Slot(position) >= 0
    ensures BuildInv(SpeedUpItem(w, c, position, reduce)) <==>
            w.cities[c].buildings[Slot(position)].id == position || w.cities[c].buildings[2].status == 0
  {
    var x := w.cities[c];
    var s := Slot(position);
    var b := x.buildings[s];
    var y := SpeedUpItem(w, c, position, reduce).cities[c];
    SlotPosition(position);
    assert SlotsOk(x) && SlotOk(b, s);
    SpeedUpItemSlots(w, c, position, reduce, y);
    if b.id == position || x.buildings[2].status == 0 {
      hide BuildInv, SlotsOk;
      Keeps(w, c, y);
    } else {
      assert y.buildings[2].status == 0 && !Idle(x) by { assert x.buildings[2].status != 0; }
      var i :| 0 <= i < |w.buildlist| && w.buildlist[i].city == c;
      assert Slot(w.buildlist[i].position) == 2 by { assert OnlyBusy(x, Slot(w.buildlist[i].position)); }
      assert !OnlyBusy(y, 2);
      assert SpeedUpItem(w, c, position, reduce).buildlist == w.buildlist;
    }
  }

  lemma SpeedUpItemSlots(w: Shape, c: nat, position: int, reduce: int, y: City)
    requires c < |w.cities| && SlotsOk(w.cities[c]) && Slot(position) >= 0
    requires y == SpeedUpItem(w, c, position, reduce).cities[c]
    ensures SlotsOk(y) && |y.tech| == 25
    ensures var x := w.cities[c];
      if x.buildings[Slot(position)].id == position then SameStatus(x, y)
      else y.buildings[2].status == 0
           && forall s | 0 <= s < 76 && s != 2 :: y.buildings[s].status == x.buildings[s].status
  {
    var x := w.cities[c];
    var s := Slot(position);
    var b := x.buildings[s].(endtime := x.buildings[s].endtime - reduce);
    assert SlotOk(x.buildings[s], s);
    SlotPosition(position);
    var z := x.(buildings := x.buildings[s := b]);
    assert SlotsOk(z);
    SetBuildingSlots(z, b.typ, b.level, b.id, b.status, b.starttime, b.endtime);
  }

  /** The cancel of a city reaches its own building exactly when no other city has an earlier event at the same
      position; otherwise it gives up the building of that other city. */
  lemma CancelHits(w: Shape, c: nat, position: int)
    requires BuildInv(w) && c < |w.cities| && Slot(position) >= 0 && w.cities[c].buildings[Slot(position)].status != 0
    ensures var i := EventAt(w.buildlist, position);
      var v := CancelBuilding(w, position);
      && i >= 0 && |v.cities| == |w.cities|
      && Idle(v.cities[w.buildlist[i].city]) && |v.buildlist| == |w.buildlist| - 1
      && (forall d | 0 <= d < |w.cities| && d != w.buildlist[i].city :: v.cities[d] == w.cities[d])
      && (v.cities[c].buildings[Slot(position)].status == 0 <==> w.buildlist[i].city == c)
  {
    var s := Slot(position);
    SlotPosition(position);
    BusyHasEvent(w, c, s);
    var i := EventAt(w.buildlist, position);
    var d := w.buildlist[i].city;
    var x := w.cities[d];
    assert SlotsOk(x) && OnlyBusy(x, s) && SlotOk(x.buildings[s], s);
    hide BuildInv, EventAt, SlotsOk, OnlyBusy, Settle;
    var z := x.(buildings := x.buildings[s := x.buildings[s].(status := 0)]);
    SettleEnds(x, z, x.buildings[s], position);
  }
}
