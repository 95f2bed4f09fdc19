/** The server's packet handlers and timer thread, changing cities and event lists in place. Every method is
    shown to take the state to what the function of module World takes it to; what is proved there about
    single steps and whole runs is thereby proved about these methods. */
module GameServer {
  import opened Economy
  import opened PlayerCities
  import W = World
  import Training
  import Accrual
  import Runs
  import ResearchWork

  class Server {
    var cities: seq<PlayerCity>
    var buildlist: seq<W.BuildEvent>
    var researchlist: seq<W.TechEvent>

    ghost function View(): W.World
      reads this, cities
    {
      W.World(seq(|cities|, c requires 0 <= c < |cities| reads this, cities => cities[c].View()),
              buildlist, researchlist)
    }

    ghost predicate Valid()
      reads this, cities
    {
      && (forall c, d | 0 <= c < d < |cities| :: cities[c] != cities[d])
      && W.Shaped(View())
    }

    constructor ()
      ensures Valid() && View() == W.World([], [], [])
    {
      cities, buildlist, researchlist := [], [], [];
    }

    /** `AddPlayerCity`. */
    method AddPlayerCity(id: int) returns (city: PlayerCity)
      requires Valid()
      modifies this`cities
      ensures Valid() && city.Valid() && fresh(city) && cities == old(cities) + [city]
      ensures View() == Runs.Found(old(View()), id, Res(0.0, 0.0, 0.0, 0.0, 0.0))
    {
      city := new PlayerCity(id);
      assert city.View() == W.City(id, Res(0.0, 0.0, 0.0, 0.0, 0.0), seq(76, _ => Runs.Empty), [], 0, false,
                                   seq(25, _ => W.Tech(0, 0, 0, 0)));
      city.SetBuilding(W.TOWNHALL, 1, -1, 0, 0, 0);
      assert city.View() == Runs.Founded(id, Res(0.0, 0.0, 0.0, 0.0, 0.0));
      ghost var before := View();
      cities := cities + [city];
      assert View().cities == before.cities + [city.View()];
    }

    ghost predicate Listed()
      reads this
    {
      && (forall i | 0 <= i < |buildlist| :: buildlist[i].city < |cities| && W.Slot(buildlist[i].position) >= 0)
      && (forall i | 0 <= i < |researchlist| :: researchlist[i].city < |cities| && 0 <= researchlist[i].tech < 25)
    }

    lemma Holds(c: nat)
      requires Valid() && c < |cities|
      ensures cities[c].Valid() && Listed() && View().cities[c] == cities[c].View()
      ensures |View().cities| == |cities| && View().buildlist == buildlist && View().researchlist == researchlist
      ensures forall d | 0 <= d < |cities| && d != c :: cities[d] != cities[c]
    {
      assert View().cities[c] == cities[c].View();
      assert View().buildlist == buildlist && View().researchlist == researchlist;
    }

    lemma Lists()
      requires Valid()
      ensures Listed() && W.Shaped(View()) && View().buildlist == buildlist && View().researchlist == researchlist
    {
      assert |View().cities| == |cities| && View().buildlist == buildlist && View().researchlist == researchlist;
    }

    /** Only city `c` and the two lists have changed. */
    twostate lemma Replaced(c: nat)
      requires old(Valid()) && c < |cities| && cities == old(cities) && cities[c].Valid() && Listed()
      requires forall d | 0 <= d < |cities| && d != c :: cities[d].View() == old(cities[d].View())
      ensures Valid() && View() == W.World(old(View()).cities[c := cities[c].View()], buildlist, researchlist)
    {
      assert View().cities == old(View()).cities[c := cities[c].View()];
      assert View().buildlist == buildlist && View().researchlist == researchlist;
      forall d | 0 <= d < |cities| ensures |View().cities[d].buildings| == 76 && |View().cities[d].tech| == 25 {
        if d != c { assert old(View()).cities[d] == View().cities[d]; }
      }
    }

    method NewBuilding(p: W.Prices, c: nat, typ: int, position: int, allowed: bool, duration: int, now: int)
      requires Valid() && c < |cities|
      modifies this`buildlist, cities
      ensures Valid() && View() == W.NewBuilding(p, old(View()), c, typ, position, allowed, duration, now)
    {
      hide Valid, View, W.Idle, W.SetBuilding;
      var city := cities[c];
      Holds(c);
      if (position < -2 || position > 31) && (position < 1001 || position > 1040) { return; }
      if typ > 34 || typ <= 0 || city.buildings[W.Slot(position)].typ != 0 || !allowed { return; }
      var busy := city.Busy();
      var price := p.building(typ, 0).Times(1);
      if busy || !city.res.Affords(price) { return; }
      city.res := city.res.Minus(price);
      city.SetBuilding(typ, 0, position, 1, now, now + duration);
      buildlist := buildlist + [W.BuildEvent(c, position)];
      Replaced(c);
    }

    method UpgradeBuilding(p: W.Prices, c: nat, position: int, allowed: bool, duration: int, now: int)
      requires Valid() && c < |cities|
      modifies this`buildlist, cities
      ensures Valid() && View() == W.UpgradeBuilding(p, old(View()), c, position, allowed, duration, now)
    {
      hide Valid, View, W.Idle, W.SetBuilding;
      var city := cities[c];
      Holds(c);
      if W.Slot(position) < 0 { return; }
      var b := city.buildings[W.Slot(position)];
      if b.status != 0 { return; }
      var busy := city.Busy();
      var price := p.building(b.typ, b.level).Times(1);
      if busy || b.typ <= 0 || b.typ > 35 || !allowed || !city.res.Affords(price) { return; }
      city.res := city.res.Minus(price);
      buildlist := buildlist + [W.BuildEvent(c, position)];
      city.SetBuilding(b.typ, b.level, position, 1, now, now + duration);
      Replaced(c);
    }

    method DestructBuilding(c: nat, position: int, duration: int, now: int)
      requires Valid() && c < |cities|
      modifies this`buildlist, cities
      ensures Valid() && View() == W.DestructBuilding(old(View()), c, position, duration, now)
    {
      hide Valid, View, W.Idle, W.SetBuilding;
      var city := cities[c];
      Holds(c);
      if W.Slot(position) < 0 { return; }
      var b := city.buildings[W.Slot(position)];
      if b.typ > 34 || b.typ <= 0 || b.level == 0 { return; }
      var busy := city.Busy();
      if busy { return; }
      buildlist := buildlist + [W.BuildEvent(c, position)];
      city.SetBuilding(b.typ, b.level, position, 2, now, now + duration);
      Replaced(c);
    }

    /** "free.speed". */
    method SpeedUpFree(c: nat, position: int)
      requires Valid() && c < |cities|
      modifies cities
      ensures Valid() && View() == W.SpeedUpFree(old(View()), c, position)
    {
      hide Valid, View;
      var city := cities[c];
      Holds(c);
      if W.Slot(position) < 0 { return; }
      var b := city.buildings[W.Slot(position)];
      if b.endtime - b.starttime > 300000 { return; }
      city.buildings := city.buildings[W.Slot(position) := b.(endtime := b.endtime - 300000)];
      Replaced(c);
    }

    method SpeedUpItem(c: nat, position: int, reduce: int)
      requires Valid() && c < |cities|
      modifies cities
      ensures Valid() && View() == W.SpeedUpItem(old(View()), c, position, reduce)
    {
      hide Valid, View, W.SetBuilding;
      var city := cities[c];
      Holds(c);
      if W.Slot(position) < 0 { return; }
      var b := city.buildings[W.Slot(position)];
      b := b.(endtime := b.endtime - reduce);
      city.buildings := city.buildings[W.Slot(position) := b];
      city.SetBuilding(b.typ, b.level, b.id, b.status, b.starttime, b.endtime);
      Replaced(c);
    }

    /** The search through the events of all cities. */
    method EventAt(position: int) returns (r: int)
      ensures r == W.EventAt(buildlist, position)
    {
      var i := 0;
      while i < |buildlist|
        invariant 0 <= i <= |buildlist|
        invariant forall j | 0 <= j < i :: buildlist[j].position != position
      {
        if buildlist[i].position == position { return i; }
        i := i + 1;
      }
      return -1;
    }

    method CancelBuilding(position: int)
      requires Valid()
      modifies this`buildlist, cities
      ensures Valid() && View() == W.CancelBuilding(old(View()), position)
    {
      hide Valid, View, W.Settle, W.EventAt;
      Lists();
      var i := EventAt(position);
      if i < 0 { return; }
      var c := buildlist[i].city;
      var city := cities[c];
      Holds(c);
      var s := W.Slot(position);
      var b := city.buildings[s];
      if b.status == 0 { return; }
      city.buildings := city.buildings[s := b.(status := 0)];
      buildlist := buildlist[..i] + buildlist[i + 1..];
      city.Settle(b, position);
      Replaced(c);
    }

    /** What a call of `CalculateResources`, or anything else that pays or charges a city, does to its stores. */
    method Income(c: nat, gain: Res)
      requires Valid() && c < |cities|
      modifies cities
      ensures Valid() && View() == W.Income(old(View()), c, gain)
    {
      hide Valid, View;
      var city := cities[c];
      Holds(c);
      city.res := city.res.Plus(gain);
      Replaced(c);
    }

    /** `CalculateResources` for one city, `diff` milliseconds after the last time. */
    method CalculateResources(c: nat, r: Accrual.Rates, diff: int)
      requires Valid() && c < |cities|
      modifies cities
      ensures Valid() && c < |old(View()).cities|
      ensures var before := old(View()).cities[c].res;
        View() == W.Income(old(View()), c, Accrual.After(r, before, diff).Minus(before))
    {
      hide Accrual.After;
      Lists();
      Holds(c);
      hide Valid, View;
      ghost var before := cities[c].res;
      var stores := new Accrual.Stores(cities[c].res, 0);
      stores.CalculateResources(r, diff);
      Runs.PlusMinus(before, stores.res);
      cities[c].res := stores.res;
      Replaced(c);
    }

    /** `produceTroop`, and `produceWallProtect` with position -2. */
    method ProduceTroop(p: W.Prices, c: nat, position: int, troopid: int, count: int, unit: int, now: int)
      requires Valid() && c < |cities|
      modifies cities
      ensures Valid() && View() == W.Produce(p, old(View()), c, position, troopid, count, unit, now)
    {
      hide Valid, View, W.QueueAt, Training.Add;
      var city := cities[c];
      Holds(c);
      var price := p.troop(troopid).Times(count);
      if !city.res.Affords(price) { return; }
      var i := city.GetBarracksQueue(position);
      if i < 0 || W.Slot(position) < 0 { return; }
      city.res := city.res.Minus(price);
      var ok := city.AddToBarracksQueue(i, position, troopid, count, unit, now);
      Replaced(c);
    }

    /** `cancelTroopProduce` and `cancelFortificationProduce`. */
    method CancelTroopProduce(p: W.Prices, c: nat, position: int, queueid: int, now: int)
      requires Valid() && c < |cities|
      modifies cities
      ensures Valid() && View() == W.CancelProduce(p, old(View()), c, position, queueid, now)
    {
      hide Valid, View, W.QueueAt, Training.IndexOf;
      var city := cities[c];
      Holds(c);
      var i := city.GetBarracksQueue(position);
      if i < 0 { return; }
      var found, t := city.CancelBatch(i, queueid, now);
      if found {
        if t.endtime > 0 { city.res := city.res.Plus(p.troop(t.troopid).Third(t.count)); }
        else { city.res := city.res.Plus(p.troop(t.troopid).Times(t.count)); }
      }
      Replaced(c);
    }

    method Research(p: W.Prices, c: nat, tech: int, allowed: bool, duration: int, now: int)
      requires Valid() && c < |cities|
      modifies this`researchlist, cities
      ensures Valid() && View() == W.Research(p, old(View()), c, tech, allowed, duration, now)
    {
      hide Valid, View;
      var city := cities[c];
      Holds(c);
      if tech <= 0 || tech >= 25 || !allowed || city.tech[tech].level >= 10 { return; }
      if city.researching { return; }
      var t := city.tech[tech];
      var price := p.research(tech, t.level).Times(1);
      if !city.res.Affords(price) { return; }
      city.res := city.res.Minus(price);
      city.tech := city.tech[tech := W.Tech(t.level, city.castleid, now, now + duration)];
      city.researching := true;
      researchlist := researchlist + [W.TechEvent(c, tech)];
      Replaced(c);
    }

    /** Index of the city's first event. */
    method EventOf(c: nat) returns (r: int)
      ensures r == W.EventOf(researchlist, c)
    {
      var i := 0;
      while i < |researchlist|
        invariant 0 <= i <= |researchlist|
        invariant forall j | 0 <= j < i :: researchlist[j].city != c
      {
        if researchlist[i].city == c { return i; }
        i := i + 1;
      }
      return -1;
    }

    method CancelResearch(p: W.Prices, c: nat)
      requires Valid() && c < |cities|
      modifies this`researchlist, cities
      ensures Valid() && View() == W.CancelResearch(p, old(View()), c)
    {
      hide Valid, View, W.Claimed, W.EventOf;
      var city := cities[c];
      Holds(c);
      var tech := city.Claimed();
      if !city.researching || tech <= 0 { return; }
      var t := city.tech[tech];
      city.res := city.res.Plus(p.research(tech, t.level).ExactThird());
      var i := EventOf(c);
      if i >= 0 { researchlist := researchlist[i := W.TechEvent(c, 0)]; }
      city.tech := city.tech[tech := W.Tech(t.level, 0, 0, 0)];
      city.researching := false;
      Replaced(c);
    }

    method SpeedUpResearch(c: nat, reduce: int)
      requires Valid() && c < |cities|
      modifies cities
      ensures Valid() && View() == W.SpeedUpResearch(old(View()), c, reduce)
    {
      hide Valid, View, W.Claimed;
      var city := cities[c];
      Holds(c);
      var tech := city.Claimed();
      if tech < 0 { return; }
      city.tech := city.tech[tech := city.tech[tech].(endtime := city.tech[tech].endtime - reduce)];
      Replaced(c);
    }

    /** "free.speed" for a research. */
    method SpeedUpResearchFree(c: nat)
      requires Valid() && c < |cities|
      modifies cities
      ensures Valid() && View() == W.SpeedUpResearchFree(old(View()), c)
    {
      hide Valid, View, W.Claimed;
      var city := cities[c];
      Holds(c);
      var tech := city.Claimed();
      if tech < 0 { return; }
      var t := city.tech[tech];
      if t.endtime - t.starttime > 300000 { return; }
      city.tech := city.tech[tech := t.(endtime := t.endtime - 300000)];
      Replaced(c);
    }

    // ---- TimerThread --------------------------------------------------------------------------------

    twostate lemma Trained(now: int)
      requires old(Valid()) && cities == old(cities) && buildlist == old(buildlist) && researchlist == old(researchlist)
      requires forall d | 0 <= d < |cities| :: cities[d].View() == W.TrainingPass(old(cities[d].View()), now)
      ensures Valid() && View() == W.AllTraining(old(View()), now)
    {
      assert View().cities == W.AllTraining(old(View()), now).cities;
    }

    lemma Separate()
      requires Valid()
      ensures forall c, d | 0 <= c < d < |cities| :: cities[c] != cities[d]
    {
    }

    method TrainingPass(now: int)
      requires Valid()
      modifies cities
      ensures Valid() && View() == W.AllTraining(old(View()), now)
    {
      hide Valid, View, W.TrainingPass;
      Separate();
      var c := 0;
      while c < |cities|
        invariant 0 <= c <= |cities|
        invariant forall d | 0 <= d < c :: cities[d].View() == W.TrainingPass(old(cities[d].View()), now)
        invariant forall d | c <= d < |cities| :: cities[d].View() == old(cities[d].View())
      {
        cities[c].TrainingPass(now);
        c := c + 1;
      }
      Trained(now);
    }

    method FinishBuilding(p: W.Prices, i: nat)
      requires Valid() && i < |buildlist|
      modifies this`buildlist, cities
      ensures Valid() && View() == W.FinishBuilding(p, old(View()), i) && |buildlist| == |old(buildlist)| - 1
    {
      hide Valid, View, W.Settle, W.SetBuilding;
      Lists();
      var e := buildlist[i];
      var city := cities[e.city];
      Holds(e.city);
      var b := city.buildings[W.Slot(e.position)];
      if b.status == 1 {
        city.SetBuilding(b.typ, b.level + 1, e.position, 0, 0, 0);
      } else {
        city.res := city.res.Plus(p.building(b.typ, b.level - 1).Third(1));
        city.Settle(b.(level := b.level - 1), e.position);
      }
      buildlist := buildlist[..i] + buildlist[i + 1..];
      Replaced(e.city);
    }

    lemma BuildingStep(p: W.Prices, i: nat, now: int)
      requires Valid() && i < |buildlist|
      ensures var e := buildlist[i];
        e.city < |cities| && cities[e.city].Valid() && W.Slot(e.position) >= 0 &&
        var b := cities[e.city].buildings[W.Slot(e.position)];
        W.BuildingPass(p, View(), i, now) ==
          if b.endtime < now && (b.status == 1 || b.status == 2) && i < |View().buildlist|
          then W.BuildingPass(p, W.FinishBuilding(p, View(), i), i, now) else W.BuildingPass(p, View(), i + 1, now)
    {
      Lists();
      Holds(buildlist[i].city);
      hide W.FinishBuilding;
    }

    method BuildingPass(p: W.Prices, now: int)
      requires Valid()
      modifies this`buildlist, cities
      ensures Valid() && View() == W.BuildingPass(p, old(View()), 0, now)
    {
      hide Valid, View, W.FinishBuilding;
      Lists();
      var i := 0;
      while i < |buildlist|
        invariant Valid() && W.Shaped(View()) && 0 <= i <= |buildlist|
        invariant W.BuildingPass(p, View(), i, now) == W.BuildingPass(p, old(View()), 0, now)
        decreases |buildlist| - i
      {
        BuildingStep(p, i, now);
        Lists();
        var e := buildlist[i];
        var b := cities[e.city].buildings[W.Slot(e.position)];
        if b.endtime < now && (b.status == 1 || b.status == 2) { FinishBuilding(p, i); }
        else { i := i + 1; }
        Lists();
      }
      Lists();
    }

    method FinishResearch(i: nat)
      requires Valid() && i < |researchlist|
      modifies this`researchlist, cities
      ensures Valid() && View() == W.FinishResearch(old(View()), i) && |researchlist| == |old(researchlist)| - 1
    {
      hide Valid, View;
      Lists();
      var e := researchlist[i];
      var city := cities[e.city];
      Holds(e.city);
      city.researching := false;
      city.tech := city.tech[e.tech := W.Tech(city.tech[e.tech].level + 1, 0, 0, 0)];
      researchlist := researchlist[..i] + researchlist[i + 1..];
      Replaced(e.city);
    }

    method DropResearch(i: nat)
      requires Valid() && i < |researchlist|
      modifies this`researchlist
      ensures Valid() && View() == W.DropResearch(old(View()), i) && |researchlist| == |old(researchlist)| - 1
    {
      researchlist := researchlist[..i] + researchlist[i + 1..];
      assert View().cities == old(View()).cities;
    }

    lemma ResearchStep(i: nat, now: int)
      requires Valid() && i < |researchlist|
      ensures var e := researchlist[i];
        e.city < |cities| && cities[e.city].Valid() && 0 <= e.tech < 25 &&
        W.ResearchPass(View(), i, now) ==
          if i >= |View().researchlist| then View()
          else if e.tech == 0 then W.ResearchPass(W.DropResearch(View(), i), i, now)
          else if cities[e.city].tech[e.tech].endtime < now then W.ResearchPass(W.FinishResearch(View(), i), i, now)
          else W.ResearchPass(View(), i + 1, now)
    {
      Lists();
      Holds(researchlist[i].city);
      hide W.FinishResearch, W.DropResearch;
    }

    method ResearchPass(now: int)
      requires Valid()
      modifies this`researchlist, cities
      ensures Valid() && View() == W.ResearchPass(old(View()), 0, now)
    {
      hide Valid, View, W.FinishResearch, W.DropResearch;
      Lists();
      var i := 0;
      while i < |researchlist|
        invariant Valid() && W.Shaped(View()) && 0 <= i <= |researchlist|
        invariant W.ResearchPass(View(), i, now) == W.ResearchPass(old(View()), 0, now)
        decreases |researchlist| - i
      {
        ResearchStep(i, now);
        Lists();
        var e := researchlist[i];
        if e.tech == 0 { DropResearch(i); }
        else if cities[e.city].tech[e.tech].endtime < now { FinishResearch(i); }
        else { i := i + 1; }
        Lists();
      }
      Lists();
    }

    /** One round of the timer thread. */
    method Tick(p: W.Prices, now: int)
      requires Valid()
      modifies this, cities
      ensures Valid() && cities == old(cities) && View() == W.Tick(p, old(View()), now)
    {
      TrainingPass(now);
      BuildingPass(p, now);
      ResearchPass(now);
    }

    method Dispatch(p: W.Prices, a: Runs.Action)
      requires Valid() && a.city < |cities| && W.Shaped(View()) && |View().cities| == |cities|
      modifies this, cities
      ensures Valid() && cities == old(cities) && View() == Runs.Step(p, old(View()), a)
    {
      hide Valid, View, W.Shaped, W.NewBuilding, W.UpgradeBuilding, W.DestructBuilding, W.SpeedUpFree, W.SpeedUpItem;
      hide W.CancelBuilding, W.Produce, W.CancelProduce, W.Research, W.CancelResearch, W.SpeedUpResearch, W.Income;
      hide W.SpeedUpResearchFree;
      hide W.Tick;
      var c, now := a.city, a.now;
      match a.command {
        case New(typ, position, allowed, duration) => NewBuilding(p, c, typ, position, allowed, duration, now);
        case Upgrade(position, allowed, duration) => UpgradeBuilding(p, c, position, allowed, duration, now);
        case Destruct(position, duration) => DestructBuilding(c, position, duration, now);
        case SpeedFree(position) => SpeedUpFree(c, position);
        case SpeedItem(position, reduce) => SpeedUpItem(c, position, reduce);
        case CancelBuild(position) => CancelBuilding(position);
        case Train(position, troopid, count, unit) => ProduceTroop(p, c, position, troopid, count, unit, now);
        case CancelTrain(position, queueid) => CancelTroopProduce(p, c, position, queueid, now);
        case Study(tech, allowed, duration) => Research(p, c, tech, allowed, duration, now);
        case CancelStudy => CancelResearch(p, c);
        case SpeedStudy(reduce) => SpeedUpResearch(c, reduce);
        case SpeedStudyFree => SpeedUpResearchFree(c);
        case Receive(gain) => Income(c, gain);
        case Timer => Tick(p, now);
      }
    }

    /** One packet, or one round of the timer. Construction, training and research stay in order, no store falls
        below zero and no city gains more than it takes in, as long as the packet is one that `Fit` and `Patient`
        allow. */
    method Serve(p: W.Prices, a: Runs.Action)
      requires Valid() && a.city < |cities|
      modifies this, cities
      ensures Valid() && cities == old(cities) && View() == Runs.Step(p, old(View()), a)
      ensures old(Runs.Inv(View())) && Runs.Fit(old(View()), a) ==>
                Runs.Inv(View()) && Runs.Within(p, old(View()), View(), a)
      ensures old(ResearchWork.ResearchInv(View())) ==>
                (ResearchWork.ResearchInv(View()) <==> Runs.Patient(old(View()), a))
    {
      hide Valid, View, W.Shaped, Runs.Step, Runs.Inv, Runs.Fit, Runs.Patient, Runs.Within, ResearchWork.ResearchInv;
      Whole();
      ghost var w: W.Shape := View();
      Served(p, w, a);
      Dispatch(p, a);
    }

    lemma Whole()
      requires Valid()
      ensures W.Shaped(View()) && |View().cities| == |cities|
    {
    }

    static lemma Served(p: W.Prices, w: W.Shape, a: Runs.Action)
      requires a.city < |w.cities|
      ensures Runs.Inv(w) && Runs.Fit(w, a) ==>
                Runs.Inv(Runs.Step(p, w, a)) && Runs.Within(p, w, Runs.Step(p, w, a), a)
      ensures ResearchWork.ResearchInv(w) ==> (ResearchWork.ResearchInv(Runs.Step(p, w, a)) <==> Runs.Patient(w, a))
    {
      hide Runs.Inv, Runs.Fit, Runs.Patient, ResearchWork.ResearchInv, Runs.Within, Runs.Step;
      if Runs.Inv(w) && Runs.Fit(w, a) { Runs.StepInv(p, w, a); }
      if ResearchWork.ResearchInv(w) { Runs.StepResearchExact(p, w, a); }
    }
  }
}
