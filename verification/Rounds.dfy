/** What a round of the timer does, field by field, and when: over every run, nothing is finished early and nothing is
    left over. */
module Rounds {
  import opened Economy
  import opened World
  import opened Construction
  import opened Barracks
  import opened ResearchWork
  import opened Solvency
  import opened Commands
  import opened Runs
  import opened QueueRuns
  import Training
  import SystemTroops

  // ---- Construction ---------------------------------------------------------------------------------

  /** The position of a place in `buildings`. */
  function Spot(s: nat): int
  {
    if s < 35 then s - 2 else s + 965
  }

  predicate DueWork(x: City, s: int, now: int)
  {
    0 <= s < |x.buildings| && x.buildings[s].status != 0 && x.buildings[s].endtime < now
  }

  /** One level up, or one down and from level 1 to nothing. */
  function Done(b: Building, position: int): Building
  {
    if b.status == 1 then Building(position, b.typ, b.level + 1, 0, 0, 0)
    else if b.level == 1 then Building(position, 0, 0, 0, 0, 0)
    else Building(position, b.typ, b.level - 1, 0, 0, 0)
  }

  /** A demolition hands out a third of what the level did cost, in whole units. */
  ghost predicate HandsOut(p: Prices, x: City, y: City, b: Building)
  {
    forall k: Kind :: y.res.Of(k) ==
      x.res.Of(k) + if b.status == 1 then 0.0 else Div3(p.building(b.typ, b.level - 1).Of(k)) as real
  }

  ghost predicate WorkDone(p: Prices, x: City, y: City, s: nat)
    requires s < |x.buildings| == 76
  {
    var b := x.buildings[s];
    Stands(x, y, Done(b, Spot(s)), Spot(s)) && HandsOut(p, x, y, b)
  }

  ghost predicate CityRound(p: Prices, x: City, y: City, now: int)
    requires |x.buildings| == 76
  {
    && (forall s | DueWork(x, s, now) :: WorkDone(p, x, y, s))
    && ((forall s | 0 <= s < 76 :: !DueWork(x, s, now)) ==> y == x)
  }

  lemma SpotPlace(s: nat)
    requires s < 76
    ensures Spot(s) == PositionOf(s)
    ensures OnMap(Spot(s)) ==> Place(Spot(s)) == s == Slot(Spot(s))
  {
  }

  lemma PlaceSlot(position: int)
    requires OnMap(position)
    ensures Place(position) == Slot(position) && Spot(Place(position)) == position && Settable(position)
  {
  }

  lemma FinishDone(p: Prices, w: Shape, i: nat)
    requires BuildInv(w) && i < |w.buildlist|
    ensures var v, e := FinishBuilding(p, w, i), w.buildlist[i];
      && Only(w, v, e.city) && 0 <= Slot(e.position) && Idle(v.cities[e.city])
      && WorkDone(p, w.cities[e.city], v.cities[e.city], Slot(e.position))
  {
    var v, e := FinishBuilding(p, w, i), w.buildlist[i];
    var x := w.cities[e.city];
    var b := x.buildings[Slot(e.position)];
    Named(w, i);
    FinishIdle(p, w, i);
    BecomesCity(p, w, i, x, b);
    PlaceSlot(e.position);
    hide BuildInv, FinishBuilding, Stands, SetBuilding, Settle;
    FinishedStands(p, x, b, e.position);
  }

  /** What the timer makes of the city. */
  function FinishedCity(p: Prices, x: City, b: Building, position: int): City
    requires |x.buildings| == 76
  {
    if b.status == 1 then SetBuilding(x, b.typ, b.level + 1, position, 0, 0, 0)
    else Settle(x.(res := x.res.Plus(p.building(b.typ, b.level - 1).Third(1))), b.(level := b.level - 1), position)
  }

  lemma BecomesCity(p: Prices, w: Shape, i: nat, x: City, b: Building)
    requires i < |w.buildlist| && x == w.cities[w.buildlist[i].city] && b == x.buildings[Slot(w.buildlist[i].position)]
    ensures Only(w, FinishBuilding(p, w, i), w.buildlist[i].city)
    ensures FinishBuilding(p, w, i).cities[w.buildlist[i].city] == FinishedCity(p, x, b, w.buildlist[i].position)
  {
    hide SetBuilding, Settle;
  }

  lemma FinishedStands(p: Prices, x: City, b: Building, position: int)
    requires |x.buildings| == 76
    ensures var y := FinishedCity(p, x, b, position);
      Stands(x, y, Done(b, position), position) && HandsOut(p, x, y, b)
  {
    if b.status == 1 {
      SetStands(x, b.typ, b.level + 1, position, 0, 0, 0);
    } else {
      var z := x.(res := x.res.Plus(p.building(b.typ, b.level - 1).Third(1)));
      SettleStands(z, b.(level := b.level - 1), position);
    }
    hide SetBuilding, Settle, QueueRule, Div3;
  }

  lemma FinishIdle(p: Prices, w: Shape, i: nat)
    requires BuildInv(w) && i < |w.buildlist|
    ensures |FinishBuilding(p, w, i).cities| == |w.cities|
    ensures Idle(FinishBuilding(p, w, i).cities[w.buildlist[i].city])
  {
    var v, e := FinishBuilding(p, w, i), w.buildlist[i];
    FinishInv(p, w, i);
    hide FinishBuilding, SlotsOk, OnlyBusy, Idle;
    assert v.buildlist == w.buildlist[..i] + w.buildlist[i + 1..] by { FinishList(p, w, i); }
    assert forall j | 0 <= j < |v.buildlist| :: v.buildlist[j] == w.buildlist[if j < i then j else j + 1];
  }

  lemma FinishList(p: Prices, w: Shape, i: nat)
    requires i < |w.buildlist|
    ensures var v := FinishBuilding(p, w, i);
      |v.cities| == |w.cities| && v.buildlist == w.buildlist[..i] + w.buildlist[i + 1..]
  {
    hide SetBuilding, Settle;
  }

  lemma NothingDue(w: Shape, now: int)
    requires BuildInv(w) && forall j | 0 <= j < |w.buildlist| :: Construction.Waits(w, j, now)
    ensures forall c, s | 0 <= c < |w.cities| && 0 <= s < 76 :: !DueWork(w.cities[c], s, now)
  {
    forall c, s | 0 <= c < |w.cities| && 0 <= s < 76 ensures !DueWork(w.cities[c], s, now) {
      if w.cities[c].buildings[s].status != 0 {
        BusyHasEvent(w, c, s);
        var i :| 0 <= i < |w.buildlist| && w.buildlist[i] == BuildEvent(c, PositionOf(s));
        assert Construction.Waits(w, i, now);
        SpotPlace(s);
        assert SlotsOk(w.cities[c]) && SlotOk(w.cities[c].buildings[s], s);
      }
    }
  }

  lemma IdleNothingDue(x: City, now: int)
    requires Idle(x)
    ensures forall s :: !DueWork(x, s, now)
  {
  }

  /** The loop over the events does to every city what is due there, whatever the order of the list. */
  lemma {:induction false} PassExact(p: Prices, w: Shape, i: nat, now: int)
    requires BuildInv(w) && i <= |w.buildlist| && forall j | 0 <= j < i :: Construction.Waits(w, j, now)
    ensures var v := BuildingPass(p, w, i, now);
      |v.cities| == |w.cities| && forall c | 0 <= c < |w.cities| :: CityRound(p, w.cities[c], v.cities[c], now)
    decreases |w.buildlist| - i
  {
    hide BuildInv, FinishBuilding, WorkDone;
    if i < |w.buildlist| {
      Underway(w, i);
      var e := w.buildlist[i];
      var b := w.cities[e.city].buildings[Slot(e.position)];
      if b.endtime < now {
        var u := FinishBuilding(p, w, i);
        FinishInv(p, w, i);
        FinishDone(p, w, i);
        Construction.FinishKeepsOthers(p, w, i, now);
        PassExact(p, u, i, now);
        var v := BuildingPass(p, u, i, now);
        IdleNothingDue(u.cities[e.city], now);
        assert v.cities[e.city] == u.cities[e.city];
        assert DueWork(w.cities[e.city], Slot(e.position), now);
        OneDue(w, i, now);
      } else {
        PassExact(p, w, i + 1, now);
      }
    } else {
      NothingDue(w, now);
    }
  }

  lemma OneDue(w: Shape, i: nat, now: int)
    requires BuildInv(w) && i < |w.buildlist|
    ensures var e := w.buildlist[i]; forall s | DueWork(w.cities[e.city], s, now) :: s == Slot(e.position)
  {
    assert OnlyBusy(w.cities[w.buildlist[i].city], Slot(w.buildlist[i].position));
  }

  // ---- Research -------------------------------------------------------------------------------------

  predicate DueStudy(x: City, t: int, now: int)
  {
    0 <= t < |x.tech| && x.researching && x.tech[t].castleid != 0 && x.tech[t].endtime < now
  }

  ghost predicate StudyRound(x: City, y: City, now: int)
  {
    && (forall t | DueStudy(x, t, now) ::
          y == x.(researching := false, tech := x.tech[t := Tech(x.tech[t].level + 1, 0, 0, 0)]))
    && ((forall t | 0 <= t < |x.tech| :: !DueStudy(x, t, now)) ==> y == x)
  }

  lemma FinishStudy(w: Shape, i: nat, now: int)
    requires ResearchInv(w) && i < |w.researchlist| && w.researchlist[i].tech != 0
    requires w.cities[w.researchlist[i].city].tech[w.researchlist[i].tech].endtime < now
    ensures var v, e := FinishResearch(w, i), w.researchlist[i];
      && Only(w, v, e.city) && Quiet(v.cities[e.city])
      && StudyRound(w.cities[e.city], v.cities[e.city], now) && DueStudy(w.cities[e.city], e.tech, now)
  {
    var e := w.researchlist[i];
    assert Researches(w.cities[e.city], e.tech);
  }

  lemma QuietNothingDue(x: City, now: int)
    requires Quiet(x)
    ensures forall t :: !DueStudy(x, t, now)
  {
  }

  lemma NoStudyDue(w: Shape, now: int)
    requires ResearchInv(w) && forall j | 0 <= j < |w.researchlist| :: ResearchWork.Waits(w, j, now)
    ensures forall c, t | 0 <= c < |w.cities| && 0 <= t < 25 :: !DueStudy(w.cities[c], t, now)
  {
    forall c, t | 0 <= c < |w.cities| && 0 <= t < 25 ensures !DueStudy(w.cities[c], t, now) {
      if Quiet(w.cities[c]) { QuietNothingDue(w.cities[c], now); }
      else {
        assert HasLive(w.researchlist, c);
        var i :| 0 <= i < |w.researchlist| && w.researchlist[i].city == c && w.researchlist[i].tech != 0;
        assert ResearchWork.Waits(w, i, now) && Researches(w.cities[c], w.researchlist[i].tech);
      }
    }
  }

  /** As `PassExact`, for research. */
  lemma {:induction false} StudyExact(w: Shape, i: nat, now: int)
    requires ResearchInv(w) && i <= |w.researchlist| && forall j | 0 <= j < i :: ResearchWork.Waits(w, j, now)
    ensures var v := ResearchPass(w, i, now);
      |v.cities| == |w.cities| && forall c | 0 <= c < |w.cities| :: StudyRound(w.cities[c], v.cities[c], now)
    decreases |w.researchlist| - i
  {
    hide ResearchInv, FinishResearch, StudyRound, Quiet, DueStudy;
    if i < |w.researchlist| {
      var e := w.researchlist[i];
      if e.tech == 0 {
        Sweeps(w, i);
        DropKeepsOthers(w, i, now);
        StudyExact(DropResearch(w, i), i, now);
      } else if w.cities[e.city].tech[e.tech].endtime < now {
        var u := FinishResearch(w, i);
        FinishKeeps(w, i);
        ResearchWork.FinishKeepsOthers(w, i, now);
        FinishStudy(w, i, now);
        StudyExact(u, i, now);
        QuietNothingDue(u.cities[e.city], now);
        SameStudy(u.cities[e.city], ResearchPass(u, i, now).cities[e.city], now);
      } else {
        StudyExact(w, i + 1, now);
      }
    } else {
      NoStudyDue(w, now);
      forall c | 0 <= c < |w.cities| ensures StudyRound(w.cities[c], w.cities[c], now) {
        NothingStudied(w.cities[c], now);
      }
    }
  }

  lemma NothingStudied(x: City, now: int)
    requires forall t | 0 <= t < |x.tech| :: !DueStudy(x, t, now)
    ensures StudyRound(x, x, now)
  {
  }

  lemma SameStudy(x: City, y: City, now: int)
    requires StudyRound(x, y, now) && forall t :: !DueStudy(x, t, now)
    ensures y == x
  {
  }

  // ---- Training -------------------------------------------------------------------------------------

  /** A head whose end has come is gone and the next batch runs from now on; any other queue is unchanged. */
  ghost predicate Trained(q: Training.Queue, r: Training.Queue, now: int)
  {
    && r.positionid == q.positionid && r.nextqueueid == q.nextqueueid
    && if q.queue != [] && q.queue[0].endtime <= now then
         && |r.queue| == |q.queue| - 1
         && (forall j | 0 < j < |r.queue| :: r.queue[j] == q.queue[j + 1])
         && (r.queue != [] ==> r.queue[0] == q.queue[1].(endtime := now + q.queue[1].costtime))
       else r.queue == q.queue
  }

  lemma TickTrains(q: Training.Queue, now: int)
    ensures Trained(q, Training.Tick(q, now), now)
  {
    if q.queue != [] { assert forall j | 0 <= j < |q.queue| - 1 :: q.queue[1..][j] == q.queue[j + 1]; }
  }

  /** In a round each queue has its head finished when that is due, and no queue is dropped. */
  lemma QueuesExact(p: Prices, w: Shape, now: int, c: nat, position: int)
    requires Inv(w) && now > 0 && HasQueue(w, c, position)
    ensures var v := Tick(p, w, now);
      HasQueue(v, c, position) && Trained(QueueOf(w, c, position), QueueOf(v, c, position), now)
  {
    hide Inv, QueueAt;
    TrainingAt(w, now, c, position);
    TickRest(p, w, now);
    hide Tick, AllTraining;
    TickTrains(QueueOf(w, c, position), now);
    hide Trained, Training.Tick;
    assert Retained(AllTraining(w, now).cities[c].queues, Tick(p, w, now).cities[c].queues);
  }

  // ---- A round --------------------------------------------------------------------------------------

  /** Buildings, stores and level of a city after a round. */
  ghost predicate Built(p: Prices, x: City, y: City, now: int)
    requires |x.buildings| == 76
  {
    && (forall s | DueWork(x, s, now) ::
          var b := Done(x.buildings[s], Spot(s));
          && y.buildings == x.buildings[s := b] && HandsOut(p, x, y, x.buildings[s])
          && y.level == if b.typ == 31 && s < 35 then b.level else x.level)
    && ((forall s | 0 <= s < 76 :: !DueWork(x, s, now)) ==>
          y.buildings == x.buildings && y.res == x.res && y.level == x.level)
  }

  lemma CityBuilt(p: Prices, x: City, y: City, now: int)
    requires SlotsOk(x) && CityRound(p, x, y, now)
    ensures Built(p, x, y, now) && y.castleid == x.castleid && y.tech == x.tech && y.researching == x.researching
  {
    hide HandsOut, QueueRule;
    forall s | DueWork(x, s, now)
      ensures y.castleid == x.castleid && y.tech == x.tech && y.researching == x.researching
      ensures y.buildings == x.buildings[s := Done(x.buildings[s], Spot(s))] && HandsOut(p, x, y, x.buildings[s])
      ensures y.level == if Done(x.buildings[s], Spot(s)).typ == 31 && s < 35 then Done(x.buildings[s], Spot(s)).level
                         else x.level
    {
      assert SlotOk(x.buildings[s], s);
      SpotPlace(s);
      assert OnMap(Spot(s));
      assert WorkDone(p, x, y, s);
      hide Done, CityRound;
    }
    hide WorkDone, Done;
    if s :| DueWork(x, s, now) { assert 0 <= s < 76; }
  }

  /** Research changes nothing else. */
  lemma {:induction false} StudyOnly(w: Shape, i: nat, now: int)
    ensures var v := ResearchPass(w, i, now);
      |v.cities| == |w.cities| && forall c | 0 <= c < |w.cities| ::
        v.cities[c] == w.cities[c].(researching := v.cities[c].researching, tech := v.cities[c].tech)
    decreases |w.researchlist| - i
  {
    if i < |w.researchlist| {
      var e := w.researchlist[i];
      if e.tech == 0 { StudyOnly(DropResearch(w, i), i, now); }
      else if w.cities[e.city].tech[e.tech].endtime < now { StudyOnly(FinishResearch(w, i), i, now); }
      else { StudyOnly(w, i + 1, now); }
    }
  }

  /** What a round of the timer does to the buildings of a city, its stores and its level, whatever is going on in
      research. */
  lemma TickBuilt(p: Prices, w: Shape, now: int, c: nat)
    requires BuildInv(w) && c < |w.cities|
    ensures var v, x := Tick(p, w, now), w.cities[c];
      && |v.cities| == |w.cities| && v.cities[c].castleid == x.castleid && Built(p, x, v.cities[c], now)
  {
    hide BuildInv, AllTraining, CityRound, Built;
    var u := AllTraining(w, now);
    var a := BuildingPass(p, u, 0, now);
    TrainingFrame(w, now);
    BuildInvStays(w, u);
    PassExact(p, u, 0, now);
    StudyOnly(a, 0, now);
    var x, x1, x2, y := w.cities[c], u.cities[c], a.cities[c], Tick(p, w, now).cities[c];
    SlotsAt(u, c);
    CityBuilt(p, x1, x2, now);
    TrainedCity(w, now, c);
    BuiltSides(p, x, x1, x2, y, now);
  }

  /** And to its research. */
  lemma TickStudied(p: Prices, w: Shape, now: int, c: nat)
    requires ResearchInv(w) && c < |w.cities|
    ensures var v, x := Tick(p, w, now), w.cities[c];
      && |v.cities| == |w.cities|
      && StudyRound(x, x.(researching := v.cities[c].researching, tech := v.cities[c].tech), now)
  {
    hide ResearchInv, AllTraining, StudyRound;
    var u := AllTraining(w, now);
    var a := BuildingPass(p, u, 0, now);
    TrainingFrame(w, now);
    BuildingPassFrame(p, u, 0, now);
    TechStaysTrans(w, u, a);
    ResearchInvStays(w, a);
    StudyExact(a, 0, now);
    StudySame(w.cities[c], a.cities[c], Tick(p, w, now).cities[c], now);
  }

  lemma SlotsAt(w: Shape, c: nat)
    requires BuildInv(w) && c < |w.cities|
    ensures SlotsOk(w.cities[c])
  {
  }

  lemma TrainedCity(w: Shape, now: int, c: nat)
    requires c < |w.cities|
    ensures AllTraining(w, now).cities[c] == w.cities[c].(queues := AllTraining(w, now).cities[c].queues)
  {
  }

  lemma BuiltSides(p: Prices, x: City, x1: City, x2: City, y: City, now: int)
    requires |x.buildings| == 76 && x1 == x.(queues := x1.queues) && Built(p, x1, x2, now)
    requires y.buildings == x2.buildings && y.res == x2.res && y.level == x2.level
    ensures Built(p, x, y, now)
  {
    assert forall s :: DueWork(x, s, now) == DueWork(x1, s, now);
    hide Done, DueWork, Spot;
  }

  lemma StudySame(x: City, x2: City, y: City, now: int)
    requires StudyRound(x2, y, now) && x2.tech == x.tech && x2.researching == x.researching
    ensures StudyRound(x, x.(researching := y.researching, tech := y.tech), now)
  {
    assert forall t :: DueStudy(x, t, now) == DueStudy(x2, t, now);
    hide DueStudy;
  }

  /** After a round nothing waits that is due: no event of construction or research is stuck, and no batch stands at
      the head of its queue whose end has come, unless it takes no time and has only just been reached. */
  lemma NothingStuck(p: Prices, w: Shape, now: int)
    requires Inv(w) && ResearchInv(w) && now > 0
    ensures Construction.AllWait(Tick(p, w, now), now) && ResearchWork.AllWait(Tick(p, w, now), now)
    ensures forall c, position | HasQueue(w, c, position) ::
              && HasQueue(Tick(p, w, now), c, position)
              && Trained(QueueOf(w, c, position), QueueOf(Tick(p, w, now), c, position), now)
              && var r := QueueOf(Tick(p, w, now), c, position).queue;
                 r != [] && r[0].endtime <= now ==> r[0].costtime <= 0 && r[0].endtime == now + r[0].costtime
  {
    NoEventStuck(p, w, now);
    hide Tick, HasQueue, QueueOf, Inv;
    forall c, position | HasQueue(w, c, position)
      ensures HasQueue(Tick(p, w, now), c, position)
      ensures Trained(QueueOf(w, c, position), QueueOf(Tick(p, w, now), c, position), now)
      ensures var r := QueueOf(Tick(p, w, now), c, position).queue;
        r != [] && r[0].endtime <= now ==> r[0].costtime <= 0 && r[0].endtime == now + r[0].costtime
    {
      QueuesExact(p, w, now, c, position);
    }
  }
}
