/** How long work takes: over every run of the system, what nobody speeds up or gives up stays as it was ordered through
    all rounds of the timer up to its end, and the first round behind that finishes it. */
module WorkRuns {
  import opened Economy
  import opened World
  import opened Construction
  import opened Barracks
  import opened ResearchWork
  import opened Solvency
  import opened Commands
  import opened Runs
  import opened QueueRuns
  import opened Rounds
  import Training
  import SystemTroops

  // ---- Buildings ------------------------------------------------------------------------------------

  /** A speed-up or cancel of the work at this position of the city, by whomever. */
  ghost predicate Touches(w: Shape, a: Action, c: nat, position: int)
  {
    match a.command
    case SpeedFree(at) => a.city == c && at == position
    case SpeedItem(at, _) => a.city == c && at == position
    case CancelBuild(at) => at == position && exists i :: FirstEvent(w.buildlist, i, at) && w.buildlist[i].city == c
    case _ => false
  }

  ghost predicate Busy(w: Shape, c: nat, s: nat)
  {
    c < |w.cities| && s < 76 && w.cities[c].buildings[s].status != 0
  }

  /** Orders for buildings find the city at work. */
  lemma OrderStands(p: Prices, w: Shape, a: Action, c: nat, s: nat)
    requires BuildInv(w) && Fit(w, a) && Busy(w, c, s)
    requires a.command.New? || a.command.Upgrade? || a.command.Destruct?
    ensures var v := Step(p, w, a); |v.cities| == |w.cities| && v.cities[c].buildings[s] == w.cities[c].buildings[s]
  {
    assert a.city == c ==> !NoWork(w.cities[a.city]);
    match a.command
    case New(typ, position, allowed, duration) =>
      NewBuildingExact(p, w, a.city, typ, position, allowed, duration, a.now);
      hide NewBuilding, Stands, Pays, CanPay, NoWork;
    case Upgrade(position, allowed, duration) =>
      UpgradeExact(p, w, a.city, position, allowed, duration, a.now);
      hide UpgradeBuilding, Stands, Pays, CanPay, NoWork;
    case Destruct(position, duration) =>
      DestructExact(w, a.city, position, duration, a.now);
      hide DestructBuilding, Stands, NoWork;
  }

  lemma SpeedStands(p: Prices, w: Shape, a: Action, c: nat, s: nat)
    requires BuildInv(w) && Fit(w, a) && Busy(w, c, s) && !Touches(w, a, c, Spot(s))
    requires a.command.SpeedFree? || a.command.SpeedItem?
    ensures var v := Step(p, w, a); |v.cities| == |w.cities| && v.cities[c].buildings[s] == w.cities[c].buildings[s]
  {
    match a.command
    case SpeedFree(position) =>
      SpeedUpFreeExact(w, a.city, position);
      hide SpeedUpFree;
    case SpeedItem(position, reduce) =>
      ItemExact(w, a.city, position, reduce);
      hide SpeedUpItem, QueueRule;
      if Readable(position) && a.city == c {
        assert SlotsOk(w.cities[c]) && SlotOk(w.cities[c].buildings[Place(position)], Place(position));
        SpotPlace(Place(position));
      }
  }

  lemma EventHere(w: Shape, i: nat, c: nat, s: nat)
    requires BuildInv(w) && Busy(w, c, s) && i < |w.buildlist| && w.buildlist[i].city == c
    ensures w.buildlist[i].position == Spot(s)
  {
    assert OnlyBusy(w.cities[c], Slot(w.buildlist[i].position));
    SpotPlace(s);
  }

  lemma CancelStands(p: Prices, w: Shape, a: Action, c: nat, s: nat)
    requires BuildInv(w) && Fit(w, a) && Busy(w, c, s) && !Touches(w, a, c, Spot(s)) && a.command.CancelBuild?
    ensures var v := Step(p, w, a); |v.cities| == |w.cities| && v.cities[c].buildings[s] == w.cities[c].buildings[s]
  {
    var position := a.command.position;
    var i := EventAt(w.buildlist, position);
    if i < 0 {
      CancelNothing(w, position);
    } else {
      assert FirstEvent(w.buildlist, i, position);
      Named(w, i);
      PlaceSlot(position);
      CancelBuildingExact(w, position, i);
      if w.buildlist[i].city == c { EventHere(w, i, c, s); }
      hide CancelBuilding, EventAt, Stands, BuildInv;
    }
  }

  lemma OtherBuildings(p: Prices, w: Shape, a: Action)
    requires a.city < |w.cities| && !a.command.Timer? && !Builds(a.command)
    ensures BuildingsStay(w, Step(p, w, a))
  {
    hide QueueAt, Training.IndexOf, Claimed, EventOf;
  }

  /** No step but a speed-up, a cancel or a round behind its end changes a building that is being worked on. */
  lemma StepStands(p: Prices, w: Shape, a: Action, c: nat, s: nat)
    requires BuildInv(w) && Fit(w, a) && Busy(w, c, s) && !Touches(w, a, c, Spot(s))
    requires a.command.Timer? ==> a.now <= w.cities[c].buildings[s].endtime
    ensures var v := Step(p, w, a); |v.cities| == |w.cities| && v.cities[c].buildings[s] == w.cities[c].buildings[s]
  {
    hide BuildInv;
    if a.command.Timer? {
      TickBuilt(p, w, a.now, c);
      OnlyDue(w, c, s, a.now);
      hide Tick, HandsOut, Done;
    } else if !Builds(a.command) {
      OtherBuildings(p, w, a);
    } else {
      hide Step, Touches;
      if a.command.CancelBuild? { CancelStands(p, w, a, c, s); }
      else if a.command.SpeedFree? || a.command.SpeedItem? { SpeedStands(p, w, a, c, s); }
      else { OrderStands(p, w, a, c, s); }
    }
  }

  lemma OnlyDue(w: Shape, c: nat, s: nat, now: int)
    requires BuildInv(w) && Busy(w, c, s)
    ensures forall t | DueWork(w.cities[c], t, now) :: t == s
  {
    BusyHasEvent(w, c, s);
    var i :| 0 <= i < |w.buildlist| && w.buildlist[i] == BuildEvent(c, PositionOf(s));
    assert OnlyBusy(w.cities[c], Slot(w.buildlist[i].position));
  }

  /** Nobody touches the work in this run, and no round of the timer comes behind `end`. */
  ghost predicate LeftAlone(p: Prices, w: Shape, run: seq<Action>, c: nat, s: nat, end: int)
    requires Legal(p, w, run)
    decreases |run|
  {
    run == [] ||
    var n := |run| - 1;
    && LeftAlone(p, w, run[..n], c, s, end)
    && !Touches(Execute(p, w, run[..n]), run[n], c, Spot(s))
    && (run[n].command.Timer? ==> run[n].now <= end)
  }

  lemma {:induction false} WorkStands(p: Prices, w: Shape, run: seq<Action>, c: nat, s: nat)
    requires Inv(w) && Legal(p, w, run) && Busy(w, c, s)
    requires LeftAlone(p, w, run, c, s, w.cities[c].buildings[s].endtime)
    ensures var v := Execute(p, w, run);
      |v.cities| == |w.cities| && v.cities[c].buildings[s] == w.cities[c].buildings[s]
    decreases |run|
  {
    hide Step, BuildInv, AllQueuesOk, AllSolvent, CitiesNumbered, Touches, Fit;
    if run != [] {
      var n := |run| - 1;
      WorkStands(p, w, run[..n], c, s);
      RunInv(p, w, run[..n]);
      StepStands(p, Execute(p, w, run[..n]), run[n], c, s);
    }
  }

  /** And the first round of the timer behind the end finishes it. */
  lemma WorkFinishes(p: Prices, w: Shape, run: seq<Action>, c: nat, s: nat, now: int)
    requires Inv(w) && Legal(p, w, run) && Busy(w, c, s)
    requires LeftAlone(p, w, run, c, s, w.cities[c].buildings[s].endtime) && now > w.cities[c].buildings[s].endtime
    ensures var v := Tick(p, Execute(p, w, run), now);
      |v.cities| == |w.cities| && v.cities[c].buildings[s] == Done(w.cities[c].buildings[s], Spot(s))
  {
    var u := Execute(p, w, run);
    WorkStands(p, w, run, c, s);
    RunInv(p, w, run);
    TickBuilt(p, u, now, c);
    assert DueWork(u.cities[c], s, now);
    hide Tick, Execute, Inv, Done, HandsOut;
  }

  lemma BuildingBegins(p: Prices, w: Shape, c: nat, typ: int, position: int, duration: int, start: int, v: Shape)
    requires Inv(w) && c < |w.cities| && OnMap(position) && 1 <= typ <= 34 && start > 0
    requires w.cities[c].buildings[Place(position)].typ == 0 && NoWork(w.cities[c])
    requires CanPay(w.cities[c], p.building(typ, 0), 1)
    requires v == NewBuilding(p, w, c, typ, position, true, duration, start)
    ensures Inv(v) && |v.cities| == |w.cities| && Busy(v, c, Place(position))
    ensures v.cities[c].buildings[Place(position)] == Building(position, typ, 0, 1, start, start + duration)
  {
    var a := Action(c, New(typ, position, true, duration), start);
    hide Inv;
    NewBuildingExact(p, w, c, typ, position, true, duration, start);
    StepInv(p, w, a);
    hide NewBuilding, QueueRule, Pays, CanPay, NoWork;
  }

  /** An order for a building, from beginning to end: until `duration` has passed it is under construction, whatever
      all cities do, and the first round behind that makes it a building of level 1. */
  lemma BuildingTakesItsTime(p: Prices, w: Shape, c: nat, typ: int, position: int, duration: int, start: int, v: Shape,
      run: seq<Action>, now: int)
    requires Inv(w) && c < |w.cities| && OnMap(position) && 1 <= typ <= 34 && start > 0
    requires w.cities[c].buildings[Place(position)].typ == 0 && NoWork(w.cities[c])
    requires CanPay(w.cities[c], p.building(typ, 0), 1)
    requires v == NewBuilding(p, w, c, typ, position, true, duration, start)
    requires Legal(p, v, run) && LeftAlone(p, v, run, c, Place(position), start + duration)
    requires now > start + duration
    ensures var u := Execute(p, v, run);
      && |u.cities| == |w.cities| == |Tick(p, u, now).cities|
      && u.cities[c].buildings[Place(position)] == Building(position, typ, 0, 1, start, start + duration)
      && Tick(p, u, now).cities[c].buildings[Place(position)] == Building(position, typ, 1, 0, 0, 0)
  {
    hide NewBuilding, Execute, Legal, LeftAlone, Inv, Tick, CanPay, NoWork, Busy, Place;
    BuildingBegins(p, w, c, typ, position, duration, start, v);
    SiteFinishes(p, v, c, position, v.cities[c].buildings[Place(position)], run, now);
  }

  lemma SiteFinishes(p: Prices, v: Shape, c: nat, position: int, b: Building, run: seq<Action>, now: int)
    requires Inv(v) && Legal(p, v, run)
    requires OnMap(position) && Busy(v, c, Place(position)) && v.cities[c].buildings[Place(position)] == b
    requires LeftAlone(p, v, run, c, Place(position), b.endtime) && now > b.endtime
    ensures var u := Execute(p, v, run);
      && |u.cities| == |v.cities| == |Tick(p, u, now).cities|
      && u.cities[c].buildings[Place(position)] == b
      && Tick(p, u, now).cities[c].buildings[Place(position)] == Done(b, position)
  {
    PlaceSlot(position);
    hide Execute, Legal, LeftAlone, Inv, Tick, Done;
    WorkStands(p, v, run, c, Place(position));
    WorkFinishes(p, v, run, c, Place(position), now);
  }

  // ---- Research -------------------------------------------------------------------------------------

  predicate TouchesStudy(a: Action, c: nat)
  {
    a.city == c && (a.command.CancelStudy? || a.command.SpeedStudy? || a.command.SpeedStudyFree?)
  }

  /** The city is at research `t`. */
  ghost predicate Studying(w: Shape, c: nat, t: nat)
  {
    c < |w.cities| && t < 25 && w.cities[c].researching && w.cities[c].tech[t].castleid != 0
  }

  lemma OnlyStudyDue(w: Shape, c: nat, t: nat, now: int)
    requires ResearchInv(w) && Studying(w, c, t)
    ensures forall u | DueStudy(w.cities[c], u, now) :: u == t
  {
    assert !Quiet(w.cities[c]) && HasLive(w.researchlist, c);
    var i :| 0 <= i < |w.researchlist| && w.researchlist[i].city == c && w.researchlist[i].tech != 0;
    assert Researches(w.cities[c], w.researchlist[i].tech);
  }

  lemma OtherStudy(p: Prices, w: Shape, a: Action, c: nat, t: nat)
    requires a.city < |w.cities| && Studies(a.command) && Studying(w, c, t) && !TouchesStudy(a, c)
    ensures var v := Step(p, w, a);
      |v.cities| == |w.cities| && v.cities[c].tech == w.cities[c].tech && v.cities[c].researching
  {
    hide Claimed, EventOf;
  }

  lemma StepStudies(p: Prices, w: Shape, a: Action, c: nat, t: nat)
    requires ResearchInv(w) && Fit(w, a) && Studying(w, c, t) && !TouchesStudy(a, c)
    requires a.command.Timer? ==> a.now <= w.cities[c].tech[t].endtime
    ensures var v := Step(p, w, a); Studying(v, c, t) && v.cities[c].tech[t] == w.cities[c].tech[t]
  {
    hide ResearchInv;
    if a.command.Timer? {
      TickStudied(p, w, a.now, c);
      OnlyStudyDue(w, c, t, a.now);
      hide Tick;
    } else if Studies(a.command) {
      OtherStudy(p, w, a, c, t);
      hide Step;
    } else {
      StepTech(p, w, a);
      hide Step;
    }
  }

  ghost predicate StudyLeftAlone(run: seq<Action>, c: nat, end: int)
  {
    forall i | 0 <= i < |run| :: !TouchesStudy(run[i], c) && (run[i].command.Timer? ==> run[i].now <= end)
  }

  lemma {:induction false} StudyStands(p: Prices, w: Shape, run: seq<Action>, c: nat, t: nat)
    requires Inv(w) && ResearchInv(w) && Legal(p, w, run) && AllPatient(p, w, run) && Studying(w, c, t)
    requires StudyLeftAlone(run, c, w.cities[c].tech[t].endtime)
    ensures var v := Execute(p, w, run); Studying(v, c, t) && v.cities[c].tech[t] == w.cities[c].tech[t]
    decreases |run|
  {
    hide Step, BuildInv, AllQueuesOk, AllSolvent, CitiesNumbered, ResearchInv, Fit, Patient;
    if run != [] {
      var n := |run| - 1;
      assert forall i | 0 <= i < n :: run[..n][i] == run[i];
      StudyStands(p, w, run[..n], c, t);
      RunInv(p, w, run[..n]);
      RunResearch(p, w, run[..n]);
      StepStudies(p, Execute(p, w, run[..n]), run[n], c, t);
    }
  }

  /** As `WorkFinishes`, for research: the level rises by one in the first round behind its end, and not before. */
  lemma StudyFinishes(p: Prices, w: Shape, run: seq<Action>, c: nat, t: nat, now: int)
    requires Inv(w) && ResearchInv(w) && Legal(p, w, run) && AllPatient(p, w, run) && Studying(w, c, t)
    requires StudyLeftAlone(run, c, w.cities[c].tech[t].endtime) && now > w.cities[c].tech[t].endtime
    ensures var v := Tick(p, Execute(p, w, run), now);
      |v.cities| == |w.cities| && v.cities[c].tech[t] == Tech(w.cities[c].tech[t].level + 1, 0, 0, 0)
  {
    var u := Execute(p, w, run);
    StudyStands(p, w, run, c, t);
    RunInv(p, w, run);
    RunResearch(p, w, run);
    TickStudied(p, u, now, c);
    assert DueStudy(u.cities[c], t, now);
    hide Tick, Execute, BuildInv, ResearchInv, DueStudy;
  }

  lemma StudyBegins(p: Prices, w: Shape, c: nat, t: nat, duration: int, start: int, v: Shape)
    requires Inv(w) && ResearchInv(w) && c < |w.cities| && 1 <= t <= 24 && start > 0 && !w.cities[c].researching
    requires w.cities[c].tech[t].level < 10 && CanPay(w.cities[c], p.research(t, w.cities[c].tech[t].level), 1)
    requires v == Research(p, w, c, t, true, duration, start)
    ensures Inv(v) && ResearchInv(v) && |v.cities| == |w.cities| && Studying(v, c, t)
    ensures v.cities[c].tech[t] == Tech(w.cities[c].tech[t].level, w.cities[c].castleid, start, start + duration)
  {
    Numbered(w, c);
    hide Inv, ResearchInv;
    StudyKeeps(p, w, c, t, duration, start);
    ResearchExact(p, w, c, t, true, duration, start);
    hide Research, Pays, CanPay;
  }

  lemma Numbered(w: Shape, c: nat)
    requires Inv(w) && c < |w.cities|
    ensures w.cities[c].castleid > 0
  {
    hide BuildInv, AllQueuesOk, AllSolvent;
  }

  lemma StudyKeeps(p: Prices, w: Shape, c: nat, t: int, duration: int, start: int)
    requires Inv(w) && ResearchInv(w) && c < |w.cities| && start > 0
    ensures var v := Research(p, w, c, t, true, duration, start); Inv(v) && ResearchInv(v)
  {
    hide Inv, ResearchInv, Research;
    var a := Action(c, Study(t, true, duration), start);
    StepInv(p, w, a);
    StepResearchExact(p, w, a);
  }

  /** A research, from beginning to end. */
  lemma StudyTakesItsTime(p: Prices, w: Shape, c: nat, t: nat, duration: int, start: int, v: Shape, run: seq<Action>,
      now: int)
    requires Inv(w) && ResearchInv(w) && c < |w.cities| && 1 <= t <= 24 && start > 0 && !w.cities[c].researching
    requires w.cities[c].tech[t].level < 10 && CanPay(w.cities[c], p.research(t, w.cities[c].tech[t].level), 1)
    requires v == Research(p, w, c, t, true, duration, start) && Legal(p, v, run) && AllPatient(p, v, run)
    requires StudyLeftAlone(run, c, start + duration) && now > start + duration
    ensures var u, x := Execute(p, v, run), w.cities[c];
      && |u.cities| == |w.cities| == |Tick(p, u, now).cities|
      && u.cities[c].tech[t] == Tech(x.tech[t].level, x.castleid, start, start + duration)
      && Tick(p, u, now).cities[c].tech[t] == Tech(x.tech[t].level + 1, 0, 0, 0)
  {
    StudyBegins(p, w, c, t, duration, start, v);
    hide Research, Execute, Legal, AllPatient, Inv, ResearchInv, Tick, StudyLeftAlone, CanPay;
    RunInv(p, v, run);
    StudyStands(p, v, run, c, t);
    StudyFinishes(p, v, run, c, t, now);
  }

  // ---- Training -------------------------------------------------------------------------------------

  /** The batch at the head of this queue. */
  ghost predicate Head(w: Shape, c: nat, position: int, h: Training.Train)
  {
    HasQueue(w, c, position) && QueueOf(w, c, position).queue != [] && QueueOf(w, c, position).queue[0] == h
  }

  lemma StepHead(p: Prices, w: Shape, a: Action, c: nat, position: int, h: Training.Train)
    requires Inv(w) && Fit(w, a) && Head(w, c, position, h) && HasQueue(Step(p, w, a), c, position)
    requires a.city == c ==> a.command != CancelTrain(position, h.queueid)
    requires a.command.Timer? ==> a.now < h.endtime
    ensures Head(Step(p, w, a), c, position, h)
  {
    hide HasQueue, QueueOf, Inv;
    if a.command.Timer? {
      TimerHead(p, w, a.now, c, position, h);
    } else {
      hide Fit, Step;
      if Drills(a.command) { DrillHead(p, w, a, c, position, h); }
      else { SystemTroops.UntouchedSoldiers(p, w, a, c, position); }
    }
  }

  lemma TimerHead(p: Prices, w: Shape, now: int, c: nat, position: int, h: Training.Train)
    requires Inv(w) && Head(w, c, position, h) && 0 < now < h.endtime
    ensures Head(Tick(p, w, now), c, position, h)
  {
    hide Tick, HasQueue, QueueOf, Inv;
    QueuesExact(p, w, now, c, position);
  }

  lemma DrillHead(p: Prices, w: Shape, a: Action, c: nat, position: int, h: Training.Train)
    requires Fit(w, a) && Head(w, c, position, h) && Drills(a.command)
    requires a.city == c ==> a.command != CancelTrain(position, h.queueid)
    ensures Head(Step(p, w, a), c, position, h)
  {
    hide HasQueue, QueueOf, Fit, Step, Ordered, Training.Cancel;
    if a.command.Train? {
      SystemTroops.TrainDrills(p, w, a, c, position);
    } else {
      SystemTroops.CancelDrills(p, w, a, c, position);
      CancelHead(QueueOf(w, c, position), a.command.queueid, a.now);
    }
  }

  lemma CancelHead(q: Training.Queue, queueid: int, now: int)
    requires q.queue != []
    ensures q.queue[0].queueid != queueid ==>
              var r := Training.Cancel(q, queueid, now).queue; r != [] && r[0] == q.queue[0]
  {
    Training.CancelAt(q, queueid, now);
    hide Training.Cancel;
  }

  ghost predicate HeadLeftAlone(run: seq<Action>, c: nat, position: int, h: Training.Train)
  {
    forall i | 0 <= i < |run| ::
      && (run[i].city == c ==> run[i].command != CancelTrain(position, h.queueid))
      && (run[i].command.Timer? ==> run[i].now < h.endtime)
  }

  lemma {:induction false} HeadStands(p: Prices, w: Shape, run: seq<Action>, c: nat, position: int, h: Training.Train)
    requires Inv(w) && Legal(p, w, run) && Kept(p, w, run, c, position) && Head(w, c, position, h)
    requires HeadLeftAlone(run, c, position, h)
    ensures Head(Execute(p, w, run), c, position, h)
    decreases |run|
  {
    hide Step, Inv, Fit, Head, HasQueue;
    if run != [] {
      var n := |run| - 1;
      assert forall i | 0 <= i < n :: run[..n][i] == run[i];
      HeadStands(p, w, run[..n], c, position, h);
      RunInv(p, w, run[..n]);
      StepHead(p, Execute(p, w, run[..n]), run[n], c, position, h);
    }
  }

  /** A batch at the head that nobody cancels stays there through all rounds before its end, whatever all cities do, and
      the first round at or behind its end finishes it: those behind it move up, and the next one runs from then on. */
  lemma HeadFinishes(p: Prices, w: Shape, run: seq<Action>, c: nat, position: int, h: Training.Train, now: int)
    requires Inv(w) && Legal(p, w, run) && Kept(p, w, run, c, position) && Head(w, c, position, h)
    requires HeadLeftAlone(run, c, position, h) && now >= h.endtime && now > 0
    ensures Head(Execute(p, w, run), c, position, h) && HasQueue(Tick(p, Execute(p, w, run), now), c, position)
    ensures var q := QueueOf(Execute(p, w, run), c, position).queue;
      var r := QueueOf(Tick(p, Execute(p, w, run), now), c, position).queue;
      && |r| == |q| - 1
      && (forall j | 0 < j < |r| :: r[j] == q[j + 1])
      && (r != [] ==> r[0] == q[1].(endtime := now + q[1].costtime))
  {
    HeadStands(p, w, run, c, position, h);
    RunInv(p, w, run);
    QueuesExact(p, Execute(p, w, run), now, c, position);
    hide Tick, Execute, HasQueue, QueueOf, Inv;
  }
}
