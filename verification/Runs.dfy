/** Whole runs of commands and timer passes, in any order and over any number of cities. */
module Runs {
  import opened Economy
  import opened World
  import opened Construction
  import opened Barracks
  import opened ResearchWork
  import opened Ledger
  import opened LedgerSteps
  import opened Accrual
  import opened Solvency
  import Training

  datatype Command =
    | New(typ: int, position: int, allowed: bool, duration: int)
    | Upgrade(position: int, allowed: bool, duration: int)
    | Destruct(position: int, duration: int)
    | SpeedFree(position: int)
    | SpeedItem(position: int, reduce: int)
    | CancelBuild(position: int)
    | Train(position: int, troopid: int, count: int, unit: nat)
    | CancelTrain(position: int, queueid: int)
    | Study(tech: int, allowed: bool, duration: int)
    | CancelStudy
    | SpeedStudy(reduce: int)
    | SpeedStudyFree
    | Receive(gain: Res)
    | Timer

  /** A command of city `city` at time `now`. */
  datatype Action = Action(city: nat, command: Command, now: int)

  ghost function Step(p: Prices, w: Shape, a: Action): Shape
    requires a.city < |w.cities|
  {
    var c, now := a.city, a.now;
    match a.command
    case New(typ, position, allowed, duration) => NewBuilding(p, w, c, typ, position, allowed, duration, now)
    case Upgrade(position, allowed, duration) => UpgradeBuilding(p, w, c, position, allowed, duration, now)
    case Destruct(position, duration) => DestructBuilding(w, c, position, duration, now)
    case SpeedFree(position) => SpeedUpFree(w, c, position)
    case SpeedItem(position, reduce) => SpeedUpItem(w, c, position, reduce)
    case CancelBuild(position) => CancelBuilding(w, position)
    case Train(position, troopid, count, unit) => Produce(p, w, c, position, troopid, count, unit, now)
    case CancelTrain(position, queueid) => CancelProduce(p, w, c, position, queueid, now)
    case Study(tech, allowed, duration) => Research(p, w, c, tech, allowed, duration, now)
    case CancelStudy => CancelResearch(p, w, c)
    case SpeedStudy(reduce) => SpeedUpResearch(w, c, reduce)
    case SpeedStudyFree => SpeedUpResearchFree(w, c)
    case Receive(gain) => Income(w, c, gain)
    case Timer => Tick(p, w, now)
  }

  ghost predicate CitiesNumbered(w: Shape)
  {
    forall c | 0 <= c < |w.cities| :: w.cities[c].castleid > 0
  }

  ghost predicate Inv(w: Shape)
  {
    BuildInv(w) && AllQueuesOk(w) && AllSolvent(w) && CitiesNumbered(w)
  }

  /** What a caller has to see to: a clock past the epoch, no negative numbers of troops, no item spent on a slot
      that was never set while position 0 is busy, and no income that takes more than there is. */
  ghost predicate Fit(w: Shape, a: Action)
  {
    && a.city < |w.cities| && a.now > 0
    && match a.command
       case Train(_, _, count, _) => count >= 0
       case SpeedItem(position, _) => ItemFits(w.cities[a.city], position)
       case Receive(gain) => Stocked(w.cities[a.city].res.Plus(gain))
       case _ => true
  }

  predicate ItemFits(x: City, position: int)
    requires |x.buildings| == 76
  {
    Slot(position) < 0 || x.buildings[Slot(position)].id == position || x.buildings[2].status == 0
  }

  /** Research is not cancelled while a cancelled one of the same city is still in the list. */
  ghost predicate Patient(w: Shape, a: Action)
  {
    a.command.CancelStudy? && a.city < |w.cities| && w.cities[a.city].researching ==> NoDead(w.researchlist, a.city)
  }

  // ---- Steps that leave part of the state alone -----------------------------------------------------

  ghost predicate BuildingsStay(w: Shape, v: Shape)
  {
    && |v.cities| == |w.cities| && v.buildlist == w.buildlist
    && forall c | 0 <= c < |w.cities| :: v.cities[c].buildings == w.cities[c].buildings
  }

  ghost predicate QueuesStay(w: Shape, v: Shape)
  {
    && |v.cities| == |w.cities|
    && forall c | 0 <= c < |w.cities| ::
         v.cities[c].buildings == w.cities[c].buildings && v.cities[c].queues == w.cities[c].queues
  }

  ghost predicate SameTech(x: City, y: City)
  {
    && y.castleid == x.castleid && y.researching == x.researching && y.tech == x.tech
  }

  ghost predicate TechStays(w: Shape, v: Shape)
  {
    && |v.cities| == |w.cities| && v.researchlist == w.researchlist
    && forall c | 0 <= c < |w.cities| :: SameTech(w.cities[c], v.cities[c])
  }

  ghost predicate IdsStay(w: Shape, v: Shape)
  {
    |v.cities| == |w.cities| && forall c | 0 <= c < |w.cities| :: v.cities[c].castleid == w.cities[c].castleid
  }

  lemma BuildInvStays(w: Shape, v: Shape)
    requires BuildInv(w) && BuildingsStay(w, v)
    ensures BuildInv(v)
  {
    forall c | 0 <= c < |w.cities| ensures SlotsOk(v.cities[c]) && (Idle(w.cities[c]) <==> Idle(v.cities[c])) {
      OtherFields(w.cities[c], v.cities[c]);
      hide Idle, OnlyBusy, EventsOk;
      assert SlotsOk(w.cities[c]);
    }
    hide SlotsOk, Idle;
    forall i | 0 <= i < |w.buildlist| ensures OnlyBusy(v.cities[w.buildlist[i].city], Slot(w.buildlist[i].position)) {
      assert OnlyBusy(w.cities[w.buildlist[i].city], Slot(w.buildlist[i].position));
    }
    hide OnlyBusy;
    assert forall c | 0 <= c < |v.cities| :: Idle(v.cities[c]) || HasEvent(v.buildlist, c) by {
      forall c | 0 <= c < |v.cities| ensures Idle(v.cities[c]) || HasEvent(v.buildlist, c) {
        assert Idle(w.cities[c]) || HasEvent(w.buildlist, c);
      }
    }
  }

  lemma QueuesOkStay(w: Shape, v: Shape)
    requires AllQueuesOk(w) && QueuesStay(w, v)
    ensures AllQueuesOk(v)
  {
    forall c | 0 <= c < |w.cities| ensures QueuesOk(v.cities[c]) {
      assert QueuesOk(w.cities[c]);
      ResOnly(w.cities[c], v.cities[c]);
    }
  }

  lemma ResearchInvStays(w: Shape, v: Shape)
    requires ResearchInv(w) && TechStays(w, v)
    ensures ResearchInv(v)
  {
    forall c | 0 <= c < |w.cities|
      ensures SlotsClaimed(v.cities[c]) && (Quiet(w.cities[c]) ==> Quiet(v.cities[c]))
      ensures forall t :: Researches(w.cities[c], t) ==> Researches(v.cities[c], t)
    {
      assert SlotsClaimed(w.cities[c]);
      hide ResearchInv, EventsNamed;
      ClaimsOnly(w.cities[c], v.cities[c]);
    }
    hide SlotsClaimed, Quiet, Researches;
    assert forall c | 0 <= c < |v.cities| :: Quiet(w.cities[c]) || HasLive(w.researchlist, c);
    hide HasLive;
  }

  // ---- What the timer passes leave alone ------------------------------------------------------------

  lemma FinishFrame(p: Prices, w: Shape, i: nat)
    requires i < |w.buildlist|
    ensures TechStays(w, FinishBuilding(p, w, i))
  {
    hide SetQueues, QueueAt;
  }

  lemma TechStaysTrans(u: Shape, v: Shape, w: Shape)
    requires TechStays(u, v) && TechStays(v, w)
    ensures TechStays(u, w)
  {
  }

  lemma {:induction false} BuildingPassFrame(p: Prices, w: Shape, i: nat, now: int)
    ensures TechStays(w, BuildingPass(p, w, i, now))
    decreases |w.buildlist| - i
  {
    if i < |w.buildlist| {
      var e := w.buildlist[i];
      var b := w.cities[e.city].buildings[Slot(e.position)];
      hide FinishBuilding;
      if b.endtime < now && (b.status == 1 || b.status == 2) {
        var u := FinishBuilding(p, w, i);
        FinishFrame(p, w, i);
        FinishShrinks(p, w, i);
        BuildingPassFrame(p, u, i, now);
        hide TechStays;
        TechStaysTrans(w, u, BuildingPass(p, u, i, now));
      } else {
        hide TechStays;
        BuildingPassFrame(p, w, i + 1, now);
      }
    }
  }

  ghost predicate WorkStays(w: Shape, v: Shape)
  {
    BuildingsStay(w, v) && QueuesStay(w, v) && IdsStay(w, v)
  }

  lemma ResearchStepFrame(w: Shape, i: nat)
    requires i < |w.researchlist|
    ensures WorkStays(w, DropResearch(w, i)) && WorkStays(w, FinishResearch(w, i))
    ensures |DropResearch(w, i).researchlist| == |FinishResearch(w, i).researchlist| == |w.researchlist| - 1
  {
  }

  lemma {:induction false} ResearchPassFrame(w: Shape, i: nat, now: int)
    ensures WorkStays(w, ResearchPass(w, i, now))
    decreases |w.researchlist| - i
  {
    if i < |w.researchlist| {
      ResearchStepFrame(w, i);
      hide DropResearch, FinishResearch;
      var e := w.researchlist[i];
      if e.tech == 0 {
        ResearchPassFrame(DropResearch(w, i), i, now);
      } else if w.cities[e.city].tech[e.tech].endtime < now {
        ResearchPassFrame(FinishResearch(w, i), i, now);
      } else {
        ResearchPassFrame(w, i + 1, now);
      }
    }
  }

  lemma TrainingFrame(w: Shape, now: int)
    ensures BuildingsStay(w, AllTraining(w, now)) && TechStays(w, AllTraining(w, now))
  {
  }

  // ---- One step -------------------------------------------------------------------------------------

  predicate Builds(c: Command)
  {
    c.New? || c.Upgrade? || c.Destruct? || c.SpeedFree? || c.SpeedItem? || c.CancelBuild?
  }

  predicate Studies(c: Command)
  {
    c.Study? || c.CancelStudy? || c.SpeedStudy? || c.SpeedStudyFree?
  }

  predicate Drills(c: Command)
  {
    c.Train? || c.CancelTrain?
  }

  lemma OtherBuildStep(p: Prices, w: Shape, a: Action)
    requires BuildInv(w) && a.city < |w.cities| && !a.command.Timer? && !Builds(a.command)
    ensures BuildInv(Step(p, w, a))
  {
    hide BuildInv, QueueAt, Training.IndexOf, Claimed, EventOf;
    BuildInvStays(w, Step(p, w, a));
  }

  lemma BuildStep(p: Prices, w: Shape, a: Action)
    requires BuildInv(w) && Fit(w, a) && !a.command.Timer?
    ensures BuildInv(Step(p, w, a))
  {
    var c, now := a.city, a.now;
    if !Builds(a.command) {
      OtherBuildStep(p, w, a);
      return;
    }
    hide BuildInv, NewBuilding, UpgradeBuilding, DestructBuilding, SpeedUpFree, CancelBuilding;
    match a.command
    case New(typ, position, allowed, duration) => NewBuildingInv(p, w, c, typ, position, allowed, duration, now);
    case Upgrade(position, allowed, duration) => UpgradeInv(p, w, c, position, allowed, duration, now);
    case Destruct(position, duration) => DestructInv(w, c, position, duration, now);
    case SpeedFree(position) => SpeedUpFreeInv(w, c, position);
    case SpeedItem(position, reduce) =>
      if Slot(position) >= 0 { SpeedUpItemExact(w, c, position, reduce); }
    case CancelBuild(position) => CancelInv(w, position);
  }

  lemma OtherQueueStep(p: Prices, w: Shape, a: Action)
    requires AllQueuesOk(w) && a.city < |w.cities| && (Studies(a.command) || a.command.Receive?)
    ensures AllQueuesOk(Step(p, w, a))
  {
    hide AllQueuesOk, QueueAt, Claimed, EventOf;
    QueuesOkStay(w, Step(p, w, a));
  }

  lemma QueueStep(p: Prices, w: Shape, a: Action)
    requires BuildInv(w) && AllQueuesOk(w) && Fit(w, a) && !a.command.Timer?
    ensures AllQueuesOk(Step(p, w, a))
  {
    var c, now := a.city, a.now;
    hide BuildInv, AllQueuesOk;
    if Studies(a.command) || a.command.Receive? {
      OtherQueueStep(p, w, a);
      return;
    }
    hide NewBuilding, UpgradeBuilding, DestructBuilding, SpeedUpFree, SpeedUpItem, CancelBuilding;
    hide Produce, CancelProduce, Research, CancelResearch, SpeedUpResearch, Income, Claimed;
    match a.command
    case New(typ, position, allowed, duration) => NewBuildingQueues(p, w, c, typ, position, allowed, duration, now);
    case Upgrade(position, allowed, duration) => UpgradeQueues(p, w, c, position, allowed, duration, now);
    case Destruct(position, duration) => DestructQueues(w, c, position, duration, now);
    case SpeedFree(position) => SpeedUpQueues(w, c, position, 0);
    case SpeedItem(position, reduce) => SpeedUpQueues(w, c, position, reduce);
    case CancelBuild(position) => CancelQueues(w, position);
    case Train(position, troopid, count, unit) => ProduceQueues(p, w, c, position, troopid, count, unit, now);
    case CancelTrain(position, queueid) => CancelProduceQueues(p, w, c, position, queueid, now);
  }

  lemma PayStep(p: Prices, w: Shape, a: Action)
    requires BuildInv(w) && AllSolvent(w) && CitiesNumbered(w) && Fit(w, a) && !a.command.Timer? && !a.command.Receive?
    ensures AllSolvent(Step(p, w, a)) && NoGain(p, w, Step(p, w, a))
  {
    var c, now := a.city, a.now;
    hide BuildInv, AllSolvent, NoGain;
    hide NewBuilding, UpgradeBuilding, DestructBuilding, SpeedUpFree, SpeedUpItem, CancelBuilding;
    hide Produce, CancelProduce, Research, CancelResearch, SpeedUpResearch, Income, Claimed;
    match a.command
    case New(typ, position, allowed, duration) => NewBuildingPays(p, w, c, typ, position, allowed, duration, now);
    case Upgrade(position, allowed, duration) => UpgradePays(p, w, c, position, allowed, duration, now);
    case Destruct(position, duration) => DestructPays(p, w, c, position, duration, now);
    case SpeedFree(position) => SpeedUpPays(p, w, c, position, 0);
    case SpeedItem(position, reduce) => SpeedUpPays(p, w, c, position, reduce);
    case CancelBuild(position) => CancelPays(p, w, position);
    case Train(position, troopid, count, unit) => ProducePays(p, w, c, position, troopid, count, unit, now);
    case CancelTrain(position, queueid) => CancelProducePays(p, w, c, position, queueid, now);
    case Study(tech, allowed, duration) => ResearchPays(p, w, c, tech, allowed, duration, now);
    case CancelStudy => CancelResearchPays(p, w, c);
    case SpeedStudy(reduce) => SpeedUpResearchPays(p, w, c, reduce);
    case SpeedStudyFree =>
      Same(p, w);
      SpeedUpResearchPays(p, w, c, 300000);
  }

  lemma StepIds(p: Prices, w: Shape, a: Action)
    requires a.city < |w.cities| && !a.command.Timer?
    ensures IdsStay(w, Step(p, w, a))
  {
    hide QueueAt, SetQueues, Training.IndexOf, Claimed, EventOf, EventAt, Idle;
  }

  lemma TickInv(p: Prices, w: Shape, now: int)
    requires Inv(w) && now > 0
    ensures Inv(Tick(p, w, now)) && NoGain(p, w, Tick(p, w, now)) && IdsStay(w, Tick(p, w, now))
  {
    var u := AllTraining(w, now);
    var v := BuildingPass(p, u, 0, now);
    var x := ResearchPass(v, 0, now);
    TrainingFrame(w, now);
    BuildInvStays(w, u);
    AllTrainingQueues(w, now);
    TrainingPays(p, w, now);
    hide AllTraining, BuildInv, AllQueuesOk, AllSolvent, NoGain;
    BuildingPassFrame(p, u, 0, now);
    BuildingPassInv(p, u, 0, now);
    BuildingPassQueues(p, u, 0, now);
    BuildingPassPays(p, u, 0, now);
    NoGainTrans(p, w, u, v);
    ResearchPassFrame(v, 0, now);
    BuildInvStays(v, x);
    QueuesOkStay(v, x);
    ResearchPassPays(p, v, 0, now);
    NoGainTrans(p, w, v, x);
  }

  /** After every round of the timer no event waits that is due. */
  lemma NoEventStuck(p: Prices, w: Shape, now: int)
    requires BuildInv(w) && ResearchInv(w)
    ensures Construction.AllWait(Tick(p, w, now), now) && ResearchWork.AllWait(Tick(p, w, now), now)
  {
    hide BuildInv, ResearchInv, AllTraining;
    var u := AllTraining(w, now);
    var v := BuildingPass(p, u, 0, now);
    TrainingFrame(w, now);
    BuildInvStays(w, u);
    Construction.PassFinishesDue(p, u, 0, now);
    BuildingPassFrame(p, u, 0, now);
    TechStaysTrans(w, u, v);
    ResearchInvStays(w, v);
    ResearchWork.PassFinishesDue(v, 0, now);
    ResearchPassFrame(v, 0, now);
    BuildingsStill(v, ResearchPass(v, 0, now), now);
  }

  lemma BuildingsStill(w: Shape, v: Shape, now: int)
    requires BuildingsStay(w, v) && Construction.AllWait(w, now)
    ensures Construction.AllWait(v, now)
  {
    forall i | 0 <= i < |v.buildlist| ensures Construction.Waits(v, i, now) { assert Construction.Waits(w, i, now); }
  }

  /** What an action brings in from outside. */
  function Received(a: Action, c: nat, k: Kind): real
  {
    if a.command.Receive? && a.city == c then a.command.gain.Of(k) else 0.0
  }

  ghost predicate Within(p: Prices, w: Shape, v: Shape, a: Action)
  {
    |v.cities| == |w.cities| &&
    forall c, k | 0 <= c < |w.cities| :: Worth(p, k, v.cities[c]) <= Worth(p, k, w.cities[c]) + Received(a, c, k)
  }

  lemma ReceiveStep(p: Prices, w: Shape, a: Action)
    requires AllSolvent(w) && Fit(w, a) && a.command.Receive?
    ensures AllSolvent(Step(p, w, a)) && Within(p, w, Step(p, w, a), a)
  {
    var v := Step(p, w, a);
    var gain := a.command.gain;
    IncomeKeeps(w, a.city, gain);
    hide Worth, AllSolvent;
    forall c, k | 0 <= c < |w.cities| ensures Worth(p, k, v.cities[c]) <= Worth(p, k, w.cities[c]) + Received(a, c, k) {
      IncomeWorth(p, k, w, a.city, gain);
    }
  }

  lemma NoGainWithin(p: Prices, w: Shape, v: Shape, a: Action)
    requires NoGain(p, w, v) && !a.command.Receive?
    ensures Within(p, w, v, a)
  {
    hide Worth;
    forall c, k | 0 <= c < |w.cities| ensures Worth(p, k, v.cities[c]) <= Worth(p, k, w.cities[c]) + Received(a, c, k) {
      assert NoRicher(p, w.cities[c], v.cities[c]);
    }
  }

  /** Every command and every pass of the timer keeps construction and training in order, keeps stores from
      falling below zero, and makes no city richer than what it takes in from outside. */
  lemma StepInv(p: Prices, w: Shape, a: Action)
    requires Inv(w) && Fit(w, a)
    ensures Inv(Step(p, w, a)) && Within(p, w, Step(p, w, a), a) && IdsStay(w, Step(p, w, a))
    ensures !a.command.Receive? ==> NoGain(p, w, Step(p, w, a))
  {
    hide BuildInv, AllQueuesOk, AllSolvent, NoGain, Within;
    if a.command.Timer? {
      TickInv(p, w, a.now);
      NoGainWithin(p, w, Step(p, w, a), a);
    } else {
      BuildStep(p, w, a);
      QueueStep(p, w, a);
      if a.command.Receive? { ReceiveStep(p, w, a); }
      else {
        PayStep(p, w, a);
        NoGainWithin(p, w, Step(p, w, a), a);
      }
      StepIds(p, w, a);
      hide Step;
    }
  }

  lemma StartTech(p: Prices, w: Shape, a: Action)
    requires a.city < |w.cities| && (a.command.New? || a.command.Upgrade? || a.command.Destruct?)
    ensures TechStays(w, Step(p, w, a))
  {
    hide SetQueues, Slot, Idle;
  }

  lemma ChangeTech(p: Prices, w: Shape, a: Action)
    requires a.city < |w.cities| && (a.command.SpeedFree? || a.command.SpeedItem? || a.command.CancelBuild?)
    ensures TechStays(w, Step(p, w, a))
  {
    hide SetQueues, Slot, EventAt;
  }

  lemma TrainTech(p: Prices, w: Shape, a: Action)
    requires a.city < |w.cities| && (Drills(a.command) || a.command.Receive?)
    ensures TechStays(w, Step(p, w, a))
  {
    hide QueueAt, Training.IndexOf, Training.Add, Training.Remove, Slot;
  }

  lemma StepTech(p: Prices, w: Shape, a: Action)
    requires a.city < |w.cities| && !a.command.Timer? && !Studies(a.command)
    ensures TechStays(w, Step(p, w, a))
  {
    hide Step, TechStays;
    if Drills(a.command) || a.command.Receive? { TrainTech(p, w, a); }
    else if a.command.New? || a.command.Upgrade? || a.command.Destruct? { StartTech(p, w, a); }
    else { ChangeTech(p, w, a); }
  }

  lemma TickTech(p: Prices, w: Shape, now: int)
    requires ResearchInv(w)
    ensures ResearchInv(Tick(p, w, now))
  {
    hide ResearchInv;
    var u := AllTraining(w, now);
    var v := BuildingPass(p, u, 0, now);
    TrainingFrame(w, now);
    ResearchInvStays(w, u);
    BuildingPassFrame(p, u, 0, now);
    ResearchInvStays(u, v);
    PassKeeps(v, 0, now);
  }

  /** Research stays in order in every step but one: a cancel that meets an event cancelled before. */
  lemma StepResearchExact(p: Prices, w: Shape, a: Action)
    requires ResearchInv(w) && a.city < |w.cities|
    ensures ResearchInv(Step(p, w, a)) <==> Patient(w, a)
  {
    hide ResearchInv;
    match a.command
    case Study(tech, allowed, duration) => ResearchKeeps(p, w, a.city, tech, allowed, duration, a.now);
    case CancelStudy =>
      if w.cities[a.city].researching { CancelExact(p, w, a.city); }
    case SpeedStudy(reduce) => SpeedUpKeeps(w, a.city, reduce);
    case SpeedStudyFree => SpeedUpKeeps(w, a.city, 300000);
    case Timer => TickTech(p, w, a.now);
    case _ =>
      StepTech(p, w, a);
      ResearchInvStays(w, Step(p, w, a));
  }

  // ---- Runs -----------------------------------------------------------------------------------------

  /** Every action meets a state that it fits. */
  ghost predicate Legal(p: Prices, w: Shape, run: seq<Action>)
    decreases |run|, 0
  {
    run == [] || (Legal(p, w, run[..|run| - 1]) && Fit(Execute(p, w, run[..|run| - 1]), run[|run| - 1]))
  }

  ghost function Execute(p: Prices, w: Shape, run: seq<Action>): Shape
    requires Legal(p, w, run)
    decreases |run|, 1
  {
    if run == [] then w else Step(p, Execute(p, w, run[..|run| - 1]), run[|run| - 1])
  }

  ghost predicate AllPatient(p: Prices, w: Shape, run: seq<Action>)
    requires Legal(p, w, run)
    decreases |run|
  {
    run == [] || (AllPatient(p, w, run[..|run| - 1]) && Patient(Execute(p, w, run[..|run| - 1]), run[|run| - 1]))
  }

  /** All that a city takes in from outside during a run. */
  function Total(run: seq<Action>, c: nat, k: Kind): real
  {
    if run == [] then 0.0 else Total(run[..|run| - 1], c, k) + Received(run[|run| - 1], c, k)
  }

  ghost predicate Balanced(p: Prices, w: Shape, v: Shape, run: seq<Action>)
  {
    |v.cities| == |w.cities| &&
    forall c, k | 0 <= c < |w.cities| :: Worth(p, k, v.cities[c]) <= Worth(p, k, w.cities[c]) + Total(run, c, k)
  }

  /** Over every run: events and busy buildings stay in bijection, every barracks keeps its one queue, queues
      keep their discipline, no store falls below zero, and no city's ledger grows by more than its income. */
  lemma {:induction false} RunInv(p: Prices, w: Shape, run: seq<Action>)
    requires Inv(w) && Legal(p, w, run)
    ensures Inv(Execute(p, w, run)) && Balanced(p, w, Execute(p, w, run), run)
    decreases |run|
  {
    hide Inv, Step, Worth;
    if run != [] {
      hide Balanced, Within;
      var n := |run| - 1;
      var v := Execute(p, w, run[..n]);
      RunInv(p, w, run[..n]);
      StepInv(p, v, run[n]);
      BalancedStep(p, w, v, run, Step(p, v, run[n]));
    }
  }

  lemma BalancedStep(p: Prices, w: Shape, v: Shape, run: seq<Action>, x: Shape)
    requires run != [] && Balanced(p, w, v, run[..|run| - 1]) && Within(p, v, x, run[|run| - 1])
    ensures Balanced(p, w, x, run)
  {
    hide Worth;
    var n := |run| - 1;
    forall c, k | 0 <= c < |w.cities| ensures Worth(p, k, x.cities[c]) <= Worth(p, k, w.cities[c]) + Total(run, c, k) {
      assert Worth(p, k, x.cities[c]) <= Worth(p, k, v.cities[c]) + Received(run[n], c, k);
      assert Worth(p, k, v.cities[c]) <= Worth(p, k, w.cities[c]) + Total(run[..n], c, k);
    }
  }

  /** In a run without income no city ends richer than it began. */
  lemma NoIncomeNoGain(p: Prices, w: Shape, run: seq<Action>)
    requires Inv(w) && Legal(p, w, run) && forall i | 0 <= i < |run| :: !run[i].command.Receive?
    ensures NoGain(p, w, Execute(p, w, run))
  {
    var v := Execute(p, w, run);
    RunInv(p, w, run);
    hide Inv, Legal, Execute, Worth;
    forall c | 0 <= c < |w.cities| ensures NoRicher(p, w.cities[c], v.cities[c]) {
      forall k ensures Worth(p, k, v.cities[c]) <= Worth(p, k, w.cities[c]) { NoIncome(run, c, k); }
    }
  }

  lemma {:induction false} NoIncome(run: seq<Action>, c: nat, k: Kind)
    requires forall i | 0 <= i < |run| :: !run[i].command.Receive?
    ensures Total(run, c, k) == 0.0
  {
    if run != [] { NoIncome(run[..|run| - 1], c, k); }
  }

  /** Production is such an income, as long as the army eats nothing, as in this server it never does. */
  lemma ProductionIsIncome(p: Prices, w: Shape, c: nat, r: Rates, diff: nat, now: int)
    requires Inv(w) && c < |w.cities| && now > 0 && Growing(r) && r.consume == 0.0
    ensures var x := w.cities[c];
      var a := Action(c, Receive(After(r, x.res, diff).Minus(x.res)), now);
      Fit(w, a) && Step(p, w, a) == Put(w, c, x.(res := After(r, x.res, diff)))
  {
    hide Worth, BuildInv, AllQueuesOk, After, Growing, Stocked;
    var x := w.cities[c];
    var y := After(r, x.res, diff);
    assert Solvent(x);
    StockedFields(x.res);
    AfterStocked(r, x.res, diff);
    StockedFields(y);
    PlusMinus(x.res, y);
  }

  lemma PlusMinus(x: Res, y: Res)
    ensures x.Plus(y.Minus(x)) == y
  {
  }

  lemma {:induction false} RunResearch(p: Prices, w: Shape, run: seq<Action>)
    requires ResearchInv(w) && Legal(p, w, run) && AllPatient(p, w, run)
    ensures ResearchInv(Execute(p, w, run))
    decreases |run|
  {
    hide ResearchInv, Step, Patient;
    if run != [] {
      var n := |run| - 1;
      RunResearch(p, w, run[..n]);
      StepResearchExact(p, Execute(p, w, run[..n]), run[n]);
    }
  }

  // ---- Where runs begin -----------------------------------------------------------------------------

  const Empty := Building(0, 0, 0, 0, 0, 0)

  /** A city as `AddPlayerCity` leaves it, with a town hall of level 1, and any stores. */
  function Founded(castleid: int, stores: Res): City
  {
    SetBuilding(City(castleid, stores, seq(76, _ => Empty), [], 0, false, seq(25, _ => Tech(0, 0, 0, 0))),
                TOWNHALL, 1, -1, 0, 0, 0)
  }

  lemma FoundedOk(castleid: int, stores: Res)
    requires castleid > 0 && Stocked(stores)
    ensures var x := Founded(castleid, stores);
      SlotsOk(x) && Idle(x) && QueuesOk(x) && Solvent(x) && SlotsClaimed(x) && Quiet(x) && x.castleid > 0
  {
    var x := Founded(castleid, stores);
    hide Stocked;
    assert x.buildings[1] == Building(-1, TOWNHALL, 1, 0, 0, 0);
    assert forall s | 0 <= s < 76 && s != 1 :: x.buildings[s] == Empty;
  }

  /** In fields: a town hall, type 31, at position -1, and nothing else. */
  lemma FoundedExact(castleid: int, stores: Res)
    ensures var x := Founded(castleid, stores);
      && x.castleid == castleid && x.res == stores && x.level == 1 && x.queues == [] && !x.researching
      && |x.buildings| == 76 && x.buildings[1] == Building(-1, 31, 1, 0, 0, 0)
      && (forall s | 0 <= s < 76 && s != 1 :: x.buildings[s] == Building(0, 0, 0, 0, 0, 0))
      && |x.tech| == 25 && forall t | 0 <= t < 25 :: x.tech[t] == Tech(0, 0, 0, 0)
  {
  }

  /** One more city. */
  function Found(w: Shape, castleid: int, stores: Res): Shape
  {
    w.(cities := w.cities + [Founded(castleid, stores)])
  }

  /** A new city disturbs nothing. */
  lemma FoundingKeeps(w: Shape, castleid: int, stores: Res)
    requires castleid > 0 && Stocked(stores)
    ensures Inv(w) ==> Inv(Found(w, castleid, stores))
    ensures ResearchInv(w) ==> ResearchInv(Found(w, castleid, stores))
  {
    FoundedOk(castleid, stores);
    var x := Founded(castleid, stores);
    var v := Found(w, castleid, stores);
    assert v.cities[|w.cities|] == x && forall c | 0 <= c < |w.cities| :: v.cities[c] == w.cities[c];
    hide Founded, Found;
    if Inv(w) {
      FoundedBuild(w, v, x);
      hide BuildInv, QueuesOk, Solvent;
      assert AllQueuesOk(v) && AllSolvent(v) && CitiesNumbered(v);
    }
    if ResearchInv(w) { FoundedResearch(w, v, x); }
  }

  lemma FoundedBuild(w: Shape, v: Shape, x: City)
    requires BuildInv(w) && v.cities == w.cities + [x] && v.buildlist == w.buildlist && SlotsOk(x) && Idle(x)
    ensures BuildInv(v)
  {
    hide SlotsOk, Idle, OnlyBusy;
    forall c | 0 <= c < |v.cities| ensures SlotsOk(v.cities[c]) && (Idle(v.cities[c]) || HasEvent(v.buildlist, c)) {
      if c < |w.cities| { assert v.cities[c] == w.cities[c]; }
    }
    forall i | 0 <= i < |w.buildlist| ensures OnlyBusy(v.cities[w.buildlist[i].city], Slot(w.buildlist[i].position)) {
      assert OnlyBusy(w.cities[w.buildlist[i].city], Slot(w.buildlist[i].position));
    }
  }

  lemma FoundedResearch(w: Shape, v: Shape, x: City)
    requires ResearchInv(w) && SlotsClaimed(x) && Quiet(x)
    requires v.cities == w.cities + [x] && v.researchlist == w.researchlist
    ensures ResearchInv(v)
  {
    hide SlotsClaimed, Quiet, Researches, HasLive;
    forall c | 0 <= c < |v.cities|
      ensures SlotsClaimed(v.cities[c]) && (Quiet(v.cities[c]) || HasLive(v.researchlist, c))
    {
      if c < |w.cities| { assert v.cities[c] == w.cities[c]; }
    }
  }

  /** A city is founded, and then things go on for a while. */
  datatype Era = Era(castleid: int, stores: Res, run: seq<Action>)

  ghost predicate History(p: Prices, w: Shape, eras: seq<Era>)
    decreases |eras|
  {
    eras == [] ||
    var e := eras[0];
    var v := Found(w, e.castleid, e.stores);
    e.castleid > 0 && Stocked(e.stores) && Legal(p, v, e.run) && History(p, Execute(p, v, e.run), eras[1..])
  }

  ghost function Today(p: Prices, w: Shape, eras: seq<Era>): Shape
    requires History(p, w, eras)
    decreases |eras|
  {
    if eras == [] then w
    else Today(p, Execute(p, Found(w, eras[0].castleid, eras[0].stores), eras[0].run), eras[1..])
  }

  ghost predicate PatientHistory(p: Prices, w: Shape, eras: seq<Era>)
    requires History(p, w, eras)
    decreases |eras|
  {
    eras == [] ||
    var v := Found(w, eras[0].castleid, eras[0].stores);
    AllPatient(p, v, eras[0].run) && PatientHistory(p, Execute(p, v, eras[0].run), eras[1..])
  }

  lemma {:induction false} HistoryKeeps(p: Prices, w: Shape, eras: seq<Era>)
    requires Inv(w) && History(p, w, eras)
    ensures Inv(Today(p, w, eras))
    ensures ResearchInv(w) && PatientHistory(p, w, eras) ==> ResearchInv(Today(p, w, eras))
    decreases |eras|
  {
    hide Inv, ResearchInv, Found, Legal, Execute, AllPatient;
    if eras != [] {
      var e := eras[0];
      var v := Found(w, e.castleid, e.stores);
      FoundingKeeps(w, e.castleid, e.stores);
      RunInv(p, v, e.run);
      if ResearchInv(w) && PatientHistory(p, w, eras) { RunResearch(p, v, e.run); }
      HistoryKeeps(p, Execute(p, v, e.run), eras[1..]);
    }
  }

  /** Every state that can be reached from an empty world, with cities founded at any time, whatever they own and earn,
      is in order. */
  lemma Reachable(p: Prices, eras: seq<Era>)
    requires History(p, World([], [], []), eras)
    ensures Inv(Today(p, World([], [], []), eras))
    ensures PatientHistory(p, World([], [], []), eras) ==> ResearchInv(Today(p, World([], [], []), eras))
  {
    hide Today, History, PatientHistory;
    NothingYet();
    HistoryKeeps(p, World([], [], []), eras);
  }

  lemma NothingYet()
    ensures Inv(World([], [], [])) && ResearchInv(World([], [], []))
  {
  }
}
