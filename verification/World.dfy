/** The timed work of all cities: what the packet handlers start and cancel and the timer thread finishes.
    Every handler and every timer pass is one step. A client owns one city, so that its research slots
    are kept with the city. */
module World {
  import opened Economy
  import opened Sequences
  import Training

  /** `stBuilding`. A slot that was never set holds zeros, its position id included. */
  datatype Building = Building(id: int, typ: int, level: int, status: int, starttime: int, endtime: int)

  /** `stResearch`. */
  datatype Tech = Tech(level: int, castleid: int, starttime: int, endtime: int)

  /** `buildings` lists `m_innerbuildings` (35) and then `m_outerbuildings` (41). */
  datatype City = City(
    castleid: int, res: Res, buildings: seq<Building>, queues: seq<Training.Queue>, level: int,
    researching: bool, tech: seq<Tech>)

  /** `stBuildingAction` and `stResearchAction`; a research event with `tech` 0 counts as cancelled. */
  datatype BuildEvent = BuildEvent(city: nat, position: int)
  datatype TechEvent = TechEvent(city: nat, tech: int)

  datatype World = World(cities: seq<City>, buildlist: seq<BuildEvent>, researchlist: seq<TechEvent>)

  /** Prices of `m_buildingconfig`, `m_researchconfig` (by type and level) and `m_troopconfig`. */
  datatype Prices = Prices(building: (int, int) -> Cost, research: (int, int) -> Cost, troop: int -> Cost)

  const BARRACKS := 2
  const TOWNHALL := 31
  const WALLS := 32

  /** Index of a position in `buildings`, or -1 where `GetBuilding` returns a null pointer. */
  function Slot(position: int): (r: int)
    ensures -1 <= r < 76
  {
    if position > 1000 then (if position - 1000 > 40 then -1 else 35 + position - 1000)
    else if position < -2 || position > 32 then -1
    else position + 2
  }

  /** The positions that `SetBuilding` accepts. */
  predicate Settable(position: int)
  {
    -2 <= position <= 31 || 1001 <= position <= 1040
  }

  /** `GetBarracksQueue`: index of the first queue at this position, or -1. */
  function QueueAt(qs: seq<Training.Queue>, position: int): (r: int)
    ensures -1 <= r < |qs|
    ensures r >= 0 ==> qs[r].positionid == position && forall j | 0 <= j < r :: qs[j].positionid != position
    ensures r < 0 <==> forall j | 0 <= j < |qs| :: qs[j].positionid != position
  {
    First(qs, (q: Training.Queue) => q.positionid == position)
  }

  /** The queue bookkeeping of `SetBuilding`: a barracks or wall of level 0 has no queue, one of level 1 or
      more gets one. The source erases while it walks the vector; what is meant is that the queue goes. */
  function SetQueues(qs: seq<Training.Queue>, typ: int, level: int, position: int): seq<Training.Queue>
  {
    var i := QueueAt(qs, position);
    if !(typ == BARRACKS || typ == WALLS) then qs
    else if level > 0 && i < 0 then qs + [Training.Queue(position, 0, [])]
    else if level == 0 && i >= 0 then qs[..i] + qs[i + 1..]
    else qs
  }

  function SetBuilding(c: City, typ: int, level: int, position: int, status: int, starttime: int, endtime: int): City
    requires |c.buildings| == 76
  {
    if !Settable(position) then c
    else
      c.(buildings := c.buildings[Slot(position) := Building(position, typ, level, status, starttime, endtime)],
         queues := if position > 1000 then c.queues else SetQueues(c.queues, typ, level, position),
         level := if position <= 1000 && typ == TOWNHALL then level else c.level)
  }

  /** The loops over both arrays that every building command starts with. */
  ghost predicate Idle(c: City)
  {
    forall i | 0 <= i < |c.buildings| :: c.buildings[i].status == 0
  }

  predicate Shaped(w: World)
  {
    && (forall c | 0 <= c < |w.cities| :: |w.cities[c].buildings| == 76 && |w.cities[c].tech| == 25)
    && (forall i | 0 <= i < |w.buildlist| :: w.buildlist[i].city < |w.cities| && Slot(w.buildlist[i].position) >= 0)
    && (forall i | 0 <= i < |w.researchlist| :: w.researchlist[i].city < |w.cities| && 0 <= w.researchlist[i].tech < 25)
  }

  type Shape = w: World | Shaped(w) witness World([], [], [])

  function Put(w: Shape, c: nat, x: City): Shape
    requires c < |w.cities| && |x.buildings| == 76 && |x.tech| == 25
  {
    w.(cities := w.cities[c := x])
  }

  // ---- src/packets/pcastle.cpp --------------------------------------------------------------------

  /** `newBuilding`. `allowed` stands for the limit and prerequisite tests. */
  ghost function NewBuilding(p: Prices, w: Shape, c: nat, typ: int, position: int, allowed: bool, duration: int,
      now: int): Shape
    requires c < |w.cities|
  {
    var x := w.cities[c];
    if !Settable(position) || typ > 34 || typ <= 0 || x.buildings[Slot(position)].typ != 0 then w
    else if !Idle(x) || !allowed || !x.res.Affords(p.building(typ, 0).Times(1)) then w
    else
      var y := SetBuilding(x.(res := x.res.Minus(p.building(typ, 0).Times(1))), typ, 0, position, 1, now,
                           now + duration);
      Put(w, c, y).(buildlist := w.buildlist + [BuildEvent(c, position)])
  }

  /** `upgradeBuilding`. Without a building the prerequisite test fails. */
  ghost function UpgradeBuilding(p: Prices, w: Shape, c: nat, position: int, allowed: bool, duration: int,
      now: int): Shape
    requires c < |w.cities|
  {
    var x := w.cities[c];
    if Slot(position) < 0 then w
    else
      var b := x.buildings[Slot(position)];
      var price := p.building(b.typ, b.level).Times(1);
      if b.status != 0 || !Idle(x) || b.typ <= 0 || b.typ > 35 || !allowed || !x.res.Affords(price) then w
      else
        var y := SetBuilding(x.(res := x.res.Minus(price)), b.typ, b.level, position, 1, now, now + duration);
        Put(w, c, y).(buildlist := w.buildlist + [BuildEvent(c, position)])
  }

  /** `destructBuilding`. */
  ghost function DestructBuilding(w: Shape, c: nat, position: int, duration: int, now: int): Shape
    requires c < |w.cities|
  {
    var x := w.cities[c];
    if Slot(position) < 0 then w
    else
      var b := x.buildings[Slot(position)];
      if b.typ > 34 || b.typ <= 0 || b.level == 0 || !Idle(x) then w
      else
        var y := SetBuilding(x, b.typ, b.level, position, 2, now, now + duration);
        Put(w, c, y).(buildlist := w.buildlist + [BuildEvent(c, position)])
  }

  /** `speedUpBuildCommand` with "free.speed". */
  function SpeedUpFree(w: Shape, c: nat, position: int): Shape
    requires c < |w.cities|
  {
    var x := w.cities[c];
    if Slot(position) < 0 then w
    else
      var b := x.buildings[Slot(position)];
      if b.endtime - b.starttime > 300000 then w
      else Put(w, c, x.(buildings := x.buildings[Slot(position) := b.(endtime := b.endtime - 300000)]))
  }

  /** `speedUpBuildCommand` with an item: the building is written back under the position id it carries. */
  function SpeedUpItem(w: Shape, c: nat, position: int, reduce: int): Shape
    requires c < |w.cities|
  {
    var x := w.cities[c];
    if Slot(position) < 0 then w
    else
      var b := x.buildings[Slot(position)].(endtime := x.buildings[Slot(position)].endtime - reduce);
      var y := x.(buildings := x.buildings[Slot(position) := b]);
      Put(w, c, SetBuilding(y, b.typ, b.level, b.id, b.status, b.starttime, b.endtime))
  }

  /** First construction event at this position, of whatever city, or -1. */
  function EventAt(l: seq<BuildEvent>, position: int): (r: int)
    ensures -1 <= r < |l|
    ensures r >= 0 ==> l[r].position == position && forall j | 0 <= j < r :: l[j].position != position
    ensures r < 0 ==> forall j | 0 <= j < |l| :: l[j].position != position
  {
    First(l, (e: BuildEvent) => e.position == position)
  }

  /** The slot as it is left when a command ends: empty at level 0. */
  function Settle(c: City, b: Building, position: int): City
    requires |c.buildings| == 76
  {
    if b.level == 0 then SetBuilding(c, 0, 0, position, 0, 0, 0)
    else SetBuilding(c, b.typ, b.level, position, 0, 0, 0)
  }

  function DropBuild(w: Shape, i: nat): Shape
    requires i < |w.buildlist|
  {
    w.(buildlist := w.buildlist[..i] + w.buildlist[i + 1..])
  }

  /** `cancleBuildCommand`. It takes the first event at the position from the list of all cities. The refund
      is guarded by a test of the status after it was cleared, and so never given. */
  function CancelBuilding(w: Shape, position: int): Shape
  {
    var i := EventAt(w.buildlist, position);
    if i < 0 then w
    else
      var c := w.buildlist[i].city;
      var x := w.cities[c];
      var s := Slot(position);
      var b := x.buildings[s];
      if b.status == 0 then w
      else
        var y := x.(buildings := x.buildings[s := b.(status := 0)]);
        Put(DropBuild(w, i), c, Settle(y, b, position))
  }

  /** Whatever else changes a city's stores: production, which every construction command brings up to date
      first, taxes, salaries, trade. Module Accrual says what production comes to. */
  function Income(w: Shape, c: nat, gain: Res): Shape
    requires c < |w.cities|
  {
    Put(w, c, w.cities[c].(res := w.cities[c].res.Plus(gain)))
  }

  // ---- src/packets/ptroop.cpp, src/packets/pfortifications.cpp --------------------------------------

  /** `produceTroop` and `produceWallProtect` (position -2). The price is taken before the queue is asked. */
  function Produce(p: Prices, w: Shape, c: nat, position: int, troopid: int, count: int, unit: int, now: int): Shape
    requires c < |w.cities|
  {
    var x := w.cities[c];
    var price := p.troop(troopid).Times(count);
    var i := QueueAt(x.queues, position);
    if !x.res.Affords(price) || i < 0 || Slot(position) < 0 then w
    else
      var q := Training.Add(x.queues[i], x.buildings[Slot(position)].level, troopid, count, unit, now);
      Put(w, c, x.(res := x.res.Minus(price), queues := x.queues[i := q]))
  }

  /** The price is taken. */
  predicate Ordered(p: Prices, w: Shape, c: nat, position: int, troopid: int, count: int)
    requires c < |w.cities|
  {
    && w.cities[c].res.Affords(p.troop(troopid).Times(count))
    && QueueAt(w.cities[c].queues, position) >= 0 && Slot(position) >= 0
  }

  /** But the queue takes no more. */
  predicate Full(w: Shape, c: nat, position: int)
    requires c < |w.cities| && QueueAt(w.cities[c].queues, position) >= 0 && Slot(position) >= 0
  {
    |w.cities[c].queues[QueueAt(w.cities[c].queues, position)].queue| >= w.cities[c].buildings[Slot(position)].level
  }

  /** `cancelTroopProduce` and `cancelFortificationProduce`: a third for the running batch, all for a waiting one. */
  function CancelProduce(p: Prices, w: Shape, c: nat, position: int, queueid: int, now: int): Shape
    requires c < |w.cities|
  {
    var x := w.cities[c];
    var i := QueueAt(x.queues, position);
    if i < 0 then w
    else
      var q := x.queues[i];
      var j := Training.IndexOf(q.queue, queueid);
      if j < 0 then w
      else
        var t := q.queue[j];
        var refund := if t.endtime > 0 then p.troop(t.troopid).Third(t.count) else p.troop(t.troopid).Times(t.count);
        Put(w, c, x.(res := x.res.Plus(refund), queues := x.queues[i := Training.Remove(q, j, now)]))
  }

  // ---- src/packets/ptech.cpp ------------------------------------------------------------------------

  /** `research`. `allowed` is false where the configuration has no such technology or level; there is none
      with number 0. The slot is not looked at, only the city's flag. */
  function Research(p: Prices, w: Shape, c: nat, tech: int, allowed: bool, duration: int, now: int): Shape
    requires c < |w.cities|
  {
    var x := w.cities[c];
    if tech <= 0 || tech >= 25 || !allowed || x.researching then w
    else
      var t := x.tech[tech];
      var price := p.research(tech, t.level).Times(1);
      if t.level >= 10 || !x.res.Affords(price) then w
      else
        var y := x.(res := x.res.Minus(price), researching := true,
                    tech := x.tech[tech := t.(castleid := x.castleid, starttime := now, endtime := now + duration)]);
        Put(w, c, y).(researchlist := w.researchlist + [TechEvent(c, tech)])
  }

  /** First slot that carries the city's id, or -1. */
  function Claimed(ts: seq<Tech>, castleid: int): (r: int)
    ensures -1 <= r < |ts|
    ensures r >= 0 ==> ts[r].castleid == castleid && forall j | 0 <= j < r :: ts[j].castleid != castleid
    ensures r < 0 ==> forall j | 0 <= j < |ts| :: ts[j].castleid != castleid
  {
    First(ts, (t: Tech) => t.castleid == castleid)
  }

  /** First research event of the city, cancelled or not, or -1. */
  function EventOf(l: seq<TechEvent>, c: nat): (r: int)
    ensures -1 <= r < |l|
    ensures r >= 0 ==> l[r].city == c && forall j | 0 <= j < r :: l[j].city != c
    ensures r < 0 ==> forall j | 0 <= j < |l| :: l[j].city != c
  {
    First(l, (e: TechEvent) => e.city == c)
  }

  /** `cancelResearch`. The event stays in the list, marked, until the timer meets it; the mark goes to the
      city's first event, even when that one is marked already. */
  function CancelResearch(p: Prices, w: Shape, c: nat): Shape
    requires c < |w.cities|
  {
    var x := w.cities[c];
    var tech := Claimed(x.tech, x.castleid);
    if !x.researching || tech <= 0 then w
    else
      var t := x.tech[tech];
      var i := EventOf(w.researchlist, c);
      var l := if i < 0 then w.researchlist else w.researchlist[i := TechEvent(c, 0)];
      var y := x.(res := x.res.Plus(p.research(tech, t.level).ExactThird()), researching := false,
                  tech := x.tech[tech := Tech(t.level, 0, 0, 0)]);
      Put(w, c, y).(researchlist := l)
  }

  /** `speedUpResearch` with an item. */
  function SpeedUpResearch(w: Shape, c: nat, reduce: int): Shape
    requires c < |w.cities|
  {
    var x := w.cities[c];
    var tech := Claimed(x.tech, x.castleid);
    if tech < 0 then w
    else Put(w, c, x.(tech := x.tech[tech := x.tech[tech].(endtime := x.tech[tech].endtime - reduce)]))
  }

  /** `speedUpResearch` with "free.speed": five minutes off a research of no more than five. */
  function SpeedUpResearchFree(w: Shape, c: nat): Shape
    requires c < |w.cities|
  {
    var x := w.cities[c];
    var tech := Claimed(x.tech, x.castleid);
    if tech < 0 || x.tech[tech].endtime - x.tech[tech].starttime > 300000 then w else SpeedUpResearch(w, c, 300000)
  }

  // ---- src/Server.cpp, TimerThread ------------------------------------------------------------------

  function TrainingPass(c: City, now: int): (r: City)
    ensures |r.queues| == |c.queues| && r == c.(queues := r.queues)
    ensures forall i | 0 <= i < |c.queues| :: r.queues[i] == Training.Tick(c.queues[i], now)
  {
    c.(queues := seq(|c.queues|, i requires 0 <= i < |c.queues| => Training.Tick(c.queues[i], now)))
  }

  function AllTraining(w: Shape, now: int): (r: Shape)
    ensures |r.cities| == |w.cities| && r == w.(cities := r.cities)
    ensures forall c | 0 <= c < |w.cities| :: r.cities[c] == TrainingPass(w.cities[c], now)
  {
    w.(cities := seq(|w.cities|, c requires 0 <= c < |w.cities| => TrainingPass(w.cities[c], now)))
  }

  /** A building that is due: one level up, or one level down and a third of its price back. */
  function FinishBuilding(p: Prices, w: Shape, i: nat): Shape
    requires i < |w.buildlist|
  {
    var e := w.buildlist[i];
    var x := w.cities[e.city];
    var b := x.buildings[Slot(e.position)];
    var y :=
      if b.status == 1 then SetBuilding(x, b.typ, b.level + 1, e.position, 0, 0, 0)
      else Settle(x.(res := x.res.Plus(p.building(b.typ, b.level - 1).Third(1))), b.(level := b.level - 1), e.position);
    Put(DropBuild(w, i), e.city, y)
  }

  /** The loop over the construction events. */
  function BuildingPass(p: Prices, w: Shape, i: nat, now: int): Shape
    decreases |w.buildlist| - i
  {
    if i >= |w.buildlist| then w
    else
      var e := w.buildlist[i];
      var b := w.cities[e.city].buildings[Slot(e.position)];
      if b.endtime < now && (b.status == 1 || b.status == 2) then BuildingPass(p, FinishBuilding(p, w, i), i, now)
      else BuildingPass(p, w, i + 1, now)
  }

  function DropResearch(w: Shape, i: nat): Shape
    requires i < |w.researchlist|
  {
    w.(researchlist := w.researchlist[..i] + w.researchlist[i + 1..])
  }

  function FinishResearch(w: Shape, i: nat): Shape
    requires i < |w.researchlist|
  {
    var e := w.researchlist[i];
    var x := w.cities[e.city];
    var t := x.tech[e.tech];
    var y := x.(researching := false, tech := x.tech[e.tech := Tech(t.level + 1, 0, 0, 0)]);
    Put(DropResearch(w, i), e.city, y)
  }

  /** The loop over the research events; marked ones are dropped. */
  function ResearchPass(w: Shape, i: nat, now: int): Shape
    decreases |w.researchlist| - i
  {
    if i >= |w.researchlist| then w
    else
      var e := w.researchlist[i];
      if e.tech == 0 then ResearchPass(DropResearch(w, i), i, now)
      else if w.cities[e.city].tech[e.tech].endtime < now then ResearchPass(FinishResearch(w, i), i, now)
      else ResearchPass(w, i + 1, now)
  }

  function Tick(p: Prices, w: Shape, now: int): Shape
  {
    ResearchPass(BuildingPass(p, AllTraining(w, now), 0, now), 0, now)
  }
}
