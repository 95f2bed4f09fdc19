/** The resource ledger of a city: what it holds, the price of everything that is in the making, and a third
    of the price of every level that stands. Every command and every timer pass changes it by a known amount,
    and none adds to it. */
module Ledger {
  import opened Economy
  import opened World
  import Training

  function Sum(s: seq<int>): int
  {
    if s == [] then 0 else s[0] + Sum(s[1..])
  }

  lemma {:induction false} SumUpdate(s: seq<int>, i: nat, v: int)
    requires i < |s|
    ensures Sum(s[i := v]) == Sum(s) - s[i] + v
  {
    var r := s[i := v];
    if i == 0 { assert r[1..] == s[1..]; }
    else {
      assert r[1..] == s[1..][i - 1 := v];
      SumUpdate(s[1..], i - 1, v);
    }
  }

  lemma {:induction false} SumConcat(s: seq<int>, t: seq<int>)
    ensures Sum(s + t) == Sum(s) + Sum(t)
  {
    if s == [] { assert s + t == t; }
    else {
      assert (s + t)[1..] == s[1..] + t;
      SumConcat(s[1..], t);
    }
  }

  lemma SumErase(s: seq<int>, i: nat)
    requires i < |s|
    ensures Sum(s[..i] + s[i + 1..]) == Sum(s) - s[i]
  {
    SumConcat(s[..i], s[i + 1..]);
    SumConcat(s[..i], s[i..]);
    assert s == s[..i] + s[i..] && s[i..][1..] == s[i + 1..];
  }

  lemma {:induction false} SumBound(s: seq<int>)
    requires forall i | 0 <= i < |s| :: s[i] >= 0
    ensures Sum(s) >= 0
    ensures forall i | 0 <= i < |s| :: s[i] <= Sum(s)
  {
    if s != [] { SumBound(s[1..]); }
  }

  // ---- What things are worth ------------------------------------------------------------------------

  function BatchWorth(p: Prices, k: Kind, t: Training.Train): int
  {
    p.troop(t.troopid).Of(k) * t.count
  }

  function Batches(p: Prices, k: Kind, q: Training.Queue): seq<int>
  {
    seq(|q.queue|, i requires 0 <= i < |q.queue| => BatchWorth(p, k, q.queue[i]))
  }

  function QueueWorth(p: Prices, k: Kind, q: Training.Queue): int
  {
    Sum(Batches(p, k, q))
  }

  function Queues(p: Prices, k: Kind, qs: seq<Training.Queue>): seq<int>
  {
    seq(|qs|, i requires 0 <= i < |qs| => QueueWorth(p, k, qs[i]))
  }

  /** A third, rounded down, of each level's price. */
  function Standing(p: Prices, k: Kind, typ: int, level: int): int
    decreases level
  {
    if level <= 0 then 0 else Standing(p, k, typ, level - 1) + Div3(p.building(typ, level - 1).Of(k))
  }

  function BuildingWorth(p: Prices, k: Kind, b: Building): int
  {
    Standing(p, k, b.typ, b.level) + if b.status == 1 then p.building(b.typ, b.level).Of(k) else 0
  }

  function Buildings(p: Prices, k: Kind, bs: seq<Building>): seq<int>
  {
    seq(|bs|, i requires 0 <= i < |bs| => BuildingWorth(p, k, bs[i]))
  }

  function TechWorth(p: Prices, k: Kind, tech: int, t: Tech): int
  {
    if t.castleid != 0 then p.research(tech, t.level).Of(k) else 0
  }

  function Techs(p: Prices, k: Kind, ts: seq<Tech>): seq<int>
  {
    seq(|ts|, i requires 0 <= i < |ts| => TechWorth(p, k, i, ts[i]))
  }

  /** What is bound in queues, buildings and research. */
  function Bound(p: Prices, k: Kind, x: City): int
  {
    Sum(Queues(p, k, x.queues)) + Sum(Buildings(p, k, x.buildings)) + Sum(Techs(p, k, x.tech))
  }

  function Worth(p: Prices, k: Kind, x: City): real
  {
    x.res.Of(k) + Bound(p, k, x) as real
  }

  // ---- One part is replaced -------------------------------------------------------------------------

  lemma QueuesUpdate(p: Prices, k: Kind, qs: seq<Training.Queue>, i: nat, q: Training.Queue)
    requires i < |qs|
    ensures Sum(Queues(p, k, qs[i := q])) == Sum(Queues(p, k, qs)) - QueueWorth(p, k, qs[i]) + QueueWorth(p, k, q)
  {
    SumUpdate(Queues(p, k, qs), i, QueueWorth(p, k, q));
    assert Queues(p, k, qs[i := q]) == Queues(p, k, qs)[i := QueueWorth(p, k, q)];
  }

  lemma BuildingsUpdate(p: Prices, k: Kind, bs: seq<Building>, i: nat, b: Building)
    requires i < |bs|
    ensures Sum(Buildings(p, k, bs[i := b])) == Sum(Buildings(p, k, bs)) - BuildingWorth(p, k, bs[i])
            + BuildingWorth(p, k, b)
  {
    SumUpdate(Buildings(p, k, bs), i, BuildingWorth(p, k, b));
    assert Buildings(p, k, bs[i := b]) == Buildings(p, k, bs)[i := BuildingWorth(p, k, b)];
  }

  lemma TechsUpdate(p: Prices, k: Kind, ts: seq<Tech>, i: nat, t: Tech)
    requires i < |ts|
    ensures Sum(Techs(p, k, ts[i := t])) == Sum(Techs(p, k, ts)) - TechWorth(p, k, i, ts[i]) + TechWorth(p, k, i, t)
  {
    SumUpdate(Techs(p, k, ts), i, TechWorth(p, k, i, t));
    assert Techs(p, k, ts[i := t]) == Techs(p, k, ts)[i := TechWorth(p, k, i, t)];
  }

  /** What leaves the ledger when a barracks is built on a place that still has the queue of an earlier one. */
  function Forgotten(p: Prices, k: Kind, qs: seq<Training.Queue>, typ: int, level: int, position: int): int
  {
    if (typ == BARRACKS || typ == WALLS) && level == 0 && QueueAt(qs, position) >= 0
    then QueueWorth(p, k, qs[QueueAt(qs, position)]) else 0
  }

  lemma SetQueuesWorth(p: Prices, k: Kind, qs: seq<Training.Queue>, typ: int, level: int, position: int)
    ensures Sum(Queues(p, k, SetQueues(qs, typ, level, position))) ==
            Sum(Queues(p, k, qs)) - Forgotten(p, k, qs, typ, level, position)
  {
    var r := SetQueues(qs, typ, level, position);
    var i := QueueAt(qs, position);
    hide QueueAt, QueueWorth, Queues, Sum;
    if |r| == |qs| + 1 {
      EmptyQueue(p, k, r[|qs|]);
      QueuesAppend(p, k, qs, r[|qs|]);
    } else if |r| == |qs| - 1 {
      QueuesErase(p, k, qs, i);
    }
  }

  lemma QueuesAppend(p: Prices, k: Kind, qs: seq<Training.Queue>, q: Training.Queue)
    ensures Sum(Queues(p, k, qs + [q])) == Sum(Queues(p, k, qs)) + QueueWorth(p, k, q)
  {
    hide QueueWorth;
    SumConcat(Queues(p, k, qs), [QueueWorth(p, k, q)]);
    assert Queues(p, k, qs + [q]) == Queues(p, k, qs) + [QueueWorth(p, k, q)];
    assert Sum([QueueWorth(p, k, q)]) == QueueWorth(p, k, q);
  }

  lemma QueuesErase(p: Prices, k: Kind, qs: seq<Training.Queue>, i: nat)
    requires i < |qs|
    ensures Sum(Queues(p, k, qs[..i] + qs[i + 1..])) == Sum(Queues(p, k, qs)) - QueueWorth(p, k, qs[i])
  {
    hide QueueWorth, Sum;
    SumErase(Queues(p, k, qs), i);
    assert Queues(p, k, qs[..i] + qs[i + 1..]) == Queues(p, k, qs)[..i] + Queues(p, k, qs)[i + 1..];
  }

  lemma EmptyQueue(p: Prices, k: Kind, q: Training.Queue)
    requires q.queue == []
    ensures QueueWorth(p, k, q) == 0
  {
  }

  /** Setting a building exchanges the worth of the slot, and may forget a queue. */
  lemma SetBuildingWorth(p: Prices, k: Kind, x: City, b: Building, position: int)
    requires |x.buildings| == 76 && Settable(position)
    ensures Worth(p, k, SetBuilding(x, b.typ, b.level, position, b.status, b.starttime, b.endtime)) ==
            Worth(p, k, x) + (BuildingWorth(p, k, b) - BuildingWorth(p, k, x.buildings[Slot(position)])
                              - if position > 1000 then 0
                                else Forgotten(p, k, x.queues, b.typ, b.level, position)) as real
  {
    var y := SetBuilding(x, b.typ, b.level, position, b.status, b.starttime, b.endtime);
    var set_ := Building(position, b.typ, b.level, b.status, b.starttime, b.endtime);
    assert BuildingWorth(p, k, set_) == BuildingWorth(p, k, b);
    if position <= 1000 { SetQueuesWorth(p, k, x.queues, b.typ, b.level, position); }
    BuildingsUpdate(p, k, x.buildings, Slot(position), set_);
    hide SetQueues, Forgotten, Queues, Buildings, Techs, Sum, BuildingWorth;
  }
}
