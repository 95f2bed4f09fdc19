/** A city as an object whose fields the handlers change step by step; each method is shown to do to the
    fields what the function of the same name in module World does to a city. */
module PlayerCities {
  import opened Economy
  import W = World
  import Training

  class PlayerCity {
    var castleid: int
    var res: Res
    var buildings: seq<W.Building>
    var queues: seq<Training.Queue>
    var level: int
    var researching: bool
    var tech: seq<W.Tech>

    ghost function View(): W.City
      reads this
    {
      W.City(castleid, res, buildings, queues, level, researching, tech)
    }

    ghost predicate Valid()
      reads this
    {
      |buildings| == 76 && |tech| == 25
    }

    /** An empty city with nothing built. */
    constructor (id: int)
      ensures Valid() && castleid == id && queues == [] && !researching
      ensures forall s | 0 <= s < 76 :: buildings[s] == W.Building(0, 0, 0, 0, 0, 0)
      ensures forall t | 0 <= t < 25 :: tech[t] == W.Tech(0, 0, 0, 0)
      ensures res == Res(0.0, 0.0, 0.0, 0.0, 0.0) && level == 0
    {
      castleid, level, queues, researching := id, 0, [], false;
      res := Res(0.0, 0.0, 0.0, 0.0, 0.0);
      buildings := seq(76, _ => W.Building(0, 0, 0, 0, 0, 0));
      tech := seq(25, _ => W.Tech(0, 0, 0, 0));
    }

    method GetBarracksQueue(position: int) returns (r: int)
      ensures r == W.QueueAt(queues, position)
    {
      var i := 0;
      while i < |queues|
        invariant 0 <= i <= |queues|
        invariant forall j | 0 <= j < i :: queues[j].positionid != position
      {
        if queues[i].positionid == position { return i; }
        i := i + 1;
      }
      return -1;
    }

    /** The part of `SetBuilding` that gives a barracks or wall its queue, or takes it away. */
    method UpdateQueues(typ: int, lev: int, position: int)
      modifies this`queues
      ensures queues == W.SetQueues(old(queues), typ, lev, position)
    {
      if typ == W.BARRACKS || typ == W.WALLS {
        var i := GetBarracksQueue(position);
        if lev > 0 && i < 0 {
          queues := queues + [Training.Queue(position, 0, [])];
        } else if lev == 0 && i >= 0 {
          queues := queues[..i] + queues[i + 1..];
        }
      }
    }

    method SetBuilding(typ: int, lev: int, position: int, status: int, starttime: int, endtime: int)
      requires Valid()
      modifies this
      ensures Valid() && View() == W.SetBuilding(old(View()), typ, lev, position, status, starttime, endtime)
    {
      hide W.SetQueues, W.QueueAt;
      if position > 1000 {
        if position - 1000 > 40 { return; }
        buildings := buildings[35 + position - 1000 := W.Building(position, typ, lev, status, starttime, endtime)];
        return;
      }
      if position < -2 || position > 31 { return; }
      UpdateQueues(typ, lev, position);
      if typ == W.TOWNHALL { level := lev; }
      buildings := buildings[position + 2 := W.Building(position, typ, lev, status, starttime, endtime)];
    }

    /** The two loops that every building command starts with. */
    method Busy() returns (busy: bool)
      requires Valid()
      ensures busy <==> !W.Idle(View())
    {
      var i := 0;
      while i < 35
        invariant 0 <= i <= 35
        invariant forall j | 0 <= j < i :: buildings[j].status == 0
      {
        if buildings[i].status != 0 {
          assert View().buildings[i].status != 0;
          return true;
        }
        i := i + 1;
      }
      i := 0;
      while i < 41
        invariant 0 <= i <= 41
        invariant forall j | 0 <= j < 35 + i :: buildings[j].status == 0
      {
        if buildings[35 + i].status != 0 {
          assert View().buildings[35 + i].status != 0;
          return true;
        }
        i := i + 1;
      }
      return false;
    }

    method Settle(b: W.Building, position: int)
      requires Valid()
      modifies this
      ensures Valid() && View() == W.Settle(old(View()), b, position)
    {
      if b.level == 0 { SetBuilding(0, 0, position, 0, 0, 0); }
      else { SetBuilding(b.typ, b.level, position, 0, 0, 0); }
    }

    /** `AddToBarracksQueue` for the queue at index `i`; false where the source returns -1. */
    method AddToBarracksQueue(i: nat, position: int, troopid: int, count: int, unit: int, now: int) returns (ok: bool)
      requires Valid() && i < |queues| && W.Slot(position) >= 0
      modifies this`queues
      ensures ok <==> |old(queues)[i].queue| < buildings[W.Slot(position)].level
      ensures queues == old(queues)[i := Training.Add(old(queues)[i], buildings[W.Slot(position)].level, troopid,
              count, unit, now)]
    {
      var q := queues[i];
      if |q.queue| >= buildings[W.Slot(position)].level { return false; }
      var costtime := unit * count * 1000;
      var endtime := now + costtime;
      if |q.queue| > 0 { endtime := 0; }
      var t := Training.Train(troopid, count, q.nextqueueid, now, endtime, costtime);
      queues := queues[i := Training.Queue(q.positionid, q.nextqueueid + 1, q.queue + [t])];
      return true;
    }

    /** The next batch becomes the running one. */
    static method Started(s: seq<Training.Train>, now: int) returns (r: seq<Training.Train>)
      ensures r == Training.StartHead(s, now)
    {
      r := s;
      if |s| > 0 { r := s[0 := s[0].(endtime := now + s[0].costtime)]; }
    }

    static lemma CancelIs(q: Training.Queue, j: nat, queueid: int, now: int)
      requires j < |q.queue| && q.queue[j].queueid == queueid
      requires forall k | 0 <= k < j :: q.queue[k].queueid != queueid
      ensures Training.IndexOf(q.queue, queueid) == j
      ensures Training.Cancel(q, queueid, now) ==
        q.(queue := q.queue[..j] +
             if q.queue[j].endtime > 0 then Training.StartHead(q.queue[j + 1..], now) else q.queue[j + 1..])
    {
    }

    /** The search and the erasure in `cancelTroopProduce`: the erased batch is handed back. */
    method CancelBatch(i: nat, queueid: int, now: int) returns (found: bool, t: Training.Train)
      requires i < |queues|
      modifies this`queues
      ensures found <==> Training.IndexOf(old(queues)[i].queue, queueid) >= 0
      ensures if found
              then t == old(queues)[i].queue[Training.IndexOf(old(queues)[i].queue, queueid)]
                   && queues == old(queues)[i := Training.Cancel(old(queues)[i], queueid, now)]
              else queues == old(queues)
    {
      hide Training.Cancel, Training.StartHead;
      var q := queues[i];
      t := Training.Train(0, 0, 0, 0, 0, 0);
      var j := 0;
      while j < |q.queue|
        invariant 0 <= j <= |q.queue|
        invariant forall k | 0 <= k < j :: q.queue[k].queueid != queueid
      {
        if q.queue[j].queueid == queueid {
          t := q.queue[j];
          var rest := q.queue[j + 1..];
          if t.endtime > 0 { rest := Started(rest, now); }
          CancelIs(q, j, queueid, now);
          queues := queues[i := q.(queue := q.queue[..j] + rest)];
          return true, t;
        }
        j := j + 1;
      }
      return false, t;
    }

    /** One city's share of the training pass. */
    method TrainingPass(now: int)
      modifies this`queues
      ensures View() == W.TrainingPass(old(View()), now)
    {
      var i := 0;
      while i < |queues|
        invariant 0 <= i <= |queues| == |old(queues)|
        invariant forall j | 0 <= j < i :: queues[j] == Training.Tick(old(queues)[j], now)
        invariant forall j | i <= j < |queues| :: queues[j] == old(queues)[j]
      {
        var q := queues[i];
        if |q.queue| > 0 && q.queue[0].endtime <= now {
          var rest := Started(q.queue[1..], now);
          queues := queues[i := q.(queue := rest)];
        }
        i := i + 1;
      }
    }

    /** The search for the technology that carries the city's id. */
    method Claimed() returns (r: int)
      requires Valid()
      ensures r == W.Claimed(tech, castleid)
    {
      var i := 0;
      while i < 25
        invariant 0 <= i <= 25
        invariant forall j | 0 <= j < i :: tech[j].castleid != castleid
      {
        if tech[i].castleid == castleid { return i; }
        i := i + 1;
      }
      return -1;
    }
  }
}
