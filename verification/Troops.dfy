/** What becomes of the soldiers that are ordered: each is waiting, cancelled or finished, and every finished one
    reaches the city's troops, unless it is a ballista (`PlayerCity::SetTroops` and `GetTroops`). */
module Troops {
  import Training

  const WORKER := 2
  const WARRIOR := 3
  const SCOUT := 4
  const PIKE := 5
  const SWORDS := 6
  const ARCHER := 7
  const TRANSPORTER := 8
  const CAVALRY := 9
  const CATAPHRACT := 10
  const BALLISTA := 11
  const RAM := 12
  const CATAPULT := 13

  /** `stTroops`. */
  datatype Army = Army(worker: int, warrior: int, scout: int, pike: int, sword: int, archer: int, transporter: int,
                       cavalry: int, cataphract: int, ballista: int, ram: int, catapult: int)

  const None := Army(0, 0, 0, 0, 0, 0, 0, 0, 0, 0, 0, 0)

  function WithTroops(a: Army, typ: int, amount: int): Army
  {
    if typ == ARCHER then a.(archer := a.archer + amount)
    else if typ == WORKER then a.(worker := a.worker + amount)
    else if typ == WARRIOR then a.(warrior := a.warrior + amount)
    else if typ == SCOUT then a.(scout := a.scout + amount)
    else if typ == PIKE then a.(pike := a.pike + amount)
    else if typ == SWORDS then a.(sword := a.sword + amount)
    else if typ == TRANSPORTER then a.(transporter := a.transporter + amount)
    else if typ == RAM then a.(ram := a.ram + amount)
    else if typ == CATAPULT then a.(catapult := a.catapult + amount)
    else if typ == CAVALRY then a.(cavalry := a.cavalry + amount)
    else if typ == CATAPHRACT then a.(cataphract := a.cataphract + amount)
    else a
  }

  /** What the city has of a type, by the record's fields. */
  function Has(a: Army, typ: int): int
  {
    if typ == WORKER then a.worker
    else if typ == WARRIOR then a.warrior
    else if typ == SCOUT then a.scout
    else if typ == PIKE then a.pike
    else if typ == SWORDS then a.sword
    else if typ == ARCHER then a.archer
    else if typ == TRANSPORTER then a.transporter
    else if typ == CAVALRY then a.cavalry
    else if typ == CATAPHRACT then a.cataphract
    else if typ == BALLISTA then a.ballista
    else if typ == RAM then a.ram
    else if typ == CATAPULT then a.catapult
    else 0
  }

  predicate Soldier(typ: int)
  {
    WORKER <= typ <= CATAPULT
  }

  /** Adding to one type adds that much to it and nothing to the others; ballistas get lost. */
  lemma SetTroopsExact(a: Army, typ: int, amount: int, other: int)
    requires Soldier(other)
    ensures Has(WithTroops(a, typ, amount), other) ==
            Has(a, other) + if other == typ && typ != BALLISTA then amount else 0
  {
  }

  /** In numbers: each type from 2 to 13 has its own field, and what is added to a type goes there, but for 11. */
  lemma TypeTable(a: Army, amount: int)
    ensures WithTroops(a, 2, amount) == a.(worker := a.worker + amount)
    ensures WithTroops(a, 3, amount) == a.(warrior := a.warrior + amount)
    ensures WithTroops(a, 4, amount) == a.(scout := a.scout + amount)
    ensures WithTroops(a, 5, amount) == a.(pike := a.pike + amount)
    ensures WithTroops(a, 6, amount) == a.(sword := a.sword + amount)
    ensures WithTroops(a, 7, amount) == a.(archer := a.archer + amount)
    ensures WithTroops(a, 8, amount) == a.(transporter := a.transporter + amount)
    ensures WithTroops(a, 9, amount) == a.(cavalry := a.cavalry + amount)
    ensures WithTroops(a, 10, amount) == a.(cataphract := a.cataphract + amount)
    ensures WithTroops(a, 11, amount) == a
    ensures WithTroops(a, 12, amount) == a.(ram := a.ram + amount)
    ensures WithTroops(a, 13, amount) == a.(catapult := a.catapult + amount)
  {
  }

  class Garrison {
    var troops: Army

    constructor ()
      ensures troops == None
    {
      troops := None;
    }

    method SetTroops(typ: int, amount: int)
      modifies this
      ensures troops == WithTroops(old(troops), typ, amount)
    {
      if typ == ARCHER { troops := troops.(archer := troops.archer + amount); }
      else if typ == WORKER { troops := troops.(worker := troops.worker + amount); }
      else if typ == WARRIOR { troops := troops.(warrior := troops.warrior + amount); }
      else if typ == SCOUT { troops := troops.(scout := troops.scout + amount); }
      else if typ == PIKE { troops := troops.(pike := troops.pike + amount); }
      else if typ == SWORDS { troops := troops.(sword := troops.sword + amount); }
      else if typ == TRANSPORTER { troops := troops.(transporter := troops.transporter + amount); }
      else if typ == RAM { troops := troops.(ram := troops.ram + amount); }
      else if typ == CATAPULT { troops := troops.(catapult := troops.catapult + amount); }
      else if typ == CAVALRY { troops := troops.(cavalry := troops.cavalry + amount); }
      else if typ == CATAPHRACT { troops := troops.(cataphract := troops.cataphract + amount); }
    }
  }

  // ---- Over a run -----------------------------------------------------------------------------------

  function OfType(t: Training.Train, typ: int): int
  {
    if t.troopid == typ then t.count else 0
  }

  function Waiting(s: seq<Training.Train>, typ: int): int
  {
    if s == [] then 0 else OfType(s[0], typ) + Waiting(s[1..], typ)
  }

  function Finished(log: seq<Training.Done>, typ: int): int
  {
    if log == [] then 0 else Finished(log[..|log| - 1], typ) + OfType(log[|log| - 1].batch, typ)
  }

  /** The city's troops once all these batches have come in. */
  function Delivered(log: seq<Training.Done>): Army
  {
    if log == [] then None
    else WithTroops(Delivered(log[..|log| - 1]), log[|log| - 1].batch.troopid, log[|log| - 1].batch.count)
  }

  /** By how much a command changes what is ordered: new batches that are taken on, less cancelled ones. */
  function Ordering(q: Training.Queue, c: Training.Command, typ: int): int
  {
    match c
    case Produce(level, troopid, count, _) => if |q.queue| < level && troopid == typ then count else 0
    case CancelBatch(queueid) =>
      var i := Training.IndexOf(q.queue, queueid);
      if i < 0 then 0 else -OfType(q.queue[i], typ)
    case Pass => 0
  }

  function Ordered(q: Training.Queue, tr: Training.Trace, typ: int): int
  {
    if tr == [] then 0
    else Ordered(q, tr[..|tr| - 1], typ) + Ordering(Training.Execute(q, tr[..|tr| - 1]).q, tr[|tr| - 1].0, typ)
  }

  lemma {:induction false} WaitingConcat(s: seq<Training.Train>, t: seq<Training.Train>, typ: int)
    ensures Waiting(s + t, typ) == Waiting(s, typ) + Waiting(t, typ)
  {
    if s == [] { assert s + t == t; }
    else {
      assert (s + t)[1..] == s[1..] + t;
      WaitingConcat(s[1..], t, typ);
    }
  }

  lemma HeadWaiting(s: seq<Training.Train>, now: int, typ: int)
    ensures Waiting(Training.StartHead(s, now), typ) == Waiting(s, typ)
  {
    if s != [] { assert Training.StartHead(s, now)[1..] == s[1..]; }
  }

  lemma RemoveWaiting(q: Training.Queue, i: nat, now: int, typ: int)
    requires i < |q.queue|
    ensures Waiting(Training.Remove(q, i, now).queue, typ) == Waiting(q.queue, typ) - OfType(q.queue[i], typ)
  {
    var rest := q.queue[i + 1..];
    HeadWaiting(rest, now, typ);
    hide Training.StartHead;
    WaitingConcat(q.queue[..i], rest, typ);
    WaitingConcat(q.queue[..i], Training.StartHead(rest, now), typ);
    WaitingConcat(q.queue[..i], q.queue[i..], typ);
    assert q.queue == q.queue[..i] + q.queue[i..] && q.queue[i..][1..] == rest;
  }

  lemma StepConserves(r: Training.Run, c: Training.Command, now: int, typ: int)
    ensures var v := Training.Step(r, c, now);
      Waiting(v.q.queue, typ) + Finished(v.log, typ) ==
      Waiting(r.q.queue, typ) + Finished(r.log, typ) + Ordering(r.q, c, typ)
  {
    match c
    case Produce(level, troopid, count, unit) =>
      if |r.q.queue| < level {
        var t := Training.Add(r.q, level, troopid, count, unit, now).queue[|r.q.queue|];
        WaitingConcat(r.q.queue, [t], typ);
        assert Waiting([t], typ) == OfType(t, typ);
      }
    case CancelBatch(queueid) =>
      var i := Training.IndexOf(r.q.queue, queueid);
      if i >= 0 { RemoveWaiting(r.q, i, now, typ); }
    case Pass =>
      if Training.Due(r.q, now) { HeadWaiting(r.q.queue[1..], now, typ); }
  }

  /** Over every run of a queue that starts empty, what was ordered and not cancelled is waiting or finished. */
  lemma {:induction false} RunConserves(q: Training.Queue, tr: Training.Trace, typ: int)
    requires q.queue == []
    ensures var r := Training.Execute(q, tr);
      Ordered(q, tr, typ) == Waiting(r.q.queue, typ) + Finished(r.log, typ)
  {
    hide Training.Step, Ordering;
    if tr != [] {
      var n := |tr| - 1;
      RunConserves(q, tr[..n], typ);
      StepConserves(Training.Execute(q, tr[..n]), tr[n].0, tr[n].1, typ);
    }
  }

  lemma {:induction false} DeliveredExact(log: seq<Training.Done>, typ: int)
    requires Soldier(typ)
    ensures Has(Delivered(log), typ) == if typ == BALLISTA then 0 else Finished(log, typ)
  {
    hide WithTroops, Has;
    if log == [] { assert Has(None, typ) == 0 by { NoneHas(typ); } }
    else {
      var n := |log| - 1;
      DeliveredExact(log[..n], typ);
      SetTroopsExact(Delivered(log[..n]), log[n].batch.troopid, log[n].batch.count, typ);
    }
  }

  lemma NoneHas(typ: int)
    ensures Has(None, typ) == 0
  {
  }

  /** The city has exactly the finished soldiers of a type, for every run, unless these are ballistas; of those it
      has none, which is right exactly when none was finished. */
  lemma TroopsExact(log: seq<Training.Done>, typ: int)
    requires Soldier(typ)
    ensures Has(Delivered(log), typ) == Finished(log, typ) <==> typ != BALLISTA || Finished(log, typ) == 0
  {
    DeliveredExact(log, typ);
    hide Has, Finished, Delivered;
  }
}
