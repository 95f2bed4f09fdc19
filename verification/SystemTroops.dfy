/** Soldiers over runs of the whole system: what is ordered in a queue and not cancelled is waiting there or has been
    finished by the timer, and the city has got what was finished. */
module SystemTroops {
  import opened Economy
  import opened World
  import opened Construction
  import opened Barracks
  import opened Runs
  import opened QueueRuns
  import Training
  import Troops

  /** By how much an action changes what is on order in this queue. */
  ghost function OrderedIn(p: Prices, w: Shape, a: Action, c: nat, position: int, typ: int): int
    requires HasQueue(w, c, position)
  {
    var q := QueueOf(w, c, position);
    match a.command
    case Train(at, troopid, count, _) =>
      if a.city == c && at == position && troopid == typ && Ordered(p, w, c, position, troopid, count)
         && !Full(w, c, position)
      then count else 0
    case CancelTrain(at, queueid) =>
      var i := Training.IndexOf(q.queue, queueid);
      if a.city == c && at == position && i >= 0 then -Troops.OfType(q.queue[i], typ) else 0
    case _ => 0
  }

  /** The queue after an action of training. */
  ghost function Drilled(p: Prices, w: Shape, a: Action, c: nat, position: int): Training.Queue
    requires HasQueue(w, c, position)
  {
    var q := QueueOf(w, c, position);
    match a.command
    case Train(at, troopid, count, unit) =>
      if a.city == c && at == position && Ordered(p, w, c, position, troopid, count)
      then Training.Add(q, w.cities[c].buildings[Slot(position)].level, troopid, count, unit, a.now) else q
    case CancelTrain(at, queueid) =>
      if a.city == c && at == position then Training.Cancel(q, queueid, a.now) else q
    case _ => q
  }

  lemma TrainDrills(p: Prices, w: Shape, a: Action, c: nat, position: int)
    requires Fit(w, a) && a.command.Train? && HasQueue(w, c, position)
    ensures var v := Step(p, w, a);
      HasQueue(v, c, position) && QueueOf(v, c, position) == Drilled(p, w, a, c, position)
  {
    var v := Step(p, w, a);
    var at := a.command.position;
    if Ordered(p, w, a.city, at, a.command.troopid, a.command.count) {
      var x := w.cities[a.city];
      var i := QueueAt(x.queues, at);
      assert x.queues[i].positionid == at;
      var level := x.buildings[Slot(at)].level;
      var r := Training.Add(x.queues[i], level, a.command.troopid, a.command.count, a.command.unit, a.now);
      SamePlace(x.queues, i, position);
      hide QueueAt, Training.Add;
      ReplacedFollows(w, v, a.city, i, r, c, position);
    }
  }

  lemma CancelDrills(p: Prices, w: Shape, a: Action, c: nat, position: int)
    requires Fit(w, a) && a.command.CancelTrain? && HasQueue(w, c, position)
    ensures var v := Step(p, w, a);
      HasQueue(v, c, position) && QueueOf(v, c, position) == Drilled(p, w, a, c, position)
  {
    var v := Step(p, w, a);
    var at := a.command.position;
    var x := w.cities[a.city];
    var i := QueueAt(x.queues, at);
    if i >= 0 && Training.IndexOf(x.queues[i].queue, a.command.queueid) >= 0 {
      assert x.queues[i].positionid == at;
      var r := Training.Cancel(x.queues[i], a.command.queueid, a.now);
      SamePlace(x.queues, i, position);
      hide QueueAt, Training.IndexOf;
      ReplacedFollows(w, v, a.city, i, r, c, position);
    }
  }

  lemma SamePlace(qs: seq<Training.Queue>, i: nat, position: int)
    requires i < |qs| && i == QueueAt(qs, qs[i].positionid)
    ensures QueueAt(qs, position) >= 0 ==> (i == QueueAt(qs, position) <==> qs[i].positionid == position)
  {
    hide QueueAt;
  }

  lemma UntouchedSoldiers(p: Prices, w: Shape, a: Action, c: nat, position: int)
    requires Inv(w) && Fit(w, a) && HasQueue(w, c, position) && HasQueue(Step(p, w, a), c, position)
    requires !a.command.Timer? && !Drills(a.command)
    ensures QueueOf(Step(p, w, a), c, position) == QueueOf(w, c, position)
  {
    hide QueueAt, BuildInv, AllQueuesOk, HasQueue, QueueOf, Step;
    if Builds(a.command) { BuildAlike(p, w, a); } else { OtherStays(p, w, a); }
    AlikeFollows(w, Step(p, w, a), c, position, a.now);
  }

  /** In every step: what waits afterwards or has been finished is what waited before, with what was ordered. */
  lemma StepSoldiers(p: Prices, w: Shape, a: Action, c: nat, position: int, typ: int)
    requires Inv(w) && Fit(w, a) && HasQueue(w, c, position) && HasQueue(Step(p, w, a), c, position)
    ensures Troops.Waiting(QueueOf(Step(p, w, a), c, position).queue, typ)
              + Troops.Finished(Finished(w, a, c, position), typ)
            == Troops.Waiting(QueueOf(w, c, position).queue, typ) + OrderedIn(p, w, a, c, position, typ)
  {
    hide Inv, Fit, HasQueue, QueueOf, Finished, Tick, Drilled, Follows;
    FinishedIs(w, a, c, position);
    FitCount(w, a);
    if a.command.Timer? {
      TimerSoldiers(p, w, a.now, c, position, typ);
    } else {
      hide Step, OrderedIn;
      if Drills(a.command) {
        if a.command.Train? { TrainDrills(p, w, a, c, position); } else { CancelDrills(p, w, a, c, position); }
        DrillSoldiers(p, w, a, c, position, typ);
      } else {
        UntouchedSoldiers(p, w, a, c, position);
        NothingOrdered(p, w, a, c, position, typ);
      }
    }
  }

  lemma FitCount(w: Shape, a: Action)
    requires Fit(w, a)
    ensures a.now > 0 && (a.command.Train? ==> a.command.count >= 0)
  {
  }

  lemma NothingOrdered(p: Prices, w: Shape, a: Action, c: nat, position: int, typ: int)
    requires HasQueue(w, c, position) && !Drills(a.command)
    ensures OrderedIn(p, w, a, c, position, typ) == 0
  {
  }

  lemma TimerSoldiers(p: Prices, w: Shape, now: int, c: nat, position: int, typ: int)
    requires Inv(w) && now > 0 && HasQueue(w, c, position) && HasQueue(Tick(p, w, now), c, position)
    ensures var q := QueueOf(w, c, position);
      Troops.Waiting(QueueOf(Tick(p, w, now), c, position).queue, typ)
        + Troops.Finished(if Training.Due(q, now) then [Training.Done(q.queue[0], now)] else [], typ)
      == Troops.Waiting(q.queue, typ)
  {
    hide Inv, HasQueue, QueueOf, Tick;
    TimerEvolution(p, w, now, c, position);
    PassSoldiers(QueueOf(w, c, position), now, typ);
  }

  lemma PassSoldiers(q: Training.Queue, now: int, typ: int)
    ensures Troops.Waiting(Training.Tick(q, now).queue, typ)
              + Troops.Finished(if Training.Due(q, now) then [Training.Done(q.queue[0], now)] else [], typ)
            == Troops.Waiting(q.queue, typ)
  {
    Troops.StepConserves(Training.Run(q, []), Training.Pass, now, typ);
    if Training.Due(q, now) { assert [] + [Training.Done(q.queue[0], now)] == [Training.Done(q.queue[0], now)]; }
  }

  lemma DrillSoldiers(p: Prices, w: Shape, a: Action, c: nat, position: int, typ: int)
    requires HasQueue(w, c, position) && Drills(a.command) && (a.command.Train? ==> a.command.count >= 0)
    ensures Troops.Waiting(Drilled(p, w, a, c, position).queue, typ)
            == Troops.Waiting(QueueOf(w, c, position).queue, typ) + OrderedIn(p, w, a, c, position, typ)
  {
    var r := Training.Run(QueueOf(w, c, position), []);
    if a.city == c && a.command.position == position {
      if a.command.Train? {
        if Ordered(p, w, c, position, a.command.troopid, a.command.count) {
          var level := w.cities[c].buildings[Slot(position)].level;
          var command := Training.Produce(level, a.command.troopid, a.command.count, a.command.unit);
          Troops.StepConserves(r, command, a.now, typ);
        }
      } else {
        Troops.StepConserves(r, Training.CancelBatch(a.command.queueid), a.now, typ);
      }
    }
    hide Training.Add, Training.Cancel, QueueAt;
  }

  // ---- Runs -----------------------------------------------------------------------------------------

  ghost function OrderedOver(p: Prices, w: Shape, run: seq<Action>, c: nat, position: int, typ: int): int
    requires Legal(p, w, run) && Kept(p, w, run, c, position)
    decreases |run|
  {
    if run == [] then 0
    else
      var n := |run| - 1;
      KeptBefore(p, w, run, c, position);
      OrderedOver(p, w, run[..n], c, position, typ) + OrderedIn(p, Execute(p, w, run[..n]), run[n], c, position, typ)
  }

  lemma KeptBefore(p: Prices, w: Shape, run: seq<Action>, c: nat, position: int)
    requires run != [] && Legal(p, w, run) && Kept(p, w, run, c, position)
    ensures var n := |run| - 1;
      Kept(p, w, run[..n], c, position) && HasQueue(Execute(p, w, run[..n]), c, position)
  {
    hide HasQueue, Step, Fit;
  }

  /** Over every run of the system, for a queue that is there all the time and each type of soldier: what was waiting
      and what was ordered and not cancelled is what waits now and what the timer has finished. */
  lemma {:induction false} SystemConserves(p: Prices, w: Shape, run: seq<Action>, c: nat, position: int, typ: int)
    requires Inv(w) && Legal(p, w, run) && HasQueue(w, c, position) && Kept(p, w, run, c, position)
    ensures HasQueue(Execute(p, w, run), c, position)
    ensures Troops.Waiting(QueueOf(w, c, position).queue, typ) + OrderedOver(p, w, run, c, position, typ)
            == Troops.Waiting(QueueOf(Execute(p, w, run), c, position).queue, typ)
               + Troops.Finished(SystemLog(p, w, run, c, position), typ)
    decreases |run|
  {
    hide Inv, Step, HasQueue, QueueOf, Finished, OrderedIn, Troops.Waiting;
    if run != [] {
      var n := |run| - 1;
      var v := Execute(p, w, run[..n]);
      KeptBefore(p, w, run, c, position);
      SystemConserves(p, w, run[..n], c, position, typ);
      RunInv(p, w, run[..n]);
      StepSoldiers(p, v, run[n], c, position, typ);
      FinishedConcat(SystemLog(p, w, run[..n], c, position), Finished(v, run[n], c, position), typ);
    }
  }

  lemma {:induction false} FinishedConcat(a: seq<Training.Done>, b: seq<Training.Done>, typ: int)
    ensures Troops.Finished(a + b, typ) == Troops.Finished(a, typ) + Troops.Finished(b, typ)
  {
    if b == [] { assert a + b == a; }
    else {
      var n := |b| - 1;
      assert (a + b)[..|a + b| - 1] == a + b[..n];
      FinishedConcat(a, b[..n], typ);
    }
  }

  /** And so much of it has the city got from this queue: all of what was finished, but no ballista. */
  lemma SystemDelivers(p: Prices, w: Shape, run: seq<Action>, c: nat, position: int, typ: int)
    requires Inv(w) && Legal(p, w, run) && HasQueue(w, c, position) && Kept(p, w, run, c, position)
    requires Troops.Soldier(typ) && QueueOf(w, c, position).queue == []
    ensures HasQueue(Execute(p, w, run), c, position)
    ensures Troops.Has(Troops.Delivered(SystemLog(p, w, run, c, position)), typ)
            == if typ == Troops.BALLISTA then 0
               else OrderedOver(p, w, run, c, position, typ)
                    - Troops.Waiting(QueueOf(Execute(p, w, run), c, position).queue, typ)
  {
    hide Inv, HasQueue, QueueOf;
    SystemConserves(p, w, run, c, position, typ);
    Troops.DeliveredExact(SystemLog(p, w, run, c, position), typ);
  }
}
