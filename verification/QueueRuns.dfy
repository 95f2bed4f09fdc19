/** Each queue of the whole system, seen by itself, runs as in module Training: so training is serial and first
    come, first served, whatever else the cities do. */
module QueueRuns {
  import opened Economy
  import opened World
  import opened Construction
  import opened Barracks
  import opened Solvency
  import opened Runs
  import Training

  ghost predicate HasQueue(w: Shape, c: nat, position: int)
  {
    c < |w.cities| && QueueAt(w.cities[c].queues, position) >= 0
  }

  function QueueOf(w: Shape, c: nat, position: int): Training.Queue
    requires HasQueue(w, c, position)
  {
    w.cities[c].queues[QueueAt(w.cities[c].queues, position)]
  }

  /** Any queue that is found at its position in both is the same queue. */
  ghost predicate Alike(qs: seq<Training.Queue>, rs: seq<Training.Queue>)
  {
    forall pos | QueueAt(qs, pos) >= 0 && QueueAt(rs, pos) >= 0 :: rs[QueueAt(rs, pos)] == qs[QueueAt(qs, pos)]
  }

  /** And none is dropped. */
  ghost predicate Retained(qs: seq<Training.Queue>, rs: seq<Training.Queue>)
  {
    Alike(qs, rs) && forall pos | QueueAt(qs, pos) >= 0 :: QueueAt(rs, pos) >= 0
  }

  lemma At(qs: seq<Training.Queue>, i: nat)
    requires Apart(qs) && i < |qs|
    ensures QueueAt(qs, qs[i].positionid) == i
  {
  }

  lemma SubsetAlike(qs: seq<Training.Queue>, rs: seq<Training.Queue>)
    requires Apart(qs) && forall j | 0 <= j < |rs| :: rs[j] in qs || QueueAt(qs, rs[j].positionid) < 0
    ensures Alike(qs, rs)
  {
    forall pos | QueueAt(qs, pos) >= 0 && QueueAt(rs, pos) >= 0 ensures rs[QueueAt(rs, pos)] == qs[QueueAt(qs, pos)] {
      var j := QueueAt(rs, pos);
      var i :| 0 <= i < |qs| && qs[i] == rs[j];
      At(qs, i);
    }
  }

  lemma SetQueuesMembers(qs: seq<Training.Queue>, typ: int, level: int, position: int)
    ensures forall q | q in SetQueues(qs, typ, level, position) :: q in qs || QueueAt(qs, q.positionid) < 0
  {
    hide QueueAt;
  }

  lemma SetQueuesAlike(qs: seq<Training.Queue>, typ: int, level: int, position: int)
    requires Apart(qs) && Disciplined(qs) && level >= 0
    ensures Alike(qs, SetQueues(qs, typ, level, position))
    ensures level > 0 || (typ != BARRACKS && typ != WALLS) ==> Retained(qs, SetQueues(qs, typ, level, position))
  {
    hide Disciplined, Apart, QueueAt, Alike, SetQueues;
    SetQueuesMembers(qs, typ, level, position);
    SetQueuesKeeps(qs, typ, level, position);
    SubsetAlike(qs, SetQueues(qs, typ, level, position));
  }

  ghost predicate AllAlike(w: Shape, v: Shape)
  {
    |v.cities| == |w.cities| && forall c | 0 <= c < |w.cities| :: Alike(w.cities[c].queues, v.cities[c].queues)
  }

  ghost predicate AllRetained(w: Shape, v: Shape)
  {
    |v.cities| == |w.cities| && forall c | 0 <= c < |w.cities| :: Retained(w.cities[c].queues, v.cities[c].queues)
  }

  lemma RetainedTrans(u: Shape, v: Shape, w: Shape)
    requires AllRetained(u, v) && AllRetained(v, w)
    ensures AllRetained(u, w)
  {
    hide QueueAt;
    forall c | 0 <= c < |u.cities| ensures Retained(u.cities[c].queues, w.cities[c].queues) {
      assert Retained(u.cities[c].queues, v.cities[c].queues) && Retained(v.cities[c].queues, w.cities[c].queues);
    }
  }

  /** Only city `c` is touched, by setting one of its buildings. */
  lemma SetAlike(w: Shape, v: Shape, c: nat, typ: int, level: int, position: int)
    requires AllQueuesOk(w) && c < |w.cities| && |v.cities| == |w.cities| && level >= 0
    requires v.cities == w.cities[c := v.cities[c]]
    requires v.cities[c].queues == w.cities[c].queues
             || v.cities[c].queues == SetQueues(w.cities[c].queues, typ, level, position)
    ensures AllAlike(w, v)
    ensures level > 0 || (typ != BARRACKS && typ != WALLS) ==> AllRetained(w, v)
  {
    assert QueuesOk(w.cities[c]);
    SetQueuesAlike(w.cities[c].queues, typ, level, position);
    hide QueueAt, SetQueues, QueuesOk;
  }

  lemma BuildAlike(p: Prices, w: Shape, a: Action)
    requires BuildInv(w) && AllQueuesOk(w) && Fit(w, a) && Builds(a.command)
    ensures AllAlike(w, Step(p, w, a))
  {
    var v, c := Step(p, w, a), a.city;
    hide AllQueuesOk, QueueAt, SetQueues, Idle, AllAlike, AllRetained;
    match a.command
    case New(typ, position, _, _) => SetAlike(w, v, c, typ, 0, position);
    case Upgrade(position, _, _) => UpgradeAlike(p, w, a, v);
    case Destruct(position, _) => DestructAlike(p, w, a, v);
    case SpeedFree(position) => SetAlike(w, v, c, 0, 0, position);
    case SpeedItem(position, _) => ItemAlike(p, w, a, v);
    case CancelBuild(position) => CancelAlike(w, position, v);
  }

  lemma BuildingAt(w: Shape, c: nat, position: int)
    requires BuildInv(w) && c < |w.cities| && Slot(position) >= 0
    ensures w.cities[c].buildings[Slot(position)].level >= 0
  {
    hide EventsOk;
    assert SlotsOk(w.cities[c]) && SlotOk(w.cities[c].buildings[Slot(position)], Slot(position));
  }

  lemma UpgradeAlike(p: Prices, w: Shape, a: Action, v: Shape)
    requires BuildInv(w) && AllQueuesOk(w) && Fit(w, a) && a.command.Upgrade? && v == Step(p, w, a)
    ensures AllAlike(w, v)
  {
    var position := a.command.position;
    hide BuildInv, AllQueuesOk, QueueAt, SetQueues, Idle, AllAlike;
    if Slot(position) >= 0 {
      BuildingAt(w, a.city, position);
      var b := w.cities[a.city].buildings[Slot(position)];
      SetAlike(w, v, a.city, b.typ, b.level, position);
    } else { SetAlike(w, v, a.city, 0, 0, position); }
  }

  lemma DestructAlike(p: Prices, w: Shape, a: Action, v: Shape)
    requires BuildInv(w) && AllQueuesOk(w) && Fit(w, a) && a.command.Destruct? && v == Step(p, w, a)
    ensures AllAlike(w, v)
  {
    var position := a.command.position;
    hide BuildInv, AllQueuesOk, QueueAt, SetQueues, Idle, AllAlike;
    if Slot(position) >= 0 {
      BuildingAt(w, a.city, position);
      var b := w.cities[a.city].buildings[Slot(position)];
      SetAlike(w, v, a.city, b.typ, b.level, position);
    } else { SetAlike(w, v, a.city, 0, 0, position); }
  }

  lemma ItemAlike(p: Prices, w: Shape, a: Action, v: Shape)
    requires BuildInv(w) && AllQueuesOk(w) && Fit(w, a) && a.command.SpeedItem? && v == Step(p, w, a)
    ensures AllAlike(w, v)
  {
    var position := a.command.position;
    hide BuildInv, AllQueuesOk, QueueAt, SetQueues, AllAlike;
    if Slot(position) >= 0 {
      BuildingAt(w, a.city, position);
      var b := w.cities[a.city].buildings[Slot(position)];
      SetAlike(w, v, a.city, b.typ, b.level, b.id);
    } else { SetAlike(w, v, a.city, 0, 0, position); }
  }

  lemma CancelAlike(w: Shape, position: int, v: Shape)
    requires BuildInv(w) && AllQueuesOk(w) && v == CancelBuilding(w, position)
    ensures AllAlike(w, v)
  {
    hide BuildInv, AllQueuesOk, QueueAt, SetQueues, AllAlike;
    var i := EventAt(w.buildlist, position);
    if i >= 0 {
      var c := w.buildlist[i].city;
      BuildingAt(w, c, position);
      var b := w.cities[c].buildings[Slot(position)];
      SetAlike(w, v, c, if b.level == 0 then 0 else b.typ, b.level, position);
    } else if |w.cities| > 0 {
      SetAlike(w, v, 0, 0, 0, position);
    } else {
      NoCities(w, v);
    }
  }

  lemma NoCities(w: Shape, v: Shape)
    requires w.cities == v.cities == []
    ensures AllAlike(w, v)
  {
  }

  lemma FinishRetains(p: Prices, w: Shape, i: nat)
    requires BuildInv(w) && AllQueuesOk(w) && i < |w.buildlist|
    ensures AllRetained(w, FinishBuilding(p, w, i))
  {
    var v := FinishBuilding(p, w, i);
    var e := w.buildlist[i];
    Named(w, i);
    hide BuildInv, AllQueuesOk, QueueAt, SetQueues, AllAlike, AllRetained;
    var b := w.cities[e.city].buildings[Slot(e.position)];
    if b.status == 1 { SetAlike(w, v, e.city, b.typ, b.level + 1, e.position); }
    else { SetAlike(w, v, e.city, if b.level == 1 then 0 else b.typ, b.level - 1, e.position); }
  }

  lemma {:induction false} PassRetains(p: Prices, w: Shape, i: nat, now: int)
    requires BuildInv(w) && AllQueuesOk(w)
    ensures AllRetained(w, BuildingPass(p, w, i, now))
    decreases |w.buildlist| - i
  {
    hide BuildInv, FinishBuilding, AllQueuesOk, AllRetained;
    if i >= |w.buildlist| { SelfRetained(w, w); } else {
      var e := w.buildlist[i];
      var b := w.cities[e.city].buildings[Slot(e.position)];
      if b.endtime < now && (b.status == 1 || b.status == 2) {
        var u := FinishBuilding(p, w, i);
        FinishInv(p, w, i);
        FinishQueues(p, w, i);
        FinishRetains(p, w, i);
        FinishShrinks(p, w, i);
        PassRetains(p, u, i, now);
        RetainedTrans(w, u, BuildingPass(p, u, i, now));
      } else {
        PassRetains(p, w, i + 1, now);
      }
    }
  }

  lemma SelfRetained(w: Shape, v: Shape)
    requires QueuesStay(w, v)
    ensures AllRetained(w, v)
  {
    hide QueueAt;
  }

  /** The two passes behind the training pass do nothing to a queue. */
  lemma TickRest(p: Prices, w: Shape, now: int)
    requires Inv(w) && now > 0
    ensures AllRetained(AllTraining(w, now), Tick(p, w, now))
  {
    var u := AllTraining(w, now);
    var v := BuildingPass(p, u, 0, now);
    hide AllSolvent, CitiesNumbered;
    TrainingFrame(w, now);
    BuildInvStays(w, u);
    AllTrainingQueues(w, now);
    hide AllTraining, BuildInv, AllQueuesOk, AllRetained;
    PassRetains(p, u, 0, now);
    ResearchPassFrame(v, 0, now);
    SelfRetained(v, ResearchPass(v, 0, now));
    RetainedTrans(u, v, ResearchPass(v, 0, now));
  }

  lemma TrainingAt(w: Shape, now: int, c: nat, position: int)
    requires HasQueue(w, c, position)
    ensures HasQueue(AllTraining(w, now), c, position)
    ensures QueueOf(AllTraining(w, now), c, position) == Training.Tick(QueueOf(w, c, position), now)
  {
    SameQueueAt(w.cities[c].queues, AllTraining(w, now).cities[c].queues, position);
  }

  lemma SameQueueAt(qs: seq<Training.Queue>, rs: seq<Training.Queue>, position: int)
    requires |rs| == |qs| && forall i | 0 <= i < |qs| :: rs[i].positionid == qs[i].positionid
    ensures QueueAt(rs, position) == QueueAt(qs, position)
  {
    var i, j := QueueAt(qs, position), QueueAt(rs, position);
    if i >= 0 { assert rs[i].positionid == position; }
    if j >= 0 { assert qs[j].positionid == position; }
  }

  /** A batch id that no batch has: cancelling it does nothing. */
  lemma Idles(q: Training.Queue, now: int)
    requires Training.Valid(q)
    ensures Training.Cancel(q, q.nextqueueid, now) == q
  {
    assert Training.IndexOf(q.queue, q.nextqueueid) < 0;
  }

  ghost predicate Follows(q: Training.Queue, r: Training.Queue, command: Training.Command, now: int)
  {
    r == Training.Step(Training.Run(q, []), command, now).q
  }

  lemma AlikeFollows(w: Shape, v: Shape, c: nat, position: int, now: int)
    requires AllQueuesOk(w) && AllAlike(w, v) && HasQueue(w, c, position) && HasQueue(v, c, position)
    ensures QueueOf(v, c, position) == QueueOf(w, c, position)
    ensures var q := QueueOf(w, c, position);
      Follows(q, q, Training.CancelBatch(q.nextqueueid), now)
  {
    hide QueueAt;
    assert QueuesOk(w.cities[c]);
    assert Alike(w.cities[c].queues, v.cities[c].queues);
    Idles(QueueOf(w, c, position), now);
  }

  lemma ReplacedFollows(w: Shape, v: Shape, a: nat, i: nat, q: Training.Queue, c: nat, position: int)
    requires HasQueue(w, c, position) && |v.cities| == |w.cities| && a < |w.cities| && i < |w.cities[a].queues|
    requires v.cities == w.cities[a := v.cities[a]] && v.cities[a].queues == w.cities[a].queues[i := q]
    requires q.positionid == w.cities[a].queues[i].positionid
    ensures HasQueue(v, c, position)
    ensures QueueOf(v, c, position) ==
            if c == a && i == QueueAt(w.cities[a].queues, position) then q else QueueOf(w, c, position)
  {
    if c == a { SameQueueAt(w.cities[a].queues, v.cities[a].queues, position); }
  }

  /** Each action of the system is, for a queue that is there before and after, one command of that queue, and the
      timer's is its pass. */
  lemma Evolution(p: Prices, w: Shape, a: Action, c: nat, position: int) returns (command: Training.Command)
    requires Inv(w) && Fit(w, a) && HasQueue(w, c, position) && HasQueue(Step(p, w, a), c, position)
    ensures Follows(QueueOf(w, c, position), QueueOf(Step(p, w, a), c, position), command, a.now)
    ensures command.Pass? <==> a.command.Timer?
  {
    hide QueueAt, BuildInv, AllQueuesOk, AllSolvent, CitiesNumbered, HasQueue, QueueOf, Follows;
    if a.command.Timer? {
      command := Training.Pass;
      TimerEvolution(p, w, a.now, c, position);
      return;
    }
    hide Step;
    if Builds(a.command) {
      BuildAlike(p, w, a);
      AlikeFollows(w, Step(p, w, a), c, position, a.now);
      command := Training.CancelBatch(QueueOf(w, c, position).nextqueueid);
    } else if Studies(a.command) || a.command.Receive? {
      OtherStays(p, w, a);
      AlikeFollows(w, Step(p, w, a), c, position, a.now);
      command := Training.CancelBatch(QueueOf(w, c, position).nextqueueid);
    } else {
      command := TrainEvolution(p, w, a, c, position, Step(p, w, a));
    }
  }

  lemma TimerEvolution(p: Prices, w: Shape, now: int, c: nat, position: int)
    requires Inv(w) && now > 0 && HasQueue(w, c, position) && HasQueue(Tick(p, w, now), c, position)
    ensures Follows(QueueOf(w, c, position), QueueOf(Tick(p, w, now), c, position), Training.Pass, now)
  {
    hide Inv, QueueAt;
    TrainingAt(w, now, c, position);
    TickRest(p, w, now);
    hide Tick, AllTraining;
    assert Retained(AllTraining(w, now).cities[c].queues, Tick(p, w, now).cities[c].queues);
  }

  lemma OtherStays(p: Prices, w: Shape, a: Action)
    requires a.city < |w.cities| && (Studies(a.command) || a.command.Receive?)
    ensures AllAlike(w, Step(p, w, a))
  {
    hide QueueAt, Claimed, EventOf;
  }

  lemma TrainEvolution(p: Prices, w: Shape, a: Action, c: nat, position: int, v: Shape)
    returns (command: Training.Command)
    requires AllQueuesOk(w) && Fit(w, a) && HasQueue(w, c, position) && v == Step(p, w, a) && HasQueue(v, c, position)
    requires Drills(a.command)
    ensures Follows(QueueOf(w, c, position), QueueOf(v, c, position), command, a.now) && !command.Pass?
  {
    var q := QueueOf(w, c, position);
    Undisturbed(w, c, position, a.now);
    if c == a.city && position == a.command.position && v != w {
      if a.command.Train? {
        var level := w.cities[c].buildings[Slot(position)].level;
        command := Training.Produce(level, a.command.troopid, a.command.count, a.command.unit);
        ProduceFollows(p, w, a, v);
      } else {
        command := Training.CancelBatch(a.command.queueid);
        CancelFollows(p, w, a, v);
      }
    } else {
      command := Training.CancelBatch(q.nextqueueid);
      hide HasQueue, QueueOf, Follows;
      if v != w { Elsewhere(p, w, a, c, position, v); }
    }
  }

  lemma Undisturbed(w: Shape, c: nat, position: int, now: int)
    requires AllQueuesOk(w) && HasQueue(w, c, position)
    ensures var q := QueueOf(w, c, position);
      Follows(q, q, Training.CancelBatch(q.nextqueueid), now)
  {
    hide QueueAt;
    assert QueuesOk(w.cities[c]);
    Idles(QueueOf(w, c, position), now);
  }

  lemma Elsewhere(p: Prices, w: Shape, a: Action, c: nat, position: int, v: Shape)
    requires a.city < |w.cities| && HasQueue(w, c, position) && v == Step(p, w, a) && v != w
    requires Drills(a.command)
    requires c != a.city || position != a.command.position
    ensures HasQueue(v, c, position) && QueueOf(v, c, position) == QueueOf(w, c, position)
  {
    var x := w.cities[a.city];
    var i := QueueAt(x.queues, a.command.position);
    assert i >= 0 && x.queues[i].positionid == a.command.position;
    var r := v.cities[a.city].queues[i];
    hide QueueAt, Training.IndexOf;
    ReplacedFollows(w, v, a.city, i, r, c, position);
    assert QueueAt(x.queues, position) >= 0 ==> x.queues[QueueAt(x.queues, position)].positionid == position;
  }

  lemma ProduceFollows(p: Prices, w: Shape, a: Action, v: Shape)
    requires a.city < |w.cities| && a.command.Train? && v == Step(p, w, a) && v != w
    requires HasQueue(w, a.city, a.command.position) && HasQueue(v, a.city, a.command.position)
    requires Slot(a.command.position) >= 0 && a.command.count >= 0
    ensures var level := w.cities[a.city].buildings[Slot(a.command.position)].level;
      Follows(QueueOf(w, a.city, a.command.position), QueueOf(v, a.city, a.command.position),
              Training.Produce(level, a.command.troopid, a.command.count, a.command.unit), a.now)
  {
    var x := w.cities[a.city];
    var i := QueueAt(x.queues, a.command.position);
    var level := x.buildings[Slot(a.command.position)].level;
    var r := Training.Add(x.queues[i], level, a.command.troopid, a.command.count, a.command.unit, a.now);
    hide QueueAt;
    ReplacedFollows(w, v, a.city, i, r, a.city, a.command.position);
  }

  lemma CancelFollows(p: Prices, w: Shape, a: Action, v: Shape)
    requires a.city < |w.cities| && a.command.CancelTrain? && v == Step(p, w, a) && v != w
    requires HasQueue(w, a.city, a.command.position) && HasQueue(v, a.city, a.command.position)
    ensures Follows(QueueOf(w, a.city, a.command.position), QueueOf(v, a.city, a.command.position),
                    Training.CancelBatch(a.command.queueid), a.now)
  {
    var x := w.cities[a.city];
    var i := QueueAt(x.queues, a.command.position);
    var r := Training.Cancel(x.queues[i], a.command.queueid, a.now);
    hide QueueAt, Training.IndexOf;
    ReplacedFollows(w, v, a.city, i, r, a.city, a.command.position);
  }

  // ---- Runs -----------------------------------------------------------------------------------------

  /** The queue is never dropped in the run. */
  ghost predicate Kept(p: Prices, w: Shape, run: seq<Action>, c: nat, position: int)
    requires Legal(p, w, run)
    decreases |run|
  {
    HasQueue(Execute(p, w, run), c, position) && (run == [] || Kept(p, w, run[..|run| - 1], c, position))
  }

  /** The batch that an action finishes in this queue. */
  ghost function Finished(w: Shape, a: Action, c: nat, position: int): seq<Training.Done>
  {
    if a.command.Timer? && HasQueue(w, c, position) && Training.Due(QueueOf(w, c, position), a.now)
    then [Training.Done(QueueOf(w, c, position).queue[0], a.now)] else []
  }

  /** All batches that the timer finishes in this queue during the run, with the times of the rounds. */
  ghost function SystemLog(p: Prices, w: Shape, run: seq<Action>, c: nat, position: int): seq<Training.Done>
    requires Legal(p, w, run)
    decreases |run|
  {
    if run == [] then []
    else
      var n := |run| - 1;
      SystemLog(p, w, run[..n], c, position) + Finished(Execute(p, w, run[..n]), run[n], c, position)
  }

  /** At every point of the run, the trace has led to the same queue and finished the same batches, with the timer's
      rounds as its passes. */
  ghost predicate Mirrors(p: Prices, w: Shape, run: seq<Action>, c: nat, position: int, tr: Training.Trace)
    requires Legal(p, w, run) && HasQueue(w, c, position) && Kept(p, w, run, c, position)
    decreases |run|
  {
    && |tr| == |run|
    && Training.Execute(QueueOf(w, c, position), tr)
         == Training.Run(QueueOf(Execute(p, w, run), c, position), SystemLog(p, w, run, c, position))
    && (run != [] ==>
          var n := |run| - 1;
          && tr[n].1 == run[n].now && (tr[n].0.Pass? <==> run[n].command.Timer?)
          && Mirrors(p, w, run[..n], c, position, tr[..n]))
  }

  /** The run as one queue sees it. */
  lemma {:induction false} Projection(p: Prices, w: Shape, run: seq<Action>, c: nat, position: int)
    returns (tr: Training.Trace)
    requires Inv(w) && Legal(p, w, run) && HasQueue(w, c, position) && Kept(p, w, run, c, position)
    ensures Mirrors(p, w, run, c, position, tr)
    ensures Training.Times(tr) == Times(run)
    decreases |run|
  {
    hide Inv, Step, HasQueue, QueueOf, Finished, Follows, Mirrors, Training.Execute;
    if run == [] {
      tr := [];
      MirrorsStart(p, w, run, c, position);
    } else {
      var n := |run| - 1;
      var v := Execute(p, w, run[..n]);
      var before := Projection(p, w, run[..n], c, position);
      RunInv(p, w, run[..n]);
      var command := Evolution(p, v, run[n], c, position);
      tr := before + [(command, run[n].now)];
      assert Training.Times(tr) == Training.Times(before) + [run[n].now];
      assert Times(run) == Times(run[..n]) + [run[n].now];
      assert run == run[..n] + [run[n]];
      MirrorsStep(p, w, run[..n], run[n], run, c, position, v, Step(p, v, run[n]), before, command);
    }
  }

  lemma MirrorsStart(p: Prices, w: Shape, run: seq<Action>, c: nat, position: int)
    requires run == [] && HasQueue(w, c, position) && Kept(p, w, run, c, position)
    ensures Mirrors(p, w, run, c, position, [])
  {
    hide HasQueue, QueueOf;
  }

  lemma MirrorsStep(p: Prices, w: Shape, before: seq<Action>, a: Action, run: seq<Action>, c: nat, position: int,
                    v: Shape, x: Shape, past: Training.Trace, command: Training.Command)
    requires Legal(p, w, before) && HasQueue(w, c, position) && Kept(p, w, before, c, position)
    requires Mirrors(p, w, before, c, position, past)
    requires run == before + [a] && Legal(p, w, run) && Kept(p, w, run, c, position)
    requires v == Execute(p, w, before) && a.city < |v.cities| && x == Step(p, v, a)
    requires HasQueue(v, c, position) && HasQueue(x, c, position)
    requires Follows(QueueOf(v, c, position), QueueOf(x, c, position), command, a.now)
    requires command.Pass? <==> a.command.Timer?
    ensures Mirrors(p, w, run, c, position, past + [(command, a.now)])
  {
    hide Step, Fit, HasQueue, QueueOf, Finished, Training.Step, Training.Due;
    var tr := past + [(command, a.now)];
    assert run[..|before|] == before && tr[..|before|] == past;
    StepOf(Training.Execute(QueueOf(w, c, position), past), command, a.now);
    FinishedIs(v, a, c, position);
  }

  /** What a command does to the queue does not depend on the log, and only a pass adds to that. */
  lemma StepOf(r: Training.Run, command: Training.Command, now: int)
    ensures var x := Training.Step(r, command, now);
      && x.q == Training.Step(Training.Run(r.q, []), command, now).q
      && x.log == r.log + if command.Pass? && Training.Due(r.q, now) then [Training.Done(r.q.queue[0], now)] else []
  {
  }

  lemma FinishedIs(w: Shape, a: Action, c: nat, position: int)
    requires HasQueue(w, c, position)
    ensures var q := QueueOf(w, c, position);
      Finished(w, a, c, position) ==
        if a.command.Timer? && Training.Due(q, a.now) then [Training.Done(q.queue[0], a.now)] else []
  {
    hide HasQueue, QueueOf, Training.Due;
  }

  function Times(run: seq<Action>): (r: seq<int>)
    ensures |r| == |run| && forall i | 0 <= i < |run| :: r[i] == run[i].now
  {
    seq(|run|, i requires 0 <= i < |run| => run[i].now)
  }

  /** In any run of the whole system, the batches that the timer finishes in a queue that starts empty come one
      after the other, in the order of their ids, and batch `k` not before the costs of all batches finished up to
      it have passed. */
  lemma SystemFifo(p: Prices, w: Shape, run: seq<Action>, c: nat, position: int, start: int)
    requires Inv(w) && Legal(p, w, run) && HasQueue(w, c, position) && Kept(p, w, run, c, position)
    requires QueueOf(w, c, position).queue == [] && Training.Clocked(Times(run), start)
    ensures var log := SystemLog(p, w, run, c, position);
      && (forall i, j | 0 <= i < j < |log| :: log[i].batch.queueid < log[j].batch.queueid)
      && (forall k | 0 < k < |log| :: log[k - 1].time + log[k].batch.costtime <= log[k].time)
      && (forall k | 0 <= k < |log| :: start + Training.TotalCost(log[..k + 1]) <= log[k].time)
  {
    hide Inv, HasQueue, QueueOf;
    var tr := Projection(p, w, run, c, position);
    var q := QueueOf(w, c, position);
    var log := Training.Execute(q, tr).log;
    assert log == SystemLog(p, w, run, c, position);
    hide Training.Execute, Training.TotalCost, SystemLog, Mirrors;
    forall k | 0 <= k < |log|
      ensures start + Training.TotalCost(log[..k + 1]) <= log[k].time
      ensures k > 0 ==> log[k - 1].time + log[k].batch.costtime <= log[k].time
    {
      Training.SerialFifo(q, tr, start, k);
    }
    if |log| > 0 { Training.SerialFifo(q, tr, start, 0); }
  }
}
