/** A training queue (`stTroopQueue`): batches are appended by `AddToBarracksQueue`, removed by the cancel
    handlers and finished by the timer. Times are whole milliseconds. */
module Training {
  import opened Sequences

  datatype Train = Train(troopid: int, count: int, queueid: int, starttime: int, endtime: int, costtime: int)

  datatype Queue = Queue(positionid: int, nextqueueid: int, queue: seq<Train>)

  /** The first entry runs from now on. Where the source assigns through the list's end iterator, nothing
      is meant to happen. */
  function StartHead(s: seq<Train>, now: int): (r: seq<Train>)
    ensures |r| == |s|
    ensures forall i | 0 <= i < |s| :: r[i] == if i == 0 then s[0].(endtime := now + s[0].costtime) else s[i]
  {
    if s == [] then [] else [s[0].(endtime := now + s[0].costtime)] + s[1..]
  }

  /** `AddToBarracksQueue`: refused when the building's level is used up. `unit` is the time of one piece in
      seconds, already rounded down. */
  function Add(q: Queue, level: int, troopid: int, count: int, unit: int, now: int): Queue
  {
    if |q.queue| >= level then q
    else
      var cost := unit * count * 1000;
      var end := if |q.queue| > 0 then 0 else now + cost;
      q.(queue := q.queue + [Train(troopid, count, q.nextqueueid, now, end, cost)], nextqueueid := q.nextqueueid + 1)
  }

  /** Index of the batch with this id, or -1. */
  function IndexOf(s: seq<Train>, queueid: int): (r: int)
    ensures -1 <= r < |s|
    ensures r >= 0 ==> s[r].queueid == queueid && forall j | 0 <= j < r :: s[j].queueid != queueid
    ensures r < 0 ==> forall j | 0 <= j < |s| :: s[j].queueid != queueid
  {
    First(s, (t: Train) => t.queueid == queueid)
  }

  /** `erase` at `i`, and when the erased batch was running the next one starts. */
  function Remove(q: Queue, i: nat, now: int): (r: Queue)
    requires i < |q.queue|
  {
    var rest := q.queue[i + 1..];
    q.(queue := q.queue[..i] + if q.queue[i].endtime > 0 then StartHead(rest, now) else rest)
  }

  function Cancel(q: Queue, queueid: int, now: int): Queue
  {
    var i := IndexOf(q.queue, queueid);
    if i < 0 then q else Remove(q, i, now)
  }

  predicate Due(q: Queue, now: int)
  {
    q.queue != [] && q.queue[0].endtime <= now
  }

  /** The timer: at most one batch of a queue is finished in a pass. */
  function Tick(q: Queue, now: int): Queue
  {
    if Due(q, now) then q.(queue := StartHead(q.queue[1..], now)) else q
  }

  /** Only the head is timed. */
  ghost predicate Timed(s: seq<Train>)
  {
    && (s != [] ==> s[0].endtime > 0)
    && (forall i | 0 < i < |s| :: s[i].endtime == 0)
    && (forall i | 0 <= i < |s| :: s[i].costtime >= 0)
  }

  /** Ids grow along the queue and stay below the next one to be given. */
  ghost predicate Numbered(s: seq<Train>, next: int)
  {
    && (forall i | 0 <= i < |s| :: s[i].queueid < next)
    && (forall i, j | 0 <= i < j < |s| :: s[i].queueid < s[j].queueid)
  }

  ghost predicate Valid(q: Queue)
  {
    Timed(q.queue) && Numbered(q.queue, q.nextqueueid)
  }

  /** A new batch keeps the discipline exactly when its end, if it starts at once, lies behind the epoch. */
  lemma AddValid(q: Queue, level: int, troopid: int, count: int, unit: int, now: int)
    requires Valid(q) && |q.queue| < level
    ensures Valid(Add(q, level, troopid, count, unit, now)) <==>
            unit * count * 1000 >= 0 && (q.queue == [] ==> now + unit * count * 1000 > 0)
  {
    var r := Add(q, level, troopid, count, unit, now);
    var n := |q.queue|;
    assert r.queue[n].costtime == unit * count * 1000;
    assert forall i | 0 <= i < n :: r.queue[i] == q.queue[i];
  }

  lemma CancelValid(q: Queue, queueid: int, now: int)
    requires Valid(q) && now > 0
    ensures Valid(Cancel(q, queueid, now))
  {
    CancelAt(q, queueid, now);
    hide Cancel;
    var i := IndexOf(q.queue, queueid);
    if i >= 0 {
      var s := Cancel(q, queueid, now).queue;
      RemovedTimed(q.queue, s, i, now);
      RemovedNumbered(q.queue, s, i, now, q.nextqueueid);
    }
  }

  lemma RemovedTimed(s: seq<Train>, r: seq<Train>, i: nat, now: int)
    requires i < |s| && Removed(s, r, i, now) && Timed(s) && now > 0
    ensures Timed(r)
  {
    assert i == 0 <==> s[i].endtime > 0;
  }

  lemma RemovedNumbered(s: seq<Train>, r: seq<Train>, i: nat, now: int, next: int)
    requires i < |s| && Removed(s, r, i, now) && Numbered(s, next)
    ensures Numbered(r, next)
  {
    assert forall j {:trigger r[j]} | 0 <= j < |r| :: r[j].queueid == s[if j < i then j else j + 1].queueid;
  }

  lemma TickValid(q: Queue, now: int)
    requires Valid(q) && now > 0
    ensures Valid(Tick(q, now))
  {
    if Due(q, now) {
      var r := Tick(q, now);
      assert forall j | 0 <= j < |r.queue| ::
          r.queue[j].queueid == q.queue[j + 1].queueid && r.queue[j].costtime == q.queue[j + 1].costtime;
      assert forall j | 0 < j < |r.queue| :: r.queue[j] == q.queue[j + 1];
    }
  }

  /** A cancel takes out the one batch it names and leaves the others as they were; only the batch that moves
      to the head gets an end time. */
  lemma CancelRemovesOne(q: Queue, queueid: int, now: int)
    requires Valid(q)
    ensures Ids(Cancel(q, queueid, now).queue) == Ids(q.queue) - {queueid}
  {
    CancelAt(q, queueid, now);
    hide Cancel;
    var i := IndexOf(q.queue, queueid);
    var r := Cancel(q, queueid, now).queue;
    if i >= 0 {
      assert forall j {:trigger r[j]} | 0 <= j < |r| :: r[j].queueid == q.queue[if j < i then j else j + 1].queueid;
      RemoveIds(q.queue, r, i);
    } else {
      assert forall j | 0 <= j < |q.queue| :: q.queue[j].queueid != queueid;
    }
  }

  function Restarted(t: Train, now: int): Train
  {
    t.(endtime := now + t.costtime)
  }

  /** `r` is `s` without its batch `i`; the batch behind a running one has started. */
  ghost predicate Removed(s: seq<Train>, r: seq<Train>, i: nat, now: int)
    requires i < |s|
  {
    && |r| == |s| - 1
    && (forall j | 0 <= j < i :: r[j] == s[j])
    && (forall j {:trigger r[j]} | i < j < |r| :: r[j] == s[j + 1])
    && (i < |r| ==> r[i] == if s[i].endtime > 0 then Restarted(s[i + 1], now) else s[i + 1])
  }

  lemma CancelAt(q: Queue, queueid: int, now: int)
    ensures var i := IndexOf(q.queue, queueid);
      var x := Cancel(q, queueid, now);
      if i < 0 then x == q else x.nextqueueid == q.nextqueueid && Removed(q.queue, x.queue, i, now)
  {
    var i := IndexOf(q.queue, queueid);
    hide IndexOf;
    if i >= 0 { RemoveAt(q, i, now); }
  }

  lemma RemoveAt(q: Queue, i: nat, now: int)
    requires i < |q.queue|
    ensures var x := Remove(q, i, now); x.nextqueueid == q.nextqueueid && Removed(q.queue, x.queue, i, now)
  {
    var rest := q.queue[i + 1..];
    var tail := if q.queue[i].endtime > 0 then StartHead(rest, now) else rest;
    TailIs(rest, tail, q.queue[i].endtime > 0, now);
    hide StartHead;
    Spliced(q.queue, Remove(q, i, now).queue, i, tail, now);
  }

  lemma TailIs(rest: seq<Train>, tail: seq<Train>, running: bool, now: int)
    requires tail == if running then StartHead(rest, now) else rest
    ensures |tail| == |rest| && forall j | 0 < j < |tail| :: tail[j] == rest[j]
    ensures tail != [] ==> tail[0] == if running then Restarted(rest[0], now) else rest[0]
  {
  }

  lemma Spliced(s: seq<Train>, r: seq<Train>, i: nat, tail: seq<Train>, now: int)
    requires i < |s| && r == s[..i] + tail && |tail| == |s| - i - 1
    requires forall j | 0 < j < |tail| :: tail[j] == s[i + 1..][j]
    requires tail != [] ==> tail[0] == if s[i].endtime > 0 then Restarted(s[i + 1], now) else s[i + 1]
    ensures Removed(s, r, i, now)
  {
    hide Restarted;
    forall j {:trigger r[j]} | i < j < |r| ensures r[j] == s[j + 1] { assert tail[j - i] == s[i + 1..][j - i]; }
  }

  lemma RemoveIds(s: seq<Train>, r: seq<Train>, i: nat)
    requires i < |s| && |r| == |s| - 1
    requires forall j, k | 0 <= j < k < |s| :: s[j].queueid < s[k].queueid
    requires forall j {:trigger r[j]} | 0 <= j < |r| :: r[j].queueid == s[if j < i then j else j + 1].queueid
    ensures Ids(r) == Ids(s) - {s[i].queueid}
  {
    forall t | t in Ids(s) - {s[i].queueid} ensures t in Ids(r) {
      var j :| 0 <= j < |s| && s[j].queueid == t;
      assert r[if j < i then j else j - 1].queueid == t;
    }
  }

  ghost function Ids(s: seq<Train>): set<int>
  {
    set i | 0 <= i < |s| :: s[i].queueid
  }

  // ---- Whole runs -------------------------------------------------------------------------------

  datatype Command =
    | Produce(level: int, troopid: int, count: nat, unit: nat)
    | CancelBatch(queueid: int)
    | Pass

  /** A finished batch and the time of the pass that finished it. */
  datatype Done = Done(batch: Train, time: int)

  datatype Run = Run(q: Queue, log: seq<Done>)

  function Step(r: Run, c: Command, now: int): Run
  {
    match c
    case Produce(level, troopid, count, unit) => r.(q := Add(r.q, level, troopid, count, unit, now))
    case CancelBatch(queueid) => r.(q := Cancel(r.q, queueid, now))
    case Pass =>
      Run(Tick(r.q, now), if Due(r.q, now) then r.log + [Done(r.q.queue[0], now)] else r.log)
  }

  /** Commands with the times at which they are carried out. */
  type Trace = seq<(Command, int)>

  function Execute(q: Queue, tr: Trace): Run
  {
    if tr == [] then Run(q, []) else Step(Execute(q, tr[..|tr| - 1]), tr[|tr| - 1].0, tr[|tr| - 1].1)
  }

  function Times(tr: Trace): (r: seq<int>)
    ensures |r| == |tr| && forall i | 0 <= i < |tr| :: r[i] == tr[i].1
  {
    seq(|tr|, i requires 0 <= i < |tr| => tr[i].1)
  }

  /** The clock is past the epoch and never goes back. */
  ghost predicate Clocked(times: seq<int>, start: int)
  {
    start > 0 && Rising(start, times)
  }

  function Last(r: Run, start: int): int
  {
    if r.log == [] then start else r.log[|r.log| - 1].time
  }

  /** Finished batches come before waiting ones, in the order of their ids. */
  ghost predicate Ordered(log: seq<Done>, q: Queue)
  {
    && (forall i, j | 0 <= i < |log| && 0 <= j < |q.queue| :: log[i].batch.queueid < q.queue[j].queueid)
    && (forall i | 0 <= i < |log| :: log[i].batch.queueid < q.nextqueueid)
    && (forall i, j | 0 <= i < j < |log| :: log[i].batch.queueid < log[j].batch.queueid)
  }

  /** The batch finished as number `i` took its whole cost after the one before it. */
  predicate SpacedAt(log: seq<Done>, start: int, i: nat)
    requires i < |log|
  {
    (if i == 0 then start else log[i - 1].time) + log[i].batch.costtime <= log[i].time
  }

  ghost predicate Spaced(log: seq<Done>, start: int)
  {
    forall i | 0 <= i < |log| :: SpacedAt(log, start, i)
  }

  /** What every run keeps; in particular the running batch became head no earlier than the last one
      was finished. */
  ghost predicate Serial(r: Run, start: int, now: int)
  {
    && Valid(r.q)
    && Ordered(r.log, r.q)
    && Spaced(r.log, start)
    && start <= Last(r, start) <= now
    && (r.q.queue != [] ==> Last(r, start) + r.q.queue[0].costtime <= r.q.queue[0].endtime)
  }

  lemma StepSerial(r: Run, start: int, before: int, c: Command, now: int)
    requires start > 0 && Serial(r, start, before) && before <= now
    ensures Serial(Step(r, c, now), start, now)
  {
    match c
    case Produce(level, troopid, count, unit) => ProduceSerial(r, start, before, level, troopid, count, unit, now);
    case CancelBatch(queueid) => CancelSerial(r, start, before, queueid, now);
    case Pass => PassSerial(r, start, before, now);
  }

  lemma ProduceSerial(r: Run, start: int, before: int, level: int, troopid: int, count: nat, unit: nat, now: int)
    requires start > 0 && Serial(r, start, before) && before <= now
    ensures Serial(r.(q := Add(r.q, level, troopid, count, unit, now)), start, now)
  {
    hide Spaced;
    if |r.q.queue| < level {
      var cost := unit * count * 1000;
      Product(unit, count);
      AddValid(r.q, level, troopid, count, unit, now);
      hide Valid;
      var x := Add(r.q, level, troopid, count, unit, now);
      assert forall j | 0 <= j < |x.queue| ::
          x.queue[j] == if j < |r.q.queue| then r.q.queue[j] else x.queue[|r.q.queue|];
    }
  }

  lemma Product(a: nat, b: nat)
    ensures a * b * 1000 >= 0
  {
  }

  lemma CancelSerial(r: Run, start: int, before: int, queueid: int, now: int)
    requires start > 0 && Serial(r, start, before) && before <= now
    ensures Serial(r.(q := Cancel(r.q, queueid, now)), start, now)
  {
    CancelValid(r.q, queueid, now);
    CancelOrdered(r.log, r.q, queueid, now);
    CancelHead(r.q, queueid, now);
    hide Cancel, Valid, Spaced, Ordered;
  }

  lemma CancelOrdered(log: seq<Done>, q: Queue, queueid: int, now: int)
    requires Ordered(log, q)
    ensures Ordered(log, Cancel(q, queueid, now))
  {
    CancelAt(q, queueid, now);
    hide Cancel;
    var i := IndexOf(q.queue, queueid);
    var s := Cancel(q, queueid, now).queue;
    if i >= 0 {
      assert forall j {:trigger s[j]} | 0 <= j < |s| :: s[j].queueid == q.queue[if j < i then j else j + 1].queueid;
    }
  }

  /** The head stays, or a new one starts now. */
  lemma CancelHead(q: Queue, queueid: int, now: int)
    requires Valid(q)
    ensures var s := Cancel(q, queueid, now).queue;
      s != [] ==> q.queue != [] && (s[0] == q.queue[0] || s[0].endtime == now + s[0].costtime)
  {
    CancelAt(q, queueid, now);
    hide Cancel;
  }

  lemma PassSerial(r: Run, start: int, before: int, now: int)
    requires start > 0 && Serial(r, start, before) && before <= now
    ensures Serial(Step(r, Pass, now), start, now)
  {
    TickValid(r.q, now);
    if Due(r.q, now) {
      var d := Done(r.q.queue[0], now);
      var x := Step(r, Pass, now);
      assert Ordered(x.log, x.q) by { PassOrdered(r.log, r.q, now); }
      assert Spaced(x.log, start) by {
        hide Valid, Ordered;
        SpacedMore(r.log, start, d);
      }
      hide Valid, Ordered, Spaced;
      assert x.log[|r.log|] == d;
      if x.q.queue != [] { assert x.q.queue[0].endtime == now + x.q.queue[0].costtime; }
    }
  }

  lemma PassOrdered(log: seq<Done>, q: Queue, now: int)
    requires Valid(q) && Ordered(log, q) && Due(q, now)
    ensures Ordered(log + [Done(q.queue[0], now)], Tick(q, now))
  {
    var s := Tick(q, now).queue;
    assert forall j | 0 <= j < |s| :: s[j].queueid == q.queue[j + 1].queueid;
  }

  lemma SpacedMore(log: seq<Done>, start: int, d: Done)
    requires Spaced(log, start)
    requires (if log == [] then start else log[|log| - 1].time) + d.batch.costtime <= d.time
    ensures Spaced(log + [d], start)
  {
    var all := log + [d];
    forall i | 0 <= i < |all| ensures SpacedAt(all, start, i) {
      if i < |log| { assert SpacedAt(log, start, i); }
    }
  }

  lemma {:induction false} RunSerial(q: Queue, tr: Trace, start: int)
    requires q.queue == [] && Clocked(Times(tr), start)
    ensures Serial(Execute(q, tr), start, if tr == [] then start else tr[|tr| - 1].1)
  {
    hide Serial, Step;
    if tr == [] {
      StartSerial(q, start);
    } else {
      var n := |tr| - 1;
      assert Times(tr[..n]) == Times(tr)[..n] && Times(tr)[n] == tr[n].1;
      RunSerial(q, tr[..n], start);
      if n > 0 { assert Times(tr)[n - 1] == tr[n - 1].1; }
      StepSerial(Execute(q, tr[..n]), start, if n == 0 then start else tr[n - 1].1, tr[n].0, tr[n].1);
    }
  }

  lemma StartSerial(q: Queue, start: int)
    requires q.queue == []
    ensures Serial(Run(q, []), start, start)
  {
  }

  function TotalCost(log: seq<Done>): int
  {
    if log == [] then 0 else TotalCost(log[..|log| - 1]) + log[|log| - 1].batch.costtime
  }

  lemma {:induction false} CostsElapsed(log: seq<Done>, start: int, k: nat)
    requires Spaced(log, start) && k < |log|
    ensures start + TotalCost(log[..k + 1]) <= log[k].time
  {
    assert SpacedAt(log, start, k);
    assert log[..k + 1][..k] == log[..k];
    if k > 0 { CostsElapsed(log, start, k - 1); }
  }

  /** Training is serial and first come, first served, over every run of one queue: batches finish in the
      order of their ids, each at least its own cost after the one before, and so none before the start plus
      the costs of all batches finished up to it. Cancelled batches cost no time. */
  lemma SerialFifo(q: Queue, tr: Trace, start: int, k: nat)
    requires q.queue == [] && Clocked(Times(tr), start) && k < |Execute(q, tr).log|
    ensures var log := Execute(q, tr).log;
      && (forall i, j | 0 <= i < j < |log| :: log[i].batch.queueid < log[j].batch.queueid)
      && (k > 0 ==> log[k - 1].time + log[k].batch.costtime <= log[k].time)
      && start + TotalCost(log[..k + 1]) <= log[k].time
  {
    RunSerial(q, tr, start);
    var log := Execute(q, tr).log;
    assert SpacedAt(log, start, k);
    CostsElapsed(log, start, k);
  }

  /** In every reachable state only the head is timed and ids are distinct, so a cancel takes out at most
      one batch. */
  lemma Reachable(q: Queue, tr: Trace, start: int, queueid: int, now: int)
    requires q.queue == [] && Clocked(Times(tr), start)
    ensures var r := Execute(q, tr).q;
      Valid(r) && Ids(Cancel(r, queueid, now).queue) == Ids(r.queue) - {queueid}
  {
    RunSerial(q, tr, start);
    CancelRemovesOne(Execute(q, tr).q, queueid, now);
  }
}
