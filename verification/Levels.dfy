/** Levels of technologies over whole runs: each is raised once for each time its research is finished, and while
    no cancel is impatient a research that was cancelled is not finished. */
module Levels {
  import opened Economy
  import opened World
  import opened Construction
  import opened ResearchWork
  import opened Runs
  import Training

  function Level(w: Shape, c: nat, t: nat): int
    requires c < |w.cities| && t < 25
  {
    w.cities[c].tech[t].level
  }

  /** 1 while the technology's slot carries a city's id, else 0. */
  function Claim(w: Shape, c: nat, t: nat): nat
    requires c < |w.cities| && t < 25
  {
    if w.cities[c].tech[t].castleid != 0 then 1 else 0
  }

  // ---- One pass of the timer ------------------------------------------------------------------------

  /** How often a pass from event `i` on finishes this technology. */
  function PassFinishes(w: Shape, i: nat, now: int, c: nat, t: nat): nat
    decreases |w.researchlist| - i
  {
    if i >= |w.researchlist| then 0
    else
      var e := w.researchlist[i];
      if e.tech == 0 then PassFinishes(DropResearch(w, i), i, now, c, t)
      else if w.cities[e.city].tech[e.tech].endtime < now then
        (if e == TechEvent(c, t) then 1 else 0) + PassFinishes(FinishResearch(w, i), i, now, c, t)
      else PassFinishes(w, i + 1, now, c, t)
  }

  lemma FinishOne(w: Shape, i: nat, c: nat, t: nat)
    requires i < |w.researchlist| && w.researchlist[i].tech != 0 && c < |w.cities| && t < 25
    ensures var v := FinishResearch(w, i);
      && |v.cities| == |w.cities| && |v.researchlist| == |w.researchlist| - 1
      && Level(v, c, t) == Level(w, c, t) + (if w.researchlist[i] == TechEvent(c, t) then 1 else 0)
      && Claim(v, c, t) == if w.researchlist[i] == TechEvent(c, t) then 0 else Claim(w, c, t)
  {
  }

  /** A pass raises a level by one for each finish, and by nothing else. */
  lemma {:induction false} PassLevels(w: Shape, i: nat, now: int, c: nat, t: nat)
    requires c < |w.cities| && t < 25
    ensures var v := ResearchPass(w, i, now);
      |v.cities| == |w.cities| && Level(v, c, t) == Level(w, c, t) + PassFinishes(w, i, now, c, t)
    decreases |w.researchlist| - i
  {
    hide FinishResearch;
    if i < |w.researchlist| {
      var e := w.researchlist[i];
      if e.tech == 0 {
        PassLevels(DropResearch(w, i), i, now, c, t);
      } else if w.cities[e.city].tech[e.tech].endtime < now {
        FinishOne(w, i, c, t);
        PassLevels(FinishResearch(w, i), i, now, c, t);
      } else {
        PassLevels(w, i + 1, now, c, t);
      }
    }
  }

  /** A finish frees a slot that was claimed. */
  lemma {:induction false} PassClaims(w: Shape, i: nat, now: int, c: nat, t: nat)
    requires ResearchInv(w) && c < |w.cities| && t < 25
    ensures var v := ResearchPass(w, i, now);
      |v.cities| == |w.cities| && Claim(w, c, t) == PassFinishes(w, i, now, c, t) + Claim(v, c, t)
    decreases |w.researchlist| - i
  {
    hide FinishResearch, DropResearch, ResearchInv, Claim;
    if i < |w.researchlist| {
      var e := w.researchlist[i];
      if e.tech == 0 {
        Sweeps(w, i);
        DropFrame(w, i, c, t);
        PassClaims(DropResearch(w, i), i, now, c, t);
      } else if w.cities[e.city].tech[e.tech].endtime < now {
        Named(w, i);
        FinishOne(w, i, c, t);
        FinishKeeps(w, i);
        PassClaims(FinishResearch(w, i), i, now, c, t);
      } else {
        PassClaims(w, i + 1, now, c, t);
      }
    }
  }

  lemma DropFrame(w: Shape, i: nat, c: nat, t: nat)
    requires i < |w.researchlist| && c < |w.cities| && t < 25
    ensures var v := DropResearch(w, i);
      |v.cities| == |w.cities| && |v.researchlist| == |w.researchlist| - 1 && Claim(v, c, t) == Claim(w, c, t)
  {
  }

  /** A live event names a claimed slot. */
  lemma Named(w: Shape, i: nat)
    requires ResearchInv(w) && i < |w.researchlist| && w.researchlist[i].tech != 0
    ensures Claim(w, w.researchlist[i].city, w.researchlist[i].tech) == 1
  {
    assert Researches(w.cities[w.researchlist[i].city], w.researchlist[i].tech);
  }

  // ---- One step -------------------------------------------------------------------------------------

  ghost function StartsIn(p: Prices, w: Shape, a: Action, c: nat, t: nat): nat
    requires a.city < |w.cities|
  {
    if a.command.Study? && a.city == c && a.command.tech == t && Step(p, w, a) != w then 1 else 0
  }

  ghost function CancelsIn(p: Prices, w: Shape, a: Action, c: nat, t: nat): nat
    requires a.city < |w.cities|
  {
    if a.command.CancelStudy? && a.city == c && Step(p, w, a) != w
        && Claimed(w.cities[c].tech, w.cities[c].castleid) == t
    then 1 else 0
  }

  ghost function FinishesIn(p: Prices, w: Shape, a: Action, c: nat, t: nat): nat
  {
    if a.command.Timer? then PassFinishes(BuildingPass(p, AllTraining(w, a.now), 0, a.now), 0, a.now, c, t) else 0
  }

  lemma SameSlots(w: Shape, v: Shape, c: nat, t: nat)
    requires TechStays(w, v) && c < |w.cities| && t < 25
    ensures Level(v, c, t) == Level(w, c, t) && Claim(v, c, t) == Claim(w, c, t)
  {
    assert SameTech(w.cities[c], v.cities[c]);
  }

  /** What comes before the research pass in a round of the timer. */
  lemma BeforePass(p: Prices, w: Shape, now: int, c: nat, t: nat)
    requires c < |w.cities| && t < 25
    ensures var v := BuildingPass(p, AllTraining(w, now), 0, now);
      && |v.cities| == |w.cities| && Level(v, c, t) == Level(w, c, t) && Claim(v, c, t) == Claim(w, c, t)
      && (ResearchInv(w) ==> ResearchInv(v))
  {
    hide ResearchInv, AllTraining, BuildingPass, Level, Claim;
    var u := AllTraining(w, now);
    var v := BuildingPass(p, u, 0, now);
    TrainingFrame(w, now);
    BuildingPassFrame(p, u, 0, now);
    TechStaysTrans(w, u, v);
    SameSlots(w, v, c, t);
    if ResearchInv(w) { ResearchInvStays(w, v); }
  }

  lemma TimerLevels(p: Prices, w: Shape, a: Action, c: nat, t: nat)
    requires a.command.Timer? && a.city < |w.cities| && c < |w.cities| && t < 25
    ensures var v := Step(p, w, a);
      && |v.cities| == |w.cities| && Level(v, c, t) == Level(w, c, t) + FinishesIn(p, w, a, c, t)
      && (ResearchInv(w) ==> Claim(w, c, t) == FinishesIn(p, w, a, c, t) + Claim(v, c, t))
  {
    hide ResearchInv, AllTraining, BuildingPass, ResearchPass, PassFinishes, Level, Claim;
    var v := BuildingPass(p, AllTraining(w, a.now), 0, a.now);
    BeforePass(p, w, a.now, c, t);
    PassLevels(v, 0, a.now, c, t);
    if ResearchInv(w) { PassClaims(v, 0, a.now, c, t); }
  }

  lemma StudyLevels(p: Prices, w: Shape, a: Action, c: nat, t: nat)
    requires a.command.Study? && a.city < |w.cities| && c < |w.cities| && t < 25
    ensures var v := Step(p, w, a);
      && |v.cities| == |w.cities| && Level(v, c, t) == Level(w, c, t)
      && (ResearchInv(w) ==> Claim(w, c, t) + StartsIn(p, w, a, c, t) == Claim(v, c, t))
  {
    if ResearchInv(w) {
      NotQuiet(w, a.city);
      assert SlotsClaimed(w.cities[a.city]);
    }
    hide ResearchInv, SlotsClaimed;
  }

  lemma CancelLevels(p: Prices, w: Shape, a: Action, c: nat, t: nat)
    requires a.command.CancelStudy? && a.city < |w.cities| && c < |w.cities| && t < 25
    ensures var v := Step(p, w, a);
      && |v.cities| == |w.cities| && Level(v, c, t) == Level(w, c, t)
      && (ResearchInv(w) ==> Claim(w, c, t) == CancelsIn(p, w, a, c, t) + Claim(v, c, t))
  {
    if ResearchInv(w) { assert SlotsClaimed(w.cities[a.city]); }
    hide ResearchInv, SlotsClaimed, Claimed, EventOf;
  }

  lemma SpeedLevels(p: Prices, w: Shape, a: Action, c: nat, t: nat)
    requires (a.command.SpeedStudy? || a.command.SpeedStudyFree?) && a.city < |w.cities| && c < |w.cities| && t < 25
    ensures var v := Step(p, w, a);
      |v.cities| == |w.cities| && Level(v, c, t) == Level(w, c, t) && Claim(v, c, t) == Claim(w, c, t)
  {
    hide Claimed;
  }

  /** Every step accounts for its part; only the timer changes a level. */
  lemma StepLevels(p: Prices, w: Shape, a: Action, c: nat, t: nat)
    requires a.city < |w.cities| && c < |w.cities| && t < 25
    ensures var v := Step(p, w, a);
      && |v.cities| == |w.cities| && Level(v, c, t) == Level(w, c, t) + FinishesIn(p, w, a, c, t)
      && (ResearchInv(w) ==>
            Claim(w, c, t) + StartsIn(p, w, a, c, t)
              == FinishesIn(p, w, a, c, t) + CancelsIn(p, w, a, c, t) + Claim(v, c, t))
  {
    hide Step, ResearchInv, Level, Claim, PassFinishes;
    if a.command.Timer? { TimerLevels(p, w, a, c, t); }
    else if a.command.Study? { StudyLevels(p, w, a, c, t); }
    else if a.command.CancelStudy? { CancelLevels(p, w, a, c, t); }
    else if a.command.SpeedStudy? || a.command.SpeedStudyFree? { SpeedLevels(p, w, a, c, t); }
    else {
      StepTech(p, w, a);
      SameSlots(w, Step(p, w, a), c, t);
    }
  }

  // ---- Runs -----------------------------------------------------------------------------------------

  ghost function Starts(p: Prices, w: Shape, run: seq<Action>, c: nat, t: nat): nat
    requires Legal(p, w, run)
    decreases |run|
  {
    if run == [] then 0
    else
      var n := |run| - 1;
      Starts(p, w, run[..n], c, t) + StartsIn(p, Execute(p, w, run[..n]), run[n], c, t)
  }

  ghost function Cancels(p: Prices, w: Shape, run: seq<Action>, c: nat, t: nat): nat
    requires Legal(p, w, run)
    decreases |run|
  {
    if run == [] then 0
    else
      var n := |run| - 1;
      Cancels(p, w, run[..n], c, t) + CancelsIn(p, Execute(p, w, run[..n]), run[n], c, t)
  }

  ghost function Finishes(p: Prices, w: Shape, run: seq<Action>, c: nat, t: nat): nat
    requires Legal(p, w, run)
    decreases |run|
  {
    if run == [] then 0
    else
      var n := |run| - 1;
      Finishes(p, w, run[..n], c, t) + FinishesIn(p, Execute(p, w, run[..n]), run[n], c, t)
  }

  /** Over every run, patient or not, a level rises by exactly the number of its finishes. */
  lemma {:induction false} RunLevels(p: Prices, w: Shape, run: seq<Action>, c: nat, t: nat)
    requires Legal(p, w, run) && c < |w.cities| && t < 25
    ensures var v := Execute(p, w, run);
      |v.cities| == |w.cities| && Level(v, c, t) == Level(w, c, t) + Finishes(p, w, run, c, t)
    decreases |run|
  {
    hide Step, Level, FinishesIn;
    if run != [] {
      var n := |run| - 1;
      RunLevels(p, w, run[..n], c, t);
      StepLevels(p, Execute(p, w, run[..n]), run[n], c, t);
    }
  }

  /** Over every patient run, each start of a technology ends in one finish or one cancel, or still goes on. */
  lemma {:induction false} RunClaims(p: Prices, w: Shape, run: seq<Action>, c: nat, t: nat)
    requires ResearchInv(w) && Legal(p, w, run) && AllPatient(p, w, run) && c < |w.cities| && t < 25
    ensures var v := Execute(p, w, run);
      && |v.cities| == |w.cities|
      && Claim(w, c, t) + Starts(p, w, run, c, t)
           == Finishes(p, w, run, c, t) + Cancels(p, w, run, c, t) + Claim(v, c, t)
    decreases |run|
  {
    hide Step, ResearchInv, Level, Claim, FinishesIn, StartsIn, CancelsIn, Patient;
    if run != [] {
      var n := |run| - 1;
      RunClaims(p, w, run[..n], c, t);
      RunResearch(p, w, run[..n]);
      StepLevels(p, Execute(p, w, run[..n]), run[n], c, t);
    }
  }

  /** So a technology that is not being researched, because it was cancelled or for any other reason, keeps its level
      in every patient run that does not start it again, and never gains more levels than it is started. */
  lemma CancelledKeepsLevel(p: Prices, w: Shape, run: seq<Action>, c: nat, t: nat)
    requires ResearchInv(w) && Legal(p, w, run) && AllPatient(p, w, run) && c < |w.cities| && t < 25
    requires Claim(w, c, t) == 0
    ensures var v := Execute(p, w, run);
      && |v.cities| == |w.cities|
      && Level(w, c, t) <= Level(v, c, t) <= Level(w, c, t) + Starts(p, w, run, c, t) - Cancels(p, w, run, c, t)
      && (Starts(p, w, run, c, t) == 0 ==> Level(v, c, t) == Level(w, c, t))
  {
    hide Starts, Cancels, Finishes, Execute, Legal, AllPatient, ResearchInv, Level;
    RunLevels(p, w, run, c, t);
    RunClaims(p, w, run, c, t);
  }

  // ---- The impatient cancel -------------------------------------------------------------------------

  /** An event whose slot has been freed, and so has an end time in the past, is taken for finished work. */
  lemma {:induction false} StaleIsFinished(w: Shape, i: nat, j: nat, now: int, c: nat, t: nat)
    requires i <= j < |w.researchlist| && w.researchlist[j] == TechEvent(c, t) && t > 0 && now > 0
    requires w.cities[c].tech[t].endtime < now
    ensures PassFinishes(w, i, now, c, t) >= 1
    decreases |w.researchlist| - i
  {
    hide FinishResearch, DropResearch;
    var e := w.researchlist[i];
    if e.tech == 0 {
      DropAt(w, i, j);
      StaleIsFinished(DropResearch(w, i), i, j - 1, now, c, t);
    } else if w.cities[e.city].tech[e.tech].endtime < now {
      if i != j {
        FinishAt(w, i, j, now, c, t);
        StaleIsFinished(FinishResearch(w, i), i, j - 1, now, c, t);
      }
    } else {
      StaleIsFinished(w, i + 1, j, now, c, t);
    }
  }

  lemma DropAt(w: Shape, i: nat, j: nat)
    requires i < j < |w.researchlist|
    ensures var v := DropResearch(w, i);
      |v.researchlist| == |w.researchlist| - 1 && v.cities == w.cities && v.researchlist[j - 1] == w.researchlist[j]
  {
  }

  lemma FinishAt(w: Shape, i: nat, j: nat, now: int, c: nat, t: nat)
    requires i < j < |w.researchlist| && c < |w.cities| && t < 25 && now > 0 && w.cities[c].tech[t].endtime < now
    ensures var v := FinishResearch(w, i);
      && |v.researchlist| == |w.researchlist| - 1 && |v.cities| == |w.cities|
      && v.researchlist[j - 1] == w.researchlist[j] && v.cities[c].tech[t].endtime < now
  {
  }

  /** A cancelled technology keeps its level in the next pass exactly when none of the city's cancelled events was
      still in the list. */
  lemma CancelLevelExact(p: Prices, w: Shape, c: nat, now: int)
    requires ResearchInv(w) && c < |w.cities| && w.cities[c].researching && now > 0
    ensures var t := Claimed(w.cities[c].tech, w.cities[c].castleid);
      var v := CancelResearch(p, w, c);
      && 0 < t < 25 && |v.cities| == |w.cities| && |ResearchPass(v, 0, now).cities| == |w.cities|
      && (Level(ResearchPass(v, 0, now), c, t) == Level(w, c, t) <==> NoDead(w.researchlist, c))
  {
    var i := LiveEvent(w, c);
    var t := w.researchlist[i].tech;
    var v := CancelResearch(p, w, c);
    assert SlotsClaimed(w.cities[c]);
    ClaimedIs(w.cities[c], t);
    CancelExact(p, w, c);
    CancelFrees(p, w, c, t, i);
    hide ResearchInv, SlotsClaimed, Researches, CancelResearch, ResearchPass;
    PassLevels(v, 0, now, c, t);
    if NoDead(w.researchlist, c) { PassClaims(v, 0, now, c, t); }
    else { StaleIsFinished(v, 0, i, now, c, t); }
  }

  lemma CancelFrees(p: Prices, w: Shape, c: nat, t: nat, i: nat)
    requires c < |w.cities| && w.cities[c].researching && 0 < t < 25
             && Claimed(w.cities[c].tech, w.cities[c].castleid) == t
    requires i < |w.researchlist| && w.researchlist[i] == TechEvent(c, t)
    requires forall j | 0 <= j < |w.researchlist| && j != i && w.researchlist[j].city == c ::
              j < i && w.researchlist[j].tech == 0
    ensures var v := CancelResearch(p, w, c);
      && |v.cities| == |w.cities| && v.cities[c].tech[t] == Tech(Level(w, c, t), 0, 0, 0)
      && (!NoDead(w.researchlist, c) ==> |v.researchlist| == |w.researchlist| && v.researchlist[i] == TechEvent(c, t))
  {
    hide Claimed, EventOf;
  }
}
