/** Research of single-city clients: the city's flag, the claimed technology and the live event go together,
    as long as no research is cancelled while a cancelled one still waits to be swept out of the list. */
module ResearchWork {
  import opened Economy
  import opened World

  /** Slots carry the city's own id or none; technology 0 does not exist. */
  ghost predicate SlotsClaimed(x: City)
  {
    && |x.tech| == 25 && x.castleid > 0 && x.tech[0].castleid == 0
    && forall t | 0 <= t < 25 :: x.tech[t].castleid == 0 || x.tech[t].castleid == x.castleid
  }

  /** This technology, and no other, is being researched. */
  ghost predicate Researches(x: City, tech: int)
  {
    && x.researching && 0 < tech < |x.tech|
    && forall t | 0 <= t < |x.tech| :: x.tech[t].castleid != 0 <==> t == tech
  }

  ghost predicate Quiet(x: City)
  {
    !x.researching && forall t | 0 <= t < |x.tech| :: x.tech[t].castleid == 0
  }

  ghost predicate HasLive(l: seq<TechEvent>, c: nat)
  {
    exists i :: 0 <= i < |l| && l[i].city == c && l[i].tech != 0
  }

  /** Each live event is the last of its city and names what the city researches. */
  ghost predicate EventsNamed(cities: seq<City>, l: seq<TechEvent>)
  {
    && (forall i | 0 <= i < |l| && l[i].tech != 0 ::
          l[i].city < |cities| && Researches(cities[l[i].city], l[i].tech))
    && (forall i, j | 0 <= i < j < |l| && l[i].city == l[j].city :: l[i].tech == 0)
    && (forall c | 0 <= c < |cities| :: Quiet(cities[c]) || HasLive(l, c))
  }

  ghost predicate ResearchInv(w: Shape)
  {
    && (forall c | 0 <= c < |w.cities| :: SlotsClaimed(w.cities[c]))
    && EventsNamed(w.cities, w.researchlist)
  }

  /** The flag holds exactly when one slot carries the city's id and one live event names it. */
  lemma FlagMeansRunning(w: Shape, c: nat)
    requires ResearchInv(w) && c < |w.cities|
    ensures var x := w.cities[c];
      x.researching <==> exists i, t :: 0 <= i < |w.researchlist| && w.researchlist[i] == TechEvent(c, t)
                                        && 0 < t < 25 && x.tech[t].castleid == x.castleid
    ensures forall i, j | 0 <= i < j < |w.researchlist| && w.researchlist[i].city == c && w.researchlist[j].city == c ::
              w.researchlist[i].tech == 0
    ensures var x := w.cities[c];
      forall t, u | 0 <= t < u < 25 :: x.tech[t].castleid != x.castleid || x.tech[u].castleid != x.castleid
  {
    var x := w.cities[c];
    if x.researching {
      var i :| 0 <= i < |w.researchlist| && w.researchlist[i].city == c && w.researchlist[i].tech != 0;
      var t := w.researchlist[i].tech;
      assert Researches(x, t) && w.researchlist[i] == TechEvent(c, t);
      assert x.tech[t].castleid != 0;
    }
    forall i | 0 <= i < |w.researchlist| && w.researchlist[i].city == c && w.researchlist[i].tech != 0
      ensures x.researching
    {
      assert Researches(x, w.researchlist[i].tech);
    }
  }

  /** No event of the city waits to be swept out. */
  ghost predicate NoDead(l: seq<TechEvent>, c: nat)
  {
    forall i | 0 <= i < |l| && l[i].city == c :: l[i].tech != 0
  }

  // ---- What a step may do -------------------------------------------------------------------------

  /** A city that was quiet begins. */
  lemma Begins(w: Shape, c: nat, y: City, tech: int)
    requires ResearchInv(w) && c < |w.cities| && Quiet(w.cities[c]) && |y.buildings| == 76
    requires SlotsClaimed(y) && Researches(y, tech)
    ensures ResearchInv(Put(w, c, y).(researchlist := w.researchlist + [TechEvent(c, tech)]))
  {
    NothingLive(w, c);
    hide SlotsClaimed, EventsNamed;
    BeginsNamed(w.cities, w.researchlist, c, y, tech, w.researchlist + [TechEvent(c, tech)]);
  }

  lemma NothingLive(w: Shape, c: nat)
    requires ResearchInv(w) && c < |w.cities| && Quiet(w.cities[c])
    ensures forall i | 0 <= i < |w.researchlist| && w.researchlist[i].city == c :: w.researchlist[i].tech == 0
  {
  }

  lemma BeginsNamed(cities: seq<City>, m: seq<TechEvent>, c: nat, y: City, tech: int, l: seq<TechEvent>)
    requires EventsNamed(cities, m) && c < |cities| && Researches(y, tech) && tech != 0 && l == m + [TechEvent(c, tech)]
    requires forall i | 0 <= i < |m| && m[i].city == c :: m[i].tech == 0
    ensures EventsNamed(cities[c := y], l)
  {
    hide Researches, Quiet;
    forall d | 0 <= d < |cities| ensures Quiet(cities[c := y][d]) || HasLive(l, d) {
      if d == c {
        assert l[|m|].city == d;
      } else if HasLive(m, d) {
        var i :| 0 <= i < |m| && m[i].city == d && m[i].tech != 0;
        assert l[i].city == d;
      }
    }
  }

  /** The city's live event is dropped and the city is quiet again. */
  lemma Drops(w: Shape, c: nat, y: City, i: nat, l: seq<TechEvent>)
    requires ResearchInv(w) && c < |w.cities| && |y.buildings| == 76 && |y.tech| == 25
    requires SlotsClaimed(y) && Quiet(y)
    requires i < |w.researchlist| && w.researchlist[i].city == c && w.researchlist[i].tech != 0
    requires l == w.researchlist[..i] + w.researchlist[i + 1..]
    ensures ResearchInv(Put(w, c, y).(researchlist := l))
  {
    hide SlotsClaimed, Quiet, EventsNamed;
    DropsNamed(w.cities, w.researchlist, c, y, i, l);
  }

  lemma DropsNamed(cities: seq<City>, m: seq<TechEvent>, c: nat, y: City, i: nat, l: seq<TechEvent>)
    requires EventsNamed(cities, m) && c < |cities| && Quiet(y)
    requires i < |m| && m[i].city == c && m[i].tech != 0 && l == m[..i] + m[i + 1..]
    ensures EventsNamed(cities[c := y], l)
  {
    hide Researches, Quiet;
    assert forall j {:trigger l[j]} | 0 <= j < |l| :: l[j] == m[if j < i then j else j + 1];
    assert forall j | 0 <= j < |l| && l[j].tech != 0 :: l[j].city != c;
    forall d | 0 <= d < |cities| ensures Quiet(cities[c := y][d]) || HasLive(l, d) {
      if d != c && HasLive(m, d) {
        var j :| 0 <= j < |m| && m[j].city == d && m[j].tech != 0;
        assert l[if j < i then j else j - 1].city == d;
      }
    }
  }

  /** The city's live event is marked and the city is quiet again. */
  lemma Marks(w: Shape, c: nat, y: City, i: nat, l: seq<TechEvent>)
    requires ResearchInv(w) && c < |w.cities| && |y.buildings| == 76 && |y.tech| == 25
    requires SlotsClaimed(y) && Quiet(y)
    requires i < |w.researchlist| && w.researchlist[i].city == c && w.researchlist[i].tech != 0
    requires l == w.researchlist[i := TechEvent(c, 0)]
    ensures ResearchInv(Put(w, c, y).(researchlist := l))
  {
    hide SlotsClaimed, Researches, Quiet;
    var cities := w.cities[c := y];
    var m := w.researchlist;
    assert forall j | 0 <= j < |l| && l[j].tech != 0 :: l[j].city != c;
    forall d | 0 <= d < |cities| ensures Quiet(cities[d]) || HasLive(l, d) {
      if d != c && HasLive(m, d) {
        var j :| 0 <= j < |m| && m[j].city == d && m[j].tech != 0;
        assert l[j].city == d;
      }
    }
  }

  /** A marked event is swept out. */
  lemma Sweeps(w: Shape, i: nat)
    requires ResearchInv(w) && i < |w.researchlist| && w.researchlist[i].tech == 0
    ensures ResearchInv(DropResearch(w, i))
  {
    hide SlotsClaimed, EventsNamed;
    SweepsNamed(w.cities, w.researchlist, i, w.researchlist[..i] + w.researchlist[i + 1..]);
  }

  lemma SweepsNamed(cities: seq<City>, m: seq<TechEvent>, i: nat, l: seq<TechEvent>)
    requires EventsNamed(cities, m) && i < |m| && m[i].tech == 0 && l == m[..i] + m[i + 1..]
    ensures EventsNamed(cities, l)
  {
    hide Researches, Quiet;
    assert forall j {:trigger l[j]} | 0 <= j < |l| :: l[j] == m[if j < i then j else j + 1];
    forall d | 0 <= d < |cities| ensures Quiet(cities[d]) || HasLive(l, d) {
      if HasLive(m, d) {
        var j :| 0 <= j < |m| && m[j].city == d && m[j].tech != 0;
        assert l[if j < i then j else j - 1].city == d;
      }
    }
  }

  ghost predicate SameClaims(x: City, y: City)
  {
    && y.castleid == x.castleid && y.researching == x.researching && |y.tech| == |x.tech|
    && forall t | 0 <= t < |x.tech| :: y.tech[t].castleid == x.tech[t].castleid
  }

  /** A step that neither claims nor frees anything. */
  lemma KeepsClaims(w: Shape, c: nat, y: City)
    requires ResearchInv(w) && c < |w.cities| && SameClaims(w.cities[c], y) && |y.buildings| == 76
    ensures ResearchInv(Put(w, c, y))
  {
    var cities := w.cities[c := y];
    ClaimsOnly(w.cities[c], y);
    hide SameClaims;
    assert SlotsClaimed(w.cities[c]);
    hide SlotsClaimed, Researches, Quiet;
    assert forall d | 0 <= d < |cities| :: d == c || cities[d] == w.cities[d];
  }

  lemma ClaimsOnly(x: City, y: City)
    requires SameClaims(x, y)
    ensures SlotsClaimed(x) ==> SlotsClaimed(y)
    ensures Quiet(x) ==> Quiet(y)
    ensures forall t :: Researches(x, t) ==> Researches(y, t)
  {
  }

  // ---- The commands and the timer -------------------------------------------------------------------

  lemma ResearchKeeps(p: Prices, w: Shape, c: nat, tech: int, allowed: bool, duration: int, now: int)
    requires ResearchInv(w) && c < |w.cities|
    ensures ResearchInv(Research(p, w, c, tech, allowed, duration, now))
  {
    hide EventsNamed;
    var x := w.cities[c];
    assert SlotsClaimed(x);
    assert Quiet(x) || x.researching by { NotQuiet(w, c); }
    var v := Research(p, w, c, tech, allowed, duration, now);
    if v != w {
      var t := x.tech[tech];
      var y := x.(res := x.res.Minus(p.research(tech, t.level).Times(1)), researching := true,
                  tech := x.tech[tech := t.(castleid := x.castleid, starttime := now, endtime := now + duration)]);
      assert SlotsClaimed(y) && Researches(y, tech);
      hide SlotsClaimed, Researches, Quiet;
      Begins(w, c, y, tech);
    }
  }

  lemma NotQuiet(w: Shape, c: nat)
    requires ResearchInv(w) && c < |w.cities|
    ensures Quiet(w.cities[c]) || w.cities[c].researching
  {
    hide Quiet;
  }

  lemma LiveEvent(w: Shape, c: nat) returns (i: nat)
    requires ResearchInv(w) && c < |w.cities| && w.cities[c].researching
    ensures i < |w.researchlist| && w.researchlist[i].city == c && w.researchlist[i].tech != 0
    ensures Researches(w.cities[c], w.researchlist[i].tech)
    ensures forall j | 0 <= j < |w.researchlist| && j != i && w.researchlist[j].city == c ::
              j < i && w.researchlist[j].tech == 0
  {
    i :| 0 <= i < |w.researchlist| && w.researchlist[i].city == c && w.researchlist[i].tech != 0;
  }

  lemma ClaimedIs(x: City, tech: int)
    requires SlotsClaimed(x) && Researches(x, tech)
    ensures Claimed(x.tech, x.castleid) == tech
  {
    assert x.tech[tech].castleid != 0;
  }

  /** Cancelling keeps everything in order exactly when none of the city's cancelled events is still in the
      list. Otherwise the mark goes to such an event, the live one stays behind, and the timer will take it for
      a finished research. */
  lemma CancelExact(p: Prices, w: Shape, c: nat)
    requires ResearchInv(w) && c < |w.cities| && w.cities[c].researching
    ensures ResearchInv(CancelResearch(p, w, c)) <==> NoDead(w.researchlist, c)
  {
    var x := w.cities[c];
    var i := LiveEvent(w, c);
    var tech := w.researchlist[i].tech;
    assert SlotsClaimed(x);
    ClaimedIs(x, tech);
    var y := CancelResearch(p, w, c).cities[c];
    assert SlotsClaimed(y) && Quiet(y) && |y.buildings| == 76;
    var e := EventOf(w.researchlist, c);
    if NoDead(w.researchlist, c) {
      assert e == i;
      Marks(w, c, y, i, w.researchlist[i := TechEvent(c, 0)]);
    } else {
      assert e < i && w.researchlist[e].tech == 0;
      StaleLive(w, c, y, i, e, CancelResearch(p, w, c));
    }
  }

  lemma StaleLive(w: Shape, c: nat, y: City, i: nat, e: nat, v: Shape)
    requires c < |w.cities| && i < |w.researchlist| && e < |w.researchlist| && e != i
    requires w.researchlist[i].city == c && w.researchlist[i].tech != 0
    requires v.researchlist == w.researchlist[e := TechEvent(c, 0)] && v.cities == w.cities[c := y] && Quiet(y)
    ensures !ResearchInv(v)
  {
    assert v.researchlist[i] == w.researchlist[i];
  }

  /** The shortest way there: start, cancel, start something else and cancel again before the timer comes
      round. The second technology is raised although both were cancelled. */
  lemma CancelTwice(p: Prices, w: Shape, c: nat, a: int, b: int, duration: int, now: int, w1: Shape, u: Shape,
      w2: Shape, v: Shape)
    requires ResearchInv(w) && c < |w.cities| && Quiet(w.cities[c]) && w.researchlist == [] && now > 0
    requires w1 == Research(p, w, c, a, true, duration, now) && w1 != w
    requires |w1.cities| == |w.cities| && u == CancelResearch(p, w1, c)
    requires |u.cities| == |w.cities| && w2 == Research(p, u, c, b, true, duration, now) && w2 != u
    requires |w2.cities| == |w.cities| && v == CancelResearch(p, w2, c)
    ensures 0 < b < 25 && |v.cities| == |w.cities| && v.researchlist == [TechEvent(c, 0), TechEvent(c, b)]
    ensures !v.cities[c].researching
    ensures |ResearchPass(v, 0, now).cities| == |w.cities|
    ensures ResearchPass(v, 0, now).cities[c].tech[b].level == u.cities[c].tech[b].level + 1
  {
    StartAndCancel(p, w, c, a, duration, now, w1, u);
    hide Research, CancelResearch, Quiet, SlotsClaimed;
    StartAgain(p, u, c, b, duration, now, w2, v);
    SweepsThenFinishes(v, c, b, now);
  }

  lemma StartAndCancel(p: Prices, w: Shape, c: nat, a: int, duration: int, now: int, w1: Shape, u: Shape)
    requires ResearchInv(w) && c < |w.cities| && Quiet(w.cities[c]) && w.researchlist == []
    requires w1 == Research(p, w, c, a, true, duration, now) && w1 != w
    requires |w1.cities| == |w.cities| && u == CancelResearch(p, w1, c)
    ensures |u.cities| == |w.cities| && u.researchlist == [TechEvent(c, 0)]
    ensures Quiet(u.cities[c]) && SlotsClaimed(u.cities[c])
  {
    var x := w.cities[c];
    assert SlotsClaimed(x);
    assert w1.researchlist == [TechEvent(c, a)];
    assert w1.cities[c].tech[a].castleid == x.castleid;
    assert Claimed(w1.cities[c].tech, x.castleid) == a;
  }

  lemma StartAgain(p: Prices, u: Shape, c: nat, b: int, duration: int, now: int, w2: Shape, v: Shape)
    requires c < |u.cities| && Quiet(u.cities[c]) && SlotsClaimed(u.cities[c]) && u.researchlist == [TechEvent(c, 0)]
    requires w2 == Research(p, u, c, b, true, duration, now) && w2 != u
    requires |w2.cities| == |u.cities| && v == CancelResearch(p, w2, c)
    ensures 0 < b < 25 && |v.cities| == |u.cities| && v.researchlist == [TechEvent(c, 0), TechEvent(c, b)]
    ensures !v.cities[c].researching
    ensures v.cities[c].tech[b].endtime == 0 && v.cities[c].tech[b].level == u.cities[c].tech[b].level
  {
    var x := u.cities[c];
    assert w2.researchlist == [TechEvent(c, 0), TechEvent(c, b)];
    assert w2.cities[c].tech[b].castleid == x.castleid;
    assert Claimed(w2.cities[c].tech, x.castleid) == b;
    assert EventOf(w2.researchlist, c) == 0;
  }

  lemma SweepsThenFinishes(v: Shape, c: nat, b: int, now: int)
    requires c < |v.cities| && v.researchlist == [TechEvent(c, 0), TechEvent(c, b)] && 0 < b < 25
    requires v.cities[c].tech[b].endtime == 0 && now > 0
    ensures |ResearchPass(v, 0, now).cities| == |v.cities|
    ensures ResearchPass(v, 0, now).cities[c].tech[b].level == v.cities[c].tech[b].level + 1
  {
    var v1 := DropResearch(v, 0);
    assert v1.researchlist == [TechEvent(c, b)];
    assert ResearchPass(v, 0, now) == ResearchPass(v1, 0, now);
    var v2 := FinishResearch(v1, 0);
    assert ResearchPass(v1, 0, now) == ResearchPass(v2, 0, now) == v2;
  }

  lemma SpeedUpKeeps(w: Shape, c: nat, reduce: int)
    requires ResearchInv(w) && c < |w.cities|
    ensures ResearchInv(SpeedUpResearch(w, c, reduce))
  {
    hide ResearchInv;
    var x := w.cities[c];
    if Claimed(x.tech, x.castleid) >= 0 { KeepsClaims(w, c, SpeedUpResearch(w, c, reduce).cities[c]); }
  }

  lemma FinishKeeps(w: Shape, i: nat)
    requires ResearchInv(w) && i < |w.researchlist| && w.researchlist[i].tech != 0
    ensures ResearchInv(FinishResearch(w, i))
  {
    var e := w.researchlist[i];
    var x := w.cities[e.city];
    assert SlotsClaimed(x) && Researches(x, e.tech);
    var t := x.tech[e.tech];
    var y := x.(researching := false, tech := x.tech[e.tech := Tech(t.level + 1, 0, 0, 0)]);
    assert SlotsClaimed(y) && Quiet(y);
    hide ResearchInv, SlotsClaimed, Quiet;
    Drops(w, e.city, y, i, w.researchlist[..i] + w.researchlist[i + 1..]);
  }

  lemma {:induction false} PassKeeps(w: Shape, i: nat, now: int)
    requires ResearchInv(w)
    ensures ResearchInv(ResearchPass(w, i, now))
    decreases |w.researchlist| - i
  {
    hide ResearchInv;
    if i < |w.researchlist| {
      var e := w.researchlist[i];
      if e.tech == 0 {
        Sweeps(w, i);
        PassKeeps(DropResearch(w, i), i, now);
      } else if w.cities[e.city].tech[e.tech].endtime < now {
        FinishKeeps(w, i);
        PassKeeps(FinishResearch(w, i), i, now);
      } else {
        PassKeeps(w, i + 1, now);
      }
    }
  }

  /** After a pass nothing waits to be swept out, so that the next cancel is safe. */
  lemma {:induction false} PassSweeps(w: Shape, i: nat, now: int)
    requires forall j | 0 <= j < i && j < |w.researchlist| :: w.researchlist[j].tech != 0
    ensures forall j | 0 <= j < |ResearchPass(w, i, now).researchlist| ::
            ResearchPass(w, i, now).researchlist[j].tech != 0
    decreases |w.researchlist| - i
  {
    if i < |w.researchlist| {
      var e := w.researchlist[i];
      if e.tech == 0 {
        PassSweeps(DropResearch(w, i), i, now);
      } else if w.cities[e.city].tech[e.tech].endtime < now {
        PassSweeps(FinishResearch(w, i), i, now);
      } else {
        PassSweeps(w, i + 1, now);
      }
    }
  }

  /** Event `i` is live and its work is not due. */
  predicate Waits(w: Shape, i: nat, now: int)
    requires i < |w.researchlist|
  {
    var e := w.researchlist[i];
    e.tech != 0 && w.cities[e.city].tech[e.tech].endtime >= now
  }

  ghost predicate AllWait(w: Shape, now: int)
  {
    forall i | 0 <= i < |w.researchlist| :: Waits(w, i, now)
  }

  lemma FinishKeepsOthers(w: Shape, i: nat, now: int)
    requires ResearchInv(w) && i < |w.researchlist|
    ensures var v := FinishResearch(w, i);
      |v.researchlist| == |w.researchlist| - 1 && forall j | 0 <= j < i :: Waits(w, j, now) ==> Waits(v, j, now)
  {
    var v := FinishResearch(w, i);
    var m := w.researchlist;
    assert forall j | 0 <= j < i :: v.researchlist[j] == m[j] && (m[j].city == m[i].city ==> m[j].tech == 0);
    hide ResearchInv;
  }

  lemma DropKeepsOthers(w: Shape, i: nat, now: int)
    requires i < |w.researchlist|
    ensures var v := DropResearch(w, i);
      |v.researchlist| == |w.researchlist| - 1 && forall j | 0 <= j < i :: Waits(w, j, now) ==> Waits(v, j, now)
  {
  }

  /** Nothing is left behind: after a pass every event is live and not due. */
  lemma {:induction false} PassFinishesDue(w: Shape, i: nat, now: int)
    requires ResearchInv(w) && i <= |w.researchlist| && forall j | 0 <= j < i :: Waits(w, j, now)
    ensures AllWait(ResearchPass(w, i, now), now)
    decreases |w.researchlist| - i
  {
    hide ResearchInv, FinishResearch, DropResearch;
    if i < |w.researchlist| {
      var e := w.researchlist[i];
      if e.tech == 0 {
        Sweeps(w, i);
        DropKeepsOthers(w, i, now);
        PassFinishesDue(DropResearch(w, i), i, now);
      } else if w.cities[e.city].tech[e.tech].endtime < now {
        FinishKeeps(w, i);
        FinishKeepsOthers(w, i, now);
        PassFinishesDue(FinishResearch(w, i), i, now);
      } else {
        PassFinishesDue(w, i + 1, now);
      }
    }
  }
}
