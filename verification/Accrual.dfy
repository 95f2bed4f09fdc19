/** Resources grow with time and are brought up to date whenever somebody looks (`PlayerCity::CalculateResources`;
    doubles as reals, the clock in milliseconds). */
module Accrual {
  import opened Sequences
  import opened Economy

  /** What the calculation reads: hourly production, the percentages, the army's food, the caps, and the levels of
      the heroes in the ten slots (-1 for an empty one). */
  datatype Rates = Rates(production: Res, base: real, efficiency: real, management: real, consume: real, cap: Res,
                         heroes: seq<int>)

  function Salary(heroes: seq<int>): int
  {
    if heroes == [] then 0
    else Salary(heroes[..|heroes| - 1]) + if heroes[|heroes| - 1] >= 0 then heroes[|heroes| - 1] * 20 else 0
  }

  /** What is added in a millisecond. */
  function PerMilli(r: Rates, production: real): real
  {
    (production + r.base) * (r.efficiency / 100.0) / 60.0 / 60.0 / 1000.0 * (1.0 + r.management / 100.0)
  }

  function GoldPerMilli(r: Rates): real
  {
    (r.production.gold - Salary(r.heroes) as real) / 60.0 / 60.0 / 1000.0
  }

  function Grown(r: Rates, production: real, diff: int): real
  {
    PerMilli(r, production) * diff as real
  }

  function GoldGrown(r: Rates, diff: int): real
  {
    GoldPerMilli(r) * diff as real
  }

  /** A store at or over its cap is left alone, and one below is filled up to it. */
  function Raise(amount: real, cap: real, add: real): real
  {
    if cap > amount then (if cap < amount + add then cap else amount + add) else amount
  }

  function Clamp(x: real): real
  {
    if x < 0.0 then 0.0 else x
  }

  function After(r: Rates, x: Res, diff: int): Res
  {
    Res(Clamp(x.gold + GoldGrown(r, diff)),
        Raise(x.food, r.cap.food, Grown(r, r.production.food, diff) - r.consume),
        Raise(x.wood, r.cap.wood, Grown(r, r.production.wood, diff)),
        Raise(x.stone, r.cap.stone, Grown(r, r.production.stone, diff)),
        Raise(x.iron, r.cap.iron, Grown(r, r.production.iron, diff)))
  }

  predicate Growing(r: Rates)
  {
    && PerMilli(r, r.production.food) >= 0.0 && PerMilli(r, r.production.wood) >= 0.0
    && PerMilli(r, r.production.stone) >= 0.0 && PerMilli(r, r.production.iron) >= 0.0
  }

  /** The city's fields that the calculation changes. */
  class Stores {
    var res: Res
    var updated: int

    constructor (r: Res, now: int)
      ensures res == r && updated == now
    {
      res, updated := r, now;
    }

    method HeroSalary(heroes: seq<int>) returns (salary: int)
      ensures salary == Salary(heroes)
    {
      salary := 0;
      var i := 0;
      while i < |heroes|
        invariant 0 <= i <= |heroes| && salary == Salary(heroes[..i])
      {
        assert heroes[..i + 1][..i] == heroes[..i];
        if heroes[i] >= 0 { salary := salary + heroes[i] * 20; }
        i := i + 1;
      }
      assert heroes[..i] == heroes;
    }

    /** The block that the source has once for each of the four stores. */
    static method Fill(amount: real, cap: real, add: real) returns (r: real)
      ensures r == Raise(amount, cap, add)
    {
      r := amount;
      if cap > r {
        if cap < r + add { r := cap; }
        else { r := r + add; }
      }
    }

    /** What is added to one of the four. */
    static method Produced(r: Rates, production: real, diff: int) returns (add: real)
      ensures add == Grown(r, production, diff)
    {
      var hourly := (production + r.base) * (r.efficiency / 100.0);
      var milli := hourly / 60.0 / 60.0 / 1000.0;
      add := milli * (1.0 + r.management / 100.0) * diff as real;
    }

    /** Gold has no cap, and a floor at zero. */
    static method FillGold(amount: real, r: Rates, salary: int, diff: int) returns (gold: real)
      requires salary == Salary(r.heroes)
      ensures gold == Clamp(amount + GoldGrown(r, diff))
    {
      hide Salary, GoldGrown;
      gold := amount + (r.production.gold - salary as real) * (diff as real / 60.0 / 60.0 / 1000.0);
      Hours(r, diff);
      if gold < 0.0 { gold := 0.0; }
    }

    method CalculateResources(r: Rates, now: int)
      modifies this
      ensures res == After(r, old(res), now - old(updated)) && updated == now
    {
      hide Raise, Clamp, Grown, GoldGrown, Salary;
      var diff := now - updated;
      updated := now;

      var add := Produced(r, r.production.food, diff);
      var food := Fill(res.food, r.cap.food, add - r.consume);
      add := Produced(r, r.production.wood, diff);
      var wood := Fill(res.wood, r.cap.wood, add);
      add := Produced(r, r.production.stone, diff);
      var stone := Fill(res.stone, r.cap.stone, add);
      add := Produced(r, r.production.iron, diff);
      var iron := Fill(res.iron, r.cap.iron, add);

      var salary := HeroSalary(r.heroes);
      var gold := FillGold(res.gold, r, salary, diff);
      res := Res(gold, food, wood, stone, iron);
    }
  }

  lemma Hours(r: Rates, diff: int)
    ensures (r.production.gold - Salary(r.heroes) as real) * (diff as real / 60.0 / 60.0 / 1000.0) == GoldGrown(r, diff)
  {
    hide Salary;
    var x := r.production.gold - Salary(r.heroes) as real;
    var d := diff as real;
    var c := 1.0 / 3600000.0;
    PerHour(d, c);
    PerHour(x, c);
    Reorder(x, d, c);
  }

  lemma PerHour(d: real, c: real)
    requires c == 1.0 / 3600000.0
    ensures d / 60.0 / 60.0 / 1000.0 == d * c
  {
  }

  lemma Reorder(x: real, d: real, c: real)
    ensures x * (d * c) == x * c * d
  {
  }

  // ---- In numbers -----------------------------------------------------------------------------------

  /** The levels of the heroes that are there. */
  function HeroLevels(heroes: seq<int>): int
  {
    if heroes == [] then 0
    else HeroLevels(heroes[..|heroes| - 1]) + if heroes[|heroes| - 1] < 0 then 0 else heroes[|heroes| - 1]
  }

  lemma {:induction false} SalaryExact(heroes: seq<int>)
    ensures Salary(heroes) == 20 * HeroLevels(heroes)
  {
    if heroes != [] { SalaryExact(heroes[..|heroes| - 1]); }
  }

  lemma HourGain(r: Rates, production: real, h: real, diff: int)
    requires diff as real == 3600000.0 * h
    ensures Grown(r, production, diff)
         == h * (production + r.base) * (r.efficiency / 100.0) * (1.0 + r.management / 100.0)
  {
    var c, m := (production + r.base) * (r.efficiency / 100.0), 1.0 + r.management / 100.0;
    PerHour(c, 1.0 / 3600000.0);
    Hourly(c, m, h);
    Regroup(h, production + r.base, r.efficiency / 100.0, m);
  }

  lemma Hourly(c: real, m: real, h: real)
    ensures c * (1.0 / 3600000.0) * m * (3600000.0 * h) == h * c * m
  {
  }

  lemma Regroup(h: real, a: real, e: real, m: real)
    ensures h * (a * e) * m == h * a * e * m
  {
  }

  lemma HourGold(r: Rates, h: real, diff: int)
    requires diff as real == 3600000.0 * h
    ensures GoldGrown(r, diff) == h * (r.production.gold - (20 * HeroLevels(r.heroes)) as real)
  {
    SalaryExact(r.heroes);
    hide Salary, HeroLevels;
    var c := r.production.gold - Salary(r.heroes) as real;
    PerHour(c, 1.0 / 3600000.0);
    Hourly(c, 1.0, h);
  }

  lemma RaisedBy(r: Rates, x: Res, diff: int, k: Kind)
    requires k != Gold
    ensures After(r, x, diff).Of(k) ==
            Raise(x.Of(k), r.cap.Of(k), Grown(r, r.production.Of(k), diff) - if k == Food then r.consume else 0.0)
  {
    hide Raise, Grown, GoldGrown, Clamp;
    match k
    case Food => case Wood => case Stone => case Iron =>
      assert Grown(r, r.production.Of(k), diff) - 0.0 == Grown(r, r.production.Of(k), diff);
  }

  /** Over `h` hours each store gains `h` times what it produces in an hour, with the base, the efficiency in percent
      and the surcharge in percent, less what the army eats of the food, as far as its cap. */
  lemma HoursExact(r: Rates, x: Res, h: real, diff: int, k: Kind)
    requires diff as real == 3600000.0 * h && k != Gold
    ensures var full := x.Of(k) + h * (r.production.Of(k) + r.base) * (r.efficiency / 100.0)
                                  * (1.0 + r.management / 100.0) - if k == Food then r.consume else 0.0;
      After(r, x, diff).Of(k) ==
        if x.Of(k) >= r.cap.Of(k) then x.Of(k) else if full > r.cap.Of(k) then r.cap.Of(k) else full
  {
    var gain := h * (r.production.Of(k) + r.base) * (r.efficiency / 100.0) * (1.0 + r.management / 100.0);
    HourGain(r, r.production.Of(k), h, diff);
    hide After, Grown, Raise;
    Filled(r, x, diff, k, gain);
  }

  lemma Filled(r: Rates, x: Res, diff: int, k: Kind, gain: real)
    requires k != Gold && gain == Grown(r, r.production.Of(k), diff)
    ensures var full := x.Of(k) + gain - if k == Food then r.consume else 0.0;
      After(r, x, diff).Of(k) ==
        if x.Of(k) >= r.cap.Of(k) then x.Of(k) else if full > r.cap.Of(k) then r.cap.Of(k) else full
  {
    RaisedBy(r, x, diff, k);
    hide After, Grown;
  }

  /** Gold gains what is left of the taxes when each hero has got twenty pieces a level, and never falls below zero. */
  lemma GoldExact(r: Rates, x: Res, h: real, diff: int)
    requires diff as real == 3600000.0 * h
    ensures var gold := x.gold + h * (r.production.gold - (20 * HeroLevels(r.heroes)) as real);
      After(r, x, diff).gold == if gold < 0.0 then 0.0 else gold
  {
    HourGold(r, h, diff);
    hide Grown, GoldGrown, HeroLevels;
  }

  // ---- Looking twice is like looking once -----------------------------------------------------------

  lemma Distribute(rate: real, a: int, b: int)
    ensures rate * (a + b) as real == rate * a as real + rate * b as real
  {
    assert (a + b) as real == a as real + b as real;
  }

  lemma Sign(rate: real, a: int)
    requires a >= 0
    ensures rate >= 0.0 ==> rate * a as real >= 0.0
    ensures rate <= 0.0 ==> rate * a as real <= 0.0
  {
  }

  lemma RaiseTwice(amount: real, cap: real, r: Rates, production: real, a: int, b: int)
    requires PerMilli(r, production) >= 0.0 && a >= 0 && b >= 0
    ensures Raise(Raise(amount, cap, Grown(r, production, a)), cap, Grown(r, production, b)) ==
            Raise(amount, cap, Grown(r, production, a + b))
  {
    hide PerMilli;
    Distribute(PerMilli(r, production), a, b);
    Sign(PerMilli(r, production), a);
    Sign(PerMilli(r, production), b);
  }

  lemma ClampTwice(x: real, r: Rates, a: int, b: int)
    requires x >= 0.0 && a >= 0 && b >= 0
    ensures Clamp(Clamp(x + GoldGrown(r, a)) + GoldGrown(r, b)) == Clamp(x + GoldGrown(r, a + b))
  {
    hide GoldPerMilli;
    Distribute(GoldPerMilli(r), a, b);
    Sign(GoldPerMilli(r), a);
    Sign(GoldPerMilli(r), b);
  }

  lemma TwoCalls(r: Rates, x: Res, a: int, b: int)
    requires Growing(r) && r.consume == 0.0 && x.gold >= 0.0 && a >= 0 && b >= 0
    ensures After(r, After(r, x, a), b) == After(r, x, a + b)
  {
    hide PerMilli, Grown, GoldGrown, Raise, Clamp;
    RaiseTwice(x.food, r.cap.food, r, r.production.food, a, b);
    RaiseTwice(x.wood, r.cap.wood, r, r.production.wood, a, b);
    RaiseTwice(x.stone, r.cap.stone, r, r.production.stone, a, b);
    RaiseTwice(x.iron, r.cap.iron, r, r.production.iron, a, b);
    ClampTwice(x.gold, r, a, b);
    Unfed(r, x, a);
    Unfed(r, x, a + b);
    Unfed(r, After(r, x, a), b);
  }

  lemma Unfed(r: Rates, x: Res, diff: int)
    requires r.consume == 0.0
    ensures After(r, x, diff).food == Raise(x.food, r.cap.food, Grown(r, r.production.food, diff))
  {
    hide Grown, GoldGrown;
  }

  /** Calls at these times. */
  function Polled(r: Rates, x: Res, start: int, times: seq<int>): Res
    decreases |times|
  {
    if times == [] then x else Polled(r, After(r, x, times[0] - start), times[0], times[1..])
  }

  /** However an interval is cut up by calls, the stores end as after one call at its end. */
  lemma {:induction false} AnyPartition(r: Rates, x: Res, start: int, times: seq<int>)
    requires Growing(r) && r.consume == 0.0 && x.gold >= 0.0 && times != [] && Rising(start, times)
    ensures Polled(r, x, start, times) == After(r, x, times[|times| - 1] - start)
    decreases |times|
  {
    hide After, Growing;
    var y := After(r, x, times[0] - start);
    if |times| > 1 {
      GoldStays(r, x, times[0] - start);
      AnyPartition(r, y, times[0], times[1..]);
      TwoCalls(r, x, times[0] - start, times[|times| - 1] - times[0]);
    }
  }

  lemma GoldStays(r: Rates, x: Res, diff: int)
    ensures After(r, x, diff).gold >= 0.0
  {
  }

  /** The formula takes the army's food once a call, whatever time has passed. In this server the amount is always
      zero; with any other it would matter how often somebody looks. */
  lemma PollingExact(r: Rates)
    requires Growing(r)
    ensures (forall x: Res, a: int, b: int ::
               x.gold >= 0.0 && a >= 0 && b >= 0 ==> After(r, After(r, x, a), b) == After(r, x, a + b))
            <==> r.consume == 0.0
  {
    hide PerMilli, GoldPerMilli;
    if r.consume == 0.0 {
      forall x: Res, a: int, b: int | x.gold >= 0.0 && a >= 0 && b >= 0
        ensures After(r, After(r, x, a), b) == After(r, x, a + b)
      {
        TwoCalls(r, x, a, b);
      }
    } else {
      var x := Res(0.0, if r.consume > 0.0 then r.cap.food - 1.0 else r.cap.food + 2.0 * r.consume, 0.0, 0.0, 0.0);
      Depends(r, x);
      hide After;
      assert x.gold >= 0.0;
    }
  }

  lemma Depends(r: Rates, x: Res)
    requires r.consume != 0.0
    requires x == Res(0.0, if r.consume > 0.0 then r.cap.food - 1.0 else r.cap.food + 2.0 * r.consume, 0.0, 0.0, 0.0)
    ensures After(r, After(r, x, 0), 0) != After(r, x, 0 + 0)
  {
    hide PerMilli, GoldPerMilli, Clamp;
    Zero(PerMilli(r, r.production.food));
    var once, twice := After(r, x, 0).food, After(r, After(r, x, 0), 0).food;
    assert once == Raise(x.food, r.cap.food, -r.consume);
    assert twice == Raise(once, r.cap.food, -r.consume);
  }

  lemma Zero(rate: real)
    ensures rate * 0 as real == 0.0
  {
  }

  /** Over any series of calls: gold never falls below zero, and no other store is lifted over its cap. */
  lemma {:induction false} Capped(r: Rates, x: Res, start: int, times: seq<int>)
    ensures x.gold >= 0.0 ==> Polled(r, x, start, times).gold >= 0.0
    ensures forall k: Kind :: k != Gold ==>
      if x.Of(k) < r.cap.Of(k) then Polled(r, x, start, times).Of(k) <= r.cap.Of(k)
      else Polled(r, x, start, times).Of(k) == x.Of(k)
    decreases |times|
  {
    hide Grown, GoldGrown;
    if times != [] {
      var y := After(r, x, times[0] - start);
      CappedOnce(r, x, times[0] - start);
      Capped(r, y, times[0], times[1..]);
      hide After;
    }
  }

  lemma CappedOnce(r: Rates, x: Res, diff: int)
    ensures After(r, x, diff).gold >= 0.0
    ensures forall k: Kind :: k != Gold ==>
      if x.Of(k) < r.cap.Of(k) then After(r, x, diff).Of(k) <= r.cap.Of(k)
      else After(r, x, diff).Of(k) == x.Of(k)
  {
    hide Grown, GoldGrown;
    forall k: Kind | k != Gold
      ensures if x.Of(k) < r.cap.Of(k) then After(r, x, diff).Of(k) <= r.cap.Of(k)
              else After(r, x, diff).Of(k) == x.Of(k)
    {
      match k
      case Food => case Wood => case Stone => case Iron =>
    }
  }

  /** With such an army food could fall below zero, and would do so exactly when the army eats more than there
      is and grows in the meantime. */
  lemma FoodExact(r: Rates, x: Res, diff: int)
    requires x.food >= 0.0 && r.cap.food >= 0.0
    ensures After(r, x, diff).food < 0.0 <==>
            x.food < r.cap.food && x.food + Grown(r, r.production.food, diff) < r.consume
  {
    hide Grown, GoldGrown;
  }

  /** Stores that are not below zero stay so when the army eats nothing. */
  lemma AfterStocked(r: Rates, x: Res, diff: nat)
    requires Growing(r) && r.consume == 0.0
    requires x.food >= 0.0 && x.wood >= 0.0 && x.stone >= 0.0 && x.iron >= 0.0
    ensures var y := After(r, x, diff);
      y.gold >= 0.0 && y.food >= 0.0 && y.wood >= 0.0 && y.stone >= 0.0 && y.iron >= 0.0
  {
    hide PerMilli, GoldGrown;
    Sign(PerMilli(r, r.production.food), diff);
    Sign(PerMilli(r, r.production.wood), diff);
    Sign(PerMilli(r, r.production.stone), diff);
    Sign(PerMilli(r, r.production.iron), diff);
  }
}
