/** Population and loyalty (`PlayerCity::RecalculateCityStats`, run every six minutes). */
module Population {

  /** `tax` is `m_workrate.gold`, a whole percentage. */
  datatype Town = Town(population: int, max: int, loyalty: int, grievance: int, tax: int, gold: real)

  predicate Sane(t: Town)
  {
    0 <= t.population && 0 <= t.max && 0 <= t.loyalty <= 100 && 0 <= t.grievance && 0 <= t.tax
  }

  function Min(a: int, b: int): int
  {
    if a > b then b else a
  }

  function TargetPopulation(t: Town): int
  {
    t.max * Min(100, t.loyalty + t.grievance) / 100
  }

  function TargetLoyalty(t: Town): int
  {
    100 - Min(100, t.tax + t.grievance)
  }

  /** Moves `x` towards `target` by at most `add`. */
  function Towards(x: int, target: int, add: nat): int
  {
    if x > target then (if x - add < target then target else x - add)
    else if x + add > target then target else x + add
  }

  function GoldRate(population: int, tax: int): real
  {
    population as real * (tax as real / 100.0)
  }

  function Next(t: Town): Town
  {
    var population := Towards(t.population, TargetPopulation(t), if t.max < 0 then 0 else t.max / 20);
    var loyalty := Towards(t.loyalty, TargetLoyalty(t), 1);
    t.(population := population, loyalty := loyalty, gold := GoldRate(population, t.tax))
  }

  /** The fields of a city that the recalculation reads and writes. */
  class CityStats {
    var population: int
    var maxpopulation: int
    var loyalty: int
    var grievance: int
    var tax: int
    var gold: real

    ghost function View(): Town
      reads this
    {
      Town(population, maxpopulation, loyalty, grievance, tax, gold)
    }

    constructor (t: Town)
      ensures View() == t
    {
      population, maxpopulation, loyalty, grievance, tax, gold := t.population, t.max, t.loyalty, t.grievance, t.tax,
          t.gold;
    }

    method Targets() returns (target: int, wanted: int)
      requires Sane(View())
      ensures target == TargetPopulation(View()) && wanted == TargetLoyalty(View())
      ensures 0 <= target <= maxpopulation && 0 <= wanted <= 100
    {
      TargetWithin(View());
      var percent := loyalty + grievance;
      if percent > 100 { percent := 100; }
      target := maxpopulation * percent / 100;
      var burden := tax + grievance;
      if burden > 100 { burden := 100; }
      wanted := 100 - burden;
    }

    method RecalculateCityStats()
      requires Sane(View())
      modifies this
      ensures View() == Next(old(View())) && Sane(View())
    {
      hide TargetPopulation, TargetLoyalty;
      var target, wanted := Targets();
      var add := maxpopulation / 20;
      if population > target {
        if population - add < target { population := target; }
        else { population := if population - add < 0 then maxpopulation else population - add; }
      } else if population < target {
        if population + add > target { population := target; }
        else { population := if population + add > maxpopulation then maxpopulation else population + add; }
      }
      if wanted < loyalty { loyalty := loyalty - 1; }
      else if wanted > loyalty { loyalty := loyalty + 1; }
      gold := GoldRate(population, tax);
    }
  }

  lemma TargetWithin(t: Town)
    requires Sane(t)
    ensures 0 <= TargetPopulation(t) <= t.max && 0 <= TargetLoyalty(t) <= 100
  {
    var percent := Min(100, t.loyalty + t.grievance);
    assert t.max * percent <= t.max * 100 by { Grows(t.max, percent, 100); }
    assert 0 <= t.max * percent by { Grows(t.max, 0, percent); }
  }

  lemma Grows(a: nat, b: int, c: int)
    requires b <= c
    ensures a * b <= a * c
  {
    assert a * (c - b) >= 0;
  }

  lemma NextSane(t: Town)
    requires Sane(t)
    ensures Sane(Next(t))
  {
    TargetWithin(t);
    hide TargetPopulation, TargetLoyalty, GoldRate;
  }

  function Abs(x: int): nat
  {
    if x < 0 then -x else x
  }

  function LoyaltyGap(t: Town): nat
  {
    Abs(t.loyalty - TargetLoyalty(t))
  }

  function PopulationGap(t: Town): nat
  {
    Abs(t.population - TargetPopulation(t))
  }

  /** Nothing is left to be changed. */
  predicate Settled(t: Town)
  {
    LoyaltyGap(t) == 0 && PopulationGap(t) == 0 && t.gold == GoldRate(t.population, t.tax)
  }

  /** A tick changes nothing exactly when everything is at its target; below a maximum of 20 the population is
      stuck wherever it is. */
  lemma FixedExact(t: Town)
    requires Sane(t)
    ensures Next(t) == t <==>
            Settled(t) || (LoyaltyGap(t) == 0 && t.gold == GoldRate(t.population, t.tax) && t.max < 20)
  {
    hide TargetPopulation, TargetLoyalty, GoldRate;
  }

  /** The measure: a tick closes the loyalty gap by one; once it is closed, the population gap by a twentieth of
      the maximum, and it goes straight to the target. */
  lemma Closes(t: Town)
    requires Sane(t)
    ensures LoyaltyGap(Next(t)) == if LoyaltyGap(t) == 0 then 0 else LoyaltyGap(t) - 1
    ensures LoyaltyGap(t) == 0 ==>
      && PopulationGap(Next(t)) == (if PopulationGap(t) <= t.max / 20 then 0 else PopulationGap(t) - t.max / 20)
      && TargetPopulation(Next(t)) == TargetPopulation(t)
      && (t.population <= TargetPopulation(t) ==> t.population <= Next(t).population <= TargetPopulation(t))
      && (t.population >= TargetPopulation(t) ==> t.population >= Next(t).population >= TargetPopulation(t))
  {
    assert TargetLoyalty(Next(t)) == TargetLoyalty(t);
    assert LoyaltyGap(t) == 0 ==> Next(t).loyalty == t.loyalty;
    hide TargetPopulation, TargetLoyalty;
    if LoyaltyGap(t) == 0 { SameTarget(t, Next(t)); }
  }

  lemma SameTarget(t: Town, u: Town)
    requires u.max == t.max && u.loyalty == t.loyalty && u.grievance == t.grievance
    ensures TargetPopulation(u) == TargetPopulation(t)
  {
  }

  function Ticks(t: Town, n: nat): Town
    decreases n
  {
    if n == 0 then t else Ticks(Next(t), n - 1)
  }

  lemma {:induction false} TicksAdd(t: Town, m: nat, n: nat)
    ensures Ticks(Ticks(t, m), n) == Ticks(t, m + n)
    decreases m
  {
    if m > 0 { TicksAdd(Next(t), m - 1, n); }
  }

  lemma {:induction false} Kept(t: Town, n: nat)
    requires Sane(t)
    ensures var u := Ticks(t, n);
      Sane(u) && u.max == t.max && u.tax == t.tax && u.grievance == t.grievance
      && (t.population <= t.max ==> u.population <= u.max)
    decreases n
  {
    if n > 0 {
      NextSane(t);
      TargetWithin(t);
      hide TargetPopulation, TargetLoyalty, GoldRate;
      Kept(Next(t), n - 1);
    }
  }

  lemma {:induction false} LoyaltySettles(t: Town, n: nat)
    requires Sane(t) && n >= LoyaltyGap(t)
    ensures LoyaltyGap(Ticks(t, n)) == 0
    decreases n
  {
    hide LoyaltyGap, Next;
    if n > 0 {
      Closes(t);
      NextSane(t);
      LoyaltySettles(Next(t), n - 1);
    }
  }

  /** The number of steps of size `b` that cover `a`. */
  function Steps(a: nat, b: nat): nat
    requires b > 0
  {
    if a == 0 then 0 else if a <= b then 1 else 1 + Steps(a - b, b)
  }

  /** It is the quotient, rounded up. */
  lemma {:induction false} StepsCeil(a: nat, b: nat)
    requires b > 0
    ensures (Steps(a, b) - 1) * b < a <= Steps(a, b) * b || a == Steps(a, b) == 0
  {
    if a > b { StepsCeil(a - b, b); }
  }

  lemma {:induction false} StepsMonotone(a: nat, c: nat, b: nat)
    requires b > 0 && a <= c
    ensures Steps(a, b) <= Steps(c, b)
  {
    if a > b { StepsMonotone(a - b, c - b, b); }
  }

  lemma {:induction false} PopulationSettles(t: Town, n: nat)
    requires Sane(t) && t.max >= 20 && LoyaltyGap(t) == 0 && n >= Steps(PopulationGap(t), t.max / 20)
    ensures LoyaltyGap(Ticks(t, n)) == 0 && PopulationGap(Ticks(t, n)) == 0
    decreases n
  {
    Closes(t);
    hide LoyaltyGap, PopulationGap, Next;
    if n > 0 {
      NextSane(t);
      MaxStays(t);
      PopulationSettles(Next(t), n - 1);
    }
  }

  lemma MaxStays(t: Town)
    ensures Next(t).max == t.max
  {
  }

  /** Whatever the population was, loyalty reaches its target within 100 ticks and the population its own within
      as many more as it takes to cross the largest distance in steps of a twentieth; from then on nothing
      changes any more. The maximum must be at least 20, and always is at least 50. */
  lemma Converges(t: Town, n: nat)
    requires Sane(t) && t.max >= 20
    requires n >= 100 + Steps(if t.population > t.max then t.population else t.max, t.max / 20)
    ensures Settled(Ticks(t, n)) && Ticks(t, n + 1) == Ticks(t, n)
  {
    hide LoyaltyGap, PopulationGap, Next, TargetPopulation, TargetLoyalty, Steps, GoldRate;
    var u := Ticks(t, 100);
    GapsBounded(t);
    LoyaltySettles(t, 100);
    Kept(t, 100);
    Ceiling(t, 100);
    GapsBounded(u);
    StepsMonotone(PopulationGap(u), if t.population > t.max then t.population else t.max, t.max / 20);
    PopulationSettles(u, n - 100);
    TicksAdd(t, 100, n - 100);
    Stands(t, n);
  }

  /** Where a town ends up, in numbers: loyalty is what taxes and grievance leave of 100, and the population is that
      percentage of the maximum which loyalty and grievance come to, rounded down; the tax is taken from that. */
  lemma EndsAt(t: Town, n: nat)
    requires Sane(t) && t.max >= 20
    requires n >= 100 + Steps(if t.population > t.max then t.population else t.max, t.max / 20)
    ensures var u := Ticks(t, n);
      && u.max == t.max && u.tax == t.tax && u.grievance == t.grievance
      && u.loyalty == 100 - (if t.tax + t.grievance > 100 then 100 else t.tax + t.grievance)
      && (var percent := if u.loyalty + t.grievance > 100 then 100 else u.loyalty + t.grievance;
          100 * u.population <= t.max * percent < 100 * u.population + 100)
      && u.gold * 100.0 == (u.population * t.tax) as real
  {
    Converges(t, n);
    Kept(t, n);
    var u := Ticks(t, n);
    hide Ticks, Steps;
    TaxOf(u.population, u.tax);
    Hundredth(u);
    hide TargetPopulation, GoldRate;
  }

  lemma TaxOf(population: int, tax: int)
    ensures GoldRate(population, tax) * 100.0 == (population * tax) as real
  {
    var a, b := population as real, tax as real;
    assert b / 100.0 * 100.0 == b;
    assert a * (b / 100.0) * 100.0 == a * (b / 100.0 * 100.0);
    assert a * b == (population * tax) as real;
  }

  lemma Hundredth(t: Town)
    ensures var percent := if t.loyalty + t.grievance > 100 then 100 else t.loyalty + t.grievance;
      100 * TargetPopulation(t) <= t.max * percent < 100 * TargetPopulation(t) + 100
  {
    var percent := Min(100, t.loyalty + t.grievance);
    Percent(t.max * percent);
  }

  lemma Percent(a: int)
    ensures 100 * (a / 100) <= a < 100 * (a / 100) + 100
  {
  }

  /** More loyalty or grievance never drives people out; from 100 on the town is full, and at 0 it is empty. */
  lemma TargetGrows(t: Town, u: Town)
    requires t.max == u.max >= 0 && t.loyalty + t.grievance <= u.loyalty + u.grievance
    ensures TargetPopulation(t) <= TargetPopulation(u)
    ensures t.loyalty + t.grievance >= 100 ==> TargetPopulation(t) == t.max
    ensures t.loyalty + t.grievance == 0 ==> TargetPopulation(t) == 0
  {
    var a, b := Min(100, t.loyalty + t.grievance), Min(100, u.loyalty + u.grievance);
    Grows(t.max, a, b);
    Floor(t.max * a, t.max * b);
  }

  lemma Floor(a: int, b: int)
    requires a <= b
    ensures a / 100 <= b / 100
  {
  }

  /** So a town without taxes fills up, and one that they take everything from, with nothing to complain about, dies
      out. */
  lemma Extremes(t: Town, n: nat)
    requires Sane(t) && t.max >= 20
    requires n >= 100 + Steps(if t.population > t.max then t.population else t.max, t.max / 20)
    ensures t.tax == 0 ==> Ticks(t, n).population == t.max && Ticks(t, n).gold == 0.0
    ensures t.tax >= 100 && t.grievance == 0 ==> Ticks(t, n).population == 0 && Ticks(t, n).loyalty == 0
  {
    EndsAt(t, n);
    hide Ticks, Steps;
    if t.tax == 0 { assert Ticks(t, n).loyalty + t.grievance >= 100; }
  }

  lemma GapsBounded(t: Town)
    requires Sane(t)
    ensures LoyaltyGap(t) <= 100
    ensures PopulationGap(t) <= if t.population > t.max then t.population else t.max
  {
    TargetWithin(t);
    hide TargetPopulation, TargetLoyalty;
  }

  lemma Stands(t: Town, n: nat)
    requires Sane(t) && n > 0 && LoyaltyGap(Ticks(t, n)) == 0 && PopulationGap(Ticks(t, n)) == 0
    ensures Settled(Ticks(t, n)) && Ticks(t, n + 1) == Ticks(t, n)
  {
    hide LoyaltyGap, PopulationGap, Next, GoldRate;
    GoldSet(t, n);
    Kept(t, n);
    FixedExact(Ticks(t, n));
    TicksAdd(t, n, 1);
    assert Ticks(Ticks(t, n), 1) == Ticks(Next(Ticks(t, n)), 0) == Next(Ticks(t, n));
  }

  lemma {:induction false} Ceiling(t: Town, n: nat)
    requires Sane(t)
    ensures Ticks(t, n).population <= if t.population > t.max then t.population else t.max
    decreases n
  {
    if n > 0 {
      TargetWithin(t);
      NextSane(t);
      hide TargetPopulation, TargetLoyalty, GoldRate;
      Ceiling(Next(t), n - 1);
    }
  }

  lemma {:induction false} GoldSet(t: Town, n: nat)
    requires n > 0
    ensures var u := Ticks(t, n); u.gold == GoldRate(u.population, u.tax)
    decreases n
  {
    if n > 1 { GoldSet(Next(t), n - 1); }
    else { assert Ticks(t, 1) == Ticks(Next(t), 0) == Next(t); }
  }

  /** Once loyalty is at its target, the population never turns back. */
  lemma {:induction false} Monotone(t: Town, n: nat)
    requires Sane(t) && LoyaltyGap(t) == 0
    ensures t.population <= TargetPopulation(t) ==> t.population <= Ticks(t, n).population <= TargetPopulation(t)
    ensures t.population >= TargetPopulation(t) ==> t.population >= Ticks(t, n).population >= TargetPopulation(t)
    decreases n
  {
    hide LoyaltyGap, TargetPopulation, Next;
    if n > 0 {
      Closes(t);
      NextSane(t);
      Monotone(Next(t), n - 1);
    }
  }
}
