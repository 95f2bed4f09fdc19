/** Heroes (src/packets/phero.cpp, `CreateRandomHero`): where attribute points come from and go to, what levels
    cost, and who is mayor. */
module HeroLedger {
  import opened Sequences

  datatype Stats = Stats(level: int, basemanagement: int, basepower: int, basestratagem: int,
                         management: int, power: int, stratagem: int, remainpoint: int,
                         experience: real, upgradeexp: int)

  /** Points are conserved: what the hero has is the three bases and one point for each level. */
  ghost predicate Balanced(s: Stats)
  {
    && s.level >= 1
    && s.power + s.management + s.stratagem + s.remainpoint
         == s.basepower + s.basemanagement + s.basestratagem + s.level
    && s.power >= s.basepower && s.management >= s.basemanagement && s.stratagem >= s.basestratagem
    && s.remainpoint >= 0
    && s.upgradeexp == 100 * s.level * s.level
  }

  // ---- Creation -------------------------------------------------------------------------------------

  /** The three numbers are what rand() gave for the level, the power and the management. */
  function Created(innlevel: int, r1: nat, r2: nat, r3: nat, basemanagement: int, basestratagem: int,
      basepower: int): Stats
    requires innlevel >= 1
  {
    var level := r1 % (innlevel * 5) + 1;
    var power := r2 % level;
    var management := r3 % (level - power);
    var stratagem := level - power - management;
    Stats(level, basemanagement, basepower, basestratagem,
          management + basemanagement, power + basepower, stratagem + basestratagem, 0, 0.0, 100 * level * level)
  }

  lemma CreatedBalanced(innlevel: int, r1: nat, r2: nat, r3: nat, basemanagement: int, basestratagem: int,
      basepower: int)
    requires innlevel >= 1
    ensures var s := Created(innlevel, r1, r2, r3, basemanagement, basestratagem, basepower);
      Balanced(s) && s.remainpoint == 0 && s.stratagem > s.basestratagem && 1 <= s.level <= 5 * innlevel
  {
  }

  /** Every level up to five times that of the inn can come up, with every distribution of it over the three stats that
      leaves something for the third. */
  lemma CreatedReaches(innlevel: int, level: int, power: nat, management: nat, basemanagement: int, basestratagem: int,
      basepower: int)
    requires innlevel >= 1 && 1 <= level <= 5 * innlevel && power + management < level
    ensures var s := Created(innlevel, level - 1, power, management, basemanagement, basestratagem, basepower);
      && s.level == level && s.power == basepower + power && s.management == basemanagement + management
      && s.stratagem == basestratagem + level - power - management
      && s.basepower == basepower && s.basemanagement == basemanagement && s.basestratagem == basestratagem
      && s.remainpoint == 0 && s.experience == 0.0 && s.upgradeexp == 100 * (level * level)
  {
    Small(level - 1, innlevel * 5);
    Small(power, level);
    Small(management, level - power);
    assert 100 * level * level == 100 * (level * level);
  }

  lemma Small(a: nat, b: nat)
    requires a < b
    ensures a % b == a
  {
  }

  // ---- Commands of one hero -------------------------------------------------------------------------

  datatype Command =
    | AddPoint(stratagem: int, power: int, management: int)
    | ResetPoint
    | LevelUp
    | Gain(experience: real)

  function Spend(s: Stats, stratagem: int, power: int, management: int): Stats
  {
    var all := s.basemanagement + s.basepower + s.basestratagem + s.level;
    if stratagem + power + management > all || stratagem < s.stratagem || power < s.power
        || management < s.management then s
    else s.(power := power, management := management, stratagem := stratagem,
            remainpoint := all - (stratagem + power + management))
  }

  function Reset(s: Stats): Stats
  {
    s.(power := s.basepower, management := s.basemanagement, stratagem := s.basestratagem, remainpoint := s.level)
  }

  function Raise(s: Stats): Stats
  {
    if s.experience < s.upgradeexp as real then s
    else s.(level := s.level + 1, remainpoint := s.remainpoint + 1, experience := s.experience - s.upgradeexp as real,
            upgradeexp := (s.level + 1) * (s.level + 1) * 100)
  }

  function Step(s: Stats, c: Command): Stats
  {
    match c
    case AddPoint(stratagem, power, management) => Spend(s, stratagem, power, management)
    case ResetPoint => Reset(s)
    case LevelUp => Raise(s)
    case Gain(e) => s.(experience := s.experience + e)
  }

  function Run(s: Stats, cs: seq<Command>): Stats
  {
    if cs == [] then s else Step(Run(s, cs[..|cs| - 1]), cs[|cs| - 1])
  }

  function Earned(cs: seq<Command>): real
  {
    if cs == [] then 0.0
    else Earned(cs[..|cs| - 1]) + match cs[|cs| - 1] case Gain(e) => e case _ => 0.0
  }

  /** The price of the levels from `a` up to `b`. */
  function LevelCost(a: int, b: int): int
    decreases b - a
  {
    if b <= a then 0 else LevelCost(a, b - 1) + 100 * (b - 1) * (b - 1)
  }

  ghost predicate Gains(cs: seq<Command>)
  {
    forall i | 0 <= i < |cs| && cs[i].Gain? :: cs[i].experience >= 0.0
  }

  /** Only spending that is allowed can move a stat, and only up. */
  lemma StepBalanced(s: Stats, c: Command)
    requires Balanced(s)
    ensures Balanced(Step(s, c))
    ensures s.level <= Step(s, c).level <= s.level + 1
    ensures c.AddPoint? ==> Step(s, c).remainpoint <= s.remainpoint
  {
  }

  /** Over every run, of rewards of any sign: points stay balanced, and all experience ever earned is either held or
      was paid for levels at 100*k*k each. */
  lemma {:induction false} RunBalanced(s: Stats, cs: seq<Command>)
    requires Balanced(s)
    ensures var r := Run(s, cs);
      && Balanced(r) && s.level <= r.level
      && r.basepower == s.basepower && r.basemanagement == s.basemanagement && r.basestratagem == s.basestratagem
      && s.experience + Earned(cs) == r.experience + LevelCost(s.level, r.level) as real
  {
    hide Balanced;
    if cs != [] {
      var n := |cs| - 1;
      RunBalanced(s, cs[..n]);
      var u := Run(s, cs[..n]);
      StepBalanced(u, cs[n]);
      Paid(u, cs[n]);
    }
  }

  /** Levels are never bought on credit: while rewards are not negative, neither is what the hero holds. */
  lemma {:induction false} ExperienceHeld(s: Stats, cs: seq<Command>)
    requires Balanced(s) && Gains(cs) && s.experience >= 0.0
    ensures Run(s, cs).experience >= 0.0
  {
    if cs != [] {
      var n := |cs| - 1;
      assert forall i | 0 <= i < n :: cs[..n][i] == cs[i];
      ExperienceHeld(s, cs[..n]);
    }
  }

  lemma Paid(s: Stats, c: Command)
    requires Balanced(s)
    ensures var r := Step(s, c);
      && s.experience + (match c case Gain(e) => e case _ => 0.0)
           == r.experience + (if r.level == s.level then 0.0 else (100 * s.level * s.level) as real)
      && r.basepower == s.basepower && r.basemanagement == s.basemanagement && r.basestratagem == s.basestratagem
  {
  }

  /** A level is bought exactly by a hero with enough experience: it takes 100 times the square of the old level, and
      gives one point. */
  lemma RaiseExact(s: Stats)
    requires Balanced(s)
    ensures var price := 100 * (s.level * s.level);
      Raise(s) == if s.experience < price as real then s
                  else Stats(s.level + 1, s.basemanagement, s.basepower, s.basestratagem, s.management, s.power,
                             s.stratagem, s.remainpoint + 1, s.experience - price as real,
                             100 * ((s.level + 1) * (s.level + 1)))
  {
    var n := s.level + 1;
    assert 100 * s.level * s.level == 100 * (s.level * s.level);
    assert n * n * 100 == 100 * (n * n);
  }

  /** Points are spent exactly when no stat falls and there are enough of them; the rest is kept. */
  lemma SpendExact(s: Stats, stratagem: int, power: int, management: int)
    requires Balanced(s)
    ensures var needed := (stratagem - s.stratagem) + (power - s.power) + (management - s.management);
      Spend(s, stratagem, power, management) ==
        if stratagem >= s.stratagem && power >= s.power && management >= s.management && needed <= s.remainpoint
        then Stats(s.level, s.basemanagement, s.basepower, s.basestratagem, management, power, stratagem,
                   s.remainpoint - needed, s.experience, s.upgradeexp)
        else s
  {
  }

  /** A reset gives back one point for each level. */
  lemma ResetExact(s: Stats)
    requires Balanced(s)
    ensures var freed := (s.stratagem - s.basestratagem) + (s.power - s.basepower) + (s.management - s.basemanagement);
      Reset(s) == Stats(s.level, s.basemanagement, s.basepower, s.basestratagem, s.basemanagement, s.basepower,
                        s.basestratagem, s.remainpoint + freed, s.experience, s.upgradeexp)
  {
  }

  /** Taking all points back and spending them again reaches any distribution above the bases that uses no more
      points than there are, and no other. */
  lemma ResetThenSpend(s: Stats, stratagem: int, power: int, management: int)
    requires Balanced(s)
    ensures var r := Spend(Reset(s), stratagem, power, management);
      (r.stratagem == stratagem && r.power == power && r.management == management) <==>
      (stratagem >= s.basestratagem && power >= s.basepower && management >= s.basemanagement
       && stratagem + power + management <= s.basestratagem + s.basepower + s.basemanagement + s.level)
  {
  }

  // ---- The heroes of a city -------------------------------------------------------------------------

  const IDLE := 0
  const MAYOR := 1

  class Hero {
    var name: string
    var id: int
    var status: int
    var level: int
    var basemanagement: int
    var basepower: int
    var basestratagem: int
    var management: int
    var power: int
    var stratagem: int
    var remainpoint: int
    var experience: real
    var upgradeexp: int

    ghost function View(): Stats
      reads this
    {
      Stats(level, basemanagement, basepower, basestratagem, management, power, stratagem, remainpoint, experience,
          upgradeexp)
    }

    /** `CreateRandomHero`; the remainder is used up step by step. */
    constructor (innlevel: int, r1: nat, r2: nat, r3: nat, bm: int, bs: int, bp: int, name: string)
      requires innlevel >= 1
      ensures View() == Created(innlevel, r1, r2, r3, bm, bs, bp) && status == IDLE && id == 0 && this.name == name
    {
      var lv := r1 % (innlevel * 5) + 1;
      var remainpoints := lv;
      var p := r2 % remainpoints;
      remainpoints := remainpoints - p;
      var m, st := 0, 0;
      if remainpoints > 0 {
        m := r3 % remainpoints;
        remainpoints := remainpoints - m;
        m := m + bm;
      }
      if remainpoints > 0 {
        st := remainpoints;
        remainpoints := remainpoints - st;
        st := st + bs;
      }
      this.name := name;
      id, status, level, basemanagement, basepower, basestratagem := 0, IDLE, lv, bm, bp, bs;
      management, power, stratagem, remainpoint := m, p + bp, st, 0;
      experience, upgradeexp := 0.0, lv * lv * 100;
    }

    method ResetPoint()
      modifies this
      ensures View() == Reset(old(View())) && id == old(id) && status == old(status)
    {
      power := basepower;
      management := basemanagement;
      stratagem := basestratagem;
      remainpoint := level;
    }

    method AddPoint(st: int, p: int, m: int)
      modifies this
      ensures View() == Spend(old(View()), st, p, m) && id == old(id) && status == old(status)
    {
      var all := basemanagement + basepower + basestratagem + level;
      if st + p + m > all || st < stratagem || p < power || m < management { return; }
      power := p;
      management := m;
      stratagem := st;
      remainpoint := all - (st + p + m);
    }

    method LevelUp()
      modifies this
      ensures View() == Raise(old(View())) && id == old(id) && status == old(status)
    {
      if experience < upgradeexp as real { return; }
      level := level + 1;
      remainpoint := remainpoint + 1;
      experience := experience - upgradeexp as real;
      upgradeexp := level * level * 100;
    }

    method Gain(gain: real)
      modifies this
      ensures View() == Step(old(View()), Command.Gain(gain)) && id == old(id) && status == old(status)
    {
      experience := experience + gain;
    }
  }

  function Count(s: seq<Hero?>): nat
  {
    if s == [] then 0 else Count(s[..|s| - 1]) + if s[|s| - 1] != null then 1 else 0
  }

  /** It is the number of slots that are taken. */
  lemma {:induction false} CountExact(s: seq<Hero?>)
    ensures Count(s) == |set i | 0 <= i < |s| && s[i] != null|
  {
    if s != [] {
      var n := |s| - 1;
      CountExact(s[..n]);
      var before, all := set i | 0 <= i < |s[..n]| && s[..n][i] != null, set i | 0 <= i < |s| && s[i] != null;
      assert all == before + if s[n] != null then {n} else {};
    }
  }

  /** The first empty slot, or -1. */
  function FirstFree(s: seq<Hero?>): (r: int)
    ensures -1 <= r < |s|
    ensures r >= 0 ==> s[r] == null && forall j | 0 <= j < r :: s[j] != null
    ensures r < 0 <==> forall j | 0 <= j < |s| :: s[j] != null
  {
    First(s, (h: Hero?) => h == null)
  }

  ghost predicate FirstNamed(s: seq<Hero?>, i: nat, name: string)
    reads set k | 0 <= k < |s| :: s[k]
  {
    && i < |s| && s[i] != null && s[i].name == name
    && forall j | 0 <= j < i && s[j] != null :: s[j].name != name
  }

  class HeroCity {
    var heroes: seq<Hero?>
    var mayor: Hero?
    var innheroes: seq<Hero?>
    var gold: real

    /** Ten slots, no hero in two of them, no id twice; the mayor is one of them, and the only one who has the
        mayor's status. Those in the inn are idle and different ones. */
    ghost predicate Valid()
      reads this, set i | 0 <= i < |heroes| :: heroes[i], set i | 0 <= i < |innheroes| :: innheroes[i]
    {
      && |innheroes| == 10
      && (forall i, j | 0 <= i < j < 10 && innheroes[i] != null :: innheroes[i] != innheroes[j])
      && (forall i | 0 <= i < 10 && innheroes[i] != null ::
            innheroes[i] !in heroes && Balanced(innheroes[i].View()) && innheroes[i].status == IDLE)
      && |heroes| == 10
      && (forall i, j | 0 <= i < j < 10 && heroes[i] != null && heroes[j] != null ::
            heroes[i] != heroes[j] && heroes[i].id != heroes[j].id)
      && (mayor != null ==> mayor in heroes)
      && (forall i | 0 <= i < 10 && heroes[i] != null ::
            Balanced(heroes[i].View()) && (heroes[i].status == MAYOR <==> heroes[i] == mayor))
    }

    constructor ()
      ensures Valid() && mayor == null && forall i | 0 <= i < 10 :: heroes[i] == null
    {
      heroes, mayor := seq(10, _ => null), null;
      innheroes, gold := seq(10, _ => null), 0.0;
    }

    /** The search that every command starts with: the first slot with this id, or -1. */
    method Find(heroid: int) returns (r: int)
      requires Valid()
      ensures -1 <= r < 10
      ensures r >= 0 ==> heroes[r] != null && heroes[r].id == heroid
      ensures r < 0 ==> forall i | 0 <= i < 10 && heroes[i] != null :: heroes[i].id != heroid
    {
      r := 0;
      while r < 10
        invariant 0 <= r <= 10
        invariant forall i | 0 <= i < r && heroes[i] != null :: heroes[i].id != heroid
      {
        if heroes[r] != null && heroes[r].id == heroid { return; }
        r := r + 1;
      }
      r := -1;
    }

    /** Everything about a hero but the status. */
    twostate predicate SameHero(i: nat)
      requires i < |heroes| && heroes == old(heroes) && heroes[i] != null
      reads this, heroes[i]
    {
      heroes[i].View() == old(heroes[i].View()) && heroes[i].id == old(heroes[i].id)
    }

    /** `promoteToChief`: the old mayor becomes idle. */
    /** The hero in slot `i` is mayor now, and nothing else has changed but the status of the one before. */
    twostate lemma Appointed(i: nat)
      requires old(Valid()) && heroes == old(heroes) && innheroes == old(innheroes)
      requires i < 10 && heroes[i] != null && mayor == heroes[i]
      requires forall k | 0 <= k < 10 && heroes[k] != null ::
        && heroes[k].View() == old(heroes[k].View()) && heroes[k].id == old(heroes[k].id)
        && heroes[k].status ==
             if k == i then MAYOR else if heroes[k] == old(mayor) then IDLE else old(heroes[k].status)
      requires forall k | 0 <= k < 10 && innheroes[k] != null ::
        innheroes[k].View() == old(innheroes[k].View()) && innheroes[k].status == old(innheroes[k].status)
      ensures Valid()
    {
      hide Balanced;
    }

    method PromoteToChief(heroid: int) returns (ok: bool)
      requires Valid()
      modifies this`mayor, set i | 0 <= i < |heroes| :: heroes[i]`status
      ensures Valid() && heroes == old(heroes)
      ensures forall i | 0 <= i < 10 && heroes[i] != null :: SameHero(i)
      ensures ok <==> exists i :: 0 <= i < 10 && heroes[i] != null && old(heroes[i].id) == heroid
      ensures if ok then mayor != null && mayor.id == heroid else mayor == old(mayor)
      ensures forall i | 0 <= i < 10 && heroes[i] != null && heroes[i] != mayor ::
                heroes[i].status == if heroes[i] == old(mayor) then IDLE else old(heroes[i].status)
    {
      hide Balanced;
      var i := Find(heroid);
      if i < 0 { return false; }
      if mayor != null { mayor.status := IDLE; }
      mayor := heroes[i];
      heroes[i].status := MAYOR;
      Appointed(i);
      return true;
    }

    method DischargeChief() returns (ok: bool)
      requires Valid()
      modifies this`mayor, if mayor == null then {} else {mayor}
      ensures Valid() && heroes == old(heroes) && mayor == null && (ok <==> old(mayor) != null)
      ensures forall i | 0 <= i < 10 && heroes[i] != null :: SameHero(i)
      ensures forall i | 0 <= i < 10 && heroes[i] != null ::
                heroes[i].status == if heroes[i] == old(mayor) then IDLE else old(heroes[i].status)
    {
      if mayor == null { return false; }
      mayor.status := IDLE;
      mayor := null;
      return true;
    }

    /** A mayor who is not in this slot is still there when the slot changes. */
    lemma Stays(i: nat, h: Hero?)
      requires i < |heroes| && (mayor != null ==> mayor in heroes && heroes[i] != mayor)
      ensures mayor != null ==> mayor in heroes[i := h]
    {
      if mayor != null {
        var k :| 0 <= k < |heroes| && heroes[k] == mayor;
        assert heroes[i := h][k] == mayor;
      }
    }

    /** `fireHero`: only an idle hero can go, and so never the mayor. */
    method FireHero(heroid: int) returns (ok: bool)
      requires Valid()
      modifies this`heroes
      ensures Valid() && mayor == old(mayor)
      ensures ok <==> exists i ::
                        && 0 <= i < 10 && old(heroes)[i] != null
                        && old(heroes)[i].id == heroid && old(heroes)[i].status == IDLE
      ensures forall i | 0 <= i < 10 ::
                heroes[i] ==
                  if ok && old(heroes)[i] != null && old(heroes)[i].id == heroid then null else old(heroes)[i]
    {
      var i := Find(heroid);
      if i >= 0 { assert forall k | 0 <= k < 10 && heroes[k] != null && heroes[k].id == heroid :: k == i; }
      if i < 0 || heroes[i].status != IDLE { return false; }
      assert heroes[i] != mayor;
      Stays(i, null);
      heroes := heroes[i := null];
      return true;
    }

    /** `HeroCount`. */
    method HeroCount() returns (count: int)
      requires Valid()
      ensures count == Count(heroes)
    {
      count := 0;
      for i := 0 to 10
        invariant count == Count(heroes[..i])
      {
        assert heroes[..i + 1][..i] == heroes[..i];
        if heroes[i] != null { count := count + 1; }
      }
      assert heroes[..10] == heroes;
    }

    /** The search in the inn. */
    method FindInn(name: string) returns (r: int)
      requires Valid()
      ensures -1 <= r < 10
      ensures r >= 0 ==> FirstNamed(innheroes, r, name)
      ensures r < 0 ==> forall i | 0 <= i < 10 && innheroes[i] != null :: innheroes[i].name != name
    {
      r := 0;
      while r < 10
        invariant 0 <= r <= 10
        invariant forall i | 0 <= i < r && innheroes[i] != null :: innheroes[i].name != name
      {
        if innheroes[r] != null && innheroes[r].name == name { return; }
        r := r + 1;
      }
      r := -1;
    }

    method FreeSlot() returns (x: int)
      requires Valid()
      ensures x == FirstFree(heroes)
    {
      x := 0;
      while x < 10
        invariant 0 <= x <= 10 && forall i | 0 <= i < x :: heroes[i] != null
      {
        if heroes[x] == null { return; }
        x := x + 1;
      }
      return -1;
    }

    /** From slot `i` of the inn to the free slot `x`. */
    method MoveIn(h: Hero, i: nat, x: nat, number: int)
      requires Valid() && i < 10 && x < 10 && innheroes[i] == h && heroes[x] == null
      requires forall k | 0 <= k < 10 && heroes[k] != null :: heroes[k].id != number
      modifies this`heroes, this`innheroes, h`id
      ensures Valid() && mayor == old(mayor) && gold == old(gold)
      ensures heroes == old(heroes)[x := h] && innheroes == old(innheroes)[i := null]
      ensures h.id == number && h.View() == old(h.View())
    {
      Stays(x, h);
      h.id := number;
      heroes := heroes[x := h];
      innheroes := innheroes[i := null];
      assert heroes[x] == h && h.View() == old(h.View());
      hide Balanced;
    }

    /** `hireHero`: `vacancies` is the level of the feasting hall, and `number` one that was not given before. The hero
        moves from slot `i` of the inn to the first free slot, for a thousand pieces of gold a level; `i` is -1 where
        nobody is hired. */
    method HireHero(name: string, vacancies: int, number: int) returns (i: int)
      requires Valid() && forall k | 0 <= k < 10 && heroes[k] != null :: heroes[k].id != number
      modifies this`heroes, this`innheroes, this`gold, set k | 0 <= k < |innheroes| :: innheroes[k]
      ensures Valid() && mayor == old(mayor) && -1 <= i < 10
      ensures i < 0 ==>
        && heroes == old(heroes) && innheroes == old(innheroes) && gold == old(gold)
        && (|| Count(heroes) >= vacancies || FirstFree(heroes) < 0
            || (forall k | 0 <= k < 10 && innheroes[k] != null :: innheroes[k].name != name)
            || exists k: nat | k < 10 && FirstNamed(innheroes, k, name) :: (innheroes[k].level * 1000) as real > gold)
      ensures i >= 0 ==>
        && Count(old(heroes)) < vacancies && FirstFree(old(heroes)) >= 0 && old(FirstNamed(innheroes, i, name))
        && heroes == old(heroes)[FirstFree(old(heroes)) := old(innheroes)[i]] && innheroes == old(innheroes)[i := null]
        && old(innheroes)[i].id == number && old(innheroes)[i].View() == old(innheroes[i].View())
        && (old(innheroes[i].level) * 1000) as real <= old(gold)
        && gold == old(gold) - (old(innheroes[i].level) * 1000) as real
    {
      hide Balanced, Count, FirstFree;
      var count := HeroCount();
      if vacancies <= count { return -1; }
      i := FindInn(name);
      if i < 0 { return; }
      var hirecost := innheroes[i].level * 1000;
      if hirecost as real > gold { return -1; }
      var x := FreeSlot();
      if x < 0 { return -1; }
      gold := gold - hirecost as real;
      MoveIn(innheroes[i], i, x, number);
    }

    method ResetPoint(heroid: int) returns (i: int)
      requires Valid()
      modifies set i | 0 <= i < |heroes| :: heroes[i]
      ensures Valid() && -1 <= i < 10
      ensures i < 0 <==> forall k | 0 <= k < 10 && heroes[k] != null ::
                           old(heroes[k].id) != heroid || old(heroes[k].status) > 1
      ensures i >= 0 ==> && heroes[i] != null && old(heroes[i].id) == heroid
                         && heroes[i].View() == Reset(old(heroes[i].View()))
      ensures forall k | 0 <= k < 10 && heroes[k] != null && k != i :: unchanged(heroes[k])
    {
      i := Find(heroid);
      if i < 0 { return; }
      if heroes[i].status > 1 {
        assert forall k | 0 <= k < 10 && heroes[k] != null && heroes[k].id == heroid :: k == i;
        return -1;
      }
      StepBalanced(heroes[i].View(), Command.ResetPoint);
      hide Balanced, Reset;
      heroes[i].ResetPoint();
    }

    method AddPoint(heroid: int, stratagem: int, power: int, management: int) returns (i: int)
      requires Valid()
      modifies set i | 0 <= i < |heroes| :: heroes[i]
      ensures Valid() && -1 <= i < 10
      ensures i < 0 <==> forall k | 0 <= k < 10 && heroes[k] != null :: old(heroes[k].id) != heroid
      ensures i >= 0 ==> heroes[i] != null && old(heroes[i].id) == heroid
                         && heroes[i].View() == Spend(old(heroes[i].View()), stratagem, power, management)
      ensures forall k | 0 <= k < 10 && heroes[k] != null && k != i :: unchanged(heroes[k])
    {
      i := Find(heroid);
      if i < 0 { return; }
      StepBalanced(heroes[i].View(), Command.AddPoint(stratagem, power, management));
      hide Balanced, Spend;
      heroes[i].AddPoint(stratagem, power, management);
    }

    method LevelUp(heroid: int) returns (i: int)
      requires Valid()
      modifies set i | 0 <= i < |heroes| :: heroes[i]
      ensures Valid() && -1 <= i < 10
      ensures i < 0 <==> forall k | 0 <= k < 10 && heroes[k] != null :: old(heroes[k].id) != heroid
      ensures i >= 0 ==> && heroes[i] != null && old(heroes[i].id) == heroid
                         && heroes[i].View() == Raise(old(heroes[i].View()))
      ensures forall k | 0 <= k < 10 && heroes[k] != null && k != i :: unchanged(heroes[k])
    {
      i := Find(heroid);
      if i < 0 { return; }
      StepBalanced(heroes[i].View(), Command.LevelUp);
      hide Balanced, Raise;
      heroes[i].LevelUp();
    }

    /** The timer's reward for the mayor when work is done. */
    method Reward(gain: real)
      requires Valid()
      modifies if mayor == null then {} else {mayor}
      ensures Valid()
      ensures mayor != null ==> mayor.View() == Step(old(mayor.View()), Gain(gain))
    {
      if mayor != null {
        StepBalanced(mayor.View(), Command.Gain(gain));
        hide Balanced;
        mayor.Gain(gain);
      }
    }
  }
}
