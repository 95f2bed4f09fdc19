/** Amounts of the five resources (`stResources` of src/structs.h; doubles as reals) and the integer prices
    of the configuration tables (`stBuildingConfig`). */
module Economy {

  datatype Kind = Gold | Food | Wood | Stone | Iron

  datatype Res = Res(gold: real, food: real, wood: real, stone: real, iron: real) {
    function Of(k: Kind): real
    {
      match k
      case Gold => gold
      case Food => food
      case Wood => wood
      case Stone => stone
      case Iron => iron
    }

    /** `operator +=`. */
    function Plus(b: Res): (r: Res)
      ensures forall k :: r.Of(k) == Of(k) + b.Of(k)
    {
      Res(gold + b.gold, food + b.food, wood + b.wood, stone + b.stone, iron + b.iron)
    }

    /** `operator -=`. */
    function Minus(b: Res): (r: Res)
      ensures forall k :: r.Of(k) == Of(k) - b.Of(k)
    {
      Res(gold - b.gold, food - b.food, wood - b.wood, stone - b.stone, iron - b.iron)
    }

    /** No component of the price exceeds what there is. */
    predicate Affords(price: Res)
      ensures Affords(price) <==> forall k :: price.Of(k) <= Of(k)
    {
      assert price.Of(Gold) == price.gold && price.Of(Food) == price.food && price.Of(Wood) == price.wood
             && price.Of(Stone) == price.stone && price.Of(Iron) == price.iron;
      assert Of(Gold) == gold && Of(Food) == food && Of(Wood) == wood && Of(Stone) == stone && Of(Iron) == iron;
      price.food <= food && price.wood <= wood && price.stone <= stone && price.iron <= iron && price.gold <= gold
    }
  }

  datatype Cost = Cost(gold: nat, food: nat, wood: nat, stone: nat, iron: nat) {
    function Of(k: Kind): nat
    {
      match k
      case Gold => gold
      case Food => food
      case Wood => wood
      case Stone => stone
      case Iron => iron
    }

    /** The price of `n` pieces. */
    function Times(n: int): (r: Res)
      ensures forall k :: r.Of(k) == (Of(k) * n) as real
    {
      Res((gold * n) as real, (food * n) as real, (wood * n) as real, (stone * n) as real, (iron * n) as real)
    }

    /** A third of the price of `n` pieces, in whole units. */
    function Third(n: int): (r: Res)
      ensures forall k :: r.Of(k) == Div3(Of(k) * n) as real
    {
      Res(Div3(gold * n) as real, Div3(food * n) as real, Div3(wood * n) as real, Div3(stone * n) as real,
          Div3(iron * n) as real)
    }

    /** A third of the price, fractions included. */
    function ExactThird(): (r: Res)
      ensures forall k :: r.Of(k) == Of(k) as real / 3.0
    {
      Res(gold as real / 3.0, food as real / 3.0, wood as real / 3.0, stone as real / 3.0, iron as real / 3.0)
    }
  }

  /** C++ division by three: towards zero. */
  function Div3(x: int): (r: int)
    ensures x >= 0 ==> 0 <= 3 * r <= x < 3 * r + 3
    ensures x <= 0 ==> x <= 3 * r <= 0
  {
    if x >= 0 then x / 3 else -(-x / 3)
  }
}
