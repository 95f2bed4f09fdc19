/** The map's index of open tiles by zone (src/Map.cpp): the sixteen zones, the scan over the grid, and the tiles
    that are handed out to new players. */
module MapIndex {
  import opened Sequences

  const FLAT := 10
  const CASTLE := 11
  const ZONES := 16

  /** `m_type` and `m_ownerid` (-1 when nobody owns the tile). */
  datatype Tile = Tile(typ: int, owner: int)

  // ---- Zones ----------------------------------------------------------------------------------------

  /** Whether `v` lies in the quarter `q` of the map's side; in doubles, size*0.25*q <= v < size*0.25*(q+1). */
  predicate Quarter(size: nat, v: int, q: int)
  {
    q * size <= 4 * v < (q + 1) * size
  }

  /** The branches of the source. */
  function GetStateFromXY(size: nat, x: int, y: int): int
  {
    if y >= 0 && 4 * y < size then
      if x >= 0 && 4 * x < size then 0
      else if 4 * x >= size && 4 * x < 2 * size then 1
      else if 4 * x >= 2 * size && 4 * x < 3 * size then 2
      else if 4 * x >= 3 * size && x < size then 3
      else -1
    else if 4 * y >= size && 4 * y < 2 * size then
      if x >= 0 && 4 * x < size then 4
      else if 4 * x >= size && 4 * x < 2 * size then 5
      else if 4 * x >= 2 * size && 4 * x < 3 * size then 6
      else if 4 * x >= 3 * size && x < size then 7
      else -1
    else if 4 * y >= 2 * size && 4 * y < 3 * size then
      if x >= 0 && 4 * x < size then 8
      else if 4 * x >= size && 4 * x < 2 * size then 9
      else if 4 * x >= 2 * size && 4 * x < 3 * size then 10
      else if 4 * x >= 3 * size && x < size then 11
      else -1
    else if 4 * y >= 3 * size && y < size then
      if x >= 0 && 4 * x < size then 12
      else if 4 * x >= size && 4 * x < 2 * size then 13
      else if 4 * x >= 2 * size && 4 * x < 3 * size then 14
      else if 4 * x >= 3 * size && x < size then 15
      else -1
    else -1
  }

  lemma Scale(a: int, b: int, size: nat)
    ensures a <= b ==> a * size <= b * size
  {
    if a <= b { assert (b - a) * size >= 0; }
  }

  lemma QuarterIs(size: nat, v: nat)
    requires v < size
    ensures var q := 4 * v / size;
      0 <= q < 4 && Quarter(size, v, q) && forall p | 0 <= p < 4 && p != q :: !Quarter(size, v, p)
  {
    var q := 4 * v / size;
    QuarterOf(size, v, q);
    hide Quarter;
    forall p | 0 <= p < 4 && p != q ensures !Quarter(size, v, p) { OneQuarter(size, v, p, q); }
  }

  lemma QuarterOf(size: nat, v: nat, q: int)
    requires v < size && q == 4 * v / size
    ensures 0 <= q < 4 && Quarter(size, v, q)
  {
    assert 4 * v == q * size + 4 * v % size;
    Scale(4, q, size);
  }

  lemma OneQuarter(size: nat, v: int, p: int, q: int)
    requires Quarter(size, v, q) && p != q
    ensures !Quarter(size, v, p)
  {
    Scale(p + 1, q, size);
    Scale(q + 1, p, size);
  }

  /** Four zones to a row, row by row; off the map there is none. */
  lemma ZoneExact(size: nat, x: int, y: int)
    ensures GetStateFromXY(size, x, y) ==
      if 0 <= x < size && 0 <= y < size then 4 * (4 * y / size) + 4 * x / size else -1
  {
    if 0 <= x < size && 0 <= y < size {
      QuarterIs(size, x);
      QuarterIs(size, y);
      assert forall q | 0 <= q < 4 :: Quarter(size, x, q) <==> q == 4 * x / size;
      assert Quarter(size, x, 0) || Quarter(size, x, 1) || Quarter(size, x, 2) || Quarter(size, x, 3);
      assert Quarter(size, y, 0) || Quarter(size, y, 1) || Quarter(size, y, 2) || Quarter(size, y, 3);
    }
  }

  /** A 32-bit quotient cut down to 16 bits. */
  function Short(n: nat): int
  {
    var m := n % 0x1_0000;
    if m < 0x8000 then m else m - 0x1_0000
  }

  /** The id is taken apart unsigned, since the map's size is. */
  function GetStateFromID(size: nat, id: int): int
    requires size > 0 && -0x8000_0000 <= id < 0x8000_0000
  {
    var u: nat := if id < 0 then id + 0x1_0000_0000 else id;
    GetStateFromXY(size, Short(Rest(u, size)), Short(Quotient(u, size)))
  }

  function Rest(u: nat, size: nat): nat
    requires size > 0
  {
    u % size
  }

  function Quotient(u: nat, size: nat): nat
    requires size > 0
  {
    u / size
  }

  lemma StateOfTile(size: nat, x: nat, y: nat)
    requires x < size && y < size <= 0x8000 && y * size + x < 0x8000_0000
    ensures GetStateFromID(size, y * size + x) == GetStateFromXY(size, x, y)
  {
    hide GetStateFromXY;
    Apart(size, x, y);
    ShortIs(x);
    ShortIs(y);
    hide Short;
  }

  lemma ShortIs(n: nat)
    requires n < 0x8000
    ensures Short(n) == n
  {
  }

  lemma Apart(size: nat, x: nat, y: nat)
    requires x < size
    ensures (y * size + x) / size == y && (y * size + x) % size == x
  {
    var n := y * size + x;
    assert n == (n / size) * size + n % size;
    Scale(n / size + 1, y, size);
    Scale(y + 1, n / size, size);
  }

  lemma InZone(size: nat, x: nat, y: nat)
    requires x < size && y < size
    ensures 0 <= GetStateFromXY(size, x, y) < ZONES && ZoneOf(size, y * size + x) == GetStateFromXY(size, x, y)
  {
    ZoneExact(size, x, y);
    QuarterIs(size, x);
    QuarterIs(size, y);
    Apart(size, x, y);
    hide GetStateFromXY;
  }

  // ---- What the scan is to find ---------------------------------------------------------------------

  datatype Class = Open | Owned | City | Npc | Wild

  function ClassOf(t: Tile): Class
  {
    if t.typ < FLAT then Wild
    else if t.typ == FLAT then (if t.owner == -1 then Open else Owned)
    else if t.typ == CASTLE then City
    else Npc
  }

  /** In numbers: type 10 is flat land, open while nobody (-1) owns it, 11 a city, anything above an NPC. */
  lemma ClassTable(t: Tile)
    ensures ClassOf(t) == Open <==> t.typ == 10 && t.owner == -1
    ensures ClassOf(t) == Owned <==> t.typ == 10 && t.owner != -1
    ensures ClassOf(t) == City <==> t.typ == 11
    ensures ClassOf(t) == Npc <==> t.typ >= 12
  {
  }

  function ZoneOf(size: nat, id: nat): int
    requires size > 0
  {
    GetStateFromXY(size, id % size, id / size)
  }

  /** The first `n` tiles of this class and zone, in the order of their ids. */
  function Where(tiles: seq<Tile>, size: nat, zone: int, c: Class, n: nat): seq<int>
    requires n <= |tiles| && (n > 0 ==> size > 0)
  {
    if n == 0 then []
    else
      Where(tiles, size, zone, c, n - 1) +
        if ZoneOf(size, n - 1) == zone && ClassOf(tiles[n - 1]) == c then [n - 1] else []
  }

  /** Each such tile is listed, once, and nothing else is. */
  lemma {:induction false} WhereExact(tiles: seq<Tile>, size: nat, zone: int, c: Class, n: nat)
    requires n <= |tiles| && (n > 0 ==> size > 0)
    ensures var s := Where(tiles, size, zone, c, n);
      && (forall i, j | 0 <= i < j < |s| :: s[i] < s[j])
      && (forall i | 0 <= i < |s| :: 0 <= s[i] < n && ZoneOf(size, s[i]) == zone && ClassOf(tiles[s[i]]) == c)
      && (forall id | 0 <= id < n && ZoneOf(size, id) == zone && ClassOf(tiles[id]) == c :: id in s)
  {
    hide ZoneOf, ClassOf;
    if n > 0 {
      var s, t := Where(tiles, size, zone, c, n - 1), Where(tiles, size, zone, c, n);
      WhereExact(tiles, size, zone, c, n - 1);
      assert t == s + if ZoneOf(size, n - 1) == zone && ClassOf(tiles[n - 1]) == c then [n - 1] else [];
      hide Where;
      if ZoneOf(size, n - 1) == zone && ClassOf(tiles[n - 1]) == c {
        assert t[|s|] == n - 1;
        assert forall i | 0 <= i < |s| :: t[i] == s[i];
      } else {
        assert t == s;
      }
    }
  }

  /** The counters of a zone, and how they are to add up. */
  datatype Counters = Counters(open: seq<int>, total: seq<int>, npcs: seq<int>, cities: seq<int>,
                               occupied: seq<int>, occupiable: seq<int>, lists: seq<seq<int>>)

  predicate Sized(k: Counters)
  {
    |k.open| == |k.total| == |k.npcs| == |k.cities| == |k.occupied| == |k.occupiable| == |k.lists| == ZONES
  }

  ghost predicate CountedAt(k: Counters, tiles: seq<Tile>, size: nat, n: nat, zone: nat)
    requires Sized(k) && n <= |tiles| && (n > 0 ==> size > 0) && zone < ZONES
  {
    var owned := |Where(tiles, size, zone, Owned, n)|;
    && k.lists[zone] == Where(tiles, size, zone, Open, n)
    && k.open[zone] == |k.lists[zone]|
    && k.total[zone] == k.open[zone] + owned
    && k.cities[zone] == |Where(tiles, size, zone, City, n)|
    && k.npcs[zone] == |Where(tiles, size, zone, Npc, n)|
    && k.occupied[zone] == owned + k.cities[zone] + k.npcs[zone]
    && k.occupiable[zone] == k.open[zone] + k.occupied[zone]
  }

  ghost predicate Counted(k: Counters, tiles: seq<Tile>, size: nat, n: nat)
  {
    Sized(k) && n <= |tiles| && (n > 0 ==> size > 0) && forall z | 0 <= z < ZONES :: CountedAt(k, tiles, size, n, z)
  }

  lemma ClearCounted(k: Counters, tiles: seq<Tile>, size: nat)
    requires Sized(k) && k.lists == seq(ZONES, _ => [])
    requires k.open == k.total == k.npcs == k.cities == k.occupied == k.occupiable == seq(ZONES, _ => 0)
    ensures Counted(k, tiles, size, 0)
  {
  }

  /** What the loop body does with a tile of this zone. */
  function Add(k: Counters, t: Tile, zone: nat, id: int): Counters
    requires Sized(k) && zone < ZONES
  {
    if t.typ < FLAT then k
    else
      var k1 := k.(occupiable := k.occupiable[zone := k.occupiable[zone] + 1]);
      if t.typ == FLAT then
        var k2 := k1.(total := k1.total[zone := k1.total[zone] + 1]);
        if t.owner == -1 then
          k2.(open := k2.open[zone := k2.open[zone] + 1], lists := k2.lists[zone := k2.lists[zone] + [id]])
        else k2.(occupied := k2.occupied[zone := k2.occupied[zone] + 1])
      else
        var k2 := k1.(occupied := k1.occupied[zone := k1.occupied[zone] + 1]);
        if t.typ == CASTLE then k2.(cities := k2.cities[zone := k2.cities[zone] + 1])
        else k2.(npcs := k2.npcs[zone := k2.npcs[zone] + 1])
  }

  lemma AddCounts(k: Counters, tiles: seq<Tile>, size: nat, n: nat, zone: nat)
    requires Counted(k, tiles, size, n) && n < |tiles| && size > 0 && zone < ZONES && ZoneOf(size, n) == zone
    ensures Counted(Add(k, tiles[n], zone, n), tiles, size, n + 1)
  {
    hide ZoneOf;
    var r, m := Add(k, tiles[n], zone, n), n + 1;
    forall z | 0 <= z < ZONES ensures CountedAt(r, tiles, size, m, z) {
      assert CountedAt(k, tiles, size, n, z);
    }
  }

  // ---- The map --------------------------------------------------------------------------------------

  class Map {
    const mapsize: nat
    var tiles: seq<Tile>
    var openflats: seq<int>
    var totalflats: seq<int>
    var npcs: seq<int>
    var cities: seq<int>
    var occupiedtiles: seq<int>
    var occupiabletiles: seq<int>
    var openflatlist: seq<seq<int>>

    ghost function View(): Counters
      reads this
    {
      Counters(openflats, totalflats, npcs, cities, occupiedtiles, occupiabletiles, openflatlist)
    }

    ghost predicate Valid()
      reads this
    {
      Sized(View()) && |tiles| == mapsize * mapsize
    }

    constructor (size: nat, t: seq<Tile>)
      requires |t| == size * size
      ensures Valid() && mapsize == size && tiles == t
    {
      mapsize, tiles := size, t;
      openflats, totalflats, npcs, cities := seq(ZONES, _ => 0), seq(ZONES, _ => 0), seq(ZONES, _ => 0),
          seq(ZONES, _ => 0);
      occupiedtiles, occupiabletiles, openflatlist := seq(ZONES, _ => 0), seq(ZONES, _ => 0), seq(ZONES, _ => []);
    }

    /** One turn of the inner loop. */
    method Visit(x: nat, y: nat, ghost n: nat)
      requires Valid() && x < mapsize && y < mapsize && n == y * mapsize + x < |tiles|
      requires Counted(View(), tiles, mapsize, n)
      modifies this
      ensures Valid() && tiles == old(tiles) && Counted(View(), tiles, mapsize, n + 1)
    {
      hide GetStateFromXY, Counted, ZoneOf;
      InZone(mapsize, x, y);
      var state := GetStateFromXY(mapsize, x, y);
      AddCounts(View(), tiles, mapsize, n, state);
      var t := tiles[y * mapsize + x];
      if t.typ >= FLAT {
        occupiabletiles := occupiabletiles[state := occupiabletiles[state] + 1];
        if t.typ == FLAT {
          totalflats := totalflats[state := totalflats[state] + 1];
          if t.owner == -1 {
            openflats := openflats[state := openflats[state] + 1];
            openflatlist := openflatlist[state := openflatlist[state] + [y * mapsize + x]];
          } else {
            occupiedtiles := occupiedtiles[state := occupiedtiles[state] + 1];
          }
        } else {
          occupiedtiles := occupiedtiles[state := occupiedtiles[state] + 1];
          if t.typ == CASTLE { cities := cities[state := cities[state] + 1]; }
          else { npcs := npcs[state := npcs[state] + 1]; }
        }
      }
      assert View() == Add(old(View()), t, state, n);
    }

    method Clear()
      requires Valid()
      modifies this
      ensures Valid() && tiles == old(tiles) && Counted(View(), tiles, mapsize, 0)
    {
      openflats, totalflats, npcs, cities := seq(ZONES, _ => 0), seq(ZONES, _ => 0), seq(ZONES, _ => 0),
          seq(ZONES, _ => 0);
      occupiedtiles, occupiabletiles, openflatlist := seq(ZONES, _ => 0), seq(ZONES, _ => 0), seq(ZONES, _ => []);
      ClearCounted(View(), tiles, mapsize);
    }

    method CalculateOpenTiles()
      requires Valid()
      modifies this
      ensures Valid() && tiles == old(tiles) && Counted(View(), tiles, mapsize, |tiles|)
    {
      hide Counted;
      Clear();
      var y := 0;
      while y < mapsize
        invariant 0 <= y <= mapsize && Valid() && tiles == old(tiles)
        invariant y * mapsize <= |tiles| && Counted(View(), tiles, mapsize, y * mapsize)
      {
        VisitRow(y, y * mapsize);
        Below(mapsize, y, mapsize);
        y := y + 1;
      }
    }

    /** The inner loop. */
    method VisitRow(y: nat, ghost n: nat)
      requires Valid() && y < mapsize && n == y * mapsize <= |tiles| && Counted(View(), tiles, mapsize, n)
      modifies this
      ensures Valid() && tiles == old(tiles) && n + mapsize <= |tiles| && Counted(View(), tiles, mapsize, n + mapsize)
    {
      hide Counted;
      Below(mapsize, y, mapsize);
      var x := 0;
      while x < mapsize
        invariant 0 <= x <= mapsize && Valid() && tiles == old(tiles)
        invariant Counted(View(), tiles, mapsize, n + x)
      {
        Visit(x, y, n + x);
        x := x + 1;
      }
    }

    /** `rand` is what rand() gave. */
    method GetRandomOpenTile(zone: nat, rand: nat) returns (r: int)
      requires Valid() && zone < ZONES
      modifies this`openflatlist
      ensures Valid()
      ensures var p := Draw(Pool(openflats[zone], old(openflatlist)[zone]), rand);
        r == p.1 && openflatlist == old(openflatlist)[zone := p.0.list]
    {
      if openflats[zone] == 0 || |openflatlist[zone]| == 0 { return -1; }
      var index := rand % |openflatlist[zone]|;
      r := openflatlist[zone][index];
      openflatlist := openflatlist[zone := openflatlist[zone][..index] + openflatlist[zone][index + 1..]];
    }

    /** The part of `createNewPlayer` and `AddPlayerCity` that touches the map. `stored` tells whether the database
        took the account and the city. */
    method NewPlayer(zone: int, rand: nat, account: int, stored: bool) returns (reply: Reply)
      requires Valid() && mapsize > 0
      modifies this
      ensures Valid()
      ensures (Chart(tiles, View()), reply) == Player(mapsize, old(Chart(tiles, View())), zone, rand, account, stored)
    {
      if zone < 0 || zone > 15 { return Invalid; }
      if openflats[zone] <= 0 { return Full; }
      openflats := openflats[zone := openflats[zone] - 1];
      var id := GetRandomOpenTile(zone, rand);
      if id < 0 || id >= |tiles| || tiles[id].typ != FLAT || tiles[id].owner != -1 { return Failed; }
      if !stored { return Failed; }
      tiles := tiles[id := Tile(CASTLE, account)];
      CalculateOpenTiles();
      CountedIsScan(View(), tiles, mapsize);
      return Given(id);
    }
  }

  lemma Below(size: nat, y: nat, x: nat)
    requires y < size && x <= size
    ensures y * size + x <= size * size && (y + 1) * size == y * size + size
  {
    assert (y + 1) * size <= size * size;
  }

  // ---- Handing out tiles ----------------------------------------------------------------------------

  /** A zone's counter and list of open tiles. */
  datatype Pool = Pool(count: int, list: seq<int>)

  function Erase(s: seq<int>, i: nat): (r: seq<int>)
    requires i < |s|
  {
    s[..i] + s[i + 1..]
  }

  function Draw(p: Pool, rand: nat): (Pool, int)
  {
    if p.count == 0 || |p.list| == 0 then (p, -1)
    else (p.(list := Erase(p.list, rand % |p.list|)), p.list[rand % |p.list|])
  }

  function Draws(p: Pool, rands: seq<nat>): seq<int>
    decreases |rands|
  {
    if rands == [] then [] else [Draw(p, rands[0]).1] + Draws(Draw(p, rands[0]).0, rands[1..])
  }

  lemma EraseExact(s: seq<int>, i: nat)
    requires Distinct(s) && i < |s|
    ensures var r := Erase(s, i);
      |r| == |s| - 1 && Distinct(r) && s[i] !in r && forall x :: x in r <==> x in s && x != s[i]
  {
    var r := Erase(s, i);
    assert forall k {:trigger r[k]} | 0 <= k < |r| :: r[k] == s[if k < i then k else k + 1];
    forall x | x in s && x != s[i] ensures x in r {
      var k :| 0 <= k < |s| && s[k] == x;
      assert r[if k < i then k else k - 1] == x;
    }
  }

  /** Draws give distinct open tiles as long as there are any, and -1 from then on. */
  lemma {:induction false} DrawsExact(p: Pool, rands: seq<nat>)
    requires Distinct(p.list) && -1 !in p.list && p.count >= 0 && (p.count == 0 ==> p.list == [])
    ensures var d := Draws(p, rands);
      && |d| == |rands|
      && (forall i | 0 <= i < |d| :: if i < |p.list| then d[i] in p.list else d[i] == -1)
      && (forall i, j | 0 <= i < j < |d| && j < |p.list| :: d[i] != d[j])
    decreases |rands|
  {
    if rands != [] {
      var q := Draw(p, rands[0]);
      if p.list != [] { EraseExact(p.list, rands[0] % |p.list|); }
      DrawsExact(q.0, rands[1..]);
      DrawsFirst(p, q.0, q.1, Draws(q.0, rands[1..]));
    }
  }

  lemma DrawsFirst(p: Pool, q: Pool, first: int, rest: seq<int>)
    requires if p.list == [] then first == -1 && q.list == []
             else && |q.list| == |p.list| - 1 && first in p.list && first !in q.list
                  && (forall x | x in q.list :: x in p.list)
    requires forall i | 0 <= i < |rest| :: if i < |q.list| then rest[i] in q.list else rest[i] == -1
    requires forall i, j | 0 <= i < j < |rest| && j < |q.list| :: rest[i] != rest[j]
    ensures var d := [first] + rest;
      && (forall i | 0 <= i < |d| :: if i < |p.list| then d[i] in p.list else d[i] == -1)
      && (forall i, j | 0 <= i < j < |d| && j < |p.list| :: d[i] != d[j])
  {
    var d := [first] + rest;
    assert forall i | 1 <= i < |d| :: d[i] == rest[i - 1];
  }

  // ---- The index stays what a new scan would find ----------------------------------------------------

  function Without(s: seq<int>, id: int): seq<int>
  {
    if s == [] then [] else Without(s[..|s| - 1], id) + if s[|s| - 1] == id then [] else [s[|s| - 1]]
  }

  lemma WithoutAppend(s: seq<int>, x: int, id: int)
    ensures Without(s + [x], id) == Without(s, id) + if x == id then [] else [x]
  {
    assert (s + [x])[..|s|] == s;
  }

  lemma {:induction false} WithoutIsErase(s: seq<int>, i: nat)
    requires Distinct(s) && i < |s|
    ensures Without(s, s[i]) == Erase(s, i)
  {
    var n := |s| - 1;
    if i == n { WithoutAbsent(s[..n], s[n]); }
    else {
      WithoutIsErase(s[..n], i);
      assert Erase(s, i) == Erase(s[..n], i) + [s[n]];
    }
  }

  lemma {:induction false} WithoutAbsent(s: seq<int>, id: int)
    requires id !in s
    ensures Without(s, id) == s
  {
    if s != [] { WithoutAbsent(s[..|s| - 1], id); }
  }

  /** A tile that is no longer open drops out of its list; the others stay in order. */
  lemma {:induction false} Rescan(tiles: seq<Tile>, size: nat, zone: int, id: nat, t: Tile, n: nat)
    requires id < |tiles| && n <= |tiles| && (n > 0 ==> size > 0) && ClassOf(t) != Open
    ensures Where(tiles[id := t], size, zone, Open, n) == Without(Where(tiles, size, zone, Open, n), id)
  {
    hide ZoneOf, ClassOf;
    if n > 0 {
      hide Without;
      Rescan(tiles, size, zone, id, t, n - 1);
      var before, after := Where(tiles, size, zone, Open, n - 1), Where(tiles[id := t], size, zone, Open, n - 1);
      assert tiles[id := t][n - 1] == if n - 1 == id then t else tiles[n - 1];
      WithoutAppend(before, n - 1, id);
      assert before + [] == before && after + [] == after;
    }
  }

  lemma Listed(tiles: seq<Tile>, size: nat, zone: int)
    requires size > 0
    ensures var s := Where(tiles, size, zone, Open, |tiles|);
      Distinct(s) && forall i | 0 <= i < |s| ::
        0 <= s[i] < |tiles| && ZoneOf(size, s[i]) == zone && ClassOf(tiles[s[i]]) == Open
  {
    WhereExact(tiles, size, zone, Open, |tiles|);
  }

  /** What the scan makes of the lists when a tile has been given away is what the draw has made of them. */
  lemma GivenAway(tiles: seq<Tile>, size: nat, zone: nat, list: seq<int>, i: nat, account: int, z: nat)
    requires size > 0 && list == Where(tiles, size, zone, Open, |tiles|) && i < |list| && 0 <= list[i] < |tiles|
    ensures Where(tiles[list[i] := Tile(CASTLE, account)], size, z, Open, |tiles|) ==
            if z == zone then Erase(list, i) else Where(tiles, size, z, Open, |tiles|)
  {
    hide Where, ZoneOf, Without, Erase;
    Listed(tiles, size, zone);
    Listed(tiles, size, z);
    var id := list[i];
    Rescan(tiles, size, z, id, Tile(CASTLE, account), |tiles|);
    assert Where(tiles[id := Tile(CASTLE, account)], size, z, Open, |tiles|)
        == Without(Where(tiles, size, z, Open, |tiles|), id);
    if z == zone { WithoutIsErase(list, i); }
    else { WithoutAbsent(Where(tiles, size, z, Open, |tiles|), list[i]); }
  }

  // ---- New players ----------------------------------------------------------------------------------

  /** The whole state of the map. */
  datatype Chart = Chart(tiles: seq<Tile>, k: Counters)

  /** A player gets a tile, is refused, or is let in and then fails. */
  datatype Reply = Invalid | Full | Failed | Given(id: nat)

  function Held(tiles: seq<Tile>, size: nat, zone: int): int
    requires size > 0
  {
    |Where(tiles, size, zone, Owned, |tiles|)|
  }

  function Cities(tiles: seq<Tile>, size: nat, zone: int): int
    requires size > 0
  {
    |Where(tiles, size, zone, City, |tiles|)|
  }

  function Npcs(tiles: seq<Tile>, size: nat, zone: int): int
    requires size > 0
  {
    |Where(tiles, size, zone, Npc, |tiles|)|
  }

  function OpenTiles(tiles: seq<Tile>, size: nat, zone: int): seq<int>
    requires size > 0
  {
    Where(tiles, size, zone, Open, |tiles|)
  }

  /** All counters and lists as a scan leaves them. */
  function Scan(tiles: seq<Tile>, size: nat): Counters
    requires size > 0
  {
    Counters(seq(ZONES, z => |OpenTiles(tiles, size, z)|),
             seq(ZONES, z => |OpenTiles(tiles, size, z)| + Held(tiles, size, z)),
             seq(ZONES, z => Npcs(tiles, size, z)),
             seq(ZONES, z => Cities(tiles, size, z)),
             seq(ZONES, z => Held(tiles, size, z) + Cities(tiles, size, z) + Npcs(tiles, size, z)),
             seq(ZONES, z => |OpenTiles(tiles, size, z)|
                               + Held(tiles, size, z) + Cities(tiles, size, z) + Npcs(tiles, size, z)),
             seq(ZONES, z => OpenTiles(tiles, size, z)))
  }

  lemma CountedIsScan(k: Counters, tiles: seq<Tile>, size: nat)
    requires size > 0
    ensures Counted(k, tiles, size, |tiles|) <==> k == Scan(tiles, size)
  {
    var r := Scan(tiles, size);
    ScanCounted(tiles, size);
    hide Where;
    if Counted(k, tiles, size, |tiles|) {
      forall z | 0 <= z < ZONES
        ensures k.open[z] == r.open[z] && k.total[z] == r.total[z] && k.npcs[z] == r.npcs[z]
        ensures k.cities[z] == r.cities[z]
        ensures k.occupied[z] == r.occupied[z] && k.occupiable[z] == r.occupiable[z] && k.lists[z] == r.lists[z]
      {
        assert CountedAt(k, tiles, size, |tiles|, z);
      }
      assert k.open == r.open && k.total == r.total && k.npcs == r.npcs && k.cities == r.cities;
      assert k.occupied == r.occupied && k.occupiable == r.occupiable && k.lists == r.lists;
    }
  }

  lemma ScanCounted(tiles: seq<Tile>, size: nat)
    requires size > 0
    ensures Counted(Scan(tiles, size), tiles, size, |tiles|)
  {
    hide Where;
    assert forall z | 0 <= z < ZONES :: CountedAt(Scan(tiles, size), tiles, size, |tiles|, z);
  }

  /** The counter goes down before the tile is drawn, and a player who gets one has the map scanned anew. */
  function Player(size: nat, s: Chart, zone: int, rand: nat, account: int, stored: bool): (Chart, Reply)
    requires size > 0 && Sized(s.k)
  {
    if zone < 0 || zone > 15 then (s, Invalid)
    else if s.k.open[zone] <= 0 then (s, Full)
    else
      var p := Draw(Pool(s.k.open[zone] - 1, s.k.lists[zone]), rand);
      var k := s.k.(open := s.k.open[zone := p.0.count], lists := s.k.lists[zone := p.0.list]);
      var id := p.1;
      if id < 0 || id >= |s.tiles| || ClassOf(s.tiles[id]) != Open || !stored then (Chart(s.tiles, k), Failed)
      else
        var tiles := s.tiles[id := Tile(CASTLE, account)];
        (Chart(tiles, Scan(tiles, size)), Given(id))
  }

  /** A zone's list holds open tiles of the zone, once each, and its counter says how many; but for a zone with one
      tile left whose counter is down to zero. */
  ghost predicate IndexedAt(s: Chart, size: nat, z: nat)
    requires size > 0 && Sized(s.k) && z < ZONES
  {
    var list := s.k.lists[z];
    && Distinct(list)
    && (forall id | id in list :: 0 <= id < |s.tiles| && ZoneOf(size, id) == z && ClassOf(s.tiles[id]) == Open)
    && (s.k.open[z] == |list| || (s.k.open[z] == 0 && |list| == 1))
  }

  ghost predicate Indexed(s: Chart, size: nat)
    requires size > 0
  {
    Sized(s.k) && forall z | 0 <= z < ZONES :: IndexedAt(s, size, z)
  }

  /** The lists are those of a new scan. */
  ghost predicate Fresh(s: Chart, size: nat)
    requires size > 0
  {
    Sized(s.k) && forall z | 0 <= z < ZONES :: s.k.lists[z] == OpenTiles(s.tiles, size, z)
  }

  lemma ScanIndexed(tiles: seq<Tile>, size: nat)
    requires size > 0
    ensures Indexed(Chart(tiles, Scan(tiles, size)), size) && Fresh(Chart(tiles, Scan(tiles, size)), size)
  {
    var s := Chart(tiles, Scan(tiles, size));
    forall z | 0 <= z < ZONES ensures IndexedAt(s, size, z) {
      Listed(tiles, size, z);
      hide Where, ZoneOf, ClassOf;
    }
  }

  /** What a draw with the counter taken down gives: a tile of the list, but not its last one. */
  lemma Drawn(size: nat, s: Chart, z: nat, rand: nat)
    requires size > 0 && Sized(s.k) && z < ZONES && IndexedAt(s, size, z) && s.k.open[z] > 0
    ensures var list := s.k.lists[z];
      var p := Draw(Pool(s.k.open[z] - 1, list), rand);
      if |list| >= 2
      then && p.0.count == |p.0.list| == |list| - 1 && Distinct(p.0.list) && (forall id | id in p.0.list :: id in list)
           && p.1 in list && 0 <= p.1 < |s.tiles| && ZoneOf(size, p.1) == z && ClassOf(s.tiles[p.1]) == Open
      else p.1 == -1 && p.0.list == list && |list| == 1 && p.0.count == 0
  {
    hide ZoneOf, ClassOf, Erase;
    var list := s.k.lists[z];
    if |list| >= 2 {
      EraseExact(list, rand % |list|);
      assert list[rand % |list|] in list;
    }
  }

  /** Only one zone's counter and list have changed. */
  lemma Leaves(size: nat, s: Chart, t: Chart, zone: nat, p: Pool)
    requires size > 0 && Indexed(s, size) && zone < ZONES
    requires t == s.(k := s.k.(open := s.k.open[zone := p.count], lists := s.k.lists[zone := p.list]))
    requires Distinct(p.list) && forall id | id in p.list :: id in s.k.lists[zone]
    requires p.count == |p.list| || (p.count == 0 && |p.list| == 1)
    ensures Indexed(t, size)
  {
    hide ZoneOf, ClassOf;
    forall z | 0 <= z < ZONES ensures IndexedAt(t, size, z) { assert IndexedAt(s, size, z); }
  }

  /** One player: who gets a tile, which one, and what is kept. */
  lemma PlayerStep(size: nat, s: Chart, zone: int, rand: nat, account: int, stored: bool)
    requires size > 0 && Indexed(s, size)
    ensures var t := Player(size, s, zone, rand, account, stored);
      && Indexed(t.0, size) && |t.0.tiles| == |s.tiles|
      && (t.1.Given? <==> stored && 0 <= zone < ZONES && |s.k.lists[zone]| >= 2)
      && (t.1 == Full <==> 0 <= zone < ZONES && s.k.open[zone] == 0)
      && (if t.1.Given?
          then && t.1.id < |s.tiles| && ZoneOf(size, t.1.id) == zone && ClassOf(s.tiles[t.1.id]) == Open
               && t.0.tiles == s.tiles[t.1.id := Tile(CASTLE, account)] && t.0.k == Scan(t.0.tiles, size)
          else t.0.tiles == s.tiles && (stored ==> t.0.k.lists == s.k.lists))
  {
    if 0 <= zone < ZONES {
      assert IndexedAt(s, size, zone);
      if s.k.open[zone] > 0 {
        Drawn(size, s, zone, rand);
        var t := Player(size, s, zone, rand, account, stored).0;
        hide ZoneOf, ClassOf, Scan, Draw, Indexed, IndexedAt;
        if stored && |s.k.lists[zone]| >= 2 {
          ScanIndexed(t.tiles, size);
        } else {
          var p := Draw(Pool(s.k.open[zone] - 1, s.k.lists[zone]), rand).0;
          Leaves(size, s, t, zone, p);
          assert s.k.lists[zone := s.k.lists[zone]] == s.k.lists;
        }
      }
    }
  }

  /** The same in fields: which tile is drawn, that the counter goes down for every player who is let in, and that a
      tile which the database did not take stays out of the list until the next scan. */
  lemma PlayerExact(size: nat, s: Chart, zone: int, rand: nat, account: int, stored: bool)
    requires size > 0 && Indexed(s, size)
    ensures Player(size, s, zone, rand, account, stored) ==
      if zone < 0 || zone > 15 then (s, Invalid)
      else if s.k.open[zone] == 0 then (s, Full)
      else if |s.k.lists[zone]| <= 1 then (s.(k := s.k.(open := s.k.open[zone := 0])), Failed)
      else
        var list := s.k.lists[zone];
        var j := rand % |list|;
        if stored && 0 <= list[j] < |s.tiles| then
          var tiles := s.tiles[list[j] := Tile(11, account)];
          (Chart(tiles, Scan(tiles, size)), Given(list[j]))
        else
          (s.(k := s.k.(open := s.k.open[zone := |list| - 1],
                        lists := s.k.lists[zone := list[..j] + list[j + 1..]])), Failed)
  {
    if 0 <= zone <= 15 {
      assert IndexedAt(s, size, zone);
      var list := s.k.lists[zone];
      if s.k.open[zone] > 0 {
        Drawn(size, s, zone, rand);
        assert s.k.lists[zone := list] == s.k.lists;
      }
      hide Scan, ClassOf, ZoneOf, Indexed, IndexedAt;
    }
  }

  /** The packet of a player who wants to begin. */
  datatype Arrival = Arrival(zone: int, rand: nat, account: int, stored: bool)

  function Arrive(size: nat, s: Chart, a: Arrival): (Chart, Reply)
    requires size > 0 && Sized(s.k)
  {
    Player(size, s, a.zone, a.rand, a.account, a.stored)
  }

  lemma ArriveSized(size: nat, s: Chart, a: Arrival)
    requires size > 0 && Sized(s.k)
    ensures Sized(Arrive(size, s, a).0.k)
  {
    hide Where;
  }

  /** The map after these players, and what they were told. */
  function Arrivals(size: nat, s: Chart, run: seq<Arrival>): (r: (Chart, seq<Reply>))
    requires size > 0 && Sized(s.k)
    ensures Sized(r.0.k) && |r.1| == |run|
    decreases |run|
  {
    if run == [] then (s, [])
    else
      var before := Arrivals(size, s, run[..|run| - 1]);
      ArriveSized(size, before.0, run[|run| - 1]);
      var last := Arrive(size, before.0, run[|run| - 1]);
      (last.0, before.1 + [last.1])
  }

  /** The tiles that have been given out are castles now; all others are as they were. */
  ghost predicate Accounted(s: Chart, t: Chart, replies: seq<Reply>)
  {
    && |t.tiles| == |s.tiles|
    && (forall id | 0 <= id < |s.tiles| :: t.tiles[id] == s.tiles[id] || Given(id) in replies)
    && (forall i | 0 <= i < |replies| && replies[i].Given? ::
          && replies[i].id < |s.tiles| && ClassOf(s.tiles[replies[i].id]) == Open
          && ClassOf(t.tiles[replies[i].id]) == City)
    && (forall i, j | 0 <= i < j < |replies| && replies[i].Given? :: replies[i] != replies[j])
  }

  lemma AccountedMore(s: Chart, t: Chart, u: Chart, replies: seq<Reply>, r: Reply, account: int)
    requires Accounted(s, t, replies)
    requires if r.Given?
             then && r.id < |t.tiles| && ClassOf(t.tiles[r.id]) == Open
                  && u.tiles == t.tiles[r.id := Tile(CASTLE, account)]
             else u.tiles == t.tiles
    ensures Accounted(s, u, replies + [r])
  {
    var all := replies + [r];
    assert forall i | 0 <= i < |replies| :: all[i] == replies[i];
    assert all[|replies|] == r;
    forall id | 0 <= id < |s.tiles| && u.tiles[id] != s.tiles[id] ensures Given(id) in all {
      if t.tiles[id] == s.tiles[id] { assert r == Given(id); }
    }
  }

  /** Each got his tile in the zone he asked for. */
  ghost predicate InZones(size: nat, run: seq<Arrival>, replies: seq<Reply>)
    requires size > 0 && |replies| == |run|
  {
    forall i | 0 <= i < |run| && replies[i].Given? :: ZoneOf(size, replies[i].id) == run[i].zone
  }

  lemma InZonesMore(size: nat, run: seq<Arrival>, replies: seq<Reply>, r: Reply)
    requires size > 0 && run != [] && |replies| == |run| - 1 && InZones(size, run[..|run| - 1], replies)
    requires r.Given? ==> ZoneOf(size, r.id) == run[|run| - 1].zone
    ensures InZones(size, run, replies + [r])
  {
    hide ZoneOf;
  }

  /** Over every run of players in all zones: lists keep open tiles of their zones only, each counter says how many or
      is zero with one tile left, and no tile is given twice or to a player of another zone. While the database takes
      all that it is given, every list stays what a new scan would make it. */
  lemma {:induction false} ArrivalsKeep(size: nat, s: Chart, run: seq<Arrival>)
    requires size > 0 && Indexed(s, size)
    ensures var r := Arrivals(size, s, run);
      && Indexed(r.0, size) && Accounted(s, r.0, r.1)
      && InZones(size, run, r.1)
      && (Fresh(s, size) && (forall i | 0 <= i < |run| :: run[i].stored) ==> Fresh(r.0, size))
    decreases |run|
  {
    if run != [] {
      var n := |run| - 1;
      var before := Arrivals(size, s, run[..n]);
      var a := run[n];
      ArrivalsKeep(size, s, run[..n]);
      ArriveSized(size, before.0, a);
      var last := Arrive(size, before.0, a);
      assert Arrivals(size, s, run) == (last.0, before.1 + [last.1]);
      hide Indexed, Accounted, ZoneOf, Arrive, Arrivals, Fresh, InZones;
      ArrivalStep(size, s, before.0, before.1, a);
      InZonesMore(size, run, before.1, last.1);
    }
  }

  lemma ArrivalStep(size: nat, s: Chart, t: Chart, replies: seq<Reply>, a: Arrival)
    requires size > 0 && Sized(t.k) && Indexed(t, size) && Accounted(s, t, replies)
    ensures var u := Arrive(size, t, a);
      && Indexed(u.0, size) && Accounted(s, u.0, replies + [u.1])
      && (u.1.Given? ==> ZoneOf(size, u.1.id) == a.zone)
      && (Fresh(t, size) && a.stored ==> Fresh(u.0, size))
  {
    ArriveSized(size, t, a);
    hide Indexed, Accounted, ZoneOf, Player, ClassOf, Scan;
    PlayerStep(size, t, a.zone, a.rand, a.account, a.stored);
    var u := Arrive(size, t, a);
    AccountedMore(s, t, u.0, replies, u.1, a.account);
    if u.1.Given? { ScanIndexed(u.0.tiles, size); }
  }

  /** While the database takes all, a player gets a tile exactly when the zone has at least two that are open: the last
      one is never given out. With none left, or when the last one was tried for and no other player has begun since,
      the zone counts as full. */
  lemma LastTileExact(size: nat, tiles: seq<Tile>, run: seq<Arrival>, a: Arrival)
    requires size > 0 && a.stored && 0 <= a.zone < ZONES && forall i | 0 <= i < |run| :: run[i].stored
    ensures var t := Arrivals(size, Chart(tiles, Scan(tiles, size)), run).0;
      && (Arrive(size, t, a).1.Given? <==> |OpenTiles(t.tiles, size, a.zone)| >= 2)
      && (Arrive(size, t, a).1 == Full <==> t.k.open[a.zone] == 0)
      && (t.k.open[a.zone] == |OpenTiles(t.tiles, size, a.zone)|
          || (t.k.open[a.zone] == 0 && |OpenTiles(t.tiles, size, a.zone)| == 1))
  {
    var s := Chart(tiles, Scan(tiles, size));
    ScanIndexed(tiles, size);
    ArrivalsKeep(size, s, run);
    var t := Arrivals(size, s, run).0;
    hide Scan, Player, Arrivals, ZoneOf, ClassOf, OpenTiles;
    assert IndexedAt(t, size, a.zone);
    PlayerStep(size, t, a.zone, a.rand, a.account, true);
  }

  /** Any success anywhere brings the last tile's counter back, so that the next player of that zone fails again. */
  lemma FailsAgain(size: nat, s: Chart, a: Arrival, b: Arrival)
    requires size > 0 && Indexed(s, size) && Arrive(size, s, a).1.Given?
    requires 0 <= b.zone < ZONES && |OpenTiles(Arrive(size, s, a).0.tiles, size, b.zone)| == 1
    ensures var t := Arrive(size, s, a).0; Sized(t.k) && Arrive(size, t, b).1 == Failed
  {
    PlayerStep(size, s, a.zone, a.rand, a.account, a.stored);
    var t := Arrive(size, s, a).0;
    hide Player, ZoneOf, ClassOf;
    ScanIndexed(t.tiles, size);
    PlayerStep(size, t, b.zone, b.rand, b.account, b.stored);
    assert t.k.lists[b.zone] == OpenTiles(t.tiles, size, b.zone) && t.k.open[b.zone] == 1;
    FailedReply(size, t, b);
  }

  lemma FailedReply(size: nat, t: Chart, b: Arrival)
    requires size > 0 && Sized(t.k) && 0 <= b.zone < ZONES && t.k.open[b.zone] == 1 && |t.k.lists[b.zone]| == 1
    ensures Arrive(size, t, b).1 == Failed
  {
    hide Scan;
  }
}
