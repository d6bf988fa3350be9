/** The static configuration of the game: grid, path, tower and enemy
    archetypes, upgrade factors and the starting economy. */
module Catalog {

  datatype Option<T> = None | Some(value: T)

  datatype TowerKind = Basic | Sniper | Rapid | Ice

  datatype EnemyKind = Goblin | Orc | Tank | Boss

  /** A grid cell in whole-cell coordinates. */
  datatype Cell = Cell(x: int, y: int)

  const GridW: int := 20
  const GridH: int := 12

  /** The enemy route: a polyline of waypoints in grid coordinates. */
  const Path: seq<Cell> :=
    [Cell(0, 1), Cell(4, 1), Cell(4, 8), Cell(10, 8),
     Cell(10, 2), Cell(16, 2), Cell(16, 9), Cell(19, 9)]

  predicate InGrid(c: Cell) {
    0 <= c.x < GridW && 0 <= c.y < GridH
  }

  lemma PathShape()
    ensures |Path| == 8
    ensures forall i | 0 <= i < |Path| - 1 :: Path[i].x == Path[i + 1].x || Path[i].y == Path[i + 1].y
    ensures forall i | 0 <= i < |Path| :: InGrid(Path[i])
  {
  }

  function Min(a: int, b: int): int { if a <= b then a else b }
  function Max(a: int, b: int): int { if a <= b then b else a }

  /** Whether `c` lies in the inclusive bounding box of the segment from `a` to `b`. */
  predicate InBox(c: Cell, a: Cell, b: Cell) {
    Min(a.x, b.x) <= c.x <= Max(a.x, b.x) && Min(a.y, b.y) <= c.y <= Max(a.y, b.y)
  }

  /** The placement rule's path test, scanning the segments from index `i` on. */
  function OnPathFrom(c: Cell, i: nat): bool
    decreases |Path| - i
  {
    if i + 1 >= |Path| then false
    else InBox(c, Path[i], Path[i + 1]) || OnPathFrom(c, i + 1)
  }

  /** A cell is "on the path" when it lies in the bounding box of some
      pair of consecutive waypoints. */
  predicate OnPath(c: Cell) {
    OnPathFrom(c, 0)
  }

  lemma {:induction false} OnPathFromIff(c: Cell, i: nat)
    ensures OnPathFrom(c, i) <==> exists k | i <= k < |Path| - 1 :: InBox(c, Path[k], Path[k + 1])
    decreases |Path| - i
  {
    if i + 1 < |Path| {
      OnPathFromIff(c, i + 1);
      if InBox(c, Path[i], Path[i + 1]) {
        assert i <= i < |Path| - 1;
      }
    }
  }

  /** The path test agrees with its declarative reading: some segment's box holds the cell. */
  lemma OnPathIff(c: Cell)
    ensures OnPath(c) <==> exists k | 0 <= k < |Path| - 1 :: InBox(c, Path[k], Path[k + 1])
  {
    OnPathFromIff(c, 0);
  }

  /** Every waypoint is itself a path cell, so no tower can stand on one. */
  lemma WaypointsOnPath(k: nat)
    requires k < |Path|
    ensures OnPath(Path[k])
  {
    OnPathIff(Path[k]);
    if k + 1 < |Path| {
      assert InBox(Path[k], Path[k], Path[k + 1]);
    } else {
      assert InBox(Path[k], Path[k - 1], Path[k]);
    }
  }

  datatype TowerStats = TowerStats(range: real, damage: real, cooldownMax: real, cost: int)

  function TowerBase(k: TowerKind): (s: TowerStats)
    ensures s.range > 0.0 && s.damage > 0.0 && s.cooldownMax > 0.0
    ensures s.cost > 0 && s.cost % 5 == 0
  {
    match k
    case Basic => TowerStats(3.5, 15.0, 30.0, 50)
    case Sniper => TowerStats(7.0, 80.0, 120.0, 150)
    case Rapid => TowerStats(2.5, 5.0, 8.0, 200)
    case Ice => TowerStats(3.0, 2.0, 45.0, 100)
  }

  datatype EnemyStats = EnemyStats(hp: real, speed: real, reward: int)

  function EnemyBase(k: EnemyKind): (s: EnemyStats)
    ensures s.hp > 0.0 && s.speed > 0.0 && s.reward > 0
  {
    match k
    case Goblin => EnemyStats(30.0, 0.05, 5)
    case Orc => EnemyStats(80.0, 0.03, 12)
    case Tank => EnemyStats(200.0, 0.015, 25)
    case Boss => EnemyStats(1000.0, 0.01, 100)
  }

  const DamageMultiplier: real := 1.25
  const RangeMultiplier: real := 1.15
  const CooldownMultiplier: real := 0.9
  /** The upgrade price factor 0.6, as a fraction. */
  const CostMultiplier: real := 0.6

  const InitialMoney: int := 120
  const InitialLives: int := 20

  /** Price of raising a stat from `level` to `level + 1`: the floor of
      base cost times 0.6 times (level + 1), computed in integers. */
  function UpgradeCost(k: TowerKind, level: nat): int {
    (TowerBase(k).cost * 3 * (level + 1)) / 5
  }

  /** The integer formula is exactly the floor of the real product, and the
      product is itself whole, so the floor never truncates. */
  lemma UpgradeCostIsFloor(k: TowerKind, level: nat)
    ensures UpgradeCost(k, level) as real
         == (TowerBase(k).cost as real) * CostMultiplier * ((level + 1) as real)
    ensures UpgradeCost(k, level)
         == ((TowerBase(k).cost as real) * CostMultiplier * ((level + 1) as real)).Floor
  {
    var b := TowerBase(k).cost;
    var q := b / 5;
    assert b == 5 * q;
    assert b * 3 * (level + 1) == 5 * (q * 3 * (level + 1));
    assert UpgradeCost(k, level) == q * 3 * (level + 1);
    assert (b as real) * CostMultiplier == (q * 3) as real;
  }

  /** The price strictly rises with the level. */
  lemma UpgradeCostIncreasing(k: TowerKind, level: nat)
    ensures 0 < UpgradeCost(k, level) < UpgradeCost(k, level + 1)
  {
    var b := TowerBase(k).cost;
    var q := b / 5;
    assert b == 5 * q && q >= 1;
    assert b * 3 * (level + 1) == 5 * (q * 3 * (level + 1));
    assert b * 3 * (level + 2) == 5 * (q * 3 * (level + 2));
    assert UpgradeCost(k, level) == q * 3 * (level + 1);
    assert UpgradeCost(k, level + 1) == q * 3 * (level + 2);
  }

  lemma BasicUpgradeCosts()
    ensures UpgradeCost(Basic, 0) == 30 && UpgradeCost(Basic, 1) == 60 && UpgradeCost(Basic, 2) == 90
  {
  }
}
