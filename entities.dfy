/** Live entities, the session record and the invariants the engine keeps. */
module Entities {
  import opened Catalog

  /** A position in (fractional) grid-cell units. */
  datatype Point = Point(x: real, y: real)

  function ToPoint(c: Cell): Point {
    Point(c.x as real, c.y as real)
  }

  /** Squared Euclidean distance. Every comparison of a distance with a
      non-negative bound is made on squares, which is equivalent for exact reals. */
  function SqDist(a: Point, b: Point): real {
    (b.x - a.x) * (b.x - a.x) + (b.y - a.y) * (b.y - a.y)
  }

  /** The point reached from `from` after travelling `step` toward `to`
      along the unit direction vector. Square roots are not modelled, so the
      engine receives this step as a parameter. */
  type Steer = (Point, Point, real) -> Point

  datatype Enemy = Enemy(
    id: nat, kind: EnemyKind, pos: Point,
    hp: real, maxHp: real, speed: real,
    pathIndex: nat, frozen: int, reward: int, progress: real)

  datatype Stat = Damage | Range | Cooldown

  datatype Upgrades = Upgrades(damage: nat, range: nat, cooldown: nat)

  datatype Tower = Tower(
    id: nat, kind: TowerKind, cell: Cell,
    range: real, damage: real, cooldown: real, cooldownMax: real,
    upgrades: Upgrades)

  datatype Projectile = Projectile(
    id: nat, pos: Point, targetId: nat, damage: real, speed: real, freeze: bool)

  /** A pending spawn: the enemy kind, the ticks still to wait, the hp factor. */
  datatype QueueEntry = QueueEntry(kind: EnemyKind, delay: int, hpMult: real)

  /** The whole session: the game-state record, the entity lists, the wave
      queue, the next fresh identity and the two selections of the user interface. */
  datatype World = World(
    money: int, lives: int, wave: nat,
    playing: bool, over: bool, tick: nat,
    enemies: seq<Enemy>, towers: seq<Tower>, projectiles: seq<Projectile>,
    queue: seq<QueueEntry>, nextId: nat,
    selectedKind: Option<TowerKind>, selectedTower: Option<nat>)

  const ProjectileSpeed: real := 0.4
  const FreezeTicks: int := 60

  ghost predicate EnemyOk(e: Enemy) {
    && e.hp > 0.0
    && e.pathIndex < |Path|
    && e.frozen >= 0
    && e.progress >= 0.0
    && e.speed == EnemyBase(e.kind).speed
    && e.reward == EnemyBase(e.kind).reward
  }

  ghost predicate EnemiesOk(es: seq<Enemy>, next: nat) {
    && (forall i | 0 <= i < |es| :: EnemyOk(es[i]) && es[i].id < next)
    && (forall i, j | 0 <= i < j < |es| :: es[i].id != es[j].id)
  }

  ghost predicate TowerOk(t: Tower) {
    && InGrid(t.cell)
    && !OnPath(t.cell)
    && t.range > 0.0
    && t.damage > 0.0
    && t.cooldownMax > 0.0
    && t.cooldown > -1.0
  }

  ghost predicate TowersOk(ts: seq<Tower>, next: nat) {
    && (forall i | 0 <= i < |ts| :: TowerOk(ts[i]) && ts[i].id < next)
    && (forall i, j | 0 <= i < j < |ts| :: ts[i].id != ts[j].id && ts[i].cell != ts[j].cell)
  }

  ghost predicate ProjectileOk(p: Projectile) {
    p.damage > 0.0 && p.speed == ProjectileSpeed
  }

  ghost predicate ProjectilesOk(ps: seq<Projectile>, next: nat) {
    && (forall i | 0 <= i < |ps| :: ProjectileOk(ps[i]) && ps[i].id < next)
    && (forall i, j | 0 <= i < j < |ps| :: ps[i].id != ps[j].id)
  }

  ghost predicate QueueOk(q: seq<QueueEntry>) {
    forall i | 0 <= i < |q| :: q[i].hpMult >= 1.0
  }

  /** What holds between stages of a tick as well as between ticks. */
  ghost predicate StoreOk(w: World) {
    && w.money >= 0
    && w.lives >= 0
    && (w.lives > 0 || w.over)
    && !(w.playing && w.over)
    && EnemiesOk(w.enemies, w.nextId)
    && TowersOk(w.towers, w.nextId)
    && ProjectilesOk(w.projectiles, w.nextId)
    && QueueOk(w.queue)
  }

  /** Between wave and wave nothing is in flight. */
  ghost predicate Quiescent(w: World) {
    !w.playing && !w.over ==> w.queue == [] && w.enemies == [] && w.projectiles == []
  }

  /** The session invariant. */
  ghost predicate Inv(w: World) {
    StoreOk(w) && Quiescent(w)
  }

  /** The session at load time and after a restart, apart from the identity counter. */
  function Initial(nextId: nat): (w: World)
    ensures Inv(w)
  {
    World(InitialMoney, InitialLives, 0, false, false, 0, [], [], [], [], nextId, None, None)
  }

  // Removal by identity, as the engine's `filter(x => !ids.includes(x.id))`.

  function WithoutEnemies(es: seq<Enemy>, ids: seq<nat>): (r: seq<Enemy>)
    ensures |r| <= |es|
    decreases |es|
  {
    if |es| == 0 then []
    else WithoutEnemies(es[..|es| - 1], ids)
         + (if es[|es| - 1].id in ids then [] else [es[|es| - 1]])
  }

  function WithoutProjectiles(ps: seq<Projectile>, ids: seq<nat>): (r: seq<Projectile>)
    ensures |r| <= |ps|
    decreases |ps|
  {
    if |ps| == 0 then []
    else WithoutProjectiles(ps[..|ps| - 1], ids)
         + (if ps[|ps| - 1].id in ids then [] else [ps[|ps| - 1]])
  }

  /** Removing no identity removes nothing. */
  lemma {:induction false} WithoutEnemiesNone(es: seq<Enemy>)
    ensures WithoutEnemies(es, []) == es
    decreases |es|
  {
    if |es| > 0 {
      WithoutEnemiesNone(es[..|es| - 1]);
      assert es == es[..|es| - 1] + [es[|es| - 1]];
    }
  }

  /** Removal keeps exactly the members whose identity is not listed. */
  lemma {:induction false} WithoutEnemiesKeeps(es: seq<Enemy>, ids: seq<nat>, e: Enemy)
    ensures e in WithoutEnemies(es, ids) <==> e in es && e.id !in ids
    decreases |es|
  {
    if |es| > 0 {
      var n := |es| - 1;
      WithoutEnemiesKeeps(es[..n], ids, e);
      assert es == es[..n] + [es[n]];
    }
  }

  lemma {:induction false} WithoutProjectilesKeeps(ps: seq<Projectile>, ids: seq<nat>, p: Projectile)
    ensures p in WithoutProjectiles(ps, ids) <==> p in ps && p.id !in ids
    decreases |ps|
  {
    if |ps| > 0 {
      var n := |ps| - 1;
      WithoutProjectilesKeeps(ps[..n], ids, p);
      assert ps == ps[..n] + [ps[n]];
    }
  }

  /** Removal keeps identities pairwise distinct. */
  lemma {:induction false} WithoutEnemiesUnique(es: seq<Enemy>, ids: seq<nat>)
    requires forall i, j | 0 <= i < j < |es| :: es[i].id != es[j].id
    ensures forall i, j | 0 <= i < j < |WithoutEnemies(es, ids)| ::
      WithoutEnemies(es, ids)[i].id != WithoutEnemies(es, ids)[j].id
    decreases |es|
  {
    if |es| > 0 {
      var n := |es| - 1;
      assert forall i, j | 0 <= i < j < n :: es[..n][i].id != es[..n][j].id;
      WithoutEnemiesUnique(es[..n], ids);
      var r := WithoutEnemies(es[..n], ids);
      forall e | e in r ensures e.id != es[n].id {
        WithoutEnemiesKeeps(es[..n], ids, e);
        var k :| 0 <= k < n && es[..n][k] == e;
        assert es[k] == e;
      }
    }
  }

  /** Removing members keeps the entity invariant. */
  lemma WithoutEnemiesOk(es: seq<Enemy>, ids: seq<nat>, next: nat)
    requires EnemiesOk(es, next)
    ensures EnemiesOk(WithoutEnemies(es, ids), next)
  {
    WithoutEnemiesUnique(es, ids);
    var r := WithoutEnemies(es, ids);
    forall i | 0 <= i < |r| ensures EnemyOk(r[i]) && r[i].id < next {
      WithoutEnemiesKeeps(es, ids, r[i]);
    }
  }

  lemma {:induction false} WithoutProjectilesUnique(ps: seq<Projectile>, ids: seq<nat>)
    requires forall i, j | 0 <= i < j < |ps| :: ps[i].id != ps[j].id
    ensures forall i, j | 0 <= i < j < |WithoutProjectiles(ps, ids)| ::
      WithoutProjectiles(ps, ids)[i].id != WithoutProjectiles(ps, ids)[j].id
    decreases |ps|
  {
    if |ps| > 0 {
      var n := |ps| - 1;
      assert forall i, j | 0 <= i < j < n :: ps[..n][i].id != ps[..n][j].id;
      WithoutProjectilesUnique(ps[..n], ids);
      var r := WithoutProjectiles(ps[..n], ids);
      forall p | p in r ensures p.id != ps[n].id {
        WithoutProjectilesKeeps(ps[..n], ids, p);
        var k :| 0 <= k < n && ps[..n][k] == p;
        assert ps[k] == p;
      }
    }
  }

  lemma WithoutProjectilesOk(ps: seq<Projectile>, ids: seq<nat>, next: nat)
    requires ProjectilesOk(ps, next)
    ensures ProjectilesOk(WithoutProjectiles(ps, ids), next)
  {
    WithoutProjectilesUnique(ps, ids);
    var r := WithoutProjectiles(ps, ids);
    forall i | 0 <= i < |r| ensures ProjectileOk(r[i]) && r[i].id < next {
      WithoutProjectilesKeeps(ps, ids, r[i]);
    }
  }

  /** Sum of the kill rewards carried by a list of enemies. */
  function RewardSum(es: seq<Enemy>): int
    decreases |es|
  {
    if |es| == 0 then 0 else RewardSum(es[..|es| - 1]) + es[|es| - 1].reward
  }

  /** The enemies whose identity is listed, in list order. */
  function OnlyEnemies(es: seq<Enemy>, ids: seq<nat>): seq<Enemy>
    decreases |es|
  {
    if |es| == 0 then []
    else OnlyEnemies(es[..|es| - 1], ids)
         + (if es[|es| - 1].id in ids then [es[|es| - 1]] else [])
  }

  lemma {:induction false} RewardSumAppend(a: seq<Enemy>, b: seq<Enemy>)
    ensures RewardSum(a + b) == RewardSum(a) + RewardSum(b)
    decreases |b|
  {
    if |b| == 0 {
      assert a + b == a;
    } else {
      var n := |b| - 1;
      assert (a + b)[..|a + b| - 1] == a + b[..n];
      assert (a + b)[|a + b| - 1] == b[n];
      RewardSumAppend(a, b[..n]);
    }
  }

  /** Splitting a list by identity splits its total reward. */
  lemma {:induction false} RewardSumSplit(es: seq<Enemy>, ids: seq<nat>)
    ensures RewardSum(es) == RewardSum(WithoutEnemies(es, ids)) + RewardSum(OnlyEnemies(es, ids))
    decreases |es|
  {
    if |es| > 0 {
      var n := |es| - 1;
      RewardSumSplit(es[..n], ids);
      RewardSumAppend(WithoutEnemies(es[..n], ids), if es[n].id in ids then [] else [es[n]]);
      RewardSumAppend(OnlyEnemies(es[..n], ids), if es[n].id in ids then [es[n]] else []);
    }
  }
}
