/** The engine as the page runs it: one session object whose fields the game
    loop and the command handlers update in place, list by list and entity by
    entity. Every state-changing method is tied to the reference function of
    the same name on the session record, whose properties the other modules
    prove; the searches and filters the handlers use are methods proved
    against their reference functions. */
module Session {
  import opened Catalog
  import opened Waves
  import opened Entities
  import opened Spawning
  import opened Movement
  import opened Targeting
  import opened Impact
  import Simulation
  import Commands

  /** The engine's `find` of an enemy by identity: the first match. */
  method FindEnemy(es: seq<Enemy>, id: nat) returns (r: Option<nat>)
    ensures r == IndexOfId(es, id)
  {
    var i := 0;
    while i < |es|
      invariant 0 <= i <= |es|
      invariant forall j | 0 <= j < i :: es[j].id != id
    {
      if es[i].id == id {
        return Some(i);
      }
      i := i + 1;
    }
    return None;
  }

  /** The engine's `find` of the tower standing on a cell. */
  method FindTowerAt(ts: seq<Tower>, c: Cell) returns (r: Option<nat>)
    ensures r == Commands.TowerAt(ts, c)
  {
    var i := 0;
    while i < |ts|
      invariant 0 <= i <= |ts|
      invariant forall j | 0 <= j < i :: ts[j].cell != c
    {
      if ts[i].cell == c {
        return Some(i);
      }
      i := i + 1;
    }
    return None;
  }

  /** The engine's `findIndex` of a tower by identity. */
  method FindTowerIndex(ts: seq<Tower>, id: nat) returns (r: Option<nat>)
    ensures r == Commands.TowerIndex(ts, id)
  {
    var i := 0;
    while i < |ts|
      invariant 0 <= i <= |ts|
      invariant forall j | 0 <= j < i :: ts[j].id != id
    {
      if ts[i].id == id {
        return Some(i);
      }
      i := i + 1;
    }
    return None;
  }

  /** The placement rule's path test: some pair of consecutive waypoints
      spans a box that holds the cell. */
  method IsPathTile(c: Cell) returns (b: bool)
    ensures b == OnPath(c)
  {
    var i := 0;
    while i < |Path|
      invariant 0 <= i <= |Path|
      invariant OnPath(c) == OnPathFrom(c, i)
    {
      if i != |Path| - 1 && InBox(c, Path[i], Path[i + 1]) {
        return true;
      }
      i := i + 1;
    }
    return false;
  }

  /** A ready tower's target scan: the first in-range enemy of strictly
      greatest progress, starting from the sentinel -1. */
  method FindTarget(t: Tower, es: seq<Enemy>) returns (target: Option<nat>)
    ensures target == Target(t, es)
  {
    target := None;
    var maxProgress := -1.0;
    var i := 0;
    while i < |es|
      invariant 0 <= i <= |es|
      invariant ScanTargets(t, es[..i]) == Scan(target, maxProgress)
    {
      assert es[..i + 1][..i] == es[..i];
      var enemy := es[i];
      if SqDist(ToPoint(t.cell), enemy.pos) <= t.range * t.range {
        if enemy.progress > maxProgress {
          maxProgress := enemy.progress;
          target := Some(i);
        }
      }
      i := i + 1;
    }
    assert es[..|es|] == es;
  }

  /** The engine's `filter` that drops the enemies whose identity is listed. */
  method FilterEnemies(es: seq<Enemy>, ids: seq<nat>) returns (r: seq<Enemy>)
    ensures r == WithoutEnemies(es, ids)
  {
    r := [];
    var i := 0;
    while i < |es|
      invariant 0 <= i <= |es|
      invariant r == WithoutEnemies(es[..i], ids)
    {
      assert es[..i + 1][..i] == es[..i];
      if es[i].id !in ids {
        r := r + [es[i]];
      }
      i := i + 1;
    }
    assert es[..|es|] == es;
  }

  /** The engine's `filter` that drops the projectiles whose identity is listed. */
  method FilterProjectiles(ps: seq<Projectile>, ids: seq<nat>) returns (r: seq<Projectile>)
    ensures r == WithoutProjectiles(ps, ids)
  {
    r := [];
    var i := 0;
    while i < |ps|
      invariant 0 <= i <= |ps|
      invariant r == WithoutProjectiles(ps[..i], ids)
    {
      assert ps[..i + 1][..i] == ps[..i];
      if ps[i].id !in ids {
        r := r + [ps[i]];
      }
      i := i + 1;
    }
    assert ps[..|ps|] == ps;
  }

  /** The spawn queue of a wave plan, built group by group and entry by entry. */
  method WaveQueue(configs: seq<SpawnGroup>) returns (queue: seq<QueueEntry>)
    ensures queue == Expand(configs)
  {
    queue := [];
    var g := 0;
    while g < |configs|
      invariant 0 <= g <= |configs|
      invariant queue == Expand(configs[..g])
    {
      var cfg := configs[g];
      var i := 0;
      while i < cfg.count
        invariant 0 <= i && (i <= cfg.count || i == 0)
        invariant queue == Expand(configs[..g]) + Replicate(EntryOf(cfg), i)
      {
        queue := queue + [QueueEntry(cfg.kind, cfg.interval, cfg.hpMult)];
        i := i + 1;
      }
      assert configs[..g + 1][..g] == configs[..g];
      g := g + 1;
    }
    assert configs[..|configs|] == configs;
  }

  /** One enemy's step toward its next waypoint, field by field: the speed
      is halved while frozen, the freeze counter counts down, the enemy snaps
      onto the waypoint when closer than one step and otherwise moves one step
      toward it, and its progress grows by the speed. */
  method Walk(e: Enemy, toward: Steer) returns (enemy: Enemy)
    requires !Escapes(e)
    ensures enemy == MoveEnemy(e, toward)
  {
    enemy := e;
    var target := ToPoint(Path[enemy.pathIndex + 1]);
    var speed := if enemy.frozen > 0 then enemy.speed * 0.5 else enemy.speed;
    if enemy.frozen > 0 {
      enemy := enemy.(frozen := enemy.frozen - 1);
    }
    if SqDist(enemy.pos, target) < speed * speed {
      enemy := enemy.(pos := target, pathIndex := enemy.pathIndex + 1);
    } else {
      enemy := enemy.(pos := toward(enemy.pos, target, speed));
    }
    enemy := enemy.(progress := enemy.progress + speed);
  }

  /** Stage 2's walk over the enemy list: every enemy with a next waypoint
      moves in place toward it (at half speed while frozen, snapping onto it
      when closer than one step); the others are listed as escaped. */
  method WalkEnemies(es: seq<Enemy>, toward: Steer) returns (moved: seq<Enemy>, escaped: seq<nat>)
    ensures moved == Advance(es, toward)
    ensures escaped == EscapedIds(es)
  {
    moved := es;
    escaped := [];
    var i := 0;
    while i < |moved|
      invariant 0 <= i <= |moved| == |es|
      invariant forall j | 0 <= j < i :: moved[j] == StepEnemy(es[j], toward)
      invariant moved[i..] == es[i..]
      invariant escaped == EscapedIds(es[..i])
    {
      assert es[..i + 1][..i] == es[..i];
      assert moved[i] == es[i] by {
        assert moved[i..][0] == es[i..][0];
      }
      if moved[i].pathIndex + 1 >= |Path| {
        escaped := escaped + [moved[i].id];
      } else {
        var enemy := Walk(moved[i], toward);
        moved := moved[i := enemy];
      }
      i := i + 1;
    }
    assert es[..|es|] == es;
  }

  /** Stage 3's pass over the towers: a cooling tower counts down in place; a
      ready tower with a target restarts its cooldown and pushes a shot with
      the next identity. */
  method FireTowers(ts: seq<Tower>, es: seq<Enemy>, ps: seq<Projectile>, next: nat)
    returns (cooled: seq<Tower>, fired: seq<Projectile>, nextAfter: nat)
    ensures cooled == CoolAll(ts, es)
    ensures fired == ps + Volley(ts, es, next)
    ensures nextAfter == next + |Volley(ts, es, next)|
  {
    cooled, fired, nextAfter := ts, ps, next;
    var i := 0;
    while i < |cooled|
      invariant 0 <= i <= |cooled| == |ts|
      invariant forall j | 0 <= j < i :: cooled[j] == Cooled(ts[j], es)
      invariant cooled[i..] == ts[i..]
      invariant fired == ps + Volley(ts[..i], es, next)
      invariant nextAfter == next + |Volley(ts[..i], es, next)|
    {
      assert ts[..i + 1][..i] == ts[..i];
      assert cooled[i] == ts[i] by {
        assert cooled[i..][0] == ts[i..][0];
      }
      var tower := cooled[i];
      if tower.cooldown > 0.0 {
        cooled := cooled[i := tower.(cooldown := tower.cooldown - 1.0)];
      } else {
        var target := FindTarget(tower, es);
        if target.Some? {
          cooled := cooled[i := tower.(cooldown := tower.cooldownMax)];
          fired := fired + [Projectile(nextAfter, ToPoint(tower.cell), es[target.value].id,
                                       tower.damage, ProjectileSpeed, tower.kind == Ice)];
          nextAfter := nextAfter + 1;
        }
      }
      i := i + 1;
    }
    assert ts[..|ts|] == ts;
  }

  /** One projectile's turn against the pass so far: with its target gone
      it is spent; within a step of its target it is spent and wounds (and,
      for a freeze shot, freezes) the target, booking the kill the first time
      the target's hit points reach zero; otherwise it moves one step toward
      the target. */
  method ProjectileTurn(acc: Impact, proj: Projectile, toward: Steer) returns (next: Impact)
    ensures next == ProjStep(acc, proj, toward)
  {
    var enemies, hitIds, deadIds, earned := acc.enemies, acc.hitIds, acc.deadIds, acc.earned;
    var k := FindEnemy(enemies, proj.targetId);
    if k.None? {
      hitIds := hitIds + [proj.id];
      return Impact(enemies, acc.flown + [proj], hitIds, deadIds, earned);
    }
    var target := enemies[k.value];
    var p := proj;
    if SqDist(p.pos, target.pos) < p.speed * p.speed {
      hitIds := hitIds + [p.id];
      target := target.(hp := target.hp - p.damage);
      if p.freeze {
        target := target.(frozen := FreezeTicks);
      }
      enemies := enemies[k.value := target];
      if target.hp <= 0.0 && target.id !in deadIds {
        deadIds := deadIds + [target.id];
        earned := earned + target.reward;
      }
    } else {
      p := p.(pos := toward(p.pos, target.pos, p.speed));
    }
    next := Impact(enemies, acc.flown + [p], hitIds, deadIds, earned);
  }

  /** Stage 4's pass over the projectiles, in list order. */
  method ResolveProjectiles(es: seq<Enemy>, ps: seq<Projectile>, toward: Steer) returns (res: Impact)
    ensures res == ResolveAll(es, ps, toward)
  {
    res := Impact(es, [], [], [], 0);
    var i := 0;
    while i < |ps|
      invariant 0 <= i <= |ps|
      invariant res == ResolveAll(es, ps[..i], toward)
    {
      assert ps[..i + 1][..i] == ps[..i];
      res := ProjectileTurn(res, ps[i], toward);
      i := i + 1;
    }
    assert ps[..|ps|] == ps;
  }

  /** The game-state record the page keeps as one value and replaces
      whole: economy, wave number, play and game-over flags, tick counter. */
  datatype GameState = GameState(money: int, lives: int, wave: nat, playing: bool, over: bool, tick: nat)

  /** The session: the game-state record, the entity lists the loop mutates,
      the wave queue, the identity counter and the two selections. */
  class Game {
    var state: GameState
    var enemies: seq<Enemy>
    var towers: seq<Tower>
    var projectiles: seq<Projectile>
    var queue: seq<QueueEntry>
    var nextId: nat
    var selectedKind: Option<TowerKind>
    var selectedTower: Option<nat>

    /** The fields as a session record. */
    function View(): World
      reads this
    {
      World(state.money, state.lives, state.wave, state.playing, state.over, state.tick, enemies, towers, projectiles,
            queue, nextId, selectedKind, selectedTower)
    }

    ghost predicate Valid()
      reads this
    {
      Inv(View())
    }

    /** The session at load time. */
    constructor ()
      ensures Valid() && View() == Initial(0)
    {
      state := GameState(InitialMoney, InitialLives, 0, false, false, 0);
      enemies, towers, projectiles, queue := [], [], [], [];
      nextId := 0;
      selectedKind, selectedTower := None, None;
    }

    /** One frame of the game loop. */
    method Tick(toward: Steer)
      requires Valid()
      modifies this
      ensures Valid()
      ensures View() == Simulation.Tick(old(View()), toward)
    {
      if !state.playing || state.over {
        return;
      }
      Simulation.TickPreservesInv(View(), toward);
      SpawnStep();
      MoveEnemies(toward);
      HandleTowers();
      HandleProjectiles(toward);
      state := state.(tick := state.tick + 1);
    }

    /** Stage 1: release or count down the head of the queue, or end the wave.
        The advice request made when a wave ends is not modelled. */
    method SpawnStep()
      modifies this
      ensures View() == SpawnStage(old(View()))
    {
      if |queue| > 0 {
        if queue[0].delay <= 0 {
          var next := queue[0];
          queue := queue[1..];
          SpawnEnemy(next.kind, next.hpMult);
        } else {
          queue := queue[0 := queue[0].(delay := queue[0].delay - 1)];
          assert queue == [queue[0]] + queue[1..];
        }
      } else if |enemies| == 0 && state.playing {
        state := state.(playing := false);
      }
    }

    /** A fresh enemy of `kind` at the first waypoint, with hit points scaled by `hpMult`. */
    method SpawnEnemy(kind: EnemyKind, hpMult: real)
      modifies this
      ensures View() == old(View()).(enemies := old(enemies) + [NewEnemy(old(nextId), kind, hpMult)],
                                     nextId := old(nextId) + 1)
    {
      var stats := EnemyBase(kind);
      var start := Path[0];
      var e := Enemy(nextId, kind, ToPoint(start), stats.hp * hpMult, stats.hp * hpMult,
                     stats.speed, 0, 0, stats.reward, 0.0);
      enemies := enemies + [e];
      nextId := nextId + 1;
    }

    /** Stage 2: every enemy walks; the escapers are removed and charged to the lives. */
    method MoveEnemies(toward: Steer)
      modifies this
      ensures View() == MoveStage(old(View()), toward)
    {
      ghost var w0 := View();
      var moved, escaped := WalkEnemies(enemies, toward);
      enemies := moved;
      if |escaped| > 0 {
        enemies := FilterEnemies(enemies, escaped);
        var livesBefore := state.lives;
        state := state.(lives := Max0(state.lives - |escaped|));
        if livesBefore - |escaped| <= 0 {
          state := state.(over := true, playing := false);
        }
      }
      assert View() == MoveStage(w0, toward);
    }

    /** Stage 3: every tower cools down or fires. */
    method HandleTowers()
      modifies this
      ensures View() == TowerStage(old(View()))
    {
      ghost var w0 := View();
      var cooled, fired, next := FireTowers(towers, enemies, projectiles, nextId);
      towers, projectiles, nextId := cooled, fired, next;
      assert View() == TowerStage(w0);
    }

    /** Stage 4: the projectiles are resolved, then the spent projectiles and
        the dead enemies are removed and the kills are paid. */
    method HandleProjectiles(toward: Steer)
      modifies this
      ensures View() == ProjectileStage(old(View()), toward)
    {
      ghost var w0 := View();
      var res := ResolveProjectiles(enemies, projectiles, toward);
      var kept := FilterProjectiles(res.flown, res.hitIds);
      var left := res.enemies;
      var paid := 0;
      if |res.deadIds| > 0 {
        left := FilterEnemies(left, res.deadIds);
        paid := res.earned;
      }
      ghost var after := ProjectileStage(w0, toward);
      assert after.projectiles == kept;
      assert after.enemies == left && after.money == w0.money + paid;
      assert after == w0.(projectiles := kept, enemies := left, money := w0.money + paid);
      projectiles, enemies := kept, left;
      state := state.(money := state.money + paid);
    }

    /** A pick in the shop. */
    method SelectKind(k: Option<TowerKind>)
      requires Valid()
      modifies this
      ensures Valid()
      ensures View() == Commands.SelectKind(old(View()), k)
    {
      Commands.SelectKindOk(View(), k);
      selectedKind := k;
      if k.Some? {
        selectedTower := None;
      }
    }

    /** A click on a tile: build with a kind chosen, otherwise select. */
    method TileClick(c: Cell)
      requires Valid()
      modifies this
      ensures Valid()
      ensures View() == Commands.TileClick(old(View()), c)
    {
      ghost var w0 := View();
      if !state.over && 0 <= c.x < GridW && 0 <= c.y < GridH {
        var clicked := FindTowerAt(towers, c);
        if selectedKind.Some? {
          var isPath := IsPathTile(c);
          var kind := selectedKind.value;
          var stats := TowerBase(kind);
          if !isPath && clicked.None? && state.money >= stats.cost {
            towers := towers + [Tower(nextId, kind, c, stats.range, stats.damage, 0.0, stats.cooldownMax,
                                      Upgrades(0, 0, 0))];
            state := state.(money := state.money - stats.cost);
            selectedKind := None;
            nextId := nextId + 1;
            assert towers == w0.towers + [Commands.NewTower(w0.nextId, kind, c)];
          }
        } else if clicked.Some? {
          selectedTower := Some(towers[clicked.value].id);
        } else {
          selectedTower := None;
        }
      }
      assert View() == Commands.TileClick(w0, c);
      Commands.TileClickOk(w0, c);
    }

    /** Upgrade one stat of the selected tower, when affordable. */
    method Upgrade(s: Stat)
      requires Valid()
      modifies this
      ensures Valid()
      ensures View() == Commands.Upgrade(old(View()), s)
    {
      ghost var w0 := View();
      if selectedTower.Some? {
        var index := FindTowerIndex(towers, selectedTower.value);
        if index.Some? {
          var t := towers[index.value];
          var level := Commands.Level(t.upgrades, s);
          var cost := UpgradeCost(t.kind, level);
          if state.money >= cost {
            var u := t.upgrades;
            match s {
              case Damage =>
                t := t.(upgrades := u.(damage := level + 1), damage := t.damage * DamageMultiplier);
              case Range =>
                t := t.(upgrades := u.(range := level + 1), range := t.range * RangeMultiplier);
              case Cooldown =>
                t := t.(upgrades := u.(cooldown := level + 1), cooldownMax := t.cooldownMax * CooldownMultiplier);
            }
            assert t == Commands.ApplyUpgrade(w0.towers[index.value], s);
            towers := towers[index.value := t];
            state := state.(money := state.money - cost);
          }
        }
      }
      assert View() == Commands.Upgrade(w0, s);
      Commands.UpgradeOk(w0, s);
    }

    /** Load the next wave's queue and start playing. */
    method StartNextWave()
      requires Valid() && !state.playing && !state.over
      modifies this
      ensures Valid()
      ensures View() == Commands.StartNextWave(old(View()))
    {
      ghost var w0 := View();
      var nextWave := state.wave + 1;
      var configs := WaveConfig(nextWave);
      var q := WaveQueue(configs);
      queue := q;
      state := state.(wave := nextWave, playing := true);
      assert View() == Commands.StartNextWave(w0);
      Commands.StartNextWaveOk(w0);
    }

    /** Back to the starting economy with an empty field; identities keep counting. */
    method Restart()
      modifies this
      ensures Valid()
      ensures View() == Commands.Restart(old(View()))
    {
      ghost var w0 := View();
      assert Commands.Restart(w0) == Initial(w0.nextId);
      state := GameState(InitialMoney, InitialLives, 0, false, false, 0);
      towers, enemies, projectiles := [], [], [];
      selectedKind, selectedTower := None, None;
      queue := [];
      assert View() == Initial(w0.nextId);
    }
  }

  /** A client of the session: a basic tower bought on (2, 5) from the
      starting purse, then a second purchase on the same tile refused. */
  method BuildTwice() returns (moneyAfterFirst: int, moneyAfterSecond: int, towerCount: nat)
    ensures moneyAfterFirst == 70 && moneyAfterSecond == 70 && towerCount == 1
  {
    Commands.BuildExample();
    var g := new Game();
    g.SelectKind(Some(Basic));
    g.TileClick(Cell(2, 5));
    moneyAfterFirst := g.state.money;
    g.SelectKind(Some(Basic));
    g.TileClick(Cell(2, 5));
    moneyAfterSecond := g.state.money;
    towerCount := |g.towers|;
  }
}
