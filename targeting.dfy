/** Stage 3 of a tick: every tower either cools down or fires one
    projectile at the most advanced enemy within its range. */
module Targeting {
  import opened Catalog
  import opened Entities

  /** The enemy is no farther from the tower's cell than the tower's range
      (compared on squares; ranges are positive). */
  predicate InRange(t: Tower, e: Enemy) {
    SqDist(ToPoint(t.cell), e.pos) <= t.range * t.range
  }

  /** The scan's running choice: the index of the chosen enemy and its
      progress, or no choice and the sentinel progress -1. */
  datatype Scan = Scan(target: Option<nat>, best: real)

  /** The target scan over the enemy list, in list order: an in-range enemy
      replaces the current choice only when its progress is strictly greater. */
  function ScanTargets(t: Tower, es: seq<Enemy>): (s: Scan)
    ensures s.target.None? ==> s.best == -1.0
    ensures s.target.Some? ==>
      && s.target.value < |es|
      && InRange(t, es[s.target.value])
      && s.best == es[s.target.value].progress
      && s.best > -1.0
    decreases |es|
  {
    if |es| == 0 then Scan(None, -1.0)
    else
      var s := ScanTargets(t, es[..|es| - 1]);
      var e := es[|es| - 1];
      if InRange(t, e) && e.progress > s.best then Scan(Some(|es| - 1), e.progress) else s
  }

  /** The index of the enemy a ready tower aims at, if any. */
  function Target(t: Tower, es: seq<Enemy>): Option<nat> {
    ScanTargets(t, es).target
  }

  /** The scan's best progress bounds every in-range enemy, and strictly
      bounds every in-range enemy before the chosen one. */
  lemma {:induction false} ScanTargetsBest(t: Tower, es: seq<Enemy>)
    ensures forall i | 0 <= i < |es| && InRange(t, es[i]) :: es[i].progress <= ScanTargets(t, es).best
    ensures ScanTargets(t, es).target.Some? ==>
      forall i | 0 <= i < ScanTargets(t, es).target.value && InRange(t, es[i]) ::
        es[i].progress < ScanTargets(t, es).best
    decreases |es|
  {
    if |es| > 0 {
      var n := |es| - 1;
      ScanTargetsBest(t, es[..n]);
      assert forall i | 0 <= i < n :: es[..n][i] == es[i];
    }
  }

  /** The chosen target is the first in-range enemy of strictly greatest
      progress; there is none exactly when no in-range enemy has progress
      above the sentinel -1. */
  lemma TargetIsFirstBest(t: Tower, es: seq<Enemy>)
    ensures Target(t, es).None? <==>
      forall i | 0 <= i < |es| && InRange(t, es[i]) :: es[i].progress <= -1.0
    ensures Target(t, es).Some? ==>
      var k := Target(t, es).value;
      && k < |es| && InRange(t, es[k]) && es[k].progress > -1.0
      && (forall i | 0 <= i < k && InRange(t, es[i]) :: es[i].progress < es[k].progress)
      && (forall i | k < i < |es| && InRange(t, es[i]) :: es[i].progress <= es[k].progress)
  {
    ScanTargetsBest(t, es);
  }

  /** With non-negative progress (the entity invariant), a ready tower has a
      target exactly when some enemy is in range. */
  lemma TargetExists(t: Tower, es: seq<Enemy>)
    requires forall i | 0 <= i < |es| :: es[i].progress >= 0.0
    ensures Target(t, es).Some? <==> exists i | 0 <= i < |es| :: InRange(t, es[i])
  {
    TargetIsFirstBest(t, es);
  }

  /** A tower fires when its cooldown has run out and it has a target. */
  predicate Fires(t: Tower, es: seq<Enemy>) {
    t.cooldown <= 0.0 && Target(t, es).Some?
  }

  /** The tower after its turn: a cooling tower counts down by one, a firing
      tower restarts its cooldown, any other tower is unchanged. */
  function Cooled(t: Tower, es: seq<Enemy>): Tower {
    if t.cooldown > 0.0 then t.(cooldown := t.cooldown - 1.0)
    else if Fires(t, es) then t.(cooldown := t.cooldownMax)
    else t
  }

  /** The projectile a firing tower emits, with identity `id`. */
  function ShotOf(t: Tower, es: seq<Enemy>, id: nat): Projectile
    requires Fires(t, es)
  {
    Projectile(id, ToPoint(t.cell), es[Target(t, es).value].id, t.damage, ProjectileSpeed, t.kind == Ice)
  }

  /** One tower's turn: only the cooldown changes, and only a tower whose
      cooldown had run out and that has a target fires; the shot starts at the
      tower's cell, aims at the chosen enemy, carries the tower's current
      damage and the fixed projectile speed, and freezes iff the tower is an ice tower. */
  lemma CooledEffect(t: Tower, es: seq<Enemy>, id: nat)
    ensures Cooled(t, es) == t.(cooldown := Cooled(t, es).cooldown)
    ensures t.cooldown > 0.0 ==> Cooled(t, es).cooldown == t.cooldown - 1.0 && !Fires(t, es)
    ensures t.cooldown <= 0.0 ==>
      (Fires(t, es) <==> exists i | 0 <= i < |es| && InRange(t, es[i]) :: es[i].progress > -1.0)
    ensures !Fires(t, es) && t.cooldown <= 0.0 ==> Cooled(t, es) == t
    ensures Fires(t, es) ==>
      var p := ShotOf(t, es, id);
      && Cooled(t, es).cooldown == t.cooldownMax
      && p.id == id && p.pos == ToPoint(t.cell) && p.damage == t.damage
      && p.speed == ProjectileSpeed && (p.freeze <==> t.kind == Ice)
      && exists i | 0 <= i < |es| :: InRange(t, es[i]) && p.targetId == es[i].id
  {
    TargetIsFirstBest(t, es);
    if Fires(t, es) {
      var k := Target(t, es).value;
      assert InRange(t, es[k]) && ShotOf(t, es, id).targetId == es[k].id;
    }
  }

  /** The projectiles the towers emit, in tower order, numbered from `next`. */
  function Volley(ts: seq<Tower>, es: seq<Enemy>, next: nat): (ps: seq<Projectile>)
    ensures |ps| <= |ts|
    ensures forall j | 0 <= j < |ps| :: ps[j].id == next + j
    decreases |ts|
  {
    if |ts| == 0 then []
    else
      var n := |ts| - 1;
      var ps := Volley(ts[..n], es, next);
      ps + (if Fires(ts[n], es) then [ShotOf(ts[n], es, next + |ps|)] else [])
  }

  /** Every shot comes from a firing tower: shot `j` is the shot of the
      firing tower `i` that has exactly `j` firing towers before it, so
      distinct shots come from distinct towers, in tower order. */
  lemma {:induction false} VolleyFrom(ts: seq<Tower>, es: seq<Enemy>, next: nat, j: nat) returns (i: nat)
    requires j < |Volley(ts, es, next)|
    ensures i < |ts| && Fires(ts[i], es) && Volley(ts, es, next)[j] == ShotOf(ts[i], es, next + j)
    ensures FiringCount(ts[..i], es) == j
    decreases |ts|
  {
    var n := |ts| - 1;
    var ps := Volley(ts[..n], es, next);
    if j < |ps| {
      i := VolleyFrom(ts[..n], es, next, j);
      assert ts[..n][i] == ts[i];
      assert ts[..n][..i] == ts[..i];
    } else {
      i := n;
      VolleyCount(ts[..n], es, next);
      assert ts[..n] == ts[..i];
    }
  }

  /** Every firing tower contributes its shot: the shot of firing tower `i`
      stands at the position given by the number of firing towers before it. */
  lemma {:induction false} VolleyOf(ts: seq<Tower>, es: seq<Enemy>, next: nat, i: nat)
    requires i < |ts| && Fires(ts[i], es)
    ensures FiringCount(ts[..i], es) < |Volley(ts, es, next)|
    ensures var j := FiringCount(ts[..i], es);
      Volley(ts, es, next)[j] == ShotOf(ts[i], es, next + j)
    decreases |ts|
  {
    var n := |ts| - 1;
    if i < n {
      VolleyOf(ts[..n], es, next, i);
      assert ts[..n][..i] == ts[..i];
      assert ts[..n][i] == ts[i];
    } else {
      VolleyCount(ts[..n], es, next);
      assert ts[..n] == ts[..i];
    }
  }

  /** Every firing tower shoots exactly once. */
  lemma {:induction false} VolleyCount(ts: seq<Tower>, es: seq<Enemy>, next: nat)
    ensures |Volley(ts, es, next)| == FiringCount(ts, es)
    decreases |ts|
  {
    if |ts| > 0 {
      VolleyCount(ts[..|ts| - 1], es, next);
    }
  }

  /** The number of towers that fire this turn. */
  function FiringCount(ts: seq<Tower>, es: seq<Enemy>): nat
    decreases |ts|
  {
    if |ts| == 0 then 0
    else FiringCount(ts[..|ts| - 1], es) + (if Fires(ts[|ts| - 1], es) then 1 else 0)
  }

  /** Every tower after its turn, in place. */
  function CoolAll(ts: seq<Tower>, es: seq<Enemy>): (r: seq<Tower>)
    ensures |r| == |ts|
  {
    seq(|ts|, i requires 0 <= i < |ts| => Cooled(ts[i], es))
  }

  /** Stage 3 of a tick. */
  function TowerStage(w: World): World {
    var shots := Volley(w.towers, w.enemies, w.nextId);
    w.(towers := CoolAll(w.towers, w.enemies),
       projectiles := w.projectiles + shots,
       nextId := w.nextId + |shots|)
  }

  /** The stage keeps every invariant, consumes one fresh identity per shot,
      changes no tower field but the cooldown and leaves the enemies, the
      economy and the queue alone. */
  lemma TowerStageOk(w: World)
    requires StoreOk(w)
    ensures StoreOk(TowerStage(w))
    ensures TowerStage(w) == w.(towers := TowerStage(w).towers, projectiles := TowerStage(w).projectiles, nextId := TowerStage(w).nextId)
    ensures TowerStage(w).nextId == w.nextId + FiringCount(w.towers, w.enemies)
    ensures |TowerStage(w).towers| == |w.towers|
    ensures forall i | 0 <= i < |w.towers| ::
      TowerStage(w).towers[i] == w.towers[i].(cooldown := TowerStage(w).towers[i].cooldown)
  {
    var r := TowerStage(w);
    var shots := Volley(w.towers, w.enemies, w.nextId);
    VolleyCount(w.towers, w.enemies, w.nextId);
    forall i | 0 <= i < |r.towers|
      ensures r.towers[i] == w.towers[i].(cooldown := r.towers[i].cooldown) && r.towers[i].cooldown > -1.0
    {
      CooledEffect(w.towers[i], w.enemies, 0);
      assert TowerOk(w.towers[i]);
    }
    forall j | 0 <= j < |shots| ensures ProjectileOk(shots[j])
    {
      var i := VolleyFrom(w.towers, w.enemies, w.nextId, j);
      assert TowerOk(w.towers[i]);
    }
    assert EnemiesOk(r.enemies, r.nextId);
    assert ProjectilesOk(r.projectiles, r.nextId) by {
      forall a, b | 0 <= a < b < |r.projectiles| ensures r.projectiles[a].id != r.projectiles[b].id {
        if b >= |w.projectiles| && a < |w.projectiles| {
          assert r.projectiles[a].id < w.nextId;
        }
      }
    }
  }
}
