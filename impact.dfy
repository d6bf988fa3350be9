/** Stage 4 of a tick: projectiles fly at their targets, hits wound and
    freeze, kills are paid for once, and spent projectiles and dead enemies
    are removed. */
module Impact {
  import opened Catalog
  import opened Entities

  /** Position of the first enemy with identity `id`, as the engine's `find`. */
  function IndexOfId(es: seq<Enemy>, id: nat): (r: Option<nat>)
    ensures r.Some? ==> r.value < |es| && es[r.value].id == id && forall i | 0 <= i < r.value :: es[i].id != id
    ensures r.None? <==> forall i | 0 <= i < |es| :: es[i].id != id
    decreases |es|
  {
    if |es| == 0 then None
    else
      var n := |es| - 1;
      match IndexOfId(es[..n], id)
      case Some(k) => Some(k)
      case None => if es[n].id == id then Some(n) else None
  }

  /** Two enemy lists that agree on identity and position, index by index. */
  ghost predicate SameShape(a: seq<Enemy>, b: seq<Enemy>) {
    |a| == |b| && forall i | 0 <= i < |a| :: a[i] == b[i].(hp := a[i].hp, frozen := a[i].frozen)
  }

  /** Lookup by identity sees only identities. */
  lemma IndexOfSameShape(a: seq<Enemy>, b: seq<Enemy>, id: nat)
    requires SameShape(a, b)
    ensures IndexOfId(a, id) == IndexOfId(b, id)
  {
    var ra, rb := IndexOfId(a, id), IndexOfId(b, id);
    if ra.Some? {
      assert b[ra.value].id == id;
    }
    if rb.Some? {
      assert a[rb.value].id == id;
    }
  }

  /** The projectile strikes: its target is present and closer than one
      step (compared on squares; projectile speeds are positive). */
  predicate Strikes(p: Projectile, es: seq<Enemy>) {
    var k := IndexOfId(es, p.targetId);
    k.Some? && SqDist(p.pos, es[k.value].pos) < p.speed * p.speed
  }

  /** The projectile is spent this tick: its target is gone, or it strikes. */
  predicate Lands(p: Projectile, es: seq<Enemy>) {
    IndexOfId(es, p.targetId).None? || Strikes(p, es)
  }

  /** The projectile after its flight: a spent one stays where it is, any
      other steps toward its target. */
  function Moved(p: Projectile, es: seq<Enemy>, toward: Steer): Projectile {
    if Lands(p, es) then p
    else p.(pos := toward(p.pos, es[IndexOfId(es, p.targetId).value].pos, p.speed))
  }

  /** The projectile list after the in-place flight, spent ones included. */
  function Flown(ps: seq<Projectile>, es: seq<Enemy>, toward: Steer): (r: seq<Projectile>)
    ensures |r| == |ps|
    decreases |ps|
  {
    if |ps| == 0 then []
    else Flown(ps[..|ps| - 1], es, toward) + [Moved(ps[|ps| - 1], es, toward)]
  }

  /** Identities of the spent projectiles, in list order. */
  function LandedIds(ps: seq<Projectile>, es: seq<Enemy>): (r: seq<nat>)
    ensures |r| <= |ps|
    decreases |ps|
  {
    if |ps| == 0 then []
    else
      var p := ps[|ps| - 1];
      LandedIds(ps[..|ps| - 1], es) + (if Lands(p, es) then [p.id] else [])
  }

  /** The reference reading of the surviving projectiles: the unspent ones,
      moved, in order. */
  function InFlight(ps: seq<Projectile>, es: seq<Enemy>, toward: Steer): seq<Projectile>
    decreases |ps|
  {
    if |ps| == 0 then []
    else
      var p := ps[|ps| - 1];
      InFlight(ps[..|ps| - 1], es, toward) + (if Lands(p, es) then [] else [Moved(p, es, toward)])
  }

  /** Total damage the striking projectiles deal to the enemy `id`. */
  function DamageTo(ps: seq<Projectile>, es: seq<Enemy>, id: nat): real
    decreases |ps|
  {
    if |ps| == 0 then 0.0
    else
      var p := ps[|ps| - 1];
      DamageTo(ps[..|ps| - 1], es, id) + (if Strikes(p, es) && p.targetId == id then p.damage else 0.0)
  }

  /** Some striking freeze projectile hits the enemy `id`. */
  predicate FrozenBy(ps: seq<Projectile>, es: seq<Enemy>, id: nat)
    decreases |ps|
  {
    if |ps| == 0 then false
    else
      var p := ps[|ps| - 1];
      FrozenBy(ps[..|ps| - 1], es, id) || (Strikes(p, es) && p.freeze && p.targetId == id)
  }

  /** The stage's accumulators: the enemies as wounded so far, the projectiles
      as flown so far, the spent projectile identities, the identities of
      killed enemies and the reward earned. */
  datatype Impact = Impact(
    enemies: seq<Enemy>, flown: seq<Projectile>,
    hitIds: seq<nat>, deadIds: seq<nat>, earned: int)

  /** A spent projectile that does nothing else: its target is gone. */
  function Spend(acc: Impact, p: Projectile): Impact {
    acc.(flown := acc.flown + [p], hitIds := acc.hitIds + [p.id])
  }

  /** The projectile strikes enemy `k`: the enemy loses the projectile's
      damage, a freeze projectile resets its freeze counter, and the enemy is
      recorded dead and paid for when its hit points drop to zero or below for
      the first time. */
  function HitAt(acc: Impact, k: nat, p: Projectile): Impact
    requires k < |acc.enemies|
  {
    var e := acc.enemies[k];
    var hit := e.(hp := e.hp - p.damage, frozen := if p.freeze then FreezeTicks else e.frozen);
    var kill := hit.hp <= 0.0 && e.id !in acc.deadIds;
    Impact(acc.enemies[k := hit], acc.flown + [p], acc.hitIds + [p.id],
           if kill then acc.deadIds + [e.id] else acc.deadIds,
           if kill then acc.earned + e.reward else acc.earned)
  }

  /** One projectile's turn. */
  function ProjStep(acc: Impact, p: Projectile, toward: Steer): Impact {
    match IndexOfId(acc.enemies, p.targetId)
    case None => Spend(acc, p)
    case Some(k) =>
      if SqDist(p.pos, acc.enemies[k].pos) < p.speed * p.speed then HitAt(acc, k, p)
      else acc.(flown := acc.flown + [p.(pos := toward(p.pos, acc.enemies[k].pos, p.speed))])
  }

  /** One turn, seen through lists of the same shape as the original field. */
  lemma StepFlight(acc: Impact, p: Projectile, es: seq<Enemy>, toward: Steer)
    requires SameShape(acc.enemies, es)
    ensures ProjStep(acc, p, toward).flown == acc.flown + [Moved(p, es, toward)]
    ensures ProjStep(acc, p, toward).hitIds == acc.hitIds + (if Lands(p, es) then [p.id] else [])
  {
    IndexOfSameShape(acc.enemies, es, p.targetId);
  }

  /** All projectiles' turns, in list order. Only hit points and freeze
      counters of enemies change. */
  function ResolveAll(es: seq<Enemy>, ps: seq<Projectile>, toward: Steer): (r: Impact)
    ensures SameShape(r.enemies, es)
    decreases |ps|
  {
    if |ps| == 0 then Impact(es, [], [], [], 0)
    else ProjStep(ResolveAll(es, ps[..|ps| - 1], toward), ps[|ps| - 1], toward)
  }

  /** The flight accumulators agree with the reference functions. */
  lemma {:induction false} ResolveFlight(es: seq<Enemy>, ps: seq<Projectile>, toward: Steer)
    ensures ResolveAll(es, ps, toward).flown == Flown(ps, es, toward)
    ensures ResolveAll(es, ps, toward).hitIds == LandedIds(ps, es)
    decreases |ps|
  {
    if |ps| > 0 {
      var n := |ps| - 1;
      ResolveFlight(es, ps[..n], toward);
      StepFlight(ResolveAll(es, ps[..n], toward), ps[n], es, toward);
    }
  }

  /** One turn wounds only the struck enemy, by the projectile's damage, and
      freezes it when the projectile freezes. */
  lemma StepWound(acc: Impact, p: Projectile, es: seq<Enemy>, toward: Steer)
    requires SameShape(acc.enemies, es)
    requires forall i, j | 0 <= i < j < |es| :: es[i].id != es[j].id
    ensures forall i | 0 <= i < |es| ::
      && ProjStep(acc, p, toward).enemies[i].hp
         == acc.enemies[i].hp - (if Strikes(p, es) && p.targetId == es[i].id then p.damage else 0.0)
      && ProjStep(acc, p, toward).enemies[i].frozen
         == (if Strikes(p, es) && p.freeze && p.targetId == es[i].id then FreezeTicks else acc.enemies[i].frozen)
  {
    IndexOfSameShape(acc.enemies, es, p.targetId);
    var r := ProjStep(acc, p, toward);
    match IndexOfId(es, p.targetId)
    case None =>
    case Some(k) =>
      forall i | 0 <= i < |es| && i != k ensures es[i].id != p.targetId {
        assert es[i].id != es[k].id;
      }
  }

  /** Each enemy loses exactly the damage of the projectiles that strike it,
      and its freeze counter is reset to the full freeze time when a freeze
      projectile strikes it, and is otherwise untouched. */
  lemma {:induction false} ResolveDamage(es: seq<Enemy>, ps: seq<Projectile>, toward: Steer)
    requires forall i, j | 0 <= i < j < |es| :: es[i].id != es[j].id
    ensures forall i | 0 <= i < |es| ::
      && ResolveAll(es, ps, toward).enemies[i].hp == es[i].hp - DamageTo(ps, es, es[i].id)
      && ResolveAll(es, ps, toward).enemies[i].frozen
         == (if FrozenBy(ps, es, es[i].id) then FreezeTicks else es[i].frozen)
    decreases |ps|
  {
    if |ps| > 0 {
      var n := |ps| - 1;
      ResolveDamage(es, ps[..n], toward);
      StepWound(ResolveAll(es, ps[..n], toward), ps[n], es, toward);
    }
  }

  /** Projectiles carry positive damage, so the damage dealt is never negative. */
  lemma {:induction false} DamageToNonNeg(ps: seq<Projectile>, es: seq<Enemy>, id: nat)
    requires forall j | 0 <= j < |ps| :: ps[j].damage > 0.0
    ensures DamageTo(ps, es, id) >= 0.0
    decreases |ps|
  {
    if |ps| > 0 {
      var n := |ps| - 1;
      assert forall j | 0 <= j < n :: ps[..n][j] == ps[j];
      DamageToNonNeg(ps[..n], es, id);
    }
  }

  /** The stage never raises an enemy's hit points. */
  lemma HpNeverRises(es: seq<Enemy>, ps: seq<Projectile>, toward: Steer)
    requires forall i, j | 0 <= i < j < |es| :: es[i].id != es[j].id
    requires forall j | 0 <= j < |ps| :: ps[j].damage > 0.0
    ensures forall i | 0 <= i < |es| :: ResolveAll(es, ps, toward).enemies[i].hp <= es[i].hp
  {
    ResolveDamage(es, ps, toward);
    forall i | 0 <= i < |es| ensures DamageTo(ps, es, es[i].id) >= 0.0 {
      DamageToNonNeg(ps, es, es[i].id);
    }
  }

  /** Sum of the rewards of `es` restricted to the listed identities grows by
      one enemy's reward when that enemy's identity is added. */
  lemma {:induction false} OnlyEnemiesAdd(es: seq<Enemy>, ids: seq<nat>, k: nat)
    requires forall i, j | 0 <= i < j < |es| :: es[i].id != es[j].id
    requires k < |es| && es[k].id !in ids
    ensures RewardSum(OnlyEnemies(es, ids + [es[k].id])) == RewardSum(OnlyEnemies(es, ids)) + es[k].reward
    decreases |es|
  {
    var n := |es| - 1;
    var pre := es[..n];
    var d := es[k].id;
    if k == n {
      OnlyEnemiesAddLast(es, ids);
    } else {
      assert forall i, j | 0 <= i < j < n :: pre[i].id != pre[j].id;
      assert pre[k] == es[k];
      OnlyEnemiesAdd(pre, ids, k);
      assert es[n].id != d;
      var tail := if es[n].id in ids then [es[n]] else [];
      RewardSumAppend(OnlyEnemies(pre, ids + [d]), tail);
      RewardSumAppend(OnlyEnemies(pre, ids), tail);
    }
  }

  /** The case of `OnlyEnemiesAdd` where the added identity is the last member's. */
  lemma OnlyEnemiesAddLast(es: seq<Enemy>, ids: seq<nat>)
    requires |es| > 0
    requires forall i | 0 <= i < |es| - 1 :: es[i].id != es[|es| - 1].id
    requires es[|es| - 1].id !in ids
    ensures RewardSum(OnlyEnemies(es, ids + [es[|es| - 1].id])) == RewardSum(OnlyEnemies(es, ids)) + es[|es| - 1].reward
  {
    var n := |es| - 1;
    var pre := es[..n];
    var d := es[n].id;
    forall i | 0 <= i < n ensures pre[i].id in ids + [d] <==> pre[i].id in ids {
      assert pre[i].id == es[i].id != d;
    }
    OnlyEnemiesSameIds(pre, ids + [d], ids);
    assert OnlyEnemies(es, ids + [d]) == OnlyEnemies(pre, ids) + [es[n]];
    assert OnlyEnemies(es, ids) == OnlyEnemies(pre, ids);
    RewardSumAppend(OnlyEnemies(pre, ids), [es[n]]);
    assert RewardSum([es[n]]) == es[n].reward by {
      assert [es[n]][..0] == [];
    }
  }

  /** Selection by identity depends only on which members' identities are listed. */
  lemma {:induction false} OnlyEnemiesSameIds(es: seq<Enemy>, a: seq<nat>, b: seq<nat>)
    requires forall i | 0 <= i < |es| :: es[i].id in a <==> es[i].id in b
    ensures OnlyEnemies(es, a) == OnlyEnemies(es, b)
    decreases |es|
  {
    if |es| > 0 {
      OnlyEnemiesSameIds(es[..|es| - 1], a, b);
    }
  }

  /** The kill bookkeeping of an accumulator over the field `es`: an enemy is
      recorded dead exactly when its hit points are gone, no identity is
      recorded twice, and the earned reward is the recorded enemies' rewards. */
  ghost predicate KillsBooked(acc: Impact, es: seq<Enemy>)
    requires |acc.enemies| == |es|
  {
    && acc.earned >= 0
    && (forall i | 0 <= i < |es| :: acc.enemies[i].hp <= 0.0 <==> es[i].id in acc.deadIds)
    && (forall a, b | 0 <= a < b < |acc.deadIds| :: acc.deadIds[a] != acc.deadIds[b])
    && acc.earned == RewardSum(OnlyEnemies(es, acc.deadIds))
  }

  /** One turn keeps the kill bookkeeping: a struck enemy whose hit points
      drop to zero or below is recorded, and paid for, only the first time. */
  lemma StepKills(acc: Impact, p: Projectile, es: seq<Enemy>, toward: Steer)
    requires SameShape(acc.enemies, es)
    requires forall i, j | 0 <= i < j < |es| :: es[i].id != es[j].id
    requires forall i | 0 <= i < |es| :: es[i].reward >= 0
    requires p.damage > 0.0
    requires KillsBooked(acc, es)
    ensures SameShape(ProjStep(acc, p, toward).enemies, es)
    ensures KillsBooked(ProjStep(acc, p, toward), es)
  {
    IndexOfSameShape(acc.enemies, es, p.targetId);
    var r := ProjStep(acc, p, toward);
    match IndexOfId(es, p.targetId)
    case None =>
      assert r.enemies == acc.enemies && r.deadIds == acc.deadIds && r.earned == acc.earned;
    case Some(k) =>
      if SqDist(p.pos, acc.enemies[k].pos) < p.speed * p.speed {
        HitKills(acc, k, p, es);
      } else {
        assert r.enemies == acc.enemies && r.deadIds == acc.deadIds && r.earned == acc.earned;
      }
  }

  /** A strike keeps the kill bookkeeping. */
  lemma HitKills(acc: Impact, k: nat, p: Projectile, es: seq<Enemy>)
    requires SameShape(acc.enemies, es) && k < |es|
    requires forall i, j | 0 <= i < j < |es| :: es[i].id != es[j].id
    requires forall i | 0 <= i < |es| :: es[i].reward >= 0
    requires p.damage > 0.0
    requires KillsBooked(acc, es)
    ensures SameShape(HitAt(acc, k, p).enemies, es)
    ensures KillsBooked(HitAt(acc, k, p), es)
  {
    var r := HitAt(acc, k, p);
    var e := acc.enemies[k];
    assert e.id == es[k].id && e.reward == es[k].reward;
    forall i | 0 <= i < |es| && i != k ensures es[i].id != es[k].id && r.enemies[i] == acc.enemies[i] {
    }
    if e.hp - p.damage <= 0.0 && e.id !in acc.deadIds {
      OnlyEnemiesAdd(es, acc.deadIds, k);
    }
  }

  /** Kill bookkeeping over the whole stage. */
  lemma {:induction false} ResolveKills(es: seq<Enemy>, ps: seq<Projectile>, toward: Steer)
    requires forall i, j | 0 <= i < j < |es| :: es[i].id != es[j].id
    requires forall i | 0 <= i < |es| :: es[i].hp > 0.0
    requires forall i | 0 <= i < |es| :: es[i].reward >= 0
    requires forall j | 0 <= j < |ps| :: ps[j].damage > 0.0
    ensures KillsBooked(ResolveAll(es, ps, toward), es)
    decreases |ps|
  {
    if |ps| == 0 {
      OnlyEnemiesNone(es);
    } else {
      var n := |ps| - 1;
      ResolveKills(es, ps[..n], toward);
      StepKills(ResolveAll(es, ps[..n], toward), ps[n], es, toward);
    }
  }

  lemma {:induction false} OnlyEnemiesNone(es: seq<Enemy>)
    ensures OnlyEnemies(es, []) == []
    decreases |es|
  {
    if |es| > 0 {
      OnlyEnemiesNone(es[..|es| - 1]);
    }
  }

  /** The living enemies, in order. */
  function Alive(es: seq<Enemy>): (r: seq<Enemy>)
    ensures forall i | 0 <= i < |r| :: r[i].hp > 0.0
    decreases |es|
  {
    if |es| == 0 then []
    else Alive(es[..|es| - 1]) + (if es[|es| - 1].hp > 0.0 then [es[|es| - 1]] else [])
  }

  /** When exactly the enemies with no hit points left are listed, removing
      the listed identities keeps exactly the living ones. */
  lemma {:induction false} WithoutDeadIsAlive(es: seq<Enemy>, ids: seq<nat>)
    requires forall i | 0 <= i < |es| :: es[i].hp <= 0.0 <==> es[i].id in ids
    ensures WithoutEnemies(es, ids) == Alive(es)
    decreases |es|
  {
    if |es| > 0 {
      WithoutDeadIsAlive(es[..|es| - 1], ids);
    }
  }

  /** Two lists that agree on identities and rewards carry the same rewards. */
  lemma {:induction false} RewardSumSameTags(a: seq<Enemy>, b: seq<Enemy>, ids: seq<nat>)
    requires |a| == |b| && forall i | 0 <= i < |a| :: a[i].id == b[i].id && a[i].reward == b[i].reward
    ensures RewardSum(a) == RewardSum(b)
    ensures RewardSum(OnlyEnemies(a, ids)) == RewardSum(OnlyEnemies(b, ids))
    decreases |a|
  {
    if |a| > 0 {
      var n := |a| - 1;
      RewardSumSameTags(a[..n], b[..n], ids);
      RewardSumAppend(OnlyEnemies(a[..n], ids), if a[n].id in ids then [a[n]] else []);
      RewardSumAppend(OnlyEnemies(b[..n], ids), if b[n].id in ids then [b[n]] else []);
    }
  }

  /** The enemies the stage keeps: the dead ones are removed when there are any. */
  function Remaining(res: Impact): seq<Enemy> {
    if |res.deadIds| > 0 then WithoutEnemies(res.enemies, res.deadIds) else res.enemies
  }

  /** The money the stage pays out: the earned rewards when something died. */
  function Payout(res: Impact): int {
    if |res.deadIds| > 0 then res.earned else 0
  }

  /** Stage 4 of a tick. */
  function ProjectileStage(w: World, toward: Steer): World {
    var res := ResolveAll(w.enemies, w.projectiles, toward);
    w.(projectiles := WithoutProjectiles(res.flown, res.hitIds),
       enemies := Remaining(res),
       money := w.money + Payout(res))
  }

  /** On a field with distinct identities and living enemies, the stage keeps
      exactly the wounded enemies still alive and pays exactly the rewards of
      the removed ones: the rewards on the field before equal the rewards
      left plus the payout. */
  lemma HarvestAlive(es: seq<Enemy>, ps: seq<Projectile>, toward: Steer)
    requires forall i, j | 0 <= i < j < |es| :: es[i].id != es[j].id
    requires forall i | 0 <= i < |es| :: es[i].hp > 0.0 && es[i].reward >= 0
    requires forall j | 0 <= j < |ps| :: ps[j].damage > 0.0
    ensures var res := ResolveAll(es, ps, toward);
      && Remaining(res) == Alive(res.enemies)
      && Payout(res) >= 0
      && RewardSum(es) == RewardSum(Remaining(res)) + Payout(res)
  {
    var res := ResolveAll(es, ps, toward);
    var hs := res.enemies;
    ResolveKills(es, ps, toward);
    assert forall i | 0 <= i < |hs| :: hs[i].hp <= 0.0 <==> hs[i].id in res.deadIds;
    WithoutDeadIsAlive(hs, res.deadIds);
    if |res.deadIds| == 0 {
      WithoutEnemiesNone(hs);
      OnlyEnemiesNone(es);
    }
    assert Remaining(res) == WithoutEnemies(hs, res.deadIds);
    RewardSumSameTags(hs, es, res.deadIds);
    RewardSumSplit(hs, res.deadIds);
  }

  /** The wounded enemies after the stage's turns. */
  function Wounded(w: World, toward: Steer): seq<Enemy> {
    ResolveAll(w.enemies, w.projectiles, toward).enemies
  }

  /** What the stage does, stated without its accumulators: the enemies left
      are exactly the wounded ones still alive, in order; each wounded enemy
      has lost exactly the damage that struck it; the money grows by exactly
      the rewards of the enemies removed, so the rewards on the field plus the
      money are conserved; the projectiles left are exactly the unspent ones,
      moved; and nothing else changes. */
  lemma ProjectileStageEffect(w: World, toward: Steer)
    requires StoreOk(w)
    ensures var r := ProjectileStage(w, toward);
      var hs := Wounded(w, toward);
      && r.enemies == Alive(hs)
      && SameShape(hs, w.enemies)
      && (forall i | 0 <= i < |hs| :: hs[i].hp == w.enemies[i].hp - DamageTo(w.projectiles, w.enemies, w.enemies[i].id))
      && RewardSum(w.enemies) == RewardSum(r.enemies) + (r.money - w.money)
      && r.money >= w.money
      && r.projectiles == InFlight(w.projectiles, w.enemies, toward)
      && r == w.(enemies := r.enemies, projectiles := r.projectiles, money := r.money)
  {
    StoreFacts(w);
    ResolveEffect(w.enemies, w.projectiles, toward);
  }

  /** The outcome of resolving every projectile, stated against the
      reference functions, for lists with unique identities. */
  lemma ResolveEffect(es: seq<Enemy>, ps: seq<Projectile>, toward: Steer)
    requires forall i, j | 0 <= i < j < |es| :: es[i].id != es[j].id
    requires forall i | 0 <= i < |es| :: es[i].hp > 0.0 && es[i].reward >= 0
    requires forall j | 0 <= j < |ps| :: ps[j].damage > 0.0
    requires forall i, j | 0 <= i < j < |ps| :: ps[i].id != ps[j].id
    ensures var res := ResolveAll(es, ps, toward);
      && Remaining(res) == Alive(res.enemies)
      && SameShape(res.enemies, es)
      && (forall i | 0 <= i < |es| :: res.enemies[i].hp == es[i].hp - DamageTo(ps, es, es[i].id))
      && Payout(res) >= 0
      && RewardSum(es) == RewardSum(Remaining(res)) + Payout(res)
      && WithoutProjectiles(res.flown, res.hitIds) == InFlight(ps, es, toward)
  {
    ResolveDamage(es, ps, toward);
    HarvestAlive(es, ps, toward);
    ResolveFlight(es, ps, toward);
    InFlightByIdentity(ps, es, toward);
  }

  /** Because projectile identities are unique, removing the spent ones by
      identity leaves exactly the unspent ones, moved. */
  lemma {:induction false} InFlightByIdentity(ps: seq<Projectile>, es: seq<Enemy>, toward: Steer)
    requires forall i, j | 0 <= i < j < |ps| :: ps[i].id != ps[j].id
    ensures WithoutProjectiles(Flown(ps, es, toward), LandedIds(ps, es)) == InFlight(ps, es, toward)
    decreases |ps|
  {
    if |ps| > 0 {
      var n := |ps| - 1;
      var front := ps[..n];
      assert forall i | 0 <= i < n :: front[i] == ps[i];
      InFlightByIdentity(front, es, toward);
      LastNotLandedBefore(ps, es);
      assert forall i | 0 <= i < n :: ps[i].id != ps[n].id;
      InFlightStep(ps, es, toward);
    }
  }

  /** The inductive step: the last projectile's identity occurs nowhere before it. */
  lemma {:induction false} InFlightStep(ps: seq<Projectile>, es: seq<Enemy>, toward: Steer)
    requires |ps| > 0
    requires forall i | 0 <= i < |ps| - 1 :: ps[i].id != ps[|ps| - 1].id
    requires ps[|ps| - 1].id !in LandedIds(ps[..|ps| - 1], es)
    requires WithoutProjectiles(Flown(ps[..|ps| - 1], es, toward), LandedIds(ps[..|ps| - 1], es))
          == InFlight(ps[..|ps| - 1], es, toward)
    ensures WithoutProjectiles(Flown(ps, es, toward), LandedIds(ps, es)) == InFlight(ps, es, toward)
  {
    var n := |ps| - 1;
    var last := ps[n];
    var moved := Flown(ps, es, toward);
    assert moved[..n] == Flown(ps[..n], es, toward);
    var h0 := LandedIds(ps[..n], es);
    var h1 := LandedIds(ps, es);
    forall i | 0 <= i < n ensures moved[..n][i].id in h0 <==> moved[..n][i].id in h1 {
      FlownId(ps[..n], es, toward, i);
      assert ps[..n][i].id == ps[i].id != last.id;
    }
    WithoutProjectilesSameIds(moved[..n], h0, h1);
    WithoutProjectilesLast(moved, h1);
    assert moved[n] == Moved(last, es, toward);
    assert last.id in h1 <==> Lands(last, es);
    calc {
      WithoutProjectiles(moved, h1);
      WithoutProjectiles(moved[..n], h1) + (if moved[n].id in h1 then [] else [moved[n]]);
      InFlight(ps[..n], es, toward) + (if Lands(last, es) then [] else [Moved(last, es, toward)]);
    }
  }

  /** Flight keeps every projectile's identity. */
  lemma {:induction false} FlownId(ps: seq<Projectile>, es: seq<Enemy>, toward: Steer, i: nat)
    requires i < |ps|
    ensures Flown(ps, es, toward)[i].id == ps[i].id
    decreases |ps|
  {
    var n := |ps| - 1;
    if i < n {
      FlownId(ps[..n], es, toward, i);
    }
  }

  lemma {:induction false} WithoutProjectilesSameIds(ps: seq<Projectile>, a: seq<nat>, b: seq<nat>)
    requires forall i | 0 <= i < |ps| :: ps[i].id in a <==> ps[i].id in b
    ensures WithoutProjectiles(ps, a) == WithoutProjectiles(ps, b)
    decreases |ps|
  {
    if |ps| > 0 {
      WithoutProjectilesSameIds(ps[..|ps| - 1], a, b);
    }
  }

  lemma WithoutProjectilesLast(ps: seq<Projectile>, ids: seq<nat>)
    requires |ps| > 0
    ensures WithoutProjectiles(ps, ids)
         == WithoutProjectiles(ps[..|ps| - 1], ids) + (if ps[|ps| - 1].id in ids then [] else [ps[|ps| - 1]])
  {
  }

  /** Only spent projectiles' identities are listed. */
  lemma {:induction false} LandedIdsFrom(ps: seq<Projectile>, es: seq<Enemy>, d: nat)
    requires d in LandedIds(ps, es)
    ensures exists i | 0 <= i < |ps| :: ps[i].id == d && Lands(ps[i], es)
    decreases |ps|
  {
    var n := |ps| - 1;
    if d in LandedIds(ps[..n], es) {
      LandedIdsFrom(ps[..n], es, d);
      var i :| 0 <= i < n && ps[..n][i].id == d && Lands(ps[..n][i], es);
      assert ps[i] == ps[..n][i];
    } else {
      assert ps[n].id == d && Lands(ps[n], es);
    }
  }

  lemma LastNotLandedBefore(ps: seq<Projectile>, es: seq<Enemy>)
    requires |ps| > 0
    requires forall i, j | 0 <= i < j < |ps| :: ps[i].id != ps[j].id
    ensures ps[|ps| - 1].id !in LandedIds(ps[..|ps| - 1], es)
  {
    var n := |ps| - 1;
    if ps[n].id in LandedIds(ps[..n], es) {
      LandedIdsFrom(ps[..n], es, ps[n].id);
      assert false;
    }
  }

  /** With no enemy on the field every projectile is spent. */
  lemma {:induction false} NoTargetsNoFlight(ps: seq<Projectile>, toward: Steer)
    ensures InFlight(ps, [], toward) == []
    decreases |ps|
  {
    if |ps| > 0 {
      NoTargetsNoFlight(ps[..|ps| - 1], toward);
    }
  }

  /** A wounded enemy keeps its identity, and satisfies the entity
      invariant as long as it has hit points left. */
  lemma WoundedOk(es: seq<Enemy>, ps: seq<Projectile>, toward: Steer, next: nat)
    requires EnemiesOk(es, next)
    ensures var hs := ResolveAll(es, ps, toward).enemies;
      && |hs| == |es|
      && (forall i | 0 <= i < |hs| :: hs[i].id == es[i].id && hs[i].id < next)
      && (forall i | 0 <= i < |hs| && hs[i].hp > 0.0 :: EnemyOk(hs[i]))
  {
    var hs := ResolveAll(es, ps, toward).enemies;
    ResolveDamage(es, ps, toward);
    forall i | 0 <= i < |hs| && hs[i].hp > 0.0 ensures EnemyOk(hs[i]) {
      assert EnemyOk(es[i]);
      FrozenNonNegative(ps, es, es[i]);
    }
  }

  /** The enemies the stage keeps satisfy the entity invariant. */
  lemma RemainingOk(es: seq<Enemy>, ps: seq<Projectile>, toward: Steer, next: nat)
    requires EnemiesOk(es, next)
    requires forall j | 0 <= j < |ps| :: ps[j].damage > 0.0
    ensures EnemiesOk(Remaining(ResolveAll(es, ps, toward)), next)
  {
    var res := ResolveAll(es, ps, toward);
    WoundedOk(es, ps, toward, next);
    forall i | 0 <= i < |es| ensures es[i].hp > 0.0 && es[i].reward >= 0 {
      assert EnemyOk(es[i]);
    }
    HarvestAlive(es, ps, toward);
    RemainingOkFrom(es, res, next);
  }

  /** The step of `RemainingOk` that depends only on the shape of the outcome:
      wounded enemies with the original identities, and only living ones kept. */
  lemma RemainingOkFrom(es: seq<Enemy>, res: Impact, next: nat)
    requires EnemiesOk(es, next)
    requires |res.enemies| == |es|
    requires forall i | 0 <= i < |es| :: res.enemies[i].id == es[i].id
    requires forall i | 0 <= i < |es| && res.enemies[i].hp > 0.0 :: EnemyOk(res.enemies[i])
    requires forall i | 0 <= i < |Remaining(res)| :: Remaining(res)[i].hp > 0.0
    ensures EnemiesOk(Remaining(res), next)
  {
    var hs := res.enemies;
    assert forall i, j | 0 <= i < j < |hs| :: hs[i].id != hs[j].id;
    var rest := Remaining(res);
    if |res.deadIds| > 0 {
      WithoutEnemiesUnique(hs, res.deadIds);
      forall i | 0 <= i < |rest| ensures rest[i] in hs {
        WithoutEnemiesKeeps(hs, res.deadIds, rest[i]);
      }
    }
    KeptOk(hs, rest, next);
  }

  /** Living members drawn from a list whose living members satisfy the
      entity invariant satisfy it too. */
  lemma KeptOk(hs: seq<Enemy>, rest: seq<Enemy>, next: nat)
    requires forall i | 0 <= i < |hs| :: hs[i].id < next
    requires forall i | 0 <= i < |hs| && hs[i].hp > 0.0 :: EnemyOk(hs[i])
    requires forall i | 0 <= i < |rest| :: rest[i] in hs && rest[i].hp > 0.0
    requires forall i, j | 0 <= i < j < |rest| :: rest[i].id != rest[j].id
    ensures EnemiesOk(rest, next)
  {
    forall i | 0 <= i < |rest| ensures EnemyOk(rest[i]) && rest[i].id < next {
      var k :| 0 <= k < |hs| && hs[k] == rest[i];
    }
  }

  /** The projectiles after their flight satisfy the projectile invariant. */
  lemma FlownOk(ps: seq<Projectile>, es: seq<Enemy>, toward: Steer, next: nat)
    requires ProjectilesOk(ps, next)
    ensures ProjectilesOk(Flown(ps, es, toward), next)
  {
    var f := Flown(ps, es, toward);
    forall i | 0 <= i < |ps| ensures f[i] == ps[i].(pos := f[i].pos) {
      FlownKeeps(ps, es, toward, i);
    }
    forall i | 0 <= i < |ps| ensures ProjectileOk(f[i]) && f[i].id < next {
      assert ProjectileOk(ps[i]);
    }
  }

  /** The stage keeps every invariant. */
  lemma ProjectileStageOk(w: World, toward: Steer)
    requires StoreOk(w)
    ensures StoreOk(ProjectileStage(w, toward))
  {
    var es, ps := w.enemies, w.projectiles;
    var res := ResolveAll(es, ps, toward);
    StoreFacts(w);
    RemainingOk(es, ps, toward, w.nextId);
    HarvestAlive(es, ps, toward);
    ResolveFlight(es, ps, toward);
    FlownOk(ps, es, toward, w.nextId);
    WithoutProjectilesOk(res.flown, res.hitIds, w.nextId);
  }

  lemma FrozenNonNegative(ps: seq<Projectile>, es: seq<Enemy>, e: Enemy)
    requires e.frozen >= 0
    ensures (if FrozenBy(ps, es, e.id) then FreezeTicks else e.frozen) >= 0
  {
  }

  /** Flight changes only a projectile's position. */
  lemma {:induction false} FlownKeeps(ps: seq<Projectile>, es: seq<Enemy>, toward: Steer, i: nat)
    requires i < |ps|
    ensures Flown(ps, es, toward)[i] == ps[i].(pos := Flown(ps, es, toward)[i].pos)
    decreases |ps|
  {
    var n := |ps| - 1;
    if i < n {
      FlownKeeps(ps[..n], es, toward, i);
    }
  }

  /** The entity invariant, flattened into the facts the stage needs. */
  lemma StoreFacts(w: World)
    requires StoreOk(w)
    ensures forall i | 0 <= i < |w.enemies| :: w.enemies[i].hp > 0.0 && w.enemies[i].reward >= 0
    ensures forall j | 0 <= j < |w.projectiles| :: w.projectiles[j].damage > 0.0
  {
    forall i | 0 <= i < |w.enemies| ensures w.enemies[i].hp > 0.0 && w.enemies[i].reward >= 0 {
      assert EnemyOk(w.enemies[i]);
    }
    forall j | 0 <= j < |w.projectiles| ensures w.projectiles[j].damage > 0.0 {
      assert ProjectileOk(w.projectiles[j]);
    }
  }

  /** Two fatal projectiles landing on one goblin in the same tick: the
      goblin is recorded dead once and its reward is paid once. */
  lemma DoubleKillPaidOnce(toward: Steer)
    ensures var g := Enemy(7, Goblin, Point(5.0, 5.0), 10.0, 30.0, 0.05, 1, 0, 5, 3.0);
      var shot1 := Projectile(8, Point(5.0, 5.0), 7, 15.0, ProjectileSpeed, false);
      var shot2 := Projectile(9, Point(5.0, 5.0), 7, 15.0, ProjectileSpeed, false);
      var res := ResolveAll([g], [shot1, shot2], toward);
      && res.deadIds == [7]
      && res.earned == 5
      && res.hitIds == [8, 9]
      && res.enemies[0].hp == -20.0
  {
    var g := Enemy(7, Goblin, Point(5.0, 5.0), 10.0, 30.0, 0.05, 1, 0, 5, 3.0);
    var shot1 := Projectile(8, Point(5.0, 5.0), 7, 15.0, ProjectileSpeed, false);
    var shot2 := Projectile(9, Point(5.0, 5.0), 7, 15.0, ProjectileSpeed, false);
    assert [shot1, shot2][..1] == [shot1];
    assert [shot1][..0] == [];
    assert IndexOfId([g], 7) == Some(0) by {
      assert [g][..0] == [];
    }
    var acc0 := Impact([g], [], [], [], 0);
    assert ResolveAll([g], [], toward) == acc0;
    assert SqDist(shot1.pos, g.pos) == 0.0;
    var acc1 := HitAt(acc0, 0, shot1);
    assert ResolveAll([g], [shot1], toward) == acc1;
    assert acc1.enemies == [g.(hp := -5.0)] && acc1.deadIds == [7] && acc1.earned == 5;
    assert IndexOfId(acc1.enemies, 7) == Some(0) by {
      assert acc1.enemies[..0] == [];
    }
    assert ResolveAll([g], [shot1, shot2], toward) == HitAt(acc1, 0, shot2);
  }

  /** Two projectiles neither of which is fatal alone, 15 and 20 on a goblin
      with 30 hit points: the first leaves it alive, the second kills it by
      the accumulated damage, and the reward is paid once. */
  lemma CombinedKillPaidOnce(toward: Steer)
    ensures var g := Enemy(7, Goblin, Point(5.0, 5.0), 30.0, 30.0, 0.05, 1, 0, 5, 3.0);
      var shot1 := Projectile(8, Point(5.0, 5.0), 7, 15.0, ProjectileSpeed, false);
      var shot2 := Projectile(9, Point(5.0, 5.0), 7, 20.0, ProjectileSpeed, false);
      && ResolveAll([g], [shot1], toward).deadIds == []
      && ResolveAll([g], [shot1], toward).enemies[0].hp == 15.0
      && var res := ResolveAll([g], [shot1, shot2], toward);
      && res.deadIds == [7]
      && res.earned == 5
      && res.hitIds == [8, 9]
      && res.enemies[0].hp == -5.0
  {
    var g := Enemy(7, Goblin, Point(5.0, 5.0), 30.0, 30.0, 0.05, 1, 0, 5, 3.0);
    var shot1 := Projectile(8, Point(5.0, 5.0), 7, 15.0, ProjectileSpeed, false);
    var shot2 := Projectile(9, Point(5.0, 5.0), 7, 20.0, ProjectileSpeed, false);
    assert [shot1, shot2][..1] == [shot1];
    assert [shot1][..0] == [];
    assert IndexOfId([g], 7) == Some(0) by {
      assert [g][..0] == [];
    }
    var acc0 := Impact([g], [], [], [], 0);
    assert ResolveAll([g], [], toward) == acc0;
    assert SqDist(shot1.pos, g.pos) == 0.0;
    var acc1 := HitAt(acc0, 0, shot1);
    assert ResolveAll([g], [shot1], toward) == acc1;
    assert acc1.enemies == [g.(hp := 15.0)] && acc1.deadIds == [] && acc1.earned == 0;
    assert IndexOfId(acc1.enemies, 7) == Some(0) by {
      assert acc1.enemies[..0] == [];
    }
    assert ResolveAll([g], [shot1, shot2], toward) == HitAt(acc1, 0, shot2);
  }
}
