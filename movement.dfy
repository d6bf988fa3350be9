/** Stage 2 of a tick: every enemy walks toward its next waypoint; those
    past the last one escape and cost lives. */
module Movement {
  import opened Catalog
  import opened Entities

  /** An enemy whose next waypoint does not exist has reached the exit. */
  predicate Escapes(e: Enemy) {
    e.pathIndex + 1 >= |Path|
  }

  /** Half the archetype speed while frozen. */
  function EffectiveSpeed(e: Enemy): real {
    if e.frozen > 0 then e.speed * 0.5 else e.speed
  }

  /** One enemy's walk for one tick. */
  function MoveEnemy(e: Enemy, toward: Steer): (m: Enemy)
    requires !Escapes(e)
    ensures m == e.(pos := m.pos, pathIndex := m.pathIndex, frozen := m.frozen, progress := m.progress)
    ensures m.pathIndex == e.pathIndex + 1 <==>
              SqDist(e.pos, ToPoint(Path[e.pathIndex + 1])) < EffectiveSpeed(e) * EffectiveSpeed(e)
    ensures m.pathIndex == e.pathIndex || (m.pathIndex == e.pathIndex + 1 && m.pos == ToPoint(Path[m.pathIndex]))
    ensures e.frozen > 0 ==> m.frozen == e.frozen - 1
    ensures e.frozen <= 0 ==> m.frozen == e.frozen
    ensures m.progress == e.progress + EffectiveSpeed(e)
    ensures EnemyOk(e) ==> EnemyOk(m) && m.progress > e.progress
  {
    var target := ToPoint(Path[e.pathIndex + 1]);
    var speed := EffectiveSpeed(e);
    var e1 := e.(frozen := if e.frozen > 0 then e.frozen - 1 else e.frozen);
    var e2 :=
      if SqDist(e.pos, target) < speed * speed then e1.(pos := target, pathIndex := e.pathIndex + 1)
      else e1.(pos := toward(e.pos, target, speed));
    e2.(progress := e.progress + speed)
  }

  /** Escaping enemies are left where they are; the rest walk. */
  function StepEnemy(e: Enemy, toward: Steer): Enemy {
    if Escapes(e) then e else MoveEnemy(e, toward)
  }

  /** The enemy list after the in-place walk, escapers untouched. */
  function Advance(es: seq<Enemy>, toward: Steer): (r: seq<Enemy>)
    ensures |r| == |es|
  {
    seq(|es|, i requires 0 <= i < |es| => StepEnemy(es[i], toward))
  }

  /** Identities of the escaping enemies, in list order. */
  function EscapedIds(es: seq<Enemy>): (r: seq<nat>)
    ensures |r| <= |es|
    decreases |es|
  {
    if |es| == 0 then []
    else
      var e := es[|es| - 1];
      EscapedIds(es[..|es| - 1]) + (if Escapes(e) then [e.id] else [])
  }

  /** Only escaping enemies' identities are listed. */
  lemma {:induction false} EscapedIdsFrom(es: seq<Enemy>, d: nat)
    requires d in EscapedIds(es)
    ensures exists i | 0 <= i < |es| :: es[i].id == d && Escapes(es[i])
    decreases |es|
  {
    var n := |es| - 1;
    if d in EscapedIds(es[..n]) {
      EscapedIdsFrom(es[..n], d);
      var i :| 0 <= i < n && es[..n][i].id == d && Escapes(es[..n][i]);
      assert es[i] == es[..n][i];
    } else {
      assert es[n].id == d && Escapes(es[n]);
    }
  }

  /** The reference reading of the stage's outcome: the non-escapers, walked, in order. */
  function Survivors(es: seq<Enemy>, toward: Steer): seq<Enemy>
    decreases |es|
  {
    if |es| == 0 then []
    else
      var e := es[|es| - 1];
      Survivors(es[..|es| - 1], toward) + (if Escapes(e) then [] else [MoveEnemy(e, toward)])
  }

  /** Removal by identity depends only on which members' identities are listed. */
  lemma {:induction false} WithoutEnemiesSameIds(es: seq<Enemy>, a: seq<nat>, b: seq<nat>)
    requires forall i | 0 <= i < |es| :: es[i].id in a <==> es[i].id in b
    ensures WithoutEnemies(es, a) == WithoutEnemies(es, b)
    decreases |es|
  {
    if |es| > 0 {
      WithoutEnemiesSameIds(es[..|es| - 1], a, b);
    }
  }

  /** Because identities are unique, removing the escapers by identity
      leaves exactly the walked non-escapers; every enemy either escapes or survives. */
  lemma {:induction false} SurvivorsByIdentity(es: seq<Enemy>, toward: Steer)
    requires forall i, j | 0 <= i < j < |es| :: es[i].id != es[j].id
    ensures WithoutEnemies(Advance(es, toward), EscapedIds(es)) == Survivors(es, toward)
    ensures |EscapedIds(es)| + |Survivors(es, toward)| == |es|
    decreases |es|
  {
    if |es| > 0 {
      var n := |es| - 1;
      var front := es[..n];
      assert forall i | 0 <= i < n :: front[i] == es[i];
      SurvivorsByIdentity(front, toward);
      LastNotEscapedBefore(es);
      assert forall i | 0 <= i < n :: es[i].id != es[n].id;
      SurvivorsStep(es, toward);
    }
    EscapedOrSurvives(es, toward);
  }

  /** Every enemy either escapes or survives the walk. */
  lemma {:induction false} EscapedOrSurvives(es: seq<Enemy>, toward: Steer)
    ensures |EscapedIds(es)| + |Survivors(es, toward)| == |es|
    decreases |es|
  {
    if |es| > 0 {
      EscapedOrSurvives(es[..|es| - 1], toward);
    }
  }

  /** The inductive step: the last enemy's identity occurs nowhere before it. */
  lemma {:induction false} SurvivorsStep(es: seq<Enemy>, toward: Steer)
    requires |es| > 0
    requires forall i | 0 <= i < |es| - 1 :: es[i].id != es[|es| - 1].id
    requires es[|es| - 1].id !in EscapedIds(es[..|es| - 1])
    requires WithoutEnemies(Advance(es[..|es| - 1], toward), EscapedIds(es[..|es| - 1]))
          == Survivors(es[..|es| - 1], toward)
    ensures WithoutEnemies(Advance(es, toward), EscapedIds(es)) == Survivors(es, toward)
  {
    var n := |es| - 1;
    var last := es[n];
    var moved := Advance(es, toward);
    assert moved[..n] == Advance(es[..n], toward);
    var e0 := EscapedIds(es[..n]);
    var e1 := EscapedIds(es);
    assert e1 == e0 + (if Escapes(last) then [last.id] else []);
    forall i | 0 <= i < n ensures moved[..n][i].id in e0 <==> moved[..n][i].id in e1 {
      assert moved[..n][i].id == es[i].id != last.id;
    }
    WithoutEnemiesSameIds(moved[..n], e0, e1);
    WithoutEnemiesLast(moved, e1);
    assert moved[n] == StepEnemy(last, toward);
    assert last.id in e1 <==> Escapes(last);
    calc {
      WithoutEnemies(moved, e1);
      WithoutEnemies(moved[..n], e1) + (if moved[n].id in e1 then [] else [moved[n]]);
      Survivors(es[..n], toward) + (if Escapes(last) then [] else [MoveEnemy(last, toward)]);
    }
  }

  lemma WithoutEnemiesLast(es: seq<Enemy>, ids: seq<nat>)
    requires |es| > 0
    ensures WithoutEnemies(es, ids)
         == WithoutEnemies(es[..|es| - 1], ids) + (if es[|es| - 1].id in ids then [] else [es[|es| - 1]])
  {
  }

  lemma LastNotEscapedBefore(es: seq<Enemy>)
    requires |es| > 0
    requires forall i, j | 0 <= i < j < |es| :: es[i].id != es[j].id
    ensures es[|es| - 1].id !in EscapedIds(es[..|es| - 1])
  {
    var n := |es| - 1;
    if es[n].id in EscapedIds(es[..n]) {
      EscapedIdsFrom(es[..n], es[n].id);
      assert false;
    }
  }

  function Max0(x: int): int { if x > 0 then x else 0 }

  /** Stage 2 of a tick. */
  function MoveStage(w: World, toward: Steer): World {
    var escaped := EscapedIds(w.enemies);
    var moved := Advance(w.enemies, toward);
    if |escaped| > 0 then
      var lost := w.lives - |escaped| <= 0;
      w.(enemies := WithoutEnemies(moved, escaped),
         lives := Max0(w.lives - |escaped|),
         over := if lost then true else w.over,
         playing := if lost then false else w.playing)
    else
      w.(enemies := moved)
  }

  /** The stage walks exactly the non-escapers, charges one life per escaper
      (never below zero) and ends the game when the escapers use up all lives. */
  lemma MoveStageEffect(w: World, toward: Steer)
    requires StoreOk(w)
    ensures var r := MoveStage(w, toward);
      var n := |w.enemies| - |Survivors(w.enemies, toward)|;
      && r.enemies == Survivors(w.enemies, toward)
      && r.lives == Max0(w.lives - n)
      && (n > 0 && n >= w.lives ==> r.over && !r.playing)
      && (n < w.lives ==> r.over == w.over && r.playing == w.playing)
      && r == w.(enemies := r.enemies, lives := r.lives, over := r.over, playing := r.playing)
  {
    SurvivorsByIdentity(w.enemies, toward);
    var moved := Advance(w.enemies, toward);
    if |EscapedIds(w.enemies)| == 0 {
      assert WithoutEnemies(moved, []) == moved by {
        WithoutEnemiesNone(moved);
      }
    }
  }

  lemma MoveStageOk(w: World, toward: Steer)
    requires StoreOk(w)
    ensures StoreOk(MoveStage(w, toward))
  {
    var moved := Advance(w.enemies, toward);
    assert EnemiesOk(moved, w.nextId) by {
      forall i | 0 <= i < |moved| ensures EnemyOk(moved[i]) && moved[i].id == w.enemies[i].id {
        assert EnemyOk(w.enemies[i]);
      }
    }
    WithoutEnemiesOk(moved, EscapedIds(w.enemies), w.nextId);
  }
}
