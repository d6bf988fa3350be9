/** One tick of the game loop: the four stages in order, then the tick counter. */
module Simulation {
  import opened Catalog
  import opened Entities
  import opened Spawning
  import opened Movement
  import opened Targeting
  import opened Impact

  /** A tick runs only while a wave is being played and the game is not over;
      it spawns, walks, fires and resolves, in that order, and counts itself. */
  function Tick(w: World, toward: Steer): World {
    if !w.playing || w.over then w
    else
      var w4 := ProjectileStage(TowerStage(MoveStage(SpawnStage(w), toward)), toward);
      w4.(tick := w4.tick + 1)
  }

  /** With no enemy on the field no tower fires. */
  lemma {:induction false} NoTargetsNoVolley(ts: seq<Tower>, next: nat)
    ensures Volley(ts, [], next) == []
    decreases |ts|
  {
    if |ts| > 0 {
      NoTargetsNoVolley(ts[..|ts| - 1], next);
      assert !Fires(ts[|ts| - 1], []);
    }
  }

  /** The session invariant holds after every tick; in particular a wave
      that ends leaves nothing in flight. */
  lemma TickPreservesInv(w: World, toward: Steer)
    requires Inv(w)
    ensures Inv(Tick(w, toward))
  {
    if w.playing && !w.over {
      var w1 := SpawnStage(w);
      SpawnStageOk(w);
      var w2 := MoveStage(w1, toward);
      MoveStageOk(w1, toward);
      MoveStageEffect(w1, toward);
      var w3 := TowerStage(w2);
      TowerStageOk(w2);
      var w4 := ProjectileStage(w3, toward);
      ProjectileStageOk(w3, toward);
      ProjectileStageEffect(w3, toward);
      if !w4.playing && !w4.over {
        assert !w1.playing && !w1.over;
        assert w.queue == [] && w.enemies == [];
        assert w1.enemies == [] && w1.queue == [];
        assert Survivors([], toward) == [];
        assert w2.enemies == [];
        NoTargetsNoVolley(w2.towers, w2.nextId);
        assert w3.enemies == [];
        NoTargetsNoFlight(w3.projectiles, toward);
        assert Wounded(w3, toward) == [];
      }
    }
  }

  /** A tick outside play changes nothing; a tick in play counts itself,
      never raises the lives, never lowers the money, never changes the wave
      number or the selections. */
  lemma TickBookkeeping(w: World, toward: Steer)
    requires StoreOk(w)
    ensures !w.playing || w.over ==> Tick(w, toward) == w
    ensures w.playing && !w.over ==>
      var r := Tick(w, toward);
      && r.tick == w.tick + 1
      && r.lives <= w.lives
      && r.money >= w.money
      && r.wave == w.wave
      && r.selectedKind == w.selectedKind && r.selectedTower == w.selectedTower
  {
    if w.playing && !w.over {
      var w1 := SpawnStage(w);
      assert StoreOk(w1) && Books(w, w1) by { SpawnStageOk(w); }
      var w2 := MoveStage(w1, toward);
      assert StoreOk(w2) && Books(w1, w2) by {
        MoveStageOk(w1, toward);
        MoveStageEffect(w1, toward);
      }
      var w3 := TowerStage(w2);
      assert StoreOk(w3) && Books(w2, w3) by { TowerStageOk(w2); }
      var w4 := ProjectileStage(w3, toward);
      assert Books(w3, w4) by { ProjectileStageEffect(w3, toward); }
    }
  }

  /** One stage's effect on the counters: the tick, the wave and the
      selections stay, the lives never rise and the money never falls. */
  ghost predicate Books(a: World, b: World) {
    && b.tick == a.tick && b.wave == a.wave
    && b.lives <= a.lives && b.money >= a.money
    && b.selectedKind == a.selectedKind && b.selectedTower == a.selectedTower
  }

  /** A tick keeps every tower where it stands, with its kind and its
      damage; only cooldowns change. */
  lemma TickKeepsTowers(w: World, toward: Steer)
    ensures var r := Tick(w, toward);
      && |r.towers| == |w.towers|
      && forall i | 0 <= i < |w.towers| :: r.towers[i] == w.towers[i].(cooldown := r.towers[i].cooldown)
  {
    if w.playing && !w.over {
      var w1 := SpawnStage(w);
      var w2 := MoveStage(w1, toward);
      var w3 := TowerStage(w2);
      var r := Tick(w, toward);
      assert w2.towers == w.towers;
      assert r.towers == w3.towers;
      forall i | 0 <= i < |w.towers| ensures r.towers[i] == w.towers[i].(cooldown := r.towers[i].cooldown) {
        CooledEffect(w.towers[i], w2.enemies, 0);
      }
    }
  }
}
