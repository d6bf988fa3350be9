/** The player's commands: clicking a tile (to build or to select), picking
    a tower kind in the shop, upgrading the selected tower, starting the next
    wave and restarting the session. */
module Commands {
  import opened Catalog
  import opened Waves
  import opened Entities
  import opened Spawning

  /** Position of the first tower standing on `c`, as the engine's `find`. */
  function TowerAt(ts: seq<Tower>, c: Cell): (r: Option<nat>)
    ensures r.Some? ==> r.value < |ts| && ts[r.value].cell == c && forall i | 0 <= i < r.value :: ts[i].cell != c
    ensures r.None? <==> forall i | 0 <= i < |ts| :: ts[i].cell != c
    decreases |ts|
  {
    if |ts| == 0 then None
    else
      var n := |ts| - 1;
      match TowerAt(ts[..n], c)
      case Some(k) => Some(k)
      case None => if ts[n].cell == c then Some(n) else None
  }

  /** Position of the first tower with identity `id`, as the engine's `findIndex`. */
  function TowerIndex(ts: seq<Tower>, id: nat): (r: Option<nat>)
    ensures r.Some? ==> r.value < |ts| && ts[r.value].id == id && forall i | 0 <= i < r.value :: ts[i].id != id
    ensures r.None? <==> forall i | 0 <= i < |ts| :: ts[i].id != id
    decreases |ts|
  {
    if |ts| == 0 then None
    else
      var n := |ts| - 1;
      match TowerIndex(ts[..n], id)
      case Some(k) => Some(k)
      case None => if ts[n].id == id then Some(n) else None
  }

  /** A freshly built tower: the archetype's stats, ready to fire, no upgrades. */
  function NewTower(id: nat, k: TowerKind, c: Cell): (t: Tower)
    ensures InGrid(c) && !OnPath(c) ==> TowerOk(t)
    ensures t.id == id && t.kind == k && t.cell == c && t.cooldown == 0.0
  {
    var s := TowerBase(k);
    Tower(id, k, c, s.range, s.damage, 0.0, s.cooldownMax, Upgrades(0, 0, 0))
  }

  /** The placement rule: the game is not over, the cell is on the grid, off
      the path and free, and the money covers the archetype's cost. */
  predicate CanBuild(w: World, k: TowerKind, c: Cell) {
    && !w.over
    && InGrid(c)
    && !OnPath(c)
    && TowerAt(w.towers, c).None?
    && w.money >= TowerBase(k).cost
  }

  /** A click on the tile `c`: with a kind chosen in the shop it builds there
      when the placement rule allows, otherwise it selects the tower standing
      there, or clears the selection on an empty tile. */
  function TileClick(w: World, c: Cell): World {
    if w.over || !InGrid(c) then w
    else match w.selectedKind
      case Some(k) =>
        if OnPath(c) || TowerAt(w.towers, c).Some? || w.money < TowerBase(k).cost then w
        else
          w.(towers := w.towers + [NewTower(w.nextId, k, c)],
             money := w.money - TowerBase(k).cost,
             selectedKind := None,
             nextId := w.nextId + 1)
      case None =>
        w.(selectedTower := match TowerAt(w.towers, c)
                            case Some(i) => Some(w.towers[i].id)
                            case None => None)
  }

  /** Building: the click is rejected, changing nothing at all, exactly when
      the placement rule fails; otherwise it deducts exactly the cost, appends
      exactly one fresh tower on the cell and clears the chosen kind. The new
      tower has the archetype's range, damage and cooldown length, is ready to
      fire, has every upgrade level at 0 and satisfies the tower invariant. */
  lemma BuildRule(w: World, c: Cell)
    requires w.selectedKind.Some?
    ensures var k := w.selectedKind.value;
      && (TileClick(w, c) == w <==> !CanBuild(w, k, c))
      && (CanBuild(w, k, c) ==>
            TileClick(w, c) == w.(towers := w.towers + [NewTower(w.nextId, k, c)],
                                  money := w.money - TowerBase(k).cost,
                                  selectedKind := None,
                                  nextId := w.nextId + 1))
      && (CanBuild(w, k, c) ==>
            var t := TileClick(w, c).towers[|w.towers|];
            && t.id == w.nextId && t.kind == k && t.cell == c
            && t.range == TowerBase(k).range && t.damage == TowerBase(k).damage
            && t.cooldownMax == TowerBase(k).cooldownMax && t.cooldown == 0.0
            && t.upgrades == Upgrades(0, 0, 0)
            && TowerOk(t))
  {
    var k := w.selectedKind.value;
    if CanBuild(w, k, c) {
      assert |TileClick(w, c).towers| == |w.towers| + 1;
    }
  }

  /** Selecting: with no kind chosen, a click on the grid selects the tower
      standing on the cell, or clears the selection, and changes nothing else. */
  lemma SelectRule(w: World, c: Cell)
    requires w.selectedKind.None? && !w.over && InGrid(c)
    ensures var r := TileClick(w, c);
      && r == w.(selectedTower := r.selectedTower)
      && (r.selectedTower.Some? <==> exists i | 0 <= i < |w.towers| :: w.towers[i].cell == c)
      && (r.selectedTower.Some? ==> exists i | 0 <= i < |w.towers| :: w.towers[i].cell == c && w.towers[i].id == r.selectedTower.value)
  {
    var r := TileClick(w, c);
    if r.selectedTower.Some? {
      var i := TowerAt(w.towers, c).value;
      assert w.towers[i].cell == c && w.towers[i].id == r.selectedTower.value;
    }
  }

  /** Building from the starting purse: a basic tower on a free cell leaves
      70 of the 120, and a second build on the same cell is refused even
      though the money would cover it. */
  lemma BuildExample()
    ensures var w0 := Initial(0).(selectedKind := Some(Basic));
      var w1 := TileClick(w0, Cell(2, 5));
      && w1.money == 70 && |w1.towers| == 1 && w1.selectedKind.None?
      && TileClick(w1.(selectedKind := Some(Basic)), Cell(2, 5)) == w1.(selectedKind := Some(Basic))
  {
    var c := Cell(2, 5);
    assert !OnPath(c) by {
      assert !OnPathFrom(c, 6);
      assert !OnPathFrom(c, 4);
      assert !OnPathFrom(c, 2);
      assert !OnPathFrom(c, 0);
    }
    var w0 := Initial(0).(selectedKind := Some(Basic));
    var t := NewTower(0, Basic, c);
    var w1 := TileClick(w0, c);
    assert w1 == w0.(towers := [t], money := 70, selectedKind := None, nextId := 1);
    var w2 := w1.(selectedKind := Some(Basic));
    assert TowerAt(w2.towers, c) == Some(0) by {
      assert w2.towers[..0] == [];
    }
  }

  /** A pick in the shop: choosing a kind clears the tower selection;
      clearing the kind keeps it. */
  function SelectKind(w: World, k: Option<TowerKind>): (r: World)
    ensures r.selectedKind == k
    ensures k.Some? ==> r.selectedTower.None?
    ensures k.None? ==> r.selectedTower == w.selectedTower
    ensures r == w.(selectedKind := r.selectedKind, selectedTower := r.selectedTower)
  {
    if k.Some? then w.(selectedKind := k, selectedTower := None) else w.(selectedKind := k)
  }

  /** The level a tower has reached in one stat. */
  function Level(u: Upgrades, s: Stat): nat {
    match s
    case Damage => u.damage
    case Range => u.range
    case Cooldown => u.cooldown
  }

  /** One upgrade: the chosen stat's level rises by one and the matching value
      is scaled (damage by 1.25, range by 1.15, the cooldown length by 0.9). */
  function ApplyUpgrade(t: Tower, s: Stat): (r: Tower)
    ensures Level(r.upgrades, s) == Level(t.upgrades, s) + 1
    ensures forall o: Stat | o != s :: Level(r.upgrades, o) == Level(t.upgrades, o)
    ensures r == t.(upgrades := r.upgrades, damage := r.damage, range := r.range, cooldownMax := r.cooldownMax)
    ensures r.damage == (if s == Damage then t.damage * DamageMultiplier else t.damage)
    ensures r.range == (if s == Range then t.range * RangeMultiplier else t.range)
    ensures r.cooldownMax == (if s == Cooldown then t.cooldownMax * CooldownMultiplier else t.cooldownMax)
  {
    var u := t.upgrades;
    match s
    case Damage => t.(upgrades := u.(damage := u.damage + 1), damage := t.damage * DamageMultiplier)
    case Range => t.(upgrades := u.(range := u.range + 1), range := t.range * RangeMultiplier)
    case Cooldown => t.(upgrades := u.(cooldown := u.cooldown + 1), cooldownMax := t.cooldownMax * CooldownMultiplier)
  }

  /** The upgrade command on the selected tower. */
  function Upgrade(w: World, s: Stat): World {
    match w.selectedTower
    case None => w
    case Some(id) =>
      match TowerIndex(w.towers, id)
      case None => w
      case Some(i) =>
        var t := w.towers[i];
        var cost := UpgradeCost(t.kind, Level(t.upgrades, s));
        if w.money >= cost then
          w.(towers := w.towers[i := ApplyUpgrade(t, s)], money := w.money - cost)
        else w
  }

  /** The price of the next level of `s` on the tower with identity `id`, if there is one. */
  function PriceOf(w: World, id: nat, s: Stat): Option<int> {
    match TowerIndex(w.towers, id)
    case None => None
    case Some(i) => Some(UpgradeCost(w.towers[i].kind, Level(w.towers[i].upgrades, s)))
  }

  /** Upgrading is rejected, changing nothing, when nothing is selected, the
      selected identity names no tower, or the money does not cover the
      price; otherwise exactly that tower is upgraded and exactly the price
      is paid. */
  lemma UpgradeRule(w: World, s: Stat)
    ensures var r := Upgrade(w, s);
      && (w.selectedTower.None? ==> r == w)
      && (w.selectedTower.Some? && PriceOf(w, w.selectedTower.value, s).None? ==> r == w)
      && (w.selectedTower.Some? && PriceOf(w, w.selectedTower.value, s).Some? ==>
            var i := TowerIndex(w.towers, w.selectedTower.value).value;
            var cost := PriceOf(w, w.selectedTower.value, s).value;
            && (w.money < cost ==> r == w)
            && (w.money >= cost ==>
                  && r == w.(towers := r.towers, money := w.money - cost)
                  && |r.towers| == |w.towers|
                  && r.towers[i] == ApplyUpgrade(w.towers[i], s)
                  && forall j | 0 <= j < |w.towers| && j != i :: r.towers[j] == w.towers[j]))
  {
  }

  /** `n` successive upgrades of the same stat. */
  function UpgradeTimes(t: Tower, s: Stat, n: nat): Tower
    decreases n
  {
    if n == 0 then t else ApplyUpgrade(UpgradeTimes(t, s, n - 1), s)
  }

  function Pow(x: real, n: nat): real
    decreases n
  {
    if n == 0 then 1.0 else Pow(x, n - 1) * x
  }

  /** Upgrades compound: after `n` damage upgrades the damage is the original
      times 1.25^n and the damage level has risen by `n`; the other stats are
      untouched. */
  lemma {:induction false} UpgradeCompounds(t: Tower, n: nat)
    ensures UpgradeTimes(t, Damage, n).damage == t.damage * Pow(DamageMultiplier, n)
    ensures UpgradeTimes(t, Damage, n).upgrades == t.upgrades.(damage := t.upgrades.damage + n)
    ensures UpgradeTimes(t, Damage, n).range == t.range
    ensures UpgradeTimes(t, Damage, n).cooldownMax == t.cooldownMax
    decreases n
  {
    if n > 0 {
      UpgradeCompounds(t, n - 1);
      assert t.damage * Pow(DamageMultiplier, n - 1) * DamageMultiplier == t.damage * Pow(DamageMultiplier, n);
    }
  }

  /** Two damage upgrades of a fresh basic tower: 15 becomes 15 * 1.25^2,
      for 30 and then 60 in money. */
  lemma TwoDamageUpgrades(id: nat, c: Cell)
    ensures UpgradeTimes(NewTower(id, Basic, c), Damage, 2).damage == 15.0 * 1.25 * 1.25
    ensures UpgradeCost(Basic, Level(NewTower(id, Basic, c).upgrades, Damage)) == 30
    ensures UpgradeCost(Basic, Level(UpgradeTimes(NewTower(id, Basic, c), Damage, 1).upgrades, Damage)) == 60
  {
    UpgradeCompounds(NewTower(id, Basic, c), 2);
    UpgradeCompounds(NewTower(id, Basic, c), 1);
    BasicUpgradeCosts();
  }

  /** Restart: the starting economy, wave 0, not playing, not over, tick 0,
      an empty field, an empty queue and no selection. */
  function Restart(w: World): (r: World)
    ensures Inv(r)
    ensures r.money == InitialMoney && r.lives == InitialLives && r.wave == 0 && r.tick == 0
    ensures !r.playing && !r.over
    ensures r.enemies == [] && r.towers == [] && r.projectiles == [] && r.queue == []
    ensures r.selectedKind.None? && r.selectedTower.None?
    ensures r.nextId == w.nextId
  {
    Initial(w.nextId)
  }

  /** Starting the next wave, offered only between waves of a game not over. */
  function StartNextWave(w: World): World
    requires !w.playing && !w.over
  {
    w.(wave := w.wave + 1, playing := true, queue := Expand(WaveConfig(w.wave + 1)))
  }

  /** The next wave's number is one more, play starts, and the queue holds
      each group of the wave's plan, in order, as `count` entries carrying the
      group's kind, interval (as the delay) and hp factor. */
  lemma StartNextWaveEffect(w: World)
    requires !w.playing && !w.over
    ensures var r := StartNextWave(w);
      var gs := WaveConfig(w.wave + 1);
      && r.wave == w.wave + 1 && r.playing
      && |r.queue| == TotalCount(gs)
      && (forall g | 0 <= g < |gs| :: GroupSlice(r.queue, gs, g))
      && r == w.(wave := r.wave, playing := r.playing, queue := r.queue)
  {
    var gs := WaveConfig(w.wave + 1);
    forall g | 0 <= g < |gs| ensures GroupSlice(Expand(gs), gs, g) {
      ExpandGroup(gs, g);
    }
  }

  /** Every command keeps the session invariant. */
  lemma TileClickOk(w: World, c: Cell)
    requires Inv(w)
    ensures Inv(TileClick(w, c))
  {
    var r := TileClick(w, c);
    if !w.over && InGrid(c) && w.selectedKind.Some? && r != w {
      var k := w.selectedKind.value;
      var t := NewTower(w.nextId, k, c);
      assert r.towers == w.towers + [t];
      assert TowersOk(r.towers, r.nextId) by {
        forall i, j | 0 <= i < j < |r.towers| ensures r.towers[i].id != r.towers[j].id && r.towers[i].cell != r.towers[j].cell {
          if j == |w.towers| {
            assert r.towers[i].id < w.nextId;
            assert r.towers[i].cell != c;
          }
        }
      }
    }
  }

  lemma UpgradeOk(w: World, s: Stat)
    requires Inv(w)
    ensures Inv(Upgrade(w, s))
  {
    var r := Upgrade(w, s);
    if r != w {
      var i := TowerIndex(w.towers, w.selectedTower.value).value;
      var t := ApplyUpgrade(w.towers[i], s);
      assert TowerOk(w.towers[i]);
      assert TowerOk(t);
      assert r.towers == w.towers[i := t];
    }
  }

  lemma StartNextWaveOk(w: World)
    requires Inv(w) && !w.playing && !w.over
    ensures Inv(StartNextWave(w))
  {
    WaveQueueOk(w.wave + 1);
  }

  lemma SelectKindOk(w: World, k: Option<TowerKind>)
    requires Inv(w)
    ensures Inv(SelectKind(w, k))
  {
  }
}
