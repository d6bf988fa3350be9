# Tower defence engine, modelled in Dafny

This project models the engine of a browser tower-defence game. Enemies walk a fixed
polyline of waypoints across a 20 × 12 grid. The player spends money on towers placed on
free cells off the path. Towers shoot projectiles at the most advanced enemy in range.
Kills pay rewards, escapes cost lives, and the game ends when the lives run out. Waves are
generated from the wave number as ordered groups of enemies. Between waves the player builds,
selects and upgrades towers, then starts the next wave.

The project has two layers.

* **A reference model on values.** One pure function per stage or command, on the session
  record `Entities.World`, with the properties of each proved as lemmas. These are in the
  modules `Catalog`, `Waves`, `Entities`, `Spawning`, `Movement`, `Targeting`, `Impact`,
  `Simulation` and `Commands`.
* **The engine as the page runs it.** The class `Session.Game` holds the game-state record, the
  entity lists, the wave queue, the identity counter and the two selections as fields.
  - Its methods update those fields in place. Each one ensures that the new fields, read as a
    `World` through `View()`, are the reference function of the old ones.
  - The commands and the tick also keep `Valid()`, the session invariant `Entities.Inv`.
  - The loops that find, filter, walk, fire and resolve are module-level methods, each proved
    equal to its reference function.

The session invariant (`Entities.Inv`) has two parts.

* **Economy and flags.** Money and lives are non-negative, and lives are positive unless the
  game is over. The game is never both playing and over.
* **Entities.** Every identity is below the counter and unique in its list.
  - Enemies are alive, stand on a valid waypoint index, have non-negative freeze and progress,
    and carry their archetype's speed and reward.
  - Towers stand on distinct grid cells off the path and have positive stats.
  - Projectiles carry positive damage and the fixed speed.
  - Queued entries have an hp factor of at least 1.
  - Between waves nothing is queued, walking or in flight.

The source represents identities as random strings. The model draws them from the counter
`nextId`.

Distances are compared as squares (`SqDist`). A step of length `s` from one point toward
another needs a square root, so it is passed in as the parameter `toward: Steer`.

Behaviour of the code that is easy to misread, and which the model follows:

* **Spawning.** The spawn stage either releases the queue head (when its delay is already
  ≤ 0) or counts its delay down. It never does both in one tick (App.tsx:199-205).
* **The end of a wave.** The tick that ends a wave still runs the other three stages
  (App.tsx:206-215).
* **Cooldowns.** A cooling tower's cooldown is lowered by exactly 1 and is not clamped at 0
  (App.tsx:117-118). After a cooldown upgrade it can go below 0, and the tower then fires on
  its next ready tick.
* **Wave groups.** A mixed wave adds each of its three groups under its own guard
  (constants.ts:99-101). The orc group (floor(10w/15) orcs) is added only when that count is
  positive. The goblin group is added only when goblinCount = floor((10w mod 15)/3) is
  positive, and it then holds goblinCount + 5 goblins; when goblinCount is 0 the group is
  dropped, although it would otherwise have held 5. The tank group (floor(w/2) tanks) is
  added only after wave 3, so waves 2 and 3 have none although floor(w/2) = 1 there.
* **Hits on a dead enemy.** A projectile that lands on an enemy already killed earlier in the
  same stage is spent and subtracts its damage again. It pays nothing, because a kill is booked
  once (App.tsx:169-178).
* **Upgrading after a loss.** Upgrading is checked only against the selection and the money.
  It is not refused after game over (App.tsx:326-338).
* **Starting a wave.** `startNextWave` itself has no guard. The page offers it only when the
  game is neither playing nor over (components/Controls.tsx:191). The model states this as
  the precondition of `Commands.StartNextWave`.

## Model

| member | source | states |
|---|---|---|
| Catalog.PathShape | constants.ts:12-21 | the route has eight waypoints; consecutive waypoints share a row or a column; all lie on the grid |
| Catalog.TowerBase | constants.ts:32-69 | every tower archetype has positive range, damage and cooldown length, and a positive cost divisible by 5 |
| Catalog.EnemyBase | constants.ts:72-77 | every enemy archetype has positive hit points, speed and reward |
| Catalog.OnPathIff | App.tsx:289-297 | the placement path test holds exactly when the cell lies in the inclusive bounding box of some pair of consecutive waypoints |
| Catalog.WaypointsOnPath | App.tsx:289-297 | every waypoint is itself a path cell |
| Catalog.UpgradeCostIsFloor | App.tsx:333-336 | the integer price equals floor(base cost × 0.6 × (level + 1)), and that product is already whole |
| Catalog.UpgradeCostIncreasing | App.tsx:333-336 | upgrade prices are positive and strictly rise with the level |
| Catalog.BasicUpgradeCosts | App.tsx:333-336 | a basic tower's first three levels of one stat cost 30, 60 and 90 |
| Waves.WaveConfig | constants.ts:84-105 | every wave has one to three groups; each group has at least one enemy, a positive interval and an hp factor of at least 1 |
| Waves.MixedWaveRule | constants.ts:93-102 | outside wave 1 and the multiples of 5, the plan equals a reading by the wave number modulo 3: floor(2w/3) orcs; 8, 6 or no goblins; floor(w/2) tanks after wave 3 |
| Waves.MixedWaveOrder | constants.ts:99-101 | mixed waves list their groups as orcs, then goblins, then tanks; waves divisible by 3 have no goblins; the last group is tanks exactly after wave 3 |
| Waves.BossWave | constants.ts:89-92 | every multiple of 5 is one boss (hp × (1 + 0.5w)) followed by ten goblins (hp × (1 + 0.2w)) |
| Waves.FirstWaves | constants.ts:84-105 | the plans of waves 1 to 5, group by group |
| Entities.Initial | App.tsx:18-33 | the starting session satisfies the session invariant |
| Entities.WithoutEnemiesNone | App.tsx:107 | a filter by an empty identity list keeps the list unchanged |
| Entities.WithoutEnemiesKeeps | App.tsx:107 | filtering by identity keeps an enemy exactly when it was present and its identity is not listed |
| Entities.WithoutProjectilesKeeps | App.tsx:187 | the same for projectiles |
| Entities.WithoutEnemiesOk | App.tsx:107 | filtering enemies keeps their invariant and the uniqueness of identities |
| Entities.WithoutProjectilesOk | App.tsx:187 | filtering projectiles keeps their invariant and the uniqueness of identities |
| Entities.RewardSumSplit | App.tsx:189-191 | splitting a list by identity splits its total reward into the kept part and the removed part |
| Spawning.ExpandGroup | App.tsx:247-253 | in a wave's queue, group i occupies its own slice, right after the groups before it, as `count` copies of its kind, interval and hp factor |
| Spawning.ExpandEntries | App.tsx:247-253 | every queue entry comes from one of the plan's groups |
| Spawning.WaveQueueOk | App.tsx:243-253 | the queue of any wave satisfies the queue invariant |
| Spawning.FirstAndBossQueues | App.tsx:243-253 | wave 1 queues five goblins at delay 60; wave 5 queues one boss at ×3.5 and then ten goblins at ×2.0 |
| Spawning.NewEnemy | App.tsx:53-70 | a new enemy has the given identity and kind; with an hp factor of at least 1 it satisfies the enemy invariant and has at least its archetype's hit points (its exact start state is stated in `Spawning.SpawnCases`) |
| Spawning.SpawnCases | App.tsx:199-205 | with a non-empty queue the stage either pops the head and spawns its enemy, or counts the head's delay down by one; it never does both, and nothing else changes. The spawned enemy (App.tsx:53-69) takes the next identity and the head's kind, starts at the first waypoint with path index 0, freeze 0 and progress 0, carries the archetype's speed and reward, and has hp = maxHp = base hp × the head's hp factor |
| Spawning.SpawnEndsWave | App.tsx:199-208 | while playing, the stage stops play exactly when the queue and the field are both empty |
| Spawning.ReleaseAfterDelay | App.tsx:199-205 | a head entry with delay d stays queued for d spawn stages and is released on stage d + 1 |
| Spawning.SpawnStageOk | App.tsx:198-210 | the spawn stage keeps the invariant and leaves towers and projectiles alone |
| Movement.MoveEnemy | App.tsx:77-102 | a walking enemy is halved in speed while frozen and counts its freeze down; it snaps onto the next waypoint and advances its index exactly when closer than one step; its progress grows by the speed; it keeps the enemy invariant |
| Movement.EscapedIdsFrom | App.tsx:75-81 | only enemies with no next waypoint are listed as escaped |
| Movement.SurvivorsByIdentity | App.tsx:72-107 | because identities are unique, walking in place and then filtering out the escapers by identity leaves exactly the non-escapers, walked, in order; every enemy either escapes or survives |
| Movement.EscapedOrSurvives | App.tsx:75-103 | escapers plus survivors account for every enemy |
| Movement.MoveStageEffect | App.tsx:105-112 | the stage keeps exactly the walked survivors, lowers the lives by the number of escapers (floored at 0), ends the game when the escapers use up the lives, and changes nothing else |
| Movement.MoveStageOk | App.tsx:72-113 | the movement stage keeps the invariant |
| Targeting.ScanTargets | App.tsx:123-134 | the scan's choice, when there is one, is an in-range enemy whose progress is the recorded best (above the sentinel -1) |
| Targeting.ScanTargetsBest | App.tsx:126-134 | the recorded best bounds every in-range enemy, and strictly bounds those before the chosen one |
| Targeting.TargetIsFirstBest | App.tsx:122-134 | the target is the first in-range enemy of greatest progress; there is none exactly when no in-range enemy has progress above -1 |
| Targeting.TargetExists | App.tsx:122-136 | with non-negative progress, a target exists exactly when some enemy is in range |
| Targeting.CooledEffect | App.tsx:116-149 | a cooling tower counts down by one and does not fire; a ready tower fires exactly when an enemy is in range; a ready tower that finds no target is unchanged; a shot starts at the tower, carries its current damage and the fixed speed, freezes iff the tower is an ice tower, and aims at an in-range enemy |
| Targeting.Volley | App.tsx:136-149 | there are no more shots than towers, and the shots are numbered consecutively from the counter (which tower each shot belongs to is stated in `Targeting.VolleyFrom` and `Targeting.VolleyOf`) |
| Targeting.VolleyFrom | App.tsx:136-149 | shot j is the shot of the firing tower that has exactly j firing towers before it, so distinct shots come from distinct towers, in tower order |
| Targeting.VolleyOf | App.tsx:136-149 | every firing tower appends its own shot, at the position given by the number of firing towers before it |
| Targeting.VolleyCount | App.tsx:116-150 | the number of shots equals the number of firing towers |
| Targeting.TowerStageOk | App.tsx:115-151 | the firing stage keeps the invariant, uses one fresh identity per shot, keeps the number of towers and every tower field except the cooldown, and changes nothing in the session but the towers, the projectiles and the counter |
| Impact.IndexOfId | App.tsx:159 | lookup by identity returns the first enemy with that identity, and none exactly when no enemy has it |
| Impact.ResolveAll | App.tsx:158-184 | resolving projectiles changes only enemies' hit points and freeze counters, never their order, identity or position |
| Impact.StepFlight | App.tsx:158-183 | one projectile's turn records it as spent exactly when its target is gone or within one step, and otherwise moves it toward the target's current position |
| Impact.ResolveFlight | App.tsx:158-184 | the pass's flown and spent lists equal their reference definitions |
| Impact.StepWound | App.tsx:169-173 | one turn wounds only the struck enemy, by the projectile's damage, and resets its freeze counter to 60 only for a freeze shot |
| Impact.ResolveDamage | App.tsx:158-184 | after the pass each enemy has lost exactly the total damage of the shots that struck it, and is frozen for 60 ticks exactly when a freeze shot struck it |
| Impact.DamageToNonNeg | App.tsx:169-172 | the damage the striking projectiles deal to an enemy is never negative |
| Impact.HpNeverRises | App.tsx:158-184 | the projectile pass never raises an enemy's hit points |
| Impact.StepKills | App.tsx:175-178 | one turn keeps the kill books: an enemy is recorded dead exactly when its hit points are gone, never twice, and the earned sum is the recorded enemies' rewards |
| Impact.HitKills | App.tsx:169-178 | a strike keeps the kill books |
| Impact.ResolveKills | App.tsx:154-184 | the whole pass keeps the kill books |
| Impact.WithoutDeadIsAlive | App.tsx:189-190 | when exactly the enemies without hit points are recorded dead, filtering them out keeps exactly the living ones |
| Impact.HarvestAlive | App.tsx:186-192 | the stage keeps exactly the wounded enemies still alive, pays a non-negative amount, and the rewards on the field before equal the rewards left plus the payout |
| Impact.ResolveEffect | App.tsx:153-193 | the pass's outcome stated against the reference functions: living survivors, exact damage, conserved rewards, unspent projectiles moved |
| Impact.ProjectileStageEffect | App.tsx:153-193 | the stage leaves exactly the living wounded enemies and the unspent projectiles, moved; the money rises by exactly the removed enemies' rewards; nothing else changes |
| Impact.InFlightByIdentity | App.tsx:187 | because projectile identities are unique, filtering out the spent ones leaves exactly the unspent ones, moved, in order |
| Impact.NoTargetsNoFlight | App.tsx:158-163 | with no enemy on the field every projectile is spent |
| Impact.FlownKeeps | App.tsx:179-183 | flight changes only a projectile's position |
| Impact.FlownOk | App.tsx:179-183 | flown projectiles keep the projectile invariant |
| Impact.RemainingOk | App.tsx:189-190 | the enemies the stage keeps satisfy the enemy invariant |
| Impact.ProjectileStageOk | App.tsx:153-193 | the projectile stage keeps the invariant |
| Impact.DoubleKillPaidOnce | App.tsx:175-178 | two fatal shots on one goblin in one tick record it dead once, pay its reward of 5 once, and spend both shots |
| Impact.CombinedKillPaidOnce | App.tsx:169-178 | shots of 15 and 20 on a goblin with 30 hit points: the first leaves it alive at 15, the second kills it by the accumulated damage, the reward of 5 is paid once, and both shots are spent |
| Simulation.NoTargetsNoVolley | App.tsx:126-136 | with no enemy on the field no tower fires |
| Simulation.TickPreservesInv | App.tsx:195-224 | every tick keeps the session invariant; when a wave ends nothing is left queued, walking or in flight |
| Simulation.TickBookkeeping | App.tsx:195-221 | a tick outside play changes nothing; a tick in play counts itself, never raises the lives, never lowers the money, and keeps the wave number and the selections |
| Simulation.TickKeepsTowers | App.tsx:212-215 | a tick keeps every tower where it stands with its kind and stats; only cooldowns change |
| Commands.TowerAt | App.tsx:284 | the tower lookup on a cell returns the first tower on it, and none exactly when the cell is free |
| Commands.TowerIndex | App.tsx:329 | the tower lookup by identity returns the first match, and none exactly when no tower has the identity |
| Commands.NewTower | App.tsx:301-310 | a new tower has the given identity, kind and cell, is ready to fire (cooldown 0), and satisfies the tower invariant on a grid cell off the path (its stats and upgrade levels are stated in `Commands.BuildRule`) |
| Commands.BuildRule | App.tsx:280-314 | with a kind chosen, a click changes nothing exactly when the placement rule fails (game over, off the grid, on the path, occupied, too expensive); otherwise it appends one fresh tower on the cell, deducts exactly the cost and clears the chosen kind; the appended tower has the next identity, the chosen kind, the archetype's range, damage and cooldown length, cooldown 0, every upgrade level 0, and satisfies the tower invariant |
| Commands.SelectRule | App.tsx:316-323 | with no kind chosen, a click selects a tower exactly when one stands on the cell (that tower's identity), or clears the selection, and changes nothing else |
| Commands.BuildExample | App.tsx:280-314 | a basic tower bought from the starting purse leaves 70 gold; a second purchase on the same cell is refused |
| Commands.SelectKind | App.tsx:359-364 | choosing a kind in the shop clears the tower selection; clearing the kind keeps it; nothing else changes |
| Commands.ApplyUpgrade | App.tsx:339-352 | an upgrade raises exactly the chosen stat's level by one and scales only the matching value (damage × 1.25, range × 1.15, cooldown length × 0.9) |
| Commands.UpgradeRule | App.tsx:326-357 | upgrading changes nothing when nothing is selected, the selection names no tower, or the money falls short; otherwise exactly that tower is upgraded and exactly the price is paid |
| Commands.UpgradeCompounds | App.tsx:346-347 | n damage upgrades multiply the damage by 1.25^n and raise its level by n, keeping range and cooldown length |
| Commands.TwoDamageUpgrades | App.tsx:333-347 | a basic tower's damage after two upgrades is 15 × 1.25 × 1.25, paid 30 and then 60 |
| Commands.Restart | App.tsx:259-276 | a restart gives the starting money and lives, wave 0, tick 0, no play and no game over, an empty field and queue, no selection, and the invariant |
| Commands.StartNextWaveEffect | App.tsx:243-256 | the next wave's number is one more, play starts, and the queue holds each group of the plan, in order, as `count` entries |
| Commands.TileClickOk | App.tsx:280-324 | a tile click keeps the session invariant |
| Commands.UpgradeOk | App.tsx:326-357 | an upgrade keeps the session invariant |
| Commands.StartNextWaveOk | App.tsx:243-257 | starting a wave keeps the session invariant |
| Commands.SelectKindOk | App.tsx:359-364 | a shop pick keeps the session invariant |
| Session.FindEnemy | App.tsx:159 | the loop finds the first enemy with the identity, as `Impact.IndexOfId` |
| Session.FindTowerAt | App.tsx:284 | the loop finds the first tower on the cell, as `Commands.TowerAt` |
| Session.FindTowerIndex | App.tsx:329 | the loop finds the first tower with the identity, as `Commands.TowerIndex` |
| Session.IsPathTile | App.tsx:289-297 | the loop over waypoint pairs decides `Catalog.OnPath` |
| Session.FindTarget | App.tsx:122-134 | the scan with the sentinel -1 yields `Targeting.Target`, the first in-range enemy of greatest progress |
| Session.FilterEnemies | App.tsx:107 | the filter loop yields `Entities.WithoutEnemies` |
| Session.FilterProjectiles | App.tsx:187 | the filter loop yields `Entities.WithoutProjectiles` |
| Session.WaveQueue | App.tsx:247-253 | the nested loops build `Spawning.Expand` of the plan |
| Session.Walk | App.tsx:77-102 | the field-by-field step equals `Movement.MoveEnemy` |
| Session.WalkEnemies | App.tsx:73-103 | the in-place walk yields `Movement.Advance` and lists exactly `Movement.EscapedIds` |
| Session.FireTowers | App.tsx:115-151 | the pass over the towers yields `Targeting.CoolAll`, appends exactly `Targeting.Volley`, and advances the counter by the number of shots |
| Session.ProjectileTurn | App.tsx:158-184 | one projectile's turn on local copies equals `Impact.ProjStep` |
| Session.ResolveProjectiles | App.tsx:153-184 | the pass over the projectiles equals `Impact.ResolveAll` |
| Session.Game.constructor | App.tsx:18-44 | the session starts valid, as `Entities.Initial` |
| Session.Game.Tick | App.tsx:195-224 | a frame keeps the session valid and leaves the fields as `Simulation.Tick` of the old ones |
| Session.Game.SpawnStep | App.tsx:198-210 | the fields after stage 1 are `Spawning.SpawnStage` of the old ones |
| Session.Game.SpawnEnemy | App.tsx:53-70 | exactly one enemy, `Spawning.NewEnemy` with the next identity, is appended; nothing else changes |
| Session.Game.MoveEnemies | App.tsx:72-113 | the fields after stage 2 are `Movement.MoveStage` of the old ones |
| Session.Game.HandleTowers | App.tsx:115-151 | the fields after stage 3 are `Targeting.TowerStage` of the old ones |
| Session.Game.HandleProjectiles | App.tsx:153-193 | the fields after stage 4 are `Impact.ProjectileStage` of the old ones |
| Session.Game.SelectKind | App.tsx:359-364 | keeps the session valid; the fields become `Commands.SelectKind` of the old ones |
| Session.Game.TileClick | App.tsx:280-324 | keeps the session valid; the fields become `Commands.TileClick` of the old ones |
| Session.Game.Upgrade | App.tsx:326-357 | keeps the session valid; the fields become `Commands.Upgrade` of the old ones |
| Session.Game.StartNextWave | App.tsx:243-257 | keeps the session valid; the fields become `Commands.StartNextWave` of the old ones |
| Session.Game.Restart | App.tsx:259-278 | the session becomes valid again, as `Commands.Restart` of the old fields |
| Session.BuildTwice | App.tsx:280-314 | a client of the session class: after buying a basic tower on (2, 5) the money is 70, and a second click there leaves 70 and one tower |

## Left out

- Rendering, React state plumbing and frame scheduling are left out. Every state setter is
  treated as taking effect immediately, in program order. That includes the copies the page
  keeps in refs and publishes for display, and `requestAnimationFrame`.
- Session.Game.MoveEnemies: the game-over test reads the current lives. The source reads the
  lives published at the last render (`stateRef`). The two agree when the page re-renders
  between frames, and the model does not describe any frame where they differ.
- Session.Game.Upgrade: the source mutates the shared tower object inside a shallow copy of
  the array. The model replaces the tower in the list, so the aliasing between the old state
  and the new one is not captured.
- Movement.MoveEnemy: the unit-vector step (`Math.hypot` and the division by the distance) is
  the parameter `toward`. No property of the step's length or direction is assumed or proved.
- Impact.ProjStep: projectile homing uses the same `toward` parameter, with the same
  limitation. Distances are compared on squares, which is exact for the non-negative bounds
  used.
- IEEE floating point is modelled as exact real arithmetic, for example for hp factors,
  multipliers, positions and `0.6 × cost`. Rounding effects are not captured.
- The source's random string identities are modelled as the natural-number counter `nextId`.
  Only one property is used: fresh identities never clash.
- `triggerAiAdvice` and services/geminiService.ts (the advice request made when a wave ends)
  are left out. They are asynchronous calls to an external service, and their result never
  affects the simulation.
- Display-only fields (tower and enemy colours, tower names, the tower's stored `cost`) are
  left out. `maxHp` is kept but nothing reads it.
- The previews in components/GameMap.tsx and components/Controls.tsx repeat the path test and
  the upgrade price for display. They are covered by `Catalog.OnPath` and `Catalog.UpgradeCost`
  and are not modelled separately.
