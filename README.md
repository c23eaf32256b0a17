# Dungeon game combat and encounter simulation, in Dafny

This project models the simulation core of a browser dungeon game.

**The real-time game.** A player stands on a square floor. Mobs of four catalog types spawn faster and faster as game time passes. A mob that touches the player hurts them, at most once every half second, and harder as the game goes on. Every two seconds the player fires a projectile. It is aimed at a target chosen by distance and predicted position, and the choice is locked for a moment. A projectile flies until it touches the first live mob in its path or passes the maximum distance. A mob killed by a projectile pays its reward. That holds for the health formula as intended: as written, the formula reads two configuration keys that do not exist, so a mob's health is NaN and it never dies (see "## Findings"). The model of the game is built on the intended formula, with the two missing constants as the explicit parameter `Mobs.HealthScaling`. Active contracts multiply the reward, the gold goes to the balance and the experience to the player, who levels up. Contracts cost gold to activate, at most three are active at once, and they also bias which mob type spawns.

**The turn-based demo.** An attack costs the enemy 10 HP, and a living enemy strikes back for 8, or 4 while the player defends. A potion heals the player; a scroll hurts the enemy.

**Where each part is modelled.**
- Objects the source updates in place are classes whose methods have `modifies` clauses: resources, the contract system, the player, mobs, the spawner, the combat system, the targeting system, projectiles and the attack effects, the game, and the demo's battle and items.
- The formulas are pure functions, and lemmas state their properties: reward modifiers, spawn weights, experience thresholds, mob health, the spawn interval, contact damage and the clock display.

**Time, randomness and geometry.**
- The clock `performance.now()` is the parameter `now`, in milliseconds. One `now` stands for every clock reading within one frame.
- `Math.random()` is the draw `u` in the mob type choice, and the spawn position is the parameter `at`.
- Distances, vector normalisation and a mob's predicted position are the abstract functions of `Vectors.Kinematics`. Sphere overlap tests use squared distances.
- JavaScript numbers are `int` where the code floors them (balances, health, experience, rewards) and `real` elsewhere.

**Quirks of the code that the model keeps.**
- `checkPlayerMobCollision` takes a previous damage time of zero as "never". When the elapsed time is still zero, the cooldown is therefore not armed, and every touching mob hurts the player in that frame. `Simulation.Game.UpdateMobs` bounds a frame's contact damage to one hit only once the elapsed time is positive.
- The spawner constructs mobs without a game time, so their health formula always sees time 0.
- The game's `update` calls `mob.update` only for live mobs, so the death-animation branch of `Mob.update` never runs in the game. A dead mob stays where it is until its delayed removal. `Simulation.Game.UpdateMobs` likewise never calls `Mobs.Mob.Update`.
- `attackTarget` raises the player's position by one unit for the weapon and passes it to `calculateAimPoint`, which raises it by one more. The aim is therefore predicted from two units above the player, while the projectile starts from one.

## Model

| member | source | states |
|---|---|---|
| Config.FindBy | src/entities/Mob.js:8 | the catalog lookup by id that mob construction and contract activation (src/systems/ContractSystem.js:14) both use: finds an entry exactly when some catalog entry has the id, and the entry found has that id |
| Config.MobTypeIdsDistinct | src/core/Config.js:25-66 | no two mob catalog entries share an id |
| Config.ContractMobTypesKnown | src/core/Config.js:72-103 | every contract that names a mob type names one in the mob catalog |
| Config.SpawnRatesOrdered | src/core/Config.js:16-18 | 0 < minimum spawn interval <= base interval, and the per-second decrease is non-negative |
| Config.SpawnWeightsPositiveAndTotal | src/core/Config.js:25-66 | every catalog spawn weight is positive, and the weights add up to 100 |
| Config.CatalogModifiersAreBoosts | src/core/Config.js:72-103 | every catalog modifier is either absent or at least 1 |
| Config.ContractCatalogShape | src/core/Config.js:70-103 | at most three contracts may be active, the catalog has four, and their ids are distinct |
| Resources.ResourcesSystem.constructor | src/systems/ResourcesSystem.js:2-5 | 100 gold and no crystals at the start |
| Resources.ResourcesSystem.AddGold | src/systems/ResourcesSystem.js:7-10 | the new gold is the floor of the old gold plus the amount; it grows exactly when the amount is non-negative; crystals are untouched |
| Resources.ResourcesSystem.AddCrystals | src/systems/ResourcesSystem.js:12-15 | the new crystals are the floor of the old plus the amount; gold is untouched |
| Resources.ResourcesSystem.SpendGold | src/systems/ResourcesSystem.js:17-23 | succeeds exactly when the balance covers the amount and only then deducts it; a non-negative balance stays non-negative |
| Resources.ResourcesSystem.SpendCrystals | src/systems/ResourcesSystem.js:25-31 | the same for crystals |
| Contracts.IndexOfId | src/systems/ContractSystem.js:58 | -1 exactly when no contract has the id, otherwise the first index holding it |
| Contracts.Charge | src/systems/ContractSystem.js:39-46 | an affordable cost is charged in full: each balance drops by exactly its component |
| Contracts.ApplyAllIsTwoChains | src/systems/ContractSystem.js:77-93 | applying the contracts changes gold and experience independently, each floored after every present modifier in list order |
| Contracts.ModifiersNeverReduce | src/systems/ContractSystem.js:77-93 | with modifiers that are absent or at least 1, a non-negative reward never shrinks |
| Contracts.NoContractsNoChange | src/systems/ContractSystem.js:78-92 | with no active contract the reward passes through unchanged |
| Contracts.FlooringIsPerContract | src/systems/ContractSystem.js:80-90 | two experience contracts turn 10 into 15 and 3 into 3, where one flooring of the combined factor would give 4 |
| Contracts.ContractSystem.constructor | src/systems/ContractSystem.js:4-8 | no active contracts, the whole catalog available |
| Contracts.ContractSystem.Activate | src/systems/ContractSystem.js:13-52 | succeeds exactly when the id is in the catalog, not already active, under the cap and affordable; then appends it and deducts its cost; otherwise nothing changes; at most three distinct contracts stay active |
| Contracts.ContractSystem.Deactivate | src/systems/ContractSystem.js:57-65 | succeeds exactly when the id is active and removes that entry only; afterwards the id is not active and every other contract is kept |
| Contracts.ContractSystem.ActiveContracts | src/systems/ContractSystem.js:70-72 | at most three catalog contracts with distinct ids |
| Contracts.ContractSystem.AvailableContracts | src/systems/ContractSystem.js:98-100 | always the whole catalog |
| Contracts.ContractSystem.ApplyRewardModifiers | src/systems/ContractSystem.js:77-93 | the loop's result is every active contract applied in order, which the lemmas above characterise |
| Randomness.WeightIsProduct | src/systems/RandomSystem.js:17-28 | a type's weight is its catalog weight times the product of the spawn modifiers of the contracts aimed at it |
| Randomness.NoContractsCatalogWeights | src/systems/RandomSystem.js:17-28 | with no contract the weights are the catalog weights |
| Randomness.WeightsPositive | src/systems/RandomSystem.js:17-28 | with positive catalog weights and boosting modifiers every weight is positive |
| Randomness.FirstCoverFrom | src/systems/RandomSystem.js:37-42 | the index the subtracting walk stops at is the first one whose cumulative weight reaches the draw, or none if no index does |
| Randomness.SelectedIndex | src/systems/RandomSystem.js:12-46 | the chosen index is always a catalog index |
| Randomness.SelectionInterval | src/systems/RandomSystem.js:31-42 | the walk stops at i exactly when the draw lies in the i-th interval of cumulative weights, both directions |
| Randomness.FallbackUnreachable | src/systems/RandomSystem.js:44-45 | for a draw in [0, 1) and positive weights the fallback to the first type is never taken |
| Randomness.SelectedIdInCatalog | src/systems/RandomSystem.js:37-45 | the selected id always names a catalog type, so building the mob never throws |
| Randomness.SelectionIsWeighted | src/systems/RandomSystem.js:12-46 | with boosting contracts, type i is selected exactly when the scaled draw falls in an interval whose length is i's weight |
| Randomness.SelectMobType | src/systems/RandomSystem.js:12-46 | the loop returns the id of the selected index |
| Randomness.RandomWithModifiers | src/systems/RandomSystem.js:51-57 | the base value times the product of the modifiers, and the base value itself with none |
| Randomness.CheckChance | src/systems/RandomSystem.js:62-68 | succeeds exactly when the draw is below the chance times the product of the modifiers |
| Players.ExpThreshold | src/entities/Player.js:177-180 | a level's threshold is never below the first level's 100 |
| Players.DamageAtFirstLevel | src/entities/Player.js:158-163 | a level-1 player deals the base damage of 10 |
| Players.DamageMonotone | src/entities/Player.js:158-163 | a higher level never deals less damage |
| Players.Settle | src/entities/Player.js:165-172 | levelling up never lowers the level, leaves the experience below the new threshold and non-negative, and changes nothing below the threshold |
| Players.SettleConserves | src/entities/Player.js:165-184 | levelling up spends experience without creating or losing any |
| Players.SettleExample | src/entities/Player.js:165-184 | a new player given 350 experience reaches level 3 with 100 left, needing 225 |
| Players.Player.constructor | src/entities/Player.js:5-46 | level 1, no experience, a threshold of 100, 100 health, every tracked key released |
| Players.Player.GetDamage | src/entities/Player.js:158-163 | never below the base damage |
| Players.Player.LevelUp | src/entities/Player.js:174-184 | spends one threshold, raises the level by one and sets that level's threshold |
| Players.Player.AddExp | src/entities/Player.js:165-172 | the new level and experience are `Settle` of the old level and the credited experience; the progression invariant is kept |
| Players.Player.TakeDamage | src/entities/Player.js:120-128 | a dead player is unaffected; otherwise health drops, is clamped at zero, and the player dies exactly when it reaches zero |
| Players.Player.SetKey | src/entities/Player.js:309-313 | only keys already tracked change, and only the given one |
| Mobs.MaxHealthNonNegative | src/entities/Mob.js:15-22 | with the time scaling supplied, a new mob's health is never negative |
| Mobs.MaxHealthGrowsWithLevel | src/entities/Mob.js:15-22 | health never shrinks as the level rises |
| Mobs.MaxHealthGrowsWithTime | src/entities/Mob.js:17-22 | health never shrinks as the game time it is given rises |
| Mobs.DeadStaysDead | src/entities/Mob.js:323-330 | a dead mob is unchanged by any sequence of hits |
| Mobs.HitsAddUp | src/entities/Mob.js:323-330 | non-negative hits keep health in [0, start], the mob dies exactly when they add up to its health, and otherwise health is the start less their sum |
| Mobs.Mob.constructor | src/entities/Mob.js:5-48 | stats from the catalog entry, health scaled by level and by time under the supplied `HealthScaling` constants, the reward times the level, alive |
| Mobs.Mob.TakeDamage | src/entities/Mob.js:323-330 | the new health and death flag are `Hit` of the old ones; a killing hit restarts the death animation and records the current height as the start of the fall; otherwise the fall height is kept; the position never changes |
| Mobs.Mob.Die | src/entities/Mob.js:347-362 | the mob is dead, its death animation starts from zero, and the fall starts from its current height |
| Mobs.Mob.Update | src/entities/Mob.js:364-385 | a dead mob advances its death animation by the delta and sinks to `1.5 * progress` below the height it died at, never more than 1.5; a live mob keeps its position; health and death are untouched |
| Mobs.Mob.DeathProgress | src/entities/Mob.js:368 | the animation fraction is at most 1, and reaches 1 exactly once the duration has passed |
| Mobs.Mob.GetReward | src/entities/Mob.js:414-416 | the mob's own reward |
| Mobs.Create | src/entities/Mob.js:5-12 | fails exactly for an id outside the catalog; otherwise a fresh live mob with that entry's stats |
| Mobs.AsWrittenMobNeverDies | src/entities/Mob.js:20 | as written, health is NaN and no sequence of hits ever kills the mob |
| Mobs.CorrectedMobDies | src/entities/Mob.js:15-22 | with the scaling supplied, a new mob's health is a non-negative number, and non-negative hits kill it exactly when they add up to that health; short of that it keeps the difference |
| Spawning.SpawnIntervalBounds | src/systems/MobSpawner.js:15-19 | the interval stays within [500, 2000] ms and reaches the floor exactly from 30 s of game time on |
| Spawning.SpawnIntervalNonIncreasing | src/systems/MobSpawner.js:15-19 | spawning only speeds up as game time passes |
| Spawning.SpawnLevel | src/systems/MobSpawner.js:34 | mob level is at least 1 and goes up by one every five player levels |
| Spawning.SpawnLevelExamples | src/systems/MobSpawner.js:34 | player levels 1, 4, 5 and 12 give mob levels 1, 1, 2 and 3 |
| Spawning.MobSpawner.constructor | src/systems/MobSpawner.js:6-11 | the timer starts at zero |
| Spawning.MobSpawner.Update | src/systems/MobSpawner.js:13-27 | once the timer reaches the current interval, exactly one mob of the selected type and level is appended and the timer restarts; otherwise the timer grows by the delta in ms and the list is unchanged |
| Spawning.MobSpawner.SpawnMob | src/systems/MobSpawner.js:29-41 | a fresh live mob of the selected type, at the player-derived level, built at game time 0 |
| Combat.CombatSystem.constructor | src/systems/CombatSystem.js:2-4 | nothing is scheduled for removal |
| Combat.CombatSystem.DealDamage | src/systems/CombatSystem.js:6-14 | no mob or a dead one changes nothing; otherwise the hit is applied, and only a killing hit pays the modified reward and schedules the removal; the mob's position is kept, and a killing hit starts its death animation from that height |
| Combat.CombatSystem.OnMobKilled | src/systems/CombatSystem.js:16-30 | the reward after the active contracts goes to experience (with levelling) and gold, and one removal is scheduled |
| Targeting.BestCandidate | src/systems/TargetingSystem.js:39-60 | none exactly when no live mob is in range; otherwise the first live mob in range of least score |
| Targeting.AimRefine | src/systems/TargetingSystem.js:88-102 | the refined aim keeps the starting height and takes at most the given number of predictions |
| Targeting.CalculateAimPoint | src/systems/TargetingSystem.js:75-105 | no point exactly when there is no target; otherwise the refinement from the weapon, at the target's centre height, after at most three predictions |
| Targeting.TargetingSystem.constructor | src/systems/TargetingSystem.js:5-9 | no lock |
| Targeting.TargetingSystem.SelectTarget | src/systems/TargetingSystem.js:14-69 | none and no change without live mobs; a lock held at least 0.1 s returns the old target if in range, else is dropped; otherwise the best candidate, re-locking only on a new target |
| Targeting.TargetingSystem.Reset | src/systems/TargetingSystem.js:107-110 | the lock is forgotten |
| Targeting.HasAliveLoop | src/systems/TargetingSystem.js:17-18 | true exactly when some mob is alive |
| Projectiles.Projectile.constructor | src/systems/AttackEffects.js:48-56 | starts at its origin with nothing flown, no hit and in the scene |
| Projectiles.CheckCollisions | src/systems/AttackEffects.js:159-176 | none exactly when no live mob's hitbox is touched; otherwise the first such mob in list order |
| Projectiles.AttachedOnly | src/systems/AttackEffects.js:225-250 | keeps exactly the projectiles still in the scene |
| Projectiles.AttachedOnlyDistinct | src/systems/AttackEffects.js:225-250 | filtering a repeat-free effect list keeps it repeat-free |
| Projectiles.AttackEffects.constructor | src/systems/AttackEffects.js:5-10 | no effects and no projectiles |
| Projectiles.AttackEffects.CreateAttackProjectile | src/systems/AttackEffects.js:12-63 | one fresh projectile at the origin, flying toward the target point at the configured speed, appended to both lists |
| Projectiles.AttackEffects.RemoveProjectile | src/systems/AttackEffects.js:119-157 | the projectile leaves the scene and the projectile list, the others keep their order |
| Projectiles.AttackEffects.UpdateProjectile | src/systems/AttackEffects.js:65-117 | a spent projectile does nothing; otherwise it moves; past the maximum distance it is removed harmlessly; touching a mob it hits the first one touched, once, and is removed, and if that hit kills, the contract-modified reward is credited: the experience settles into levels and the gold is added, otherwise progression and balances are unchanged; else it flies on |
| Projectiles.AttackEffects.UpdateEffect | src/systems/AttackEffects.js:228-249 | one loop pass keeps the effect exactly when it is still in flight |
| Projectiles.AttackEffects.Update | src/systems/AttackEffects.js:225-251 | afterwards the effect list is exactly the old one's projectiles still in flight, in order, and every invariant holds |
| Projectiles.AttackEffects.Clear | src/systems/AttackEffects.js:253-260 | every effect leaves the scene and both lists are empty |
| GameTime.ClampDelta | src/core/Game.js:624-635 | the delta is clamped into [0, 0.1] and unchanged within it |
| GameTime.ContactDamage | src/core/Game.js:686-688 | contact damage is at least 5 from the start of the game |
| GameTime.ContactDamageMonotone | src/core/Game.js:686-688 | contact damage never falls as game time passes |
| GameTime.ContactDamageExamples | src/core/Game.js:686-688 | 5 at the start, 10 after a minute, 12 after ninety seconds |
| GameTime.ClockParts | src/core/Game.js:589-591 | hours, minutes below 60 and seconds below 60 add up to the whole seconds |
| GameTime.ShowNat | src/core/Game.js:594 | one or more digits; one digit exactly below 10, at most two below 100 |
| GameTime.Pad2 | src/core/Game.js:594 | a shorter string is padded to two characters, a longer one is unchanged |
| GameTime.ShowNatReadsBack | src/core/Game.js:594 | the digits read back as the number |
| GameTime.LongClockReadsBack | src/core/Game.js:594 | `H:MM:SS` splits into three fields that read back as h*3600 + m*60 + s |
| GameTime.ShortClockReadsBack | src/core/Game.js:596 | `M:SS` splits into two fields that read back as m*60 + s |
| GameTime.FormatTimeReadsBack | src/core/Game.js:588-598 | the display reads back as the whole seconds played, has an hours field exactly from the first hour on, and pads the other fields to two digits |
| Simulation.ClampToMap | src/core/Game.js:511-513 | the coordinate is clamped into [-98, 98] and unchanged within it |
| Simulation.Game.constructor | src/core/Game.js:13-50 | all clocks at zero, not paused, first frame pending, no mobs, not yet loaded |
| Simulation.Game.InitHeavy | src/core/Game.js:66-70 | the game is loaded, and no clock changes |
| Simulation.Game.ElapsedTime | src/core/Game.js:379-394 | never negative, and zero before the first frame |
| Simulation.Game.FormattedTime | src/core/Game.js:588-598 | the display reads back as the whole seconds of game time, with three fields exactly from the first hour on |
| Simulation.Game.TogglePause | src/core/Game.js:358-377 | flips the pause, records or accounts for the pause, and the elapsed time does not jump |
| Simulation.Game.FrameDelta | src/core/Game.js:605-644 | the delta is in [0, 0.1]: zero on the first call, on the first frame after it and while paused, else the clamped time since the last frame |
| Simulation.Game.Animate | src/core/Game.js:600-658 | one frame keeps the invariant, advances game time by at most 0.1 s and not at all before the start or while paused |
| Simulation.Game.Update | src/core/Game.js:466-586 | before loading or while paused nothing changes; otherwise game time advances by the delta, at most one mob is appended, and the attack time moves only to a due attack |
| Simulation.Game.Step | src/core/Game.js:494-580 | the running-game part of `update`, with the same guarantees |
| Simulation.Game.AttackAndMove | src/core/Game.js:548-580 | the attack time moves only when an attack was due; the invariant is kept |
| Simulation.Game.Spawn | src/core/Game.js:519-526 | at most one fresh mob is appended and the list stays repeat-free |
| Simulation.Game.MoveProjectiles | src/core/Game.js:573-580 | the effect list keeps exactly the projectiles still in flight |
| Simulation.Game.KeepOnMap | src/core/Game.js:510-513 | the player ends within the map bounds on x and z, with the height and the progression untouched |
| Simulation.Game.UpdateMobs | src/core/Game.js:528-546 | contact never heals the player, and once time has started a frame costs at most one contact's damage |
| Simulation.Game.CheckPlayerMobCollision | src/core/Game.js:668-697 | hits exactly when both live, touching on the ground plane and off cooldown; then deals the time-scaled damage and records the time |
| Simulation.Game.AutoAttack | src/core/Game.js:548-570 | fires only when the game has started and two seconds have passed, and then records the time; a fired shot is one fresh projectile from the weapon |
| Simulation.Game.AttackTarget | src/core/Game.js:396-419 | fires exactly for a live target while not paused: one fresh projectile from the weapon, one unit above the player, with the player's damage, flying toward the aim point predicted from two units above the player |
| Simulation.Game.RemoveMob | src/core/Game.js:660-666 | the mob leaves the list and every other mob stays |
| Simulation.Game.FlushRemovals | src/systems/CombatSystem.js:27-29 | every scheduled mob leaves the list, every other stays, and nothing remains scheduled |
| Simulation.ContactDamageFloor | src/core/Game.js:686-688 | contact damage is at least 5 |
| Simulation.ElapsedFrozenWhilePaused | src/core/Game.js:379-394 | while paused, with the pause start recorded, the elapsed time stands still |
| Simulation.ElapsedGrowsWhileRunning | src/core/Game.js:379-394 | while running, the elapsed time never goes backwards |
| Demo.Cut | game.js:141-142 | the result is the difference, floored at zero |
| Demo.Heal | game.js:196-199 | the result is the sum, capped at the maximum, and never below a valid start |
| Demo.EnemyDamage | game.js:160-164 | 8, halved to 4 while defending |
| Demo.CutAdds | game.js:141-142 | two floored cuts are one cut by their sum |
| Demo.CutTimesIsOneCut | game.js:138-156 | n attacks of d leave max(0, hp - n*d) |
| Demo.SixAttacksDefeatTheEnemy | game.js:138-156 | the enemy's 60 HP survive five attacks and fall to the sixth |
| Demo.Item.constructor | game.js:45-48 | an entry with its name, kind, effect and quantity |
| Demo.Battle.constructor | game.js:28-48 | 100/100 HP, 30/30 MP, an enemy at 60/60, two potions and a scroll |
| Demo.Battle.EnemyAttack | game.js:158-180 | the player loses the enemy's blow, floored at zero, and stops defending |
| Demo.Battle.DoAttack | game.js:138-156 | the enemy loses 10; a surviving enemy strikes back, a defeated one does not |
| Demo.Battle.DoDefend | game.js:182-185 | the next blow is halved, and nothing else changes |
| Demo.Battle.UseItem | game.js:188-226 | nothing with none left; a potion heals to at most the maximum; a scroll hurts the enemy, which strikes back if it survives; each uses up one |

## Left out

- Rendering is not modelled: meshes, materials, the camera, lighting, input events, the UI, damage numbers and hit particles, experience particles, and the console logging. Only the simulation state they read or change is kept.
- Movement is not modelled. This covers the player's movement, jump and knockback, and a live mob's `moveTowards`, bobbing and rotation. Positions change only where the model says so.
- `Mob.getPredictedPosition` and `setRandomPosition` are not modelled. Prediction is the abstract `predict`, and the spawn position is the parameter `at`.
- The `try`/`catch` blocks of `update`, `animate` and `AttackEffects.update` are not modelled, because nothing in the model throws. The one throw in the core, an unknown mob type, is the `Err` of `Mobs.Create`.
- JavaScript's IEEE doubles become exact reals and unbounded integers. Rounding and overflow are not modelled.
- Asynchronous start-up is not modelled. The subsystems exist from the constructor, and `Simulation.Game.InitHeavy` stands for `initHeavy` finishing. `initBasic`, `setupEvents` and `startGame` only build the scene.
- The 500 ms `setTimeout` of `onMobKilled` is not modelled as a timer. The removal is recorded in `Combat.CombatSystem.pending` and carried out by `Simulation.Game.FlushRemovals`.
- `ResourcesSystem.hasEnoughGold`, `hasEnoughCrystals` and `hasEnough` are the predicates `HasEnoughGold`, `HasEnoughCrystals` and `HasEnough`. The spend methods and `Activate` are specified through them.
- `Player.playAttackAnimation`, `getKeysState`, `getHealth` and `getMaxHealth` are not modelled; they only read state or animate.
- In the demo, `redrawInventory` does nothing and the mana points are only displayed.
- Demo.Battle.UseItem: the `index` parameter is unused, as in the source.
- Simulation.Game.Update: requires a non-negative delta, which is all `animate` ever passes, because `Simulation.Game.FrameDelta` clamps it.
- Simulation.Game.Update: states the time, spawn and attack-time effects of a frame. The contact, attack and projectile effects are stated by the contracts of `UpdateMobs`, `AutoAttack` and `Projectiles.AttackEffects.Update`.
- Simulation.Game.Step: is weaker in the same way as `Update`.
- Simulation.Game.Animate: states the time bookkeeping of a frame only. The rest is in `Simulation.Game.Update`.
- Simulation.Game.AttackAndMove: states the attack time and the invariant only. Its two callees state the rest.
- Simulation.Game.UpdateMobs: bounds the frame's total contact damage rather than listing each mob's contact.
- Projectiles.AttackEffects.Update: states the surviving effect list and the invariants. What each projectile does to the mobs is stated by `UpdateProjectile`.
- Targeting.CalculateAimPoint: requires a non-zero projectile speed, because the model divides by it. The game only passes the configured 8.
- Targeting.AimRefine: requires a non-zero projectile speed, for the same reason.
- Players.Player.TakeDamage: the knockback direction is not modelled.
- Mobs.Mob.constructor: uses the intended health formula, with the two time-scaling constants given as `HealthScaling`. The same holds for everything built on it: `Mobs.Create`, `Spawning.MobSpawner.SpawnMob` and `Simulation.Game`. As written, the constructor reads keys the configuration lacks, so health is NaN and no mob ever dies. That behaviour is modelled only by `Mobs.AsWrittenMobNeverDies` (see "## Findings").
- Mobs.Mob.Update: models only the death-animation branch: the progress and the fall. The fade and the shrink change only the mesh's opacity and scale, which the model does not have. A live mob's movement is left out as above.

## Findings

| source | as written | input that shows it | evidently intended | confidence | as-written member | corrected member |
|---|---|---|---|---|---|---|
| src/entities/Mob.js:20 | the health formula reads `mobs.healthTimeMultiplier` and `mobs.healthTimeScale`, which the configuration does not define, so `maxHealth` is NaN | any mob, e.g. a level-1 slime from the spawner at game time 0: health is NaN, and after a hit of 1000 `health <= 0` is false, so it never dies and never pays its reward | a finite health, the base health times `1 + gameTime * scale` as the comment above the line describes | not executed | Mobs.AsWrittenMobNeverDies | Mobs.CorrectedMobDies |
