/**
 * `MobSpawner`: a millisecond timer against an interval that shrinks
 * linearly with game time down to a floor; when the timer reaches the
 * interval one mob is spawned and the timer restarts from zero.
 */
module Spawning {
  import opened Wrappers
  import opened Numbers
  import opened Vectors
  import opened Config
  import opened Randomness
  import opened Mobs

  /** `max(baseSpawnRate - gameTime * spawnRateIncrease, minSpawnRate)`, in milliseconds. */
  function SpawnInterval(gameTime: real): real {
    Max(BaseSpawnRate - gameTime * SpawnRateIncrease, MinSpawnRate)
  }

  /** The interval never leaves [minSpawnRate, baseSpawnRate] once the game has started. */
  lemma SpawnIntervalBounds(gameTime: real)
    requires gameTime >= 0.0
    ensures MinSpawnRate <= SpawnInterval(gameTime) <= BaseSpawnRate
    ensures SpawnInterval(gameTime) == MinSpawnRate <==> gameTime >= 30.0
  {
  }

  /** Spawning only speeds up as the game goes on. */
  lemma SpawnIntervalNonIncreasing(g1: real, g2: real)
    requires g1 <= g2
    ensures SpawnInterval(g2) <= SpawnInterval(g1)
  {
  }

  /** `max(1, floor(playerLevel / 5) + 1)`: the level of a spawned mob. */
  function SpawnLevel(playerLevel: int): (l: int)
    ensures l >= 1
    ensures playerLevel >= 0 ==> 5 * (l - 1) <= playerLevel < 5 * l
  {
    if playerLevel / 5 + 1 >= 1 then playerLevel / 5 + 1 else 1
  }

  lemma SpawnLevelExamples()
    ensures SpawnLevel(1) == 1 && SpawnLevel(4) == 1 && SpawnLevel(5) == 2 && SpawnLevel(12) == 3
  {
  }

  class MobSpawner {
    var spawnTimer: real
    const spawnInterval: real

    constructor()
      ensures spawnTimer == 0.0 && spawnInterval == BaseSpawnRate
    {
      spawnTimer := 0.0;
      spawnInterval := BaseSpawnRate;
    }

    /**
     * `update(deltaTime)` together with `spawnMob`. The game's state is
     * passed in: its time, the player's level, the active contracts and
     * the mob list, returned with the new mob (if any) appended. `u` stands
     * for `Math.random()` in `selectMobType`, `at` for the random spawn
     * position, and `hs` for the missing health time-scaling keys. The
     * mob is built without a game time, so its formula sees time 0.
     */
    method Update(delta: real, gameTime: real, playerLevel: int, active: seq<Contract>,
                  u: real, at: Vec, hs: HealthScaling, mobs: seq<Mob>)
      returns (mobs': seq<Mob>)
      requires hs.Valid()
      modifies this
      ensures var timer := old(spawnTimer) + delta * 1000.0;
        if timer >= SpawnInterval(gameTime) then
          spawnTimer == 0.0 && |mobs'| == |mobs| + 1 && mobs'[..|mobs|] == mobs &&
          var m := mobs'[|mobs|];
          fresh(m) && m.Valid() && !m.isDead && m.typeId == SelectedId(active, u) &&
          m.level == SpawnLevel(playerLevel) && m.pos == at &&
          m.maxHealth == MaxHealth(MobTypes[SelectedIndex(active, u)], SpawnLevel(playerLevel), 0.0, hs) &&
          m.health == m.maxHealth && m.reward == MobReward(MobTypes[SelectedIndex(active, u)], SpawnLevel(playerLevel))
        else
          spawnTimer == timer && spawnTimer < SpawnInterval(gameTime) && mobs' == mobs
    {
      var currentSpawnRate := Max(BaseSpawnRate - gameTime * SpawnRateIncrease, MinSpawnRate);
      spawnTimer := spawnTimer + delta * 1000.0;
      if spawnTimer >= currentSpawnRate {
        var m := SpawnMob(playerLevel, active, u, at, hs);
        mobs' := mobs + [m];
        spawnTimer := 0.0;
      } else {
        mobs' := mobs;
      }
    }

    /** `spawnMob`: a mob of the selected type at the level the player's level implies. */
    method SpawnMob(playerLevel: int, active: seq<Contract>, u: real, at: Vec, hs: HealthScaling)
      returns (m: Mob)
      requires hs.Valid()
      ensures fresh(m) && m.Valid() && !m.isDead && m.typeId == SelectedId(active, u)
      ensures m.level == SpawnLevel(playerLevel) && m.pos == at
      ensures m.maxHealth == MaxHealth(MobTypes[SelectedIndex(active, u)], SpawnLevel(playerLevel), 0.0, hs)
      ensures m.health == m.maxHealth
      ensures m.reward == MobReward(MobTypes[SelectedIndex(active, u)], SpawnLevel(playerLevel))
    {
      var mobType := SelectMobType(active, u);
      var mobLevel := if 1 >= playerLevel / 5 + 1 then 1 else playerLevel / 5 + 1;
      FindTypeOfCatalogEntry(SelectedIndex(active, u));
      var t := FindMobType(mobType).value;
      m := new Mob(t, mobLevel, 0.0, hs, at);
    }
  }

  /** Looking up a catalog entry's id finds that entry. */
  lemma FindTypeOfCatalogEntry(i: nat)
    requires i < |MobTypes|
    ensures FindMobType(MobTypes[i].id) == Some(MobTypes[i])
  {
    MobTypeIdsDistinct();
  }
}
