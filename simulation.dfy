/**
 * `Game`: the frame loop's bookkeeping. Each frame the clock gives a
 * delta (zero on the first frames and while paused, at most 0.1 s), and an
 * unpaused, loaded game advances its time, spawns, lets the live mobs hurt
 * the player on contact, fires an automatic attack when the cooldown has
 * passed, and moves the projectiles. Pausing freezes the elapsed time.
 * `performance.now()` is the parameter `now`, in milliseconds; the random
 * draws of the spawner are `u` and `at`; movement is left to `Kinematics`.
 */
module Simulation {
  import opened Wrappers
  import opened Numbers
  import opened Vectors
  import opened Config
  import opened Lists
  import opened GameTime
  import opened Resources
  import opened Contracts
  import opened Players
  import opened Mobs
  import opened Spawning
  import opened Combat
  import opened Targeting
  import opened Projectiles

  /** `1 / baseAttackSpeed`: two seconds between automatic attacks. */
  const AttackInterval: real := 1.0 / BaseAttackSpeed
  /** The least time between two contact hits on the player, in seconds. */
  const ContactCooldown: real := 0.5
  /** Half the floor less a margin of two: the player stays within this on x and z. */
  const MapBound: real := FloorSize / 2.0 - 2.0

  /** `Math.max(-mapSize, Math.min(mapSize, x))`. */
  function ClampToMap(x: real): (r: real)
    ensures -MapBound <= r <= MapBound
    ensures -MapBound <= x <= MapBound ==> r == x
    ensures x > MapBound ==> r == MapBound
    ensures x < -MapBound ==> r == -MapBound
  {
    Max(-MapBound, Min(MapBound, x))
  }

  /** The position with its height dropped, as the contact test compares them. */
  function Flat(v: Vec): Vec {
    v.(y := 0.0)
  }

  /** `this.player.hitboxRadius || 0.5`. */
  function PlayerRadius(hitboxRadius: real): real {
    if hitboxRadius == 0.0 then 0.5 else hitboxRadius
  }

  /** The player and the mob overlap on the ground plane. */
  predicate InContact(player: Player, mob: Mob)
    reads player, mob
  {
    Within(Flat(player.pos), Flat(mob.pos), PlayerRadius(player.hitboxRadius) + mob.hitboxRadius)
  }

  class Game {
    var lastFrameTime: real
    var startTime: real
    var gameTime: real
    var lastAttackTime: real
    var lastPlayerDamageTime: real
    var isPaused: bool
    var pauseStartTime: real
    var totalPauseTime: real
    var firstFrame: bool
    /** The scene and every subsystem are in place (`initHeavy` has finished). */
    var ready: bool
    var mobs: seq<Mob>
    const player: Player
    const resources: ResourcesSystem
    const contracts: ContractSystem
    const spawner: MobSpawner
    const combat: CombatSystem
    const effects: AttackEffects
    const targeting: TargetingSystem

    /**
     * Every subsystem keeps its own invariant, the mob list holds each mob
     * once, and game time is never negative.
     */
    ghost predicate Valid()
      reads this, player, contracts, effects, effects.effects, mobs
    {
      player.Valid() && contracts.Valid() && contracts.resources == resources && effects.Valid() &&
      Distinct(mobs) && (forall m :: m in mobs ==> m.Valid()) && gameTime >= 0.0
    }

    /** The constructor with `initHeavy`'s subsystems, before they are marked ready. */
    constructor()
      ensures Valid() && !ready && mobs == []
      ensures lastFrameTime == 0.0 && startTime == 0.0 && gameTime == 0.0
      ensures lastAttackTime == 0.0 && lastPlayerDamageTime == 0.0
      ensures !isPaused && pauseStartTime == 0.0 && totalPauseTime == 0.0 && firstFrame
      ensures fresh(player) && fresh(resources) && fresh(contracts) && fresh(spawner)
      ensures fresh(combat) && fresh(effects) && fresh(targeting)
      ensures contracts.active == [] && combat.pending == [] && effects.effects == []
    {
      var r := new ResourcesSystem();
      player := new Player();
      resources := r;
      contracts := new ContractSystem(r);
      spawner := new MobSpawner();
      combat := new CombatSystem();
      effects := new AttackEffects();
      targeting := new TargetingSystem();
      lastFrameTime := 0.0;
      startTime := 0.0;
      gameTime := 0.0;
      lastAttackTime := 0.0;
      lastPlayerDamageTime := 0.0;
      isPaused := false;
      pauseStartTime := 0.0;
      totalPauseTime := 0.0;
      firstFrame := true;
      ready := false;
      mobs := [];
    }

    /** The end of `initHeavy`: from now on `update` runs. */
    method InitHeavy()
      modifies this
      ensures ready
      ensures mobs == old(mobs) && gameTime == old(gameTime) && startTime == old(startTime)
      ensures lastFrameTime == old(lastFrameTime) && isPaused == old(isPaused) && firstFrame == old(firstFrame)
      ensures pauseStartTime == old(pauseStartTime) && totalPauseTime == old(totalPauseTime)
      ensures lastAttackTime == old(lastAttackTime) && lastPlayerDamageTime == old(lastPlayerDamageTime)
    {
      ready := true;
    }

    /**
     * `getElapsedTime`: seconds since the start less the time spent
     * paused (the current pause included), never negative, and zero
     * before the first frame.
     */
    function ElapsedTime(now: real): (e: real)
      reads this
      ensures e >= 0.0
      ensures startTime == 0.0 ==> e == 0.0
    {
      if startTime == 0.0 then 0.0
      else
        var pauseTime := totalPauseTime + (if isPaused && pauseStartTime > 0.0 then now - pauseStartTime else 0.0);
        Max((now - startTime - pauseTime) / 1000.0, 0.0)
    }

    /**
     * `getFormattedTime`: the game time as `H:MM:SS` from the first hour
     * on, `M:SS` before it; read back, it is the whole seconds played.
     */
    function FormattedTime(): (s: string)
      reads this
      requires gameTime >= 0.0
      ensures ParseClock(s) == gameTime.Floor
      ensures |Fields(s)| == (if gameTime >= 3600.0 then 3 else 2)
    {
      FormatTimeReadsBack(gameTime);
      FormatTime(gameTime)
    }

    /**
     * `togglePause`. Pausing records when; resuming adds the pause's length
     * (when its start was recorded), restarts the frame clock at `now` and
     * clears the start. Either way the elapsed time does not jump.
     */
    method TogglePause(now: real)
      modifies this
      ensures isPaused == !old(isPaused)
      ensures isPaused ==>
        pauseStartTime == now && totalPauseTime == old(totalPauseTime) && lastFrameTime == old(lastFrameTime)
      ensures !isPaused ==>
        pauseStartTime == 0.0 && lastFrameTime == now &&
        totalPauseTime == old(totalPauseTime) + (if old(pauseStartTime) > 0.0 then now - old(pauseStartTime) else 0.0)
      ensures ElapsedTime(now) == old(ElapsedTime(now))
      ensures mobs == old(mobs) && gameTime == old(gameTime) && startTime == old(startTime)
      ensures ready == old(ready) && firstFrame == old(firstFrame)
      ensures lastAttackTime == old(lastAttackTime) && lastPlayerDamageTime == old(lastPlayerDamageTime)
    {
      isPaused := !isPaused;
      if isPaused {
        pauseStartTime := now;
      } else {
        if pauseStartTime > 0.0 {
          totalPauseTime := totalPauseTime + (now - pauseStartTime);
        }
        lastFrameTime := now;
        pauseStartTime := 0.0;
      }
    }

    /**
     * The clock part of `animate`. The first call starts the clocks and
     * gives 0; the first unpaused frame after it gives 0; a paused frame
     * gives 0 and leaves the frame clock alone; otherwise the time since
     * the previous frame, clamped to [0, 0.1] seconds.
     */
    method FrameDelta(now: real) returns (delta: real)
      modifies this
      ensures 0.0 <= delta <= MaxDelta
      ensures old(startTime) == 0.0 ==>
        startTime == now && lastFrameTime == now && firstFrame && delta == 0.0
      ensures old(startTime) != 0.0 ==> startTime == old(startTime)
      ensures old(startTime) != 0.0 && old(isPaused) ==>
        delta == 0.0 && lastFrameTime == old(lastFrameTime) && firstFrame == old(firstFrame)
      ensures old(startTime) != 0.0 && !old(isPaused) ==> lastFrameTime == now && !firstFrame
      ensures old(startTime) != 0.0 && !old(isPaused) && old(firstFrame) ==> delta == 0.0
      ensures old(startTime) != 0.0 && !old(isPaused) && !old(firstFrame) ==>
        delta == ClampDelta((now - old(lastFrameTime)) / 1000.0)
      ensures mobs == old(mobs) && gameTime == old(gameTime) && isPaused == old(isPaused) && ready == old(ready)
      ensures pauseStartTime == old(pauseStartTime) && totalPauseTime == old(totalPauseTime)
      ensures lastAttackTime == old(lastAttackTime) && lastPlayerDamageTime == old(lastPlayerDamageTime)
    {
      delta := 0.0;
      if startTime == 0.0 {
        startTime := now;
        lastFrameTime := now;
        firstFrame := true;
        delta := 0.0;
      } else if !isPaused {
        if firstFrame {
          lastFrameTime := now;
          delta := 0.0;
          firstFrame := false;
        } else {
          delta := (now - lastFrameTime) / 1000.0;
          if delta > 0.1 {
            delta := 0.1;
          }
          if delta < 0.0 {
            delta := 0.0;
          }
          lastFrameTime := now;
        }
      } else {
        delta := 0.0;
      }
    }

    /**
     * `animate`, one frame: the delta, then `update` with it. The same
     * `now` stands for every reading of the clock during the frame.
     */
    method Animate(now: real, u: real, at: Vec, hs: HealthScaling, k: Kinematics)
      requires Valid() && hs.Valid()
      modifies this, player, resources, spawner, combat, targeting, effects, effects.effects, mobs
      ensures Valid()
      ensures gameTime - old(gameTime) <= MaxDelta
      ensures old(startTime) == 0.0 || old(isPaused) ==> gameTime == old(gameTime)
      ensures isPaused == old(isPaused) && pauseStartTime == old(pauseStartTime)
      ensures totalPauseTime == old(totalPauseTime)
    {
      var delta := FrameDelta(now);
      Update(delta, now, u, at, hs, k);
    }

    /**
     * `update`. Nothing happens before the game is loaded or while it is
     * paused. Otherwise, in this order: game time advances by `delta`, the
     * player is kept on the map, the spawner runs, every live mob is
     * checked for contact, the automatic attack fires if due, and the
     * projectiles move.
     */
    method Update(delta: real, now: real, u: real, at: Vec, hs: HealthScaling, k: Kinematics)
      requires Valid() && hs.Valid() && delta >= 0.0
      modifies this, player, resources, spawner, combat, targeting, effects, effects.effects, mobs
      ensures Valid()
      ensures !old(ready) || old(isPaused) ==>
        unchanged(this) && unchanged(player, resources, spawner, combat, targeting, effects) && unchanged(mobs)
      ensures old(ready) && !old(isPaused) ==>
        gameTime == old(gameTime) + delta &&
        |old(mobs)| <= |mobs| <= |old(mobs)| + 1 && mobs[..|old(mobs)|] == old(mobs)
      ensures lastAttackTime == old(lastAttackTime) ||
        (startTime > 0.0 && lastAttackTime == ElapsedTime(now) &&
         ElapsedTime(now) - old(lastAttackTime) >= AttackInterval)
      ensures startTime == old(startTime) && isPaused == old(isPaused) && ready == old(ready)
      ensures pauseStartTime == old(pauseStartTime) && totalPauseTime == old(totalPauseTime)
      ensures lastFrameTime == old(lastFrameTime) && firstFrame == old(firstFrame)
    {
      if !ready || isPaused {
        return;
      }
      Step(delta, now, u, at, hs, k);
    }

    /** The body of `update` for a loaded, running game. */
    method Step(delta: real, now: real, u: real, at: Vec, hs: HealthScaling, k: Kinematics)
      requires Valid() && hs.Valid() && delta >= 0.0
      modifies this, player, resources, spawner, combat, targeting, effects, effects.effects, mobs
      ensures Valid()
      ensures gameTime == old(gameTime) + delta
      ensures |old(mobs)| <= |mobs| <= |old(mobs)| + 1 && mobs[..|old(mobs)|] == old(mobs)
      ensures lastAttackTime == old(lastAttackTime) ||
        (startTime > 0.0 && lastAttackTime == ElapsedTime(now) &&
         ElapsedTime(now) - old(lastAttackTime) >= AttackInterval)
      ensures startTime == old(startTime) && isPaused == old(isPaused) && ready == old(ready)
      ensures pauseStartTime == old(pauseStartTime) && totalPauseTime == old(totalPauseTime)
      ensures lastFrameTime == old(lastFrameTime) && firstFrame == old(firstFrame)
    {
      gameTime := gameTime + delta;
      KeepOnMap();
      Spawn(delta, u, at, hs);
      UpdateMobs(now);
      assert forall m :: m in mobs ==> m in old(mobs) || fresh(m) by {
        forall m | m in mobs ensures m in old(mobs) || fresh(m) {
          var i :| 0 <= i < |mobs| && mobs[i] == m;
          if i < |old(mobs)| {
            assert mobs[..|old(mobs)|][i] == m;
          }
        }
      }
      AttackAndMove(delta, now, k);
    }

    /** The automatic attack and then the projectiles' turn, the end of `update`. */
    method AttackAndMove(delta: real, now: real, k: Kinematics)
      requires Valid()
      modifies this`lastAttackTime, targeting, effects, effects.effects, mobs, combat, player, resources
      ensures Valid()
      ensures lastAttackTime == old(lastAttackTime) ||
        (startTime > 0.0 && lastAttackTime == ElapsedTime(now) &&
         ElapsedTime(now) - old(lastAttackTime) >= AttackInterval)
    {
      var _ := AutoAttack(now, k);
      assert forall q :: q in effects.effects ==> q in old(effects.effects) || fresh(q) by {
        forall q | q in effects.effects ensures q in old(effects.effects) || fresh(q) {
          var i :| 0 <= i < |effects.effects| && effects.effects[i] == q;
          if i < |old(effects.effects)| {
            assert effects.effects[..|old(effects.effects)|][i] == q;
          }
        }
      }
      MoveProjectiles(delta, k);
    }

    /** The spawner's turn in `update`: at most one new mob, appended to the list. */
    method Spawn(delta: real, u: real, at: Vec, hs: HealthScaling)
      requires Valid() && hs.Valid()
      modifies this`mobs, spawner
      ensures Valid()
      ensures |old(mobs)| <= |mobs| <= |old(mobs)| + 1 && mobs[..|old(mobs)|] == old(mobs)
      ensures forall i :: |old(mobs)| <= i < |mobs| ==> fresh(mobs[i])
    {
      var spawned := spawner.Update(delta, gameTime, player.level, contracts.active, u, at, hs, mobs);
      assert spawned[..|mobs|] == mobs;
      assert Distinct(spawned) by {
        if |spawned| > |mobs| {
          forall i | 0 <= i < |mobs| ensures spawned[i] != spawned[|mobs|] {
            assert spawned[i] == mobs[i];
          }
        }
      }
      mobs := spawned;
    }

    /** The projectiles' turn in `update`: every effect moves and the hits are dealt. */
    method MoveProjectiles(delta: real, k: Kinematics)
      requires Valid()
      modifies effects, effects.effects, mobs, combat, player, resources
      ensures Valid()
      ensures effects.effects == AttachedOnly(old(effects.effects))
    {
      effects.Update(delta, mobs, combat, player, resources, contracts, k);
    }

    /** The bounds `update` puts on the player's position after it moves, on x and z. */
    method KeepOnMap()
      modifies player
      ensures -MapBound <= player.pos.x <= MapBound && -MapBound <= player.pos.z <= MapBound
      ensures player.pos == Vec(ClampToMap(old(player.pos.x)), old(player.pos.y), ClampToMap(old(player.pos.z)))
      ensures player.level == old(player.level) && player.exp == old(player.exp) && player.health == old(player.health)
      ensures player.expToNextLevel == old(player.expToNextLevel) && player.isDead == old(player.isDead)
    {
      player.pos := Vec(ClampToMap(player.pos.x), player.pos.y, ClampToMap(player.pos.z));
    }

    /**
     * The mob loop of `update` (the movement of each live mob left out):
     * every live mob is checked for contact with the player. Once the
     * elapsed time is above zero, a frame costs the player at most one
     * contact's damage.
     */
    method UpdateMobs(now: real)
      requires Valid()
      modifies this, player
      ensures Valid()
      ensures player.health <= old(player.health)
      ensures ElapsedTime(now) > 0.0 ==> player.health >= old(player.health) - ContactDamage(gameTime)
      ensures lastPlayerDamageTime == old(lastPlayerDamageTime) || lastPlayerDamageTime == ElapsedTime(now)
      ensures mobs == old(mobs) && gameTime == old(gameTime) && startTime == old(startTime)
      ensures isPaused == old(isPaused) && ready == old(ready) && lastAttackTime == old(lastAttackTime)
      ensures pauseStartTime == old(pauseStartTime) && totalPauseTime == old(totalPauseTime)
      ensures lastFrameTime == old(lastFrameTime) && firstFrame == old(firstFrame)
      ensures player.pos == old(player.pos) && player.level == old(player.level) && player.exp == old(player.exp)
    {
      ContactDamageFloor(gameTime);
      ghost var hit := false;
      for i := 0 to |mobs|
        invariant Valid()
        invariant mobs == old(mobs) && gameTime == old(gameTime) && startTime == old(startTime)
        invariant isPaused == old(isPaused) && ready == old(ready) && lastAttackTime == old(lastAttackTime)
        invariant pauseStartTime == old(pauseStartTime) && totalPauseTime == old(totalPauseTime)
        invariant lastFrameTime == old(lastFrameTime) && firstFrame == old(firstFrame)
        invariant player.pos == old(player.pos) && player.level == old(player.level) && player.exp == old(player.exp)
        invariant !hit ==> player.health == old(player.health) && lastPlayerDamageTime == old(lastPlayerDamageTime)
        invariant hit ==> lastPlayerDamageTime == ElapsedTime(now) && player.health <= old(player.health)
        invariant hit && ElapsedTime(now) > 0.0 ==> player.health >= old(player.health) - ContactDamage(gameTime)
      {
        var mob := mobs[i];
        if !mob.isDead {
          var struck := CheckPlayerMobCollision(mob, now);
          if struck {
            assert hit && ElapsedTime(now) > 0.0 ==> false;
            hit := true;
          }
        }
      }
    }

    /**
     * `checkPlayerMobCollision`: a live mob touching a live player on the
     * ground plane deals the contact damage for the current game time,
     * unless the previous contact hit is less than half a second old (a
     * previous time of zero counts as none). Reports whether it hit.
     */
    method CheckPlayerMobCollision(mob: Mob, now: real) returns (struck: bool)
      requires player.Valid()
      modifies this`lastPlayerDamageTime, player
      ensures player.Valid()
      ensures struck <==>
        !mob.isDead && !old(player.isDead) && old(InContact(player, mob)) &&
        (old(lastPlayerDamageTime) == 0.0 || ElapsedTime(now) - old(lastPlayerDamageTime) >= ContactCooldown)
      ensures struck ==>
        lastPlayerDamageTime == ElapsedTime(now) &&
        player.health == (if old(player.health) - ContactDamage(gameTime) <= 0 then 0
                          else old(player.health) - ContactDamage(gameTime))
      ensures !struck ==>
        lastPlayerDamageTime == old(lastPlayerDamageTime) &&
        player.health == old(player.health) && player.isDead == old(player.isDead)
      ensures player.pos == old(player.pos) && player.level == old(player.level) && player.exp == old(player.exp)
    {
      struck := false;
      if mob.isDead || player.isDead {
        return;
      }
      var playerPos := Flat(player.pos);
      var mobPos := Flat(mob.pos);
      if Within(playerPos, mobPos, PlayerRadius(player.hitboxRadius) + mob.hitboxRadius) {
        var damage := ContactDamage(gameTime);
        var t := ElapsedTime(now);
        if lastPlayerDamageTime == 0.0 || t - lastPlayerDamageTime >= ContactCooldown {
          player.TakeDamage(damage);
          lastPlayerDamageTime := t;
          struck := true;
        }
      }
    }

    /**
     * The automatic attack of `update`: once the game has started and the
     * cooldown has passed since the last attack, a target is chosen and,
     * if there is one, attacked, and only then is the attack time moved to
     * now. Reports whether a projectile was fired.
     */
    method AutoAttack(now: real, k: Kinematics) returns (fired: bool)
      requires Valid()
      modifies this`lastAttackTime, targeting, effects
      ensures Valid()
      ensures lastAttackTime == old(lastAttackTime) ||
        (startTime > 0.0 && ElapsedTime(now) - old(lastAttackTime) >= AttackInterval &&
         lastAttackTime == ElapsedTime(now))
      ensures fired ==>
        startTime > 0.0 && ElapsedTime(now) - old(lastAttackTime) >= AttackInterval &&
        lastAttackTime == ElapsedTime(now)
      ensures fired ==>
        |effects.effects| == |old(effects.effects)| + 1 &&
        effects.effects[..|old(effects.effects)|] == old(effects.effects) &&
        var q := effects.effects[|old(effects.effects)|];
        fresh(q) && q.pos == Raise(player.pos, 1.0) && q.damage == player.GetDamage() && q.attached && !q.hit
      ensures !fired ==> effects.effects == old(effects.effects) && effects.projectiles == old(effects.projectiles)
      ensures startTime == 0.0 || ElapsedTime(now) - old(lastAttackTime) < AttackInterval ==>
        !fired && lastAttackTime == old(lastAttackTime) && unchanged(targeting)
    {
      fired := false;
      if startTime > 0.0 {
        var currentTime := ElapsedTime(now);
        if currentTime - lastAttackTime >= AttackInterval {
          var targetMob := targeting.SelectTarget(mobs, player.pos, k);
          if targetMob != null {
            fired := AttackTarget(targetMob, k);
            lastAttackTime := currentTime;
          }
        }
      }
    }

    /**
     * `attackTarget`: nothing for a dead target or while paused; otherwise
     * a projectile with the player's damage leaves the weapon, one unit
     * above the player, toward the aim point `calculateAimPoint` computes.
     * That computation raises the position it is given by one more unit,
     * so the aim is predicted from two units above the player while the
     * projectile starts from one.
     */
    method AttackTarget(target: Mob, k: Kinematics) returns (fired: bool)
      requires Valid()
      modifies effects
      ensures Valid()
      ensures fired <==> !target.isDead && !isPaused
      ensures fired ==>
        |effects.effects| == |old(effects.effects)| + 1 &&
        effects.effects[..|old(effects.effects)|] == old(effects.effects) &&
        var q := effects.effects[|old(effects.effects)|];
        fresh(q) && q.pos == Raise(player.pos, 1.0) && q.damage == player.GetDamage() && q.attached && !q.hit &&
        var aim := AimRefine(k, Raise(Raise(player.pos, 1.0), 1.0), target, ProjectileSpeed, AimStart(target), 3).0;
        q.velocity == Scale(k.normalize(Sub(aim, Raise(player.pos, 1.0))), ProjectileSpeed)
      ensures !fired ==> effects.effects == old(effects.effects) && effects.projectiles == old(effects.projectiles)
    {
      fired := false;
      if target.isDead || isPaused {
        return;
      }
      var damage := player.GetDamage();
      var weaponPos := Raise(player.pos, 1.0);
      var aimPoint, _ := CalculateAimPoint(target, weaponPos, ProjectileSpeed, k);
      if aimPoint.None? {
        return;
      }
      effects.CreateAttackProjectile(weaponPos, aimPoint.value, damage, k);
      fired := true;
    }

    /**
     * `removeMob`: the mob leaves the list if it is there, the others keep
     * their order.
     */
    method RemoveMob(mob: Mob)
      requires Valid()
      modifies this`mobs
      ensures Valid()
      ensures mobs == Remove(old(mobs), mob)
      ensures mob !in mobs && forall m :: m != mob ==> (m in mobs <==> m in old(mobs))
    {
      RemoveDistinct(mobs, mob);
      var index := IndexOf(mobs, mob);
      if index > -1 {
        mobs := RemoveAt(mobs, index);
      }
    }

    /**
     * The removals `onMobKilled` schedules with `setTimeout`, carried out:
     * every pending mob leaves the list and nothing is pending any more.
     */
    method FlushRemovals()
      requires Valid()
      modifies this`mobs, combat
      ensures Valid()
      ensures combat.pending == []
      ensures mobs == RemoveAll(old(mobs), old(combat.pending))
      ensures forall m :: m in old(combat.pending) ==> m !in mobs
      ensures forall m :: m !in old(combat.pending) ==> (m in mobs <==> m in old(mobs))
    {
      var ps := combat.pending;
      for i := 0 to |ps|
        invariant Valid()
        invariant mobs == RemoveAll(old(mobs), ps[..i])
      {
        assert ps[..i + 1][..i] == ps[..i];
        RemoveMob(ps[i]);
      }
      assert ps[..|ps|] == ps;
      RemoveAllDistinct(old(mobs), ps);
      combat.pending := [];
    }
  }

  /** Contact damage is at least five once the game has started. */
  lemma ContactDamageFloor(gameTime: real)
    requires gameTime >= 0.0
    ensures ContactDamage(gameTime) >= 5
  {
  }

  /** While paused, with the pause's start recorded, the elapsed time stands still. */
  lemma ElapsedFrozenWhilePaused(g: Game, n1: real, n2: real)
    requires g.isPaused && g.pauseStartTime > 0.0
    ensures g.ElapsedTime(n1) == g.ElapsedTime(n2)
  {
  }

  /** While running, the elapsed time never goes backwards. */
  lemma ElapsedGrowsWhileRunning(g: Game, n1: real, n2: real)
    requires !g.isPaused && n1 <= n2
    ensures g.ElapsedTime(n1) <= g.ElapsedTime(n2)
  {
  }
}
