/**
 * `Mob`: stat and reward formulas of the constructor, `takeDamage`, `die`,
 * the death branch of `update` and `getReward`. Meshes, movement toward the
 * player, bobbing and rotation are not part of this model; the position is
 * kept because targeting and collisions measure distances from it.
 *
 * The constructor reads two keys, `mobs.healthTimeMultiplier` and
 * `mobs.healthTimeScale`, that the configuration does not define. The class
 * below takes them as the explicit parameters `HealthScaling`; the
 * behaviour of the code as written is modelled separately at the end of the
 * module (`MaxHealthAsWritten`, `AsWrittenMobNeverDies`).
 */
module Mobs {
  import opened Wrappers
  import opened Numbers
  import opened Vectors
  import opened Config

  /** The two time-scaling constants of the health formula. */
  datatype HealthScaling = HealthScaling(multiplier: real, scale: real) {
    predicate Valid() {
      multiplier > 0.0 && scale >= 0.0
    }
  }

  /** `floor(health * healthMultiplier^(level - 1) * (multiplier + gameTime * scale))`. */
  function MaxHealth(t: MobType, level: int, gameTime: real, hs: HealthScaling): int {
    Scaled(t.health as real, IntPower(HealthMultiplier, level - 1), hs.multiplier + gameTime * hs.scale)
  }

  /** `floor(base * levelFactor * timeFactor)`, the shape of the health formula. */
  function Scaled(base: real, levelFactor: real, timeFactor: real): int {
    (base * levelFactor * timeFactor).Floor
  }

  /** The catalog reward multiplied by the level. */
  function MobReward(t: MobType, level: int): Reward {
    Reward(t.goldReward * level, t.expReward * level)
  }

  /** With valid scaling and a non-negative game time a new mob never starts with negative health. */
  lemma MaxHealthNonNegative(t: MobType, level: int, gameTime: real, hs: HealthScaling)
    requires t in MobTypes && hs.Valid() && gameTime >= 0.0
    ensures MaxHealth(t, level, gameTime, hs) >= 0
  {
    var p := IntPower(HealthMultiplier, level - 1);
    IntPowerPositive(HealthMultiplier, level - 1);
    CatalogHealthPositive(t);
    var base := t.health as real * p;
    assert base >= 0.0;
    var m := hs.multiplier + gameTime * hs.scale;
    TimeFactorPositive(gameTime, hs);
    assert base * m >= 0.0;
  }

  lemma IntPowerPositive(b: real, e: int)
    requires b > 0.0
    ensures IntPower(b, e) > 0.0
  {
    if e >= 0 {
      PowerPositive(b, e);
    } else {
      PowerPositive(b, -e);
    }
  }

  lemma CatalogHealthPositive(t: MobType)
    requires t in MobTypes
    ensures t.health > 0
  {
    assert t == Slime || t == Goblin || t == Orc || t == Boss;
  }

  /** The time factor is positive once the game has started. */
  lemma TimeFactorPositive(gameTime: real, hs: HealthScaling)
    requires hs.Valid() && gameTime >= 0.0
    ensures hs.multiplier + gameTime * hs.scale > 0.0
  {
    assert gameTime * hs.scale >= 0.0;
  }

  /** Health grows, never shrinks, with the mob's level (levels 1 and up). */
  lemma MaxHealthGrowsWithLevel(t: MobType, l1: int, l2: int, gameTime: real, hs: HealthScaling)
    requires t.health >= 0 && hs.Valid() && gameTime >= 0.0
    requires 1 <= l1 <= l2
    ensures MaxHealth(t, l1, gameTime, hs) <= MaxHealth(t, l2, gameTime, hs)
  {
    PowerMonotone(HealthMultiplier, l1 - 1, l2 - 1);
    TimeFactorPositive(gameTime, hs);
    var x, y := IntPower(HealthMultiplier, l1 - 1), IntPower(HealthMultiplier, l2 - 1);
    assert x == Power(HealthMultiplier, l1 - 1) && y == Power(HealthMultiplier, l2 - 1);
    var m := hs.multiplier + gameTime * hs.scale;
    ScaledMonotoneInLevel(t.health as real, x, y, m);
    assert MaxHealth(t, l1, gameTime, hs) == Scaled(t.health as real, x, m);
    assert MaxHealth(t, l2, gameTime, hs) == Scaled(t.health as real, y, m);
  }

  /** Health grows, never shrinks, with the game time the formula is given. */
  lemma MaxHealthGrowsWithTime(t: MobType, level: int, g1: real, g2: real, hs: HealthScaling)
    requires t.health >= 0 && hs.Valid() && 0.0 <= g1 <= g2
    ensures MaxHealth(t, level, g1, hs) <= MaxHealth(t, level, g2, hs)
  {
    IntPowerPositive(HealthMultiplier, level - 1);
    assert g1 * hs.scale <= g2 * hs.scale;
    ScaledMonotoneInTime(t.health as real, IntPower(HealthMultiplier, level - 1),
      hs.multiplier + g1 * hs.scale, hs.multiplier + g2 * hs.scale);
  }

  lemma ScaledMonotoneInLevel(h: real, x: real, y: real, m: real)
    requires h >= 0.0 && m >= 0.0 && x <= y
    ensures Scaled(h, x, m) <= Scaled(h, y, m)
  {
    assert h * y * m - h * x * m == h * m * (y - x);
    assert h * m >= 0.0;
  }

  lemma ScaledMonotoneInTime(h: real, p: real, m1: real, m2: real)
    requires h >= 0.0 && p >= 0.0 && m1 <= m2
    ensures Scaled(h, p, m1) <= Scaled(h, p, m2)
  {
    assert h * p * m2 - h * p * m1 == h * p * (m2 - m1);
    assert h * p >= 0.0;
  }

  /**
   * `takeDamage` on the pair (health, isDead): a dead mob ignores the hit;
   * otherwise health drops by `damage` and, at zero or below, is clamped
   * to zero as the mob dies.
   */
  function Hit(health: int, isDead: bool, damage: int): (int, bool) {
    if isDead then (health, isDead)
    else if health - damage <= 0 then (0, true)
    else (health - damage, false)
  }

  /** `Hit` applied for each damage in turn. */
  function AfterHits(health: int, isDead: bool, hits: seq<int>): (int, bool) {
    if hits == [] then (health, isDead)
    else
      var prior := AfterHits(health, isDead, hits[..|hits| - 1]);
      Hit(prior.0, prior.1, hits[|hits| - 1])
  }

  /** Death is terminal: once dead, no sequence of hits changes health or revives the mob. */
  lemma {:induction false} DeadStaysDead(health: int, hits: seq<int>)
    ensures AfterHits(health, true, hits) == (health, true)
  {
    if hits != [] {
      DeadStaysDead(health, hits[..|hits| - 1]);
    }
  }

  /**
   * Non-negative hits never raise health nor make it negative, and a live
   * mob dies exactly when the hits add up to its health (a mob that starts
   * at zero health dies on the first hit).
   */
  lemma {:induction false} HitsAddUp(health: int, hits: seq<int>)
    requires health >= 0
    requires forall i :: 0 <= i < |hits| ==> hits[i] >= 0
    ensures var r := AfterHits(health, false, hits);
      0 <= r.0 <= health &&
      (r.1 <==> |hits| > 0 && SumInts(hits) >= health) &&
      (!r.1 ==> r.0 == health - SumInts(hits))
  {
    if hits != [] {
      var init := hits[..|hits| - 1];
      HitsAddUp(health, init);
      var prior := AfterHits(health, false, init);
      if prior.1 {
        DeadStaysDead(prior.0, []);
        assert SumInts(init) >= health && |init| > 0;
        assert SumInts(hits) == SumInts(init) + hits[|hits| - 1];
      }
    }
  }

  function SumInts(xs: seq<int>): int {
    if xs == [] then 0 else SumInts(xs[..|xs| - 1]) + xs[|xs| - 1]
  }

  class Mob {
    const typeId: string
    const level: int
    const maxHealth: int
    const reward: Reward
    const speed: real
    const hitboxRadius: real
    const deathAnimationDuration: real
    var health: int
    var isDead: bool
    var deathAnimationProgress: real
    var deathStartY: real
    var pos: Vec

    /** Health is never negative and a dead mob has none left. */
    predicate Valid()
      reads this
    {
      0 <= health && (isDead ==> health == 0) && deathAnimationDuration == 0.5
    }

    /**
     * The constructor for a catalog entry `t` already looked up; `at` is the
     * random spawn position chosen by `setRandomPosition`.
     */
    constructor(t: MobType, level: int, gameTime: real, hs: HealthScaling, at: Vec)
      requires t in MobTypes && hs.Valid() && gameTime >= 0.0
      ensures Valid()
      ensures typeId == t.id && this.level == level
      ensures maxHealth == MaxHealth(t, level, gameTime, hs) && health == maxHealth && !isDead
      ensures reward == MobReward(t, level)
      ensures speed == t.speed && hitboxRadius == t.hitboxRadius
      ensures deathAnimationProgress == 0.0 && pos == at
    {
      typeId := t.id;
      this.level := level;
      maxHealth := MaxHealth(t, level, gameTime, hs);
      reward := MobReward(t, level);
      speed := t.speed;
      hitboxRadius := t.hitboxRadius;
      deathAnimationDuration := 0.5;
      health := MaxHealth(t, level, gameTime, hs);
      isDead := false;
      deathAnimationProgress := 0.0;
      deathStartY := 0.0;
      pos := at;
      new;
      MaxHealthNonNegative(t, level, gameTime, hs);
    }

    /**
     * `takeDamage` (the flash effect left out): the new (health, isDead) is
     * `Hit` of the old one; a hit that kills calls `die`.
     */
    method TakeDamage(damage: int)
      requires Valid()
      modifies this
      ensures Valid()
      ensures (health, isDead) == Hit(old(health), old(isDead), damage)
      ensures old(isDead) ==> deathAnimationProgress == old(deathAnimationProgress)
      ensures !old(isDead) && isDead ==> deathAnimationProgress == 0.0
      ensures !isDead ==> deathAnimationProgress == old(deathAnimationProgress)
      ensures damage >= 0 ==> health <= old(health)
      ensures !old(isDead) && isDead ==> deathStartY == pos.y
      ensures old(isDead) || !isDead ==> deathStartY == old(deathStartY)
      ensures pos == old(pos)
    {
      if isDead {
        return;
      }
      if health - damage <= 0 {
        health := 0;
        Die();
      } else {
        health := health - damage;
      }
    }

    /**
     * `die`: the only assignment to `isDead`, always to true; the death
     * animation restarts from the mob's current height.
     */
    method Die()
      modifies this
      ensures isDead && deathAnimationProgress == 0.0 && deathStartY == pos.y
      ensures health == old(health) && pos == old(pos)
    {
      isDead := true;
      deathAnimationProgress := 0.0;
      deathStartY := pos.y;
    }

    /**
     * `update` (movement of a live mob left out): a dead mob advances its
     * death animation by `delta` and sinks up to 1.5 below the height it
     * died at, in step with the animation fraction.
     */
    method Update(delta: real)
      requires Valid()
      modifies this
      ensures Valid()
      ensures deathAnimationProgress ==
        if old(isDead) then old(deathAnimationProgress) + delta else old(deathAnimationProgress)
      ensures old(isDead) ==> pos == old(pos).(y := deathStartY - DeathProgress() * 1.5)
      ensures old(isDead) && deathAnimationProgress >= 0.0 ==>
        deathStartY - 1.5 <= pos.y <= deathStartY
      ensures !old(isDead) ==> pos == old(pos)
      ensures health == old(health) && isDead == old(isDead) && deathStartY == old(deathStartY)
    {
      if isDead {
        deathAnimationProgress := deathAnimationProgress + delta;
        var progress := Min(deathAnimationProgress / deathAnimationDuration, 1.0);
        pos := pos.(y := deathStartY - progress * 1.5);
      }
    }

    /** The animation fraction `min(progress / duration, 1)` the fade, fall and shrink use. */
    function DeathProgress(): (p: real)
      reads this
      requires Valid()
      ensures p <= 1.0
      ensures deathAnimationProgress >= 0.0 ==> p >= 0.0
      ensures p == 1.0 <==> deathAnimationProgress >= deathAnimationDuration
    {
      Min(deathAnimationProgress / deathAnimationDuration, 1.0)
    }

    /** `getReward`: a copy of the reward, which is a value here. */
    function GetReward(): (r: Reward)
      reads this
      ensures r == reward
    {
      reward
    }
  }

  /** `new Mob(type, level, gameTime)`: an unknown type id throws and no mob is made. */
  method Create(id: string, level: int, gameTime: real, hs: HealthScaling, at: Vec)
    returns (r: Result<Mob, string>)
    requires hs.Valid() && gameTime >= 0.0
    ensures r.Err? <==> FindMobType(id).None?
    ensures r.Ok? ==> fresh(r.value) && r.value.Valid() && !r.value.isDead
    ensures r.Ok? ==> var t := FindMobType(id).value;
      r.value.typeId == id && r.value.level == level &&
      r.value.maxHealth == MaxHealth(t, level, gameTime, hs) && r.value.health == r.value.maxHealth &&
      r.value.reward == MobReward(t, level) && r.value.pos == at
  {
    var t := FindMobType(id);
    if t.None? {
      return Err("Unknown mob type: " + id);
    }
    var m := new Mob(t.value, level, gameTime, hs, at);
    return Ok(m);
  }

  // The constructor as written, over JavaScript numbers.

  /** A JavaScript number, as far as the as-written constructor needs: finite or NaN. */
  datatype JsNumber = Finite(v: real) | NaN

  function JsAdd(a: JsNumber, b: JsNumber): JsNumber {
    if a.Finite? && b.Finite? then Finite(a.v + b.v) else NaN
  }

  function JsSub(a: JsNumber, b: JsNumber): JsNumber {
    if a.Finite? && b.Finite? then Finite(a.v - b.v) else NaN
  }

  function JsMul(a: JsNumber, b: JsNumber): JsNumber {
    if a.Finite? && b.Finite? then Finite(a.v * b.v) else NaN
  }

  function JsFloor(a: JsNumber): JsNumber {
    if a.Finite? then Finite(a.v.Floor as real) else NaN
  }

  /** `a <= 0`: every comparison with NaN is false. */
  predicate JsAtMostZero(a: JsNumber) {
    a.Finite? && a.v <= 0.0
  }

  /** Reading a key the configuration does not define gives `undefined`; arithmetic turns it into NaN. */
  const Undefined: JsNumber := NaN

  /** `maxHealth` as written: both time-scaling keys are missing. */
  function MaxHealthAsWritten(t: MobType, level: int, gameTime: real): JsNumber {
    var baseHealth := Finite(t.health as real * IntPower(HealthMultiplier, level - 1));
    var timeMultiplier := JsAdd(Undefined, JsMul(Finite(gameTime), Undefined));
    JsFloor(JsMul(baseHealth, timeMultiplier))
  }

  /** `takeDamage` as written, over JavaScript numbers. */
  function HitAsWritten(health: JsNumber, isDead: bool, damage: real): (JsNumber, bool) {
    if isDead then (health, isDead)
    else
      var h := JsSub(health, Finite(damage));
      if JsAtMostZero(h) then (Finite(0.0), true) else (h, false)
  }

  function AfterHitsAsWritten(health: JsNumber, isDead: bool, hits: seq<real>): (JsNumber, bool) {
    if hits == [] then (health, isDead)
    else
      var prior := AfterHitsAsWritten(health, isDead, hits[..|hits| - 1]);
      HitAsWritten(prior.0, prior.1, hits[|hits| - 1])
  }

  /**
   * As written, every mob starts with NaN health; `health <= 0` is then
   * never true, so no sequence of hits ever kills it and no reward is ever
   * credited.
   */
  lemma {:induction false} AsWrittenMobNeverDies(t: MobType, level: int, gameTime: real, hits: seq<real>)
    ensures MaxHealthAsWritten(t, level, gameTime) == NaN
    ensures AfterHitsAsWritten(MaxHealthAsWritten(t, level, gameTime), false, hits) == (NaN, false)
  {
    if hits != [] {
      AsWrittenMobNeverDies(t, level, gameTime, hits[..|hits| - 1]);
    }
  }

  /**
   * With the scaling supplied, a new mob starts with a finite, non-negative
   * health, and a sequence of non-negative hits kills it exactly when the
   * hits add up to that health; short of that, it keeps the difference.
   */
  lemma CorrectedMobDies(t: MobType, level: int, gameTime: real, hs: HealthScaling, hits: seq<int>)
    requires t in MobTypes && hs.Valid() && gameTime >= 0.0
    requires forall i :: 0 <= i < |hits| ==> hits[i] >= 0
    ensures MaxHealth(t, level, gameTime, hs) >= 0
    ensures var health := MaxHealth(t, level, gameTime, hs);
      var r := AfterHits(health, false, hits);
      (r.1 <==> |hits| > 0 && SumInts(hits) >= health) &&
      (!r.1 ==> r.0 == health - SumInts(hits))
  {
    MaxHealthNonNegative(t, level, gameTime, hs);
    HitsAddUp(MaxHealth(t, level, gameTime, hs), hits);
  }
}
