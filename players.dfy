/**
 * `Player`: level and experience progression, damage scaling, health and
 * the pressed-key table. Movement, jumping, knockback and the mesh are not
 * part of this model; the position is kept only because other systems
 * measure distances from it.
 */
module Players {
  import opened Numbers
  import opened Vectors
  import opened Config

  /** `floor(expPerLevel * expMultiplier^(level - 1))`: the experience a level needs. */
  function ExpThreshold(level: int): (t: int)
    requires level >= 1
    ensures t >= ExpPerLevel
  {
    PowerAtLeastOne(ExpMultiplier, level - 1);
    (ExpPerLevel as real * Power(ExpMultiplier, level - 1)).Floor
  }

  /** `getDamage`: the base damage scaled by 15% per level above the first, floored. */
  function DamageAtLevel(level: int): int {
    (BaseDamage as real * (1.0 + (level - 1) as real * 0.15)).Floor
  }

  lemma DamageAtFirstLevel()
    ensures DamageAtLevel(1) == BaseDamage == 10
  {
  }

  /** A higher level never deals less damage. */
  lemma DamageMonotone(a: int, b: int)
    requires a <= b
    ensures DamageAtLevel(a) <= DamageAtLevel(b)
  {
    var x := BaseDamage as real * (1.0 + (a - 1) as real * 0.15);
    var y := BaseDamage as real * (1.0 + (b - 1) as real * 0.15);
    assert y - x == 1.5 * (b - a) as real;
    FloorMonotone(x, y);
  }

  lemma FloorMonotone(x: real, y: real)
    requires x <= y
    ensures x.Floor <= y.Floor
  {
  }

  /**
   * The level and experience reached by the `addExp` loop from `level` and
   * `exp`: while `exp` reaches the threshold, spend it and level up.
   */
  function Settle(level: int, exp: int): (r: (int, int))
    requires level >= 1
    decreases exp
    ensures r.0 >= level
    ensures r.1 < ExpThreshold(r.0)
    ensures exp >= 0 ==> r.1 >= 0
    ensures exp < ExpThreshold(level) ==> r == (level, exp)
  {
    if exp >= ExpThreshold(level) then Settle(level + 1, exp - ExpThreshold(level))
    else (level, exp)
  }

  /** Experience needed to climb from level 1 to `level`. */
  function Cumulative(level: int): int
    requires level >= 1
  {
    if level == 1 then 0 else Cumulative(level - 1) + ExpThreshold(level - 1)
  }

  /** Levelling up spends experience but never creates or loses any. */
  lemma {:induction false} SettleConserves(level: int, exp: int)
    requires level >= 1
    decreases exp
    ensures var r := Settle(level, exp); Cumulative(r.0) + r.1 == Cumulative(level) + exp
  {
    if exp >= ExpThreshold(level) {
      SettleConserves(level + 1, exp - ExpThreshold(level));
    }
  }

  /** A fresh player given 350 experience reaches level 3 with 100 left over, needing 225 next. */
  lemma SettleExample()
    ensures Settle(1, 350) == (3, 100)
    ensures ExpThreshold(3) == 225
  {
    assert ExpThreshold(1) == 100;
    assert Power(ExpMultiplier, 1) == 1.5;
    assert ExpThreshold(2) == 150;
    assert Power(ExpMultiplier, 2) == 2.25;
    assert ExpThreshold(3) == 225;
    assert Settle(3, 100) == (3, 100);
    assert Settle(2, 250) == (3, 100);
  }

  /** The keys `Player` tracks, all released. */
  const InitialKeys: map<string, bool> := map[
    "w" := false, "a" := false, "s" := false, "d" := false, "space" := false,
    "arrowUp" := false, "arrowLeft" := false, "arrowDown" := false, "arrowRight" := false]

  class Player {
    var level: int
    var exp: int
    var expToNextLevel: int
    var damage: int
    var attackSpeed: real
    var maxHealth: int
    var health: int
    var isDead: bool
    var hitboxRadius: real
    var keys: map<string, bool>
    var pos: Vec

    /**
     * The progression invariant: the threshold always belongs to the
     * current level and the experience is below it; health is never
     * negative and is zero exactly when the player is dead.
     */
    predicate Valid()
      reads this
    {
      level >= 1 && expToNextLevel == ExpThreshold(level) && exp < expToNextLevel &&
      health >= 0 && (isDead <==> health == 0)
    }

    constructor()
      ensures Valid()
      ensures level == 1 && exp == 0 && expToNextLevel == ExpPerLevel == 100
      ensures damage == BaseDamage && attackSpeed == BaseAttackSpeed
      ensures maxHealth == 100 && health == 100 && !isDead && hitboxRadius == 0.5
      ensures keys == InitialKeys && pos == Vec(0.0, 0.5, 0.0)
    {
      level := 1;
      exp := 0;
      expToNextLevel := ExpPerLevel;
      damage := BaseDamage;
      attackSpeed := BaseAttackSpeed;
      maxHealth := 100;
      health := 100;
      isDead := false;
      hitboxRadius := 0.5;
      keys := InitialKeys;
      pos := Vec(0.0, 0.5, 0.0);
      new;
      assert ExpThreshold(1) == 100;
    }

    /** `getDamage`. */
    function GetDamage(): (d: int)
      reads this
      requires Valid()
      ensures d >= BaseDamage
    {
      DamageAtFirstLevel();
      DamageMonotone(1, level);
      DamageAtLevel(level)
    }

    /** `levelUp`: spend one threshold's worth of experience and move to the next level. */
    method LevelUp()
      requires level >= 1
      modifies this
      ensures exp == old(exp) - old(expToNextLevel)
      ensures level == old(level) + 1
      ensures expToNextLevel == ExpThreshold(level)
      ensures health == old(health) && isDead == old(isDead) && keys == old(keys) && pos == old(pos)
      ensures maxHealth == old(maxHealth) && damage == old(damage)
    {
      exp := exp - expToNextLevel;
      level := level + 1;
      expToNextLevel := ExpThreshold(level);
    }

    /** `addExp`: credit `amount`, then level up for as long as the threshold is reached. */
    method AddExp(amount: int)
      requires Valid()
      modifies this
      ensures Valid()
      ensures (level, exp) == Settle(old(level), old(exp) + amount)
      ensures level >= old(level)
      ensures old(exp) >= 0 && amount >= 0 ==> exp >= 0
      ensures health == old(health) && isDead == old(isDead) && keys == old(keys) && pos == old(pos)
      ensures maxHealth == old(maxHealth) && damage == old(damage)
    {
      exp := exp + amount;
      while exp >= expToNextLevel
        invariant level >= old(level) >= 1 && expToNextLevel == ExpThreshold(level)
        invariant Settle(level, exp) == Settle(old(level), old(exp) + amount)
        invariant health == old(health) && isDead == old(isDead) && keys == old(keys)
        invariant pos == old(pos) && maxHealth == old(maxHealth) && damage == old(damage)
        decreases exp
      {
        LevelUp();
      }
    }

    /**
     * `takeDamage` (knockback left out): nothing happens to a dead player;
     * otherwise health drops by `amount` and, on reaching zero or below, is
     * clamped to zero and the player dies.
     */
    method TakeDamage(amount: int)
      requires Valid()
      modifies this
      ensures Valid()
      ensures old(isDead) ==> health == old(health) && isDead
      ensures !old(isDead) ==> health == (if old(health) - amount <= 0 then 0 else old(health) - amount)
      ensures !old(isDead) ==> (isDead <==> old(health) - amount <= 0)
      ensures amount >= 0 ==> health <= old(health)
      ensures level == old(level) && exp == old(exp) && expToNextLevel == old(expToNextLevel)
      ensures keys == old(keys) && pos == old(pos) && maxHealth == old(maxHealth)
    {
      if isDead {
        return;
      }
      health := health - amount;
      if health <= 0 {
        health := 0;
        isDead := true;
      }
    }

    /** `setKey`: only keys already tracked are updated. */
    method SetKey(key: string, pressed: bool)
      modifies this
      ensures keys == if key in old(keys) then old(keys)[key := pressed] else old(keys)
      ensures keys.Keys == old(keys).Keys
      ensures forall k :: k in keys && k != key ==> keys[k] == old(keys)[k]
      ensures level == old(level) && exp == old(exp) && expToNextLevel == old(expToNextLevel)
      ensures health == old(health) && isDead == old(isDead) && pos == old(pos)
      ensures maxHealth == old(maxHealth)
    {
      if key in keys {
        keys := keys[key := pressed];
      }
    }
  }
}
