/**
 * The turn-based demo: the player and one enemy trade blows. Attacking
 * takes 10 from the enemy and, while it lives, it strikes back for 8, or
 * 4 when the player defends; defence lasts for one enemy attack. Items are
 * used from a two-entry inventory: a potion heals up to the maximum, a
 * scroll hurts the enemy, which then strikes back while it lives. Hit
 * points never leave [0, max].
 */
module Demo {

  const AttackDamage: int := 10
  const EnemyBaseDamage: int := 8

  /** `hp -= damage; if (hp < 0) hp = 0;` */
  function Cut(hp: int, damage: int): (r: int)
    ensures r >= 0
    ensures hp - damage >= 0 ==> r == hp - damage
    ensures hp - damage < 0 ==> r == 0
    ensures damage >= 0 ==> r <= hp || r == 0
  {
    if hp - damage < 0 then 0 else hp - damage
  }

  /** `hp += amount; if (hp > max) hp = max;` */
  function Heal(hp: int, amount: int, max: int): (r: int)
    ensures r <= max
    ensures hp + amount <= max ==> r == hp + amount
    ensures hp + amount > max ==> r == max
    ensures 0 <= hp <= max && amount >= 0 ==> hp <= r <= max
  {
    if hp + amount > max then max else hp + amount
  }

  /** The enemy's blow: 8, halved and floored to 4 while the player defends. */
  function EnemyDamage(defending: bool): (d: int)
    ensures d > 0 && (defending ==> 2 * d <= EnemyBaseDamage) && (!defending ==> d == EnemyBaseDamage)
  {
    if defending then EnemyBaseDamage / 2 else EnemyBaseDamage
  }

  /** Two cuts are one cut by their sum. */
  lemma CutAdds(hp: int, a: int, b: int)
    requires hp >= 0 && a >= 0 && b >= 0
    ensures Cut(Cut(hp, a), b) == Cut(hp, a + b)
  {
  }

  /** `n` cuts of `d` in a row. */
  function CutTimes(hp: int, d: int, n: nat): int {
    if n == 0 then hp else Cut(CutTimes(hp, d, n - 1), d)
  }

  /** `n` cuts of `d` leave `max(0, hp - n * d)`. */
  lemma {:induction false} CutTimesIsOneCut(hp: int, d: int, n: nat)
    requires hp >= 0 && d >= 0
    ensures CutTimes(hp, d, n) == Cut(hp, n * d)
  {
    if n > 0 {
      CutTimesIsOneCut(hp, d, n - 1);
      CutAdds(hp, (n - 1) * d, d);
      assert (n - 1) * d + d == n * d;
    }
  }

  /** The enemy's 60 points last five attacks and fall to the sixth. */
  lemma SixAttacksDefeatTheEnemy()
    ensures CutTimes(60, AttackDamage, 5) == 10
    ensures CutTimes(60, AttackDamage, 6) == 0
  {
    CutTimesIsOneCut(60, AttackDamage, 5);
    CutTimesIsOneCut(60, AttackDamage, 6);
  }

  /** An inventory entry; only its quantity changes. */
  class Item {
    const name: string
    const kind: string
    const heal: int
    const damage: int
    var quantity: int

    constructor(name: string, kind: string, heal: int, damage: int, quantity: int)
      ensures this.name == name && this.kind == kind && this.heal == heal
      ensures this.damage == damage && this.quantity == quantity
    {
      this.name := name;
      this.kind := kind;
      this.heal := heal;
      this.damage := damage;
      this.quantity := quantity;
    }
  }

  class Battle {
    var playerHP: int
    const playerMaxHP: int
    var playerMP: int
    const playerMaxMP: int
    var enemyHP: int
    const enemyMaxHP: int
    var isDefending: bool
    const inventory: seq<Item>

    /** Hit points stay within [0, max], and items never heal or hurt by a negative amount. */
    ghost predicate Valid()
      reads this
    {
      0 <= playerHP <= playerMaxHP && 0 <= enemyHP <= enemyMaxHP &&
      forall item :: item in inventory ==> item.heal >= 0 && item.damage >= 0
    }

    /** The module's starting state: 100/100 HP, 30/30 MP, an enemy at 60/60, two potions and a scroll. */
    constructor()
      ensures Valid()
      ensures playerHP == playerMaxHP == 100 && playerMP == playerMaxMP == 30
      ensures enemyHP == enemyMaxHP == 60 && !isDefending
      ensures |inventory| == 2
      ensures inventory[0].kind == "potion" && inventory[0].heal == 20 && inventory[0].quantity == 2
      ensures inventory[1].kind == "scroll" && inventory[1].damage == 15 && inventory[1].quantity == 1
    {
      var potion := new Item("Healing potion", "potion", 20, 0, 2);
      var scroll := new Item("Fire scroll", "scroll", 0, 15, 1);
      playerHP := 100;
      playerMaxHP := 100;
      playerMP := 30;
      playerMaxMP := 30;
      enemyHP := 60;
      enemyMaxHP := 60;
      isDefending := false;
      inventory := [potion, scroll];
    }

    /**
     * `enemyAttack`: the player loses the enemy's blow, floored at zero,
     * and is no longer defending.
     */
    method EnemyAttack()
      requires Valid()
      modifies this
      ensures Valid()
      ensures playerHP == Cut(old(playerHP), EnemyDamage(old(isDefending)))
      ensures !isDefending
      ensures enemyHP == old(enemyHP) && playerMP == old(playerMP)
    {
      var enemyDamage := EnemyBaseDamage;
      if isDefending {
        enemyDamage := enemyDamage / 2;
      }
      playerHP := playerHP - enemyDamage;
      if playerHP < 0 {
        playerHP := 0;
      }
      isDefending := false;
    }

    /**
     * `doAttack`: the enemy loses 10, floored at zero; if it still stands
     * it strikes back, and once it is down nothing else happens.
     */
    method DoAttack()
      requires Valid()
      modifies this
      ensures Valid()
      ensures enemyHP == Cut(old(enemyHP), AttackDamage)
      ensures enemyHP == 0 ==> playerHP == old(playerHP) && isDefending == old(isDefending)
      ensures enemyHP > 0 ==> playerHP == Cut(old(playerHP), EnemyDamage(old(isDefending))) && !isDefending
      ensures playerMP == old(playerMP)
    {
      var damage := AttackDamage;
      enemyHP := enemyHP - damage;
      if enemyHP < 0 {
        enemyHP := 0;
      }
      if enemyHP <= 0 {
        return;
      }
      EnemyAttack();
    }

    /** `doDefend`: the next enemy blow is halved. */
    method DoDefend()
      modifies this
      ensures isDefending
      ensures playerHP == old(playerHP) && enemyHP == old(enemyHP) && playerMP == old(playerMP)
    {
      isDefending := true;
    }

    /**
     * `useItem`. An item with none left does nothing. A potion heals up to
     * the maximum and is never followed by a blow; a scroll hurts the
     * enemy, which strikes back if it still stands. Either uses up exactly
     * one. Any other kind of item does nothing.
     */
    method UseItem(item: Item, index: int)
      requires Valid() && item in inventory
      modifies this, item
      ensures Valid()
      ensures old(item.quantity) <= 0 || (item.kind != "potion" && item.kind != "scroll") ==>
        item.quantity == old(item.quantity) && playerHP == old(playerHP) && enemyHP == old(enemyHP) &&
        isDefending == old(isDefending)
      ensures old(item.quantity) > 0 && item.kind == "potion" ==>
        item.quantity == old(item.quantity) - 1 &&
        playerHP == Heal(old(playerHP), item.heal, playerMaxHP) && playerHP >= old(playerHP) &&
        enemyHP == old(enemyHP) && isDefending == old(isDefending)
      ensures old(item.quantity) > 0 && item.kind == "scroll" ==>
        item.quantity == old(item.quantity) - 1 && enemyHP == Cut(old(enemyHP), item.damage) &&
        (enemyHP == 0 ==> playerHP == old(playerHP) && isDefending == old(isDefending)) &&
        (enemyHP > 0 ==> playerHP == Cut(old(playerHP), EnemyDamage(old(isDefending))) && !isDefending)
      ensures playerMP == old(playerMP)
    {
      if item.quantity <= 0 {
        return;
      }
      if item.kind == "potion" {
        playerHP := playerHP + item.heal;
        if playerHP > playerMaxHP {
          playerHP := playerMaxHP;
        }
        item.quantity := item.quantity - 1;
      } else if item.kind == "scroll" {
        enemyHP := enemyHP - item.damage;
        if enemyHP < 0 {
          enemyHP := 0;
        }
        item.quantity := item.quantity - 1;
        if enemyHP <= 0 {
          return;
        }
        EnemyAttack();
      }
    }
  }
}
