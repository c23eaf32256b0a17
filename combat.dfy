/**
 * `CombatSystem`: damage to a mob and, on the hit that kills it, the
 * reward. The reward's experience and gold are credited at once; the
 * mob's removal, which the source schedules 500 ms later with
 * `setTimeout`, is recorded in `pending` for the game to carry out.
 */
module Combat {
  import opened Config
  import opened Resources
  import opened Contracts
  import opened Players
  import opened Mobs

  class CombatSystem {
    /** Mobs whose removal has been scheduled, in the order they were killed. */
    var pending: seq<Mob>

    constructor()
      ensures pending == []
    {
      pending := [];
    }

    /**
     * `dealDamage`: nothing happens for no mob or a dead one; otherwise the
     * mob takes the damage and, if this hit killed it, `onMobKilled` runs.
     */
    method DealDamage(mob: Mob?, damage: int, player: Player, resources: ResourcesSystem,
                      contracts: ContractSystem)
      requires mob != null ==> mob.Valid()
      requires player.Valid()
      modifies this, mob, player, resources
      ensures mob != null ==> mob.Valid()
      ensures player.Valid()
      ensures mob == null || old(mob.isDead) ==>
        pending == old(pending) && Unchanged(player, resources, old(player.level), old(player.exp),
          old(resources.gold), old(resources.crystals)) &&
        (mob != null ==> mob.health == old(mob.health) && mob.isDead)
      ensures mob != null && !old(mob.isDead) ==>
        (mob.health, mob.isDead) == Hit(old(mob.health), false, damage)
      ensures mob != null ==> mob.pos == old(mob.pos)
      ensures mob != null && !old(mob.isDead) && mob.isDead ==>
        mob.deathAnimationProgress == 0.0 && mob.deathStartY == mob.pos.y
      ensures mob != null && (old(mob.isDead) || !mob.isDead) ==>
        mob.deathAnimationProgress == old(mob.deathAnimationProgress) &&
        mob.deathStartY == old(mob.deathStartY)
      ensures mob != null && !old(mob.isDead) && mob.isDead ==>
        var r := ApplyAll(contracts.active, mob.reward);
        pending == old(pending) + [mob] &&
        (player.level, player.exp) == Settle(old(player.level), old(player.exp) + r.exp) &&
        resources.gold == old(resources.gold) + r.gold && resources.crystals == old(resources.crystals)
      ensures mob != null && !old(mob.isDead) && !mob.isDead ==>
        pending == old(pending) && Unchanged(player, resources, old(player.level), old(player.exp),
          old(resources.gold), old(resources.crystals))
      ensures player.health == old(player.health) && player.isDead == old(player.isDead)
    {
      if mob == null || mob.isDead {
        return;
      }
      mob.TakeDamage(damage);
      if mob.isDead {
        OnMobKilled(mob, player, resources, contracts);
      }
    }

    /**
     * `onMobKilled`: the reward after the active contracts' modifiers goes
     * to the player's experience and the gold balance, and one removal of
     * the mob is scheduled.
     */
    method OnMobKilled(mob: Mob, player: Player, resources: ResourcesSystem, contracts: ContractSystem)
      requires player.Valid()
      modifies this, player, resources
      ensures player.Valid()
      ensures var r := ApplyAll(contracts.active, mob.reward);
        pending == old(pending) + [mob] &&
        (player.level, player.exp) == Settle(old(player.level), old(player.exp) + r.exp) &&
        resources.gold == old(resources.gold) + r.gold && resources.crystals == old(resources.crystals)
      ensures player.health == old(player.health) && player.isDead == old(player.isDead)
    {
      var reward := mob.GetReward();
      var modifiedReward := contracts.ApplyRewardModifiers(reward, mob.typeId);
      player.AddExp(modifiedReward.exp);
      resources.AddGold(modifiedReward.gold as real);
      pending := pending + [mob];
    }
  }

  /** The player's progression and both balances are as they were. */
  predicate Unchanged(player: Player, resources: ResourcesSystem, level: int, exp: int,
                      gold: int, crystals: int)
    reads player, resources
  {
    player.level == level && player.exp == exp && resources.gold == gold && resources.crystals == crystals
  }
}
