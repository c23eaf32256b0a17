/**
 * `AttackEffects`: the projectiles the player fires. Each projectile flies
 * along its velocity, is removed once it has flown past the maximum
 * distance, and otherwise hits the first live mob whose hitbox it touches,
 * exactly once. The effects list holds every projectile whose mesh was
 * created; the hit particles and the trail are visual only and are not
 * part of this model.
 */
module Projectiles {
  import opened Vectors
  import opened Config
  import opened Lists
  import opened Resources
  import opened Contracts
  import opened Players
  import opened Mobs
  import opened Combat

  /** One `projectileData` record; `attached` stands for its mesh still being in the scene. */
  class Projectile {
    var pos: Vec
    const velocity: Vec
    const startPosition: Vec
    const damage: int
    var distance: real
    var hit: bool
    var attached: bool

    constructor(from: Vec, velocity: Vec, damage: int)
      ensures pos == from && startPosition == from
      ensures this.velocity == velocity && this.damage == damage
      ensures distance == 0.0 && !hit && attached
    {
      pos := from;
      startPosition := from;
      this.velocity := velocity;
      this.damage := damage;
      distance := 0.0;
      hit := false;
      attached := true;
    }
  }

  /** A live mob whose hitbox, centred half a unit above it, the projectile sphere overlaps. */
  predicate Touches(m: Mob, at: Vec, radius: real)
    reads m
  {
    !m.isDead && Within(at, Raise(m.pos, 0.5), radius + m.hitboxRadius)
  }

  /** `mobs[i]` is the first mob in list order that the projectile touches. */
  predicate IsFirstHit(mobs: seq<Mob>, i: int, at: Vec, radius: real)
    reads mobs
  {
    0 <= i < |mobs| && Touches(mobs[i], at, radius) &&
    forall j :: 0 <= j < i ==> !Touches(mobs[j], at, radius)
  }

  /** `checkCollisions`: the first live mob the projectile at `at` touches, or null. */
  method CheckCollisions(at: Vec, radius: real, mobs: seq<Mob>) returns (hitMob: Mob?, ghost index: int)
    ensures hitMob == null <==> forall j :: 0 <= j < |mobs| ==> !Touches(mobs[j], at, radius)
    ensures hitMob != null ==> IsFirstHit(mobs, index, at, radius) && hitMob == mobs[index]
  {
    index := -1;
    for i := 0 to |mobs|
      invariant forall j :: 0 <= j < i ==> !Touches(mobs[j], at, radius)
    {
      var mob := mobs[i];
      if mob.isDead {
        continue;
      }
      var mobPos := Raise(mob.pos, 0.5);
      if Within(at, mobPos, radius + mob.hitboxRadius) {
        return mob, i;
      }
    }
    return null, -1;
  }

  /** The projectiles of `s` whose meshes are still in the scene, in order. */
  function AttachedOnly(s: seq<Projectile>): (r: seq<Projectile>)
    reads s
    ensures forall i :: 0 <= i < |r| ==> r[i] in s && r[i].attached
    ensures forall i :: 0 <= i < |s| && s[i].attached ==> s[i] in r
  {
    if s == [] then []
    else AttachedOnly(s[..|s| - 1]) + (if s[|s| - 1].attached then [s[|s| - 1]] else [])
  }

  /** One more element of the list adds itself, if attached, to the end of the kept ones. */
  lemma AttachedOnlyStep(s: seq<Projectile>, i: nat)
    requires i < |s|
    ensures AttachedOnly(s[..i + 1]) == AttachedOnly(s[..i]) + (if s[i].attached then [s[i]] else [])
  {
    assert s[..i + 1][..i] == s[..i];
  }

  /** Keeping only the attached projectiles keeps a list free of repeats. */
  lemma {:induction false} AttachedOnlyDistinct(s: seq<Projectile>)
    requires Distinct(s)
    ensures Distinct(AttachedOnly(s))
  {
    if s != [] {
      var init := s[..|s| - 1];
      assert Distinct(init) by {
        forall i, j | 0 <= i < j < |init| ensures init[i] != init[j] {
          assert init[i] == s[i] && init[j] == s[j];
        }
      }
      AttachedOnlyDistinct(init);
      var r := AttachedOnly(init);
      assert s[|s| - 1] !in init by {
        forall i | 0 <= i < |init| ensures init[i] != s[|s| - 1] {
          assert init[i] == s[i];
        }
      }
      if s[|s| - 1].attached {
        var t := r + [s[|s| - 1]];
        forall i, j | 0 <= i < j < |t| ensures t[i] != t[j] {
          if j == |t| - 1 {
            assert t[i] == r[i] && r[i] in init;
          }
        }
      }
    }
  }

  class AttackEffects {
    var effects: seq<Projectile>
    var projectiles: seq<Projectile>

    /**
     * Every projectile appears once in `effects`; `projectiles` lists
     * exactly those still in the scene, and none of them has hit.
     */
    ghost predicate Valid()
      reads this, effects
    {
      ValidExcept(null)
    }

    /** `Valid`, except that `p`, which is being removed, may already have hit. */
    ghost predicate ValidExcept(p: Projectile?)
      reads this, effects
    {
      Distinct(effects) && Distinct(projectiles) &&
      (forall q :: q in projectiles ==> q in effects) &&
      (forall q :: q in effects ==> (q in projectiles <==> q.attached)) &&
      (forall q :: q in effects && q in projectiles && q != p ==> !q.hit)
    }

    constructor()
      ensures Valid() && effects == [] && projectiles == []
    {
      effects := [];
      projectiles := [];
    }

    /**
     * The data part of `createAttackProjectile`: a projectile at `from`
     * flying toward `targetPoint` at the configured speed, with nothing
     * flown and no hit, appended to both lists.
     */
    method CreateAttackProjectile(from: Vec, targetPoint: Vec, damage: int, k: Kinematics)
      requires Valid()
      modifies this
      ensures Valid()
      ensures |projectiles| == |old(projectiles)| + 1 && projectiles[..|old(projectiles)|] == old(projectiles)
      ensures var q := projectiles[|projectiles| - 1];
        fresh(q) && effects == old(effects) + [q] &&
        q.pos == from && q.velocity == Scale(k.normalize(Sub(targetPoint, from)), ProjectileSpeed) &&
        q.damage == damage && q.distance == 0.0 && !q.hit && q.attached
    {
      var direction := k.normalize(Sub(targetPoint, from));
      var velocity := Scale(direction, ProjectileSpeed);
      var q := new Projectile(from, velocity, damage);
      projectiles := projectiles + [q];
      effects := effects + [q];
    }

    /**
     * `removeProjectile`: the mesh leaves the scene and the record leaves
     * `projectiles`; the others keep their order.
     */
    method RemoveProjectile(p: Projectile)
      requires ValidExcept(p)
      modifies this, p
      ensures Valid()
      ensures !p.attached && projectiles == Remove(old(projectiles), p) && effects == old(effects)
      ensures p.pos == old(p.pos) && p.distance == old(p.distance) && p.hit == old(p.hit)
    {
      // The mesh leaves the scene before the splice in the source; the two
      // writes touch different objects, so their order does not matter.
      ghost var before := projectiles;
      var index := IndexOf(projectiles, p);
      if index > -1 {
        projectiles := RemoveAt(projectiles, index);
      }
      assert Distinct(projectiles) && p !in projectiles &&
        forall q :: q != p ==> (q in projectiles <==> q in before) by {
        RemoveDistinct(before, p);
      }
      p.attached := false;
    }

    /**
     * `updateProjectile`, the effect's `animate`. A projectile that has hit
     * or left the scene stays put and reports false. Otherwise it moves by
     * `velocity * delta` and its distance grows by `|velocity| * delta`;
     * past the maximum distance it is removed with no damage done; on
     * touching a mob it is marked hit, deals its damage to the first mob
     * touched, once, and is removed; else it reports true.
     */
    method UpdateProjectile(p: Projectile, delta: real, mobs: seq<Mob>, combat: CombatSystem,
                            player: Player, resources: ResourcesSystem, contracts: ContractSystem,
                            k: Kinematics)
      returns (keep: bool, ghost struck: int)
      requires Valid() && p in effects
      requires forall m :: m in mobs ==> m.Valid()
      requires player.Valid()
      modifies this, p, mobs, combat, player, resources
      ensures Valid() && effects == old(effects)
      ensures forall m :: m in mobs ==> m.Valid()
      ensures player.Valid()
      ensures keep <==> p.attached
      ensures keep ==> !p.hit
      ensures old(p.hit) || !old(p.attached) ==>
        unchanged(this, p, combat, player, resources) && unchanged(mobs)
      ensures !old(p.hit) && old(p.attached) ==>
        p.pos == Add(old(p.pos), Scale(p.velocity, delta)) &&
        p.distance == old(p.distance) + k.length(p.velocity) * delta
      ensures !old(p.hit) && old(p.attached) && p.distance > ProjectileMaxDistance ==>
        !p.hit && !p.attached && projectiles == Remove(old(projectiles), p) &&
        unchanged(combat, player, resources) && unchanged(mobs)
      ensures !old(p.hit) && old(p.attached) && p.distance <= ProjectileMaxDistance ==>
        var at := p.pos;
        if struck >= 0 then
          struck < |mobs| && old(IsFirstHit(mobs, struck, at, ProjectileRadius)) &&
          p.hit && !p.attached && projectiles == Remove(old(projectiles), p) &&
          (mobs[struck].health, mobs[struck].isDead) == Hit(old(mobs[struck].health), false, p.damage) &&
          combat.pending == old(combat.pending) + (if mobs[struck].isDead then [mobs[struck]] else []) &&
          (mobs[struck].isDead ==>
            var r := ApplyAll(contracts.active, mobs[struck].reward);
            (player.level, player.exp) == Settle(old(player.level), old(player.exp) + r.exp) &&
            resources.gold == old(resources.gold) + r.gold && resources.crystals == old(resources.crystals)) &&
          (!mobs[struck].isDead ==>
            Unchanged(player, resources, old(player.level), old(player.exp),
              old(resources.gold), old(resources.crystals))) &&
          player.health == old(player.health) && player.isDead == old(player.isDead) &&
          mobs[struck].pos == old(mobs[struck].pos) &&
          (forall m :: m in mobs && m != mobs[struck] ==> unchanged(m))
        else
          (forall j :: 0 <= j < |mobs| ==> !old(Touches(mobs[j], at, ProjectileRadius))) &&
          !p.hit && p.attached && projectiles == old(projectiles) &&
          unchanged(combat, player, resources) && unchanged(mobs)
    {
      struck := -1;
      if p.hit || !p.attached {
        return false, struck;
      }
      p.pos := Add(p.pos, Scale(p.velocity, delta));
      p.distance := p.distance + k.length(p.velocity) * delta;
      if p.distance > ProjectileMaxDistance {
        RemoveProjectile(p);
        return false, struck;
      }
      var hitMob, index := CheckCollisions(p.pos, ProjectileRadius, mobs);
      if hitMob != null {
        p.hit := true;
        combat.DealDamage(hitMob, p.damage, player, resources, contracts);
        RemoveProjectile(p);
        return false, index;
      }
      return true, struck;
    }

    /**
     * `update`: every effect still in the scene is animated, and the list
     * keeps, in order, exactly those whose projectile is still in flight.
     */
    method Update(delta: real, mobs: seq<Mob>, combat: CombatSystem, player: Player,
                  resources: ResourcesSystem, contracts: ContractSystem, k: Kinematics)
      requires Valid()
      requires forall m :: m in mobs ==> m.Valid()
      requires player.Valid()
      modifies this, effects, mobs, combat, player, resources
      ensures Valid()
      ensures forall m :: m in mobs ==> m.Valid()
      ensures player.Valid()
      ensures effects == AttachedOnly(old(effects))
    {
      var effectsToKeep: seq<Projectile> := [];
      for i := 0 to |effects|
        invariant Valid() && effects == old(effects)
        invariant forall m :: m in mobs ==> m.Valid()
        invariant player.Valid()
        invariant effectsToKeep == AttachedOnly(effects[..i])
      {
        effectsToKeep := UpdateEffect(i, effectsToKeep, delta, mobs, combat, player, resources, contracts, k);
      }
      assert effects[..|effects|] == effects;
      AttachedOnlyDistinct(effects);
      effects := effectsToKeep;
    }

    /** One pass of `update`'s loop: the `i`th effect is animated if still in the scene, and kept if still in flight. */
    method UpdateEffect(i: nat, kept: seq<Projectile>, delta: real, mobs: seq<Mob>, combat: CombatSystem,
                        player: Player, resources: ResourcesSystem, contracts: ContractSystem, k: Kinematics)
      returns (kept': seq<Projectile>)
      requires Valid() && i < |effects| && kept == AttachedOnly(effects[..i])
      requires forall m :: m in mobs ==> m.Valid()
      requires player.Valid()
      modifies this, effects[i], mobs, combat, player, resources
      ensures Valid() && effects == old(effects)
      ensures forall m :: m in mobs ==> m.Valid()
      ensures player.Valid()
      ensures kept' == AttachedOnly(effects[..i + 1])
    {
      var effect := effects[i];
      if !effect.attached {
        AttachedOnlyStep(effects, i);
        return kept;
      }
      assert effect !in effects[..i] by {
        forall j | 0 <= j < i ensures effects[..i][j] != effect {
          assert effects[..i][j] == effects[j];
        }
      }
      var shouldKeep, _ := UpdateProjectile(effect, delta, mobs, combat, player, resources, contracts, k);
      kept' := if shouldKeep then kept + [effect] else kept;
      AttachedOnlyStep(effects, i);
    }

    /** `clear`: every mesh leaves the scene and both lists are emptied. */
    method Clear()
      modifies this, effects
      ensures effects == [] && projectiles == []
      ensures forall q :: q in old(effects) ==> !q.attached
    {
      for i := 0 to |effects|
        invariant effects == old(effects)
        invariant forall j :: 0 <= j < i ==> !effects[j].attached
      {
        effects[i].attached := false;
      }
      effects := [];
      projectiles := [];
    }
  }
}
