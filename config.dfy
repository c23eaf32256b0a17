/**
 * The `GameConfig` catalog: every constant the simulation reads. Colors,
 * display names, descriptions and scene settings that only the renderer uses
 * are not part of this model.
 */
module Config {
  import opened Wrappers
  import opened Numbers

  /** One entry of `mobs.types`. */
  datatype MobType = MobType(
    id: string,
    health: int,
    goldReward: int,
    expReward: int,
    spawnWeight: real,
    speed: real,
    hitboxRadius: real)

  /** A `{ gold, exp }` reward: a catalog entry's, a mob's, or one after contract modifiers. */
  datatype Reward = Reward(gold: int, exp: int)

  /**
   * A contract's `cost`. JavaScript tests each component for truthiness, so
   * an absent component and a zero one behave alike; 0 stands for both.
   */
  datatype Cost = Cost(gold: int, crystals: int)

  /**
   * One entry of `contracts.types`. A modifier of 0.0 stands for an absent
   * one (the code tests `if (contract.expModifier)`, false for both).
   */
  datatype Contract = Contract(
    id: string,
    mobType: Option<string>,
    spawnModifier: real,
    expModifier: real,
    goldModifier: real,
    cost: Cost)

  // player
  const BaseDamage: int := 10
  const BaseAttackSpeed: real := 0.5
  const BaseExp: int := 0
  const ExpPerLevel: int := 100
  const ExpMultiplier: real := 1.5
  const MoveSpeed: real := 5.0

  // mobs
  const BaseSpawnRate: real := 2000.0
  const SpawnRateIncrease: real := 50.0
  const MinSpawnRate: real := 500.0
  const BaseHealth: int := 50
  const HealthMultiplier: real := 1.2

  const Slime := MobType("slime", 30, 5, 3, 50.0, 2.0, 0.5)
  const Goblin := MobType("goblin", 60, 15, 8, 30.0, 3.0, 0.6)
  const Orc := MobType("orc", 120, 30, 15, 15.0, 1.5, 0.8)
  const Boss := MobType("boss", 500, 100, 50, 5.0, 1.0, 1.2)
  const MobTypes: seq<MobType> := [Slime, Goblin, Orc, Boss]

  // contracts
  const MaxActive: int := 3
  const SlimeContract := Contract("slime_contract", Some("slime"), 1.5, 0.0, 0.0, Cost(100, 0))
  const GoblinContract := Contract("goblin_contract", Some("goblin"), 1.5, 0.0, 0.0, Cost(150, 0))
  const ExpContract := Contract("exp_contract", None, 0.0, 1.25, 0.0, Cost(200, 0))
  const GoldContract := Contract("gold_contract", None, 0.0, 0.0, 1.25, Cost(200, 0))
  const ContractTypes: seq<Contract> := [SlimeContract, GoblinContract, ExpContract, GoldContract]

  // scene
  const FloorSize: real := 200.0
  const ProjectileSpeed: real := 8.0
  const ProjectileMaxDistance: real := 100.0
  const ProjectileRadius: real := 0.15
  const PredictionTime: real := 0.5
  const MaxPredictionDistance: real := 20.0

  /**
   * `find(x => x.id === id)` over a catalog whose entries carry their id
   * under `key`: the first entry with that id.
   */
  function FindBy<T>(catalog: seq<T>, key: T -> string, id: string): (r: Option<T>)
    ensures r.Some? <==> exists i :: 0 <= i < |catalog| && key(catalog[i]) == id
    ensures r.Some? ==> r.value in catalog && key(r.value) == id
  {
    if catalog == [] then None
    else if key(catalog[0]) == id then Some(catalog[0])
    else FindBy(catalog[1..], key, id)
  }

  /** `types.find(t => t.id === id)` in a mob catalog. */
  function FindType(types: seq<MobType>, id: string): Option<MobType> {
    FindBy(types, (t: MobType) => t.id, id)
  }

  /** Looks `id` up in the mob catalog. */
  function FindMobType(id: string): Option<MobType> {
    FindType(MobTypes, id)
  }

  /** `availableContracts.find(c => c.id === id)`. */
  function FindContract(catalog: seq<Contract>, id: string): Option<Contract> {
    FindBy(catalog, (c: Contract) => c.id, id)
  }

  function SpawnWeights(types: seq<MobType>): (ws: seq<real>)
    ensures |ws| == |types|
    ensures forall i :: 0 <= i < |types| ==> ws[i] == types[i].spawnWeight
  {
    seq(|types|, i requires 0 <= i < |types| => types[i].spawnWeight)
  }

  /** A modifier is either absent (0.0) or at least 1.0. */
  predicate BoostOrAbsent(m: real) {
    m == 0.0 || m >= 1.0
  }

  lemma MobTypeIdsDistinct()
    ensures forall i, j :: 0 <= i < j < |MobTypes| ==> MobTypes[i].id != MobTypes[j].id
  {
  }

  lemma ContractMobTypesKnown()
    ensures forall c :: c in ContractTypes && c.mobType.Some? ==> FindMobType(c.mobType.value).Some?
  {
    assert MobTypes[0].id == "slime" && MobTypes[1].id == "goblin";
    assert FindMobType("slime").Some? && FindMobType("goblin").Some?;
  }

  lemma SpawnRatesOrdered()
    ensures 0.0 < MinSpawnRate <= BaseSpawnRate && SpawnRateIncrease >= 0.0
  {
  }

  lemma SpawnWeightsPositiveAndTotal()
    ensures forall t :: t in MobTypes ==> t.spawnWeight > 0.0
    ensures Sum(SpawnWeights(MobTypes)) == 100.0
  {
    var ws := SpawnWeights(MobTypes);
    assert ws == [50.0, 30.0, 15.0, 5.0];
    assert [50.0][..0] == [];
    assert Sum([50.0]) == 50.0;
    assert [50.0, 30.0][..1] == [50.0];
    assert Sum([50.0, 30.0]) == 80.0;
    assert [50.0, 30.0, 15.0][..2] == [50.0, 30.0];
    assert Sum([50.0, 30.0, 15.0]) == 95.0;
    assert ws[..3] == [50.0, 30.0, 15.0];
  }

  lemma CatalogModifiersAreBoosts()
    ensures forall c :: c in ContractTypes ==>
      BoostOrAbsent(c.spawnModifier) && BoostOrAbsent(c.expModifier) && BoostOrAbsent(c.goldModifier)
  {
  }

  lemma ContractCatalogShape()
    ensures MaxActive == 3 && |ContractTypes| == 4
    ensures forall i, j :: 0 <= i < j < |ContractTypes| ==> ContractTypes[i].id != ContractTypes[j].id
  {
  }
}
