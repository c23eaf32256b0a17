/**
 * `ContractSystem`: the list of active contracts (at most `MaxActive`,
 * distinct ids), activation gated by id, duplicates, the cap and the cost,
 * and the reward modifiers the active contracts apply.
 */
module Contracts {
  import opened Wrappers
  import opened Numbers
  import opened Config
  import opened Resources
  import opened Lists

  predicate HasId(cs: seq<Contract>, id: string) {
    exists i :: 0 <= i < |cs| && cs[i].id == id
  }

  predicate DistinctIds(cs: seq<Contract>) {
    forall i, j :: 0 <= i < j < |cs| ==> cs[i].id != cs[j].id
  }

  /** `findIndex(c => c.id === id)`: the first index with that id, or -1. */
  function IndexOfId(cs: seq<Contract>, id: string): (k: int)
    ensures -1 <= k < |cs|
    ensures k == -1 <==> !HasId(cs, id)
    ensures k >= 0 ==> cs[k].id == id && forall j :: 0 <= j < k ==> cs[j].id != id
  {
    if cs == [] then -1
    else if cs[0].id == id then 0
    else
      var k := IndexOfId(cs[1..], id);
      if k == -1 then -1 else k + 1
  }

  /** One step of the `forEach`: each present modifier multiplies and floors its component. */
  function ApplyOne(c: Contract, r: Reward): Reward {
    Reward(
      if c.goldModifier != 0.0 then FloorMul(r.gold, c.goldModifier) else r.gold,
      if c.expModifier != 0.0 then FloorMul(r.exp, c.expModifier) else r.exp)
  }

  /** The reward after every contract of `cs` has been applied, in list order. */
  function ApplyAll(cs: seq<Contract>, r: Reward): Reward {
    if cs == [] then r else ApplyOne(cs[|cs| - 1], ApplyAll(cs[..|cs| - 1], r))
  }

  /** The present exp modifiers of `cs`, in list order. */
  function ExpFactors(cs: seq<Contract>): seq<real> {
    if cs == [] then []
    else ExpFactors(cs[..|cs| - 1]) + (if cs[|cs| - 1].expModifier != 0.0 then [cs[|cs| - 1].expModifier] else [])
  }

  /** The present gold modifiers of `cs`, in list order. */
  function GoldFactors(cs: seq<Contract>): seq<real> {
    if cs == [] then []
    else GoldFactors(cs[..|cs| - 1]) + (if cs[|cs| - 1].goldModifier != 0.0 then [cs[|cs| - 1].goldModifier] else [])
  }

  /** `x := floor(x * m)` for each factor in turn. */
  function FloorChain(ms: seq<real>, x: int): int {
    if ms == [] then x else FloorMul(FloorChain(ms[..|ms| - 1], x), ms[|ms| - 1])
  }

  /**
   * The two reward components are modified independently: gold goes through
   * the chain of gold modifiers and exp through the chain of exp modifiers,
   * each flooring after every contract.
   */
  lemma {:induction false} ApplyAllIsTwoChains(cs: seq<Contract>, r: Reward)
    ensures ApplyAll(cs, r) == Reward(FloorChain(GoldFactors(cs), r.gold), FloorChain(ExpFactors(cs), r.exp))
  {
    if cs != [] {
      var init, c := cs[..|cs| - 1], cs[|cs| - 1];
      ApplyAllIsTwoChains(init, r);
      var gs := GoldFactors(init) + (if c.goldModifier != 0.0 then [c.goldModifier] else []);
      var es := ExpFactors(init) + (if c.expModifier != 0.0 then [c.expModifier] else []);
      assert GoldFactors(cs) == gs && ExpFactors(cs) == es;
      if c.goldModifier != 0.0 {
        assert gs[..|gs| - 1] == GoldFactors(init);
      } else {
        assert gs == GoldFactors(init);
      }
      if c.expModifier != 0.0 {
        assert es[..|es| - 1] == ExpFactors(init);
      } else {
        assert es == ExpFactors(init);
      }
    }
  }

  lemma FloorMulGrows(x: int, m: real)
    requires x >= 0 && m >= 1.0
    ensures FloorMul(x, m) >= x
  {
    assert x as real * m - x as real == x as real * (m - 1.0) >= 0.0;
  }

  lemma {:induction false} FloorChainGrows(ms: seq<real>, x: int)
    requires x >= 0
    requires forall i :: 0 <= i < |ms| ==> ms[i] >= 1.0
    ensures FloorChain(ms, x) >= x
  {
    if ms != [] {
      FloorChainGrows(ms[..|ms| - 1], x);
      FloorMulGrows(FloorChain(ms[..|ms| - 1], x), ms[|ms| - 1]);
    }
  }

  lemma {:induction false} FactorsAreBoosts(cs: seq<Contract>)
    requires forall c :: c in cs ==> BoostOrAbsent(c.expModifier) && BoostOrAbsent(c.goldModifier)
    ensures forall i :: 0 <= i < |ExpFactors(cs)| ==> ExpFactors(cs)[i] >= 1.0
    ensures forall i :: 0 <= i < |GoldFactors(cs)| ==> GoldFactors(cs)[i] >= 1.0
  {
    if cs != [] {
      FactorsAreBoosts(cs[..|cs| - 1]);
    }
  }

  /** With every modifier absent or at least 1, a non-negative reward never shrinks. */
  lemma ModifiersNeverReduce(cs: seq<Contract>, r: Reward)
    requires r.gold >= 0 && r.exp >= 0
    requires forall c :: c in cs ==> BoostOrAbsent(c.expModifier) && BoostOrAbsent(c.goldModifier)
    ensures ApplyAll(cs, r).gold >= r.gold && ApplyAll(cs, r).exp >= r.exp
  {
    ApplyAllIsTwoChains(cs, r);
    FactorsAreBoosts(cs);
    FloorChainGrows(GoldFactors(cs), r.gold);
    FloorChainGrows(ExpFactors(cs), r.exp);
  }

  /** Without active contracts the reward passes through unchanged. */
  lemma NoContractsNoChange(r: Reward)
    ensures ApplyAll([], r) == r
  {
  }

  /**
   * Flooring after each contract: exp 10 under two 1.25 modifiers gives
   * floor(floor(12.5) * 1.25) = 15, and exp 3 gives 3, where flooring once
   * after the combined factor 1.5625 would give 4.
   */
  lemma FlooringIsPerContract()
    ensures ApplyAll([ExpContract, ExpContract], Reward(0, 10)).exp == 15
    ensures ApplyAll([ExpContract, ExpContract], Reward(0, 3)).exp == 3
    ensures FloorMul(3, 1.25 * 1.25) == 4
  {
    var two := [ExpContract, ExpContract];
    assert two[..1] == [ExpContract] && [ExpContract][..0] == [];
    assert ApplyAll([ExpContract], Reward(0, 10)) == Reward(0, 12);
    assert ApplyAll([ExpContract], Reward(0, 3)) == Reward(0, 3);
  }

  /**
   * The charging step of `activateContract`: each present component of an
   * affordable cost is spent, so both balances drop by exactly the cost.
   */
  method Charge(resources: ResourcesSystem, cost: Cost)
    requires resources.HasEnough(cost)
    modifies resources
    ensures resources.gold == old(resources.gold) - cost.gold
    ensures resources.crystals == old(resources.crystals) - cost.crystals
  {
    if cost.gold != 0 {
      var paid := resources.SpendGold(cost.gold);
      assert paid;
    }
    if cost.crystals != 0 {
      var paid := resources.SpendCrystals(cost.crystals);
      assert paid;
    }
  }

  class ContractSystem {
    var active: seq<Contract>
    const available: seq<Contract>
    const resources: ResourcesSystem

    ghost predicate Valid()
      reads this
    {
      available == ContractTypes &&
      |active| <= MaxActive && DistinctIds(active) &&
      (forall c :: c in active ==> c in available)
    }

    constructor (resources: ResourcesSystem)
      ensures Valid()
      ensures active == [] && available == ContractTypes && this.resources == resources
    {
      active := [];
      available := ContractTypes;
      this.resources := resources;
    }

    /** The four conditions `activateContract` checks before it changes anything. */
    predicate CanActivate(id: string)
      reads this, resources
    {
      match FindContract(available, id)
      case None => false
      case Some(c) => !HasId(active, id) && |active| < MaxActive && resources.HasEnough(c.cost)
    }

    method Activate(id: string) returns (ok: bool)
      requires Valid()
      modifies this, resources
      ensures Valid()
      ensures ok == old(CanActivate(id))
      ensures ok ==> (
        FindContract(available, id).Some? &&
        var c := FindContract(available, id).value;
        active == old(active) + [c] &&
        resources.gold == old(resources.gold) - c.cost.gold &&
        resources.crystals == old(resources.crystals) - c.cost.crystals)
      ensures !ok ==> (
        active == old(active) &&
        resources.gold == old(resources.gold) && resources.crystals == old(resources.crystals))
    {
      var found := FindContract(available, id);
      if found.None? {
        return false;
      }
      var c := found.value;
      if HasId(active, id) {
        return false;
      }
      if |active| >= MaxActive {
        return false;
      }
      if !resources.HasEnough(c.cost) {
        return false;
      }
      Charge(resources, c.cost);
      active := active + [c];
      ok := true;
    }

    method Deactivate(id: string) returns (ok: bool)
      requires Valid()
      modifies this
      ensures Valid()
      ensures ok <==> HasId(old(active), id)
      ensures ok ==> active == RemoveAt(old(active), IndexOfId(old(active), id))
      ensures !ok ==> active == old(active)
      ensures !HasId(active, id)
      ensures forall c :: c in old(active) && c.id != id ==> c in active
    {
      var k := IndexOfId(active, id);
      if k > -1 {
        active := RemoveAt(active, k);
        ok := true;
        forall j | 0 <= j < |active| ensures active[j].id != id {
          if j >= k {
            assert active[j] == old(active)[j + 1];
          }
        }
      } else {
        ok := false;
      }
    }

    /** `getActiveContracts`: at most `maxActiveContracts` catalog contracts, no id twice. */
    function ActiveContracts(): (r: seq<Contract>)
      requires Valid()
      reads this
      ensures |r| <= MaxActive && DistinctIds(r)
      ensures forall c :: c in r ==> c in ContractTypes
    {
      active
    }

    /** `getAvailableContracts`: the whole catalog, whatever is active. */
    function AvailableContracts(): (r: seq<Contract>)
      requires Valid()
      reads this
      ensures r == ContractTypes
    {
      available
    }

    /** The reward after the active contracts' modifiers; `mobType` is not consulted. */
    method ApplyRewardModifiers(reward: Reward, mobType: string) returns (modified: Reward)
      ensures modified == ApplyAll(active, reward)
    {
      modified := reward;
      for i := 0 to |active|
        invariant modified == ApplyAll(active[..i], reward)
      {
        assert active[..i + 1][..i] == active[..i];
        modified := ApplyOne(active[i], modified);
      }
      assert active[..|active|] == active;
    }
  }
}
