/** `ResourcesSystem`: the gold and crystal balances and their cost checks. */
module Resources {
  import opened Config

  class ResourcesSystem {
    var gold: int
    var crystals: int

    constructor ()
      ensures gold == 100 && crystals == 0
    {
      gold := 100;
      crystals := 0;
    }

    /** Adds `amount` and floors the balance (rewards may be fractional). */
    method AddGold(amount: real)
      modifies this
      ensures gold == (old(gold) as real + amount).Floor
      ensures gold >= old(gold) <==> amount >= 0.0
      ensures crystals == old(crystals)
    {
      gold := (gold as real + amount).Floor;
    }

    method AddCrystals(amount: real)
      modifies this
      ensures crystals == (old(crystals) as real + amount).Floor
      ensures crystals >= old(crystals) <==> amount >= 0.0
      ensures gold == old(gold)
    {
      crystals := (crystals as real + amount).Floor;
    }

    /** Spends `amount` gold if the balance covers it; otherwise changes nothing. */
    method SpendGold(amount: int) returns (ok: bool)
      modifies this
      ensures ok <==> old(gold) >= amount
      ensures gold == (if ok then old(gold) - amount else old(gold))
      ensures old(gold) >= 0 ==> gold >= 0
      ensures crystals == old(crystals)
    {
      ok := HasEnoughGold(amount);
      if ok {
        gold := gold - amount;
      }
    }

    method SpendCrystals(amount: int) returns (ok: bool)
      modifies this
      ensures ok <==> old(crystals) >= amount
      ensures crystals == (if ok then old(crystals) - amount else old(crystals))
      ensures old(crystals) >= 0 ==> crystals >= 0
      ensures gold == old(gold)
    {
      ok := HasEnoughCrystals(amount);
      if ok {
        crystals := crystals - amount;
      }
    }

    predicate HasEnoughGold(amount: int)
      reads this
    {
      gold >= amount
    }

    predicate HasEnoughCrystals(amount: int)
      reads this
    {
      crystals >= amount
    }

    /** A cost component of 0 is absent and is not checked. */
    predicate HasEnough(cost: Cost)
      reads this
    {
      (cost.gold == 0 || HasEnoughGold(cost.gold)) &&
      (cost.crystals == 0 || HasEnoughCrystals(cost.crystals))
    }
  }
}
