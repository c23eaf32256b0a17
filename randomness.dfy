/**
 * `RandomSystem`: contract-weighted choice of the mob type to spawn and the
 * modifier-scaled chance helpers. `Math.random()` is the parameter `u`
 * (a draw in [0, 1)) or `draw`.
 */
module Randomness {
  import opened Wrappers
  import opened Numbers
  import opened Config

  /** The spawn modifiers of the contracts that name mob type `id`, in list order. */
  function MatchingModifiers(id: string, cs: seq<Contract>): seq<real> {
    if cs == [] then []
    else
      var c := cs[|cs| - 1];
      MatchingModifiers(id, cs[..|cs| - 1]) +
        (if c.mobType == Some(id) && c.spawnModifier != 0.0 then [c.spawnModifier] else [])
  }

  /** The weight of one mob type: the inner `forEach` that multiplies in each matching modifier. */
  function WeightOf(t: MobType, cs: seq<Contract>): real {
    if cs == [] then t.spawnWeight
    else
      var c := cs[|cs| - 1];
      var w := WeightOf(t, cs[..|cs| - 1]);
      if c.mobType == Some(t.id) && c.spawnModifier != 0.0 then w * c.spawnModifier else w
  }

  /** `mobTypes.map(...)`: one weight per catalog entry. */
  function Weights(types: seq<MobType>, cs: seq<Contract>): (ws: seq<real>)
    ensures |ws| == |types|
  {
    seq(|types|, i requires 0 <= i < |types| => WeightOf(types[i], cs))
  }

  /** A type's weight is its catalog weight times the product of the spawn modifiers aimed at it. */
  lemma {:induction false} WeightIsProduct(t: MobType, cs: seq<Contract>)
    ensures WeightOf(t, cs) == t.spawnWeight * Product(MatchingModifiers(t.id, cs))
  {
    if cs != [] {
      var init, c := cs[..|cs| - 1], cs[|cs| - 1];
      WeightIsProduct(t, init);
      var ms := MatchingModifiers(t.id, init);
      if c.mobType == Some(t.id) && c.spawnModifier != 0.0 {
        var ms' := ms + [c.spawnModifier];
        assert MatchingModifiers(t.id, cs) == ms';
        assert ms'[..|ms'| - 1] == ms;
        assert Product(ms') == Product(ms) * c.spawnModifier;
      } else {
        assert MatchingModifiers(t.id, cs) == ms;
      }
    }
  }

  /** With no active contracts the weights are exactly the catalog's spawn weights. */
  lemma NoContractsCatalogWeights(types: seq<MobType>)
    ensures Weights(types, []) == SpawnWeights(types)
  {
  }

  lemma {:induction false} WeightPositive(t: MobType, cs: seq<Contract>)
    requires t.spawnWeight > 0.0
    requires forall c :: c in cs ==> BoostOrAbsent(c.spawnModifier)
    ensures WeightOf(t, cs) > 0.0
  {
    if cs != [] {
      WeightPositive(t, cs[..|cs| - 1]);
    }
  }

  /** Positive catalog weights and modifiers that only boost keep every weight positive. */
  lemma WeightsPositive(types: seq<MobType>, cs: seq<Contract>)
    requires forall t :: t in types ==> t.spawnWeight > 0.0
    requires forall c :: c in cs ==> BoostOrAbsent(c.spawnModifier)
    ensures forall i :: 0 <= i < |types| ==> Weights(types, cs)[i] > 0.0
  {
    forall i | 0 <= i < |types| ensures Weights(types, cs)[i] > 0.0 {
      WeightPositive(types[i], cs);
    }
  }

  /** `ws[0] + ... + ws[k - 1]`. */
  function PrefixSum(ws: seq<real>, k: nat): real
    requires k <= |ws|
  {
    Sum(ws[..k])
  }

  lemma PrefixSumStep(ws: seq<real>, k: nat)
    requires k < |ws|
    ensures PrefixSum(ws, k + 1) == PrefixSum(ws, k) + ws[k]
  {
    assert ws[..k + 1][..k] == ws[..k];
  }

  lemma {:induction false} PrefixSumIncreasing(ws: seq<real>, a: nat, b: nat)
    requires a < b <= |ws|
    requires forall i :: 0 <= i < |ws| ==> ws[i] > 0.0
    ensures PrefixSum(ws, a) < PrefixSum(ws, b)
  {
    PrefixSumStep(ws, b - 1);
    if a < b - 1 {
      PrefixSumIncreasing(ws, a, b - 1);
    }
  }

  /** The walk has stopped by index `j`: `r - ws[0] - ... - ws[j] <= 0`. */
  predicate Reaches(ws: seq<real>, r: real, j: nat)
    requires j < |ws|
  {
    r - PrefixSum(ws, j + 1) <= 0.0
  }

  /** The first index `i >= k` at which the walk stops, if any. */
  function FirstCoverFrom(ws: seq<real>, r: real, k: nat): (o: Option<nat>)
    requires k <= |ws|
    decreases |ws| - k
    ensures o.Some? ==> k <= o.value < |ws| && Reaches(ws, r, o.value)
    ensures o.Some? ==> forall j :: k <= j < o.value ==> !Reaches(ws, r, j)
    ensures o.None? ==> forall j :: k <= j < |ws| ==> !Reaches(ws, r, j)
  {
    if k == |ws| then None
    else if Reaches(ws, r, k) then Some(k)
    else FirstCoverFrom(ws, r, k + 1)
  }

  /** The index the selection walk stops at for running value `r`, if it stops. */
  function FirstCover(ws: seq<real>, r: real): Option<nat> {
    FirstCoverFrom(ws, r, 0)
  }

  /** `Math.random() * totalWeight`: the running value the walk starts from. */
  function Draw(u: real, total: real): real {
    u * total
  }

  /** The catalog index `selectMobType` picks for draw `u`, falling back to the first type. */
  function SelectedIndex(cs: seq<Contract>, u: real): (i: nat)
    ensures i < |MobTypes|
  {
    var ws := Weights(MobTypes, cs);
    match FirstCover(ws, Draw(u, Sum(ws)))
    case Some(i) => i
    case None => 0
  }

  /** The id `selectMobType` returns for draw `u`. */
  function SelectedId(cs: seq<Contract>, u: real): string {
    MobTypes[SelectedIndex(cs, u)].id
  }

  /**
   * With positive weights, index `i` is chosen exactly for the values of `r`
   * in (ws[0] + ... + ws[i - 1], ws[0] + ... + ws[i]] (for `i` = 0, every `r`
   * up to ws[0]): an interval whose length is the weight of `i`.
   */
  lemma SelectionInterval(ws: seq<real>, r: real, i: nat)
    requires forall j :: 0 <= j < |ws| ==> ws[j] > 0.0
    ensures FirstCover(ws, r) == Some(i) <==>
      i < |ws| && r <= PrefixSum(ws, i + 1) && (i == 0 || PrefixSum(ws, i) < r)
  {
    var o := FirstCover(ws, r);
    if o == Some(i) && i > 0 {
      assert !Reaches(ws, r, i - 1);
    }
    if i < |ws| && r <= PrefixSum(ws, i + 1) && (i == 0 || PrefixSum(ws, i) < r) {
      assert Reaches(ws, r, i);
      if o.Some? && o.value + 1 < i {
        PrefixSumIncreasing(ws, o.value + 1, i);
      }
    }
  }

  /** A draw in [0, 1) always stops the walk, so the first-type fallback is never taken. */
  lemma FallbackUnreachable(ws: seq<real>, u: real)
    requires |ws| > 0 && forall j :: 0 <= j < |ws| ==> ws[j] > 0.0
    requires 0.0 <= u < 1.0
    ensures FirstCover(ws, Draw(u, Sum(ws))).Some?
  {
    SumPositive(ws);
    DrawBelow(u, Sum(ws));
    LastReaches(ws, Draw(u, Sum(ws)));
  }

  /** The sum of positive weights is positive. */
  lemma SumPositive(ws: seq<real>)
    requires |ws| > 0 && forall j :: 0 <= j < |ws| ==> ws[j] > 0.0
    ensures Sum(ws) > 0.0
  {
    PrefixSumIncreasing(ws, 0, |ws|);
    assert ws[..0] == [];
    assert ws[..|ws|] == ws;
  }

  /** Any amount up to the total is used up by the last type at the latest. */
  lemma LastReaches(ws: seq<real>, r: real)
    requires |ws| > 0 && r <= Sum(ws)
    ensures Reaches(ws, r, |ws| - 1)
    ensures FirstCover(ws, r).Some?
  {
    assert ws[..|ws|] == ws;
    assert Reaches(ws, r, |ws| - 1);
    var o := FirstCoverFrom(ws, r, 0);
  }

  /** A draw in [0, 1) scales a positive total to a value in [0, total). */
  lemma DrawBelow(u: real, total: real)
    requires 0.0 <= u < 1.0 && total > 0.0
    ensures 0.0 <= Draw(u, total) < total
  {
    assert total - u * total == (1.0 - u) * total;
  }

  /** The spawned type is always a catalog entry, so constructing the mob never throws. */
  lemma SelectedIdInCatalog(cs: seq<Contract>, u: real)
    ensures FindMobType(SelectedId(cs, u)).Some?
  {
    var i := SelectedIndex(cs, u);
    assert MobTypes[i].id == SelectedId(cs, u);
  }

  /**
   * With contracts whose spawn modifiers only boost, `selectMobType` picks
   * catalog entry `i` exactly when the scaled draw lies in the `i`-th
   * interval of the cumulative weights: each type is chosen with
   * probability proportional to its weight.
   */
  lemma SelectionIsWeighted(cs: seq<Contract>, u: real, i: nat)
    requires forall c :: c in cs ==> BoostOrAbsent(c.spawnModifier)
    requires 0.0 <= u < 1.0
    ensures var ws := Weights(MobTypes, cs);
      var r := Draw(u, Sum(ws));
      SelectedIndex(cs, u) == i <==>
        i < |ws| && r <= PrefixSum(ws, i + 1) && (i == 0 || PrefixSum(ws, i) < r)
  {
    var ws := Weights(MobTypes, cs);
    WeightsPositive(MobTypes, cs);
    FallbackUnreachable(ws, u);
    SelectionInterval(ws, Draw(u, Sum(ws)), i);
  }

  /** `selectMobType` with the draw `u` standing for `Math.random()`. */
  method SelectMobType(active: seq<Contract>, u: real) returns (id: string)
    ensures id == SelectedId(active, u)
  {
    var weights := Weights(MobTypes, active);
    var totalWeight := Sum(weights);
    var random := u * totalWeight;
    ghost var r := Draw(u, totalWeight);
    for i := 0 to |MobTypes|
      invariant random == r - PrefixSum(weights, i)
      invariant FirstCover(weights, r) == FirstCoverFrom(weights, r, i)
    {
      PrefixSumStep(weights, i);
      random := random - weights[i];
      if random <= 0.0 {
        assert Reaches(weights, r, i);
        return MobTypes[i].id;
      }
    }
    assert FirstCover(weights, r) == None;
    assert SelectedIndex(active, u) == 0;
    return MobTypes[0].id;
  }

  /** `randomWithModifiers`: the base value times every modifier. */
  method RandomWithModifiers(baseValue: real, modifiers: seq<real>) returns (value: real)
    ensures value == baseValue * Product(modifiers)
    ensures modifiers == [] ==> value == baseValue
  {
    value := baseValue;
    for i := 0 to |modifiers|
      invariant value == baseValue * Product(modifiers[..i])
    {
      assert modifiers[..i + 1][..i] == modifiers[..i];
      value := value * modifiers[i];
    }
    assert modifiers[..|modifiers|] == modifiers;
  }

  /** `checkChance` with `draw` standing for `Math.random()`. */
  method CheckChance(baseChance: real, modifiers: seq<real>, draw: real) returns (success: bool)
    ensures success <==> draw < baseChance * Product(modifiers)
  {
    var chance := baseChance;
    for i := 0 to |modifiers|
      invariant chance == baseChance * Product(modifiers[..i])
    {
      assert modifiers[..i + 1][..i] == modifiers[..i];
      chance := chance * modifiers[i];
    }
    assert modifiers[..|modifiers|] == modifiers;
    success := draw < chance;
  }
}
