/**
 * `TargetingSystem`: choosing the mob to shoot at, with a short lock on
 * the previous choice, and the aim point that leads a moving target.
 * Distances and the mobs' predicted positions are the abstract functions
 * of `Vectors.Kinematics`.
 */
module Targeting {
  import opened Wrappers
  import opened Vectors
  import opened Config
  import opened Mobs

  const LockFrame: real := 0.016
  const MinLockTime: real := 0.1

  /** A live mob close enough to be considered. */
  predicate IsCandidate(m: Mob, p: Vec, k: Kinematics)
    reads m
  {
    !m.isDead && k.dist(p, m.pos) <= MaxPredictionDistance
  }

  /** `distance * 0.7 + predictedDistance * 0.3`: lower is better. */
  function Score(m: Mob, p: Vec, k: Kinematics): real
    reads m
  {
    k.dist(p, m.pos) * 0.7 + k.dist(p, k.predict(m.pos, m.speed, PredictionTime)) * 0.3
  }

  /**
   * `mobs[i]` is the candidate the scoring loop keeps: its score is the
   * least of all candidates and strictly below every earlier candidate's
   * (a later tie does not replace it, since the comparison is strict).
   */
  predicate IsFirstBest(mobs: seq<Mob>, i: int, p: Vec, k: Kinematics)
    reads mobs
  {
    0 <= i < |mobs| && IsCandidate(mobs[i], p, k) &&
    (forall j :: 0 <= j < |mobs| && IsCandidate(mobs[j], p, k) ==> Score(mobs[i], p, k) <= Score(mobs[j], p, k)) &&
    (forall j :: 0 <= j < i && IsCandidate(mobs[j], p, k) ==> Score(mobs[i], p, k) < Score(mobs[j], p, k))
  }

  predicate HasAlive(mobs: seq<Mob>)
    reads mobs
  {
    exists i :: 0 <= i < |mobs| && !mobs[i].isDead
  }

  /** The scoring loop of `selectTarget`: the first candidate of least score, or null. */
  method BestCandidate(mobs: seq<Mob>, p: Vec, k: Kinematics) returns (best: Mob?, ghost index: int)
    ensures best == null <==> forall j :: 0 <= j < |mobs| ==> !IsCandidate(mobs[j], p, k)
    ensures best != null ==> IsFirstBest(mobs, index, p, k) && best == mobs[index]
  {
    best := null;
    index := -1;
    var bestScore := 0.0;
    for i := 0 to |mobs|
      invariant best == null <==> forall j :: 0 <= j < i ==> !IsCandidate(mobs[j], p, k)
      invariant best != null ==> 0 <= index < i && best == mobs[index] && IsCandidate(best, p, k)
      invariant best != null ==> bestScore == Score(best, p, k)
      invariant best != null ==> forall j :: 0 <= j < i && IsCandidate(mobs[j], p, k) ==> bestScore <= Score(mobs[j], p, k)
      invariant best != null ==> forall j :: 0 <= j < index && IsCandidate(mobs[j], p, k) ==> bestScore < Score(mobs[j], p, k)
    {
      var mob := mobs[i];
      if mob.isDead {
        continue;
      }
      var distance := k.dist(p, mob.pos);
      if distance > MaxPredictionDistance {
        continue;
      }
      var predictedDistance := k.dist(p, k.predict(mob.pos, mob.speed, PredictionTime));
      var score := distance * 0.7 + predictedDistance * 0.3;
      if best == null || score < bestScore {
        best := mob;
        index := i;
        bestScore := score;
      }
    }
  }

  /** The aim point after up to `fuel` refinements, and how many predictions were made. */
  function AimRefine(k: Kinematics, from: Vec, target: Mob, projectileSpeed: real, predicted: Vec, fuel: nat)
    : (r: (Vec, nat))
    requires projectileSpeed != 0.0
    reads target
    decreases fuel
    ensures r.0.y == predicted.y
    ensures r.1 <= fuel
  {
    if fuel == 0 then (predicted, 0)
    else
      var timeToTarget := k.dist(from, predicted) / projectileSpeed;
      var next := k.predict(target.pos, target.speed, timeToTarget).(y := predicted.y);
      if k.dist(predicted, next) < 0.1 then (predicted, 1)
      else
        var rest := AimRefine(k, from, target, projectileSpeed, next, fuel - 1);
        (rest.0, rest.1 + 1)
  }

  /** The starting aim: the target's centre, half a unit above its position. */
  function AimStart(target: Mob): Vec
    reads target
  {
    Raise(target.pos, 0.5)
  }

  /**
   * `calculateAimPoint`: none without a target; otherwise the refined
   * prediction from the weapon, one unit above `playerPos`. The point
   * keeps the height of the target's centre, and at most three
   * predictions are made.
   */
  method CalculateAimPoint(target: Mob?, playerPos: Vec, projectileSpeed: real, k: Kinematics)
    returns (aim: Option<Vec>, ghost predictions: nat)
    requires projectileSpeed != 0.0
    ensures target == null <==> aim.None?
    ensures target != null ==>
      var r := AimRefine(k, Raise(playerPos, 1.0), target, projectileSpeed, AimStart(target), 3);
      aim == Some(r.0) && predictions == r.1
    ensures aim.Some? ==> aim.value.y == target.pos.y + 0.5
    ensures predictions <= 3
  {
    predictions := 0;
    if target == null {
      return None, 0;
    }
    var weaponPos := Raise(playerPos, 1.0);
    var predictedPos := Raise(target.pos, 0.5);
    var i := 0;
    while i < 3
      invariant 0 <= i <= 3 && predictions == i
      invariant predictedPos.y == target.pos.y + 0.5
      invariant AimRefine(k, weaponPos, target, projectileSpeed, AimStart(target), 3) ==
        var rest := AimRefine(k, weaponPos, target, projectileSpeed, predictedPos, 3 - i);
        (rest.0, rest.1 + i)
    {
      var distance := k.dist(weaponPos, predictedPos);
      var timeToTarget := distance / projectileSpeed;
      var newPredictedPos := k.predict(target.pos, target.speed, timeToTarget).(y := predictedPos.y);
      predictions := predictions + 1;
      if k.dist(predictedPos, newPredictedPos) < 0.1 {
        break;
      }
      predictedPos := newPredictedPos;
      i := i + 1;
    }
    return Some(predictedPos), predictions;
  }

  class TargetingSystem {
    var lastTarget: Mob?
    var lockTime: real

    constructor()
      ensures lastTarget == null && lockTime == 0.0
    {
      lastTarget := null;
      lockTime := 0.0;
    }

    /** The previous target is still alive and listed. */
    predicate LockHeld(mobs: seq<Mob>)
      reads this, lastTarget
    {
      lastTarget != null && !lastTarget.isDead && lastTarget in mobs
    }

    /**
     * `selectTarget`. With no live mob: null, and nothing changes. A held
     * lock ages by one frame; once it has aged at least `minLockTime` it
     * returns the previous target if that is within range and is dropped
     * otherwise. Below `minLockTime` the previous target is scored afresh
     * with the rest. A fresh choice that differs from the previous target
     * restarts the lock on it.
     */
    method SelectTarget(mobs: seq<Mob>, p: Vec, k: Kinematics) returns (target: Mob?)
      modifies this
      ensures target != null ==> target in mobs && IsCandidate(target, p, k)
      ensures !HasAlive(mobs) ==> target == null && lastTarget == old(lastTarget) && lockTime == old(lockTime)
      ensures HasAlive(mobs) ==>
        var ready := old(LockHeld(mobs)) && old(lockTime) + LockFrame >= MinLockTime;
        if ready && k.dist(p, old(lastTarget).pos) <= MaxPredictionDistance then
          target == old(lastTarget) && lastTarget == old(lastTarget) && lockTime == old(lockTime) + LockFrame
        else
          var held: Mob? := if ready then null else old(lastTarget);
          var aged := if ready then 0.0 else if old(LockHeld(mobs)) then old(lockTime) + LockFrame else old(lockTime);
          (target == null <==> forall j :: 0 <= j < |mobs| ==> !IsCandidate(mobs[j], p, k)) &&
          (target != null ==> exists i :: IsFirstBest(mobs, i, p, k) && target == mobs[i]) &&
          (if target != null && target != held then lastTarget == target && lockTime == 0.0
           else lastTarget == held && lockTime == aged)
    {
      if |mobs| == 0 {
        return null;
      }
      var alive := HasAliveLoop(mobs);
      if !alive {
        return null;
      }
      if lastTarget != null && !lastTarget.isDead && lastTarget in mobs {
        lockTime := lockTime + LockFrame;
        if lockTime >= MinLockTime {
          var distance := k.dist(p, lastTarget.pos);
          if distance > MaxPredictionDistance {
            lastTarget := null;
            lockTime := 0.0;
          } else {
            return lastTarget;
          }
        }
      }
      var best, index := BestCandidate(mobs, p, k);
      if best != null && best != lastTarget {
        lastTarget := best;
        lockTime := 0.0;
      }
      return best;
    }

    /** `reset`: forget the lock. */
    method Reset()
      modifies this
      ensures lastTarget == null && lockTime == 0.0
    {
      lastTarget := null;
      lockTime := 0.0;
    }
  }

  /** `mobs.filter(mob => !mob.isDead).length > 0`. */
  method HasAliveLoop(mobs: seq<Mob>) returns (found: bool)
    ensures found <==> HasAlive(mobs)
  {
    found := false;
    for i := 0 to |mobs|
      invariant found <==> exists j :: 0 <= j < i && !mobs[j].isDead
    {
      if !mobs[i].isDead {
        found := true;
      }
    }
  }
}
