/**
 The stake reward curve (GetProofOfStakeReward in src/main.cpp): the yearly rate is the fourth root of a
 ratio of targets, found by bisection to within a cent.
 */
module StakeReward {

  const COIN := 1_000_000
  const CENT := 10_000
  const MAX_MINT_PROOF_OF_WORK := 13 * COIN

  /** The cap of the yearly rate: one per cent of 13 coins, four after the fork. */
  function RateLimit(fHardFork: bool): int { if fHardFork then MAX_MINT_PROOF_OF_WORK * 4 / 100 else MAX_MINT_PROOF_OF_WORK / 100 }

  function RateFloor(fHardFork: bool): int { if fHardFork then 4 * CENT else CENT }

  function Fourth(x: int): int { x * x * x * x }

  /** The rate `x` is above the curve: (limit / x)^4 is less than targetLimit / target. */
  predicate Above(limit: int, targetLimit: int, target: int, x: int) { Fourth(x) * targetLimit > Fourth(limit) * target }

  /** The bisection, as a function of its bounds. */
  function Bisect(limit: int, targetLimit: int, target: int, lower: int, upper: int): (r: int)
    requires lower <= upper
    ensures lower <= r <= upper
    decreases upper - lower
  {
    if lower + CENT > upper then upper
    else
      var mid := (lower + upper) / 2;
      if Above(limit, targetLimit, target, mid) then Bisect(limit, targetLimit, target, lower, mid)
      else Bisect(limit, targetLimit, target, mid, upper)
  }

  function Rate(fHardFork: bool, targetLimit: int, target: int): int {
    Bisect(RateLimit(fHardFork), targetLimit, target, RateFloor(fHardFork), RateLimit(fHardFork))
  }

  /** The reward for spending `nCoinAge` coin-days: the yearly rate spread over 365 and 8/33 days. */
  function Reward(fHardFork: bool, targetLimit: int, target: int, nCoinAge: nat): int {
    Rate(fHardFork, targetLimit, target) * nCoinAge * 33 / (365 * 33 + 8)
  }

  method GetProofOfStakeReward(fHardFork: bool, targetLimit: int, target: int, nCoinAge: nat) returns (nSubsidy: int)
    ensures nSubsidy == Reward(fHardFork, targetLimit, target, nCoinAge)
  {
    hide Above;
    var limit := RateLimit(fHardFork);
    var bnLowerBound := RateFloor(fHardFork);
    var bnUpperBound := limit;
    while bnLowerBound + CENT <= bnUpperBound
      invariant 0 <= bnLowerBound <= bnUpperBound <= limit
      invariant Rate(fHardFork, targetLimit, target) == Bisect(limit, targetLimit, target, bnLowerBound, bnUpperBound)
      decreases bnUpperBound - bnLowerBound
    {
      var bnMidValue := (bnLowerBound + bnUpperBound) / 2;
      if Above(limit, targetLimit, target, bnMidValue) {
        bnUpperBound := bnMidValue;
      } else {
        bnLowerBound := bnMidValue;
      }
    }
    var nRewardCoinYear := if bnUpperBound < limit then bnUpperBound else limit;
    nSubsidy := nRewardCoinYear * nCoinAge * 33 / (365 * 33 + 8);
  }

  // ----- how close the rate is to the curve ---------------------------------------------------------------------

  lemma {:induction false} BisectBrackets(limit: int, targetLimit: int, target: int, lower: int, upper: int) returns (below: int)
    requires lower <= upper
    ensures var r := Bisect(limit, targetLimit, target, lower, upper);
      && (r < upper ==> Above(limit, targetLimit, target, r))
      && lower <= below <= r < below + CENT && (below > lower ==> !Above(limit, targetLimit, target, below))
    decreases upper - lower
  {
    hide Above;
    if lower + CENT > upper {
      below := lower;
    } else {
      var mid := (lower + upper) / 2;
      if Above(limit, targetLimit, target, mid) {
        below := BisectBrackets(limit, targetLimit, target, lower, mid);
      } else {
        below := BisectBrackets(limit, targetLimit, target, mid, upper);
      }
    }
  }

  lemma ProductGrows(a: int, b: int, c: int, d: int)
    requires 0 <= a <= b && 0 <= c <= d
    ensures 0 <= a * c <= b * d
  {
    assert a * c <= b * c by { assert (b - a) * c >= 0; }
    assert b * c <= b * d by { assert b * (d - c) >= 0; }
  }

  lemma FourthGrows(x: int, y: int)
    requires 0 <= x <= y
    ensures 0 <= Fourth(x) <= Fourth(y)
  {
    ProductGrows(x, y, x, y);
    ProductGrows(x * x, y * y, x, y);
    ProductGrows(x * x * x, y * y * y, x, y);
  }

  /** The curve separates the rates: above a rate that is above it, all are. */
  lemma AboveGrows(limit: int, targetLimit: int, target: int, x: int, y: int)
    requires 0 <= x <= y && targetLimit >= 0 && Above(limit, targetLimit, target, x)
    ensures Above(limit, targetLimit, target, y)
  {
    FourthGrows(x, y);
    ProductGrows(Fourth(x), Fourth(y), targetLimit, targetLimit);
  }

  /** The rate is between one and thirteen per cent of a coin, after the fork between four and fifty-two, at
      most a cent above the curve (r / limit)^4 == target / targetLimit or within a cent of the floor, and
      unless it is the cap it is above the curve. */
  lemma RateWithinACent(fHardFork: bool, targetLimit: int, target: int)
    requires targetLimit >= 0
    ensures var r, floor, limit := Rate(fHardFork, targetLimit, target), if fHardFork then 40_000 else 10_000, if fHardFork then 520_000 else 130_000;
      && floor <= r <= limit
      && (r < limit ==> r * r * r * r * targetLimit > limit * limit * limit * limit * target)
      && (r - 10_000 >= floor ==>
            (r - 10_000) * (r - 10_000) * (r - 10_000) * (r - 10_000) * targetLimit <= limit * limit * limit * limit * target)
  {
    RateBracketed(fHardFork, targetLimit, target);
    hide Rate;
  }

  lemma RateBracketed(fHardFork: bool, targetLimit: int, target: int)
    requires targetLimit >= 0
    ensures var r, limit := Rate(fHardFork, targetLimit, target), RateLimit(fHardFork);
      && RateFloor(fHardFork) <= r <= limit
      && (r < limit ==> Above(limit, targetLimit, target, r))
      && (r - CENT >= RateFloor(fHardFork) ==> !Above(limit, targetLimit, target, r - CENT))
  {
    hide Above;
    var limit, floor := RateLimit(fHardFork), RateFloor(fHardFork);
    var r := Rate(fHardFork, targetLimit, target);
    var below := BisectBrackets(limit, targetLimit, target, floor, limit);
    if r - CENT >= floor && Above(limit, targetLimit, target, r - CENT) {
      AboveGrows(limit, targetLimit, target, r - CENT, below);
    }
  }

  /** An easier target never lowers the rate. */
  lemma {:induction false} BisectMonotone(limit: int, targetLimit: int, t: int, t': int, lower: int, upper: int)
    requires lower <= upper && t <= t' && limit >= 0
    ensures Bisect(limit, targetLimit, t, lower, upper) <= Bisect(limit, targetLimit, t', lower, upper)
    decreases upper - lower
  {
    hide Fourth;
    if lower + CENT <= upper {
      var mid := (lower + upper) / 2;
      EasierTarget(limit, t, t');
      if Above(limit, targetLimit, t', mid) {
        BisectMonotone(limit, targetLimit, t, t', lower, mid);
      } else if !Above(limit, targetLimit, t, mid) {
        BisectMonotone(limit, targetLimit, t, t', mid, upper);
      }
    }
  }

  lemma EasierTarget(limit: int, t: int, t': int)
    requires limit >= 0 && t <= t'
    ensures Fourth(limit) * t <= Fourth(limit) * t'
  {
    FourthGrows(0, limit);
    assert Fourth(limit) * (t' - t) >= 0;
  }

  /** The reward never falls when the target gets easier or more coin age is spent, and never exceeds
      the cap's. */
  lemma RewardMonotone(fHardFork: bool, targetLimit: int, t: int, t': int, age: nat, age': nat)
    requires t <= t' && age <= age' && targetLimit >= 0
    ensures 0 <= Reward(fHardFork, targetLimit, t, age) <= Reward(fHardFork, targetLimit, t', age')
    ensures Reward(fHardFork, targetLimit, t, age) <= RateLimit(fHardFork) * age * 33 / (365 * 33 + 8)
  {
    hide Above, Bisect;
    var limit, floor := RateLimit(fHardFork), RateFloor(fHardFork);
    var r, r' := Rate(fHardFork, targetLimit, t), Rate(fHardFork, targetLimit, t');
    BisectMonotone(limit, targetLimit, t, t', floor, limit);
    RateBracketed(fHardFork, targetLimit, t);
    ProductGrows(r, r', age, age');
    ProductGrows(r, limit, age, age);
    QuotientGrows(r * age * 33, r' * age' * 33);
    QuotientGrows(r * age * 33, limit * age * 33);
  }

  lemma QuotientGrows(a: int, b: int)
    requires 0 <= a <= b
    ensures 0 <= a / (365 * 33 + 8) <= b / (365 * 33 + 8)
  {
  }
}
