/**
 The routing bandit (ml-intelligence-03/ml/models/bandit.py): what an observation does to a region's
 Beta(alpha, beta) arm, and the floor under the recommended weights. Beta sampling and the softmax are left
 out; the weights they produce are an argument.
 */
module Bandit {
  import opened RealArithmetic
  import opened MapSums

  const MINIMUM_WEIGHT := 0.05
  const RTT_IMPROVEMENT_THRESHOLD := 0.05

  // ----- one arm -----

  datatype Arm = Arm(alpha: real, beta: real, decisions: nat, rewards: real, lastRttUs: real)

  const FRESH_ARM := Arm(1.0, 1.0, 0, 0.0, 0.0)

  datatype Observation = Observation(oldRttUs: real, newRttUs: real)

  function Reward(o: Observation): real {
    if o.oldRttUs <= 0.0 then 0.5
    else if o.newRttUs <= o.oldRttUs * (1.0 - RTT_IMPROVEMENT_THRESHOLD) then 1.0
    else if o.newRttUs > o.oldRttUs * 1.1 then 0.0
    else Max(0.0, 1.0 - (o.newRttUs - o.oldRttUs) / Max(o.oldRttUs, 1.0))
  }

  /** An improvement too small to count as a success. */
  predicate SlightlyBetter(o: Observation) {
    o.oldRttUs > 0.0 && o.oldRttUs * 0.95 < o.newRttUs < o.oldRttUs
  }

  function Rewarded(arm: Arm, reward: real): Arm {
    Arm(arm.alpha + reward, arm.beta + (1.0 - reward), arm.decisions + 1, arm.rewards + reward, arm.lastRttUs)
  }

  function Observed(arm: Arm, o: Observation): Arm {
    Rewarded(arm, Reward(o)).(lastRttUs := o.newRttUs)
  }

  /** Rewards lie in [0, 1.05), and exceed the promised 1 exactly for slight improvements. */
  lemma RewardRange(o: Observation)
    ensures 0.0 <= Reward(o) < 1.05
    ensures Reward(o) > 1.0 <==> SlightlyBetter(o)
  {
  }

  /** The reward in full: one for an improvement of five percent or more, a half without an old value, and
      nothing exactly for a deterioration of more than ten percent; in between it is at least 0.9, and short of
      one by the deterioration in parts of the old value, or of one microsecond if that is more. */
  lemma RewardInFull(o: Observation)
    ensures o.oldRttUs <= 0.0 ==> Reward(o) == 0.5
    ensures o.oldRttUs > 0.0 && o.newRttUs <= 0.95 * o.oldRttUs ==> Reward(o) == 1.0
    ensures Reward(o) == 0.0 <==> o.oldRttUs > 0.0 && o.newRttUs > 1.1 * o.oldRttUs
    ensures o.oldRttUs > 0.0 && 0.95 * o.oldRttUs < o.newRttUs <= 1.1 * o.oldRttUs ==>
              Reward(o) >= 0.9 && Times(1.0 - Reward(o), if o.oldRttUs < 1.0 then 1.0 else o.oldRttUs) == o.newRttUs - o.oldRttUs
  {
    if o.oldRttUs > 0.0 && 0.95 * o.oldRttUs < o.newRttUs <= 1.1 * o.oldRttUs {
      Shortfall(o.newRttUs - o.oldRttUs, Max(o.oldRttUs, 1.0));
    }
  }

  lemma Shortfall(more: real, unit: real)
    requires unit > 0.0 && more <= 0.1 * unit
    ensures more / unit <= 0.1 && Times(more / unit, unit) == more
  {
    QuotientTimes(more, unit);
    TimesReflects(more / unit, 0.1, unit);
  }

  /** From the old value on, the reward never rises with the new one. */
  lemma RewardNeverRises(before: real, better: real, worse: real)
    requires 0.0 < before <= better <= worse
    ensures Reward(Observation(before, worse)) <= Reward(Observation(before, better))
  {
    var unit := Max(before, 1.0);
    RewardInFull(Observation(before, better));
    RewardInFull(Observation(before, worse));
    if worse <= 1.1 * before {
      TimesReflects(1.0 - Reward(Observation(before, better)), 1.0 - Reward(Observation(before, worse)), unit);
    } else {
      RewardRange(Observation(before, better));
    }
  }

  function ObservedAll(arm: Arm, os: seq<Observation>): Arm {
    if os == [] then arm else Observed(ObservedAll(arm, os[..|os| - 1]), os[|os| - 1])
  }

  function Rewards(os: seq<Observation>): real {
    if os == [] then 0.0 else Rewards(os[..|os| - 1]) + Reward(os[|os| - 1])
  }

  /** What any run of observations keeps: alpha + beta = 2 + decisions, alpha - 1 is the sum of the rewards,
      and beta falls by less than 0.05 a step. */
  lemma {:induction false} ArmBooks(os: seq<Observation>)
    ensures var arm := ObservedAll(FRESH_ARM, os);
            && arm.decisions == |os|
            && arm.alpha + arm.beta == 2.0 + |os| as real
            && arm.alpha == 1.0 + arm.rewards >= 1.0 && arm.rewards == Rewards(os)
            && (os != [] ==> arm.lastRttUs == os[|os| - 1].newRttUs)
            && (os == [] || arm.beta > 1.0 - 0.05 * |os| as real)
  {
    if os != [] {
      ArmBooks(os[..|os| - 1]);
      RewardRange(os[|os| - 1]);
    }
  }

  /** Without slight improvements both parameters stay at least 1, as Beta sampling wants. */
  lemma {:induction false} ParametersStayAboveOne(os: seq<Observation>)
    requires forall i :: 0 <= i < |os| ==> !SlightlyBetter(os[i])
    ensures ObservedAll(FRESH_ARM, os).alpha >= 1.0 && ObservedAll(FRESH_ARM, os).beta >= 1.0
  {
    if os != [] {
      ParametersStayAboveOne(os[..|os| - 1]);
      RewardRange(os[|os| - 1]);
    }
  }

  const SLIGHT := Observation(1000.0, 952.0)

  lemma {:induction false} SlightImprovements(n: nat)
    ensures ObservedAll(FRESH_ARM, seq(n, _ => SLIGHT)).beta == 1.0 - 0.048 * n as real
  {
    if n > 0 {
      SlightImprovements(n - 1);
      assert seq(n, _ => SLIGHT)[..n - 1] == seq(n - 1, _ => SLIGHT);
    }
  }

  ghost predicate BetaIsPositive(os: seq<Observation>) { ObservedAll(FRESH_ARM, os).beta > 0.0 }

  /** The second Beta parameter is positive after every run of n observations exactly up to n = 20; after
      21 it can be negative, and sampling the arm then fails. */
  lemma SamplingIsSafeUpToTwenty(n: nat)
    ensures (forall os :: |os| == n ==> BetaIsPositive(os)) <==> n <= 20
  {
    if n <= 20 {
      forall os: seq<Observation> | |os| == n ensures BetaIsPositive(os) {
        ArmBooks(os);
      }
    } else {
      SlightImprovements(n);
      var os := seq(n, _ => SLIGHT);
      assert |os| == n && !BetaIsPositive(os);
    }
  }

  class RegionArm {
    var alpha: real
    var beta: real
    var totalDecisions: nat
    var totalRewards: real
    var lastRttUs: real

    constructor ()
      ensures View() == FRESH_ARM
    {
      alpha, beta, totalDecisions, totalRewards, lastRttUs := 1.0, 1.0, 0, 0.0, 0.0;
    }

    ghost function View(): Arm
      reads this
    {
      Arm(alpha, beta, totalDecisions, totalRewards, lastRttUs)
    }

    method Update(reward: real)
      modifies this
      ensures View() == Rewarded(old(View()), reward)
    {
      alpha := alpha + reward;
      beta := beta + (1.0 - reward);
      totalDecisions := totalDecisions + 1;
      totalRewards := totalRewards + reward;
    }
  }

  // ----- the floor -----

  function Clipped(weights: map<string, real>): map<string, real> {
    map r | r in weights :: Max(weights[r], MINIMUM_WEIGHT)
  }

  lemma ClippedTotal(weights: map<string, real>)
    requires weights != map[]
    ensures Sum(Clipped(weights)) > 0.0
  {
    var r :| r in weights;
    SumSplit(Clipped(weights), r);
    SumIsPositive(Clipped(weights) - {r});
  }

  ghost function Floored(weights: map<string, real>): map<string, real> {
    if weights == map[] then map[]
    else
      ClippedTotal(weights);
      var total := Sum(Clipped(weights));
      map r | r in weights :: Clipped(weights)[r] / total
  }

  /** What the softmax hands over. */
  ghost predicate Shares(weights: map<string, real>) {
    weights != map[] && Sum(weights) == 1.0 && forall r :: r in weights ==> weights[r] >= 0.0
  }

  /** Clipping adds at most the minimum for every region but one. */
  lemma {:induction false} ClippedGrows(weights: map<string, real>)
    requires weights != map[] && forall r :: r in weights ==> weights[r] >= 0.0
    ensures 0.0 <= Sum(weights) <= Sum(Clipped(weights))
    ensures Sum(Clipped(weights)) <= Max(Sum(weights), MINIMUM_WEIGHT) + Repeat(|weights| - 1, MINIMUM_WEIGHT)
    decreases |weights|
  {
    var r :| r in weights;
    var rest := weights - {r};
    SumSplit(weights, r);
    ClippedSplit(weights, r);
    if rest == map[] {
      assert Clipped(rest) == map[];
    } else {
      ClippedGrows(rest);
    }
  }

  lemma ClippedSplit(weights: map<string, real>, r: string)
    requires r in weights
    ensures Sum(Clipped(weights)) == Clipped(weights)[r] + Sum(Clipped(weights - {r}))
    ensures |weights - {r}| == |weights| - 1
  {
    SumSplit(Clipped(weights), r);
    assert Clipped(weights) - {r} == Clipped(weights - {r});
  }

  /** The floored weights stand to each other as the weights do that are raised to the floor ... */
  lemma FlooredInProportion(weights: map<string, real>, a: string, b: string)
    requires a in weights && b in weights
    ensures Times(Floored(weights)[a], if weights[b] < 0.05 then 0.05 else weights[b])
         == Times(Floored(weights)[b], if weights[a] < 0.05 then 0.05 else weights[a])
  {
    ClippedTotal(weights);
    QuotientsCross(Clipped(weights)[a], Clipped(weights)[b], Sum(Clipped(weights)));
  }

  /** ... add up to one ... */
  lemma FlooredAddUp(weights: map<string, real>)
    requires weights != map[]
    ensures Sum(Floored(weights)) == 1.0
  {
    ClippedTotal(weights);
    SumQuotient(Clipped(weights), Floored(weights), Sum(Clipped(weights)));
    QuotientOfSelf(Sum(Clipped(weights)));
  }

  /** ... in the order of the weights they were made from ... */
  lemma FloorKeepsOrder(weights: map<string, real>, a: string, b: string)
    requires a in weights && b in weights && weights[a] <= weights[b]
    ensures Floored(weights)[a] <= Floored(weights)[b]
  {
    ClippedTotal(weights);
    QuotientsOrdered(Clipped(weights)[a], Clipped(weights)[b], Sum(Clipped(weights)));
  }

  lemma QuotientsOrdered(x: real, y: real, d: real)
    requires d > 0.0 && x <= y
    ensures x / d <= y / d
  {
  }

  /** ... none below 0.05 / (1 + 0.05 (n - 1)). */
  lemma FloorBound(weights: map<string, real>, r: string)
    requires Shares(weights) && r in weights
    ensures Floored(weights)[r] >= MINIMUM_WEIGHT / (1.0 + MINIMUM_WEIGHT * (|weights| - 1) as real)
  {
    ClippedGrows(weights);
    ClippedTotal(weights);
    var floors := Floors(|weights| - 1);
    var total := Sum(Clipped(weights));
    ProductGrows(MINIMUM_WEIGHT, total, 1.0 + floors);
    ProductsOrdered(MINIMUM_WEIGHT, Clipped(weights)[r], 1.0 + floors, 1.0 + floors);
    CrossMultiply(Clipped(weights)[r], total, MINIMUM_WEIGHT, 1.0 + floors);
  }

  lemma Floors(n: nat) returns (floors: real)
    ensures floors == MINIMUM_WEIGHT * n as real == Repeat(n, MINIMUM_WEIGHT) >= 0.0
  {
    RepeatIsProduct(n, MINIMUM_WEIGHT);
    floors := Repeat(n, MINIMUM_WEIGHT);
  }

  /** The bound is met by a region left without any weight beside one that has it all. */
  lemma FloorBoundIsTight(regions: set<string>, best: string, r: string)
    requires best in regions && r in regions && r != best
    ensures var weights := OneTakesAll(regions, best);
            && Shares(weights)
            && Floored(weights)[r] == MINIMUM_WEIGHT / (1.0 + MINIMUM_WEIGHT * (|weights| - 1) as real)
  {
    var weights := OneTakesAll(regions, best);
    var floors := OneTakesAllTotals(regions, best);
    assert Clipped(weights)[r] == MINIMUM_WEIGHT;
  }

  lemma OneTakesAllTotals(regions: set<string>, best: string) returns (floors: real)
    requires best in regions
    ensures var weights := OneTakesAll(regions, best);
            && |weights| == |regions| && Shares(weights)
            && floors == MINIMUM_WEIGHT * (|regions| - 1) as real
            && Sum(Clipped(weights)) == 1.0 + floors
  {
    var weights := OneTakesAll(regions, best);
    var rest := weights - {best};
    assert weights.Keys == regions && rest.Keys == regions - {best};
    SumSplit(weights, best);
    SumBounds(rest, 0.0, 0.0);
    RepeatIsProduct(|rest|, 0.0);
    ClippedSplit(weights, best);
    assert Clipped(rest).Keys == rest.Keys;
    SumBounds(Clipped(rest), MINIMUM_WEIGHT, MINIMUM_WEIGHT);
    floors := Floors(|rest|);
  }

  function OneTakesAll(regions: set<string>, best: string): map<string, real> {
    map r | r in regions :: if r == best then 1.0 else 0.0
  }

  ghost predicate NoneBelow(weights: map<string, real>, least: real) {
    forall r :: r in weights ==> weights[r] >= least
  }

  /** The minimum weight is a bound on the output exactly when it was one on the input: the floor never
      lifts a region to its minimum. */
  lemma FloorHoldsIffIdle(weights: map<string, real>)
    requires Shares(weights)
    ensures NoneBelow(Floored(weights), MINIMUM_WEIGHT) <==> NoneBelow(weights, MINIMUM_WEIGHT)
    ensures NoneBelow(weights, MINIMUM_WEIGHT) ==> Floored(weights) == weights
  {
    var c := Clipped(weights);
    ClippedGrows(weights);
    if NoneBelow(weights, MINIMUM_WEIGHT) {
      assert c == weights;
      forall r | r in weights ensures Floored(weights)[r] == weights[r] {
        QuotientIs(weights[r], 1.0, weights[r]);
      }
      assert Floored(weights) == weights;
    } else {
      var r :| r in weights && weights[r] < MINIMUM_WEIGHT;
      var rest := weights - {r};
      SumSplit(weights, r);
      ClippedSplit(weights, r);
      if rest != map[] {
        ClippedGrows(rest);
      }
      QuotientShrinks(MINIMUM_WEIGHT, Sum(c));
      assert Floored(weights)[r] < MINIMUM_WEIGHT;
    }
  }

  lemma QuotientShrinks(x: real, d: real)
    requires x > 0.0 && d > 1.0
    ensures x / d < x
  {
    var q := x / d;
    assert q * d == x;
    QuotientSign(x, d);
    assert q * d - q == q * (d - 1.0);
    ProductSign(q, d - 1.0);
  }

  // ----- the bandit object -----

  type Arms = map<string, Arm>

  function ObservedIn(arms: Arms, region: string, o: Observation): Arms {
    if region in arms then arms[region := Observed(arms[region], o)] else arms
  }

  class NimbusMultiArmedBandit {
    var arms: map<string, RegionArm>

    ghost predicate Valid()
      reads this
    {
      forall r, q :: r in arms && q in arms && r != q ==> arms[r] != arms[q]
    }

    ghost function View(): Arms
      reads this, arms.Values
    {
      map r | r in arms :: arms[r].View()
    }

    constructor ()
      ensures Valid() && arms == map[]
    {
      arms := map[];
    }

    method AddRegion(region: string)
      requires Valid()
      modifies this
      ensures Valid()
      ensures old(arms.Values) <= arms.Values && fresh(arms.Values - old(arms.Values))
      ensures View() == if region in old(arms) then old(View()) else old(View())[region := FRESH_ARM]
    {
      if region !in arms {
        var arm := new RegionArm();
        ghost var before := arms;
        arms := arms[region := arm];
        assert forall r :: r in before ==> arms[r] == before[r];
        assert arms.Values == before.Values + {arm} by {
          assert arms[region] == arm;
        }
      }
    }

    method RemoveRegion(region: string)
      requires Valid()
      modifies this
      ensures Valid() && arms.Values <= old(arms.Values)
      ensures View() == old(View()) - {region}
    {
      if region in arms {
        arms := arms - {region};
      }
    }

    method Observe(region: string, o: Observation)
      requires Valid()
      modifies arms.Values
      ensures Valid()
      ensures View() == ObservedIn(old(View()), region, o)
    {
      if region !in arms {
        return;
      }
      var reward: real;
      if o.oldRttUs <= 0.0 {
        reward := 0.5;
      } else if o.newRttUs <= o.oldRttUs * (1.0 - RTT_IMPROVEMENT_THRESHOLD) {
        reward := 1.0;
      } else if o.newRttUs > o.oldRttUs * 1.1 {
        reward := 0.0;
      } else {
        reward := Max(0.0, 1.0 - (o.newRttUs - o.oldRttUs) / Max(o.oldRttUs, 1.0));
      }
      arms[region].Update(reward);
      arms[region].lastRttUs := o.newRttUs;
    }

    method ApplyMinimumWeight(weights: map<string, real>) returns (result: map<string, real>)
      ensures result == Floored(weights)
    {
      var clipped := Clipped(weights);
      var total := Total(clipped);
      if weights != map[] {
        ClippedTotal(weights);
      }
      result := map r | r in clipped :: clipped[r] / total;
    }
  }
}
