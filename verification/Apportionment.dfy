/**
 How the route-table manager divides subnets among regions in proportion to their weights
 (UpdateWeights in control-plane-04/controlplane/routetable/manager.go).

 With n subnets in all, a region of weight w has the quota w * n, asks for the quota rounded, and is granted
 what is left of that.  The bounds are proved between any asks and quotas that are close to each other.
 */
module Apportionment {
  import opened RealArithmetic

  /** Go's math.Round: to the nearest integer, halves away from zero. */
  function Round(x: real): int {
    if x >= 0.0 then (x + 0.5).Floor else -(0.5 - x).Floor
  }

  /** Rounding is symmetric, and exact for halves only away from zero. */
  lemma RoundIsSymmetric(x: real)
    ensures Round(-x) == -Round(x)
    ensures x >= 0.0 ==> -0.5 < Round(x) as real - x <= 0.5
  {
  }

  function Quota(weight: real, n: nat): real { weight * n as real }

  /** How many subnets a region asks for: its quota rounded, but at least one if the weight is positive. */
  function Wanted(weight: real, n: nat): int {
    var count := Round(Quota(weight, n));
    if count == 0 && weight > 0.0 then 1 else count
  }

  function Asks(weights: seq<real>, n: nat): seq<int> {
    seq(|weights|, i requires 0 <= i < |weights| => Wanted(weights[i], n))
  }

  function Quotas(weights: seq<real>, n: nat): seq<real> {
    seq(|weights|, i requires 0 <= i < |weights| => Quota(weights[i], n))
  }

  /** What a region gets when `taken` of the n subnets are gone. */
  function Granted(wanted: int, n: nat, taken: nat): nat
    requires taken <= n
  {
    if wanted <= 0 then 0 else if wanted <= n - taken then wanted else n - taken
  }

  /** How many subnets the first i regions get. */
  function Taken(asks: seq<int>, n: nat, i: nat): (t: nat)
    requires i <= |asks|
    ensures t <= n
  {
    if i == 0 then 0 else Taken(asks, n, i - 1) + Granted(asks[i - 1], n, Taken(asks, n, i - 1))
  }

  function Share(asks: seq<int>, n: nat, i: nat): nat
    requires i < |asks|
  {
    Granted(asks[i], n, Taken(asks, n, i))
  }

  /** A region gets what it asks for, unless with it the subnets are used up; then it gets all that were left. */
  lemma ShareIsAskedOrRest(asks: seq<int>, n: nat, i: nat)
    requires i < |asks|
    ensures Share(asks, n, i) == (if asks[i] < 0 then 0 else asks[i])
         || (Share(asks, n, i) < asks[i] && Taken(asks, n, i + 1) == n && Share(asks, n, i) == n - Taken(asks, n, i))
    ensures Taken(asks, n, i + 1) == Taken(asks, n, i) + Share(asks, n, i)
  {
  }

  lemma {:induction false} TakenGrows(asks: seq<int>, n: nat, i: nat, j: nat)
    requires i <= j <= |asks|
    ensures Taken(asks, n, i) <= Taken(asks, n, j)
  {
    if i < j {
      TakenGrows(asks, n, i, j - 1);
    }
  }

  function Total(xs: seq<real>): real {
    if xs == [] then 0.0 else Total(xs[..|xs| - 1]) + xs[|xs| - 1]
  }

  lemma {:induction false} TotalGrows(xs: seq<real>, i: nat)
    requires i <= |xs| && forall k :: 0 <= k < |xs| ==> xs[k] >= 0.0
    ensures Total(xs[..i]) <= Total(xs)
  {
    if i == |xs| {
      assert xs[..i] == xs;
    } else {
      TotalGrows(xs[..|xs| - 1], i);
      assert xs[..|xs| - 1][..i] == xs[..i];
    }
  }

  // ----- asks near quotas -----

  predicate Near(asks: seq<int>, quotas: seq<real>) {
    |asks| == |quotas| &&
    forall i :: 0 <= i < |asks| ==> quotas[i] >= 0.0 && quotas[i] - 0.5 <= asks[i] as real < quotas[i] + 1.0
  }

  lemma OneMoreGranted(taken: nat, wanted: int, n: nat, i: nat, before: real, quota: real)
    requires taken <= n && quota >= 0.0 && quota - 0.5 <= wanted as real < quota + 1.0
    requires taken as real <= before + i as real
    requires taken == n || taken as real >= before - i as real / 2.0
    ensures var t := taken + Granted(wanted, n, taken);
            && t as real <= before + quota + (i + 1) as real
            && (t == n || t as real >= before + quota - (i + 1) as real / 2.0)
  {
  }

  /** Together the first i regions get at most i more than their quotas; and until the subnets run out
      they get at least half of i less. */
  lemma {:induction false} TakenNearQuotas(asks: seq<int>, quotas: seq<real>, n: nat, i: nat)
    requires Near(asks, quotas) && i <= |asks|
    ensures Taken(asks, n, i) as real <= Total(quotas[..i]) + i as real
    ensures Taken(asks, n, i) == n || Taken(asks, n, i) as real >= Total(quotas[..i]) - i as real / 2.0
  {
    if i > 0 {
      TakenNearQuotas(asks, quotas, n, i - 1);
      assert quotas[..i][..i - 1] == quotas[..i - 1];
      OneMoreGranted(Taken(asks, n, i - 1), asks[i - 1], n, i - 1, Total(quotas[..i - 1]), quotas[i - 1]);
    }
  }

  function Excess(x: real): real { if x > 0.0 then x else 0.0 }

  function AtLeastHalf(i: nat): real { if i == 0 then 0.5 else i as real }

  /** One grant against its quota, `before` and `all` being the quotas of the earlier and of all regions. */
  lemma GrantedNear(taken: nat, wanted: int, n: nat, i: nat, before: real, quota: real, all: real)
    requires taken <= n && quota >= 0.0 && quota - 0.5 <= wanted as real < quota + 1.0
    requires taken as real <= before + i as real && before + quota <= all
    ensures Granted(wanted, n, taken) as real < quota + 1.0
    ensures Granted(wanted, n, taken) as real >= quota - AtLeastHalf(i) - Excess(all - n as real)
  {
    if wanted <= 0 {
      assert quota <= 0.5 <= AtLeastHalf(i);
    } else if wanted <= n - taken {
      assert AtLeastHalf(i) >= 0.5;
    } else {
      assert (n - taken) as real >= n as real - before - i as real;
      assert n as real - before >= quota - (all - n as real);
      assert i as real <= AtLeastHalf(i);
    }
  }

  /** What the region at position i gets is less than one more than its quota, and at most max(i, 1/2) and
      the excess of all quotas over the subnets less. */
  lemma ShareNearQuota(asks: seq<int>, quotas: seq<real>, n: nat, i: nat)
    requires Near(asks, quotas) && i < |asks|
    ensures Share(asks, n, i) as real < quotas[i] + 1.0
    ensures Share(asks, n, i) as real >= quotas[i] - AtLeastHalf(i) - Excess(Total(quotas) - n as real)
  {
    TakenNearQuotas(asks, quotas, n, i);
    TotalGrows(quotas, i + 1);
    assert quotas[..i + 1][..i] == quotas[..i];
    GrantedNear(Taken(asks, n, i), asks[i], n, i, Total(quotas[..i]), quotas[i], Total(quotas));
  }

  // ----- weights -----

  lemma RoundedNear(quota: real)
    requires quota >= 0.0
    ensures quota - 0.5 <= Round(quota) as real <= quota + 0.5 && Round(quota) >= 0
  {
  }

  /** A region asks for less than one more, and for at most half less, than its quota. */
  lemma WantedNearQuota(weight: real, n: nat)
    requires weight >= 0.0 && n > 0
    ensures Quota(weight, n) >= 0.0
    ensures Quota(weight, n) - 0.5 <= Wanted(weight, n) as real < Quota(weight, n) + 1.0
  {
    var quota := Quota(weight, n);
    ProductSign(weight, n as real);
    RoundedNear(quota);
  }

  /** What a region asks for, exactly: the whole number nearest to its quota, the upper of two, unless that is
      zero and the weight is not; then one. */
  lemma WantedIsNearest(weight: real, n: nat)
    requires weight >= 0.0 && n > 0
    ensures if 0.0 < Quota(weight, n) < 0.5 then Wanted(weight, n) == 1
            else -0.5 < Wanted(weight, n) as real - Quota(weight, n) <= 0.5
    ensures Wanted(weight, n) == 0 <==> weight == 0.0
  {
    var quota := Quota(weight, n);
    ProductSign(weight, n as real);
    RoundedIsNearest(quota);
  }

  lemma RoundedIsNearest(quota: real)
    requires quota >= 0.0
    ensures -0.5 < Round(quota) as real - quota <= 0.5
    ensures Round(quota) == 0 <==> quota < 0.5
  {
  }

  ghost predicate Weights(weights: seq<real>) {
    forall k :: 0 <= k < |weights| ==> weights[k] >= 0.0
  }

  lemma AsksAreNear(weights: seq<real>, n: nat)
    requires n > 0 && Weights(weights)
    ensures Near(Asks(weights, n), Quotas(weights, n))
  {
    var asks, quotas := Asks(weights, n), Quotas(weights, n);
    forall i | 0 <= i < |asks| ensures quotas[i] >= 0.0 && quotas[i] - 0.5 <= asks[i] as real < quotas[i] + 1.0 {
      WantedNearQuota(weights[i], n);
    }
  }

  lemma QuotaOfSum(x: real, y: real, n: nat)
    ensures Quota(x + y, n) == Quota(x, n) + Quota(y, n)
  {
    Distribute(n as real, x, y, x + y);
  }

  lemma {:induction false} QuotasAddUp(weights: seq<real>, n: nat)
    ensures Total(Quotas(weights, n)) == Quota(Total(weights), n)
  {
    if weights != [] {
      var before, last := weights[..|weights| - 1], weights[|weights| - 1];
      QuotasAddUp(before, n);
      assert Quotas(weights, n)[..|before|] == Quotas(before, n);
      QuotaOfSum(Total(before), last, n);
    }
  }

  /** What the region at sorted position i is granted: less than one more than its quota, and at most
      max(i, 1/2) less. */
  predicate NearQuota(granted: nat, quota: real, i: nat) {
    quota - AtLeastHalf(i) <= granted as real < quota + 1.0
  }

  /** Weights that add up to one are apportioned that closely ... */
  lemma SharesAreProportional(weights: seq<real>, n: nat, i: nat)
    requires n > 0 && i < |weights| && Weights(weights) && Total(weights) == 1.0
    ensures NearQuota(Share(Asks(weights, n), n, i), Quota(weights[i], n), i)
  {
    AsksAreNear(weights, n);
    ShareNearQuota(Asks(weights, n), Quotas(weights, n), n, i);
    QuotasAddUp(weights, n);
  }

  /** ... and at most half as many subnets as there are regions stay unassigned. */
  lemma FewAreLeftOver(weights: seq<real>, n: nat)
    requires n > 0 && Weights(weights) && Total(weights) == 1.0
    ensures (n - Taken(Asks(weights, n), n, |weights|)) as real <= |weights| as real / 2.0
  {
    AsksAreNear(weights, n);
    TakenNearQuotas(Asks(weights, n), Quotas(weights, n), n, |weights|);
    QuotasAddUp(weights, n);
    assert Quotas(weights, n)[..|weights|] == Quotas(weights, n);
  }

  /** For the weights that the manager's own check lets through, up to a twentieth off, the bounds are off
      by at most a twentieth of the subnets. */
  lemma SharesWithinTolerance(weights: seq<real>, n: nat, i: nat)
    requires n > 0 && i < |weights| && Weights(weights) && 0.95 <= Total(weights) <= 1.05
    ensures Quota(weights[i], n) - AtLeastHalf(i) - n as real / 20.0
         <= Share(Asks(weights, n), n, i) as real < Quota(weights[i], n) + 1.0
  {
    AsksAreNear(weights, n);
    ShareNearQuota(Asks(weights, n), Quotas(weights, n), n, i);
    QuotasAddUp(weights, n);
    QuotaWithinTolerance(Total(weights), n);
  }

  lemma QuotaWithinTolerance(total: real, n: nat)
    requires total <= 1.05
    ensures Quota(total, n) <= n as real + n as real / 20.0
  {
    ProductGrows(n as real, total, 1.05);
    Distribute(n as real, 1.0, 0.05, 1.05);
  }
}
