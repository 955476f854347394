/**
 The jitter that the aggregator reports (ebpf-detection-02/agent/internal/telemetry/aggregator.go, toMetric):
 the root of the mean squared deviation, not from the average of the samples but from the last of them.
 */
module Jitter {
  import opened RealArithmetic
  import opened MapSums

  function Square(x: real): real { x * x }

  function SquaredDeviations(samples: seq<nat>, mean: real): real {
    if samples == [] then 0.0
    else SquaredDeviations(samples[..|samples| - 1], mean) + Square(samples[|samples| - 1] as real - mean)
  }

  lemma {:induction false} DeviationsAreNonnegative(samples: seq<nat>, mean: real)
    ensures SquaredDeviations(samples, mean) >= 0.0
  {
    if samples != [] {
      DeviationsAreNonnegative(samples[..|samples| - 1], mean);
      SquareIsNonnegative(samples[|samples| - 1] as real - mean);
    }
  }

  lemma SquareIsNonnegative(x: real)
    ensures Square(x) >= 0.0
  {
  }

  /** The mean squared deviation from a given value. */
  function Spread(samples: seq<nat>, mean: real): (v: real)
    requires samples != []
    ensures v >= 0.0
  {
    DeviationsAreNonnegative(samples, mean);
    QuotientSign(SquaredDeviations(samples, mean), |samples| as real);
    SquaredDeviations(samples, mean) / |samples| as real
  }

  ghost predicate IsFloorSqrt(x: real, r: nat) {
    Squared(r) <= x < Squared(r + 1)
  }

  function Squared(n: nat): real { Square(n as real) }

  lemma SquaresGrow(m: nat, n: nat)
    requires m <= n
    ensures Squared(m) <= Squared(n)
  {
    ProductsOrdered(m as real, n as real, m as real, n as real);
  }

  lemma SquareExceeds(x: real, n: nat)
    requires n >= 1 && x < n as real
    ensures x < Squared(n)
  {
    ProductGrows(n as real, 1.0, n as real);
  }

  /** The square root without its fraction. */
  function FloorSqrt(x: real): (r: nat)
    requires x >= 0.0
    ensures IsFloorSqrt(x, r)
  {
    SquareExceeds(x, x.Floor + 1);
    FloorSqrtUpTo(x, x.Floor)
  }

  function FloorSqrtUpTo(x: real, n: nat): (r: nat)
    requires 0.0 <= x < Squared(n + 1)
    ensures IsFloorSqrt(x, r)
  {
    if n == 0 || Squared(n) <= x then n else FloorSqrtUpTo(x, n - 1)
  }

  lemma RootsAreOrdered(x: real, y: real, r: nat, s: nat)
    requires x <= y && IsFloorSqrt(x, r) && IsFloorSqrt(y, s)
    ensures r <= s
  {
    if r > s {
      SquaresGrow(s + 1, r);
      assert false;
    }
  }

  function ReportedJitter(samples: seq<nat>, mean: real): nat
    requires samples != []
  {
    FloorSqrt(Spread(samples, mean))
  }

  // ----- against the true variance -----

  function SumOf(samples: seq<nat>): real {
    if samples == [] then 0.0 else SumOf(samples[..|samples| - 1]) + samples[|samples| - 1] as real
  }

  function Average(samples: seq<nat>): real
    requires samples != []
  {
    SumOf(samples) / |samples| as real
  }

  function Deviations(samples: seq<nat>, mean: real): real {
    if samples == [] then 0.0 else Deviations(samples[..|samples| - 1], mean) + (samples[|samples| - 1] as real - mean)
  }

  lemma {:induction false} DeviationsFromSum(samples: seq<nat>, mean: real)
    ensures Deviations(samples, mean) == SumOf(samples) - Repeat(|samples|, mean)
  {
    if samples != [] {
      DeviationsFromSum(samples[..|samples| - 1], mean);
    }
  }

  /** Deviations from the average cancel out. */
  lemma AverageBalances(samples: seq<nat>)
    requires samples != []
    ensures Deviations(samples, Average(samples)) == 0.0
  {
    DeviationsFromSum(samples, Average(samples));
    RepeatIsProduct(|samples|, Average(samples));
    QuotientTimes(SumOf(samples), |samples| as real);
  }

  /** Twice the product: the middle term of the square of a sum. */
  function Cross(d: real, u: real): real { 2.0 * d * u }

  lemma SquareOfSum(u: real, d: real)
    ensures Square(u + d) == Square(u) + Cross(d, u) + Square(d)
  {
    Distribute(u + d, u, d, u + d);
    Distribute(u, u, d, u + d);
    Distribute(d, u, d, u + d);
  }

  lemma CrossAdds(d: real, x: real, y: real)
    ensures Cross(d, x + y) == Cross(d, x) + Cross(d, y)
  {
    Distribute(2.0 * d, x, y, x + y);
  }

  lemma CrossOfZero(d: real)
    ensures Cross(d, 0.0) == 0.0
  {
  }

  lemma {:induction false} DeviationsShift(samples: seq<nat>, a: real, c: real)
    ensures SquaredDeviations(samples, c)
         == SquaredDeviations(samples, a) + Cross(a - c, Deviations(samples, a)) + Repeat(|samples|, Square(a - c))
  {
    if samples == [] {
      CrossOfZero(a - c);
    } else {
      var before, x := samples[..|samples| - 1], samples[|samples| - 1] as real;
      DeviationsShift(before, a, c);
      assert x - c == (x - a) + (a - c);
      SquareOfSum(x - a, a - c);
      CrossAdds(a - c, Deviations(before, a), x - a);
    }
  }

  /** The spread around any value is the variance plus the squared distance of that value from the average:
      measured from the last sample, it is never below the variance, and equal to it exactly when the last
      sample is the average. */
  lemma SpreadExceedsVariance(samples: seq<nat>, c: real)
    requires samples != []
    ensures var avg := Average(samples);
            && Spread(samples, c) == Spread(samples, avg) + Square(avg - c)
            && Spread(samples, c) >= Spread(samples, avg)
            && (Spread(samples, c) == Spread(samples, avg) <==> c == avg)
  {
    DeviationsFromAverage(samples, c);
    var square := SquareSign(Average(samples) - c);
  }

  lemma DeviationsFromAverage(samples: seq<nat>, c: real)
    requires samples != []
    ensures Spread(samples, c) == Spread(samples, Average(samples)) + Square(Average(samples) - c)
  {
    var avg := Average(samples);
    DeviationsShift(samples, avg, c);
    AverageBalances(samples);
    CrossOfZero(avg - c);
    MeanOfSum(SquaredDeviations(samples, avg), |samples|, Square(avg - c));
  }

  lemma MeanOfSum(total: real, n: nat, extra: real)
    requires n > 0
    ensures (total + Repeat(n, extra)) / n as real == total / n as real + extra
  {
    RepeatIsProduct(n, extra);
    QuotientOfSum(total, Repeat(n, extra), n as real);
    QuotientIs(Repeat(n, extra), n as real, extra);
  }

  lemma SquareSign(x: real) returns (square: real)
    ensures square == Square(x) && (if x == 0.0 then square == 0.0 else square > 0.0)
  {
    if x > 0.0 {
      square := SignedProduct(x, x);
    } else if x < 0.0 {
      square := SignedProduct(x, -x);
      square := -square;
    } else {
      square := 0.0;
    }
  }

  lemma SignedProduct(x: real, y: real) returns (product: real)
    requires y > 0.0
    ensures product == x * y && (x > 0.0 ==> product > 0.0) && (x < 0.0 ==> product < 0.0)
  {
    product := x * y;
  }

  lemma SquareOfNegative(x: real)
    ensures Square(-x) == Square(x)
  {
  }

  /** So the jitter reported is never below the standard deviation. */
  lemma JitterNeverUnderstates(samples: seq<nat>, c: real)
    requires samples != []
    ensures ReportedJitter(samples, c) >= FloorSqrt(Spread(samples, Average(samples)))
  {
    SpreadExceedsVariance(samples, c);
    var least, given := Spread(samples, Average(samples)), Spread(samples, c);
    RootsAreOrdered(least, given, FloorSqrt(least), FloorSqrt(given));
  }

  lemma {:induction false} DeviationsAreBounded(samples: seq<nat>, mean: real, most: real)
    requires 0.0 <= mean <= most && forall i :: 0 <= i < |samples| ==> samples[i] as real <= most
    ensures SquaredDeviations(samples, mean) <= Repeat(|samples|, Square(most))
  {
    if samples != [] {
      DeviationsAreBounded(samples[..|samples| - 1], mean, most);
      SquareBound(samples[|samples| - 1] as real - mean, most);
    }
  }

  lemma SquareBound(d: real, most: real)
    requires -most <= d <= most
    ensures Square(d) <= Square(most)
  {
    SquareOfNegative(d);
    var distance := if d >= 0.0 then d else -d;
    ProductsOrdered(distance, most, distance, most);
  }

  /** Samples of up to `most` microseconds have a jitter of up to that much, so cutting it to the 32 bits
      of a sample never changes it. */
  lemma JitterFits(samples: seq<nat>, mean: nat, most: nat)
    requires samples != [] && mean <= most && forall i :: 0 <= i < |samples| ==> samples[i] <= most
    ensures ReportedJitter(samples, mean as real) <= most
  {
    DeviationsAreBounded(samples, mean as real, most as real);
    MeanBound(SquaredDeviations(samples, mean as real), |samples|, Squared(most));
    RootIsBounded(Spread(samples, mean as real), ReportedJitter(samples, mean as real), most);
  }

  lemma RootIsBounded(x: real, r: nat, most: nat)
    requires IsFloorSqrt(x, r) && x <= Squared(most)
    ensures r <= most
  {
    SquaresGrowStrictly(most);
    if r > most {
      SquaresGrow(most + 1, r);
      assert false;
    }
  }

  lemma SquaresGrowStrictly(n: nat)
    ensures Squared(n) < Squared(n + 1)
  {
    assert (n + 1) as real == n as real + 1.0;
    SquareOfSum(n as real, 1.0);
  }

  lemma MeanBound(total: real, n: nat, most: real)
    requires n > 0 && total <= Repeat(n, most)
    ensures total / n as real <= most
  {
    RepeatIsProduct(n, most);
    QuotientBound(total, n as real, most);
  }

  lemma QuotientBound(total: real, n: real, most: real)
    requires n > 0.0 && total <= n * most
    ensures total / n <= most
  {
    var q := total / n;
    assert q * n == total;
    assert (q - most) * n == q * n - most * n;
    ProductSign(q - most, n);
  }
}
