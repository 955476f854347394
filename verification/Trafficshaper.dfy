/**
 The adaptive traffic shaper (control-plane-04/controlplane/trafficshaper/shaper.go).

 A RegionWeight is the weight of one region and the course it is on.  SoftDecay, HardFailover, Ramp,
 Restore, Advised and Ticked say what one locked call does to it.  Weights, rates and periods are
 reals; periods are in seconds.
 */
module Trafficshaper {
  import opened Options
  import opened RealArithmetic
  import opened MapSums

  const FULL_WEIGHT := 1.0
  const SNAP := 0.001
  const ADVICE_PERIOD := 30.0
  const ADVICE_CEILING := 0.8

  datatype Config = Config(degradedDecayPeriod: real, recoveryRampPeriod: real, tickInterval: real, minimumWeight: real) {
    ghost predicate Sane() {
      tickInterval > 0.0 && 0.0 < minimumWeight < FULL_WEIGHT
    }
  }

  const DEFAULT_CONFIG := Config(120.0, 300.0, 5.0, 0.05)

  datatype RegionWeight = RegionWeight(current: real, target: real, ratePerSec: real, banditWeight: real, hardFail: bool)

  function Abs(x: real): real { if x < 0.0 then -x else x }

  function Min(x: real, y: real): real { if x < y then x else y }

  function SoftDecay(cfg: Config, rw: RegionWeight): RegionWeight {
    var aimed := rw.(target := cfg.minimumWeight, hardFail := false);
    if cfg.degradedDecayPeriod > 0.0
    then aimed.(ratePerSec := -(rw.current - cfg.minimumWeight) / cfg.degradedDecayPeriod)
    else aimed.(current := cfg.minimumWeight, ratePerSec := 0.0)
  }

  function HardFailover(cfg: Config, rw: RegionWeight): RegionWeight {
    rw.(current := cfg.minimumWeight, target := cfg.minimumWeight, ratePerSec := 0.0, hardFail := true)
  }

  function Ramp(cfg: Config, rw: RegionWeight): RegionWeight {
    var aimed := rw.(target := FULL_WEIGHT, hardFail := false);
    if cfg.recoveryRampPeriod > 0.0 && FULL_WEIGHT - rw.current > 0.0
    then aimed.(ratePerSec := (FULL_WEIGHT - rw.current) / cfg.recoveryRampPeriod)
    else aimed.(current := FULL_WEIGHT, ratePerSec := 0.0)
  }

  function Restore(rw: RegionWeight): RegionWeight {
    rw.(current := FULL_WEIGHT, target := FULL_WEIGHT, ratePerSec := 0.0, hardFail := false)
  }

  function Advised(cfg: Config, rw: RegionWeight, w: real): RegionWeight {
    var noted := rw.(banditWeight := w);
    if !rw.hardFail && rw.target == FULL_WEIGHT && w < ADVICE_CEILING then
      var target := Max(w, cfg.minimumWeight);
      noted.(target := target, ratePerSec := (target - rw.current) / ADVICE_PERIOD)
    else noted
  }

  function Forced(rw: RegionWeight, weight: real): RegionWeight {
    var current := Max(weight, 0.0);
    rw.(current := current, target := current, ratePerSec := 0.0, hardFail := weight <= 0.0)
  }

  /** What one tick adds to the weight, on its course. */
  function Shift(cfg: Config, rw: RegionWeight): real { Times(rw.ratePerSec, cfg.tickInterval) }

  /** The weight a tick moves to, before it decides whether to store it. */
  function Approached(current: real, shift: real, falling: bool, target: real): real {
    var clamped := if falling then Max(current + shift, target) else Min(current + shift, target);
    if Abs(clamped - target) < SNAP then target else clamped
  }

  function Moved(cfg: Config, rw: RegionWeight): real {
    Approached(rw.current, Shift(cfg, rw), rw.ratePerSec < 0.0, rw.target)
  }

  function Ticked(cfg: Config, rw: RegionWeight): RegionWeight {
    if rw.ratePerSec == 0.0 then rw
    else
      var next := Moved(cfg, rw);
      rw.(current := if Abs(next - rw.current) > SNAP then next else rw.current,
          ratePerSec := if next == rw.target then 0.0 else rw.ratePerSec)
  }

  // ----- one region's course -----

  /** The weight and its target are in range, and a rate other than zero points at the target. */
  predicate OnCourse(cfg: Config, rw: RegionWeight) {
    && cfg.minimumWeight <= rw.current <= FULL_WEIGHT
    && cfg.minimumWeight <= rw.target <= FULL_WEIGHT
    && (rw.ratePerSec > 0.0 ==> rw.current < rw.target)
    && (rw.ratePerSec < 0.0 ==> rw.current > rw.target)
  }

  function Distance(rw: RegionWeight): real { Abs(rw.current - rw.target) }

  function Stride(cfg: Config, rw: RegionWeight): real { Abs(Shift(cfg, rw)) }

  lemma ShiftSign(cfg: Config, rw: RegionWeight)
    requires cfg.Sane()
    ensures Shift(cfg, rw) > 0.0 <==> rw.ratePerSec > 0.0
    ensures Shift(cfg, rw) < 0.0 <==> rw.ratePerSec < 0.0
  {
    ProductSign(rw.ratePerSec, cfg.tickInterval);
  }

  /** One approach, in full: within reach it arrives, out of reach it comes one shift nearer. */
  lemma ApproachInFull(current: real, shift: real, target: real)
    requires (shift > 0.0 && current < target) || (shift < 0.0 && current > target)
    ensures var next := Approached(current, shift, shift < 0.0, target);
            if Abs(current - target) < Abs(shift) + SNAP then next == target
            else next == current + shift && next != target && Abs(next - target) == Abs(current - target) - Abs(shift)
  {
  }

  /** One tick, in full: within reach it snaps to the target and stops, though a last move of at most
      SNAP is not stored; out of reach it moves by one stride, unless the stride is at most SNAP, when
      it does nothing at all. */
  lemma TickInFull(cfg: Config, rw: RegionWeight)
    requires cfg.Sane() && OnCourse(cfg, rw) && rw.ratePerSec != 0.0
    ensures Distance(rw) < Stride(cfg, rw) + SNAP ==>
              Ticked(cfg, rw) == rw.(current := if Distance(rw) > SNAP then rw.target else rw.current, ratePerSec := 0.0)
    ensures Distance(rw) >= Stride(cfg, rw) + SNAP && Stride(cfg, rw) <= SNAP ==> Ticked(cfg, rw) == rw
    ensures Distance(rw) >= Stride(cfg, rw) + SNAP && Stride(cfg, rw) > SNAP ==>
              && Ticked(cfg, rw) == rw.(current := rw.current + Shift(cfg, rw))
              && Distance(Ticked(cfg, rw)) == Distance(rw) - Stride(cfg, rw)
  {
    ShiftSign(cfg, rw);
    ApproachInFull(rw.current, Shift(cfg, rw), rw.target);
  }

  lemma TickStaysOnCourse(cfg: Config, rw: RegionWeight)
    requires cfg.Sane() && OnCourse(cfg, rw)
    ensures OnCourse(cfg, Ticked(cfg, rw))
    ensures Ticked(cfg, rw).target == rw.target && Ticked(cfg, rw).hardFail == rw.hardFail
    ensures Distance(Ticked(cfg, rw)) <= Distance(rw)
    ensures rw.ratePerSec <= 0.0 ==> Ticked(cfg, rw).current <= rw.current && Ticked(cfg, rw).ratePerSec <= 0.0
  {
    if rw.ratePerSec != 0.0 {
      ShiftSign(cfg, rw);
      TickInFull(cfg, rw);
    }
  }

  lemma EntryActionsStayOnCourse(cfg: Config, rw: RegionWeight)
    requires cfg.Sane() && OnCourse(cfg, rw)
    ensures OnCourse(cfg, SoftDecay(cfg, rw)) && SoftDecay(cfg, rw).ratePerSec <= 0.0
    ensures SoftDecay(cfg, rw).current <= rw.current
    ensures OnCourse(cfg, HardFailover(cfg, rw))
    ensures OnCourse(cfg, Ramp(cfg, rw)) && Ramp(cfg, rw).ratePerSec >= 0.0
    ensures OnCourse(cfg, Restore(rw))
  {
    if cfg.degradedDecayPeriod > 0.0 {
      QuotientSign(-(rw.current - cfg.minimumWeight), cfg.degradedDecayPeriod);
    }
    if cfg.recoveryRampPeriod > 0.0 {
      QuotientSign(FULL_WEIGHT - rw.current, cfg.recoveryRampPeriod);
    }
  }

  /** Advice never disturbs a region in hard failover or on its way to any target but full weight. */
  lemma AdviceStaysOnCourse(cfg: Config, rw: RegionWeight, w: real)
    requires cfg.Sane() && OnCourse(cfg, rw)
    ensures OnCourse(cfg, Advised(cfg, rw, w)) && Advised(cfg, rw, w).current == rw.current
    ensures Advised(cfg, rw, w).hardFail == rw.hardFail
    ensures Advised(cfg, rw, w) != rw.(banditWeight := w) ==> !rw.hardFail && rw.target == FULL_WEIGHT && w < ADVICE_CEILING
    ensures Advised(cfg, rw, w).target <= rw.target
  {
    QuotientSign(Max(w, cfg.minimumWeight) - rw.current, ADVICE_PERIOD);
  }

  // ----- many ticks -----

  function TickedTimes(cfg: Config, rw: RegionWeight, n: nat): RegionWeight
    decreases n
  {
    if n == 0 then rw else TickedTimes(cfg, Ticked(cfg, rw), n - 1)
  }

  predicate Settled(rw: RegionWeight) {
    rw.ratePerSec == 0.0 && Distance(rw) <= SNAP
  }

  lemma {:induction false} OneMoreTick(cfg: Config, rw: RegionWeight, n: nat)
    ensures TickedTimes(cfg, rw, n + 1) == Ticked(cfg, TickedTimes(cfg, rw, n))
    decreases n
  {
    if n > 0 {
      OneMoreTick(cfg, Ticked(cfg, rw), n - 1);
    }
  }

  lemma {:induction false} RestIsFinal(cfg: Config, rw: RegionWeight, n: nat)
    requires rw.ratePerSec == 0.0
    ensures TickedTimes(cfg, rw, n) == rw
    decreases n
  {
    if n > 0 {
      RestIsFinal(cfg, rw, n - 1);
    }
  }

  /** A stride above SNAP brings the weight to its target in as many ticks as strides fit the distance. */
  lemma {:induction false} TicksConverge(cfg: Config, rw: RegionWeight, n: nat)
    requires cfg.Sane() && OnCourse(cfg, rw) && rw.ratePerSec != 0.0
    requires Stride(cfg, rw) > SNAP && Repeat(n, Stride(cfg, rw)) >= Distance(rw)
    ensures Settled(TickedTimes(cfg, rw, n)) && TickedTimes(cfg, rw, n).target == rw.target
    decreases n
  {
    TickInFull(cfg, rw);
    var next := Ticked(cfg, rw);
    if Distance(rw) < Stride(cfg, rw) + SNAP {
      RestIsFinal(cfg, next, n - 1);
    } else {
      TickStaysOnCourse(cfg, rw);
      assert Stride(cfg, next) == Stride(cfg, rw);
      TicksConverge(cfg, next, n - 1);
    }
  }

  /** A stride of at most SNAP out of reach of the target never moves the weight. */
  lemma {:induction false} SmallStridesStall(cfg: Config, rw: RegionWeight, n: nat)
    requires cfg.Sane() && OnCourse(cfg, rw) && rw.ratePerSec != 0.0
    requires Stride(cfg, rw) <= SNAP && Distance(rw) >= Stride(cfg, rw) + SNAP
    ensures TickedTimes(cfg, rw, n) == rw
    decreases n
  {
    if n > 0 {
      TickInFull(cfg, rw);
      SmallStridesStall(cfg, rw, n - 1);
    }
  }

  lemma EnoughStrides(stride: real, distance: real) returns (n: nat)
    requires stride > SNAP
    ensures Repeat(n, stride) >= distance
  {
    n := if distance <= 0.0 then 0 else (distance * 1000.0).Floor + 1;
    RepeatIsProduct(n, stride);
    if distance > 0.0 {
      assert n as real >= distance * 1000.0;
      assert n as real * stride >= n as real * SNAP;
    }
  }

  ghost predicate Stalls(cfg: Config, rw: RegionWeight) {
    Stride(cfg, rw) <= SNAP && Distance(rw) >= Stride(cfg, rw) + SNAP
  }

  /** A tick moves the weight exactly if it is on its way, not within SNAP, and does not stall. */
  lemma TickMovesIff(cfg: Config, rw: RegionWeight)
    requires cfg.Sane() && OnCourse(cfg, rw)
    ensures Ticked(cfg, rw).current != rw.current
            <==> rw.ratePerSec != 0.0 && Distance(rw) > 0.001 && !Stalls(cfg, rw)
  {
    if rw.ratePerSec != 0.0 {
      ShiftSign(cfg, rw);
      TickInFull(cfg, rw);
    }
  }

  /** Exactly when ticking ever brings a moving weight to rest. */
  lemma ComesToRestUnlessStalled(cfg: Config, rw: RegionWeight)
    requires cfg.Sane() && OnCourse(cfg, rw) && rw.ratePerSec != 0.0
    ensures (exists n: nat :: Settled(TickedTimes(cfg, rw, n))) <==> !Stalls(cfg, rw)
  {
    if Stalls(cfg, rw) {
      forall n: nat ensures !Settled(TickedTimes(cfg, rw, n)) {
        SmallStridesStall(cfg, rw, n);
      }
    } else if Stride(cfg, rw) > SNAP {
      var n := EnoughStrides(Stride(cfg, rw), Distance(rw));
      TicksConverge(cfg, rw, n);
    } else {
      TickInFull(cfg, rw);
      assert Settled(Ticked(cfg, rw));
      assert TickedTimes(cfg, rw, 1) == TickedTimes(cfg, Ticked(cfg, rw), 0);
      assert Settled(TickedTimes(cfg, rw, 1));
    }
  }

  // ----- courses on a schedule -----

  /** The rate takes the weight to its target in exactly the period. */
  predicate OnSchedule(rw: RegionWeight, period: real) {
    period > 0.0 && Times(rw.ratePerSec, period) == rw.target - rw.current
  }

  lemma AbsTimes(x: real, y: real)
    requires y > 0.0
    ensures Abs(Times(x, y)) == Times(Abs(x), y)
  {
    ProductSign(x, y);
    assert (-x) * y == -(x * y);
  }

  lemma ScheduledStrides(cfg: Config, rw: RegionWeight, period: real)
    requires cfg.Sane() && OnSchedule(rw, period)
    ensures Distance(rw) == Times(Abs(rw.ratePerSec), period)
    ensures Stride(cfg, rw) == Times(Abs(rw.ratePerSec), cfg.tickInterval)
  {
    AbsTimes(rw.ratePerSec, period);
    AbsTimes(rw.ratePerSec, cfg.tickInterval);
  }

  lemma TimesRegroup(a: real, x: real, y: real)
    ensures Times(Times(a, x), y) == Times(Times(a, y), x)
  {
  }

  lemma StridesCoverDistance(cfg: Config, rw: RegionWeight, period: real, n: nat)
    requires cfg.Sane() && OnSchedule(rw, period) && Repeat(n, cfg.tickInterval) >= period
    ensures n > 0 && Repeat(n, Stride(cfg, rw)) >= Distance(rw)
  {
    var a := Abs(rw.ratePerSec);
    ScheduledStrides(cfg, rw, period);
    RepeatTimes(n, a, cfg.tickInterval);
    ProductGrows(a, period, Repeat(n, cfg.tickInterval));
  }

  lemma RestingIsThere(rw: RegionWeight, period: real)
    requires OnSchedule(rw, period)
    ensures rw.ratePerSec == 0.0 <==> rw.current == rw.target
  {
    ProductSign(rw.ratePerSec, period);
  }

  /** A course on a schedule is over after its period, counted in ticks, exactly unless it stalls. */
  lemma CourseEndsOnSchedule(cfg: Config, rw: RegionWeight, period: real, n: nat)
    requires cfg.Sane() && OnCourse(cfg, rw) && OnSchedule(rw, period)
    requires Repeat(n, cfg.tickInterval) >= period
    ensures Settled(TickedTimes(cfg, rw, n)) <==> rw.current == rw.target || !Stalls(cfg, rw)
    ensures Distance(TickedTimes(cfg, rw, n)) <= SNAP <==> rw.current == rw.target || !Stalls(cfg, rw)
  {
    RestingIsThere(rw, period);
    if rw.current == rw.target {
      RestIsFinal(cfg, rw, n);
    } else if Stalls(cfg, rw) {
      SmallStridesStall(cfg, rw, n);
      StallsAfar(cfg, rw);
    } else {
      StridesCoverDistance(cfg, rw, period, n);
      if Stride(cfg, rw) > SNAP {
        TicksConverge(cfg, rw, n);
      } else {
        TickInFull(cfg, rw);
        RestIsFinal(cfg, Ticked(cfg, rw), n - 1);
      }
    }
  }

  lemma StallsAfar(cfg: Config, rw: RegionWeight)
    requires cfg.Sane() && Stalls(cfg, rw) && rw.ratePerSec != 0.0
    ensures Distance(rw) > SNAP
  {
    ShiftSign(cfg, rw);
  }

  /** In terms of the way to go: it stalls exactly if that is at most a thousandth for every tick that fits
      the period, and more than a tick and a thousandth away. */
  lemma StallsIff(cfg: Config, rw: RegionWeight, period: real)
    requires cfg.Sane() && OnSchedule(rw, period)
    ensures Stalls(cfg, rw)
            <==> && Times(Distance(rw), cfg.tickInterval) <= Times(0.001, period)
                 && Times(Distance(rw), cfg.tickInterval) <= Times(Distance(rw) - 0.001, period)
  {
    var a := Abs(rw.ratePerSec);
    ScheduledStrides(cfg, rw, period);
    TimesRegroup(a, period, cfg.tickInterval);
    TimesReflects(Stride(cfg, rw), 0.001, period);
    TimesReflects(Stride(cfg, rw), Distance(rw) - 0.001, period);
  }

  lemma {:induction false} TicksAddShifts(cfg: Config, rw: RegionWeight, n: nat)
    requires cfg.Sane() && OnCourse(cfg, rw) && rw.ratePerSec != 0.0
    requires Stride(cfg, rw) > SNAP && Repeat(n, Stride(cfg, rw)) + SNAP <= Distance(rw)
    ensures TickedTimes(cfg, rw, n) == rw.(current := rw.current + Repeat(n, Shift(cfg, rw)))
    ensures Distance(TickedTimes(cfg, rw, n)) == Distance(rw) - Repeat(n, Stride(cfg, rw))
    decreases n
  {
    if n > 0 {
      RepeatIsPositive(n - 1, Stride(cfg, rw));
      TicksAddShifts(cfg, rw, n - 1);
      OneMoreTick(cfg, rw, n - 1);
      var t := TickedTimes(cfg, rw, n - 1);
      assert Shift(cfg, t) == Shift(cfg, rw);
      TicksKeepTarget(cfg, rw, n - 1);
      TickInFull(cfg, t);
    }
  }

  lemma {:induction false} RepeatIsPositive(n: nat, x: real)
    requires x >= 0.0
    ensures Repeat(n, x) >= 0.0
  {
    if n > 0 {
      RepeatIsPositive(n - 1, x);
    }
  }

  /** On the way, until the target is in reach, the share of the way covered is the share of the period that
      has passed in ticks. */
  lemma CourseIsLinear(cfg: Config, rw: RegionWeight, period: real, n: nat)
    requires cfg.Sane() && OnCourse(cfg, rw) && OnSchedule(rw, period) && rw.current != rw.target
    requires Stride(cfg, rw) > SNAP && Repeat(n, Stride(cfg, rw)) + SNAP <= Distance(rw)
    ensures Times(TickedTimes(cfg, rw, n).current - rw.current, period) == Times(rw.target - rw.current, Repeat(n, cfg.tickInterval))
  {
    RestingIsThere(rw, period);
    TicksAddShifts(cfg, rw, n);
    RepeatTimes(n, rw.ratePerSec, cfg.tickInterval);
    TimesRegroup(rw.ratePerSec, period, Repeat(n, cfg.tickInterval));
  }

  /** A soft decay aims at the minimum, on schedule; without a period it is there at once. */
  lemma SoftDecayAims(cfg: Config, rw: RegionWeight)
    ensures var d := SoftDecay(cfg, rw);
            && d.target == cfg.minimumWeight && !d.hardFail && d.banditWeight == rw.banditWeight
            && (if cfg.degradedDecayPeriod > 0.0 then d.current == rw.current && OnSchedule(d, cfg.degradedDecayPeriod)
                else d.current == cfg.minimumWeight && d.ratePerSec == 0.0)
  {
    if cfg.degradedDecayPeriod > 0.0 {
      QuotientTimes(-(rw.current - cfg.minimumWeight), cfg.degradedDecayPeriod);
    }
  }

  /** A ramp aims at full weight, on schedule; without a period, or from above, it is there at once. */
  lemma RampAims(cfg: Config, rw: RegionWeight)
    ensures var d := Ramp(cfg, rw);
            && d.target == 1.0 && !d.hardFail && d.banditWeight == rw.banditWeight
            && (if cfg.recoveryRampPeriod > 0.0 && rw.current <= 1.0
                then d.current == rw.current && OnSchedule(d, cfg.recoveryRampPeriod)
                else d.current == 1.0 && d.ratePerSec == 0.0)
  {
    if cfg.recoveryRampPeriod > 0.0 && rw.current < FULL_WEIGHT {
      QuotientTimes(FULL_WEIGHT - rw.current, cfg.recoveryRampPeriod);
    }
  }

  /** A forced weight is kept at rest, and takes the region out of rotation exactly if it is not positive. */
  lemma ForcedRests(rw: RegionWeight, weight: real)
    ensures var d := Forced(rw, weight);
            && d.current == d.target == (if weight > 0.0 then weight else 0.0) && d.ratePerSec == 0.0
            && (d.hardFail <==> d.current == 0.0) && d.banditWeight == rw.banditWeight
  {
  }

  /** Advice is followed exactly by a region on its way to full weight, or there, and not failed over, and
      only below 0.8: within 30 seconds to that weight, though never below the minimum. */
  lemma AdviceAims(cfg: Config, rw: RegionWeight, w: real)
    ensures var d := Advised(cfg, rw, w);
            && d.banditWeight == w && d.current == rw.current && d.hardFail == rw.hardFail
            && (if !rw.hardFail && rw.target == 1.0 && w < 0.8
                then OnSchedule(d, 30.0) && d.target == (if w < cfg.minimumWeight then cfg.minimumWeight else w)
                else d.target == rw.target && d.ratePerSec == rw.ratePerSec)
  {
    QuotientTimes(Max(w, cfg.minimumWeight) - rw.current, ADVICE_PERIOD);
  }

  /** A soft decay is over after the decay period, counted in ticks, exactly unless it stalls. */
  lemma SoftDecayEndsOnSchedule(cfg: Config, rw: RegionWeight, n: nat)
    requires cfg.Sane() && OnCourse(cfg, rw) && cfg.degradedDecayPeriod > 0.0
    requires Repeat(n, cfg.tickInterval) >= cfg.degradedDecayPeriod
    ensures Settled(TickedTimes(cfg, SoftDecay(cfg, rw), n))
            <==> rw.current == cfg.minimumWeight || !Stalls(cfg, SoftDecay(cfg, rw))
  {
    EntryActionsStayOnCourse(cfg, rw);
    SoftDecayAims(cfg, rw);
    CourseEndsOnSchedule(cfg, SoftDecay(cfg, rw), cfg.degradedDecayPeriod, n);
  }

  /** And a ramp after the ramp period: traffic is back, to within SNAP of full weight. */
  lemma RampEndsOnSchedule(cfg: Config, rw: RegionWeight, n: nat)
    requires cfg.Sane() && OnCourse(cfg, rw) && cfg.recoveryRampPeriod > 0.0
    requires Repeat(n, cfg.tickInterval) >= cfg.recoveryRampPeriod
    ensures TickedTimes(cfg, Ramp(cfg, rw), n).current >= 1.0 - 0.001
            <==> rw.current == 1.0 || !Stalls(cfg, Ramp(cfg, rw))
  {
    EntryActionsStayOnCourse(cfg, rw);
    RampAims(cfg, rw);
    CourseEndsOnSchedule(cfg, Ramp(cfg, rw), cfg.recoveryRampPeriod, n);
    TicksKeepTarget(cfg, Ramp(cfg, rw), n);
  }

  lemma {:induction false} TicksKeepTarget(cfg: Config, rw: RegionWeight, n: nat)
    requires cfg.Sane() && OnCourse(cfg, rw)
    ensures OnCourse(cfg, TickedTimes(cfg, rw, n)) && TickedTimes(cfg, rw, n).target == rw.target
    decreases n
  {
    if n > 0 {
      TickStaysOnCourse(cfg, rw);
      TicksKeepTarget(cfg, Ticked(cfg, rw), n - 1);
    }
  }

  /** With the default configuration a healthy region follows the advice 0.06 down to that weight in six ticks ... */
  lemma AdviceLeadsDown(bandit: real)
    ensures TickedTimes(DEFAULT_CONFIG, Advised(DEFAULT_CONFIG, RegionWeight(FULL_WEIGHT, FULL_WEIGHT, 0.0, bandit, false), 0.06), 6)
         == RegionWeight(0.06, 0.06, 0.0, 0.06, false)
  {
    var rw := Advised(DEFAULT_CONFIG, RegionWeight(FULL_WEIGHT, FULL_WEIGHT, 0.0, bandit, false), 0.06);
    assert rw.ratePerSec * 5.0 == -0.94 / 6.0;
    for i := 0 to 5
      invariant rw.target == 0.06 && rw.banditWeight == 0.06 && !rw.hardFail && rw.ratePerSec * 5.0 == -0.94 / 6.0
      invariant rw.current == 1.0 - i as real * (0.94 / 6.0)
      invariant TickedTimes(DEFAULT_CONFIG, rw, 6 - i) == TickedTimes(DEFAULT_CONFIG, Advised(DEFAULT_CONFIG, RegionWeight(FULL_WEIGHT, FULL_WEIGHT, 0.0, bandit, false), 0.06), 6)
    {
      TickInFull(DEFAULT_CONFIG, rw);
      rw := Ticked(DEFAULT_CONFIG, rw);
    }
    TickInFull(DEFAULT_CONFIG, rw);
    assert TickedTimes(DEFAULT_CONFIG, rw, 1) == TickedTimes(DEFAULT_CONFIG, Ticked(DEFAULT_CONFIG, rw), 0);
  }

  /** ... and is stuck there when it degrades, for ever. */
  lemma DefaultDecayCanStall(bandit: real, n: nat)
    ensures var rw := RegionWeight(0.06, 0.06, 0.0, bandit, false);
            && OnCourse(DEFAULT_CONFIG, rw)
            && SoftDecay(DEFAULT_CONFIG, rw).target == 0.05
            && TickedTimes(DEFAULT_CONFIG, SoftDecay(DEFAULT_CONFIG, rw), n).current == 0.06
  {
  }

  // ----- all regions -----

  function Currents(regions: map<string, RegionWeight>): map<string, real> {
    map r | r in regions :: regions[r].current
  }

  ghost function Normalised(regions: map<string, RegionWeight>): map<string, real> {
    var total := Sum(Currents(regions));
    map r | r in regions :: if total > 0.0 then regions[r].current / total else 1.0 / |regions| as real
  }

  function AllTicked(cfg: Config, regions: map<string, RegionWeight>): map<string, RegionWeight> {
    map r | r in regions :: Ticked(cfg, regions[r])
  }

  ghost predicate AllOnCourse(cfg: Config, regions: map<string, RegionWeight>) {
    forall r :: r in regions ==> OnCourse(cfg, regions[r])
  }

  lemma TotalSplits(cfg: Config, regions: map<string, RegionWeight>, r: string) returns (others: real)
    requires cfg.Sane() && AllOnCourse(cfg, regions) && r in regions
    ensures Sum(Currents(regions)) == regions[r].current + others
    ensures 0.0 <= others <= (|regions| - 1) as real * FULL_WEIGHT
  {
    var c := Currents(regions);
    var rest := c - {r};
    SumSplit(c, r);
    others := Sum(rest);
    assert |rest| == |regions| - 1 by {
      assert c.Keys == regions.Keys && rest.Keys == c.Keys - {r};
    }
    SumBounds(rest, 0.0, FULL_WEIGHT);
    RepeatIsProduct(|rest|, 0.0);
    RepeatIsProduct(|rest|, FULL_WEIGHT);
  }

  /** Of n regions on course, no share is below minimum / (minimum + (n - 1) * full) ... */
  lemma ShareIsFair(cfg: Config, regions: map<string, RegionWeight>, r: string)
    requires cfg.Sane() && AllOnCourse(cfg, regions) && r in regions
    ensures Sum(Currents(regions)) > 0.0
    ensures Normalised(regions)[r] >= cfg.minimumWeight / (cfg.minimumWeight + (|regions| - 1) as real * FULL_WEIGHT)
  {
    var others := TotalSplits(cfg, regions, r);
    ShareBound(regions[r].current, others, (|regions| - 1) as real * FULL_WEIGHT, cfg.minimumWeight);
  }

  /** ... and the shares add up to one. */
  lemma SharesAddUp(cfg: Config, regions: map<string, RegionWeight>)
    requires cfg.Sane() && AllOnCourse(cfg, regions) && regions != map[]
    ensures Sum(Normalised(regions)) == 1.0
  {
    var r :| r in regions;
    ShareIsFair(cfg, regions, r);
    SumQuotient(Currents(regions), Normalised(regions), Sum(Currents(regions)));
    QuotientOfSelf(Sum(Currents(regions)));
  }

  /** Shares stand to each other as the weights do; where there is no weight at all each of n is 1 / n. */
  lemma SharesAreProportional(regions: map<string, RegionWeight>, a: string, b: string)
    requires a in regions && b in regions
    ensures Sum(Currents(regions)) > 0.0 ==>
              Times(Normalised(regions)[a], regions[b].current) == Times(Normalised(regions)[b], regions[a].current)
    ensures Sum(Currents(regions)) <= 0.0 ==> Times(Normalised(regions)[a], |regions| as real) == 1.0
  {
    var total := Sum(Currents(regions));
    if total > 0.0 {
      QuotientsCross(regions[a].current, regions[b].current, total);
    } else {
      QuotientTimes(1.0, |regions| as real);
    }
  }

  lemma ShareBound(own: real, others: real, most: real, minimum: real)
    requires 0.0 < minimum <= own && 0.0 <= others <= most
    ensures own / (own + others) >= minimum / (minimum + most)
  {
    ProductsOrdered(minimum, own, others, most);
    Distribute(own, minimum, most, minimum + most);
    Distribute(minimum, own, others, own + others);
    var mixed := own * minimum;
    assert minimum * own == mixed;
    CrossMultiply(own, own + others, minimum, minimum + most);
  }

  // ----- the shaper object -----

  class AdaptiveTrafficShaper {
    const cfg: Config
    var regions: map<string, RegionWeight>

    constructor (cfg: Config, names: seq<string>)
      ensures this.cfg == cfg
      ensures regions == map r | r in names :: RegionWeight(FULL_WEIGHT, FULL_WEIGHT, 0.0, 1.0 / |names| as real, false)
    {
      this.cfg := cfg;
      regions := map[];
      new;
      for i := 0 to |names|
        invariant this.cfg == cfg
        invariant regions == map r | r in names[..i] :: RegionWeight(FULL_WEIGHT, FULL_WEIGHT, 0.0, 1.0 / |names| as real, false)
      {
        regions := regions[names[i] := RegionWeight(FULL_WEIGHT, FULL_WEIGHT, 0.0, 1.0 / |names| as real, false)];
      }
      assert names[..|names|] == names;
    }

    method OnDegraded(region: string)
      modifies this
      ensures regions == if region in old(regions) then old(regions)[region := SoftDecay(cfg, old(regions)[region])] else old(regions)
    {
      if region !in regions {
        return;
      }
      var rw := regions[region];
      var decayAmount := rw.current - cfg.minimumWeight;
      rw := rw.(target := cfg.minimumWeight, hardFail := false);
      if cfg.degradedDecayPeriod > 0.0 {
        rw := rw.(ratePerSec := -decayAmount / cfg.degradedDecayPeriod);
      } else {
        rw := rw.(current := cfg.minimumWeight, ratePerSec := 0.0);
      }
      regions := regions[region := rw];
    }

    method OnFailed(region: string)
      modifies this
      ensures regions == if region in old(regions) then old(regions)[region := HardFailover(cfg, old(regions)[region])] else old(regions)
    {
      if region !in regions {
        return;
      }
      regions := regions[region := regions[region].(current := cfg.minimumWeight, target := cfg.minimumWeight, ratePerSec := 0.0, hardFail := true)];
    }

    method OnRecovering(region: string)
      modifies this
      ensures regions == if region in old(regions) then old(regions)[region := Ramp(cfg, old(regions)[region])] else old(regions)
    {
      if region !in regions {
        return;
      }
      var rw := regions[region].(target := FULL_WEIGHT, hardFail := false);
      var rampAmount := FULL_WEIGHT - rw.current;
      if cfg.recoveryRampPeriod > 0.0 && rampAmount > 0.0 {
        rw := rw.(ratePerSec := rampAmount / cfg.recoveryRampPeriod);
      } else {
        rw := rw.(current := FULL_WEIGHT, ratePerSec := 0.0);
      }
      regions := regions[region := rw];
    }

    method OnHealthy(region: string)
      modifies this
      ensures regions == if region in old(regions) then old(regions)[region := Restore(old(regions)[region])] else old(regions)
    {
      if region !in regions {
        return;
      }
      regions := regions[region := regions[region].(current := FULL_WEIGHT, target := FULL_WEIGHT, ratePerSec := 0.0, hardFail := false)];
    }

    method UpdateBanditWeights(weights: map<string, real>)
      modifies this
      ensures regions == map r | r in old(regions) ::
                if r in weights then Advised(cfg, old(regions)[r], weights[r]) else old(regions)[r]
    {
      var todo := weights.Keys;
      while todo != {}
        invariant todo <= weights.Keys
        invariant regions == map r | r in old(regions) ::
                    if r in weights && r !in todo then Advised(cfg, old(regions)[r], weights[r]) else old(regions)[r]
      {
        var region :| region in todo;
        if region in regions {
          var w := weights[region];
          var rw := regions[region].(banditWeight := w);
          if !rw.hardFail && rw.target == FULL_WEIGHT && w < ADVICE_CEILING {
            var target := Max(w, cfg.minimumWeight);
            rw := rw.(target := target, ratePerSec := (target - rw.current) / ADVICE_PERIOD);
          }
          regions := regions[region := rw];
        }
        todo := todo - {region};
      }
    }

    /** The manual way out: the weight goes where the operator says, the configured minimum included. */
    method ForceWeight(region: string, weight: real)
      modifies this
      ensures regions == if region !in old(regions) then old(regions)
                         else old(regions)[region := Forced(old(regions)[region], weight)]
    {
      if region !in regions {
        return;
      }
      var current := Max(weight, 0.0);
      regions := regions[region := regions[region].(current := current, target := current, ratePerSec := 0.0, hardFail := weight <= 0.0)];
    }

    /** The body of the tick's loop: advances one region and says whether its weight was stored. */
    method Advance(region: RegionWeight) returns (rw: RegionWeight, stored: bool)
      ensures rw == Ticked(cfg, region)
      ensures stored <==> rw.current != region.current
    {
      rw, stored := region, false;
      if rw.ratePerSec == 0.0 {
        return;
      }
      var newWeight, arrived := Approach(rw);
      if arrived {
        rw := rw.(ratePerSec := 0.0);
      }
      if Abs(newWeight - rw.current) > SNAP {
        rw := rw.(current := newWeight);
        stored := true;
      }
    }

    /** Clamps the next weight at the target, and snaps to it when close. */
    method Approach(rw: RegionWeight) returns (newWeight: real, arrived: bool)
      ensures newWeight == Moved(cfg, rw) && arrived == (newWeight == rw.target)
    {
      newWeight, arrived := rw.current + rw.ratePerSec * cfg.tickInterval, false;
      if rw.ratePerSec < 0.0 {
        newWeight := Max(newWeight, rw.target);
      } else {
        newWeight := Min(newWeight, rw.target);
      }
      if Abs(newWeight - rw.target) < SNAP {
        newWeight, arrived := rw.target, true;
      }
    }

    /** One tick: the weights to publish, if any weight was stored. */
    method Tick() returns (update: Option<map<string, real>>)
      modifies this
      ensures regions == AllTicked(cfg, old(regions))
      ensures update == if exists r :: r in regions && regions[r].current != old(regions)[r].current
                        then Some(Normalised(regions)) else None
    {
      var changed := false;
      var todo := regions.Keys;
      while todo != {}
        invariant todo <= old(regions).Keys
        invariant regions == map r | r in old(regions) :: if r in todo then old(regions)[r] else Ticked(cfg, old(regions)[r])
        invariant changed <==> exists r :: r in regions && r !in todo && regions[r].current != old(regions)[r].current
      {
        var r :| r in todo;
        todo := todo - {r};
        var rw, stored := Advance(regions[r]);
        changed := changed || stored;
        regions := regions[r := rw];
      }
      if changed {
        var weights := NormalisedWeights();
        update := Some(weights);
      } else {
        update := None;
      }
    }

    method NormalisedWeights() returns (result: map<string, real>)
      ensures result == Normalised(regions)
    {
      var total := Total(Currents(regions));
      result := map r | r in regions :: if total > 0.0 then regions[r].current / total else 1.0 / |regions| as real;
    }
  }
}
