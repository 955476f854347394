/**
 Where a region's weight goes: what entering each state does to it, and where the ticks have brought it
 after any calls that leave the region in that state (control-plane-04/controlplane/controller.go,
 wireActions, with control-plane-04/controlplane/trafficshaper/shaper.go).
 */
module Steering {
  import opened Options
  import opened Listings
  import opened Statemachine
  import opened Controlplane
  import opened HealingLoop
  import opened RealArithmetic
  import Shaper = Trafficshaper
  import MapSums

  /** The same weight on the same course, whatever the bandit said last. */
  predicate SameCourse(a: RegionWeight, b: RegionWeight) {
    a.(banditWeight := b.banditWeight) == b
  }

  // ----- entering a state -----

  predicate At(rw: RegionWeight, weight: real) {
    rw.current == weight == rw.target && rw.ratePerSec == 0.0
  }

  /** From the weight it has, to be at the target after the period, or at once if there is no period. */
  predicate Sets(before: RegionWeight, after: RegionWeight, target: real, period: real) {
    && after.target == target && !after.hardFail
    && (if period > 0.0 then after.current == before.current && Shaper.OnSchedule(after, period) else At(after, target))
  }

  /** What a region's way from one state to the next does to its weight. */
  predicate Steered(cfg: Shaper.Config, from: State, to: State, before: RegionWeight, after: RegionWeight) {
    match to
    case Degraded => Sets(before, after, cfg.minimumWeight, cfg.degradedDecayPeriod)
    case Healing => SameCourse(after, before)
    case Recovered => Sets(before, after, 1.0, cfg.recoveryRampPeriod)
    case Failed => At(after, cfg.minimumWeight) && after.hardFail
    case Healthy => if from == Recovered then At(after, 1.0) && !after.hardFail else SameCourse(after, before)
  }

  lemma EnterWeightSteers(cfg: Shaper.Config, from: State, to: State, rw: RegionWeight)
    requires cfg.Sane() && Shaper.OnCourse(cfg, rw)
    ensures Steered(cfg, from, to, rw, EnterWeight(cfg, from, to, rw))
  {
    match to
    case Degraded => Shaper.SoftDecayAims(cfg, rw);
    case Recovered => Shaper.RampAims(cfg, rw);
    case _ =>
  }

  lemma LinkSteers(cfg: Config, f: FsmState, rw: RegionWeight, e: Effect, now: int)
    requires cfg.shaper.Sane() && Shaper.OnCourse(cfg.shaper, rw) && e.Linked? && Sent(f, e.event, now) != f
    ensures Steered(cfg.shaper, f.current, Sent(f, e.event, now).current, rw, Affected(cfg.shaper, f, rw, e))
  {
    EnterWeightSteers(cfg.shaper, f.current, NextState(f.current, e.event).value, rw);
  }

  lemma DeliverySteers(cfg: Config, p: Plane, region: string, event: EventType, now: int, r: string)
    requires cfg.shaper.Sane() && PlaneInv(cfg, p) && region in p.fsms && r in p.fsms
    requires Delivered(cfg, p, region, event, now).fsms[r] != p.fsms[r]
    ensures var q := Delivered(cfg, p, region, event, now);
            Steered(cfg.shaper, p.fsms[r].current, q.fsms[r].current, p.weights[r], q.weights[r])
  {
    assert RegionInv(cfg.shaper, p.fsms[r], p.weights[r]);
    var e := DeliveryEffect(cfg, p, region, event, now, r);
    LinkSteers(cfg, p.fsms[r], p.weights[r], e, now);
  }

  lemma MetricSteers(cfg: Config, p: Plane, m: Metric, now: int, r: string)
    requires cfg.shaper.Sane() && PlaneInv(cfg, p) && r in p.fsms && Step(cfg, p, Scored(m), now).fsms[r] != p.fsms[r]
    ensures var q := Step(cfg, p, Scored(m), now);
            Steered(cfg.shaper, p.fsms[r].current, q.fsms[r].current, p.weights[r], q.weights[r])
  {
    MetricsNeverFailARegion(cfg, p, m, now, r);
    CountedAdvises(cfg, p, m, r);
    AdviceKeepsPlaneInv(cfg, p, m);
    var event := MetricDelivers(cfg, p, m, now, r);
    DeliverySteers(cfg, Counted(cfg, p, m), m.region, event, now, r);
  }

  lemma MetricDelivers(cfg: Config, p: Plane, m: Metric, now: int, r: string) returns (event: EventType)
    requires r in p.fsms && Step(cfg, p, Scored(m), now).fsms[r] != p.fsms[r]
    ensures m.region in p.fsms && Step(cfg, p, Scored(m), now) == Delivered(cfg, Counted(cfg, p, m), m.region, event, now)
  {
    assert Step(cfg, p, Scored(m), now) == Processed(cfg, p, m, now);
    event := Judge(cfg, CountOf(p.counts, m.region), p.fsms[m.region].current, m).event.value;
  }

  lemma CountedAdvises(cfg: Config, p: Plane, m: Metric, r: string)
    requires m.region in p.fsms && r in p.weights
    ensures Counted(cfg, p, m).fsms == p.fsms && r in Counted(cfg, p, m).weights
    ensures Counted(cfg, p, m).weights[r] == if r == m.region then Shaper.Advised(cfg.shaper, p.weights[r], m.banditRoutingWeight) else p.weights[r]
    ensures Counted(cfg, p, m).weights[r].current == p.weights[r].current
  {
    Shaper.AdviceAims(cfg.shaper, p.weights[r], m.banditRoutingWeight);
  }

  lemma NoticeSteers(cfg: Config, p: Plane, region: string, event: EventType, now: int, r: string)
    requires cfg.shaper.Sane() && PlaneInv(cfg, p) && r in p.fsms && Step(cfg, p, Notice(region, event), now).fsms[r] != p.fsms[r]
    ensures var q := Step(cfg, p, Notice(region, event), now);
            Steered(cfg.shaper, p.fsms[r].current, q.fsms[r].current, p.weights[r], q.weights[r])
  {
    assert Step(cfg, p, Notice(region, event), now) == Notified(cfg, p, region, event, now);
    DeliverySteers(cfg, p, region, event, now, r);
  }

  lemma CheckSteers(cfg: Config, p: Plane, order: seq<string>, now: int, r: string)
    requires cfg.shaper.Sane() && PlaneInv(cfg, p) && r in p.fsms && Checked(cfg, p, order, now).fsms[r] != p.fsms[r]
    ensures var q := Checked(cfg, p, order, now);
            Steered(cfg.shaper, p.fsms[r].current, q.fsms[r].current, p.weights[r], q.weights[r])
  {
    assert RegionInv(cfg.shaper, p.fsms[r], p.weights[r]);
    var e := CheckEffect(cfg, p, order, now, r);
    LinkSteers(cfg, p.fsms[r], p.weights[r], e, now);
  }

  lemma TimersSteer(cfg: Config, p: Plane, order: seq<string>, now: int, r: string)
    requires cfg.shaper.Sane() && PlaneInv(cfg, p) && r in p.fsms && Step(cfg, p, CheckTimers(order), now).fsms[r] != p.fsms[r]
    ensures var q := Step(cfg, p, CheckTimers(order), now);
            Steered(cfg.shaper, p.fsms[r].current, q.fsms[r].current, p.weights[r], q.weights[r])
  {
    assert Step(cfg, p, CheckTimers(order), now) == Checked(cfg, p, order, now);
    CheckSteers(cfg, p, order, now, r);
  }

  /** Whatever call moves a region on, its weight goes where the state entered sends it: DEGRADED down to the
      minimum, RECOVERED up to full weight, each on schedule from the weight it has; FAILED straight to the
      minimum; HEALTHY straight to full weight, but only from RECOVERED. */
  lemma EntrySteersWeight(cfg: Config, p: Plane, t: Timed, r: string)
    requires cfg.shaper.Sane() && PlaneInv(cfg, p) && r in p.fsms && Step(cfg, p, t.call, t.now).fsms[r] != p.fsms[r]
    ensures var q := Step(cfg, p, t.call, t.now);
            Steered(cfg.shaper, p.fsms[r].current, q.fsms[r].current, p.weights[r], q.weights[r])
  {
    match t.call
    case Scored(m) => MetricSteers(cfg, p, m, t.now, r);
    case Notice(s, event) => NoticeSteers(cfg, p, s, event, t.now, r);
    case CheckTimers(order) => TimersSteer(cfg, p, order, t.now, r);
    case ShaperTick =>
  }

  // ----- staying in a state -----

  function Ticks(calls: seq<Timed>): nat {
    if calls == [] then 0 else Ticks(calls[..|calls| - 1]) + (if calls[|calls| - 1].call.ShaperTick? then 1 else 0)
  }

  /** All along, the region's state machine is left alone. */
  ghost predicate Stays(cfg: Config, p: Plane, calls: seq<Timed>, r: string)
    requires r in p.fsms
  {
    calls == [] || (Stays(cfg, p, calls[..|calls| - 1], r) && Steps(cfg, p, calls).fsms[r] == p.fsms[r])
  }

  /** A weight that takes no advice: failed over, or on its way somewhere else than full weight. */
  predicate Deaf(rw: RegionWeight) {
    rw.hardFail || rw.target != Shaper.FULL_WEIGHT
  }

  /** No metric among the calls advises the region to take less than 0.8. */
  predicate Unadvised(calls: seq<Timed>, r: string) {
    forall i :: 0 <= i < |calls| && calls[i].call.Scored? && calls[i].call.metric.region == r ==> calls[i].call.metric.banditRoutingWeight >= 0.8
  }

  predicate Advises(call: Call, r: string) {
    call.Scored? && call.metric.region == r && call.metric.banditRoutingWeight < 0.8
  }

  function TickedBy(cfg: Shaper.Config, call: Call, rw: RegionWeight): RegionWeight {
    if call.ShaperTick? then Shaper.Ticked(cfg, rw) else rw
  }

  lemma TicksIgnoreAdvice(cfg: Shaper.Config, a: RegionWeight, b: RegionWeight)
    requires SameCourse(a, b)
    ensures SameCourse(Shaper.Ticked(cfg, a), Shaper.Ticked(cfg, b))
  {
    assert Shaper.Moved(cfg, a) == Shaper.Moved(cfg, b);
  }

  lemma LinkStays(cfg: Config, f: FsmState, rw: RegionWeight, e: Effect, now: int)
    requires (e.Linked? && Sent(f, e.event, now) == f) || e.Untouched?
    ensures Affected(cfg.shaper, f, rw, e) == rw
  {
    if e.Linked? {
      SendMovesIff(f, e.event, now);
    }
  }

  lemma MetricStays(cfg: Config, p: Plane, m: Metric, now: int, r: string)
    requires PlaneInv(cfg, p) && r in p.fsms && Step(cfg, p, Scored(m), now).fsms[r] == p.fsms[r]
    requires Deaf(p.weights[r]) || !Advises(Scored(m), r)
    ensures SameCourse(Step(cfg, p, Scored(m), now).weights[r], p.weights[r])
  {
    assert Step(cfg, p, Scored(m), now) == Processed(cfg, p, m, now);
    if m.region in p.fsms {
      var counted, v := Counted(cfg, p, m), Judge(cfg, CountOf(p.counts, m.region), p.fsms[m.region].current, m);
      CountedAdvises(cfg, p, m, r);
      Shaper.AdviceAims(cfg.shaper, p.weights[r], m.banditRoutingWeight);
      if v.event.Some? {
        var e := DeliveryEffect(cfg, counted, m.region, v.event.value, now, r);
        LinkStays(cfg, counted.fsms[r], counted.weights[r], e, now);
      }
    }
  }

  lemma NoticeStays(cfg: Config, p: Plane, region: string, event: EventType, now: int, r: string)
    requires PlaneInv(cfg, p) && r in p.fsms && Step(cfg, p, Notice(region, event), now).fsms[r] == p.fsms[r]
    ensures Step(cfg, p, Notice(region, event), now).weights[r] == p.weights[r]
  {
    assert Step(cfg, p, Notice(region, event), now) == Notified(cfg, p, region, event, now);
    if region in p.fsms {
      var e := DeliveryEffect(cfg, p, region, event, now, r);
      LinkStays(cfg, p.fsms[r], p.weights[r], e, now);
    }
  }

  lemma TimersStay(cfg: Config, p: Plane, order: seq<string>, now: int, r: string)
    requires PlaneInv(cfg, p) && r in p.fsms && Step(cfg, p, CheckTimers(order), now).fsms[r] == p.fsms[r]
    ensures Step(cfg, p, CheckTimers(order), now).weights[r] == p.weights[r]
  {
    assert Step(cfg, p, CheckTimers(order), now) == Checked(cfg, p, order, now);
    var e := CheckEffect(cfg, p, order, now, r);
    LinkStays(cfg, p.fsms[r], p.weights[r], e, now);
  }

  /** A call that leaves a region in its state, and does not advise it, moves its weight only if it is a tick. */
  lemma StayKeepsCourse(cfg: Config, p: Plane, t: Timed, r: string)
    requires PlaneInv(cfg, p) && r in p.fsms && Step(cfg, p, t.call, t.now).fsms[r] == p.fsms[r]
    requires Deaf(p.weights[r]) || !Advises(t.call, r)
    ensures SameCourse(Step(cfg, p, t.call, t.now).weights[r], TickedBy(cfg.shaper, t.call, p.weights[r]))
  {
    match t.call
    case Scored(m) => MetricStays(cfg, p, m, t.now, r);
    case Notice(s, event) => NoticeStays(cfg, p, s, event, t.now, r);
    case CheckTimers(order) => TimersStay(cfg, p, order, t.now, r);
    case ShaperTick =>
  }

  lemma OneMoreTickedBy(cfg: Shaper.Config, rw: RegionWeight, calls: seq<Timed>)
    requires calls != []
    ensures Shaper.TickedTimes(cfg, rw, Ticks(calls))
         == TickedBy(cfg, calls[|calls| - 1].call, Shaper.TickedTimes(cfg, rw, Ticks(calls[..|calls| - 1])))
  {
    Shaper.OneMoreTick(cfg, rw, Ticks(calls[..|calls| - 1]));
  }

  lemma {:induction false} TicksKeepHearing(cfg: Shaper.Config, rw: RegionWeight, n: nat)
    ensures Deaf(Shaper.TickedTimes(cfg, rw, n)) <==> Deaf(rw)
    decreases n
  {
    if n > 0 {
      TicksKeepHearing(cfg, Shaper.Ticked(cfg, rw), n - 1);
    }
  }

  lemma LastStays(cfg: Config, p: Plane, calls: seq<Timed>, r: string)
    requires r in p.fsms && calls != [] && Stays(cfg, p, calls, r)
    ensures var before, last := calls[..|calls| - 1], calls[|calls| - 1];
            && Stays(cfg, p, before, r) && Steps(cfg, p, before).fsms[r] == p.fsms[r]
            && Step(cfg, Steps(cfg, p, before), last.call, last.now).fsms[r] == Steps(cfg, p, before).fsms[r]
            && Steps(cfg, p, calls) == Step(cfg, Steps(cfg, p, before), last.call, last.now)
  {
  }

  lemma StayFollowsTicks(cfg: Config, p: Plane, t: Timed, r: string, ticked: RegionWeight)
    requires PlaneInv(cfg, p) && r in p.fsms && Step(cfg, p, t.call, t.now).fsms[r] == p.fsms[r]
    requires Deaf(ticked) || !Advises(t.call, r)
    requires SameCourse(p.weights[r], ticked)
    ensures SameCourse(Step(cfg, p, t.call, t.now).weights[r], TickedBy(cfg.shaper, t.call, ticked))
  {
    StayKeepsCourse(cfg, p, t, r);
    TicksIgnoreAdvice(cfg.shaper, p.weights[r], ticked);
  }

  lemma LastCallTicks(cfg: Config, p: Plane, calls: seq<Timed>, r: string)
    requires r in p.fsms && r in p.weights && calls != [] && Stays(cfg, p, calls, r)
    requires Deaf(p.weights[r]) || !Advises(calls[|calls| - 1].call, r)
    requires var before := calls[..|calls| - 1];
             PlaneInv(cfg, Steps(cfg, p, before))
             && SameCourse(Steps(cfg, p, before).weights[r], Shaper.TickedTimes(cfg.shaper, p.weights[r], Ticks(before)))
    ensures SameCourse(Steps(cfg, p, calls).weights[r], Shaper.TickedTimes(cfg.shaper, p.weights[r], Ticks(calls)))
  {
    var before, last := calls[..|calls| - 1], calls[|calls| - 1];
    LastStays(cfg, p, calls, r);
    TicksKeepHearing(cfg.shaper, p.weights[r], Ticks(before));
    StayFollowsTicks(cfg, Steps(cfg, p, before), last, r, Shaper.TickedTimes(cfg.shaper, p.weights[r], Ticks(before)));
    OneMoreTickedBy(cfg.shaper, p.weights[r], calls);
  }

  /** While a region stays in a state, and takes or gets no advice, its weight is moved by the ticks alone. */
  lemma {:induction false} WeightIsTicked(cfg: Config, p: Plane, calls: seq<Timed>, r: string)
    requires cfg.shaper.Sane() && PlaneInv(cfg, p) && r in p.fsms && Stays(cfg, p, calls, r)
    requires Deaf(p.weights[r]) || Unadvised(calls, r)
    ensures SameCourse(Steps(cfg, p, calls).weights[r], Shaper.TickedTimes(cfg.shaper, p.weights[r], Ticks(calls)))
  {
    if calls != [] {
      var before, last := calls[..|calls| - 1], calls[|calls| - 1];
      assert Deaf(p.weights[r]) || (Unadvised(before, r) && !Advises(last.call, r));
      WeightIsTicked(cfg, p, before, r);
      StepsKeepInv(cfg, p, before);
      LastCallTicks(cfg, p, calls, r);
    }
  }

  // ----- getting there -----

  /** The time that the ticks among the calls stand for. */
  function Elapsed(cfg: Shaper.Config, calls: seq<Timed>): real {
    MapSums.Repeat(Ticks(calls), cfg.tickInterval)
  }

  /** The share of the way covered is the share of the period gone by. */
  predicate InStride(from: real, reached: real, to: real, elapsed: real, period: real) {
    Times(reached - from, period) == Times(to - from, elapsed)
  }

  ghost function Entered(cfg: Config, p: Plane, t: Timed): Plane { Step(cfg, p, t.call, t.now) }

  /** The plane after one call and then others. */
  ghost function After(cfg: Config, p: Plane, t: Timed, calls: seq<Timed>): (q: Plane)
    ensures q.fsms.Keys == p.fsms.Keys && q.weights.Keys == p.weights.Keys
  {
    Steps(cfg, Entered(cfg, p, t), calls)
  }

  /** A call takes the region into the state, and the calls after it leave it there. */
  ghost predicate EntersAndStays(cfg: Config, p: Plane, t: Timed, calls: seq<Timed>, r: string, s: State) {
    && PlaneInv(cfg, p) && r in p.fsms
    && Entered(cfg, p, t).fsms[r] != p.fsms[r] && Entered(cfg, p, t).fsms[r].current == s
    && Stays(cfg, Entered(cfg, p, t), calls, r)
  }

  lemma EntryKeepsInv(cfg: Config, p: Plane, t: Timed, r: string)
    requires cfg.shaper.Sane() && PlaneInv(cfg, p) && r in p.fsms && Entered(cfg, p, t).fsms[r] != p.fsms[r]
    ensures var q := Entered(cfg, p, t);
            PlaneInv(cfg, q) && r in q.weights && Shaper.OnCourse(cfg.shaper, q.weights[r])
            && Steered(cfg.shaper, p.fsms[r].current, q.fsms[r].current, p.weights[r], q.weights[r])
  {
    StepKeepsInv(cfg, p, t.call, t.now);
    EntrySteersWeight(cfg, p, t, r);
    assert RegionInv(cfg.shaper, Entered(cfg, p, t).fsms[r], Entered(cfg, p, t).weights[r]);
  }

  /** The ticks among the calls have brought the one weight to the other. */
  predicate TickedTo(cfg: Shaper.Config, rw: RegionWeight, calls: seq<Timed>, after: RegionWeight) {
    SameCourse(after, Shaper.TickedTimes(cfg, rw, Ticks(calls)))
  }

  lemma EntryThenTicks(cfg: Config, p: Plane, t: Timed, calls: seq<Timed>, r: string, s: State)
    requires cfg.shaper.Sane() && EntersAndStays(cfg, p, t, calls, r, s) && (s == Degraded || Unadvised(calls, r))
    ensures r in p.weights && r in Entered(cfg, p, t).weights && r in After(cfg, p, t, calls).weights
    ensures Shaper.OnCourse(cfg.shaper, Entered(cfg, p, t).weights[r])
    ensures Steered(cfg.shaper, p.fsms[r].current, s, p.weights[r], Entered(cfg, p, t).weights[r])
    ensures TickedTo(cfg.shaper, Entered(cfg, p, t).weights[r], calls, After(cfg, p, t, calls).weights[r])
  {
    EntryKeepsInv(cfg, p, t, r);
    WeightIsTicked(cfg, Entered(cfg, p, t), calls, r);
  }

  lemma ArrivesIff(cfg: Shaper.Config, rw: RegionWeight, period: real, calls: seq<Timed>, after: RegionWeight)
    requires cfg.Sane() && Shaper.OnCourse(cfg, rw) && Shaper.OnSchedule(rw, period)
    requires Elapsed(cfg, calls) >= period && TickedTo(cfg, rw, calls, after)
    ensures after.target == rw.target && cfg.minimumWeight <= after.current <= 1.0
    ensures Shaper.Abs(after.current - after.target) <= 0.001 <==> rw.current == rw.target || !Shaper.Stalls(cfg, rw)
  {
    Shaper.CourseEndsOnSchedule(cfg, rw, period, Ticks(calls));
    Shaper.TicksKeepTarget(cfg, rw, Ticks(calls));
  }

  lemma DecayArrives(cfg: Shaper.Config, before: RegionWeight, rw: RegionWeight, calls: seq<Timed>, after: RegionWeight)
    requires cfg.Sane() && cfg.degradedDecayPeriod > 0.0 && Shaper.OnCourse(cfg, rw)
    requires Sets(before, rw, cfg.minimumWeight, cfg.degradedDecayPeriod)
    requires Elapsed(cfg, calls) >= cfg.degradedDecayPeriod && TickedTo(cfg, rw, calls, after)
    ensures rw.current == before.current
    ensures after.current <= cfg.minimumWeight + 0.001 <==> before.current == cfg.minimumWeight || !Shaper.Stalls(cfg, rw)
  {
    ArrivesIff(cfg, rw, cfg.degradedDecayPeriod, calls, after);
  }

  lemma RampArrives(cfg: Shaper.Config, before: RegionWeight, rw: RegionWeight, calls: seq<Timed>, after: RegionWeight)
    requires cfg.Sane() && cfg.recoveryRampPeriod > 0.0 && Shaper.OnCourse(cfg, rw)
    requires Sets(before, rw, 1.0, cfg.recoveryRampPeriod)
    requires Elapsed(cfg, calls) >= cfg.recoveryRampPeriod && TickedTo(cfg, rw, calls, after)
    ensures rw.current == before.current
    ensures after.current >= 1.0 - 0.001 <==> before.current == 1.0 || !Shaper.Stalls(cfg, rw)
  {
    ArrivesIff(cfg, rw, cfg.recoveryRampPeriod, calls, after);
  }

  /** A region that has been in DEGRADED for the decay period, counted in ticks, is within SNAP of the minimum
      weight exactly if it was there on entering or its decay does not stall. */
  lemma DegradedReachesMinimumIff(cfg: Config, p: Plane, t: Timed, calls: seq<Timed>, r: string)
    requires cfg.shaper.Sane() && cfg.shaper.degradedDecayPeriod > 0.0 && EntersAndStays(cfg, p, t, calls, r, Degraded)
    requires Elapsed(cfg.shaper, calls) >= cfg.shaper.degradedDecayPeriod
    ensures r in p.weights && Entered(cfg, p, t).weights[r].current == p.weights[r].current
    ensures After(cfg, p, t, calls).weights[r].current <= cfg.shaper.minimumWeight + 0.001
            <==> p.weights[r].current == cfg.shaper.minimumWeight || !Shaper.Stalls(cfg.shaper, Entered(cfg, p, t).weights[r])
  {
    EntryThenTicks(cfg, p, t, calls, r, Degraded);
    DecayArrives(cfg.shaper, p.weights[r], Entered(cfg, p, t).weights[r], calls, After(cfg, p, t, calls).weights[r]);
  }

  /** A region that has been in RECOVERED for the ramp period, counted in ticks, and was not advised to take
      less, is within SNAP of full weight exactly if it was there on entering or its ramp does not stall. */
  lemma RecoveredReachesFullIff(cfg: Config, p: Plane, t: Timed, calls: seq<Timed>, r: string)
    requires cfg.shaper.Sane() && cfg.shaper.recoveryRampPeriod > 0.0 && EntersAndStays(cfg, p, t, calls, r, Recovered)
    requires Unadvised(calls, r)
    requires Elapsed(cfg.shaper, calls) >= cfg.shaper.recoveryRampPeriod
    ensures r in p.weights && Entered(cfg, p, t).weights[r].current == p.weights[r].current
    ensures After(cfg, p, t, calls).weights[r].current >= 1.0 - 0.001
            <==> p.weights[r].current == 1.0 || !Shaper.Stalls(cfg.shaper, Entered(cfg, p, t).weights[r])
  {
    EntryThenTicks(cfg, p, t, calls, r, Recovered);
    RampArrives(cfg.shaper, p.weights[r], Entered(cfg, p, t).weights[r], calls, After(cfg, p, t, calls).weights[r]);
  }

  /** On the way up it has covered the share of the way that is the share of the ramp period gone by. */
  lemma RecoveringOnTheWay(cfg: Config, p: Plane, t: Timed, calls: seq<Timed>, r: string)
    requires cfg.shaper.Sane() && cfg.shaper.recoveryRampPeriod > 0.0 && EntersAndStays(cfg, p, t, calls, r, Recovered)
    requires Unadvised(calls, r) && r in p.weights && p.weights[r].current < 1.0
    requires var rw := Entered(cfg, p, t).weights[r];
             Shaper.Stride(cfg.shaper, rw) > 0.001 && MapSums.Repeat(Ticks(calls), Shaper.Stride(cfg.shaper, rw)) + 0.001 <= Shaper.Distance(rw)
    ensures InStride(p.weights[r].current, After(cfg, p, t, calls).weights[r].current, 1.0, Elapsed(cfg.shaper, calls), cfg.shaper.recoveryRampPeriod)
  {
    EntryThenTicks(cfg, p, t, calls, r, Recovered);
    OnTheWay(cfg.shaper, p.weights[r], Entered(cfg, p, t).weights[r], calls, After(cfg, p, t, calls).weights[r]);
  }

  lemma OnTheWay(cfg: Shaper.Config, before: RegionWeight, rw: RegionWeight, calls: seq<Timed>, after: RegionWeight)
    requires cfg.Sane() && cfg.recoveryRampPeriod > 0.0 && before.current < 1.0 && TickedTo(cfg, rw, calls, after)
    requires Shaper.OnCourse(cfg, rw) && Sets(before, rw, 1.0, cfg.recoveryRampPeriod)
    requires Shaper.Stride(cfg, rw) > 0.001 && MapSums.Repeat(Ticks(calls), Shaper.Stride(cfg, rw)) + 0.001 <= Shaper.Distance(rw)
    ensures InStride(before.current, after.current, 1.0, Elapsed(cfg, calls), cfg.recoveryRampPeriod)
  {
    Shaper.CourseIsLinear(cfg, rw, cfg.recoveryRampPeriod, Ticks(calls));
  }

  /** However far it has got, a region that goes on from RECOVERED to HEALTHY is at full weight at once. */
  lemma HealthyIsAtFullWeight(cfg: Config, p: Plane, t: Timed, r: string)
    requires cfg.shaper.Sane() && PlaneInv(cfg, p) && r in p.fsms && p.fsms[r].current == Recovered
    requires Entered(cfg, p, t).fsms[r].current == Healthy
    ensures var q := Entered(cfg, p, t); r in q.weights && At(q.weights[r], 1.0) && !q.weights[r].hardFail
  {
    EntrySteersWeight(cfg, p, t, r);
  }

  /** The advice a region follows is the last it takes in its state: from then on the ticks alone take it
      there, within 30 seconds exactly unless it stalls. */
  lemma FirstAdviceIsFinal(cfg: Config, p: Plane, t: Timed, calls: seq<Timed>, r: string)
    requires cfg.shaper.Sane() && PlaneInv(cfg, p) && r in p.fsms && Advises(t.call, r) && !Deaf(p.weights[r])
    requires Entered(cfg, p, t).fsms[r] == p.fsms[r] && Stays(cfg, Entered(cfg, p, t), calls, r)
    requires Elapsed(cfg.shaper, calls) >= 30.0
    ensures var goal := Goal(cfg.shaper, t.call.metric.banditRoutingWeight);
            && After(cfg, p, t, calls).weights[r].target == goal
            && (Shaper.Abs(After(cfg, p, t, calls).weights[r].current - goal) <= 0.001
                <==> p.weights[r].current == goal || !Shaper.Stalls(cfg.shaper, Entered(cfg, p, t).weights[r]))
  {
    StepKeepsInv(cfg, p, t.call, t.now);
    AdviceFollowed(cfg, p, t, r);
    AdvisedThenTicks(cfg, Entered(cfg, p, t), calls, r);
    ArrivesIff(cfg.shaper, Entered(cfg, p, t).weights[r], 30.0, calls, After(cfg, p, t, calls).weights[r]);
  }

  function Goal(cfg: Shaper.Config, w: real): real {
    if w < cfg.minimumWeight then cfg.minimumWeight else w
  }

  lemma AdvisedThenTicks(cfg: Config, p: Plane, calls: seq<Timed>, r: string)
    requires cfg.shaper.Sane() && PlaneInv(cfg, p) && r in p.fsms && Stays(cfg, p, calls, r) && Deaf(p.weights[r])
    ensures Shaper.OnCourse(cfg.shaper, p.weights[r])
    ensures TickedTo(cfg.shaper, p.weights[r], calls, Steps(cfg, p, calls).weights[r])
  {
    InvIsOnCourse(cfg, p);
    WeightIsTicked(cfg, p, calls, r);
  }

  lemma AdviceFollowed(cfg: Config, p: Plane, t: Timed, r: string)
    requires cfg.shaper.Sane() && PlaneInv(cfg, p) && r in p.fsms && Advises(t.call, r) && !Deaf(p.weights[r])
    requires Entered(cfg, p, t).fsms[r] == p.fsms[r]
    ensures r in Entered(cfg, p, t).weights
    ensures var rw := Entered(cfg, p, t).weights[r];
            && rw.current == p.weights[r].current && rw.target == Goal(cfg.shaper, t.call.metric.banditRoutingWeight)
            && Shaper.OnSchedule(rw, 30.0) && Deaf(rw)
  {
    var m := t.call.metric;
    var counted, v := Counted(cfg, p, m), Judge(cfg, CountOf(p.counts, r), p.fsms[r].current, m);
    CountedAdvises(cfg, p, m, r);
    Shaper.AdviceAims(cfg.shaper, p.weights[r], m.banditRoutingWeight);
    assert Entered(cfg, p, t) == Processed(cfg, p, m, t.now);
    if v.event.Some? {
      var e := DeliveryEffect(cfg, counted, r, v.event.value, t.now, r);
      LinkStays(cfg, counted.fsms[r], counted.weights[r], e, t.now);
    }
  }

  // ----- healing and recovering with the default settings -----

  /** A region enters HEALING under the weight to which the ticks since it was degraded have brought it. */
  lemma HealingStartsWhereDecayGot(cfg: Config, p: Plane, t: Timed, calls: seq<Timed>, u: Timed, r: string)
    requires cfg.shaper.Sane() && EntersAndStays(cfg, p, t, calls, r, Degraded)
    requires Entered(cfg, After(cfg, p, t, calls), u).fsms[r].current == Healing
    ensures r in Entered(cfg, p, t).weights
    ensures TickedTo(cfg.shaper, Entered(cfg, p, t).weights[r], calls, Entered(cfg, After(cfg, p, t, calls), u).weights[r])
  {
    EntryThenTicks(cfg, p, t, calls, r, Degraded);
    AfterIsSound(cfg, p, t, calls, r, Degraded);
    HealingKeepsWeight(cfg, After(cfg, p, t, calls), u, r);
  }

  lemma AfterIsSound(cfg: Config, p: Plane, t: Timed, calls: seq<Timed>, r: string, s: State)
    requires cfg.shaper.Sane() && EntersAndStays(cfg, p, t, calls, r, s)
    ensures PlaneInv(cfg, After(cfg, p, t, calls)) && After(cfg, p, t, calls).fsms[r] == Entered(cfg, p, t).fsms[r]
  {
    EntryKeepsInv(cfg, p, t, r);
    StaysPut(cfg, Entered(cfg, p, t), calls, r);
    StepsKeepInv(cfg, Entered(cfg, p, t), calls);
  }

  lemma StaysPut(cfg: Config, p: Plane, calls: seq<Timed>, r: string)
    requires r in p.fsms && Stays(cfg, p, calls, r)
    ensures Steps(cfg, p, calls).fsms[r] == p.fsms[r]
  {
  }

  lemma HealingKeepsWeight(cfg: Config, p: Plane, u: Timed, r: string)
    requires cfg.shaper.Sane() && PlaneInv(cfg, p) && r in p.fsms && p.fsms[r].current != Healing
    requires Entered(cfg, p, u).fsms[r].current == Healing
    ensures SameCourse(Entered(cfg, p, u).weights[r], p.weights[r])
  {
    EntrySteersWeight(cfg, p, u, r);
  }

  /** Once the decay period has passed in ticks, that is within SNAP of the minimum exactly unless the decay
      stalls. */
  lemma HealingAtMinimumIff(cfg: Config, p: Plane, t: Timed, calls: seq<Timed>, u: Timed, r: string)
    requires cfg.shaper.Sane() && cfg.shaper.degradedDecayPeriod > 0.0 && EntersAndStays(cfg, p, t, calls, r, Degraded)
    requires Elapsed(cfg.shaper, calls) >= cfg.shaper.degradedDecayPeriod
    requires Entered(cfg, After(cfg, p, t, calls), u).fsms[r].current == Healing
    ensures r in p.weights
    ensures Entered(cfg, After(cfg, p, t, calls), u).weights[r].current <= cfg.shaper.minimumWeight + 0.001
            <==> p.weights[r].current == cfg.shaper.minimumWeight || !Shaper.Stalls(cfg.shaper, Entered(cfg, p, t).weights[r])
  {
    EntryThenTicks(cfg, p, t, calls, r, Degraded);
    HealingStartsWhereDecayGot(cfg, p, t, calls, u, r);
    DecayArrives(cfg.shaper, p.weights[r], Entered(cfg, p, t).weights[r], calls, Entered(cfg, After(cfg, p, t, calls), u).weights[r]);
  }

  /** Two calls take a fresh region to HEALING at full weight. */
  lemma HealingAtFullWeight(cfg: Config, regions: seq<string>, start: int, r: string, now: int)
    requires r in regions && cfg.shaper.degradedDecayPeriod > 0.0
    ensures var p := RunPlane(cfg, regions, start, [Timed(Notice(r, ManualOverride), now), Timed(Notice(r, RunbookStarted), now)]);
            r in p.fsms && r in p.weights && p.fsms[r].current == Healing && p.weights[r].current == Shaper.FULL_WEIGHT
  {
    var first, second := Timed(Notice(r, ManualOverride), now), Timed(Notice(r, RunbookStarted), now);
    assert [first, second][..1] == [first] && [first][..0] == [];
    var p0 := Started(cfg, regions, start);
    var p1 := Delivered(cfg, p0, r, ManualOverride, now);
    assert RunPlane(cfg, regions, start, [first]) == Step(cfg, p0, first.call, now) == p1;
    assert RunPlane(cfg, regions, start, [first, second]) == Step(cfg, p1, second.call, now) == Delivered(cfg, p1, r, RunbookStarted, now);
  }

  /** With the default settings RECOVERED lasts 60 seconds and a ramp 300: a region that enters it at the
      minimum is at 0.24 when its time is up after twelve ticks, and then jumps to full weight. */
  lemma DefaultRampIsCutShort(cfg: Config, p: Plane, t: Timed, calls: seq<Timed>, r: string, order: seq<string>, now: int)
    requires cfg.shaper == Shaper.DEFAULT_CONFIG && cfg.timeouts == DEFAULT_TIMEOUTS
    requires EntersAndStays(cfg, p, t, calls, r, Recovered) && Unadvised(calls, r) && Ticks(calls) == 12
    requires r in p.weights && p.weights[r].current == 0.05 && now >= Entered(cfg, p, t).fsms[r].enteredAt + 60 * 1_000_000_000
    ensures var late := After(cfg, p, t, calls);
            && late.weights[r].current == 0.24
            && Step(cfg, late, CheckTimers(order), now).fsms[r].current == Healthy
            && Step(cfg, late, CheckTimers(order), now).weights[r].current == 1.0
  {
    EntryThenTicks(cfg, p, t, calls, r, Recovered);
    AfterIsSound(cfg, p, t, calls, r, Recovered);
    DefaultTwelveTicks(p.weights[r], Entered(cfg, p, t).weights[r], calls, After(cfg, p, t, calls).weights[r]);
    RecoveredExpires(cfg, After(cfg, p, t, calls), r, order, now);
  }

  lemma RecoveredExpires(cfg: Config, p: Plane, r: string, order: seq<string>, now: int)
    requires cfg.shaper.Sane() && PlaneInv(cfg, p) && r in p.fsms && p.fsms[r].current == Recovered
    requires now >= p.fsms[r].enteredAt + cfg.timeouts.recovered
    ensures var q := Step(cfg, p, CheckTimers(order), now);
            q.fsms[r].current == Healthy && r in q.weights && q.weights[r].current == 1.0
  {
    var t := Timed(CheckTimers(order), now);
    RecoveredTurnsHealthy(cfg, p, r, order, now);
    assert Entered(cfg, p, t) == Step(cfg, p, CheckTimers(order), now);
    HealthyIsAtFullWeight(cfg, p, t, r);
  }

  lemma RecoveredTurnsHealthy(cfg: Config, p: Plane, r: string, order: seq<string>, now: int)
    requires r in p.fsms && p.fsms[r].current == Recovered && now >= p.fsms[r].enteredAt + cfg.timeouts.recovered
    ensures Step(cfg, p, CheckTimers(order), now).fsms[r].current == Healthy
  {
    assert Step(cfg, p, CheckTimers(order), now) == Checked(cfg, p, order, now);
  }

  lemma DefaultTwelveTicks(before: RegionWeight, rw: RegionWeight, calls: seq<Timed>, after: RegionWeight)
    requires before.current == 0.05 && Sets(before, rw, 1.0, 300.0) && Ticks(calls) == 12
    requires TickedTo(Shaper.DEFAULT_CONFIG, rw, calls, after)
    ensures after.current == 0.24
  {
    DefaultStride(rw);
    MapSums.RepeatIsProduct(12, 5.0);
    OnTheWay(Shaper.DEFAULT_CONFIG, before, rw, calls, after);
  }

  lemma DefaultStride(rw: RegionWeight)
    requires Shaper.OnSchedule(rw, 300.0) && rw.current == 0.05 && rw.target == 1.0
    ensures Shaper.Stride(Shaper.DEFAULT_CONFIG, rw) == 0.95 / 60.0
    ensures MapSums.Repeat(12, Shaper.Stride(Shaper.DEFAULT_CONFIG, rw)) == 0.19
  {
    assert rw.ratePerSec == 0.95 / 300.0;
    MapSums.RepeatIsProduct(12, 0.95 / 60.0);
  }
}
