/**
 The anti-flapping counter of the controller, accounted for over whole runs
 (control-plane-04/controlplane/controller.go, processScoredMetric).
 */
module AntiFlapping {
  import opened Options
  import opened Listings
  import opened Statemachine
  import opened Controlplane
  import opened HealingLoop

  /** Books kept beside a run for one region, without a look at the counter: qualifying signals seen, those
      since the last reset, resets because the threshold was reached, signals forgotten by other resets,
      and critical events sent. */
  datatype Tally = Tally(seen: nat, since: nat, filled: nat, forgotten: nat, sent: nat)

  function Threshold(cfg: Config): int {
    if cfg.criticalSignalsThreshold > 1 then cfg.criticalSignalsThreshold else 1
  }

  /** A metric that clears the counter without being counted itself: a failover asked for in HEALTHY, or a
      healthy signal. */
  predicate Clears(cfg: Config, state: State, m: Metric) {
    && m.failoverConfidence >= cfg.minFailoverConfidence
    && !Qualifies(cfg, m)
    && if m.shouldTriggerFailover then state == Healthy else m.isolationForestScore < 0.30
  }

  function Booked(cfg: Config, state: State, m: Metric, sent: bool, t: Tally): Tally {
    var u := if sent then t.(sent := t.sent + 1) else t;
    if Qualifies(cfg, m) then
      if t.since + 1 == Threshold(cfg) then u.(seen := t.seen + 1, since := 0, filled := t.filled + 1)
      else u.(seen := t.seen + 1, since := t.since + 1)
    else if Clears(cfg, state, m) then u.(since := 0, forgotten := t.forgotten + t.since)
    else u
  }

  predicate Concerns(p: Plane, call: Call, r: string) {
    call.Scored? && call.metric.region == r && r in p.fsms
  }

  /** Whether the call sends the region's machine a critical event. */
  predicate SendsCritical(cfg: Config, p: Plane, call: Call, r: string) {
    Concerns(p, call, r) && Judge(cfg, CountOf(p.counts, r), p.fsms[r].current, call.metric).event == Some(SeverityCritical)
  }

  function StepBooks(cfg: Config, p: Plane, call: Call, r: string, t: Tally): Tally {
    if Concerns(p, call, r) then Booked(cfg, p.fsms[r].current, call.metric, SendsCritical(cfg, p, call, r), t) else t
  }

  ghost function Books(cfg: Config, regions: seq<string>, start: int, calls: seq<Timed>, r: string): Tally {
    if calls == [] then Tally(0, 0, 0, 0, 0)
    else
      var before := calls[..|calls| - 1];
      StepBooks(cfg, RunPlane(cfg, regions, start, before), calls[|calls| - 1].call, r, Books(cfg, regions, start, before, r))
  }

  /** The counter holds the qualifying signals since the last reset, and every one ever seen is in the books. */
  ghost predicate Balanced(cfg: Config, t: Tally, count: int) {
    && count == t.since < Threshold(cfg)
    && t.seen == Threshold(cfg) * t.filled + t.forgotten + t.since
    && t.sent <= t.filled
  }

  lemma StepBalances(cfg: Config, p: Plane, timed: Timed, r: string, t: Tally)
    requires Balanced(cfg, t, CountOf(p.counts, r))
    ensures Balanced(cfg, StepBooks(cfg, p, timed.call, r, t), CountOf(Step(cfg, p, timed.call, timed.now).counts, r))
  {
    StepCounts(cfg, p, timed, r);
    assert Threshold(cfg) * (t.filled + 1) == Threshold(cfg) * t.filled + Threshold(cfg);
  }

  lemma StepCounts(cfg: Config, p: Plane, timed: Timed, r: string)
    ensures CountOf(Step(cfg, p, timed.call, timed.now).counts, r) ==
              if !Concerns(p, timed.call, r) then CountOf(p.counts, r)
              else
                var v := Judge(cfg, CountOf(p.counts, r), p.fsms[r].current, timed.call.metric);
                if v.count.Some? then v.count.value else CountOf(p.counts, r)
  {
  }

  /** In every run and for every region the counter is the number of qualifying signals since the last
      reset, below the threshold; the qualifying signals seen are those of the full counts, the forgotten
      ones and the ones counted now; so critical events times the threshold never exceed them. */
  lemma {:induction false} SignalsAreAccountedFor(cfg: Config, regions: seq<string>, start: int, calls: seq<Timed>, r: string)
    ensures var t := Books(cfg, regions, start, calls, r);
            && CountOf(RunPlane(cfg, regions, start, calls).counts, r) == t.since < Threshold(cfg)
            && t.seen == Threshold(cfg) * t.filled + t.forgotten + t.since
            && t.sent <= t.filled
            && Threshold(cfg) * t.sent <= t.seen
  {
    if calls != [] {
      var before := calls[..|calls| - 1];
      SignalsAreAccountedFor(cfg, regions, start, before, r);
      StepBalances(cfg, RunPlane(cfg, regions, start, before), calls[|calls| - 1], r, Books(cfg, regions, start, before, r));
    }
    var t := Books(cfg, regions, start, calls, r);
    MoreOfTheSame(Threshold(cfg), t.sent, t.filled);
  }

  lemma MoreOfTheSame(x: int, a: nat, b: nat)
    requires x >= 0 && a <= b
    ensures x * a <= x * b
  {
  }

  /** In every run a critical event is sent exactly by the threshold-th qualifying signal since the last
      reset, if it finds its region HEALTHY or DEGRADED; and it changes the region's state exactly if that
      was HEALTHY. */
  lemma CriticalOnlyWhenFull(cfg: Config, regions: seq<string>, start: int, calls: seq<Timed>, r: string, m: Metric, now: int)
    requires r in regions && m.region == r
    ensures var p := RunPlane(cfg, regions, start, calls);
            && r in p.fsms
            && (SendsCritical(cfg, p, Scored(m), r)
                <==> && Qualifies(cfg, m)
                     && Books(cfg, regions, start, calls, r).since == Threshold(cfg) - 1
                     && p.fsms[r].current in {Healthy, Degraded})
            && (SendsCritical(cfg, p, Scored(m), r) ==>
                  var f := Step(cfg, p, Scored(m), now).fsms[r];
                  f.current == Degraded && (f != p.fsms[r] <==> p.fsms[r].current == Healthy))
  {
    var p := RunPlane(cfg, regions, start, calls);
    RegionsRunIndependently(cfg, regions, start, calls, r);
    SignalsAreAccountedFor(cfg, regions, start, calls, r);
    CriticalAtThreshold(cfg, p, m);
    CriticalMoves(cfg, p, m, now);
  }

  lemma CriticalAtThreshold(cfg: Config, p: Plane, m: Metric)
    requires m.region in p.fsms && 0 <= CountOf(p.counts, m.region) < Threshold(cfg)
    ensures SendsCritical(cfg, p, Scored(m), m.region)
            <==> && Qualifies(cfg, m)
                 && CountOf(p.counts, m.region) == Threshold(cfg) - 1
                 && p.fsms[m.region].current in {Healthy, Degraded}
  {
  }

  lemma CriticalMoves(cfg: Config, p: Plane, m: Metric, now: int)
    ensures SendsCritical(cfg, p, Scored(m), m.region) ==>
              var f := Step(cfg, p, Scored(m), now).fsms[m.region];
              f.current == Degraded && (f != p.fsms[m.region] <==> p.fsms[m.region].current == Healthy)
  {
    if SendsCritical(cfg, p, Scored(m), m.region) {
      StepFollowsInputs(cfg, p, Timed(Scored(m), now), m.region);
      assert Step(cfg, p, Scored(m), now).fsms[m.region] == Sent(p.fsms[m.region], SeverityCritical, now);
    }
  }

  /** "Consecutive" is more than the code asks for: a metric below the confidence floor, however calm,
      leaves the counter as it is, so three critical signals far apart still trigger at threshold 3. */
  lemma CriticalSignalsNeedNotBeConsecutive(cfg: Config, p: Plane, r: string, critical: Metric, calm: Metric, now: int)
    requires cfg.criticalSignalsThreshold == 3 && r in p.fsms && p.fsms[r].current == Healthy && CountOf(p.counts, r) == 0
    requires Qualifies(cfg, critical) && critical.region == r
    requires calm.region == r && calm.failoverConfidence < cfg.minFailoverConfidence
    ensures var p1 := Step(cfg, Step(cfg, p, Scored(critical), now), Scored(calm), now);
            var p2 := Step(cfg, Step(cfg, p1, Scored(critical), now), Scored(calm), now);
            && p1.fsms[r].current == Healthy && p2.fsms[r].current == Healthy
            && Step(cfg, p2, Scored(critical), now).fsms[r].current == Degraded
  {
    var p1 := Step(cfg, Step(cfg, p, Scored(critical), now), Scored(calm), now);
    assert CountOf(p1.counts, r) == 1;
    var p2 := Step(cfg, Step(cfg, p1, Scored(critical), now), Scored(calm), now);
    assert CountOf(p2.counts, r) == 2;
  }
}
