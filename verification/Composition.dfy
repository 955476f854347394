/**
 What the parts promise together: the scoring pipeline's metrics driving the control plane, and the
 control plane's weights dividing the subnets.
 */
module Composition {
  import opened Options
  import opened Listings
  import opened RealArithmetic
  import opened Statemachine
  import opened Controlplane
  import opened HealingLoop
  import opened MapSums
  import Pipeline = ScoringPipeline
  import Bandit
  import Routetable
  import Apportionment
  import Shaper = Trafficshaper

  // ----- from the models to a metric -----

  function SeverityName(s: Pipeline.Severity): string {
    match s
    case Nominal => "NOMINAL"
    case Warning => "WARNING"
    case DegradedFault => "DEGRADED"
    case Critical => "CRITICAL"
  }

  /** The scored metric as the control plane reads it. */
  function Wire(region: string, e: Pipeline.Evidence): Metric {
    var d := Pipeline.EnsembleDecision(e);
    Metric(region, e.ifScore, SeverityName(e.severity), e.xgbConf, e.weight, d.trigger, d.confidence)
  }

  ghost predicate FromPipeline(m: Metric) {
    exists e :: Pipeline.InRange(e) && m == Wire(m.region, e)
  }

  ghost predicate ModelsInRange<V(!new)>(models: Pipeline.Models<V>) {
    && (forall v :: 0.0 <= models.forest(v) <= 1.0)
    && (forall s :: 0.0 <= models.network(s).confidence <= 1.0)
    && (forall v, f :: 0.0 <= models.classify(v, f).1 <= 1.0)
  }

  /** With models in range and floored bandit weights, whatever the pipeline scores is such a metric; in
      particular no region's weight is ever zero. */
  lemma PipelineMakesMetrics<V(!new)>(models: Pipeline.Models<V>, window: seq<V>, seqLen: nat, m: Pipeline.AggregatedMetric<V>, raw: map<string, real>)
    requires ModelsInRange(models) && (raw == map[] || Bandit.Shares(raw))
    ensures var s := Pipeline.Scored(models, window, seqLen, m, Bandit.Floored(raw));
            FromPipeline(Wire(s.region, s.evidence)) && s.decision == Pipeline.EnsembleDecision(s.evidence)
  {
    var weights := Bandit.Floored(raw);
    if m.region in weights {
      FlooredWeightInRange(raw, m.region);
    }
    var s := Pipeline.Scored(models, window, seqLen, m, weights);
    assert Pipeline.InRange(s.evidence);
  }

  lemma FlooredWeightInRange(raw: map<string, real>, r: string)
    requires Bandit.Shares(raw) && r in raw
    ensures 0.0 < Bandit.Floored(raw)[r] <= 1.0
  {
    var weights := Bandit.Floored(raw);
    forall q | q in weights ensures weights[q] > 0.0 {
      Bandit.ClippedTotal(raw);
      QuotientSign(Bandit.Clipped(raw)[q], Sum(Bandit.Clipped(raw)));
    }
    Bandit.FlooredAddUp(raw);
    SumSplit(weights, r);
    SumIsPositive(weights - {r});
  }

  // ----- what such a metric can do -----

  lemma QuietMeansNoConfidence(m: Metric)
    requires FromPipeline(m)
    ensures m.shouldTriggerFailover <==> m.failoverConfidence > 0.0
    ensures m.failoverConfidence >= 0.0
  {
    var e :| Pipeline.InRange(e) && m == Wire(m.region, e);
    Pipeline.EnsembleMeaning(e);
  }

  /** With a positive confidence floor a metric that does not ask for a failover is not even looked at:
      the health branch never resets the counter and never verifies health. */
  lemma QuietMetricsAreIgnored(cfg: Config, count: int, state: State, m: Metric)
    requires FromPipeline(m) && cfg.minFailoverConfidence > 0.0 && !m.shouldTriggerFailover
    ensures Judge(cfg, count, state, m) == Verdict(None, None)
  {
  }

  const CALM := Pipeline.Evidence(0.0, Pipeline.Nominal, 0.0, 0.0, 1.0)

  /** A metric of the pipeline can verify health exactly when there is no confidence floor. */
  lemma HealthVerifiedNeedsNoFloor(cfg: Config, count: int, region: string)
    ensures (exists m :: FromPipeline(m) && m.region == region && Judge(cfg, count, Recovered, m).event == Some(HealthVerified))
            <==> cfg.minFailoverConfidence <= 0.0
  {
    if cfg.minFailoverConfidence <= 0.0 {
      var m := Wire(region, CALM);
      assert Pipeline.EnsembleDecision(CALM) == Pipeline.Decision(false, 0.0);
      assert Pipeline.InRange(CALM) && FromPipeline(m);
      assert SeverityName(Pipeline.Nominal) != CRITICAL by {
        assert SeverityName(Pipeline.Nominal)[0] != CRITICAL[0];
      }
      assert Judge(cfg, count, Recovered, m).event == Some(HealthVerified);
    } else {
      forall m | FromPipeline(m) ensures Judge(cfg, count, Recovered, m).event != Some(HealthVerified) {
        QuietMeansNoConfidence(m);
      }
    }
  }

  /** A metric of the pipeline takes a HEALTHY region into DEGRADED exactly when it is confident enough
      and is not one of the critical signals still being counted: up to the threshold a CRITICAL severity
      holds back the failover that a merely DEGRADED one would start at once. */
  lemma MetricDegradesIff(cfg: Config, p: Plane, m: Metric, now: int)
    requires FromPipeline(m) && cfg.minFailoverConfidence > 0.0
    requires m.region in p.fsms && p.fsms[m.region].current == Healthy
    ensures Step(cfg, p, Scored(m), now).fsms[m.region].current in {Healthy, Degraded}
    ensures Step(cfg, p, Scored(m), now).fsms[m.region].current == Degraded
            <==> && m.failoverConfidence >= cfg.minFailoverConfidence
                 && (m.xgboostSeverity == CRITICAL && m.xgboostConfidence > 0.70
                     ==> CountOf(p.counts, m.region) + 1 >= cfg.criticalSignalsThreshold)
  {
  }

  /** The four names differ, in their first letters already. */
  lemma NamesDiffer(s: Pipeline.Severity, t: Pipeline.Severity)
    ensures SeverityName(s) == SeverityName(t) <==> s == t
    ensures SeverityName(s) == CRITICAL <==> s == Pipeline.Critical
  {
    assert SeverityName(Pipeline.Nominal)[0] == 'N' && SeverityName(Pipeline.Warning)[0] == 'W'
        && SeverityName(Pipeline.DegradedFault)[0] == 'D' && SeverityName(Pipeline.Critical)[0] == 'C';
    assert CRITICAL == SeverityName(Pipeline.Critical);
  }

  /** From the models' numbers to the state machine: with a positive floor, evidence degrades a HEALTHY region
      exactly if some path is taken, its points reach the floor times its parts, and it is not a sure CRITICAL
      signal still being counted. */
  lemma EvidenceDegradesIff(cfg: Config, p: Plane, region: string, e: Pipeline.Evidence, now: int)
    requires Pipeline.InRange(e) && cfg.minFailoverConfidence > 0.0
    requires region in p.fsms && p.fsms[region].current == Healthy
    ensures Step(cfg, p, Scored(Wire(region, e)), now).fsms[region].current == Degraded
            <==> && Pipeline.Parts(e) > 0.0 && Pipeline.Points(e) >= Times(cfg.minFailoverConfidence, Pipeline.Parts(e))
                 && (e.severity == Pipeline.Critical && e.xgbConf > 0.70
                     ==> CountOf(p.counts, region) + 1 >= cfg.criticalSignalsThreshold)
  {
    var m := Wire(region, e);
    assert FromPipeline(m);
    NamesDiffer(e.severity, Pipeline.Critical);
    ConfidenceReaches(e, cfg.minFailoverConfidence);
    MetricDegradesIff(cfg, p, m, now);
  }

  lemma ConfidenceReaches(e: Pipeline.Evidence, floor: real)
    requires floor > 0.0
    ensures Pipeline.EnsembleDecision(e).confidence >= floor
            <==> Pipeline.Parts(e) > 0.0 && Pipeline.Points(e) >= Times(floor, Pipeline.Parts(e))
  {
    Pipeline.DecisionInNumbers(e);
    if Pipeline.Parts(e) > 0.0 {
      TimesReflects(floor, Pipeline.EnsembleDecision(e).confidence, Pipeline.Parts(e));
    }
  }

  // ----- runs -----

  /** The calls the system makes: the pipeline's metrics, runbook reports and operator overrides, and the tickers. */
  ghost predicate Wired(t: Timed) {
    && (t.call.Scored? ==> FromPipeline(t.call.metric))
    && (t.call.Notice? ==> t.call.event in {RunbookStarted, RunbookSucceeded, RunbookFailed, ManualOverride})
  }

  /** RECOVERED was left for HEALTHY, by its time limit, after the whole of it. */
  predicate RanOut(timeouts: Timeouts, rec: TransitionRecord) {
    rec.from == Recovered ==> rec.to == Healthy && rec.event == TtlExpired && rec.duration >= timeouts.recovered
  }

  predicate AllRanOut(timeouts: Timeouts, f: FsmState) {
    forall i :: 0 <= i < |f.transitions| ==> RanOut(timeouts, f.transitions[i])
  }

  lemma InputsSpareRecovered(cfg: Config, p: Plane, t: Timed, r: string)
    requires Wired(t) && cfg.minFailoverConfidence > 0.0 && r in p.fsms && p.fsms[r].current == Recovered
    ensures forall x :: x in InputsOf(cfg, p, t, r) && x.Event? ==> NextState(Recovered, x.event).None?
  {
  }

  lemma StepRunsOut(cfg: Config, p: Plane, t: Timed, r: string)
    requires Wired(t) && cfg.minFailoverConfidence > 0.0 && r in p.fsms && AllRanOut(cfg.timeouts, p.fsms[r])
    ensures AllRanOut(cfg.timeouts, Step(cfg, p, t.call, t.now).fsms[r])
  {
    StepFollowsInputs(cfg, p, t, r);
    var xs := InputsOf(cfg, p, t, r);
    if xs != [] {
      if p.fsms[r].current == Recovered {
        InputsSpareRecovered(cfg, p, t, r);
        assert xs[0] in xs;
      }
      ApplyRunsOut(p.fsms[r], cfg.timeouts, xs[0]);
    }
  }

  lemma ApplyRunsOut(f: FsmState, timeouts: Timeouts, x: Input)
    requires AllRanOut(timeouts, f)
    requires f.current == Recovered && x.Event? ==> NextState(Recovered, x.event).None?
    ensures AllRanOut(timeouts, Apply(f, timeouts, x))
  {
  }

  /** Verified recovery does not exist in the composed system: in every run with a positive confidence floor
      a region leaves RECOVERED only for HEALTHY, only because its time limit ran out, and never to fall
      back to DEGRADED, however bad its metrics are meanwhile. */
  lemma {:induction false} RecoveryIsNeverVerified(cfg: Config, regions: seq<string>, start: int, calls: seq<Timed>, r: string)
    requires cfg.minFailoverConfidence > 0.0 && r in regions
    requires forall i :: 0 <= i < |calls| ==> Wired(calls[i])
    ensures r in RunPlane(cfg, regions, start, calls).fsms
    ensures AllRanOut(cfg.timeouts, RunPlane(cfg, regions, start, calls).fsms[r])
  {
    if calls != [] {
      var before := calls[..|calls| - 1];
      RecoveryIsNeverVerified(cfg, regions, start, before, r);
      StepRunsOut(cfg, RunPlane(cfg, regions, start, before), calls[|calls| - 1], r);
    }
  }

  // ----- from the shaper to the route tables -----

  /** Every region gets at least `share` of the subnets less max(i, 1/2) at position i, and at most half a
      subnet per region is left over. */
  ghost predicate GrantedFairly(granted: nat, share: real, subnets: nat, i: nat) {
    granted as real >= Apportionment.Quota(share, subnets) - Apportionment.AtLeastHalf(i)
  }

  ghost predicate DividesFairly(ws: seq<real>, share: real, subnets: nat) {
    && (forall i :: 0 <= i < |ws| ==> GrantedFairly(Apportionment.Share(Apportionment.Asks(ws, subnets), subnets, i), share, subnets, i))
    && (subnets - Apportionment.Taken(Apportionment.Asks(ws, subnets), subnets, |ws|)) as real <= |ws| as real / 2.0
  }

  lemma SharesDivideFairly(ws: seq<real>, share: real, subnets: nat)
    requires subnets > 0 && share > 0.0 && Apportionment.Total(ws) == 1.0 && forall j :: 0 <= j < |ws| ==> ws[j] >= share
    ensures DividesFairly(ws, share, subnets)
  {
    assert (subnets - Apportionment.Taken(Apportionment.Asks(ws, subnets), subnets, |ws|)) as real <= |ws| as real / 2.0 by {
      Apportionment.FewAreLeftOver(ws, subnets);
    }
    forall i | 0 <= i < |ws| ensures GrantedFairly(Apportionment.Share(Apportionment.Asks(ws, subnets), subnets, i), share, subnets, i) {
      Apportionment.SharesAreProportional(ws, subnets, i);
      Loosened(Apportionment.Share(Apportionment.Asks(ws, subnets), subnets, i), ws[i], share, subnets, i);
    }
  }

  lemma Loosened(granted: nat, weight: real, share: real, subnets: nat, i: nat)
    requires Apportionment.NearQuota(granted, Apportionment.Quota(weight, subnets), i) && share <= weight
    ensures GrantedFairly(granted, share, subnets, i)
  {
    ProductGrows(subnets as real, share, weight);
  }

  lemma PublishedDividesFairly(cfg: Config, n: nat, call: Outbound, sorted: seq<string>, subnets: nat)
    requires cfg.shaper.Sane() && subnets > 0 && n > 0 && PublishedFairly(cfg, n, call) && call.PublishWeights?
    requires multiset(sorted) == multiset(call.weights.Keys)
    ensures forall r :: r in sorted ==> r in call.weights
    ensures DividesFairly(Routetable.WeightsOf(call.weights, sorted), FairShare(cfg, n), subnets)
  {
    Routetable.TotalIsSum(call.weights, sorted);
    var ws := Routetable.WeightsOf(call.weights, sorted);
    forall j | 0 <= j < |ws| ensures ws[j] >= FairShare(cfg, n) {
      assert sorted[j] in sorted && sorted[j] in call.weights && ws[j] == call.weights[sorted[j]];
    }
    FairShareIsPositive(cfg, n);
    SharesDivideFairly(ws, FairShare(cfg, n), subnets);
  }

  lemma PublishedNames(weights: map<string, real>)
    requires Sum(weights) == 1.0
    ensures |weights| > 0
  {
  }

  /** In every run, whatever the shaper publishes adds up to one, so that the route-table manager accepts
      it, and divides any number of subnets fairly among the regions in their sorted order. */
  lemma PublishedWeightsDivideFairly(cfg: Config, regions: seq<string>, start: int, calls: seq<Timed>, call: Outbound,
                                     sorted: seq<string>, subnets: nat)
    requires cfg.shaper.Sane() && subnets > 0
    requires call in RunPlane(cfg, regions, start, calls).outbound && call.PublishWeights?
    requires multiset(sorted) == multiset(call.weights.Keys)
    ensures Sum(call.weights) == 1.0
    ensures |set r | r in regions| > 0 && forall r :: r in sorted ==> r in call.weights
    ensures DividesFairly(Routetable.WeightsOf(call.weights, sorted), FairShare(cfg, |set r | r in regions|), subnets)
  {
    PublishedWeightsAreFair(cfg, regions, start, calls);
    assert PublishedFairly(cfg, |set r | r in regions|, call);
    PublishedNames(call.weights);
    PublishedDividesFairly(cfg, |set r | r in regions|, call, sorted, subnets);
  }

  lemma FairShareIsPositive(cfg: Config, n: nat)
    requires cfg.shaper.Sane() && n > 0
    ensures FairShare(cfg, n) > 0.0
  {
  }

  // ----- a failed region in the route tables -----

  /** A published update gives every region of the control plane a positive weight again, a FAILED one that a
      failover had just set to zero included, and a subnet as long as there are any left. */
  lemma PublishedWeightsReviveFailed(cfg: Config, n: nat, call: Outbound, sorted: seq<string>, subnets: nat, i: nat, earlier: map<string, real>)
    requires cfg.shaper.Sane() && subnets > 0 && n > 0 && PublishedFairly(cfg, n, call) && call.PublishWeights?
    requires multiset(sorted) == multiset(call.weights.Keys) && i < |sorted|
    ensures sorted[i] in call.weights && (earlier + call.weights)[sorted[i]] >= FairShare(cfg, n) > 0.0
    ensures forall r :: r in sorted ==> r in call.weights
    ensures var asks := Apportionment.Asks(Routetable.WeightsOf(call.weights, sorted), subnets);
            Apportionment.Taken(asks, subnets, i) < subnets ==> Apportionment.Share(asks, subnets, i) >= 1
  {
    Routetable.TotalIsSum(call.weights, sorted);
    assert sorted[i] in sorted;
    FairShareIsPositive(cfg, n);
    AsksForOne(Routetable.WeightsOf(call.weights, sorted)[i], subnets);
  }

  lemma AsksForOne(weight: real, n: nat)
    requires weight > 0.0 && n > 0
    ensures Apportionment.Wanted(weight, n) >= 1
  {
    ProductSign(weight, n as real);
    Apportionment.RoundedNear(Apportionment.Quota(weight, n));
  }

  /** The share of a is positive and the smallest, and as large as that of r exactly if `least` says so. */
  ghost predicate SmallestBeside(w: map<string, real>, a: string, r: string, least: bool) {
    a in w && r in w && 0.0 < w[a] <= w[r] && (w[r] <= w[a] <==> least)
  }

  lemma SmallestShare(cfg: Config, p: Plane, a: string, r: string)
    requires cfg.shaper.Sane() && PlaneInv(cfg, p) && a in p.fsms && r in p.fsms && p.fsms[a].current == Failed
    ensures SmallestBeside(Shaper.Normalised(p.weights), a, r, p.weights[r].current == cfg.shaper.minimumWeight)
  {
    InvIsOnCourse(cfg, p);
    assert RegionInv(cfg.shaper, p.fsms[a], p.weights[a]);
    Shaper.ShareIsFair(cfg.shaper, p.weights, a);
    OrderOfShares(p.weights[a].current, p.weights[r].current, Sum(Shaper.Currents(p.weights)));
  }

  lemma OrderOfShares(x: real, y: real, d: real)
    requires d > 0.0 && 0.0 < x <= y
    ensures 0.0 < x / d <= y / d && (y / d <= x / d <==> y == x)
  {
    QuotientSign(x, d);
    QuotientsKeepOrder(x, y, d);
    QuotientsKeepOrder(y, x, d);
  }

  lemma QuotientsKeepOrder(x: real, y: real, d: real)
    requires d > 0.0
    ensures x / d <= y / d <==> x <= y
  {
    assert Times(x / d, d) == x && Times(y / d, d) == y;
    TimesReflects(x / d, y / d, d);
  }

  /** Every region but b is at the minimum weight. */
  ghost predicate OthersAtMinimum(cfg: Config, p: Plane, b: string) {
    forall r :: r in p.fsms && r in p.weights && r != b ==> p.weights[r].current == cfg.shaper.minimumWeight
  }

  function AtMinimum(cfg: Config, p: Plane): map<string, bool> {
    map r | r in p.weights :: p.weights[r].current == cfg.shaper.minimumWeight
  }

  /** So the next failover can choose a FAILED region as its next hop: in any state of the control plane, the
      weights published from it make FAILED region a next hop for b exactly if every other region but b is
      at the minimum too; with only the two of them, always. */
  lemma FailedRegionIsNextHopIff(cfg: Config, p: Plane, a: string, b: string)
    requires cfg.shaper.Sane() && PlaneInv(cfg, p) && a in p.fsms && b in p.fsms && a != b && p.fsms[a].current == Failed
    ensures Routetable.IsNextHop(Shaper.Normalised(p.weights), b, a) <==> OthersAtMinimum(cfg, p, b)
  {
    var least := AtMinimum(cfg, p);
    forall r | r in least ensures SmallestBeside(Shaper.Normalised(p.weights), a, r, least[r]) {
      SmallestShare(cfg, p, a, r);
    }
    NormalisedKeys(p);
    SmallestIsHopIff(Shaper.Normalised(p.weights), a, b, least);
    MinimumOf(cfg, p, b);
  }

  lemma NormalisedKeys(p: Plane)
    ensures Shaper.Normalised(p.weights).Keys == p.weights.Keys
  {
  }

  ghost predicate AllBut(least: map<string, bool>, b: string) {
    forall r :: r in least && r != b ==> least[r]
  }

  lemma MinimumOf(cfg: Config, p: Plane, b: string)
    requires p.weights.Keys == p.fsms.Keys
    ensures AllBut(AtMinimum(cfg, p), b) <==> OthersAtMinimum(cfg, p, b)
  {
    var least := AtMinimum(cfg, p);
    if AllBut(least, b) {
      forall r | r in p.fsms && r in p.weights && r != b ensures p.weights[r].current == cfg.shaper.minimumWeight {
        assert r in least && least[r];
      }
    }
  }

  lemma SmallestIsHopIff(w: map<string, real>, a: string, b: string, least: map<string, bool>)
    requires a in w && a != b && w.Keys == least.Keys && forall r :: r in least ==> SmallestBeside(w, a, r, least[r])
    ensures Routetable.IsNextHop(w, b, a) <==> AllBut(least, b)
  {
    forall r | r in least && r != b ensures Routetable.Eligible(w, b, r) {
      assert SmallestBeside(w, a, r, least[r]);
    }
  }
}
