/**
 The control plane (control-plane-04/controlplane/controller.go): scored metrics, runbook
 notifications, operator overrides and tickers drive one state machine per region, and the actions
 wired to the machines steer the traffic shaper.

 A Plane is the value of everything the controller owns, plus the calls it has made to Route 53 and to
 the route-table manager.  Step says what one controller call does to it; the Controller class is
 proved to do exactly that.
 */
module Controlplane {
  import opened Options
  import opened Listings
  import opened Statemachine
  import Shaper = Trafficshaper

  type RegionWeight = Shaper.RegionWeight

  datatype Config = Config(minFailoverConfidence: real, criticalSignalsThreshold: int, shaper: Shaper.Config, timeouts: Timeouts)

  const CRITICAL := "CRITICAL"

  /** The fields of MLScoredMetric that the controller reads. */
  datatype Metric = Metric(
    region: string,
    isolationForestScore: real,
    xgboostSeverity: string,
    xgboostConfidence: real,
    banditRoutingWeight: real,
    shouldTriggerFailover: bool,
    failoverConfidence: real)

  /** Calls to the AWS-facing parts, in the order made.  Their errors are only logged. */
  datatype Outbound = DrainDns(region: string) | RestoreDns(region: string) | FailoverRoutes(region: string) | PublishWeights(weights: map<string, real>)

  datatype Plane = Plane(
    fsms: map<string, FsmState>,
    weights: map<string, RegionWeight>,
    counts: map<string, int>,
    outbound: seq<Outbound>)

  // ----- the wired actions -----

  function EnterWeight(cfg: Shaper.Config, from: State, to: State, rw: RegionWeight): RegionWeight {
    match to
    case Degraded => Shaper.SoftDecay(cfg, rw)
    case Healing => rw
    case Recovered => Shaper.Ramp(cfg, rw)
    case Healthy => if from == Recovered then Shaper.Restore(rw) else rw
    case Failed => Shaper.HardFailover(cfg, rw)
  }

  function EnterCalls(from: State, to: State, region: string): seq<Outbound> {
    match to
    case Degraded => [DrainDns(region)]
    case Healing => []
    case Recovered => []
    case Healthy => if from == Recovered then [RestoreDns(region)] else []
    case Failed => [FailoverRoutes(region)]
  }

  predicate Partition(done: set<string>, todo: set<string>, names: set<string>) {
    done !! todo && done + todo == names
  }

  lemma PartitionMoves(done: set<string>, todo: set<string>, names: set<string>, name: string)
    requires Partition(done, todo, names) && name in todo
    ensures name in names && name !in done && Partition(done + {name}, todo - {name}, names)
  {
  }

  lemma PartitionEnds(done: set<string>, names: set<string>)
    requires Partition(done, {}, names)
    ensures done == names
  {
  }

  // ----- one controller call -----

  function Delivered(cfg: Config, p: Plane, region: string, event: EventType, now: int): (q: Plane)
    requires region in p.fsms
    ensures q.fsms.Keys == p.fsms.Keys && q.weights.Keys == p.weights.Keys
  {
    var s := p.fsms[region];
    match NextState(s.current, event)
    case None => p
    case Some(next) =>
      p.(fsms := p.fsms[region := Transitioned(s, next, event, now)],
         weights := if region in p.weights
                    then p.weights[region := EnterWeight(cfg.shaper, s.current, next, p.weights[region])]
                    else p.weights,
         outbound := p.outbound + EnterCalls(s.current, next, region))
  }

  predicate Qualifies(cfg: Config, m: Metric) {
    m.failoverConfidence >= cfg.minFailoverConfidence && m.xgboostSeverity == CRITICAL && m.xgboostConfidence > 0.70
  }

  /** What a metric makes of the critical counter (None: left alone) and the event it sends. */
  datatype Verdict = Verdict(count: Option<int>, event: Option<EventType>)

  function Judge(cfg: Config, count: int, state: State, m: Metric): Verdict {
    if m.failoverConfidence < cfg.minFailoverConfidence then
      Verdict(None, None)
    else if m.xgboostSeverity == CRITICAL && m.xgboostConfidence > 0.70 then
      if count + 1 >= cfg.criticalSignalsThreshold then
        Verdict(Some(0), if state == Healthy || state == Degraded then Some(SeverityCritical) else None)
      else
        Verdict(Some(count + 1), None)
    else if m.shouldTriggerFailover && state == Healthy then
      Verdict(Some(0), Some(AnomalyDetected))
    else if !m.shouldTriggerFailover && m.isolationForestScore < 0.30 then
      Verdict(Some(0), if state == Recovered then Some(HealthVerified) else None)
    else
      Verdict(None, None)
  }

  function Advised(cfg: Config, p: Plane, m: Metric): Plane {
    p.(weights := map r | r in p.weights ::
         if r == m.region then Shaper.Advised(cfg.shaper, p.weights[r], m.banditRoutingWeight) else p.weights[r])
  }

  /** The metric's advice and its mark on the critical counter. */
  function Counted(cfg: Config, p: Plane, m: Metric): Plane
    requires m.region in p.fsms
  {
    var advised := Advised(cfg, p, m);
    var v := Judge(cfg, CountOf(p.counts, m.region), p.fsms[m.region].current, m);
    if v.count.Some? then advised.(counts := p.counts[m.region := v.count.value]) else advised
  }

  function Processed(cfg: Config, p: Plane, m: Metric, now: int): (q: Plane)
    ensures q.fsms.Keys == p.fsms.Keys && q.weights.Keys == p.weights.Keys
  {
    if m.region !in p.fsms then p
    else
      var v := Judge(cfg, CountOf(p.counts, m.region), p.fsms[m.region].current, m);
      var counted := Counted(cfg, p, m);
      if v.event.Some? then Delivered(cfg, counted, m.region, v.event.value, now) else counted
  }

  /** The state a timeout check moves to, if it moves at all. */
  function Expired(cfg: Config, s: FsmState, now: int): Option<State> {
    if Overdue(s, cfg.timeouts, now) then NextState(s.current, TtlExpired) else None
  }

  /** The outside calls of one region's timeout check. */
  function ExpiryCall(cfg: Config, fsms: map<string, FsmState>, region: string, now: int): seq<Outbound> {
    if region in fsms && Expired(cfg, fsms[region], now).Some?
    then EnterCalls(fsms[region].current, Expired(cfg, fsms[region], now).value, region) else []
  }

  function ExpiryCalls(cfg: Config, fsms: map<string, FsmState>, order: seq<string>, now: int): seq<Outbound> {
    if order == [] then []
    else ExpiryCalls(cfg, fsms, order[..|order| - 1], now) + ExpiryCall(cfg, fsms, order[|order| - 1], now)
  }

  function CheckedWeight(cfg: Config, p: Plane, region: string, now: int): RegionWeight
    requires region in p.weights
  {
    if region in p.fsms && Expired(cfg, p.fsms[region], now).Some?
    then EnterWeight(cfg.shaper, p.fsms[region].current, Expired(cfg, p.fsms[region], now).value, p.weights[region])
    else p.weights[region]
  }

  /** The ticker's check of the regions in `done`, visited in some order. */
  function CheckedSome(cfg: Config, p: Plane, done: set<string>, order: seq<string>, now: int): Plane {
    p.(fsms := map r | r in p.fsms :: if r in done then TimeoutChecked(p.fsms[r], cfg.timeouts, now) else p.fsms[r],
       weights := map r | r in p.weights :: if r in done then CheckedWeight(cfg, p, r, now) else p.weights[r],
       outbound := p.outbound + ExpiryCalls(cfg, p.fsms, order, now))
  }

  function CheckedOne(cfg: Config, p: Plane, region: string, now: int): Plane
    requires region in p.fsms
  {
    var expired := Expired(cfg, p.fsms[region], now);
    p.(fsms := p.fsms[region := TimeoutChecked(p.fsms[region], cfg.timeouts, now)],
       weights := if region in p.weights then p.weights[region := CheckedWeight(cfg, p, region, now)] else p.weights,
       outbound := p.outbound + if expired.Some? then EnterCalls(p.fsms[region].current, expired.value, region) else [])
  }

  lemma CheckedNone(cfg: Config, p: Plane, now: int)
    ensures CheckedSome(cfg, p, {}, [], now) == p
  {
  }

  lemma CheckedOneMore(cfg: Config, p: Plane, done: set<string>, order: seq<string>, region: string, now: int)
    requires region in p.fsms && region !in done
    ensures CheckedOne(cfg, CheckedSome(cfg, p, done, order, now), region, now)
         == CheckedSome(cfg, p, done + {region}, order + [region], now)
  {
    assert (order + [region])[..|order|] == order;
  }

  function Checked(cfg: Config, p: Plane, order: seq<string>, now: int): (q: Plane)
    ensures q.fsms.Keys == p.fsms.Keys && q.weights.Keys == p.weights.Keys
  {
    CheckedSome(cfg, p, p.fsms.Keys, order, now)
  }

  ghost function Shaped(cfg: Config, p: Plane): Plane {
    var ticked := Shaper.AllTicked(cfg.shaper, p.weights);
    p.(weights := ticked,
       outbound := p.outbound +
         if exists r :: r in ticked && ticked[r].current != p.weights[r].current
         then [PublishWeights(Shaper.Normalised(ticked))] else [])
  }

  /** A scored metric, a notification (a runbook report or an operator override), the ticker's check of
      all time limits, or one turn of the shaper's loop. */
  datatype Call =
    | Scored(metric: Metric)
    | Notice(region: string, event: EventType)
    | CheckTimers(order: seq<string>)
    | ShaperTick

  function Notified(cfg: Config, p: Plane, region: string, event: EventType, now: int): Plane {
    if region in p.fsms then Delivered(cfg, p, region, event, now) else p
  }

  ghost function Step(cfg: Config, p: Plane, call: Call, now: int): (q: Plane)
    ensures q.fsms.Keys == p.fsms.Keys && q.weights.Keys == p.weights.Keys
  {
    match call
    case Scored(m) => Processed(cfg, p, m, now)
    case Notice(r, event) => Notified(cfg, p, r, event, now)
    case CheckTimers(order) => Checked(cfg, p, order, now)
    case ShaperTick => Shaped(cfg, p)
  }

  function Started(cfg: Config, regions: seq<string>, now: int): Plane {
    Plane(map r | r in regions :: Fresh(now),
          map r | r in regions :: Shaper.RegionWeight(Shaper.FULL_WEIGHT, Shaper.FULL_WEIGHT, 0.0, 1.0 / |regions| as real, false),
          map[],
          [])
  }

  // ----- the controller object -----

  class Controller {
    const cfg: Config
    var fsms: map<string, RegionFSM>
    const shaper: Shaper.AdaptiveTrafficShaper
    var criticalCounts: map<string, int>
    var outbound: seq<Outbound>

    ghost predicate Valid()
      reads this
    {
      && shaper.cfg == cfg.shaper
      && (forall r :: r in fsms ==> fsms[r].region == r && fsms[r].timeouts == cfg.timeouts)
    }

    ghost function View(): Plane
      reads this, shaper, fsms.Values
    {
      Plane(Machines(), shaper.regions, criticalCounts, outbound)
    }

    ghost function Machines(): map<string, FsmState>
      reads this, fsms.Values
    {
      map r | r in fsms :: fsms[r].View()
    }

    constructor (cfg: Config, regions: seq<string>, now: int)
      ensures Valid() && this.cfg == cfg && fresh(shaper) && (forall r :: r in fsms ==> fresh(fsms[r]))
      ensures View() == Started(cfg, regions, now)
    {
      this.cfg := cfg;
      fsms := map[];
      shaper := new Shaper.AdaptiveTrafficShaper(cfg.shaper, regions);
      criticalCounts := map[];
      outbound := [];
      new;
      for i := 0 to |regions|
        invariant Valid() && this.cfg == cfg && fresh(shaper) && (forall r :: r in fsms ==> fresh(fsms[r]))
        invariant shaper.regions == Started(cfg, regions, now).weights && criticalCounts == map[] && outbound == []
        invariant fsms.Keys == set r | r in regions[..i]
        invariant forall r :: r in fsms ==> fsms[r].View() == Fresh(now)
      {
        var fsm := new RegionFSM(regions[i], cfg.timeouts, now);
        fsms := fsms[regions[i] := fsm];
      }
    }

    method Deliver(region: string, event: EventType, now: int)
      requires Valid() && region in fsms
      modifies this`outbound, shaper, fsms[region]
      ensures Valid() && View() == Delivered(cfg, old(View()), region, event, now)
    {
      ghost var machines := Machines();
      SendAndEnter(region, event, now);
      assert Machines() == machines[region := Sent(machines[region], event, now)];
    }

    method SendAndEnter(region: string, event: EventType, now: int)
      requires Valid() && region in fsms
      modifies this`outbound, shaper, fsms[region]
      ensures fsms[region].View() == Sent(old(fsms[region].View()), event, now)
      ensures var next := NextState(old(fsms[region].current), event);
              && shaper.regions == (if region in old(shaper.regions) && next.Some?
                                    then old(shaper.regions)[region := EnterWeight(cfg.shaper, old(fsms[region].current), next.value, old(shaper.regions)[region])]
                                    else old(shaper.regions))
              && outbound == old(outbound) + if next.Some? then EnterCalls(old(fsms[region].current), next.value, region) else []
    {
      var from := fsms[region].current;
      var fired := fsms[region].Send(event, now);
      if fired.Some? {
        OnEnter(region, from, fired.value);
      }
    }

    /** The enter actions, by the state entered. */
    method OnEnter(region: string, from: State, to: State)
      modifies this`outbound, shaper
      ensures shaper.regions == if region in old(shaper.regions)
                                then old(shaper.regions)[region := EnterWeight(shaper.cfg, from, to, old(shaper.regions)[region])]
                                else old(shaper.regions)
      ensures outbound == old(outbound) + EnterCalls(from, to, region)
    {
      match to
      case Degraded =>
        shaper.OnDegraded(region);
        outbound := outbound + [DrainDns(region)];
      case Healing =>
      case Recovered =>
        shaper.OnRecovering(region);
      case Healthy =>
        if from == Recovered {
          shaper.OnHealthy(region);
          outbound := outbound + [RestoreDns(region)];
        }
      case Failed =>
        shaper.OnFailed(region);
        outbound := outbound + [FailoverRoutes(region)];
    }

    method ProcessScoredMetric(m: Metric, now: int) returns (known: bool)
      requires Valid()
      modifies this, shaper, fsms.Values
      ensures Valid() && fsms == old(fsms) && known == (m.region in fsms)
      ensures View() == Step(cfg, old(View()), Scored(m), now)
    {
      known := m.region in fsms;
      if !known {
        return;
      }
      ghost var p := View();
      shaper.UpdateBanditWeights(map[m.region := m.banditRoutingWeight]);
      assert Machines() == p.fsms && shaper.regions == Advised(cfg, p, m).weights;
      if m.failoverConfidence < cfg.minFailoverConfidence {
        return;
      }
      var event := NoteSignal(m, fsms[m.region].current);
      assert Machines() == p.fsms && View() == Counted(cfg, p, m);
      if event.Some? {
        Deliver(m.region, event.value, now);
      }
    }

    /** The anti-flapping part of metric processing: updates the critical counter and picks the event
        to send, given the state read beforehand. */
    method NoteSignal(m: Metric, currentState: State) returns (event: Option<EventType>)
      requires m.failoverConfidence >= cfg.minFailoverConfidence
      modifies this`criticalCounts
      ensures var v := Judge(cfg, CountOf(old(criticalCounts), m.region), currentState, m);
              && event == v.event
              && criticalCounts == if v.count.Some? then old(criticalCounts)[m.region := v.count.value] else old(criticalCounts)
    {
      event := None;
      if m.xgboostSeverity == CRITICAL && m.xgboostConfidence > 0.70 {
        criticalCounts := criticalCounts[m.region := CountOf(criticalCounts, m.region) + 1];
        var count := criticalCounts[m.region];
        if count >= cfg.criticalSignalsThreshold {
          criticalCounts := criticalCounts[m.region := 0];
          if currentState == Healthy || currentState == Degraded {
            event := Some(SeverityCritical);
          }
        }
      } else if m.shouldTriggerFailover && currentState == Healthy {
        criticalCounts := criticalCounts[m.region := 0];
        event := Some(AnomalyDetected);
      } else if !m.shouldTriggerFailover && m.isolationForestScore < 0.30 {
        criticalCounts := criticalCounts[m.region := 0];
        if currentState == Recovered {
          event := Some(HealthVerified);
        }
      }
    }

    method NotifyRunbookStarted(region: string, now: int) returns (known: bool)
      requires Valid()
      modifies this, shaper, fsms.Values
      ensures Valid() && fsms == old(fsms) && known == (region in fsms)
      ensures View() == Step(cfg, old(View()), Notice(region, RunbookStarted), now)
    {
      known := region in fsms;
      if known {
        Deliver(region, RunbookStarted, now);
      }
    }

    method NotifyRunbookSucceeded(region: string, now: int) returns (known: bool)
      requires Valid()
      modifies this, shaper, fsms.Values
      ensures Valid() && fsms == old(fsms) && known == (region in fsms)
      ensures View() == Step(cfg, old(View()), Notice(region, RunbookSucceeded), now)
    {
      known := region in fsms;
      if known {
        Deliver(region, RunbookSucceeded, now);
      }
    }

    method NotifyRunbookFailed(region: string, now: int) returns (known: bool)
      requires Valid()
      modifies this, shaper, fsms.Values
      ensures Valid() && fsms == old(fsms) && known == (region in fsms)
      ensures View() == Step(cfg, old(View()), Notice(region, RunbookFailed), now)
    {
      known := region in fsms;
      if known {
        Deliver(region, RunbookFailed, now);
      }
    }

    /** The wanted state travels in the payload, which the state machine does not look at. */
    method RequestOverride(region: string, target: State, now: int) returns (known: bool)
      requires Valid()
      modifies this, shaper, fsms.Values
      ensures Valid() && fsms == old(fsms) && known == (region in fsms)
      ensures View() == Step(cfg, old(View()), Notice(region, ManualOverride), now)
    {
      known := region in fsms;
      if known {
        Deliver(region, ManualOverride, now);
      }
    }

    /** The timeout branch of the main loop; the order is that of the map iteration. */
    method CheckTimeouts(now: int) returns (order: seq<string>)
      requires Valid()
      modifies this, shaper, fsms.Values
      ensures Valid() && fsms == old(fsms)
      ensures Lists(order, fsms.Keys)
      ensures View() == Step(cfg, old(View()), CheckTimers(order), now)
    {
      order := CheckAll(now);
    }

    method CheckAll(now: int) returns (order: seq<string>)
      requires Valid()
      modifies this`outbound, shaper, fsms.Values
      ensures Progress(old(View()), fsms.Keys, order, now)
    {
      order := [];
      ghost var p := View();
      ghost var done: set<string> := {};
      var todo := fsms.Keys;
      CheckedNone(cfg, p, now);
      while todo != {}
        invariant Partition(done, todo, fsms.Keys)
        invariant Progress(p, done, order, now)
      {
        var region :| region in todo;
        PartitionMoves(done, todo, fsms.Keys, region);
        CheckNext(region, now, p, done, order);
        todo, done, order := todo - {region}, done + {region}, order + [region];
      }
      PartitionEnds(done, fsms.Keys);
    }

    /** The regions in `done` have been checked, in this order, since the plane was p. */
    ghost predicate Progress(p: Plane, done: set<string>, order: seq<string>, now: int)
      reads this, shaper, fsms.Values
    {
      Valid() && p.fsms.Keys == fsms.Keys && Lists(order, done) && View() == CheckedSome(cfg, p, done, order, now)
    }

    method CheckNext(region: string, now: int, ghost p: Plane, ghost done: set<string>, ghost order: seq<string>)
      requires region in fsms && region !in done && Progress(p, done, order, now)
      modifies this`outbound, shaper, fsms[region]
      ensures Progress(p, done + {region}, order + [region], now)
    {
      CheckedOneMore(cfg, p, done, order, region, now);
      ListOneMore(order, done, region);
      CheckOne(region, now);
    }

    method CheckOne(region: string, now: int)
      requires Valid() && region in fsms
      modifies this`outbound, shaper, fsms[region]
      ensures Valid() && View() == CheckedOne(cfg, old(View()), region, now)
    {
      ghost var machines := Machines();
      CheckAndEnter(region, now);
      assert Machines() == machines[region := TimeoutChecked(machines[region], cfg.timeouts, now)];
    }

    method CheckAndEnter(region: string, now: int)
      requires Valid() && region in fsms
      modifies this`outbound, shaper, fsms[region]
      ensures fsms[region].View() == TimeoutChecked(old(fsms[region].View()), cfg.timeouts, now)
      ensures var expired := Expired(cfg, old(fsms[region].View()), now);
              && shaper.regions == (if region in old(shaper.regions) && expired.Some?
                                    then old(shaper.regions)[region := EnterWeight(cfg.shaper, old(fsms[region].current), expired.value, old(shaper.regions)[region])]
                                    else old(shaper.regions))
              && outbound == old(outbound) + if expired.Some? then EnterCalls(old(fsms[region].current), expired.value, region) else []
    {
      var from := fsms[region].current;
      var fired := fsms[region].CheckTimeouts(now);
      if fired.Some? {
        OnEnter(region, from, fired.value);
      }
    }

    /** One turn of the shaper's own loop, its callback included. */
    method TickShaper(now: int)
      requires Valid()
      modifies this, shaper
      ensures Valid() && fsms == old(fsms)
      ensures View() == Step(cfg, old(View()), ShaperTick, now)
    {
      ghost var machines, weights := Machines(), shaper.regions;
      var update := shaper.Tick();
      assert Machines() == machines && shaper.regions == Shaper.AllTicked(cfg.shaper, weights);
      if update.Some? {
        outbound := outbound + [PublishWeights(update.value)];
      }
    }
  }
}
