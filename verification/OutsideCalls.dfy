/**
 What the control plane tells Route 53 and the route-table manager about a region, compared with that
 region's history (control-plane-04/controlplane/controller.go, wireActions).
 */
module OutsideCalls {
  import opened Options
  import opened Listings
  import opened Statemachine
  import opened Controlplane
  import opened HealingLoop
  import Shaper = Trafficshaper
  import Dns = LeaseLock

  /** The calls about one region, in the order made. */
  function About(calls: seq<Outbound>, r: string): seq<Outbound> {
    if calls == [] then []
    else
      var before, c := About(calls[..|calls| - 1], r), calls[|calls| - 1];
      if !c.PublishWeights? && c.region == r then before + [c] else before
  }

  lemma {:induction false} AboutAppends(a: seq<Outbound>, b: seq<Outbound>, r: string)
    ensures About(a + b, r) == About(a, r) + About(b, r)
  {
    if b == [] {
      assert a + b == a;
    } else {
      AboutAppends(a, b[..|b| - 1], r);
      assert (a + b)[..|a + b| - 1] == a + b[..|b| - 1];
    }
  }

  lemma AboutEntry(from: State, to: State, region: string, r: string)
    ensures About(EnterCalls(from, to, region), r) == if region == r then EnterCalls(from, to, r) else []
  {
  }

  /** The calls that a history of transitions calls for: routes failed over for every entry into FAILED, DNS
      drained for every entry into DEGRADED and restored when RECOVERED turns HEALTHY. */
  function Due(ts: seq<TransitionRecord>, r: string): seq<Outbound> {
    if ts == [] then []
    else
      var due, rec := Due(ts[..|ts| - 1], r), ts[|ts| - 1];
      if rec.to == Failed then due + [FailoverRoutes(r)]
      else if rec.to == Degraded then due + [DrainDns(r)]
      else if rec.from == Recovered && rec.to == Healthy then due + [RestoreDns(r)]
      else due
  }

  /** The enter actions make the calls due for their record. */
  lemma EntryMakesDue(ts: seq<TransitionRecord>, r: string)
    requires ts != []
    ensures Due(ts, r) == Due(ts[..|ts| - 1], r) + EnterCalls(ts[|ts| - 1].from, ts[|ts| - 1].to, r)
  {
    assert Due(ts[..|ts| - 1], r) + [] == Due(ts[..|ts| - 1], r);
  }

  function Entries(ts: seq<TransitionRecord>, s: State): nat {
    if ts == [] then 0 else Entries(ts[..|ts| - 1], s) + (if ts[|ts| - 1].to == s then 1 else 0)
  }

  function Recoveries(ts: seq<TransitionRecord>): nat {
    if ts == [] then 0
    else Recoveries(ts[..|ts| - 1]) + (if ts[|ts| - 1].from == Recovered && ts[|ts| - 1].to == Healthy then 1 else 0)
  }

  lemma {:induction false} DueInNumbers(ts: seq<TransitionRecord>, r: string)
    ensures var due := multiset(Due(ts, r));
            && due[FailoverRoutes(r)] == Entries(ts, Failed) && due[DrainDns(r)] == Entries(ts, Degraded)
            && due[RestoreDns(r)] == Recoveries(ts)
            && |Due(ts, r)| == Entries(ts, Failed) + Entries(ts, Degraded) + Recoveries(ts)
  {
    if ts != [] {
      DueInNumbers(ts[..|ts| - 1], r);
    }
  }

  ghost predicate InStep(p: Plane, r: string) {
    r in p.fsms && About(p.outbound, r) == Due(p.fsms[r].transitions, r)
  }

  lemma MovesInStep(p: Plane, q: Plane, r: string, next: State, event: EventType, now: int)
    requires InStep(p, r) && r in q.fsms && q.fsms[r] == Transitioned(p.fsms[r], next, event, now)
    requires About(q.outbound, r) == About(p.outbound, r) + EnterCalls(p.fsms[r].current, next, r)
    ensures InStep(q, r)
  {
    var ts := q.fsms[r].transitions;
    assert ts[..|ts| - 1] == p.fsms[r].transitions;
    EntryMakesDue(ts, r);
  }

  lemma DeliveryInStep(cfg: Config, p: Plane, region: string, event: EventType, now: int, r: string)
    requires InStep(p, r) && region in p.fsms
    ensures InStep(Delivered(cfg, p, region, event, now), r)
  {
    var current := p.fsms[region].current;
    if NextState(current, event).Some? {
      var next := NextState(current, event).value;
      var q := Delivered(cfg, p, region, event, now);
      AboutAppends(p.outbound, EnterCalls(current, next, region), r);
      AboutEntry(current, next, region, r);
      if region == r {
        MovesInStep(p, q, r, next, event, now);
      } else {
        assert About(p.outbound, r) + [] == About(p.outbound, r);
      }
    }
  }

  lemma AboutExpiry(cfg: Config, fsms: map<string, FsmState>, region: string, now: int, r: string)
    ensures About(ExpiryCall(cfg, fsms, region, now), r) == if region == r then ExpiryCall(cfg, fsms, r, now) else []
  {
  }

  lemma LastIsNew(order: seq<string>, r: string)
    requires order != [] && NoRepeats(order)
    ensures var before, last := order[..|order| - 1], order[|order| - 1];
            last !in before && (r in order <==> r == last || r in before)
  {
    assert order == order[..|order| - 1] + [order[|order| - 1]];
  }

  /** Of the timeout checks of all regions, each listed once, a region sees its own only. */
  lemma {:induction false} ExpiryAbout(cfg: Config, fsms: map<string, FsmState>, order: seq<string>, now: int, r: string)
    requires NoRepeats(order)
    ensures About(ExpiryCalls(cfg, fsms, order, now), r) == if r in order then ExpiryCall(cfg, fsms, r, now) else []
  {
    if order != [] {
      var before, last := order[..|order| - 1], order[|order| - 1];
      ExpiryAbout(cfg, fsms, before, now, r);
      AboutAppends(ExpiryCalls(cfg, fsms, before, now), ExpiryCall(cfg, fsms, last, now), r);
      AboutExpiry(cfg, fsms, last, now, r);
      LastIsNew(order, r);
    }
  }

  lemma TimersAddCalls(cfg: Config, p: Plane, order: seq<string>, now: int, r: string)
    requires r in p.fsms
    ensures Checked(cfg, p, order, now).outbound == p.outbound + ExpiryCalls(cfg, p.fsms, order, now)
    ensures Checked(cfg, p, order, now).fsms[r] ==
              var expired := Expired(cfg, p.fsms[r], now);
              if expired.Some? then Transitioned(p.fsms[r], expired.value, TtlExpired, now) else p.fsms[r]
  {
  }

  lemma TimersInStep(cfg: Config, p: Plane, order: seq<string>, now: int, r: string)
    requires InStep(p, r) && Lists(order, p.fsms.Keys)
    ensures InStep(Checked(cfg, p, order, now), r)
  {
    var q, expired := Checked(cfg, p, order, now), Expired(cfg, p.fsms[r], now);
    TimersAddCalls(cfg, p, order, now, r);
    ExpiryAbout(cfg, p.fsms, order, now, r);
    AboutAppends(p.outbound, ExpiryCalls(cfg, p.fsms, order, now), r);
    if expired.Some? {
      MovesInStep(p, q, r, expired.value, TtlExpired, now);
    } else {
      assert About(p.outbound, r) + [] == About(p.outbound, r);
    }
  }

  lemma MetricInStep(cfg: Config, p: Plane, m: Metric, now: int, r: string)
    requires InStep(p, r)
    ensures InStep(Processed(cfg, p, m, now), r)
  {
    if m.region in p.fsms {
      var counted := Counted(cfg, p, m);
      var v := Judge(cfg, CountOf(p.counts, m.region), p.fsms[m.region].current, m);
      assert counted.fsms == p.fsms && counted.outbound == p.outbound;
      if v.event.Some? {
        DeliveryInStep(cfg, counted, m.region, v.event.value, now, r);
        assert Processed(cfg, p, m, now) == Delivered(cfg, counted, m.region, v.event.value, now);
      }
    }
  }

  lemma TickPublishes(cfg: Config, p: Plane) returns (added: seq<Outbound>)
    ensures Shaped(cfg, p).outbound == p.outbound + added && Shaped(cfg, p).fsms == p.fsms
    ensures |added| <= 1 && forall i :: 0 <= i < |added| ==> added[i].PublishWeights?
  {
    var ticked := Shaper.AllTicked(cfg.shaper, p.weights);
    added := if exists r :: r in ticked && ticked[r].current != p.weights[r].current
             then [PublishWeights(Shaper.Normalised(ticked))] else [];
  }

  lemma NoneAbout(added: seq<Outbound>, r: string)
    requires |added| <= 1 && forall i :: 0 <= i < |added| ==> added[i].PublishWeights?
    ensures About(added, r) == []
  {
    if added != [] {
      assert added[..0] == [];
    }
  }

  lemma TickInStep(cfg: Config, p: Plane, r: string)
    requires InStep(p, r)
    ensures InStep(Shaped(cfg, p), r)
  {
    var added := TickPublishes(cfg, p);
    AboutAppends(p.outbound, added, r);
    NoneAbout(added, r);
    assert About(p.outbound, r) + [] == About(p.outbound, r);
  }

  ghost predicate ListsAll(p: Plane, call: Call) {
    call.CheckTimers? ==> Lists(call.order, p.fsms.Keys)
  }

  lemma StepInStep(cfg: Config, p: Plane, call: Call, now: int, r: string)
    requires InStep(p, r) && ListsAll(p, call)
    ensures InStep(Step(cfg, p, call, now), r)
  {
    var q := Step(cfg, p, call, now);
    match call
    case Scored(m) => MetricInStep(cfg, p, m, now, r); assert q == Processed(cfg, p, m, now);
    case Notice(s, event) =>
      if s in p.fsms {
        DeliveryInStep(cfg, p, s, event, now, r);
      }
      assert q == Notified(cfg, p, s, event, now);
    case CheckTimers(order) => TimersInStep(cfg, p, order, now, r); assert q == Checked(cfg, p, order, now);
    case ShaperTick => TickInStep(cfg, p, r); assert q == Shaped(cfg, p);
  }

  ghost predicate ListsAlways(cfg: Config, regions: seq<string>, start: int, calls: seq<Timed>) {
    forall i :: 0 <= i < |calls| ==> calls[i].call.CheckTimers? ==> Lists(calls[i].call.order, set r | r in regions)
  }

  /** In every run the outside calls about a region are exactly those its own history calls for, in order:
      a drain for every entry into DEGRADED, a restore for every RECOVERED to HEALTHY, a route failover for
      every entry into FAILED. */
  lemma {:induction false} CallsFollowHistory(cfg: Config, regions: seq<string>, start: int, calls: seq<Timed>, r: string)
    requires r in regions && ListsAlways(cfg, regions, start, calls)
    ensures InStep(RunPlane(cfg, regions, start, calls), r)
  {
    if calls != [] {
      var before, last := calls[..|calls| - 1], calls[|calls| - 1];
      CallsFollowHistory(cfg, regions, start, before, r);
      RegionsRunIndependently(cfg, regions, start, before, r);
      StepInStep(cfg, RunPlane(cfg, regions, start, before), last.call, last.now, r);
    }
  }

  /** In every run a region's routes are failed over once for every time it entered FAILED, its DNS is drained
      once for every time it entered DEGRADED and restored once for every time RECOVERED turned HEALTHY, and
      nothing else is asked for. */
  lemma CallsInNumbers(cfg: Config, regions: seq<string>, start: int, calls: seq<Timed>, r: string)
    requires r in regions && ListsAlways(cfg, regions, start, calls)
    ensures var p := RunPlane(cfg, regions, start, calls);
            r in p.fsms &&
            var about, ts := About(p.outbound, r), p.fsms[r].transitions;
            && multiset(about)[FailoverRoutes(r)] == Entries(ts, Failed) && multiset(about)[DrainDns(r)] == Entries(ts, Degraded)
            && multiset(about)[RestoreDns(r)] == Recoveries(ts)
            && |about| == Entries(ts, Failed) + Entries(ts, Degraded) + Recoveries(ts)
  {
    CallsFollowHistory(cfg, regions, start, calls, r);
    DueInNumbers(RunPlane(cfg, regions, start, calls).fsms[r].transitions, r);
  }

  /** Failing a fresh region by hand, twice: its DNS is drained, then its routes are failed over. */
  lemma FailedByHand(cfg: Config, regions: seq<string>, start: int, r: string, now: int)
    requires r in regions
    ensures var p := RunPlane(cfg, regions, start, [Timed(Notice(r, ManualOverride), now), Timed(Notice(r, ManualOverride), now)]);
            r in p.fsms && p.fsms[r].current == Failed && p.outbound == [DrainDns(r), FailoverRoutes(r)]
  {
    var c := Timed(Notice(r, ManualOverride), now);
    var p0 := Started(cfg, regions, start);
    var p1 := Step(cfg, p0, c.call, now);
    var p2 := Step(cfg, p1, c.call, now);
    assert [c, c][..1] == [c] && [c][..0] == [];
    assert RunPlane(cfg, regions, start, [c]) == p1;
    assert RunPlane(cfg, regions, start, [c, c]) == p2;
    assert p1 == Delivered(cfg, p0, r, ManualOverride, now);
    assert p2 == Delivered(cfg, p1, r, ManualOverride, now);
  }

  // ----- DNS -----

  /** Whether the last DNS change asked for was a drain. */
  predicate LeftDrained(calls: seq<Outbound>) {
    calls != [] &&
    (calls[|calls| - 1].DrainDns? || (!calls[|calls| - 1].RestoreDns? && LeftDrained(calls[..|calls| - 1])))
  }

  lemma DrainedAfter(calls: seq<Outbound>, from: State, to: State, r: string)
    ensures LeftDrained(calls + EnterCalls(from, to, r)) <==> to == Degraded || (LeftDrained(calls) && !(from == Recovered && to == Healthy))
  {
    var more := EnterCalls(from, to, r);
    if more == [] {
      assert calls + more == calls;
    } else {
      assert (calls + more)[..|calls + more| - 1] == calls;
    }
  }

  /** The last two records decide: HEALTHY was entered from FAILED, or the state is not HEALTHY. */
  lemma {:induction false} DrainedByHistory(ts: seq<TransitionRecord>, r: string)
    requires forall i, j :: 0 <= i < j == i + 1 < |ts| ==> ts[j].from == ts[i].to
    requires ts != [] ==> ts[0].from == Healthy
    requires forall i :: 0 <= i < |ts| ==> NextState(ts[i].from, ts[i].event) == Some(ts[i].to)
    ensures LeftDrained(Due(ts, r)) <==> ts != [] && (ts[|ts| - 1].to != Healthy || ts[|ts| - 1].from == Failed)
  {
    if ts != [] {
      var before, last := ts[..|ts| - 1], ts[|ts| - 1];
      DrainedByHistory(before, r);
      DrainedAfter(Due(before, r), last.from, last.to, r);
      EntryMakesDue(ts, r);
      assert before != [] ==> before[|before| - 1].to == last.from;
    }
  }

  /** In every run the last DNS change asked for a region is a drain exactly while it is not HEALTHY, or has
      been made HEALTHY again by hand: clearing FAILED asks to restore neither its weight nor its DNS. */
  lemma DnsFollowsHealth(cfg: Config, regions: seq<string>, start: int, calls: seq<Timed>, r: string)
    requires r in regions && ListsAlways(cfg, regions, start, calls)
    ensures var p := RunPlane(cfg, regions, start, calls);
            r in p.fsms && (LeftDrained(About(p.outbound, r)) <==> p.fsms[r].current != Healthy || CameFromFailed(p.fsms[r]))
  {
    CallsFollowHistory(cfg, regions, start, calls, r);
    RegionsRunIndependently(cfg, regions, start, calls, r);
    HistoryIsChained(cfg.timeouts, start, Trace(cfg, regions, start, calls, r));
    DrainedByHistory(RunPlane(cfg, regions, start, calls).fsms[r].transitions, r);
  }

  // ----- what the requests write -----

  /** How one DNS request of the control plane fares. */
  datatype Fare = Fare(local: int, acquire: Dns.Delivery, change: Dns.Delivery, release: Dns.Delivery)

  /** The request for one outside call, if it is about DNS. */
  function RequestFor(c: Outbound, owner: string, f: Fare): seq<Dns.Request> {
    match c
    case DrainDns(r) => [Dns.Request(Dns.Drain, r, owner, f.local, f.acquire, f.change, f.release)]
    case RestoreDns(r) => [Dns.Request(Dns.Restore, r, owner, f.local, f.acquire, f.change, f.release)]
    case _ => []
  }

  /** The requests that one agent's control plane makes, with those of other agents coming in between. */
  function Asked(calls: seq<Outbound>, owner: string, fare: nat -> Fare, others: nat -> seq<Dns.Request>): seq<Dns.Request> {
    if calls == [] then others(0)
    else
      var before, last := calls[..|calls| - 1], calls[|calls| - 1];
      Asked(before, owner, fare, others) + RequestFor(last, owner, fare(|before|)) + others(|calls|)
  }

  /** Run against a zone that may be in any state. */
  ghost function ZoneAfter(cfg: Config, regions: seq<string>, start: int, calls: seq<Timed>,
                           dns: Dns.DnsConfig, zone: Dns.Zone, owner: string, fare: nat -> Fare, others: nat -> seq<Dns.Request>): Dns.Zone {
    Dns.ServedAll(dns, zone, Asked(RunPlane(cfg, regions, start, calls).outbound, owner, fare, others))
  }

  /** DNS records do not follow health.  In every run, with any locks held, any requests lost and any other
      agents at work, a region's record is as it was or the one fixed record, whatever the region's state and
      although the last change asked for does follow it; and once it is that record it never changes. */
  lemma RecordsDoNotTell(cfg: Config, regions: seq<string>, start: int, calls: seq<Timed>, r: string,
                         dns: Dns.DnsConfig, zone: Dns.Zone, owner: string, fare: nat -> Fare, others: nat -> seq<Dns.Request>)
    requires r in regions && ListsAlways(cfg, regions, start, calls)
    ensures var p := RunPlane(cfg, regions, start, calls);
            var records := ZoneAfter(cfg, regions, start, calls, dns, zone, owner, fare, others).records;
            && r in p.fsms
            && (LeftDrained(About(p.outbound, r)) <==> p.fsms[r].current != Healthy || CameFromFailed(p.fsms[r]))
            && ((r in records && records[r] == Dns.RecordFor(dns, r))
                || ((r in records <==> r in zone.records) && (r in records ==> records[r] == zone.records[r])))
            && (r in zone.records && zone.records[r] == Dns.RecordFor(dns, r) ==>
                  r in records && records[r] == Dns.RecordFor(dns, r))
  {
    DnsFollowsHealth(cfg, regions, start, calls, r);
    Dns.RecordIsUntouchedOrFixed(dns, zone, Asked(RunPlane(cfg, regions, start, calls).outbound, owner, fare, others), r);
  }

  /** A fresh region's first drain takes effect, and writes that record, exactly if its lock is free by the
      agent's clock, its health check is configured, and the change is accepted. */
  lemma FirstDrainTakesEffectIff(cfg: Config, regions: seq<string>, start: int, r: string, now: int,
                                 dns: Dns.DnsConfig, zone: Dns.Zone, owner: string, fare: nat -> Fare)
    requires r in regions
    ensures var calls := [Timed(Notice(r, ManualOverride), now)];
            var qs := Asked(RunPlane(cfg, regions, start, calls).outbound, owner, fare, i => []);
            && RunPlane(cfg, regions, start, calls).outbound == [DrainDns(r)]
            && (Dns.Wrote(dns, zone, qs, r)
                <==> && fare(0).acquire == Dns.Answered && Dns.Available(zone.table, "drain:" + r, fare(0).local)
                     && r in dns.healthCheckIds
                     && fare(0).change != Dns.RequestLost)
  {
    var first := Timed(Notice(r, ManualOverride), now);
    var p := Started(cfg, regions, start);
    assert [first][..0] == [];
    assert RunPlane(cfg, regions, start, [first]) == Step(cfg, p, first.call, now) == Delivered(cfg, p, r, ManualOverride, now);
    assert p.outbound + [DrainDns(r)] == [DrainDns(r)];
    var q := Dns.Request(Dns.Drain, r, owner, fare(0).local, fare(0).acquire, fare(0).change, fare(0).release);
    assert [DrainDns(r)][..0] == [] && [q][..0] == [];
    assert Asked([DrainDns(r)], owner, fare, i => []) == [q];
    assert Dns.ServedAll(dns, zone, []) == zone && !Dns.Wrote(dns, zone, [], r);
    assert Dns.KeyOf(q) == "drain:" + r;
  }
}
