/**
 The closed healing loop: what the state machine of a region and the weight of that region have to do
 with each other, in every run of the control plane without ForceWeight.
 */
module HealingLoop {
  import opened Options
  import opened Listings
  import opened Statemachine
  import opened Controlplane
  import Shaper = Trafficshaper
  import MapSums

  /** Held at the minimum weight by a hard failover. */
  predicate HeldDown(cfg: Shaper.Config, rw: RegionWeight) {
    rw.hardFail && rw.current == rw.target == cfg.minimumWeight && rw.ratePerSec == 0.0
  }

  predicate Bleeding(cfg: Shaper.Config, rw: RegionWeight) {
    !rw.hardFail && rw.target == cfg.minimumWeight && rw.ratePerSec <= 0.0
  }

  /** The last transition left FAILED. */
  predicate CameFromFailed(f: FsmState) {
    f.transitions != [] && f.transitions[|f.transitions| - 1].from == Failed
  }

  /** The joint invariant of a region's state machine and its weight. */
  ghost predicate Joint(cfg: Shaper.Config, f: FsmState, rw: RegionWeight) {
    && Shaper.OnCourse(cfg, rw)
    && match f.current
       case Failed => HeldDown(cfg, rw)
       case Degraded => Bleeding(cfg, rw)
       case Healing => Bleeding(cfg, rw)
       case Recovered => !rw.hardFail
       case Healthy => if CameFromFailed(f) then HeldDown(cfg, rw) else !rw.hardFail
  }

  // ----- any interleaving of the locked calls on one region -----

  /** One region under concurrency: the state machine commits its new state first and runs the enter
      action afterwards, still holding its own lock but not the shaper's.  `entering` is the state just
      left while that action is still to come. */
  datatype Site = Site(fsm: FsmState, rw: RegionWeight, entering: Option<State>)

  datatype Atom = Commit(event: EventType, now: int) | Enter | Advice(weight: real) | Tick

  function Act(cfg: Shaper.Config, s: Site, a: Atom): Site {
    match a
    case Commit(event, now) =>
      if s.entering.Some? || NextState(s.fsm.current, event).None? then s
      else Site(Sent(s.fsm, event, now), s.rw, Some(s.fsm.current))
    case Enter =>
      if s.entering.None? then s
      else Site(s.fsm, EnterWeight(cfg, s.entering.value, s.fsm.current, s.rw), None)
    case Advice(w) => s.(rw := Shaper.Advised(cfg, s.rw, w))
    case Tick => s.(rw := Shaper.Ticked(cfg, s.rw))
  }

  function RunSite(cfg: Shaper.Config, s: Site, atoms: seq<Atom>): Site {
    if atoms == [] then s else Act(cfg, RunSite(cfg, s, atoms[..|atoms| - 1]), atoms[|atoms| - 1])
  }

  ghost predicate SiteInv(cfg: Shaper.Config, s: Site) {
    && Shaper.OnCourse(cfg, s.rw)
    && (s.entering.None? ==> Joint(cfg, s.fsm, s.rw))
    && (s.entering.Some? ==>
          && s.fsm.transitions != []
          && s.fsm.transitions[|s.fsm.transitions| - 1].from == s.entering.value
          && (exists e :: NextState(s.entering.value, e) == Some(s.fsm.current))
          && (s.fsm.current == Healing ==> Bleeding(cfg, s.rw))
          && (s.fsm.current == Healthy && s.entering.value == Failed ==> HeldDown(cfg, s.rw)))
  }

  lemma ActKeepsSiteInv(cfg: Shaper.Config, s: Site, a: Atom)
    requires cfg.Sane() && SiteInv(cfg, s)
    ensures SiteInv(cfg, Act(cfg, s, a))
  {
    match a
    case Commit(event, now) =>
    case Enter => Shaper.EntryActionsStayOnCourse(cfg, s.rw);
    case Advice(w) => Shaper.AdviceStaysOnCourse(cfg, s.rw, w);
    case Tick => Shaper.TickStaysOnCourse(cfg, s.rw);
  }

  /** However commits, enter actions, bandit advice and ticks interleave, the joint invariant holds
      whenever the region's state machine is not in the middle of a transition. */
  lemma {:induction false} JointUnderInterleaving(cfg: Shaper.Config, now: int, bandit: real, atoms: seq<Atom>)
    requires cfg.Sane()
    ensures var start := Site(Fresh(now), Shaper.RegionWeight(Shaper.FULL_WEIGHT, Shaper.FULL_WEIGHT, 0.0, bandit, false), None);
            var s := RunSite(cfg, start, atoms);
            SiteInv(cfg, s) && (s.entering.None? ==> Joint(cfg, s.fsm, s.rw))
  {
    if atoms != [] {
      JointUnderInterleaving(cfg, now, bandit, atoms[..|atoms| - 1]);
      var start := Site(Fresh(now), Shaper.RegionWeight(Shaper.FULL_WEIGHT, Shaper.FULL_WEIGHT, 0.0, bandit, false), None);
      ActKeepsSiteInv(cfg, RunSite(cfg, start, atoms[..|atoms| - 1]), atoms[|atoms| - 1]);
    }
  }

  // ----- all regions, in every run of controller calls -----

  ghost predicate PlaneInv(cfg: Config, p: Plane) {
    && p.weights.Keys == p.fsms.Keys
    && (forall r :: r in p.fsms ==> RegionInv(cfg.shaper, p.fsms[r], p.weights[r]))
  }

  ghost predicate RegionInv(cfg: Shaper.Config, f: FsmState, rw: RegionWeight) {
    Joint(cfg, f, rw) && WellRecorded(f)
  }

  datatype Timed = Timed(call: Call, now: int)

  ghost function RunPlane(cfg: Config, regions: seq<string>, start: int, calls: seq<Timed>): Plane {
    if calls == [] then Started(cfg, regions, start)
    else Step(cfg, RunPlane(cfg, regions, start, calls[..|calls| - 1]), calls[|calls| - 1].call, calls[|calls| - 1].now)
  }

  lemma TransitionKeepsInv(cfg: Shaper.Config, f: FsmState, rw: RegionWeight, event: EventType, now: int)
    requires cfg.Sane() && RegionInv(cfg, f, rw) && NextState(f.current, event).Some?
    ensures var next := NextState(f.current, event).value;
            RegionInv(cfg, Transitioned(f, next, event, now), EnterWeight(cfg, f.current, next, rw))
  {
    Shaper.EntryActionsStayOnCourse(cfg, rw);
    SendKeepsRecord(f, event, now);
  }

  lemma AdviceKeepsInv(cfg: Shaper.Config, f: FsmState, rw: RegionWeight, w: real)
    requires cfg.Sane() && RegionInv(cfg, f, rw)
    ensures RegionInv(cfg, f, Shaper.Advised(cfg, rw, w))
  {
  }

  lemma TickKeepsInv(cfg: Shaper.Config, f: FsmState, rw: RegionWeight)
    requires cfg.Sane() && RegionInv(cfg, f, rw)
    ensures RegionInv(cfg, f, Shaper.Ticked(cfg, rw))
  {
  }

  lemma DeliveryKeepsInv(cfg: Config, p: Plane, region: string, event: EventType, now: int)
    requires cfg.shaper.Sane() && PlaneInv(cfg, p) && region in p.fsms
    ensures PlaneInv(cfg, Delivered(cfg, p, region, event, now))
  {
    var f, rw := p.fsms[region], p.weights[region];
    var next := NextState(f.current, event);
    var q := Delivered(cfg, p, region, event, now);
    if next.None? {
      assert q == p;
    } else {
      assert RegionInv(cfg.shaper, f, rw);
      TransitionKeepsInv(cfg.shaper, f, rw, event, now);
      ReplaceOne(cfg, p, q, region, Transitioned(f, next.value, event, now), EnterWeight(cfg.shaper, f.current, next.value, rw));
    }
  }

  lemma ReplaceOne(cfg: Config, p: Plane, q: Plane, region: string, f: FsmState, rw: RegionWeight)
    requires PlaneInv(cfg, p) && region in p.fsms && RegionInv(cfg.shaper, f, rw)
    requires q.fsms == p.fsms[region := f] && q.weights == p.weights[region := rw]
    ensures PlaneInv(cfg, q)
  {
  }

  lemma CountedOnlyAdvises(cfg: Config, p: Plane, m: Metric)
    requires m.region in p.fsms && m.region in p.weights
    ensures Counted(cfg, p, m).fsms == p.fsms
    ensures Counted(cfg, p, m).weights ==
              p.weights[m.region := Shaper.Advised(cfg.shaper, p.weights[m.region], m.banditRoutingWeight)]
  {
  }

  lemma AdviceKeepsPlaneInv(cfg: Config, p: Plane, m: Metric)
    requires cfg.shaper.Sane() && PlaneInv(cfg, p) && m.region in p.fsms
    ensures PlaneInv(cfg, Counted(cfg, p, m))
  {
    var f, rw := p.fsms[m.region], p.weights[m.region];
    AdviceKeepsInv(cfg.shaper, f, rw, m.banditRoutingWeight);
    CountedOnlyAdvises(cfg, p, m);
    assert p.fsms[m.region := f] == p.fsms;
    ReplaceOne(cfg, p, Counted(cfg, p, m), m.region, f, Shaper.Advised(cfg.shaper, rw, m.banditRoutingWeight));
  }

  lemma MetricKeepsInv(cfg: Config, p: Plane, m: Metric, now: int)
    requires cfg.shaper.Sane() && PlaneInv(cfg, p)
    ensures PlaneInv(cfg, Processed(cfg, p, m, now))
  {
    if m.region in p.fsms {
      var counted := Counted(cfg, p, m);
      AdviceKeepsPlaneInv(cfg, p, m);
      var v := Judge(cfg, CountOf(p.counts, m.region), p.fsms[m.region].current, m);
      if v.event.Some? {
        DeliveryKeepsInv(cfg, counted, m.region, v.event.value, now);
        assert Processed(cfg, p, m, now) == Delivered(cfg, counted, m.region, v.event.value, now);
      }
    }
  }

  lemma TimersKeepInv(cfg: Config, p: Plane, order: seq<string>, now: int)
    requires cfg.shaper.Sane() && PlaneInv(cfg, p)
    ensures PlaneInv(cfg, Checked(cfg, p, order, now))
  {
    var q := Checked(cfg, p, order, now);
    forall r | r in p.fsms ensures RegionInv(cfg.shaper, q.fsms[r], q.weights[r]) {
      TimerKeepsInv(cfg, p, r, now);
    }
  }

  lemma TimerKeepsInv(cfg: Config, p: Plane, r: string, now: int)
    requires cfg.shaper.Sane() && PlaneInv(cfg, p) && r in p.fsms
    ensures RegionInv(cfg.shaper, TimeoutChecked(p.fsms[r], cfg.timeouts, now), CheckedWeight(cfg, p, r, now))
  {
    if Expired(cfg, p.fsms[r], now).Some? {
      TransitionKeepsInv(cfg.shaper, p.fsms[r], p.weights[r], TtlExpired, now);
    }
  }

  lemma NotificationKeepsInv(cfg: Config, p: Plane, region: string, event: EventType, now: int)
    requires cfg.shaper.Sane() && PlaneInv(cfg, p)
    ensures PlaneInv(cfg, Notified(cfg, p, region, event, now))
  {
    if region in p.fsms {
      DeliveryKeepsInv(cfg, p, region, event, now);
    }
  }

  lemma TicksKeepInv(cfg: Config, p: Plane)
    requires cfg.shaper.Sane() && PlaneInv(cfg, p)
    ensures PlaneInv(cfg, Shaped(cfg, p))
  {
    forall r | r in p.fsms ensures RegionInv(cfg.shaper, p.fsms[r], Shaper.Ticked(cfg.shaper, p.weights[r])) {
      TickKeepsInv(cfg.shaper, p.fsms[r], p.weights[r]);
    }
  }

  lemma StepKeepsInv(cfg: Config, p: Plane, call: Call, now: int)
    requires cfg.shaper.Sane() && PlaneInv(cfg, p)
    ensures PlaneInv(cfg, Step(cfg, p, call, now))
  {
    var q := Step(cfg, p, call, now);
    match call
    case Scored(m) => MetricKeepsInv(cfg, p, m, now); assert q == Processed(cfg, p, m, now);
    case Notice(r, event) => NotificationKeepsInv(cfg, p, r, event, now); assert q == Notified(cfg, p, r, event, now);
    case CheckTimers(order) => TimersKeepInv(cfg, p, order, now); assert q == Checked(cfg, p, order, now);
    case ShaperTick => TicksKeepInv(cfg, p); assert q == Shaped(cfg, p);
  }

  // ----- what one region's machine sees of a controller run -----

  /** The inputs that a controller call puts to the machine of region r. */
  function InputsOf(cfg: Config, p: Plane, t: Timed, r: string): seq<Input> {
    match t.call
    case Scored(m) =>
      if m.region != r || r !in p.fsms then []
      else
        var v := Judge(cfg, CountOf(p.counts, r), p.fsms[r].current, m);
        if v.event.Some? then [Event(v.event.value, t.now)] else []
    case Notice(q, event) => if q == r then [Event(event, t.now)] else []
    case CheckTimers(_) => [Check(t.now)]
    case ShaperTick => []
  }

  ghost function Trace(cfg: Config, regions: seq<string>, start: int, calls: seq<Timed>, r: string): seq<Input> {
    if calls == [] then []
    else
      var before := calls[..|calls| - 1];
      Trace(cfg, regions, start, before, r) + InputsOf(cfg, RunPlane(cfg, regions, start, before), calls[|calls| - 1], r)
  }

  lemma StepFollowsInputs(cfg: Config, p: Plane, t: Timed, r: string)
    requires r in p.fsms
    ensures Step(cfg, p, t.call, t.now).fsms[r] ==
              var xs := InputsOf(cfg, p, t, r); if xs == [] then p.fsms[r] else Apply(p.fsms[r], cfg.timeouts, xs[0])
  {
  }

  /** Each region's machine runs by itself: in a controller run it does what its own inputs make it do,
      so everything proved about a single machine holds of every region. */
  lemma {:induction false} RegionsRunIndependently(cfg: Config, regions: seq<string>, start: int, calls: seq<Timed>, r: string)
    requires r in regions
    ensures RunPlane(cfg, regions, start, calls).fsms.Keys == set q | q in regions
    ensures RunPlane(cfg, regions, start, calls).fsms[r] == Run(cfg.timeouts, start, Trace(cfg, regions, start, calls, r))
  {
    if calls != [] {
      var before := calls[..|calls| - 1];
      RegionsRunIndependently(cfg, regions, start, before, r);
      var p := RunPlane(cfg, regions, start, before);
      StepFollowsInputs(cfg, p, calls[|calls| - 1], r);
      var earlier, xs := Trace(cfg, regions, start, before, r), InputsOf(cfg, p, calls[|calls| - 1], r);
      if xs != [] {
        assert (earlier + xs)[..|earlier + xs| - 1] == earlier;
      } else {
        assert earlier + xs == earlier;
      }
    }
  }

  /** With the ticker at most `delta` apart, no region lingers in trouble. */
  lemma NoRegionLingers(cfg: Config, regions: seq<string>, start: int, calls: seq<Timed>, r: string, delta: int)
    requires cfg.timeouts.Positive() && r in regions
    requires CheckedEvery(delta, start, Trace(cfg, regions, start, calls, r))
    ensures RunPlane(cfg, regions, start, calls).fsms.Keys == set q | q in regions
    ensures var f := RunPlane(cfg, regions, start, calls).fsms[r];
            && OnTime(f, cfg.timeouts, delta, LastCheck(start, Trace(cfg, regions, start, calls, r)))
            && (f.current != Healthy ==>
                  Clock(start, Trace(cfg, regions, start, calls, r)) - f.enteredAt < cfg.timeouts.Of(f.current).value + delta)
  {
    RegionsRunIndependently(cfg, regions, start, calls, r);
    var xs := Trace(cfg, regions, start, calls, r);
    StaysAreBounded(cfg.timeouts, delta, start, xs);
    ClockNearLastCheck(delta, start, xs);
    if xs == [] {
      assert Run(cfg.timeouts, start, xs) == Fresh(start);
    }
  }

  lemma {:induction false} ClockNearLastCheck(delta: int, start: int, xs: seq<Input>)
    requires CheckedEvery(delta, start, xs)
    ensures xs != [] ==> Clock(start, xs) <= LastCheck(start, xs) + delta
    ensures LastCheck(start, xs) <= Clock(start, xs)
  {
    if xs != [] {
      ClockNearLastCheck(delta, start, xs[..|xs| - 1]);
    }
  }

  /** In every reachable state every region satisfies the joint invariant, its history is a chain of
      table links, and its failover count is right. */
  lemma {:induction false} JointAlways(cfg: Config, regions: seq<string>, start: int, calls: seq<Timed>)
    requires cfg.shaper.Sane()
    ensures PlaneInv(cfg, RunPlane(cfg, regions, start, calls))
    ensures RunPlane(cfg, regions, start, calls).fsms.Keys == set r | r in regions
  {
    if calls != [] {
      JointAlways(cfg, regions, start, calls[..|calls| - 1]);
      StepKeepsInv(cfg, RunPlane(cfg, regions, start, calls[..|calls| - 1]), calls[|calls| - 1].call, calls[|calls| - 1].now);
    }
  }

  /** What one call can do to one region: nothing, advice, a tick, or a link of the table together with
      its enter action. */
  datatype Effect = Untouched | Heard(weight: real) | Moved | Linked(event: EventType)

  function Affected(cfg: Shaper.Config, f: FsmState, rw: RegionWeight, e: Effect): RegionWeight {
    match e
    case Untouched => rw
    case Heard(w) => Shaper.Advised(cfg, rw, w)
    case Moved => Shaper.Ticked(cfg, rw)
    case Linked(event) =>
      if NextState(f.current, event).Some? then EnterWeight(cfg, f.current, NextState(f.current, event).value, rw) else rw
  }

  lemma DeliveryEffect(cfg: Config, p: Plane, region: string, event: EventType, now: int, r: string) returns (e: Effect)
    requires p.weights.Keys == p.fsms.Keys && region in p.fsms && r in p.fsms
    ensures e.Linked? || e.Untouched?
    ensures Delivered(cfg, p, region, event, now).weights[r] == Affected(cfg.shaper, p.fsms[r], p.weights[r], e)
    ensures Delivered(cfg, p, region, event, now).fsms[r] == if e.Linked? then Sent(p.fsms[r], e.event, now) else p.fsms[r]
  {
    e := if r == region then Linked(event) else Untouched;
  }

  lemma CheckEffect(cfg: Config, p: Plane, order: seq<string>, now: int, r: string) returns (e: Effect)
    requires p.weights.Keys == p.fsms.Keys && r in p.fsms
    ensures e.Linked? || e.Untouched?
    ensures Checked(cfg, p, order, now).weights[r] == Affected(cfg.shaper, p.fsms[r], p.weights[r], e)
    ensures Checked(cfg, p, order, now).fsms[r] == if e.Linked? then Sent(p.fsms[r], e.event, now) else p.fsms[r]
  {
    e := if Overdue(p.fsms[r], cfg.timeouts, now) then Linked(TtlExpired) else Untouched;
  }

  lemma MetricInTrouble(cfg: Config, p: Plane, m: Metric, now: int, r: string)
    requires p.weights.Keys == p.fsms.Keys && r in p.fsms && p.fsms[r].current in {Degraded, Healing}
    ensures Processed(cfg, p, m, now).fsms[r] == p.fsms[r]
    ensures Processed(cfg, p, m, now).weights[r] ==
              Affected(cfg.shaper, p.fsms[r], p.weights[r], if r == m.region then Heard(m.banditRoutingWeight) else Untouched)
  {
    if m.region in p.fsms {
      var counted := Counted(cfg, p, m);
      var v := Judge(cfg, CountOf(p.counts, m.region), p.fsms[m.region].current, m);
      assert Processed(cfg, p, m, now) == if v.event.Some? then Delivered(cfg, counted, m.region, v.event.value, now) else counted;
      if r == m.region && v.event.Some? {
        assert NextState(counted.fsms[r].current, v.event.value).None?;
      }
    }
  }

  ghost predicate InTrouble(p: Plane, r: string) {
    r in p.fsms && p.fsms[r].current in {Degraded, Healing}
  }

  /** If the region is in DEGRADED or HEALING before and after, its weight has not risen. */
  ghost predicate Fallen(p: Plane, q: Plane, r: string) {
    InTrouble(p, r) && InTrouble(q, r) && r in p.weights && r in q.weights ==> q.weights[r].current <= p.weights[r].current
  }

  /** While a region stays in DEGRADED or HEALING its weight never rises. */
  lemma WeightOnlyFallsWhileUnhealthy(cfg: Config, p: Plane, call: Call, now: int, r: string)
    requires cfg.shaper.Sane() && PlaneInv(cfg, p) && r in p.fsms
    ensures Fallen(p, Step(cfg, p, call, now), r)
  {
    var q := Step(cfg, p, call, now);
    match call
    case Scored(m) => MetricFalls(cfg, p, m, now, r); assert q == Processed(cfg, p, m, now);
    case Notice(s, event) => NotificationFalls(cfg, p, s, event, now, r); assert q == Notified(cfg, p, s, event, now);
    case CheckTimers(order) => TimersFall(cfg, p, order, now, r); assert q == Checked(cfg, p, order, now);
    case ShaperTick => TickFalls(cfg, p, r); assert q == Shaped(cfg, p);
  }

  lemma TickFalls(cfg: Config, p: Plane, r: string)
    requires cfg.shaper.Sane() && PlaneInv(cfg, p) && r in p.fsms
    ensures Fallen(p, Shaped(cfg, p), r)
  {
    assert RegionInv(cfg.shaper, p.fsms[r], p.weights[r]);
    Shaper.TickStaysOnCourse(cfg.shaper, p.weights[r]);
  }

  lemma MetricFalls(cfg: Config, p: Plane, m: Metric, now: int, r: string)
    requires cfg.shaper.Sane() && PlaneInv(cfg, p) && r in p.fsms
    ensures Fallen(p, Processed(cfg, p, m, now), r)
  {
    if InTrouble(p, r) {
      assert RegionInv(cfg.shaper, p.fsms[r], p.weights[r]);
      MetricInTrouble(cfg, p, m, now, r);
      Shaper.AdviceStaysOnCourse(cfg.shaper, p.weights[r], m.banditRoutingWeight);
    }
  }

  lemma TimersFall(cfg: Config, p: Plane, order: seq<string>, now: int, r: string)
    requires cfg.shaper.Sane() && PlaneInv(cfg, p) && r in p.fsms
    ensures Fallen(p, Checked(cfg, p, order, now), r)
  {
    var q := Checked(cfg, p, order, now);
    if InTrouble(p, r) && InTrouble(q, r) {
      assert RegionInv(cfg.shaper, p.fsms[r], p.weights[r]);
      var e := CheckEffect(cfg, p, order, now, r);
      LinkFalls(cfg, p.fsms[r], p.weights[r], e, now);
    }
  }

  lemma LinkFalls(cfg: Config, f: FsmState, rw: RegionWeight, e: Effect, now: int)
    requires cfg.shaper.Sane() && RegionInv(cfg.shaper, f, rw) && (e.Linked? || e.Untouched?)
    requires e.Linked? ==> Sent(f, e.event, now).current in {Degraded, Healing}
    ensures Affected(cfg.shaper, f, rw, e).current <= rw.current
  {
  }

  lemma NotificationFalls(cfg: Config, p: Plane, q: string, event: EventType, now: int, r: string)
    requires cfg.shaper.Sane() && PlaneInv(cfg, p) && r in p.fsms
    ensures Fallen(p, Notified(cfg, p, q, event, now), r)
  {
    if q in p.fsms && InTrouble(p, r) && InTrouble(Notified(cfg, p, q, event, now), r) {
      assert RegionInv(cfg.shaper, p.fsms[r], p.weights[r]);
      var e := DeliveryEffect(cfg, p, q, event, now, r);
      LinkFalls(cfg, p.fsms[r], p.weights[r], e, now);
    }
  }

  /** From DEGRADED or HEALING on and never out of them. */
  ghost predicate StaysInTrouble(cfg: Config, p: Plane, calls: seq<Timed>, r: string) {
    InTrouble(Steps(cfg, p, calls), r) && (calls != [] ==> StaysInTrouble(cfg, p, calls[..|calls| - 1], r))
  }

  /** Over any stretch of calls that keeps a region in DEGRADED or HEALING, back and forth between them
      included, its weight ends no higher than it began. */
  lemma {:induction false} WeightOnlyFallsThroughout(cfg: Config, p: Plane, calls: seq<Timed>, r: string)
    requires cfg.shaper.Sane() && PlaneInv(cfg, p) && StaysInTrouble(cfg, p, calls, r)
    ensures r in p.weights && r in Steps(cfg, p, calls).weights
    ensures Steps(cfg, p, calls).weights[r].current <= p.weights[r].current
  {
    if calls != [] {
      var before, last := calls[..|calls| - 1], calls[|calls| - 1];
      WeightOnlyFallsThroughout(cfg, p, before, r);
      StepsKeepInv(cfg, p, before);
      WeightOnlyFallsWhileUnhealthy(cfg, Steps(cfg, p, before), last.call, last.now, r);
    }
  }

  /** The override out of FAILED does not give the weight back: the region is HEALTHY, still held at the
      minimum weight, and no call that leaves its state machine alone ever changes that. */
  lemma ClearedRegionStaysHeldDown(cfg: Config, p: Plane, call: Call, now: int, r: string)
    requires cfg.shaper.Sane() && PlaneInv(cfg, p) && r in p.fsms
    requires p.fsms[r].current == Healthy && CameFromFailed(p.fsms[r])
    requires Step(cfg, p, call, now).fsms[r] == p.fsms[r]
    ensures Step(cfg, p, call, now).weights[r].current == cfg.shaper.minimumWeight
    ensures HeldDown(cfg.shaper, Step(cfg, p, call, now).weights[r])
  {
    StepKeepsInv(cfg, p, call, now);
  }

  /** An operator's override, whose target the state machine never looks at, reaches the state asked
      for exactly on the four links of the table, or when it asks RECOVERED to stay as it is. */
  lemma OverrideReachesTarget(cfg: Config, p: Plane, r: string, target: State, now: int)
    requires r in p.fsms
    ensures Step(cfg, p, Notice(r, ManualOverride), now).fsms[r].current == target
            <==> (p.fsms[r].current, target) in {(Healthy, Degraded), (Degraded, Failed), (Healing, Failed), (Failed, Healthy), (Recovered, Recovered)}
  {
  }

  /** No metric, whatever its scores, moves a region into HEALING or FAILED: the critical signal reaches
      no further than DEGRADED. */
  lemma MetricsNeverFailARegion(cfg: Config, p: Plane, m: Metric, now: int, r: string)
    requires r in p.fsms
    requires Step(cfg, p, Scored(m), now).fsms[r] != p.fsms[r]
    ensures r == m.region
    ensures (p.fsms[r].current == Healthy && Step(cfg, p, Scored(m), now).fsms[r].current == Degraded)
         || (p.fsms[r].current == Recovered && Step(cfg, p, Scored(m), now).fsms[r].current == Healthy)
  {
  }

  /** Exactly the metrics that move a machine: sure enough, and one more critical signal than can be counted
      in HEALTHY, another call for failover in HEALTHY, or an all-clear in RECOVERED. */
  lemma MetricMovesIff(cfg: Config, p: Plane, m: Metric, now: int)
    requires m.region in p.fsms
    ensures var critical := m.xgboostSeverity == CRITICAL && m.xgboostConfidence > 0.70;
            var healthy, recovered := p.fsms[m.region].current == Healthy, p.fsms[m.region].current == Recovered;
            Step(cfg, p, Scored(m), now).fsms[m.region] != p.fsms[m.region]
            <==> m.failoverConfidence >= cfg.minFailoverConfidence &&
                 if critical then healthy && CountOf(p.counts, m.region) + 1 >= cfg.criticalSignalsThreshold
                 else (m.shouldTriggerFailover && healthy)
                      || (!m.shouldTriggerFailover && m.isolationForestScore < 0.30 && recovered)
  {
    var v := Judge(cfg, CountOf(p.counts, m.region), p.fsms[m.region].current, m);
    assert Step(cfg, p, Scored(m), now) == Processed(cfg, p, m, now);
    if v.event.Some? {
      assert Processed(cfg, p, m, now).fsms[m.region] == Sent(p.fsms[m.region], v.event.value, now);
      SendMovesIff(p.fsms[m.region], v.event.value, now);
    }
  }

  // ----- an operator's forced weight -----

  /** The one call outside the runs above, setting a weight directly, keeps the joint invariant exactly when
      the weight is in range and is the one the region's state allows; in FAILED, and after FAILED was
      cleared by hand, none is. */
  lemma ForcedKeepsJointIff(cfg: Shaper.Config, f: FsmState, rw: RegionWeight, weight: real)
    requires cfg.Sane() && Joint(cfg, f, rw)
    ensures Shaper.OnCourse(cfg, Shaper.Forced(rw, weight)) <==> cfg.minimumWeight <= weight <= Shaper.FULL_WEIGHT
    ensures Joint(cfg, f, Shaper.Forced(rw, weight))
            <==> match f.current
                 case Failed => false
                 case Degraded => weight == cfg.minimumWeight
                 case Healing => weight == cfg.minimumWeight
                 case Recovered => cfg.minimumWeight <= weight <= Shaper.FULL_WEIGHT
                 case Healthy => !CameFromFailed(f) && cfg.minimumWeight <= weight <= Shaper.FULL_WEIGHT
  {
  }

  // ----- stretches of a run -----

  ghost function Steps(cfg: Config, p: Plane, calls: seq<Timed>): (q: Plane)
    ensures q.fsms.Keys == p.fsms.Keys && q.weights.Keys == p.weights.Keys
  {
    if calls == [] then p
    else Step(cfg, Steps(cfg, p, calls[..|calls| - 1]), calls[|calls| - 1].call, calls[|calls| - 1].now)
  }

  lemma {:induction false} StepsKeepInv(cfg: Config, p: Plane, calls: seq<Timed>)
    requires cfg.shaper.Sane() && PlaneInv(cfg, p)
    ensures PlaneInv(cfg, Steps(cfg, p, calls))
  {
    if calls != [] {
      StepsKeepInv(cfg, p, calls[..|calls| - 1]);
      StepKeepsInv(cfg, Steps(cfg, p, calls[..|calls| - 1]), calls[|calls| - 1].call, calls[|calls| - 1].now);
    }
  }

  // ----- a metric whose verdict comes late -----

  /** A metric whose verdict was reached on one state of the plane and whose event is delivered after any
      other calls. */
  ghost function LateMetric(cfg: Config, p: Plane, m: Metric, between: seq<Timed>, now: int): Plane
    requires m.region in p.fsms
  {
    var v := Judge(cfg, CountOf(p.counts, m.region), p.fsms[m.region].current, m);
    var q := Steps(cfg, Counted(cfg, p, m), between);
    if v.event.Some? then Delivered(cfg, q, m.region, v.event.value, now) else q
  }

  lemma LateMetricWithoutDelay(cfg: Config, p: Plane, m: Metric, now: int)
    requires m.region in p.fsms
    ensures LateMetric(cfg, p, m, [], now) == Processed(cfg, p, m, now)
  {
  }

  /** However late it comes, the joint invariant holds. */
  lemma LateMetricKeepsInv(cfg: Config, p: Plane, m: Metric, between: seq<Timed>, now: int)
    requires cfg.shaper.Sane() && PlaneInv(cfg, p) && m.region in p.fsms
    ensures PlaneInv(cfg, LateMetric(cfg, p, m, between, now))
  {
    AdviceKeepsPlaneInv(cfg, p, m);
    StepsKeepInv(cfg, Counted(cfg, p, m), between);
    var v := Judge(cfg, CountOf(p.counts, m.region), p.fsms[m.region].current, m);
    if v.event.Some? {
      DeliveryKeepsInv(cfg, Steps(cfg, Counted(cfg, p, m), between), m.region, v.event.value, now);
    }
  }

  /** Of the machines it can still move only its own region's, and in one way more than a punctual metric:
      an anomaly seen in HEALTHY can find the region in RECOVERED and roll it back. */
  lemma LateMetricReaches(cfg: Config, p: Plane, m: Metric, between: seq<Timed>, now: int, r: string)
    requires m.region in p.fsms && r in p.fsms
    ensures r in LateMetric(cfg, p, m, between, now).fsms
    ensures var f := Steps(cfg, Counted(cfg, p, m), between).fsms[r];
            var g := LateMetric(cfg, p, m, between, now).fsms[r];
            f == g
            || (r == m.region
                && (|| (f.current == Healthy && g.current == Degraded)
                    || (f.current == Recovered && g.current == Healthy && p.fsms[r].current == Recovered)
                    || (f.current == Recovered && g.current == Degraded && p.fsms[r].current == Healthy)))
  {
    var v := Judge(cfg, CountOf(p.counts, m.region), p.fsms[m.region].current, m);
    var q := Steps(cfg, Counted(cfg, p, m), between);
    if v.event.Some? {
      assert LateMetric(cfg, p, m, between, now) == Delivered(cfg, q, m.region, v.event.value, now);
    }
  }

  /** Such a roll-back happens: a confident metric reads HEALTHY; before its event is sent an operator
      overrides the region, and a runbook starts and succeeds. */
  lemma LateMetricRollsBack(cfg: Config, p: Plane, m: Metric, now: int)
    requires m.region in p.fsms && p.fsms[m.region].current == Healthy
    requires m.failoverConfidence >= cfg.minFailoverConfidence && m.shouldTriggerFailover && !Qualifies(cfg, m)
    ensures var r := m.region;
            var between := [Timed(Notice(r, ManualOverride), now), Timed(Notice(r, RunbookStarted), now), Timed(Notice(r, RunbookSucceeded), now)];
            && Steps(cfg, Counted(cfg, p, m), between).fsms[r].current == Recovered
            && r in LateMetric(cfg, p, m, between, now).fsms
            && LateMetric(cfg, p, m, between, now).fsms[r].current == Degraded
  {
    var r, p0 := m.region, Counted(cfg, p, m);
    var a, b, c := Timed(Notice(r, ManualOverride), now), Timed(Notice(r, RunbookStarted), now), Timed(Notice(r, RunbookSucceeded), now);
    assert [] + [a] == [a] && [a] + [b] == [a, b] && [a, b] + [c] == [a, b, c];
    NoticeComesNext(cfg, p0, [], r, ManualOverride, now);
    NoticeComesNext(cfg, p0, [a], r, RunbookStarted, now);
    NoticeComesNext(cfg, p0, [a, b], r, RunbookSucceeded, now);
    NoticeMoves(cfg, Steps(cfg, p0, [a, b, c]), r, AnomalyDetected, now);
    var v := Judge(cfg, CountOf(p.counts, r), Healthy, m);
    assert v.event == Some(AnomalyDetected);
  }

  lemma NoticeComesNext(cfg: Config, p: Plane, calls: seq<Timed>, r: string, event: EventType, now: int)
    requires r in p.fsms
    ensures Steps(cfg, p, calls + [Timed(Notice(r, event), now)]).fsms[r] == Sent(Steps(cfg, p, calls).fsms[r], event, now)
  {
    assert (calls + [Timed(Notice(r, event), now)])[..|calls|] == calls;
    NoticeMoves(cfg, Steps(cfg, p, calls), r, event, now);
  }

  lemma NoticeMoves(cfg: Config, p: Plane, r: string, event: EventType, now: int)
    requires r in p.fsms
    ensures Step(cfg, p, Notice(r, event), now) == Delivered(cfg, p, r, event, now)
    ensures Delivered(cfg, p, r, event, now).fsms[r] == Sent(p.fsms[r], event, now)
  {
  }

  // ----- what reaches the route tables -----

  ghost predicate PublishedFairly(cfg: Config, n: nat, call: Outbound)
    requires cfg.shaper.Sane()
  {
    call.PublishWeights? ==>
      && MapSums.Sum(call.weights) == 1.0
      && |call.weights| == n
      && forall r :: r in call.weights ==> n > 0 && call.weights[r] >= FairShare(cfg, n)
  }

  function FairShare(cfg: Config, n: nat): real
    requires cfg.shaper.Sane() && n > 0
  {
    cfg.shaper.minimumWeight / (cfg.shaper.minimumWeight + (n - 1) as real * Shaper.FULL_WEIGHT)
  }

  lemma TickedStaysOnCourse(cfg: Config, p: Plane)
    requires cfg.shaper.Sane() && PlaneInv(cfg, p)
    ensures Shaper.AllOnCourse(cfg.shaper, Shaper.AllTicked(cfg.shaper, p.weights))
    ensures Shaper.AllTicked(cfg.shaper, p.weights).Keys == p.fsms.Keys
  {
    forall r | r in p.weights ensures Shaper.OnCourse(cfg.shaper, Shaper.Ticked(cfg.shaper, p.weights[r])) {
      assert RegionInv(cfg.shaper, p.fsms[r], p.weights[r]);
      Shaper.TickStaysOnCourse(cfg.shaper, p.weights[r]);
    }
  }

  lemma FairlyNormalised(cfg: Config, regions: map<string, RegionWeight>)
    requires cfg.shaper.Sane() && Shaper.AllOnCourse(cfg.shaper, regions) && regions != map[]
    ensures PublishedFairly(cfg, |regions.Keys|, PublishWeights(Shaper.Normalised(regions)))
  {
    Shaper.SharesAddUp(cfg.shaper, regions);
    var w := Shaper.Normalised(regions);
    forall r | r in w ensures w[r] >= FairShare(cfg, |regions.Keys|) {
      Shaper.ShareIsFair(cfg.shaper, regions, r);
      assert |regions| == |regions.Keys|;
    }
    assert w.Keys == regions.Keys && |w| == |w.Keys|;
  }

  /** The tick lets go of the shaper between moving the weights and normalising them.  Whatever calls come in
      between, what is then published is as fair. */
  lemma LatePublicationIsFair(cfg: Config, p: Plane, between: seq<Timed>)
    requires cfg.shaper.Sane() && PlaneInv(cfg, p) && p.fsms != map[]
    ensures PublishedFairly(cfg, |p.fsms.Keys|, PublishWeights(Shaper.Normalised(Steps(cfg, Shaped(cfg, p), between).weights)))
  {
    var q := Steps(cfg, Shaped(cfg, p), between);
    TicksKeepInv(cfg, p);
    StepsKeepInv(cfg, Shaped(cfg, p), between);
    InvIsOnCourse(cfg, q);
    assert q.weights.Keys == p.fsms.Keys;
    FairlyNormalised(cfg, q.weights);
  }

  lemma InvIsOnCourse(cfg: Config, p: Plane)
    requires PlaneInv(cfg, p)
    ensures Shaper.AllOnCourse(cfg.shaper, p.weights)
  {
    forall r | r in p.weights ensures Shaper.OnCourse(cfg.shaper, p.weights[r]) {
      assert RegionInv(cfg.shaper, p.fsms[r], p.weights[r]);
    }
  }

  lemma TickPublishesNormalised(cfg: Config, p: Plane, i: nat)
    requires |p.outbound| <= i < |Shaped(cfg, p).outbound|
    ensures Shaper.AllTicked(cfg.shaper, p.weights) != map[]
    ensures Shaped(cfg, p).outbound[i] == PublishWeights(Shaper.Normalised(Shaper.AllTicked(cfg.shaper, p.weights)))
  {
  }

  /** A tick publishes exactly if it moves some weight. */
  lemma TickPublishesIff(cfg: Config, p: Plane)
    requires cfg.shaper.Sane() && PlaneInv(cfg, p)
    ensures Shaped(cfg, p).outbound ==
              if exists r :: r in p.weights && Moving(cfg, p.weights[r])
              then p.outbound + [PublishWeights(Shaper.Normalised(Shaped(cfg, p).weights))] else p.outbound
  {
    InvIsOnCourse(cfg, p);
    var ticked := Shaper.AllTicked(cfg.shaper, p.weights);
    forall r | r in p.weights ensures ticked[r].current != p.weights[r].current <==> Moving(cfg, p.weights[r]) {
      Shaper.TickMovesIff(cfg.shaper, p.weights[r]);
    }
    var changed := exists r :: r in ticked && ticked[r].current != p.weights[r].current;
    if r :| r in p.weights && Moving(cfg, p.weights[r]) {
      assert r in ticked && changed;
    }
  }

  ghost predicate Moving(cfg: Config, rw: RegionWeight) {
    rw.ratePerSec != 0.0 && Shaper.Distance(rw) > 0.001 && !Shaper.Stalls(cfg.shaper, rw)
  }

  /** So a hard failover, which sets the weight straight away, is not published by itself: while every weight
      is at rest the ticks change nothing and publish nothing. */
  lemma RestIsNotPublished(cfg: Config, p: Plane)
    requires forall r :: r in p.weights ==> p.weights[r].ratePerSec == 0.0
    ensures Shaped(cfg, p) == p
  {
    assert Shaper.AllTicked(cfg.shaper, p.weights) == p.weights;
  }

  lemma TickPublishesFairly(cfg: Config, p: Plane, i: nat)
    requires cfg.shaper.Sane() && PlaneInv(cfg, p) && |p.outbound| <= i < |Shaped(cfg, p).outbound|
    ensures PublishedFairly(cfg, |p.fsms.Keys|, Shaped(cfg, p).outbound[i])
  {
    TickPublishesNormalised(cfg, p, i);
    TickedStaysOnCourse(cfg, p);
    FairlyNormalised(cfg, Shaper.AllTicked(cfg.shaper, p.weights));
  }

  lemma StepPublishesFairly(cfg: Config, p: Plane, call: Call, now: int, i: nat)
    requires cfg.shaper.Sane() && PlaneInv(cfg, p)
    requires |p.outbound| <= i < |Step(cfg, p, call, now).outbound|
    ensures PublishedFairly(cfg, |p.fsms.Keys|, Step(cfg, p, call, now).outbound[i])
  {
    if call.ShaperTick? {
      assert Step(cfg, p, call, now) == Shaped(cfg, p);
      TickPublishesFairly(cfg, p, i);
    } else {
      OnlyTicksPublish(cfg, p, call, now, i);
    }
  }

  lemma OnlyTicksPublish(cfg: Config, p: Plane, call: Call, now: int, i: nat)
    requires !call.ShaperTick? && |p.outbound| <= i < |Step(cfg, p, call, now).outbound|
    ensures !Step(cfg, p, call, now).outbound[i].PublishWeights?
  {
    if call.CheckTimers? {
      ExpiryCallsPublishNothing(cfg, p.fsms, call.order, now);
    }
  }

  lemma StepExtendsOutbound(cfg: Config, p: Plane, call: Call, now: int)
    ensures p.outbound <= Step(cfg, p, call, now).outbound
  {
  }

  lemma {:induction false} ExpiryCallsPublishNothing(cfg: Config, fsms: map<string, FsmState>, order: seq<string>, now: int)
    ensures forall i :: 0 <= i < |ExpiryCalls(cfg, fsms, order, now)| ==> !ExpiryCalls(cfg, fsms, order, now)[i].PublishWeights?
  {
    if order != [] {
      ExpiryCallsPublishNothing(cfg, fsms, order[..|order| - 1], now);
    }
  }

  /** Everything any run publishes to the route tables adds up to one, and gives every region at least
      minimum / (minimum + (n - 1) * full). */
  lemma {:induction false} PublishedWeightsAreFair(cfg: Config, regions: seq<string>, start: int, calls: seq<Timed>)
    requires cfg.shaper.Sane()
    ensures var p := RunPlane(cfg, regions, start, calls);
            forall i :: 0 <= i < |p.outbound| ==> PublishedFairly(cfg, |set r | r in regions|, p.outbound[i])
  {
    if calls != [] {
      var before := RunPlane(cfg, regions, start, calls[..|calls| - 1]);
      var last := calls[|calls| - 1];
      PublishedWeightsAreFair(cfg, regions, start, calls[..|calls| - 1]);
      JointAlways(cfg, regions, start, calls[..|calls| - 1]);
      StepExtendsOutbound(cfg, before, last.call, last.now);
      var p := RunPlane(cfg, regions, start, calls);
      forall i | 0 <= i < |p.outbound| ensures PublishedFairly(cfg, |set r | r in regions|, p.outbound[i]) {
        if i < |before.outbound| {
          assert p.outbound[i] == before.outbound[i];
        } else {
          StepPublishesFairly(cfg, before, last.call, last.now, i);
        }
      }
    }
  }
}
