/**
 The windowed aggregator of an agent (ebpf-detection-02/agent/internal/telemetry/aggregator.go).

 Ingested says what one event does to the table of accumulators.  A Window carries, beside the table,
 the events each accumulator was made from and what was thrown away, so that the table can be compared
 with what was put into it.
 */
module Telemetry {
  import opened MapSums
  import opened RealArithmetic
  import opened HashRing
  import opened Decimals
  import opened Sorting
  import opened Jitter

  datatype FlowEvent = FlowEvent(
    srcIp: string, srcPort: nat, dstIp: string, dstPort: nat,
    bytesTotal: nat, pktCount: nat, retransmitCount: nat, rttEwmaUs: nat, anomalyScore: nat)

  datatype TcpEvent = TcpEvent(srcIp: string, srcPort: nat, dstIp: string, dstPort: nat, eventType: nat, srttUs: nat)

  datatype Event = Flow(flow: FlowEvent) | Tcp(tcp: TcpEvent)

  const TCP_CONNECT := 0
  const TCP_CLOSE := 1
  const TCP_RETRANSMIT := 2
  const TCP_RTT_SAMPLE := 3

  datatype Accumulator = Accumulator(
    srcIp: string, dstIp: string, region: string,
    totalBytes: nat, totalPackets: nat, retransmitSum: nat,
    rttSamples: seq<nat>, rttEwma: nat,
    maxAnomalyScore: nat, anomalyScoreSum: nat, anomalyCount: nat,
    connects: nat, closes: nat, retrans: nat)

  type Table = map<string, Accumulator>

  function FlowKey(srcIp: string, srcPort: nat, dstIp: string, dstPort: nat): string {
    srcIp + ":" + Decimal(srcPort) + "-" + dstIp + ":" + Decimal(dstPort)
  }

  /** Flows that differ in an address or a port have different keys, as long as no address holds a colon. */
  lemma FlowKeysDiffer(srcIp: string, srcPort: nat, dstIp: string, dstPort: nat, src: string, sport: nat, dst: string, dport: nat)
    requires Free(srcIp, ':') && Free(dstIp, ':') && Free(src, ':') && Free(dst, ':')
    requires FlowKey(srcIp, srcPort, dstIp, dstPort) == FlowKey(src, sport, dst, dport)
    ensures srcIp == src && srcPort == sport && dstIp == dst && dstPort == dport
  {
    var rest, more := Decimal(srcPort) + "-" + dstIp + ":" + Decimal(dstPort), Decimal(sport) + "-" + dst + ":" + Decimal(dport);
    assert srcIp + [':'] + rest == FlowKey(srcIp, srcPort, dstIp, dstPort) == FlowKey(src, sport, dst, dport) == src + [':'] + more;
    SplitsOnce(srcIp, src, rest, more, ':');
    var end, tail := dstIp + ":" + Decimal(dstPort), dst + ":" + Decimal(dport);
    DigitsOnly(srcPort, '-');
    DigitsOnly(sport, '-');
    assert Decimal(srcPort) + ['-'] + end == rest == more == Decimal(sport) + ['-'] + tail;
    SplitsOnce(Decimal(srcPort), Decimal(sport), end, tail, '-');
    SplitsOnce(dstIp, dst, Decimal(dstPort), Decimal(dport), ':');
    DecimalIsInjective(srcPort, sport);
    DecimalIsInjective(dstPort, dport);
  }

  function KeyOf(e: Event): string {
    match e
    case Flow(f) => FlowKey(f.srcIp, f.srcPort, f.dstIp, f.dstPort)
    case Tcp(t) => FlowKey(t.srcIp, t.srcPort, t.dstIp, t.dstPort)
  }

  function Opened(srcIp: string, dstIp: string): Accumulator {
    Accumulator(srcIp, dstIp, "unknown", 0, 0, 0, [], 0, 0, 0, 0, 0, 0, 0)
  }

  function OpenedFor(e: Event): Accumulator {
    match e
    case Flow(f) => Opened(f.srcIp, f.dstIp)
    case Tcp(t) => Opened(t.srcIp, t.dstIp)
  }

  function Sampled(a: Accumulator, rtt: nat): Accumulator {
    if rtt > 0 then a.(rttSamples := a.rttSamples + [rtt], rttEwma := rtt) else a
  }

  function Added(a: Accumulator, e: Event): Accumulator {
    match e
    case Flow(f) =>
      Sampled(a, f.rttEwmaUs).(
        totalBytes := a.totalBytes + f.bytesTotal,
        totalPackets := a.totalPackets + f.pktCount,
        retransmitSum := a.retransmitSum + f.retransmitCount,
        maxAnomalyScore := if f.anomalyScore > a.maxAnomalyScore then f.anomalyScore else a.maxAnomalyScore,
        anomalyScoreSum := a.anomalyScoreSum + f.anomalyScore,
        anomalyCount := a.anomalyCount + 1)
    case Tcp(t) =>
      if t.eventType == TCP_CONNECT then a.(connects := a.connects + 1)
      else if t.eventType == TCP_CLOSE then a.(closes := a.closes + 1)
      else if t.eventType == TCP_RETRANSMIT then a.(retrans := a.retrans + 1, retransmitSum := a.retransmitSum + 1)
      else if t.eventType == TCP_RTT_SAMPLE then Sampled(a, t.srttUs)
      else a
  }

  predicate Evicts(maxFlows: int, flows: Table, e: Event) {
    e.Flow? && KeyOf(e) !in flows && |flows| >= maxFlows && flows != map[]
  }

  /** One event; `victim` is the entry dropped to make room, if one is. */
  function Ingested(maxFlows: int, flows: Table, e: Event, victim: string): Table {
    var kept := if Evicts(maxFlows, flows, e) then flows - {victim} else flows;
    kept[KeyOf(e) := Added(if KeyOf(e) in flows then flows[KeyOf(e)] else OpenedFor(e), e)]
  }

  /** A flow event never makes a full table larger; only TCP events can. */
  lemma FlowEventsRespectTheLimit(maxFlows: int, flows: Table, e: Event, victim: string)
    requires maxFlows >= 1 && e.Flow? && (Evicts(maxFlows, flows, e) ==> victim in flows)
    ensures |Ingested(maxFlows, flows, e, victim)| <= if |flows| > maxFlows then |flows| else maxFlows
  {
  }

  // ----- a window of events -----

  function Fold(log: seq<Event>): Accumulator
    requires log != []
  {
    if |log| == 1 then Added(OpenedFor(log[0]), log[0])
    else Added(Fold(log[..|log| - 1]), log[|log| - 1])
  }

  /** The table, the events each of its accumulators was made from, and all that was evicted and seen. */
  datatype Window = Window(flows: Table, log: map<string, seq<Event>>, evicted: seq<Accumulator>, seen: seq<Event>)

  function Watched(maxFlows: int, w: Window, e: Event, victim: string): Window {
    var key := KeyOf(e);
    var evicts := Evicts(maxFlows, w.flows, e) && victim in w.flows;
    var logs := if evicts then w.log - {victim} else w.log;
    Window(
      Ingested(maxFlows, w.flows, e, victim),
      logs[key := if key in w.log then w.log[key] + [e] else [e]],
      if evicts then w.evicted + [w.flows[victim]] else w.evicted,
      w.seen + [e])
  }

  /** The accumulator is the fold of the log, which holds events of this key only. */
  ghost predicate IsFoldOf(a: Accumulator, log: seq<Event>, key: string) {
    log != [] && a == Fold(log) && forall i :: 0 <= i < |log| ==> KeyOf(log[i]) == key
  }

  ghost predicate Logged(w: Window) {
    w.log.Keys == w.flows.Keys && forall k :: k in w.flows ==> IsFoldOf(w.flows[k], w.log[k], k)
  }

  lemma AppendToFold(log: seq<Event>, e: Event)
    requires log != []
    ensures Fold(log + [e]) == Added(Fold(log), e)
  {
  }

  lemma WatchingStaysLogged(maxFlows: int, w: Window, e: Event, victim: string)
    requires Logged(w)
    ensures Logged(Watched(maxFlows, w, e, victim))
  {
    var key, v := KeyOf(e), Watched(maxFlows, w, e, victim);
    forall k | k in v.flows ensures k in v.log && IsFoldOf(v.flows[k], v.log[k], k) {
      if k != key {
        assert v.flows[k] == w.flows[k] && v.log[k] == w.log[k];
      } else if key in w.log {
        AppendToFold(w.log[key], e);
      }
    }
  }

  datatype Arrival = Arrival(event: Event, victim: string)

  function Watch(maxFlows: int, arrivals: seq<Arrival>): Window {
    if arrivals == [] then Window(map[], map[], [], [])
    else Watched(maxFlows, Watch(maxFlows, arrivals[..|arrivals| - 1]), arrivals[|arrivals| - 1].event, arrivals[|arrivals| - 1].victim)
  }

  // ----- conservation -----

  /** A total kept per flow, and what one event adds to it. */
  datatype Measure = Measure(of: Accumulator -> nat, adds: Event -> nat)

  ghost predicate AddsUpAt(m: Measure, a: Accumulator, e: Event) {
    m.of(Added(a, e)) == m.of(a) + m.adds(e) && m.of(OpenedFor(e)) == 0
  }

  ghost predicate IsMeasure(m: Measure) {
    forall a, e :: AddsUpAt(m, a, e)
  }

  function HeldIn(flows: Table, m: Measure): map<string, real> {
    map k | k in flows :: m.of(flows[k]) as real
  }

  function TotalEvicted(evicted: seq<Accumulator>, m: Measure): nat {
    if evicted == [] then 0 else TotalEvicted(evicted[..|evicted| - 1], m) + m.of(evicted[|evicted| - 1])
  }

  function TotalSeen(seen: seq<Event>, m: Measure): nat {
    if seen == [] then 0 else TotalSeen(seen[..|seen| - 1], m) + m.adds(seen[|seen| - 1])
  }

  /** Totals held plus totals evicted are the totals ingested. */
  ghost predicate Conserved(w: Window, m: Measure) {
    Sum(HeldIn(w.flows, m)) + TotalEvicted(w.evicted, m) as real == TotalSeen(w.seen, m) as real
  }

  lemma EvictionTakes(flows: Table, victim: string, m: Measure)
    ensures victim in flows ==> Sum(HeldIn(flows - {victim}, m)) == Sum(HeldIn(flows, m)) - m.of(flows[victim]) as real
    ensures victim !in flows ==> flows - {victim} == flows
  {
    if victim in flows {
      SumSplit(HeldIn(flows, m), victim);
      assert HeldIn(flows - {victim}, m) == HeldIn(flows, m) - {victim};
    }
  }

  lemma InsertionGives(flows: Table, key: string, a: Accumulator, e: Event, m: Measure)
    requires AddsUpAt(m, a, e) && if key in flows then a == flows[key] else a == OpenedFor(e)
    ensures Sum(HeldIn(flows[key := Added(a, e)], m)) == Sum(HeldIn(flows, m)) + m.adds(e) as real
  {
    var held := (m.of(a) + m.adds(e)) as real;
    assert HeldIn(flows[key := Added(a, e)], m) == HeldIn(flows, m)[key := held];
    SumUpdate(HeldIn(flows, m), key, held);
  }

  lemma WatchingConserves(maxFlows: int, w: Window, e: Event, victim: string, m: Measure)
    requires IsMeasure(m) && Conserved(w, m)
    ensures Conserved(Watched(maxFlows, w, e, victim), m)
  {
    var v := Watched(maxFlows, w, e, victim);
    var kept := if Evicts(maxFlows, w.flows, e) then w.flows - {victim} else w.flows;
    var a := if KeyOf(e) in w.flows then w.flows[KeyOf(e)] else OpenedFor(e);
    assert AddsUpAt(m, a, e);
    EvictionTakes(w.flows, victim, m);
    InsertionGives(kept, KeyOf(e), a, e, m);
    assert v.seen[..|w.seen|] == w.seen;
    if |v.evicted| > |w.evicted| {
      assert v.evicted[..|w.evicted|] == w.evicted;
    }
  }

  /** Every accumulator is the fold of its own key's events since it was inserted, and every total kept per
      flow is conserved. */
  ghost predicate Faithful(w: Window) {
    Logged(w) && forall m: Measure :: IsMeasure(m) ==> Conserved(w, m)
  }

  lemma WatchingStaysFaithful(maxFlows: int, w: Window, e: Event, victim: string)
    requires Faithful(w)
    ensures Faithful(Watched(maxFlows, w, e, victim))
  {
    WatchingStaysLogged(maxFlows, w, e, victim);
    forall m: Measure | IsMeasure(m) ensures Conserved(Watched(maxFlows, w, e, victim), m) {
      WatchingConserves(maxFlows, w, e, victim, m);
    }
  }

  lemma EmptyWindowIsFaithful()
    ensures Faithful(Window(map[], map[], [], []))
  {
    forall m: Measure ensures Conserved(Window(map[], map[], [], []), m) {
      assert HeldIn(map[], m) == map[];
    }
  }

  /** In every window, from an empty table on, whatever events arrive and whatever is evicted. */
  lemma {:induction false} WindowsAreFaithful(maxFlows: int, arrivals: seq<Arrival>)
    ensures Faithful(Watch(maxFlows, arrivals))
    ensures var seen := Watch(maxFlows, arrivals).seen;
            |seen| == |arrivals| && forall i :: 0 <= i < |arrivals| ==> seen[i] == arrivals[i].event
  {
    if arrivals == [] {
      EmptyWindowIsFaithful();
    } else {
      var before, a := arrivals[..|arrivals| - 1], arrivals[|arrivals| - 1];
      WindowsAreFaithful(maxFlows, before);
      WatchingStaysFaithful(maxFlows, Watch(maxFlows, before), a.event, a.victim);
    }
  }

  const BYTES := Measure((a: Accumulator) => a.totalBytes, (e: Event) => if e.Flow? then e.flow.bytesTotal else 0)
  const PACKETS := Measure((a: Accumulator) => a.totalPackets, (e: Event) => if e.Flow? then e.flow.pktCount else 0)
  const RETRANSMITS := Measure(
    (a: Accumulator) => a.retransmitSum,
    (e: Event) => if e.Flow? then e.flow.retransmitCount else if e.tcp.eventType == 2 then 1 else 0)

  const ANOMALY_SUMS := Measure((a: Accumulator) => a.anomalyScoreSum, (e: Event) => if e.Flow? then e.flow.anomalyScore else 0)
  const ANOMALIES := Measure((a: Accumulator) => a.anomalyCount, (e: Event) => if e.Flow? then 1 else 0)
  const CONNECTS := Measure((a: Accumulator) => a.connects, (e: Event) => if e.Tcp? && e.tcp.eventType == 0 then 1 else 0)
  const CLOSES := Measure((a: Accumulator) => a.closes, (e: Event) => if e.Tcp? && e.tcp.eventType == 1 then 1 else 0)
  const RETRANS := Measure((a: Accumulator) => a.retrans, (e: Event) => if e.Tcp? && e.tcp.eventType == 2 then 1 else 0)

  /** In particular bytes, packets, and the retransmits that both kinds of events report. */
  lemma ThreeTotalsAreConserved(maxFlows: int, arrivals: seq<Arrival>)
    ensures var w := Watch(maxFlows, arrivals); Conserved(w, BYTES) && Conserved(w, PACKETS) && Conserved(w, RETRANSMITS)
  {
    WindowsAreFaithful(maxFlows, arrivals);
    ThreeMeasures();
  }

  lemma ThreeMeasures()
    ensures IsMeasure(BYTES) && IsMeasure(PACKETS) && IsMeasure(RETRANSMITS)
  {
    forall a, e ensures AddsUpAt(BYTES, a, e) && AddsUpAt(PACKETS, a, e) && AddsUpAt(RETRANSMITS, a, e) {
    }
  }

  /** And the sums and counts of anomaly scores, and the connects, closes and retransmits seen. */
  lemma CountsAreConserved(maxFlows: int, arrivals: seq<Arrival>)
    ensures var w := Watch(maxFlows, arrivals);
            && Conserved(w, ANOMALY_SUMS) && Conserved(w, ANOMALIES)
            && Conserved(w, CONNECTS) && Conserved(w, CLOSES) && Conserved(w, RETRANS)
  {
    WindowsAreFaithful(maxFlows, arrivals);
    CountMeasures();
  }

  lemma CountMeasures()
    ensures IsMeasure(ANOMALY_SUMS) && IsMeasure(ANOMALIES) && IsMeasure(CONNECTS) && IsMeasure(CLOSES) && IsMeasure(RETRANS)
  {
    forall a, e
      ensures AddsUpAt(ANOMALY_SUMS, a, e) && AddsUpAt(ANOMALIES, a, e) && AddsUpAt(CONNECTS, a, e) && AddsUpAt(CLOSES, a, e) && AddsUpAt(RETRANS, a, e) {
    }
  }

  /** A flow's own total is that of its events, for every such measure. */
  lemma {:induction false} FlowTotals(log: seq<Event>, m: Measure)
    requires log != [] && IsMeasure(m)
    ensures m.of(Fold(log)) == TotalSeen(log, m)
  {
    var before, e := log[..|log| - 1], log[|log| - 1];
    if before == [] {
      assert AddsUpAt(m, OpenedFor(e), e);
    } else {
      FlowTotals(before, m);
      assert AddsUpAt(m, Fold(before), e);
    }
  }

  /** The round-trip times among the events that are not zero, of both kinds, in order. */
  function RttsSeen(log: seq<Event>): seq<nat> {
    if log == [] then []
    else
      var before, e := RttsSeen(log[..|log| - 1]), log[|log| - 1];
      var rtt := if e.Flow? then e.flow.rttEwmaUs else if e.tcp.eventType == 3 then e.tcp.srttUs else 0;
      if rtt == 0 then before else before + [rtt]
  }

  /** The samples of a window are exactly those, under the addresses of its first event. */
  lemma {:induction false} SamplesAreRttsSeen(log: seq<Event>)
    requires log != []
    ensures Fold(log).rttSamples == RttsSeen(log)
    ensures Fold(log).srcIp == OpenedFor(log[0]).srcIp && Fold(log).dstIp == OpenedFor(log[0]).dstIp && Fold(log).region == "unknown"
  {
    var before, e := log[..|log| - 1], log[|log| - 1];
    assert RttsSeen([]) == [];
    if before != [] {
      SamplesAreRttsSeen(before);
    }
  }

  predicate Scored(log: seq<Event>, i: nat, score: nat) {
    i < |log| && log[i].Flow? && log[i].flow.anomalyScore == score
  }

  /** The maximum reported is the largest score seen, and zero if there was none. */
  lemma {:induction false} MaximumIsLargestSeen(log: seq<Event>)
    requires log != []
    ensures var most := Fold(log).maxAnomalyScore;
            && (forall i :: 0 <= i < |log| && log[i].Flow? ==> log[i].flow.anomalyScore <= most)
            && (most == 0 || exists i: nat :: Scored(log, i, most))
  {
    var before, e := log[..|log| - 1], log[|log| - 1];
    var most := Fold(log).maxAnomalyScore;
    if before != [] {
      MaximumIsLargestSeen(before);
      if i: nat :| Scored(before, i, Fold(before).maxAnomalyScore) {
        assert Scored(log, i, Fold(before).maxAnomalyScore);
      }
    }
    assert e.Flow? && most == e.flow.anomalyScore ==> Scored(log, |log| - 1, most);
  }

  /** An accumulator's anomaly sum never exceeds its count times its maximum. */
  lemma {:induction false} AnomaliesAreBounded(log: seq<Event>)
    requires log != []
    ensures Fold(log).anomalyScoreSum <= Fold(log).anomalyCount * Fold(log).maxAnomalyScore
  {
    if |log| > 1 {
      var a, e := Fold(log[..|log| - 1]), log[|log| - 1];
      AnomaliesAreBounded(log[..|log| - 1]);
      if e.Flow? {
        OneMoreScore(a.anomalyCount, a.maxAnomalyScore, Added(a, e).maxAnomalyScore);
      }
    }
  }

  lemma OneMoreScore(count: nat, most: nat, newMost: nat)
    requires most <= newMost
    ensures (count + 1) * newMost >= count * most + newMost
  {
  }

  /** The probe's events carry running totals, which the accumulator adds up again: from a flow's second
      event in a window on, the bytes are counted more than once. */
  lemma {:induction false} RunningTotalsAreOvercounted(log: seq<Event>)
    requires log != [] && forall i :: 0 <= i < |log| ==> log[i].Flow? && log[i].flow.bytesTotal > 0
    ensures Fold(log).totalBytes >= log[|log| - 1].flow.bytesTotal
    ensures Fold(log).totalBytes == log[|log| - 1].flow.bytesTotal <==> |log| == 1
  {
  }

  // ----- metrics -----

  datatype Metric = Metric(
    srcIp: string, dstIp: string, region: string,
    totalBytes: nat, totalPackets: nat, retransmitRate: real,
    rttEwmaUs: nat, rttJitterUs: nat,
    maxAnomalyScore: nat, avgAnomalyScore: real,
    connectsObserved: nat, closesObserved: nat, retransObserved: nat,
    ownerNodeId: string, isLocal: bool)

  function Reported(a: Accumulator, owner: string, isLocal: bool): Metric {
    Metric(
      a.srcIp, a.dstIp, a.region, a.totalBytes, a.totalPackets,
      if a.totalPackets > 0 then a.retransmitSum as real / a.totalPackets as real else 0.0,
      a.rttEwma,
      if |a.rttSamples| > 1 then ReportedJitter(a.rttSamples, a.rttEwma as real) else 0,
      a.maxAnomalyScore,
      if a.anomalyCount > 0 then a.anomalyScoreSum as real / a.anomalyCount as real else 0.0,
      a.connects, a.closes, a.retrans, owner, isLocal)
  }

  /** The metric of a flow, told from its events alone: its totals, the retransmits per packet, the anomaly score
      per flow event, and the last round-trip time. */
  lemma MetricTellsEvents(log: seq<Event>, owner: string, isLocal: bool)
    requires log != []
    ensures var m := Reported(Fold(log), owner, isLocal);
            var packets, scored := TotalSeen(log, PACKETS), TotalSeen(log, ANOMALIES);
            && m.srcIp == OpenedFor(log[0]).srcIp && m.dstIp == OpenedFor(log[0]).dstIp && m.ownerNodeId == owner && m.isLocal == isLocal
            && m.totalBytes == TotalSeen(log, BYTES) && m.totalPackets == packets
            && m.connectsObserved == TotalSeen(log, CONNECTS) && m.closesObserved == TotalSeen(log, CLOSES)
            && m.retransObserved == TotalSeen(log, RETRANS)
            && (if packets == 0 then m.retransmitRate == 0.0
                else Times(m.retransmitRate, packets as real) == TotalSeen(log, RETRANSMITS) as real)
            && (if scored == 0 then m.avgAnomalyScore == 0.0
                else Times(m.avgAnomalyScore, scored as real) == TotalSeen(log, ANOMALY_SUMS) as real)
            && (|RttsSeen(log)| < 2 ==> m.rttJitterUs == 0)
            && m.rttEwmaUs == (if RttsSeen(log) == [] then 0 else RttsSeen(log)[|RttsSeen(log)| - 1])
  {
    ThreeMeasures();
    CountMeasures();
    TotalsOfFlow(log);
    SamplesAreRttsSeen(log);
    EwmaIsLastSample(log);
    var a := Fold(log);
    Ratio(a.retransmitSum, a.totalPackets);
    Ratio(a.anomalyScoreSum, a.anomalyCount);
  }

  lemma TotalsOfFlow(log: seq<Event>)
    requires log != []
    ensures var a := Fold(log);
            && a.totalBytes == TotalSeen(log, BYTES) && a.totalPackets == TotalSeen(log, PACKETS)
            && a.retransmitSum == TotalSeen(log, RETRANSMITS)
            && a.anomalyScoreSum == TotalSeen(log, ANOMALY_SUMS) && a.anomalyCount == TotalSeen(log, ANOMALIES)
            && a.connects == TotalSeen(log, CONNECTS) && a.closes == TotalSeen(log, CLOSES) && a.retrans == TotalSeen(log, RETRANS)
  {
    ThreeMeasures();
    CountMeasures();
    FlowTotals(log, BYTES);
    FlowTotals(log, PACKETS);
    FlowTotals(log, RETRANSMITS);
    FlowTotals(log, ANOMALY_SUMS);
    FlowTotals(log, ANOMALIES);
    FlowTotals(log, CONNECTS);
    FlowTotals(log, CLOSES);
    FlowTotals(log, RETRANS);
  }

  lemma Ratio(part: nat, whole: nat)
    ensures whole > 0 ==> Times(part as real / whole as real, whole as real) == part as real
  {
    if whole > 0 {
      QuotientTimes(part as real, whole as real);
    }
  }

  /** The average anomaly score reported for a window never exceeds the maximum reported. */
  lemma AverageNeverExceedsMaximum(log: seq<Event>, owner: string, isLocal: bool)
    requires log != []
    ensures var m := Reported(Fold(log), owner, isLocal); m.avgAnomalyScore <= m.maxAnomalyScore as real
  {
    AnomaliesAreBounded(log);
    var a := Fold(log);
    if a.anomalyCount > 0 {
      RatioBound(a.anomalyScoreSum, a.anomalyCount, a.maxAnomalyScore);
    }
  }

  /** The value the jitter is measured from is the last sample, whichever kind of event brought it. */
  lemma {:induction false} EwmaIsLastSample(log: seq<Event>)
    requires log != []
    ensures var a := Fold(log); a.rttEwma == if a.rttSamples == [] then 0 else a.rttSamples[|a.rttSamples| - 1]
  {
    if |log| > 1 {
      EwmaIsLastSample(log[..|log| - 1]);
    }
  }

  /** The largest sample that 32 bits hold. */
  const MAX_SAMPLE: nat := 0xFFFF_FFFF

  /** The jitter reported for a window of 32-bit samples fits 32 bits itself and is never below the true
      deviation; before rounding the two agree exactly when the last sample is the average. */
  lemma JitterOfWindow(log: seq<Event>, owner: string, isLocal: bool)
    requires log != [] && |Fold(log).rttSamples| > 1
    requires forall i :: 0 <= i < |Fold(log).rttSamples| ==> Fold(log).rttSamples[i] <= MAX_SAMPLE
    ensures var samples := Fold(log).rttSamples;
            var last := samples[|samples| - 1] as real;
            && FloorSqrt(Spread(samples, Average(samples))) <= Reported(Fold(log), owner, isLocal).rttJitterUs <= MAX_SAMPLE
            && (Spread(samples, last) == Spread(samples, Average(samples)) <==> last == Average(samples))
  {
    var samples := Fold(log).rttSamples;
    var last := samples[|samples| - 1];
    EwmaIsLastSample(log);
    SpreadExceedsVariance(samples, last as real);
    JitterNeverUnderstates(samples, last as real);
    JitterFits(samples, last, MAX_SAMPLE);
  }

  lemma RatioBound(sum: nat, count: nat, most: nat)
    requires count > 0 && sum <= count * most
    ensures sum as real / count as real <= most as real
  {
  }

  ghost function MetricOf(a: Accumulator, ring: Nodes, hash: string -> Hash, localNodeId: string): Metric {
    var owner := OwnerAt(ring, hash(a.srcIp + a.dstIp));
    Reported(a, owner, owner == localNodeId)
  }

  /** Of agents that share a membership view, however each of them came by it, exactly one marks the
      metrics of a given pair of addresses as its own. */
  lemma ExactlyOneAgentIsLocal(hash: string -> Hash, count: nat, peers: set<string>, views: map<string, seq<Op>>, a: Accumulator)
    returns (owner: string)
    requires NoClash(hash, count, peers) && count > 0 && views != map[]
    requires forall p :: p in views ==> Members(views[p]) == views.Keys && Joiners(views[p]) <= peers
    ensures owner in views
    ensures forall p :: p in views ==> (MetricOf(a, After(hash, count, views[p]), hash, p).isLocal <==> p == owner)
    ensures forall p :: p in views ==> MetricOf(a, After(hash, count, views[p]), hash, p).ownerNodeId == owner
  {
    var histories := set p | p in views :: views[p];
    owner := ExactlyOneOwner(hash, count, peers, histories, views.Keys, hash(a.srcIp + a.dstIp));
  }

  // ----- the aggregator object -----

  class Aggregator {
    const maxFlows: int
    const ring: Ring
    const localNodeId: string
    var flows: Table
    var published: seq<Metric>

    constructor (maxFlows: int, ring: Ring, localNodeId: string)
      ensures this.maxFlows == (if maxFlows == 0 then 65536 else maxFlows) && this.ring == ring && this.localNodeId == localNodeId
      ensures flows == map[] && published == []
    {
      this.maxFlows := if maxFlows == 0 then 65536 else maxFlows;
      this.ring := ring;
      this.localNodeId := localNodeId;
      flows := map[];
      published := [];
    }

    method IngestFlow(ev: FlowEvent) returns (victim: string)
      modifies this`flows
      ensures flows == Ingested(maxFlows, old(flows), Flow(ev), victim)
      ensures Evicts(maxFlows, old(flows), Flow(ev)) ==> victim in old(flows)
    {
      var key := FlowKey(ev.srcIp, ev.srcPort, ev.dstIp, ev.dstPort);
      victim := "";
      if key !in flows {
        if |flows| >= maxFlows && flows != map[] {
          victim :| victim in flows;
          flows := flows - {victim};
        }
        flows := flows[key := Opened(ev.srcIp, ev.dstIp)];
      }
      var acc := flows[key];
      acc := acc.(totalBytes := acc.totalBytes + ev.bytesTotal,
                  totalPackets := acc.totalPackets + ev.pktCount,
                  retransmitSum := acc.retransmitSum + ev.retransmitCount);
      if ev.rttEwmaUs > 0 {
        acc := acc.(rttSamples := acc.rttSamples + [ev.rttEwmaUs], rttEwma := ev.rttEwmaUs);
      }
      if ev.anomalyScore > acc.maxAnomalyScore {
        acc := acc.(maxAnomalyScore := ev.anomalyScore);
      }
      acc := acc.(anomalyScoreSum := acc.anomalyScoreSum + ev.anomalyScore, anomalyCount := acc.anomalyCount + 1);
      flows := flows[key := acc];
    }

    method IngestTcp(ev: TcpEvent)
      modifies this`flows
      ensures flows == Ingested(maxFlows, old(flows), Tcp(ev), "")
    {
      var key := FlowKey(ev.srcIp, ev.srcPort, ev.dstIp, ev.dstPort);
      if key !in flows {
        flows := flows[key := Opened(ev.srcIp, ev.dstIp)];
      }
      var acc := flows[key];
      if ev.eventType == TCP_CONNECT {
        acc := acc.(connects := acc.connects + 1);
      } else if ev.eventType == TCP_CLOSE {
        acc := acc.(closes := acc.closes + 1);
      } else if ev.eventType == TCP_RETRANSMIT {
        acc := acc.(retrans := acc.retrans + 1, retransmitSum := acc.retransmitSum + 1);
      } else if ev.eventType == TCP_RTT_SAMPLE && ev.srttUs > 0 {
        acc := acc.(rttSamples := acc.rttSamples + [ev.srttUs], rttEwma := ev.srttUs);
      }
      flows := flows[key := acc];
    }

    /** Ends a window.  `accepts` says for which metrics, counted in the order sent, the channel has room;
        the others are dropped. */
    method Flush(accepts: nat -> bool) returns (order: seq<string>, metrics: seq<Metric>)
      requires ring.Valid()
      modifies this
      ensures flows == map[]
      ensures multiset(order) == multiset(old(flows).Keys) && |metrics| == |order|
      ensures Reports(metrics, old(flows), order, ring.hashToNode, ring.hash, localNodeId)
      ensures published == old(published) + Accepted(metrics, accepts)
    {
      var snapshot := flows;
      flows := map[];
      order := Elements(snapshot.Keys);
      ListedOnce(snapshot.Keys, order);
      metrics := PublishAll(snapshot, order, accepts);
    }

    method PublishAll(snapshot: Table, order: seq<string>, accepts: nat -> bool) returns (metrics: seq<Metric>)
      requires ring.Valid() && forall i :: 0 <= i < |order| ==> order[i] in snapshot
      modifies this`published
      ensures |metrics| == |order| && Reports(metrics, snapshot, order, ring.hashToNode, ring.hash, localNodeId)
      ensures published == old(published) + Accepted(metrics, accepts)
    {
      metrics := [];
      for i := 0 to |order|
        invariant |metrics| == i && Reports(metrics, snapshot, order, ring.hashToNode, ring.hash, localNodeId)
        invariant published == old(published) + Accepted(metrics, accepts)
      {
        var metric := Publish(snapshot[order[i]], accepts(i));
        AcceptOneMore(metrics, metric, accepts);
        ReportOneMore(metrics, snapshot, order, ring.hashToNode, ring.hash, localNodeId, metric);
        metrics := metrics + [metric];
      }
    }

    /** The body of the flush loop: measures one flow and sends its metric if the channel has room. */
    method Publish(acc: Accumulator, accepted: bool) returns (m: Metric)
      requires ring.Valid()
      modifies this`published
      ensures m == MetricOf(acc, ring.hashToNode, ring.hash, localNodeId)
      ensures published == old(published) + if accepted then [m] else []
    {
      var ownerId := ring.Owner(acc.srcIp + acc.dstIp);
      m := ToMetric(acc, ownerId, ownerId == localNodeId);
      if accepted {
        published := published + [m];
      }
    }

    method ToMetric(a: Accumulator, ownerId: string, isLocal: bool) returns (m: Metric)
      ensures m == Reported(a, ownerId, isLocal)
    {
      var retransmitRate := if a.totalPackets > 0 then a.retransmitSum as real / a.totalPackets as real else 0.0;
      var avgAnomalyScore := if a.anomalyCount > 0 then a.anomalyScoreSum as real / a.anomalyCount as real else 0.0;
      var jitter := 0;
      if |a.rttSamples| > 1 {
        jitter := MeasureJitter(a.rttSamples, a.rttEwma);
      }
      m := Metric(a.srcIp, a.dstIp, a.region, a.totalBytes, a.totalPackets, retransmitRate, a.rttEwma, jitter,
                  a.maxAnomalyScore, avgAnomalyScore, a.connects, a.closes, a.retrans, ownerId, isLocal);
    }

    method MeasureJitter(samples: seq<nat>, last: nat) returns (jitter: nat)
      requires samples != []
      ensures jitter == ReportedJitter(samples, last as real)
    {
      var mean, variance := last as real, 0.0;
      for i := 0 to |samples|
        invariant variance == SquaredDeviations(samples[..i], mean)
      {
        assert samples[..i + 1][..i] == samples[..i];
        var d := samples[i] as real - mean;
        variance := variance + d * d;
      }
      assert samples[..|samples|] == samples;
      assert variance / |samples| as real == Spread(samples, mean);
      jitter := FloorSqrt(variance / |samples| as real);
    }
  }

  /** Each metric measures the flow that the table holds under the key in the same place. */
  ghost predicate Reports(metrics: seq<Metric>, table: Table, order: seq<string>, ring: Nodes, hash: string -> Hash, localNodeId: string) {
    |metrics| <= |order| &&
    forall i :: 0 <= i < |metrics| ==> order[i] in table && metrics[i] == MetricOf(table[order[i]], ring, hash, localNodeId)
  }

  lemma ReportOneMore(metrics: seq<Metric>, table: Table, order: seq<string>, ring: Nodes, hash: string -> Hash, localNodeId: string, m: Metric)
    requires Reports(metrics, table, order, ring, hash, localNodeId) && |metrics| < |order| && order[|metrics|] in table
    requires m == MetricOf(table[order[|metrics|]], ring, hash, localNodeId)
    ensures Reports(metrics + [m], table, order, ring, hash, localNodeId)
  {
  }

  /** The metrics for which the channel had room. */
  function Accepted(metrics: seq<Metric>, accepts: nat -> bool): seq<Metric> {
    if metrics == [] then []
    else Accepted(metrics[..|metrics| - 1], accepts) + if accepts(|metrics| - 1) then [metrics[|metrics| - 1]] else []
  }

  lemma AcceptOneMore(metrics: seq<Metric>, m: Metric, accepts: nat -> bool)
    ensures Accepted(metrics + [m], accepts) == Accepted(metrics, accepts) + if accepts(|metrics|) then [m] else []
  {
  }
}
