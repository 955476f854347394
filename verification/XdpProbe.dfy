/**
 The flow state kept by the XDP probe (ebpf-detection-02/bpf/xdp_probe.c), with C's unsigned arithmetic
 written out: 32-bit sums and products are taken modulo 2^32.
 */
module XdpProbe {
  import opened Options

  const U32 := 0x1_0000_0000
  const U64 := 0x1_0000_0000_0000_0000
  const RTT_ALPHA := 85

  type u8 = x: int | 0 <= x < 256
  type u32 = x: int | 0 <= x < U32
  type u64 = x: int | 0 <= x < U64

  const TCP_SYN: bv16 := 0x02
  const TCP_RST: bv16 := 0x04
  const TCP_ACK: bv16 := 0x10
  const TCP_SYN_ACK: bv16 := 0x12

  datatype FlowState = FlowState(
    firstSeenNs: u64, lastSeenNs: u64, bytesTotal: u64,
    pktCount: u32, retransmitCount: u32, rttEwmaUs: u32,
    tcpFlagsSeen: bv16, anomalyScore: u8)

  datatype Packet = Packet(nowNs: u64, size: u32, flags: bv16)

  datatype FlowEvent = FlowEvent(timestampNs: u64, flowDurationNs: u64, state: FlowState, eventType: u8)

  // ----- smoothing -----

  /** The inter-packet gap in microseconds, cut to 32 bits. */
  function GapUs(now: u64, last: u64): u32 {
    (now - last) % U64 / 1000 % U32
  }

  /** The smoothed gap; zero counts as "no value yet". */
  function Ewma(ewma: u32, gap: u32): u32 {
    if ewma == 0 then gap else (RTT_ALPHA * ewma + (100 - RTT_ALPHA) * gap) % U32 / 100
  }

  /** The largest gap for which the weighted sum cannot exceed 32 bits. */
  const GAP_LIMIT := 42_949_672

  /** Up to the limit nothing wraps and the new value lies between the old value and the gap. */
  lemma EwmaLiesBetween(ewma: u32, gap: u32)
    requires ewma <= GAP_LIMIT && gap <= GAP_LIMIT
    ensures RTT_ALPHA * ewma + (100 - RTT_ALPHA) * gap < U32
    ensures ewma > 0 ==> (ewma <= Ewma(ewma, gap) <= gap || gap <= Ewma(ewma, gap) <= ewma)
    ensures ewma == 0 ==> Ewma(ewma, gap) == gap
  {
  }

  /** There a new value is 85 parts of the old and 15 of the gap, rounded down. */
  lemma EwmaWeighs(ewma: u32, gap: u32)
    requires 0 < ewma <= GAP_LIMIT && gap <= GAP_LIMIT
    ensures 100 * Ewma(ewma, gap) <= 85 * ewma + 15 * gap < 100 * Ewma(ewma, gap) + 100
  {
  }

  function EwmaOver(ewma: u32, gaps: seq<u32>): u32 {
    if gaps == [] then ewma else Ewma(EwmaOver(ewma, gaps[..|gaps| - 1]), gaps[|gaps| - 1])
  }

  /** So over any number of packets the value stays between the smallest and the largest of the starting
      value and the gaps. */
  lemma {:induction false} EwmaStaysInRange(ewma: u32, gaps: seq<u32>, lo: u32, hi: u32)
    requires lo <= ewma <= hi <= GAP_LIMIT && forall i :: 0 <= i < |gaps| ==> lo <= gaps[i] <= hi
    ensures lo <= EwmaOver(ewma, gaps) <= hi
  {
    if gaps != [] {
      EwmaStaysInRange(ewma, gaps[..|gaps| - 1], lo, hi);
      EwmaLiesBetween(EwmaOver(ewma, gaps[..|gaps| - 1]), gaps[|gaps| - 1]);
    }
  }

  function EwmaTimes(ewma: u32, gap: u32, n: nat): u32
    decreases n
  {
    if n == 0 then ewma else EwmaTimes(Ewma(ewma, gap), gap, n - 1)
  }

  predicate Near(ewma: u32, gap: u32) { gap - 6 <= ewma <= gap }

  /** The rounding leaves exactly the values up to six below the gap alone. */
  lemma EwmaFixedPoints(ewma: u32, gap: u32)
    requires 0 < ewma <= GAP_LIMIT && gap <= GAP_LIMIT
    ensures Ewma(ewma, gap) == ewma <==> Near(ewma, gap)
    ensures ewma > gap ==> gap <= Ewma(ewma, gap) < ewma
    ensures ewma < gap - 6 ==> ewma < Ewma(ewma, gap) <= gap
  {
  }

  function Apart(ewma: u32, gap: u32): nat { if ewma < gap then gap - ewma else ewma - gap }

  /** Under a constant gap the value is within six below it after as many packets as it was apart, and
      from then on it stays there. */
  lemma {:induction false} EwmaSettles(ewma: u32, gap: u32, n: nat)
    requires ewma <= GAP_LIMIT && gap <= GAP_LIMIT && n >= Apart(ewma, gap)
    ensures Near(EwmaTimes(ewma, gap, n), gap)
    decreases n
  {
    if n > 0 {
      var next := Ewma(ewma, gap);
      if ewma > 0 {
        EwmaFixedPoints(ewma, gap);
        EwmaLiesBetween(ewma, gap);
        if Near(ewma, gap) {
          EwmaRests(ewma, gap, n);
        } else {
          EwmaSettles(next, gap, n - 1);
        }
      } else {
        EwmaSettles(next, gap, n - 1);
      }
    }
  }

  lemma {:induction false} EwmaRests(ewma: u32, gap: u32, n: nat)
    requires 0 < ewma <= GAP_LIMIT && gap <= GAP_LIMIT && Near(ewma, gap)
    ensures EwmaTimes(ewma, gap, n) == ewma
    decreases n
  {
    if n > 0 {
      EwmaFixedPoints(ewma, gap);
      EwmaRests(ewma, gap, n - 1);
    }
  }

  /** The limit is exact: a value equal to a constant gap survives the update exactly up to the limit; one
      microsecond above it the value drops to nothing. */
  lemma EwmaExactUpToLimit(gap: u32)
    requires gap > 0
    ensures Ewma(gap, gap) == gap <==> gap <= GAP_LIMIT
    ensures Ewma(42_949_673, 42_949_673) == 0
  {
  }

  // ----- anomaly score -----

  function RetryPercent(s: FlowState): nat
    requires s.pktCount > 0
  {
    s.retransmitCount * 100 % U32 / s.pktCount
  }

  function RetryScore(s: FlowState): nat {
    if s.pktCount == 0 then 0
    else if RetryPercent(s) > 30 then 40
    else if RetryPercent(s) > 10 then 20
    else 0
  }

  function RttScore(s: FlowState): nat {
    if s.rttEwmaUs > 200_000 then 30 else if s.rttEwmaUs > 100_000 then 15 else 0
  }

  function FlagScore(flags: bv16): nat {
    (if flags & TCP_SYN != 0 && flags & TCP_ACK == 0 then 20 else 0) + (if flags & TCP_RST != 0 then 10 else 0)
  }

  /** The score never exceeds 100; the four parts cannot add up to more, so the cut at 100 is idle and an
      8-bit counter does not wrap on the way. */
  function Score(s: FlowState, flags: bv16): (score: int)
    ensures 0 <= score == RetryScore(s) + RttScore(s) + FlagScore(flags) <= 100
  {
    var sum := RetryScore(s) + RttScore(s) + FlagScore(flags);
    if sum > 100 then 100 else sum
  }

  // ----- one packet of a known flow -----

  function Increment(x: u32): u32 { (x + 1) % U32 }

  predicate SynAck(flags: bv16) { flags & TCP_SYN_ACK == TCP_SYN_ACK }

  function Counted(s: FlowState, p: Packet): FlowState {
    var pktCount := Increment(s.pktCount);
    s.(bytesTotal := (s.bytesTotal + p.size) % U64,
       pktCount := pktCount,
       tcpFlagsSeen := s.tcpFlagsSeen | p.flags,
       retransmitCount := if SynAck(p.flags) && pktCount > 3 then Increment(s.retransmitCount) else s.retransmitCount)
  }

  function Timed(s: FlowState, nowNs: u64): FlowState {
    s.(rttEwmaUs := Ewma(s.rttEwmaUs, GapUs(nowNs, s.lastSeenNs)), lastSeenNs := nowNs)
  }

  function Updated(s: FlowState, p: Packet): FlowState {
    var t := Timed(Counted(s, p), p.nowNs);
    t.(anomalyScore := Score(t, p.flags))
  }

  predicate Emits(s: FlowState) {
    s.anomalyScore > 30 || s.pktCount % 1000 == 0
  }

  function FirstState(p: Packet): FlowState {
    FlowState(p.nowNs, p.nowNs, p.size, 1, 0, 0, p.flags, 0)
  }

  function Flow(s: FlowState, ps: seq<Packet>): FlowState {
    if ps == [] then s else Updated(Flow(s, ps[..|ps| - 1]), ps[|ps| - 1])
  }

  lemma OneMore(start: nat, n: nat)
    ensures ((start + n) % U32 + 1) % U32 == (start + n + 1) % U32
  {
  }

  lemma UpdateCounts(s: FlowState, p: Packet)
    ensures Updated(s, p).pktCount == (s.pktCount + 1) % U32
    ensures Updated(s, p).retransmitCount <= s.retransmitCount + 1
  {
  }

  lemma {:induction false} PacketsAreCounted(s: FlowState, ps: seq<Packet>)
    ensures Flow(s, ps).pktCount == (s.pktCount + |ps|) % U32
  {
    if ps != [] {
      var earlier := ps[..|ps| - 1];
      PacketsAreCounted(s, earlier);
      UpdateCounts(Flow(s, earlier), ps[|ps| - 1]);
      OneMore(s.pktCount, |earlier|);
    }
  }

  /** The number of packets, from 1 to 1000, after which a heartbeat is due; a counter that wraps on the
      way brings it forward. */
  function HeartbeatIn(pktCount: u32): (n: nat)
    ensures 1 <= n <= 1000 && (pktCount + n) % U32 % 1000 == 0
  {
    var n := 1000 - pktCount % 1000;
    if pktCount + n < U32 then n else U32 - pktCount
  }

  /** Of any 1000 packets in a row of a known flow at least one is reported, counter wrap-around included. */
  lemma HeartbeatEveryThousand(s: FlowState, ps: seq<Packet>) returns (n: nat)
    requires |ps| == 1000
    ensures 1 <= n <= 1000 && Emits(Flow(s, ps[..n]))
  {
    n := HeartbeatIn(s.pktCount);
    PacketsAreCounted(s, ps[..n]);
  }

  lemma NoWrap(n: nat)
    requires n < U32
    ensures n % U32 == n
  {
  }

  /** A flow's retransmits are fewer than its packets until the packet counter wraps. */
  lemma {:induction false} RetriesAreFewer(p: Packet, ps: seq<Packet>)
    requires |ps| + 1 < U32
    ensures Flow(FirstState(p), ps).pktCount == |ps| + 1
    ensures Flow(FirstState(p), ps).retransmitCount <= |ps|
  {
    PacketsAreCounted(FirstState(p), ps);
    assert FirstState(p).pktCount == 1;
    NoWrap(1 + |ps|);
    if ps != [] {
      var earlier := ps[..|ps| - 1];
      RetriesAreFewer(p, earlier);
      UpdateCounts(Flow(FirstState(p), earlier), ps[|ps| - 1]);
    }
  }

  /** So in a flow of at most GAP_LIMIT packets the retransmit ratio is a true percentage. */
  lemma RetryRatioIsAPercentage(p: Packet, ps: seq<Packet>)
    requires |ps| < GAP_LIMIT
    ensures var s := Flow(FirstState(p), ps);
            s.pktCount == |ps| + 1 && RetryPercent(s) == s.retransmitCount * 100 / s.pktCount <= 100
  {
    RetriesAreFewer(p, ps);
    var s := Flow(FirstState(p), ps);
    TruePercentage(s.retransmitCount, s.pktCount);
  }

  lemma TruePercentage(part: nat, whole: nat)
    requires part <= whole <= GAP_LIMIT && whole > 0
    ensures part * 100 % U32 / whole == part * 100 / whole <= 100
  {
    var hundredfold := part * 100;
    assert hundredfold % U32 == hundredfold;
    Divided(hundredfold, whole, 100);
  }

  lemma Divided(a: nat, b: nat, c: nat)
    requires b > 0 && a <= c * b
    ensures a / b <= c
  {
  }

  // ----- what a flow adds up -----

  function Sizes(ps: seq<Packet>): nat {
    if ps == [] then 0 else Sizes(ps[..|ps| - 1]) + ps[|ps| - 1].size
  }

  /** The packets that count as retransmits: SYN and ACK at once, from the flow's fourth packet on. */
  function Retries(pktCount: u32, ps: seq<Packet>): nat {
    if ps == [] then 0
    else Retries(pktCount, ps[..|ps| - 1]) + if ps[|ps| - 1].flags & 0x12 == 0x12 && (pktCount + |ps|) % U32 > 3 then 1 else 0
  }

  lemma OneSizeMore(start: nat, n: nat, more: nat)
    ensures ((start + n) % U64 + more) % U64 == (start + n + more) % U64
  {
  }

  /** The bytes of a flow are those of its packets, modulo the width of the counter ... */
  lemma {:induction false} BytesAreCounted(s: FlowState, ps: seq<Packet>)
    ensures Flow(s, ps).bytesTotal == (s.bytesTotal + Sizes(ps)) % U64
  {
    if ps != [] {
      var earlier, p := ps[..|ps| - 1], ps[|ps| - 1];
      BytesAreCounted(s, earlier);
      OneSizeMore(s.bytesTotal, Sizes(earlier), p.size);
      CountsOnePacket(Flow(s, earlier), p);
    }
  }

  /** ... and so are its retransmits. */
  lemma {:induction false} RetransmitsAreCounted(s: FlowState, ps: seq<Packet>)
    ensures Flow(s, ps).retransmitCount == (s.retransmitCount + Retries(s.pktCount, ps)) % U32
  {
    if ps != [] {
      var earlier, p := ps[..|ps| - 1], ps[|ps| - 1];
      RetransmitsAreCounted(s, earlier);
      PacketsAreCounted(s, ps);
      OneMore(s.retransmitCount, Retries(s.pktCount, earlier));
      CountsOnePacket(Flow(s, earlier), p);
    }
  }

  lemma CountsOnePacket(s: FlowState, p: Packet)
    ensures Updated(s, p).bytesTotal == (s.bytesTotal + p.size) % U64
    ensures Updated(s, p).retransmitCount ==
              if p.flags & 0x12 == 0x12 && Updated(s, p).pktCount > 3 then (s.retransmitCount + 1) % U32 else s.retransmitCount
  {
  }

  function Collected(flags: bv16, ps: seq<Packet>): bv16 {
    if ps == [] then flags else Collected(flags, ps[..|ps| - 1]) | ps[|ps| - 1].flags
  }

  /** The flags a flow has seen are those of all its packets together. */
  lemma {:induction false} FlagsAreCollected(s: FlowState, ps: seq<Packet>)
    ensures Flow(s, ps).tcpFlagsSeen == Collected(s.tcpFlagsSeen, ps)
  {
    if ps != [] {
      FlagsAreCollected(s, ps[..|ps| - 1]);
    }
  }

  /** The gaps between the packets of a flow, in whole microseconds modulo 2^32. */
  function Gaps(lastNs: u64, ps: seq<Packet>): seq<u32> {
    if ps == [] then []
    else
      var before := if |ps| == 1 then lastNs else ps[|ps| - 2].nowNs;
      Gaps(lastNs, ps[..|ps| - 1]) + [GapUs(ps[|ps| - 1].nowNs, before)]
  }

  lemma GapIsElapsed(now: u64, last: u64)
    requires last <= now < last + 1000 * U32
    ensures GapUs(now, last) == (now - last) / 1000
  {
    assert (now - last) / 1000 < U32;
  }

  /** A flow's smoothed gap is the smoothing of its gaps, one after the other. */
  lemma {:induction false} FlowSmoothsGaps(s: FlowState, ps: seq<Packet>)
    ensures Flow(s, ps).rttEwmaUs == EwmaOver(s.rttEwmaUs, Gaps(s.lastSeenNs, ps))
    ensures Flow(s, ps).lastSeenNs == (if ps == [] then s.lastSeenNs else ps[|ps| - 1].nowNs)
    ensures Flow(s, ps).firstSeenNs == s.firstSeenNs
  {
    if ps != [] {
      var earlier := ps[..|ps| - 1];
      FlowSmoothsGaps(s, earlier);
      var gaps := Gaps(s.lastSeenNs, ps);
      assert gaps[..|gaps| - 1] == Gaps(s.lastSeenNs, earlier);
    }
  }

  /** When a packet of a known flow is reported as an anomaly, and with which score: retransmits alone suffice above 30 percent; above
      10 percent with a smoothed gap over 100 ms or a SYN without ACK; otherwise it takes a gap over 200 ms with
      such a SYN or a reset, or one over 100 ms with such a SYN. */
  lemma AnomalousIff(s: FlowState, p: Packet)
    ensures var t := Updated(s, p);
            var percent := if t.pktCount > 0 then t.retransmitCount * 100 % U32 / t.pktCount else 0;
            var loneSyn, reset := p.flags & 0x02 != 0 && p.flags & 0x10 == 0, p.flags & 0x04 != 0;
            var anomalous := || percent > 30
                             || (percent > 10 && (t.rttEwmaUs > 100_000 || loneSyn))
                             || (t.rttEwmaUs > 200_000 && (loneSyn || reset))
                             || (t.rttEwmaUs > 100_000 && loneSyn);
            && (t.anomalyScore > 30 <==> anomalous)
            && (Emits(t) <==> anomalous || t.pktCount % 1000 == 0)
            && t.anomalyScore == (if percent > 30 then 40 else if percent > 10 then 20 else 0)
                                 + (if t.rttEwmaUs > 200_000 then 30 else if t.rttEwmaUs > 100_000 then 15 else 0)
                                 + (if loneSyn then 20 else 0) + (if reset then 10 else 0)
  {
  }

  /** What a flow's state has become through the packets: each part told from the packets alone. */
  predicate Told(s: FlowState, ps: seq<Packet>, t: FlowState) {
    && t.firstSeenNs == s.firstSeenNs && t.lastSeenNs == (if ps == [] then s.lastSeenNs else ps[|ps| - 1].nowNs)
    && t.bytesTotal == (s.bytesTotal + Sizes(ps)) % U64 && t.pktCount == (s.pktCount + |ps|) % U32
    && t.retransmitCount == (s.retransmitCount + Retries(s.pktCount, ps)) % U32
    && t.rttEwmaUs == EwmaOver(s.rttEwmaUs, Gaps(s.lastSeenNs, ps))
    && t.tcpFlagsSeen == Collected(s.tcpFlagsSeen, ps)
  }

  /** A first packet counts as one, with nothing else known yet; all that follow are told by themselves. */
  lemma FlowFromFirstPacket(p: Packet, ps: seq<Packet>)
    ensures FirstState(p) == FlowState(p.nowNs, p.nowNs, p.size, 1, 0, 0, p.flags, 0)
    ensures Told(FirstState(p), ps, Flow(FirstState(p), ps))
  {
    FlowIsTold(FirstState(p), ps);
  }

  lemma FlowIsTold(s: FlowState, ps: seq<Packet>)
    ensures Told(s, ps, Flow(s, ps))
  {
    PacketsAreCounted(s, ps);
    BytesAreCounted(s, ps);
    RetransmitsAreCounted(s, ps);
    FlowSmoothsGaps(s, ps);
    FlagsAreCollected(s, ps);
  }

  // ----- the map entry -----

  class FlowEntry {
    var firstSeenNs: u64
    var lastSeenNs: u64
    var bytesTotal: u64
    var pktCount: u32
    var retransmitCount: u32
    var rttEwmaUs: u32
    var tcpFlagsSeen: bv16
    var anomalyScore: u8

    /** The entry made by the first packet of a flow, which is never reported itself. */
    constructor (p: Packet)
      ensures View() == FirstState(p)
    {
      firstSeenNs, lastSeenNs, bytesTotal := p.nowNs, p.nowNs, p.size;
      pktCount, retransmitCount, rttEwmaUs := 1, 0, 0;
      tcpFlagsSeen, anomalyScore := p.flags, 0;
    }

    ghost function View(): FlowState
      reads this
    {
      FlowState(firstSeenNs, lastSeenNs, bytesTotal, pktCount, retransmitCount, rttEwmaUs, tcpFlagsSeen, anomalyScore)
    }

    method OnPacket(p: Packet) returns (event: Option<FlowEvent>)
      modifies this
      ensures View() == Updated(old(View()), p)
      ensures event == if !Emits(View()) then None
                       else Some(FlowEvent(p.nowNs, (p.nowNs - firstSeenNs) % U64, View(), if View().anomalyScore > 30 then 1 else 0))
    {
      CountPacket(p);
      SmoothGap(p.nowNs);
      anomalyScore := ComputeAnomalyScore(p.flags);
      if anomalyScore <= 30 && pktCount % 1000 != 0 {
        return None;
      }
      var state := FlowState(firstSeenNs, lastSeenNs, bytesTotal, pktCount, retransmitCount, rttEwmaUs, tcpFlagsSeen, anomalyScore);
      event := Some(FlowEvent(p.nowNs, (p.nowNs - firstSeenNs) % U64, state, if anomalyScore > 30 then 1 else 0));
    }

    method CountPacket(p: Packet)
      modifies this
      ensures View() == Counted(old(View()), p)
    {
      bytesTotal := (bytesTotal + p.size) % U64;
      pktCount := Increment(pktCount);
      tcpFlagsSeen := tcpFlagsSeen | p.flags;
      CountRetransmit(p.flags);
    }

    method CountRetransmit(flags: bv16)
      modifies this`retransmitCount
      ensures retransmitCount == if SynAck(flags) && pktCount > 3 then Increment(old(retransmitCount)) else old(retransmitCount)
    {
      if SynAck(flags) && pktCount > 3 {
        retransmitCount := Increment(retransmitCount);
      }
    }

    method SmoothGap(nowNs: u64)
      modifies this
      ensures View() == Timed(old(View()), nowNs)
    {
      var gap := GapUs(nowNs, lastSeenNs);
      if rttEwmaUs == 0 {
        rttEwmaUs := gap;
      } else {
        rttEwmaUs := (RTT_ALPHA * rttEwmaUs + (100 - RTT_ALPHA) * gap) % U32 / 100;
      }
      lastSeenNs := nowNs;
    }

    method ComputeAnomalyScore(flags: bv16) returns (score: int)
      ensures score == Score(View(), flags)
    {
      score := 0;
      if pktCount > 0 {
        var retryPct := retransmitCount * 100 % U32 / pktCount;
        if retryPct > 30 {
          score := score + 40;
        } else if retryPct > 10 {
          score := score + 20;
        }
      }
      if rttEwmaUs > 200_000 {
        score := score + 30;
      } else if rttEwmaUs > 100_000 {
        score := score + 15;
      }
      if flags & TCP_SYN != 0 && flags & TCP_ACK == 0 {
        score := score + 20;
      }
      if flags & TCP_RST != 0 {
        score := score + 10;
      }
      if score > 100 {
        score := 100;
      }
    }
  }
}
