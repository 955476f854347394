/**
 The scoring pipeline (ml-intelligence-03/ml/pipeline/scoring_pipeline.py): the ensemble decision, one
 sliding window per flow in a bounded table, and the bandit's observations.  The four models are
 arguments: arbitrary functions whose outputs lie in the ranges the source states.
 */
module ScoringPipeline {
  import opened Listings
  import opened RealArithmetic
  import opened Lstm
  import opened Bandit

  datatype Severity = Nominal | Warning | DegradedFault | Critical

  // ----- ensemble -----

  const IF_FAILOVER_THRESHOLD := 0.70
  const LSTM_CONFIDENCE_MIN := 0.60
  const BANDIT_LOW_WEIGHT := 0.20
  const IF_CORROBORATE_THRESHOLD := 0.50

  datatype Evidence = Evidence(ifScore: real, severity: Severity, xgbConf: real, lstmConf: real, weight: real)

  datatype Signal = Signal(score: real, weight: real)

  datatype Decision = Decision(trigger: bool, confidence: real)

  predicate AnomalyAlone(e: Evidence) { e.ifScore >= IF_FAILOVER_THRESHOLD }

  predicate ClassifiersAgree(e: Evidence) {
    (e.severity == DegradedFault || e.severity == Critical) && e.lstmConf >= LSTM_CONFIDENCE_MIN
  }

  predicate BanditCorroborated(e: Evidence) {
    e.weight < BANDIT_LOW_WEIGHT && e.ifScore >= IF_CORROBORATE_THRESHOLD
  }

  /** The anomaly score, scaled by how far the region's weight is below the low mark. */
  function Corroboration(weight: real, ifScore: real): real {
    (1.0 - weight / BANDIT_LOW_WEIGHT) * ifScore
  }

  function AnomalySignal(e: Evidence): seq<Signal> {
    if AnomalyAlone(e) then [Signal(e.ifScore, 0.40)] else []
  }

  function ClassifierSignal(e: Evidence): seq<Signal> {
    if ClassifiersAgree(e) then [Signal((e.xgbConf + e.lstmConf) / 2.0, 0.40)] else []
  }

  function BanditSignal(e: Evidence): seq<Signal> {
    if BanditCorroborated(e) then [Signal(Corroboration(e.weight, e.ifScore), 0.20)] else []
  }

  function Signals(e: Evidence): seq<Signal> {
    AnomalySignal(e) + ClassifierSignal(e) + BanditSignal(e)
  }

  function TotalWeight(signals: seq<Signal>): real {
    if signals == [] then 0.0 else TotalWeight(signals[..|signals| - 1]) + signals[|signals| - 1].weight
  }

  function TotalScore(signals: seq<Signal>): real {
    if signals == [] then 0.0
    else TotalScore(signals[..|signals| - 1]) + Times(signals[|signals| - 1].score, signals[|signals| - 1].weight)
  }

  predicate Weighty(signals: seq<Signal>) {
    forall i :: 0 <= i < |signals| ==> signals[i].weight > 0.0
  }

  lemma {:induction false} WeightIsPositive(signals: seq<Signal>)
    requires Weighty(signals)
    ensures TotalWeight(signals) >= 0.0 && (signals != [] ==> TotalWeight(signals) > 0.0)
  {
    if signals != [] {
      WeightIsPositive(signals[..|signals| - 1]);
    }
  }

  function Mean(signals: seq<Signal>): real
    requires Weighty(signals) && signals != []
  {
    WeightIsPositive(signals);
    TotalScore(signals) / TotalWeight(signals)
  }

  function EnsembleDecision(e: Evidence): Decision {
    var signals := Signals(e);
    if signals == [] then Decision(false, 0.0) else Decision(true, Mean(signals))
  }

  /** The ranges of the models' outputs. */
  predicate InRange(e: Evidence) {
    0.0 <= e.ifScore <= 1.0 && 0.0 <= e.xgbConf <= 1.0 && 0.0 <= e.lstmConf <= 1.0 && 0.0 < e.weight <= 1.0
  }

  predicate ScoresLie(signals: seq<Signal>, lo: real, hi: real) {
    forall i :: 0 <= i < |signals| ==> lo <= signals[i].score <= hi
  }

  lemma {:induction false} ScoreBetween(signals: seq<Signal>, lo: real, hi: real)
    requires Weighty(signals) && ScoresLie(signals, lo, hi)
    ensures Times(lo, TotalWeight(signals)) <= TotalScore(signals) <= Times(hi, TotalWeight(signals))
  {
    if signals != [] {
      var before, last := signals[..|signals| - 1], signals[|signals| - 1];
      ScoreBetween(before, lo, hi);
      OneMoreBetween(TotalWeight(before), TotalScore(before), last.weight, last.score, lo, hi);
    }
  }

  lemma OneMoreBetween(weight: real, total: real, more: real, score: real, lo: real, hi: real)
    requires Times(lo, weight) <= total <= Times(hi, weight) && lo <= score <= hi && more > 0.0
    ensures Times(lo, weight + more) <= total + Times(score, more) <= Times(hi, weight + more)
  {
    TimesGrows(lo, score, more);
    TimesGrows(score, hi, more);
    TimesAdds(lo, weight, more);
    TimesAdds(hi, weight, more);
  }

  lemma QuotientBetween(total: real, weight: real, lo: real, hi: real)
    requires weight > 0.0 && Times(lo, weight) <= total <= Times(hi, weight)
    ensures lo <= total / weight <= hi
  {
    var mean := total / weight;
    assert Times(mean, weight) == total;
    TimesReflects(lo, mean, weight);
    TimesReflects(mean, hi, weight);
  }

  /** The confidence lies between the smallest and the largest score on the paths that triggered. */
  lemma MeanIsConvex(signals: seq<Signal>, lo: real, hi: real)
    requires Weighty(signals) && signals != [] && ScoresLie(signals, lo, hi)
    ensures lo <= Mean(signals) <= hi
  {
    WeightIsPositive(signals);
    ScoreBetween(signals, lo, hi);
    QuotientBetween(TotalScore(signals), TotalWeight(signals), lo, hi);
  }

  lemma CorroborationInRange(weight: real, ifScore: real)
    requires 0.0 < weight < BANDIT_LOW_WEIGHT && 0.0 < ifScore <= 1.0
    ensures 0.0 < Corroboration(weight, ifScore) <= 1.0
  {
    var left := 1.0 - weight / BANDIT_LOW_WEIGHT;
    assert 0.0 < left <= 1.0;
    ProductSign(left, ifScore);
    ProductsOrdered(left, 1.0, ifScore, 1.0);
  }

  lemma PathScores(e: Evidence)
    requires InRange(e)
    ensures forall i :: 0 <= i < |AnomalySignal(e)| ==> 0.0 < AnomalySignal(e)[i].score <= 1.0
    ensures forall i :: 0 <= i < |ClassifierSignal(e)| ==> 0.0 < ClassifierSignal(e)[i].score <= 1.0
    ensures forall i :: 0 <= i < |BanditSignal(e)| ==> 0.0 < BanditSignal(e)[i].score <= 1.0
  {
    if BanditCorroborated(e) {
      CorroborationInRange(e.weight, e.ifScore);
    }
  }

  lemma SignalScores(e: Evidence, i: nat)
    requires InRange(e) && i < |Signals(e)|
    ensures 0.0 < Signals(e)[i].score <= 1.0
  {
    PathScores(e);
    var a, b, c := AnomalySignal(e), ClassifierSignal(e), BanditSignal(e);
    assert Signals(e) == a + b + c;
    if i < |a| {
      assert Signals(e)[i] == a[i];
    } else if i < |a| + |b| {
      assert Signals(e)[i] == b[i - |a|];
    } else {
      assert Signals(e)[i] == c[i - |a| - |b|];
    }
  }

  /** If a path is taken, the confidence lies between the lowest and the highest score on the paths taken. */
  lemma ConfidenceIsConvex(e: Evidence, lo: real, hi: real)
    requires Signals(e) != [] && ScoresLie(Signals(e), lo, hi)
    ensures lo <= EnsembleDecision(e).confidence <= hi
  {
    SignalsAreWeighty(e);
    MeanIsConvex(Signals(e), lo, hi);
  }

  lemma SignalsAreWeighty(e: Evidence)
    ensures Weighty(Signals(e))
  {
  }

  lemma ConfidenceIsPositive(e: Evidence)
    requires InRange(e) && Signals(e) != []
    ensures 0.0 < EnsembleDecision(e).confidence <= 1.0
  {
    var signals := Signals(e);
    forall i | 0 <= i < |signals| ensures Lowest(signals) <= signals[i].score <= 1.0 {
      SignalScores(e, i);
    }
    SignalScores(e, LowestAt(signals));
    ConfidenceIsConvex(e, Lowest(signals), 1.0);
  }

  /** A failover is triggered exactly on one of the three paths; the confidence is zero exactly when
      none is taken, and never above one. */
  lemma EnsembleMeaning(e: Evidence)
    requires InRange(e)
    ensures var d := EnsembleDecision(e);
            && (d.trigger <==> AnomalyAlone(e) || ClassifiersAgree(e) || BanditCorroborated(e))
            && (d.trigger <==> d.confidence > 0.0)
            && 0.0 <= d.confidence <= 1.0
  {
    if Signals(e) != [] {
      ConfidenceIsPositive(e);
    }
  }

  function LowestAt(signals: seq<Signal>): (k: nat)
    requires signals != []
    ensures k < |signals| && forall i :: 0 <= i < |signals| ==> signals[k].score <= signals[i].score
  {
    if |signals| == 1 then 0
    else
      var k := LowestAt(signals[..|signals| - 1]);
      if signals[|signals| - 1].score < signals[k].score then |signals| - 1 else k
  }

  function Lowest(signals: seq<Signal>): real
    requires signals != []
  {
    signals[LowestAt(signals)].score
  }

  /** One more signal raises the confidence exactly when its own score is above it. */
  lemma AnotherSignal(signals: seq<Signal>, s: Signal)
    requires Weighty(signals) && signals != [] && s.weight > 0.0
    ensures Weighty(signals + [s])
    ensures Mean(signals + [s]) > Mean(signals) <==> s.score > Mean(signals)
    ensures Mean(signals + [s]) < Mean(signals) <==> s.score < Mean(signals)
  {
    WeightIsPositive(signals);
    WeightIsPositive(signals + [s]);
    assert (signals + [s])[..|signals|] == signals;
    Averaged(TotalScore(signals), TotalWeight(signals), s.score, s.weight);
  }

  lemma Averaged(total: real, weight: real, score: real, more: real)
    requires weight > 0.0 && more > 0.0
    ensures var mean := total / weight;
            var next := (total + Times(score, more)) / (weight + more);
            (next > mean <==> score > mean) && (next < mean <==> score < mean)
  {
    var mean := total / weight;
    var next := (total + Times(score, more)) / (weight + more);
    assert Times(mean, weight) == total;
    assert Times(next, weight + more) == total + Times(score, more);
    TimesAdds(mean, weight, more);
    TimesReflects(mean, score, more);
    TimesReflects(score, mean, more);
    TimesReflects(mean, next, weight + more);
    TimesReflects(next, mean, weight + more);
  }

  // ----- the decision in numbers -----

  /** The anomaly path and the classifier path count two parts each, the bandit path one. */
  function Parts(e: Evidence): real {
    (if e.ifScore >= 0.70 then 2.0 else 0.0)
    + (if e.severity in {DegradedFault, Critical} && e.lstmConf >= 0.60 then 2.0 else 0.0)
    + (if e.weight < 0.20 && e.ifScore >= 0.50 then 1.0 else 0.0)
  }

  /** Each path's score, as often as it counts: the anomaly score; the average of the two confidences; and the
      anomaly score, scaled by how far the region's weight is below a fifth. */
  function Points(e: Evidence): real {
    (if e.ifScore >= 0.70 then e.ifScore + e.ifScore else 0.0)
    + (if e.severity in {DegradedFault, Critical} && e.lstmConf >= 0.60 then e.xgbConf + e.lstmConf else 0.0)
    + (if e.weight < 0.20 && e.ifScore >= 0.50 then Times(1.0 - 5.0 * e.weight, e.ifScore) else 0.0)
  }

  lemma {:induction false} TotalsAdd(a: seq<Signal>, b: seq<Signal>)
    ensures TotalWeight(a + b) == TotalWeight(a) + TotalWeight(b)
    ensures TotalScore(a + b) == TotalScore(a) + TotalScore(b)
  {
    if b == [] {
      assert a + b == a;
    } else {
      TotalsAdd(a, b[..|b| - 1]);
      assert (a + b)[..|a + b| - 1] == a + b[..|b| - 1];
    }
  }

  lemma TotalsOfOne(s: Signal)
    ensures TotalWeight([s]) == s.weight && TotalScore([s]) == Times(s.score, s.weight)
  {
    assert [s][..0] == [];
  }

  lemma TotalsInParts(e: Evidence)
    ensures TotalWeight(Signals(e)) == 0.20 * Parts(e)
    ensures TotalScore(Signals(e)) == 0.20 * Points(e)
  {
    var a, b, c := AnomalySignal(e), ClassifierSignal(e), BanditSignal(e);
    TotalsAdd(a, b);
    TotalsAdd(a + b, c);
    AnomalyTotals(e);
    ClassifierTotals(e);
    BanditTotals(e);
  }

  lemma AnomalyTotals(e: Evidence)
    ensures TotalWeight(AnomalySignal(e)) == if e.ifScore >= 0.70 then 0.40 else 0.0
    ensures TotalScore(AnomalySignal(e)) == if e.ifScore >= 0.70 then 0.20 * (e.ifScore + e.ifScore) else 0.0
  {
    if AnomalySignal(e) != [] {
      TotalsOfOne(AnomalySignal(e)[0]);
    }
  }

  lemma ClassifierTotals(e: Evidence)
    ensures TotalWeight(ClassifierSignal(e)) == if e.severity in {DegradedFault, Critical} && e.lstmConf >= 0.60 then 0.40 else 0.0
    ensures TotalScore(ClassifierSignal(e)) ==
              if e.severity in {DegradedFault, Critical} && e.lstmConf >= 0.60 then 0.20 * (e.xgbConf + e.lstmConf) else 0.0
  {
    if ClassifierSignal(e) != [] {
      TotalsOfOne(ClassifierSignal(e)[0]);
    }
  }

  lemma BanditTotals(e: Evidence)
    ensures TotalWeight(BanditSignal(e)) == if e.weight < 0.20 && e.ifScore >= 0.50 then 0.20 else 0.0
    ensures TotalScore(BanditSignal(e)) ==
              if e.weight < 0.20 && e.ifScore >= 0.50 then 0.20 * Times(1.0 - 5.0 * e.weight, e.ifScore) else 0.0
  {
    if BanditSignal(e) != [] {
      TotalsOfOne(BanditSignal(e)[0]);
      assert e.weight / BANDIT_LOW_WEIGHT == 5.0 * e.weight;
      assert Corroboration(e.weight, e.ifScore) == Times(1.0 - 5.0 * e.weight, e.ifScore);
    }
  }

  lemma MeanOfParts(mean: real, weight: real, total: real, parts: real, points: real)
    requires weight > 0.0 && mean == total / weight && weight == 0.20 * parts && total == 0.20 * points
    ensures Times(mean, parts) == points
  {
    QuotientTimes(total, weight);
    assert mean * (0.20 * parts) == 0.20 * (mean * parts);
  }

  /** A failover is asked for on strong anomaly alone, on a grave class that the sequence model is sure of, or
      on a low weight with some anomaly; the confidence is the mean of the paths taken, the bandit's half as
      heavy as the others, and zero if none is. */
  lemma DecisionInNumbers(e: Evidence)
    ensures EnsembleDecision(e).trigger
            <==> || e.ifScore >= 0.70
                 || (e.severity in {DegradedFault, Critical} && e.lstmConf >= 0.60)
                 || (e.weight < 0.20 && e.ifScore >= 0.50)
    ensures if Parts(e) == 0.0 then EnsembleDecision(e) == Decision(false, 0.0)
            else EnsembleDecision(e).trigger && Times(EnsembleDecision(e).confidence, Parts(e)) == Points(e)
  {
    var signals := Signals(e);
    TotalsInParts(e);
    SignalsAreWeighty(e);
    WeightIsPositive(signals);
    if signals != [] {
      MeanOfParts(Mean(signals), TotalWeight(signals), TotalScore(signals), Parts(e), Points(e));
    }
  }

  /** An anomaly score of 0.9 in a region weighing a tenth is confidence 0.75. */
  lemma AnomalyInWeakRegion()
    ensures EnsembleDecision(Evidence(0.90, Nominal, 0.0, 0.0, 0.10)) == Decision(true, 0.75)
  {
    DecisionInNumbers(Evidence(0.90, Nominal, 0.0, 0.0, 0.10));
  }

  /** So more evidence can talk the ensemble out of a failover: a higher anomaly score that merely
      corroborates the bandit pulls the confidence from 0.9 below the control plane's floor of 0.65. */
  lemma MoreEvidenceLowersConfidence()
    ensures var e := Evidence(0.49, Critical, 0.90, 0.90, 0.19);
            && EnsembleDecision(e) == Decision(true, 0.90)
            && EnsembleDecision(e.(ifScore := 0.50)).trigger
            && EnsembleDecision(e.(ifScore := 0.50)).confidence < 0.65
  {
    var e := Evidence(0.49, Critical, 0.90, 0.90, 0.19);
    var s := [Signal(0.90, 0.40)];
    assert Signals(e) == s;
    assert s[..0] == [];
    assert TotalWeight(s) == 0.40 && TotalScore(s) == 0.36;
    assert Mean(s) == 0.90;
    var more := e.(ifScore := 0.50);
    var t := [Signal(0.90, 0.40), Signal(0.025, 0.20)];
    assert Signals(more) == t;
    assert t[..1] == s;
    assert TotalWeight(t) == 0.60 && TotalScore(t) == 0.365;
    assert Mean(t) < 0.65;
    assert EnsembleDecision(e) == Decision(true, 0.90);
    assert EnsembleDecision(more).trigger;
    assert EnsembleDecision(more).confidence < 0.65;
  }

  // ----- one window per flow -----

  const MAX_FLOW_LSTMS: nat := 10_000

  /** The flow table: keys in order of insertion, and a window for each. */
  datatype Flows<V> = Flows(order: seq<string>, windows: map<string, seq<V>>)

  datatype Event<V> = Pushed(flow: string, v: V) | Cleared(flow: string)

  /** The table with an entry for the flow, at the cost of the oldest entry when it is full. */
  function Opened<V>(f: Flows<V>, flow: string): Flows<V> {
    if flow in f.windows then f
    else if |f.order| >= MAX_FLOW_LSTMS then
      Flows(f.order[1..] + [flow], (f.windows - {f.order[0]})[flow := []])
    else
      Flows(f.order + [flow], f.windows[flow := []])
  }

  function After<V>(f: Flows<V>, seqLen: nat, e: Event<V>): Flows<V> {
    match e
    case Pushed(flow, v) =>
      var g := Opened(f, flow);
      if flow in g.windows then g.(windows := g.windows[flow := Suffix(g.windows[flow] + [v], seqLen)]) else g
    case Cleared(flow) =>
      if flow in f.windows then f.(windows := f.windows[flow := []]) else f
  }

  function Table<V>(seqLen: nat, events: seq<Event<V>>): Flows<V> {
    if events == [] then Flows([], map[]) else After(Table(seqLen, events[..|events| - 1]), seqLen, events[|events| - 1])
  }

  /** The flows in the order in which windows were created for them: a vector creates a window unless its
      flow is among the latest MAX_FLOW_LSTMS created. */
  function Created<V>(events: seq<Event<V>>): seq<string> {
    if events == [] then []
    else
      var before, e := Created(events[..|events| - 1]), events[|events| - 1];
      if e.Pushed? && e.flow !in Suffix(before, MAX_FLOW_LSTMS) then before + [e.flow] else before
  }

  predicate Live<V>(events: seq<Event<V>>, flow: string) {
    flow in Suffix(Created(events), MAX_FLOW_LSTMS)
  }

  /** The vectors of a flow since its window was last created or cleared. */
  function Since<V>(events: seq<Event<V>>, flow: string): seq<V> {
    if events == [] then []
    else
      var before, e := events[..|events| - 1], events[|events| - 1];
      if e.flow != flow then Since(before, flow)
      else if e.Cleared? then []
      else if Live(before, flow) then Since(before, flow) + [e.v]
      else [e.v]
  }

  /** The list t is s with x added, and without its oldest element if there was no room for one more. */
  ghost predicate Shifted(s: seq<string>, x: string, n: nat, t: seq<string>)
    requires n > 0
  {
    && t == (if |s| >= n then s[1..] else s) + [x]
    && NoRepeats(t)
    && (forall y :: y in t <==> y == x || (y in s && (|s| >= n ==> y != s[0])))
  }

  lemma SuffixMoves(s: seq<string>, x: string, n: nat)
    requires n > 0 && NoRepeats(Suffix(s, n)) && x !in Suffix(s, n)
    ensures Shifted(Suffix(s, n), x, n, Suffix(s + [x], n))
  {
    var t := Suffix(s, n);
    var kept := if |t| >= n then t[1..] else t;
    assert Suffix(s + [x], n) == kept + [x];
    if |t| >= n {
      TailOf(t);
    }
    NoRepeatsGrows(kept, x);
  }

  lemma TailOf(t: seq<string>)
    requires t != [] && NoRepeats(t)
    ensures NoRepeats(t[1..]) && forall y :: y in t[1..] <==> y in t && y != t[0]
  {
    assert t == [t[0]] + t[1..];
  }

  ghost predicate Faithful<V>(f: Flows<V>, seqLen: nat, events: seq<Event<V>>) {
    && f.order == Suffix(Created(events), MAX_FLOW_LSTMS)
    && Indexed(f)
    && forall flow :: flow in f.windows ==> f.windows[flow] == Suffix(Since(events, flow), seqLen)
  }

  ghost predicate Indexed<V>(f: Flows<V>) {
    NoRepeats(f.order) && forall flow :: flow in f.windows <==> flow in f.order
  }

  /** After any run the table holds exactly the latest 10,000 flows created, and each one's window is
      exactly its own latest seqLen vectors since it was created or cleared. */
  lemma {:induction false} WindowsAreHistory<V>(seqLen: nat, events: seq<Event<V>>)
    ensures Faithful(Table(seqLen, events), seqLen, events)
    ensures |Table(seqLen, events).order| <= MAX_FLOW_LSTMS
  {
    if events != [] {
      var before, e := events[..|events| - 1], events[|events| - 1];
      WindowsAreHistory(seqLen, before);
      EventKeepsFaith(Table(seqLen, before), seqLen, events);
    }
  }

  lemma EventKeepsFaith<V>(f: Flows<V>, seqLen: nat, events: seq<Event<V>>)
    requires events != [] && Faithful(f, seqLen, events[..|events| - 1])
    ensures Faithful(After(f, seqLen, events[|events| - 1]), seqLen, events)
  {
    var before, e := events[..|events| - 1], events[|events| - 1];
    if e.Cleared? {
      ClearKeepsFaith(f, seqLen, events);
    } else if e.flow in f.windows {
      SuffixOfAppend(Since(before, e.flow), e.v, seqLen);
      PushKeepsFaith(f, seqLen, events);
    } else {
      SuffixMoves(Created(before), e.flow, MAX_FLOW_LSTMS);
      OpeningKeepsFaith(f, seqLen, events);
    }
  }

  lemma ClearingInHistory<V>(events: seq<Event<V>>)
    requires events != [] && events[|events| - 1].Cleared?
    ensures var before, e := events[..|events| - 1], events[|events| - 1];
            && Created(events) == Created(before)
            && Since(events, e.flow) == []
            && forall flow :: flow != e.flow ==> Since(events, flow) == Since(before, flow)
  {
  }

  lemma ClearKeepsFaith<V>(f: Flows<V>, seqLen: nat, events: seq<Event<V>>)
    requires events != [] && Faithful(f, seqLen, events[..|events| - 1]) && events[|events| - 1].Cleared?
    ensures Faithful(After(f, seqLen, events[|events| - 1]), seqLen, events)
  {
    var before, e := events[..|events| - 1], events[|events| - 1];
    var g := After(f, seqLen, e);
    ClearingInHistory(events);
    ClearedTable(f, seqLen, e.flow);
    forall flow | flow in g.windows ensures g.windows[flow] == Suffix(Since(events, flow), seqLen) {
      if flow != e.flow {
        assert g.windows[flow] == f.windows[flow];
      }
    }
  }

  lemma ClearedTable<V>(f: Flows<V>, seqLen: nat, flow: string)
    requires Indexed(f)
    ensures var g := After(f, seqLen, Cleared(flow));
            && g.order == f.order && Indexed(g)
            && (flow in g.windows ==> g.windows[flow] == Suffix([], seqLen))
            && (forall y :: y in g.windows && y != flow ==> y in f.windows && g.windows[y] == f.windows[y])
  {
  }

  lemma PushKeepsFaith<V>(f: Flows<V>, seqLen: nat, events: seq<Event<V>>)
    requires events != [] && Faithful(f, seqLen, events[..|events| - 1])
    requires var e := events[|events| - 1];
             && e.Pushed? && e.flow in f.windows
             && Suffix(f.windows[e.flow] + [e.v], seqLen) == Suffix(Since(events[..|events| - 1], e.flow) + [e.v], seqLen)
    ensures Faithful(After(f, seqLen, events[|events| - 1]), seqLen, events)
  {
  }

  lemma OpeningKeepsFaith<V>(f: Flows<V>, seqLen: nat, events: seq<Event<V>>)
    requires events != [] && Faithful(f, seqLen, events[..|events| - 1])
    requires var e := events[|events| - 1];
             && e.Pushed? && e.flow !in f.windows
             && Shifted(f.order, e.flow, MAX_FLOW_LSTMS, Suffix(Created(events[..|events| - 1]) + [e.flow], MAX_FLOW_LSTMS))
    ensures Faithful(After(f, seqLen, events[|events| - 1]), seqLen, events)
  {
    var before, e := events[..|events| - 1], events[|events| - 1];
    var g := After(f, seqLen, e);
    OpeningInHistory(events);
    OpenedTable(f, seqLen, e.flow, e.v, Suffix(Created(events), MAX_FLOW_LSTMS));
    forall flow | flow in g.windows ensures g.windows[flow] == Suffix(Since(events, flow), seqLen) {
      if flow != e.flow {
        assert g.windows[flow] == f.windows[flow];
      }
    }
  }

  lemma OpenedTable<V>(f: Flows<V>, seqLen: nat, flow: string, v: V, order: seq<string>)
    requires flow !in f.windows && Indexed(f)
    requires Shifted(f.order, flow, MAX_FLOW_LSTMS, order)
    ensures var g := After(f, seqLen, Pushed(flow, v));
            && g.order == order
            && Indexed(g)
            && flow in g.windows && g.windows[flow] == Suffix([] + [v], seqLen)
            && (forall y :: y in g.windows && y != flow ==> y in f.windows && g.windows[y] == f.windows[y])
  {
  }

  lemma OpeningInHistory<V>(events: seq<Event<V>>)
    requires events != []
    requires var e := events[|events| - 1]; e.Pushed? && !Live(events[..|events| - 1], e.flow)
    ensures var before, e := events[..|events| - 1], events[|events| - 1];
            && Created(events) == Created(before) + [e.flow]
            && Since(events, e.flow) == [] + [e.v]
            && forall flow :: flow != e.flow ==> Since(events, flow) == Since(before, flow)
  {
  }

  /** The events of one flow, and its vectors since it was last cleared, whatever the other flows do. */
  function Own<V>(events: seq<Event<V>>, flow: string): seq<Event<V>> {
    if events == [] then []
    else
      var before, e := Own(events[..|events| - 1], flow), events[|events| - 1];
      if e.flow == flow then before + [e] else before
  }

  function SinceCleared<V>(own: seq<Event<V>>): seq<V> {
    if own == [] then []
    else
      var e := own[|own| - 1];
      if e.Cleared? then [] else SinceCleared(own[..|own| - 1]) + [e.v]
  }

  function FlowsSeen<V>(events: seq<Event<V>>): set<string> {
    set i | 0 <= i < |events| && events[i].Pushed? :: events[i].flow
  }

  lemma {:induction false} NothingEvicted<V>(events: seq<Event<V>>)
    requires |FlowsSeen(events)| <= MAX_FLOW_LSTMS
    ensures NoRepeats(Created(events)) && |Created(events)| <= |FlowsSeen(events)|
    ensures forall flow :: flow in Created(events) <==> flow in FlowsSeen(events)
  {
    if events != [] {
      var before, e := events[..|events| - 1], events[|events| - 1];
      SeenGrows(events);
      NothingEvicted(before);
      SuffixIsAll(Created(before));
      if e.Pushed? && e.flow !in Created(before) {
        NoRepeatsGrows(Created(before), e.flow);
      }
    }
    Distinct(Created(events), FlowsSeen(events));
  }

  lemma SuffixIsAll(s: seq<string>)
    ensures |s| <= MAX_FLOW_LSTMS ==> Suffix(s, MAX_FLOW_LSTMS) == s
  {
  }

  lemma SeenGrows<V>(events: seq<Event<V>>)
    requires events != []
    ensures var before, e := events[..|events| - 1], events[|events| - 1];
            && FlowsSeen(events) == FlowsSeen(before) + (if e.Pushed? then {e.flow} else {})
            && |FlowsSeen(before)| <= |FlowsSeen(events)|
  {
    var before, e := events[..|events| - 1], events[|events| - 1];
    assert FlowsSeen(events) == FlowsSeen(before) + if e.Pushed? then {e.flow} else {};
    Subset(FlowsSeen(before), FlowsSeen(events));
  }

  lemma LiveIffSeen<V>(events: seq<Event<V>>, flow: string)
    requires |FlowsSeen(events)| <= MAX_FLOW_LSTMS
    ensures Live(events, flow) <==> flow in FlowsSeen(events)
  {
    NothingEvicted(events);
    SuffixIsAll(Created(events));
  }

  lemma Subset(a: set<string>, b: set<string>)
    requires a <= b
    ensures |a| <= |b|
  {
    assert b == a + (b - a);
  }

  lemma {:induction false} Distinct(s: seq<string>, names: set<string>)
    requires NoRepeats(s) && forall x :: x in s ==> x in names
    ensures |s| <= |names|
  {
    if s != [] {
      var last := s[|s| - 1];
      Distinct(s[..|s| - 1], names - {last});
    }
  }

  /** As long as no more than 10,000 flows have shown up, what a flow's window holds is decided by that
      flow's own events alone: sequences do not bleed across flows. */
  lemma {:induction false} FlowsDoNotMix<V>(seqLen: nat, events: seq<Event<V>>, flow: string)
    requires |FlowsSeen(events)| <= MAX_FLOW_LSTMS
    ensures flow in Table(seqLen, events).windows <==> flow in FlowsSeen(events)
    ensures flow in FlowsSeen(events) ==>
              Table(seqLen, events).windows[flow] == Suffix(SinceCleared(Own(events, flow)), seqLen)
  {
    WindowsAreHistory(seqLen, events);
    LiveIffSeen(events, flow);
    SinceIsOwn(events, flow);
  }

  lemma {:induction false} SinceIsOwn<V>(events: seq<Event<V>>, flow: string)
    requires |FlowsSeen(events)| <= MAX_FLOW_LSTMS
    ensures Since(events, flow) == SinceCleared(Own(events, flow))
    ensures flow !in FlowsSeen(events) ==> Since(events, flow) == []
  {
    if events != [] {
      var before, e := events[..|events| - 1], events[|events| - 1];
      SeenGrows(events);
      SinceIsOwn(before, flow);
      LiveIffSeen(before, flow);
      if e.flow == flow {
        assert Own(events, flow)[..|Own(events, flow)| - 1] == Own(before, flow);
      }
    }
  }

  // ----- what the bandit observes -----

  datatype Reading = Reading(region: string, rttUs: real)

  datatype Learned = Learned(prevRtt: map<string, real>, arms: Arms)

  function Heard(l: Learned, r: Reading): Learned {
    if r.rttUs <= 0.0 then l
    else
      Learned(l.prevRtt[r.region := r.rttUs],
              if r.region in l.prevRtt then ObservedIn(l.arms, r.region, Observation(l.prevRtt[r.region], r.rttUs)) else l.arms)
  }

  function HeardAll(l: Learned, readings: seq<Reading>): Learned {
    if readings == [] then l else Heard(HeardAll(l, readings[..|readings| - 1]), readings[|readings| - 1])
  }

  /** The positive round-trip times read for a region. */
  function Rtts(readings: seq<Reading>, region: string): seq<real> {
    if readings == [] then []
    else
      var before, r := Rtts(readings[..|readings| - 1], region), readings[|readings| - 1];
      if r.region == region && r.rttUs > 0.0 then before + [r.rttUs] else before
  }

  function Pairs(rtts: seq<real>): seq<Observation> {
    if |rtts| < 2 then [] else seq(|rtts| - 1, i requires 0 <= i < |rtts| - 1 => Observation(rtts[i], rtts[i + 1]))
  }

  /** A region's arm learns exactly the consecutive pairs of positive readings of that region, and so has
      one decision fewer than there were readings. */
  lemma {:induction false} ArmsLearnConsecutivePairs(arms: Arms, readings: seq<Reading>, region: string)
    requires region in arms && arms[region] == FRESH_ARM
    ensures var rtts := Rtts(readings, region);
            var l := HeardAll(Learned(map[], arms), readings);
            && (region in l.prevRtt <==> rtts != [])
            && (rtts != [] ==> l.prevRtt[region] == rtts[|rtts| - 1])
            && region in l.arms && l.arms[region] == ObservedAll(FRESH_ARM, Pairs(rtts))
            && l.arms[region].decisions == (if rtts == [] then 0 else |rtts| - 1)
  {
    var rtts := Rtts(readings, region);
    if readings != [] {
      var before, r := readings[..|readings| - 1], readings[|readings| - 1];
      ArmsLearnConsecutivePairs(arms, before, region);
      var earlier := Rtts(before, region);
      if r.region == region && r.rttUs > 0.0 && earlier != [] {
        PairsGrow(earlier, r.rttUs);
        assert Pairs(rtts)[..|Pairs(rtts)| - 1] == Pairs(earlier);
      }
    }
    ArmBooks(Pairs(rtts));
  }

  lemma PairsGrow(rtts: seq<real>, x: real)
    requires rtts != []
    ensures Pairs(rtts + [x]) == Pairs(rtts) + [Observation(rtts[|rtts| - 1], x)]
  {
    var before, after := Pairs(rtts), Pairs(rtts + [x]);
    assert |after| == |rtts| && |before| == |rtts| - 1;
    forall i | 0 <= i < |before| ensures after[i] == before[i] {
    }
  }

  // ----- the pipeline object -----

  datatype AggregatedMetric<V> = AggregatedMetric(flow: string, region: string, features: V, rttUs: real)

  /** The models: isolation forest, LSTM network, and gradient-boosted classifier with the LSTM's answer as a hint. */
  datatype Models<!V> = Models(zero: V, forest: V -> real, network: seq<V> -> Prediction, classify: (V, FaultType) -> (Severity, real))

  datatype MLScored = MLScored(region: string, evidence: Evidence, fault: FaultType, decision: Decision)

  function WeightOf(weights: map<string, real>, region: string): real {
    if region in weights then weights[region] else 1.0
  }

  function Scored<V>(models: Models<V>, window: seq<V>, seqLen: nat, m: AggregatedMetric<V>, weights: map<string, real>): MLScored {
    var p := Predicted(window, seqLen, models.zero, models.network);
    var (severity, xgbConf) := models.classify(m.features, p.fault);
    var e := Evidence(models.forest(m.features), severity, xgbConf, p.confidence, WeightOf(weights, m.region));
    MLScored(m.region, e, p.fault, EnsembleDecision(e))
  }

  /** A flow's first vector always meets the LSTM half of the second path: with one vector the classifier
      knows nothing but says so with full confidence. */
  lemma FirstVectorNeedsNoConfirmation<V>(models: Models<V>, v: V, seqLen: nat, m: AggregatedMetric<V>, weights: map<string, real>)
    ensures var s := Scored(models, Suffix([v], seqLen), seqLen, m, weights);
            var severity := models.classify(m.features, Unknown).0;
            severity == DegradedFault || severity == Critical ==> s.decision.trigger
  {
  }

  ghost predicate Separate<V>(lstms: map<string, NimbusLSTM<V>>) {
    forall f, g :: f in lstms && g in lstms && f != g ==> lstms[f] != lstms[g]
  }

  lemma OldestLeaves(order: seq<string>, keys: set<string>)
    requires Lists(order, keys) && order != []
    ensures Lists(order[1..], keys - {order[0]}) && order[0] in keys
  {
  }

  lemma NewestJoins<V>(order: seq<string>, lstms: map<string, NimbusLSTM<V>>, flow: string, lstm: NimbusLSTM<V>)
    requires Lists(order, lstms.Keys) && Separate(lstms) && flow !in lstms && lstm !in lstms.Values
    ensures Lists(order + [flow], lstms[flow := lstm].Keys) && Separate(lstms[flow := lstm])
    ensures lstms[flow := lstm].Values == lstms.Values + {lstm}
  {
    NoRepeatsGrows(order, flow);
    var more := lstms[flow := lstm];
    assert more[flow] == lstm && forall f :: f in lstms ==> more[f] == lstms[f] && lstms[f] in lstms.Values;
  }

  class ScoringPipeline<V(==)> {
    const seqLen: nat
    const models: Models<V>
    const bandit: NimbusMultiArmedBandit
    var order: seq<string>
    var flowLstms: map<string, NimbusLSTM<V>>
    var prevRttByRegion: map<string, real>

    ghost predicate Valid()
      reads this`order, this`flowLstms, flowLstms.Values, bandit
    {
      && bandit.Valid()
      && |order| <= MAX_FLOW_LSTMS
      && Lists(order, flowLstms.Keys)
      && Separate(flowLstms)
      && (forall f :: f in flowLstms ==> flowLstms[f].seqLen == seqLen && |flowLstms[f].window| <= seqLen)
    }

    ghost function FlowTable(): Flows<V>
      reads this`order, this`flowLstms, flowLstms.Values
    {
      Flows(order, map f | f in flowLstms :: flowLstms[f].window)
    }

    ghost function Learning(): Learned
      reads this`prevRttByRegion, bandit, bandit.arms.Values
    {
      Learned(prevRttByRegion, bandit.View())
    }

    constructor (seqLen: nat, models: Models<V>, bandit: NimbusMultiArmedBandit)
      requires bandit.Valid()
      ensures Valid() && this.seqLen == seqLen && this.models == models && this.bandit == bandit
      ensures FlowTable() == Flows([], map[]) && prevRttByRegion == map[] && flowLstms == map[]
    {
      this.seqLen, this.models, this.bandit := seqLen, models, bandit;
      order, flowLstms, prevRttByRegion := [], map[], map[];
    }

    method Score(m: AggregatedMetric<V>, weights: map<string, real>) returns (scored: MLScored)
      requires Valid()
      modifies this, flowLstms.Values, bandit.arms.Values
      ensures Valid() && fresh(flowLstms.Values - old(flowLstms.Values)) && bandit.arms == old(bandit.arms)
      ensures FlowTable() == After(old(FlowTable()), seqLen, Pushed(m.flow, m.features))
      ensures Learning() == Heard(old(Learning()), Reading(m.region, m.rttUs))
      ensures m.flow in FlowTable().windows && scored == Scored(models, FlowTable().windows[m.flow], seqLen, m, weights)
    {
      scored := ScoreVector(m, weights);
      LearnFrom(m.region, m.rttUs);
    }

    method ScoreVector(m: AggregatedMetric<V>, weights: map<string, real>) returns (scored: MLScored)
      requires Valid()
      modifies this`order, this`flowLstms, flowLstms.Values
      ensures Valid() && fresh(flowLstms.Values - old(flowLstms.Values)) && Learning() == old(Learning())
      ensures FlowTable() == After(old(FlowTable()), seqLen, Pushed(m.flow, m.features))
      ensures m.flow in FlowTable().windows && scored == Scored(models, FlowTable().windows[m.flow], seqLen, m, weights)
    {
      var lstm := PushToFlow(m.flow, m.features);
      scored := Decide(m, weights, lstm);
    }

    method LearnFrom(region: string, rttUs: real)
      requires Valid()
      modifies this`prevRttByRegion, bandit.arms.Values
      ensures Valid() && FlowTable() == old(FlowTable())
      ensures Learning() == Heard(old(Learning()), Reading(region, rttUs))
    {
      ObserveReading(region, rttUs);
    }

    method Decide(m: AggregatedMetric<V>, weights: map<string, real>, lstm: NimbusLSTM<V>) returns (scored: MLScored)
      requires lstm.seqLen == seqLen
      ensures scored == Scored(models, lstm.window, seqLen, m, weights)
    {
      var ifScore := models.forest(m.features);
      var p := lstm.Predict(models.zero, models.network);
      var (severity, xgbConf) := models.classify(m.features, p.fault);
      var regionWeight := if m.region in weights then weights[m.region] else 1.0;
      var evidence := Evidence(ifScore, severity, xgbConf, p.confidence, regionWeight);
      scored := MLScored(m.region, evidence, p.fault, EnsembleDecision(evidence));
    }

    method PushToFlow(flow: string, v: V) returns (lstm: NimbusLSTM<V>)
      requires Valid()
      modifies this`order, this`flowLstms, flowLstms.Values
      ensures Valid() && fresh(flowLstms.Values - old(flowLstms.Values))
      ensures FlowTable() == After(old(FlowTable()), seqLen, Pushed(flow, v)) && Learning() == old(Learning())
      ensures flow in flowLstms && lstm == flowLstms[flow]
    {
      lstm := GetFlowLstm(flow);
      PushTo(flow, v);
    }

    method PushTo(flow: string, v: V)
      requires Valid() && flow in flowLstms
      modifies flowLstms[flow]
      ensures Valid() && Learning() == old(Learning())
      ensures FlowTable() == Flows(order, old(FlowTable()).windows[flow := Suffix(old(FlowTable()).windows[flow] + [v], seqLen)])
    {
      ghost var before := FlowTable();
      flowLstms[flow].Push(v);
      assert FlowTable().windows == before.windows[flow := Suffix(before.windows[flow] + [v], seqLen)];
    }

    method ObserveReading(region: string, rttUs: real)
      requires bandit.Valid()
      modifies this`prevRttByRegion, bandit.arms.Values
      ensures bandit.Valid() && Learning() == Heard(old(Learning()), Reading(region, rttUs))
    {
      if region in prevRttByRegion && rttUs > 0.0 {
        bandit.Observe(region, Observation(prevRttByRegion[region], rttUs));
      }
      if rttUs > 0.0 {
        prevRttByRegion := prevRttByRegion[region := rttUs];
      }
    }

    method ResetFlow(flow: string)
      requires Valid()
      modifies flowLstms.Values
      ensures Valid() && FlowTable() == After(old(FlowTable()), seqLen, Cleared(flow))
    {
      if flow in flowLstms {
        ghost var before := FlowTable();
        flowLstms[flow].Reset();
        assert FlowTable().windows == before.windows[flow := []];
      }
    }

    /** The flow's window, made on first use; the oldest entry makes room when the table is full. */
    method GetFlowLstm(flow: string) returns (lstm: NimbusLSTM<V>)
      requires Valid()
      modifies this`order, this`flowLstms
      ensures Valid() && fresh(flowLstms.Values - old(flowLstms.Values))
      ensures FlowTable() == Opened(old(FlowTable()), flow) && Learning() == old(Learning())
      ensures flow in flowLstms && lstm == flowLstms[flow]
    {
      if flow !in flowLstms {
        OpenFlow(flow);
      }
      lstm := flowLstms[flow];
    }

    method OpenFlow(flow: string)
      requires Valid() && flow !in flowLstms
      modifies this`order, this`flowLstms
      ensures Valid() && fresh(flowLstms.Values - old(flowLstms.Values)) && flow in flowLstms
      ensures FlowTable() == Opened(old(FlowTable()), flow) && Learning() == old(Learning())
    {
      if |order| >= MAX_FLOW_LSTMS {
        EvictOldest();
      }
      AddFlow(flow);
    }

    method EvictOldest()
      requires Valid() && order != []
      modifies this`order, this`flowLstms
      ensures Valid() && flowLstms.Values <= old(flowLstms.Values) && |order| == |old(order)| - 1
      ensures FlowTable() == Flows(old(order)[1..], old(FlowTable()).windows - {old(order)[0]})
      ensures Learning() == old(Learning())
    {
      OldestLeaves(order, flowLstms.Keys);
      ghost var before, oldest := FlowTable(), order[0];
      flowLstms := flowLstms - {order[0]};
      order := order[1..];
      assert FlowTable().windows == before.windows - {oldest};
    }

    method AddFlow(flow: string)
      requires Valid() && flow !in flowLstms && |order| < MAX_FLOW_LSTMS
      modifies this`order, this`flowLstms
      ensures Valid() && flow in flowLstms && fresh(flowLstms[flow]) && flowLstms.Values == old(flowLstms.Values) + {flowLstms[flow]}
      ensures FlowTable() == Flows(old(order) + [flow], old(FlowTable()).windows[flow := []])
      ensures Learning() == old(Learning())
    {
      var lstm := new NimbusLSTM<V>(seqLen);
      EnterFlow(flow, lstm);
    }

    method EnterFlow(flow: string, lstm: NimbusLSTM<V>)
      requires Valid() && flow !in flowLstms && |order| < MAX_FLOW_LSTMS
      requires lstm !in flowLstms.Values && lstm.seqLen == seqLen && lstm.window == []
      modifies this`order, this`flowLstms
      ensures Valid() && flowLstms.Values == old(flowLstms.Values) + {lstm}
      ensures flow in flowLstms && flowLstms[flow] == lstm
      ensures FlowTable() == Flows(old(order) + [flow], old(FlowTable()).windows[flow := []])
      ensures Learning() == old(Learning())
    {
      NewestJoins(order, flowLstms, flow, lstm);
      ghost var before := FlowTable();
      flowLstms := flowLstms[flow := lstm];
      order := order + [flow];
      assert FlowTable().windows == before.windows[flow := []];
    }
  }
}
