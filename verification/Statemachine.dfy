/**
 The healing state machine of one region (control-plane-04/controlplane/statemachine/fsm.go).

 FsmState is the value held by a RegionFSM object.  The transition table is NextState; Sent and
 TimeoutChecked say what one locked call does to the value.  The lemmas talk about whole runs.
 Times are integer nanoseconds; each locked call reads the clock once.
 */
module Statemachine {
  import opened Options
  import opened Nanoseconds

  datatype State = Healthy | Degraded | Healing | Recovered | Failed

  datatype EventType =
    | AnomalyDetected
    | SeverityCritical
    | RunbookStarted
    | RunbookSucceeded
    | RunbookFailed
    | HealthVerified
    | TtlExpired
    | ManualOverride
    | RecoveryRollback

  datatype TransitionRecord = TransitionRecord(from: State, to: State, event: EventType, timestamp: int, duration: int)

  datatype FsmState = FsmState(
    current: State,
    enteredAt: int,
    transitions: seq<TransitionRecord>,
    failoverCount: nat,
    lastFailoverAt: Option<int>)

  datatype Timeouts = Timeouts(degraded: int, healing: int, recovered: int, failed: int) {
    /** HEALTHY is the one state without a time limit. */
    function Of(s: State): Option<int> {
      match s
      case Healthy => None
      case Degraded => Some(degraded)
      case Healing => Some(healing)
      case Recovered => Some(recovered)
      case Failed => Some(failed)
    }

    predicate Positive() {
      degraded > 0 && healing > 0 && recovered > 0 && failed > 0
    }
  }

  const DEFAULT_TIMEOUTS := Timeouts(300 * SECOND, 600 * SECOND, 60 * SECOND, 1800 * SECOND)

  /** The transition table; a pair outside it is ignored. */
  function NextState(current: State, event: EventType): Option<State> {
    match (current, event)
    case (Healthy, AnomalyDetected) => Some(Degraded)
    case (Healthy, SeverityCritical) => Some(Degraded)
    case (Healthy, ManualOverride) => Some(Degraded)
    case (Degraded, RunbookStarted) => Some(Healing)
    case (Degraded, TtlExpired) => Some(Healing)
    case (Degraded, ManualOverride) => Some(Failed)
    case (Healing, RunbookSucceeded) => Some(Recovered)
    case (Healing, RunbookFailed) => Some(Failed)
    case (Healing, TtlExpired) => Some(Failed)
    case (Healing, ManualOverride) => Some(Failed)
    case (Recovered, HealthVerified) => Some(Healthy)
    case (Recovered, RecoveryRollback) => Some(Degraded)
    case (Recovered, AnomalyDetected) => Some(Degraded)
    case (Recovered, TtlExpired) => Some(Healthy)
    case (Failed, ManualOverride) => Some(Healthy)
    case (Failed, TtlExpired) => Some(Degraded)
    case _ => None
  }

  predicate IsFailover(s: State) {
    s == Degraded || s == Failed
  }

  function Fresh(now: int): FsmState {
    FsmState(Healthy, now, [], 0, None)
  }

  function Transitioned(s: FsmState, next: State, event: EventType, now: int): FsmState {
    FsmState(
      next,
      now,
      s.transitions + [TransitionRecord(s.current, next, event, now, now - s.enteredAt)],
      if IsFailover(next) then s.failoverCount + 1 else s.failoverCount,
      if IsFailover(next) then Some(now) else s.lastFailoverAt)
  }

  function Sent(s: FsmState, event: EventType, now: int): FsmState {
    match NextState(s.current, event)
    case None => s
    case Some(next) => Transitioned(s, next, event, now)
  }

  predicate Overdue(s: FsmState, timeouts: Timeouts, now: int) {
    match timeouts.Of(s.current)
    case None => false
    case Some(limit) => now - s.enteredAt >= limit
  }

  function TimeoutChecked(s: FsmState, timeouts: Timeouts, now: int): FsmState {
    if Overdue(s, timeouts, now) then Sent(s, TtlExpired, now) else s
  }

  /** The state machine object.  The enter actions of the control plane are run by its caller,
      which learns from `fired` which transition took place. */
  class RegionFSM {
    const region: string
    const timeouts: Timeouts
    var current: State
    var enteredAt: int
    var transitions: seq<TransitionRecord>
    var failoverCount: nat
    var lastFailoverAt: Option<int>

    constructor (region: string, timeouts: Timeouts, now: int)
      ensures this.region == region && this.timeouts == timeouts
      ensures View() == Fresh(now)
    {
      this.region := region;
      this.timeouts := timeouts;
      current := Healthy;
      enteredAt := now;
      transitions := [];
      failoverCount := 0;
      lastFailoverAt := None;
    }

    ghost function View(): FsmState
      reads this
    {
      FsmState(current, enteredAt, transitions, failoverCount, lastFailoverAt)
    }

    method Send(event: EventType, now: int) returns (fired: Option<State>)
      modifies this
      ensures View() == Sent(old(View()), event, now)
      ensures fired == NextState(old(current), event)
    {
      fired := NextState(current, event);
      if fired.Some? {
        Transition(fired.value, event, now);
      }
    }

    method CheckTimeouts(now: int) returns (fired: Option<State>)
      modifies this
      ensures View() == TimeoutChecked(old(View()), timeouts, now)
      ensures fired == if old(Overdue(View(), timeouts, now)) then NextState(old(current), TtlExpired) else None
    {
      fired := None;
      var limit := timeouts.Of(current);
      if limit.None? || now - enteredAt < limit.value {
        return;
      }
      fired := NextState(current, TtlExpired);
      if fired.Some? {
        Transition(fired.value, TtlExpired, now);
      }
    }

    method Transition(next: State, event: EventType, now: int)
      modifies this
      ensures View() == Transitioned(old(View()), next, event, now)
    {
      var from := current;
      var duration := now - enteredAt;
      transitions := transitions + [TransitionRecord(from, next, event, now, duration)];
      current := next;
      enteredAt := now;
      if next == Degraded || next == Failed {
        failoverCount := failoverCount + 1;
        lastFailoverAt := Some(now);
      }
    }
  }

  // ----- histories -----

  function Failovers(ts: seq<TransitionRecord>): nat {
    if ts == [] then 0
    else Failovers(ts[..|ts| - 1]) + (if ts[|ts| - 1].to in {Degraded, Failed} then 1 else 0)
  }

  function LastFailover(ts: seq<TransitionRecord>): Option<int> {
    if ts == [] then None
    else if ts[|ts| - 1].to in {Degraded, Failed} then Some(ts[|ts| - 1].timestamp)
    else LastFailover(ts[..|ts| - 1])
  }

  /** The records form a chain from HEALTHY to the current state and every link is in the table. */
  ghost predicate Chained(s: FsmState) {
    var ts := s.transitions;
    && s.current == (if ts == [] then Healthy else ts[|ts| - 1].to)
    && (ts != [] ==> ts[0].from == Healthy)
    && (forall i, j :: 0 <= i < j == i + 1 < |ts| ==> ts[j].from == ts[i].to)
    && (forall i :: 0 <= i < |ts| ==> NextState(ts[i].from, ts[i].event) == Some(ts[i].to))
  }

  /** What the environment does to one state machine: an event sent by a caller, or the ticker's
      timeout check.  No caller sends TtlExpired itself; the ticker raises it. */
  datatype Input = Event(event: EventType, at: int) | Check(at: int)

  function Apply(s: FsmState, timeouts: Timeouts, x: Input): FsmState {
    match x
    case Event(e, at) => Sent(s, e, at)
    case Check(at) => TimeoutChecked(s, timeouts, at)
  }

  function Run(timeouts: Timeouts, start: int, xs: seq<Input>): FsmState {
    if xs == [] then Fresh(start)
    else Apply(Run(timeouts, start, xs[..|xs| - 1]), timeouts, xs[|xs| - 1])
  }

  ghost predicate WellRecorded(s: FsmState) {
    Chained(s) && s.failoverCount == Failovers(s.transitions) && s.lastFailoverAt == LastFailover(s.transitions)
  }

  lemma LinkKeepsChain(s: FsmState, next: State, event: EventType, now: int)
    requires Chained(s) && NextState(s.current, event) == Some(next)
    ensures Chained(Transitioned(s, next, event, now))
  {
    var ts, us := s.transitions, Transitioned(s, next, event, now).transitions;
    forall i, j | 0 <= i < j == i + 1 < |us| ensures us[j].from == us[i].to {
      assert us[i] == ts[i];
      assert j < |ts| ==> us[j] == ts[j];
    }
    forall i | 0 <= i < |us| ensures NextState(us[i].from, us[i].event) == Some(us[i].to) {
      assert i < |ts| ==> us[i] == ts[i];
    }
  }

  lemma SendKeepsRecord(s: FsmState, event: EventType, now: int)
    requires WellRecorded(s)
    ensures WellRecorded(Sent(s, event, now))
  {
    var next := NextState(s.current, event);
    if next.Some? {
      LinkKeepsChain(s, next.value, event, now);
      var us := Transitioned(s, next.value, event, now).transitions;
      assert us[..|us| - 1] == s.transitions;
    }
  }

  /** In every run the history is a chain of table links, the failover count is the number of entries into
      DEGRADED or FAILED, and the time of the last failover is that of the last of them. */
  lemma {:induction false} HistoryIsChained(timeouts: Timeouts, start: int, xs: seq<Input>)
    ensures WellRecorded(Run(timeouts, start, xs))
  {
    if xs != [] {
      var before := Run(timeouts, start, xs[..|xs| - 1]);
      HistoryIsChained(timeouts, start, xs[..|xs| - 1]);
      var x := xs[|xs| - 1];
      SendKeepsRecord(before, if x.Event? then x.event else TtlExpired, x.at);
    }
  }

  /** What each state's events lead to, told from the record of a transition. */
  predicate LeadsRight(rec: TransitionRecord) {
    match rec.from
    case Healthy =>
      rec.to == Degraded && rec.event in {AnomalyDetected, SeverityCritical, ManualOverride}
    case Degraded =>
      if rec.event == ManualOverride then rec.to == Failed
      else rec.to == Healing && rec.event in {RunbookStarted, TtlExpired}
    case Healing =>
      if rec.event == RunbookSucceeded then rec.to == Recovered
      else rec.to == Failed && rec.event in {RunbookFailed, TtlExpired, ManualOverride}
    case Recovered =>
      if rec.event in {HealthVerified, TtlExpired} then rec.to == Healthy
      else rec.to == Degraded && rec.event in {RecoveryRollback, AnomalyDetected}
    case Failed =>
      if rec.event == ManualOverride then rec.to == Healthy
      else rec.to == Degraded && rec.event == TtlExpired
  }

  /** In every run every record leads where its state and event say: HEALING to RECOVERED by a runbook's
      success and to FAILED by anything else, FAILED out by an operator or its time limit, and so on. */
  lemma {:induction false} RecordsLeadRight(timeouts: Timeouts, start: int, xs: seq<Input>)
    ensures forall i :: 0 <= i < |Run(timeouts, start, xs).transitions| ==> LeadsRight(Run(timeouts, start, xs).transitions[i])
  {
    HistoryIsChained(timeouts, start, xs);
    var ts := Run(timeouts, start, xs).transitions;
    forall i | 0 <= i < |ts| ensures LeadsRight(ts[i]) {
      LinkLeadsRight(ts[i]);
    }
  }

  lemma LinkLeadsRight(rec: TransitionRecord)
    requires NextState(rec.from, rec.event) == Some(rec.to)
    ensures LeadsRight(rec)
  {
  }

  /** The events that a state answers to at all. */
  function Answers(s: State): set<EventType> {
    match s
    case Healthy => {AnomalyDetected, SeverityCritical, ManualOverride}
    case Degraded => {RunbookStarted, ManualOverride, TtlExpired}
    case Healing => {RunbookSucceeded, RunbookFailed, ManualOverride, TtlExpired}
    case Recovered => {HealthVerified, RecoveryRollback, AnomalyDetected, TtlExpired}
    case Failed => {ManualOverride, TtlExpired}
  }

  /** An event adds a record, leading as above, if the state answers to it, and otherwise changes nothing. */
  lemma EventsAnsweredIff(s: FsmState, event: EventType, now: int)
    ensures var t := Sent(s, event, now);
            if event in Answers(s.current) then
              && |t.transitions| == |s.transitions| + 1 && t.transitions[..|s.transitions|] == s.transitions
              && var rec := t.transitions[|s.transitions|];
                 && rec.from == s.current && rec.to == t.current && rec.event == event && LeadsRight(rec)
                 && rec.timestamp == now == t.enteredAt && rec.duration == now - s.enteredAt
            else t == s
  {
  }

  lemma SendMovesIff(s: FsmState, event: EventType, now: int)
    ensures Sent(s, event, now) != s <==> NextState(s.current, event).Some?
  {
    EventsAnsweredIff(s, event, now);
  }

  /** A region comes back to HEALTHY in two ways only: an operator clears FAILED, or the step just
      before was a runbook reporting success. */
  lemma HealthyNeedsRunbookOrOperator(s: FsmState, j: nat)
    requires Chained(s) && j < |s.transitions| && s.transitions[j].to == Healthy
    ensures s.transitions[j].from == Failed ==> s.transitions[j].event == ManualOverride
    ensures s.transitions[j].from != Failed ==>
              && j >= 2
              && s.transitions[j].from == Recovered
              && s.transitions[j - 1].event == RunbookSucceeded
              && s.transitions[j - 2].to == Healing
  {
  }

  /** Every stretch of the history from an entry into DEGRADED to a later entry into HEALTHY passes
      FAILED, or passes RECOVERED by a runbook success inside the stretch. */
  lemma DegradedToHealthyPasses(s: FsmState, i: nat, j: nat)
    requires Chained(s) && i < j < |s.transitions|
    requires s.transitions[i].to == Degraded && s.transitions[j].to == Healthy
    ensures exists k :: i < k < j
                        && (s.transitions[k].to == Failed
                            || (s.transitions[k].to == Recovered && s.transitions[k].event == RunbookSucceeded))
  {
    HealthyNeedsRunbookOrOperator(s, j);
    assert s.transitions[j].from == s.transitions[j - 1].to;
    assert i < j - 1 < j;
  }

  /** A duplicate notification changes nothing: the same event again right away is ignored, unless it
      is an operator override or a time limit that moves the state on a second time. */
  lemma RepeatedEventIsIgnored(s: FsmState, event: EventType, now: int, later: int)
    ensures Sent(Sent(s, event, now), event, later) != Sent(s, event, now)
            <==> || (event == ManualOverride && s.current != Recovered)
                 || (event == TtlExpired && s.current !in {Healthy, Recovered})
  {
  }

  // ----- time limits -----

  /** A check moves a state on exactly if it is not HEALTHY and has lasted its own limit. */
  lemma LimitsAreOwn(s: FsmState, timeouts: Timeouts, now: int)
    ensures TimeoutChecked(s, timeouts, now) != s
            <==> var stay := now - s.enteredAt;
                 match s.current
                 case Healthy => false
                 case Degraded => stay >= timeouts.degraded
                 case Healing => stay >= timeouts.healing
                 case Recovered => stay >= timeouts.recovered
                 case Failed => stay >= timeouts.failed
  {
    SendMovesIff(s, TtlExpired, now);
  }

  function LastCheck(start: int, xs: seq<Input>): int {
    if xs == [] then start
    else if xs[|xs| - 1].Check? then xs[|xs| - 1].at
    else LastCheck(start, xs[..|xs| - 1])
  }

  function Clock(start: int, xs: seq<Input>): int {
    if xs == [] then start else xs[|xs| - 1].at
  }

  /** The clock never runs backwards, and at every input the last timeout check is at most `delta` old. */
  predicate CheckedEvery(delta: int, start: int, xs: seq<Input>) {
    xs == [] ||
    (var before, x := xs[..|xs| - 1], xs[|xs| - 1];
     && CheckedEvery(delta, start, before)
     && Clock(start, before) <= x.at <= LastCheck(start, before) + delta)
  }

  /** No record shows a stay in a state other than HEALTHY of its time limit plus `delta` or more,
      and the last check happened before the present state's limit ran out. */
  ghost predicate OnTime(s: FsmState, timeouts: Timeouts, delta: int, lastCheck: int) {
    && (s.current != Healthy ==> lastCheck < s.enteredAt + timeouts.Of(s.current).value)
    && (forall i :: 0 <= i < |s.transitions| && s.transitions[i].from != Healthy ==>
          s.transitions[i].duration < timeouts.Of(s.transitions[i].from).value + delta)
  }

  lemma ApplyOnTime(s: FsmState, timeouts: Timeouts, delta: int, lastCheck: int, x: Input)
    requires timeouts.Positive() && OnTime(s, timeouts, delta, lastCheck)
    requires lastCheck <= x.at <= lastCheck + delta
    ensures OnTime(Apply(s, timeouts, x), timeouts, delta, if x.Check? then x.at else lastCheck)
  {
  }

  /** With timeout checks at most `delta` apart no state but HEALTHY lasts its limit plus `delta`. */
  lemma {:induction false} StaysAreBounded(timeouts: Timeouts, delta: int, start: int, xs: seq<Input>)
    requires timeouts.Positive() && CheckedEvery(delta, start, xs)
    ensures LastCheck(start, xs) <= Clock(start, xs)
    ensures OnTime(Run(timeouts, start, xs), timeouts, delta, LastCheck(start, xs))
  {
    if xs != [] {
      var before := xs[..|xs| - 1];
      StaysAreBounded(timeouts, delta, start, before);
      ApplyOnTime(Run(timeouts, start, before), timeouts, delta, LastCheck(start, before), xs[|xs| - 1]);
    }
  }

  function Checks(s: FsmState, timeouts: Timeouts, times: seq<int>): FsmState {
    if times == [] then s else TimeoutChecked(Checks(s, timeouts, times[..|times| - 1]), timeouts, times[|times| - 1])
  }

  function Last(times: seq<int>, from: int): int {
    if times == [] then from else times[|times| - 1]
  }

  /** Each check comes at most `delta` after the one before, the first at most that after `from`. */
  predicate Regular(times: seq<int>, from: int, delta: int) {
    times == [] ||
    (var before := times[..|times| - 1];
     && Regular(before, from, delta)
     && Last(before, from) <= times[|times| - 1] <= Last(before, from) + delta)
  }

  /** How far a region left to its time limits in DEGRADED, in the state `s`, has got by the check at `last`:
      it waits in DEGRADED, waits in HEALING, or has gone on to FAILED within both limits and twice `delta`. */
  predicate Escalating(s: FsmState, t: FsmState, timeouts: Timeouts, last: int, delta: int) {
    var n := |s.transitions|;
    if |t.transitions| == n then t == s && last < s.enteredAt + timeouts.degraded
    else if |t.transitions| == n + 1 then
      t.current == Healing && t.enteredAt < s.enteredAt + timeouts.degraded + delta && last < t.enteredAt + timeouts.healing
    else
      && |t.transitions| > n + 1 && t.transitions[n + 1].from == Healing && t.transitions[n + 1].to == Failed
      && t.transitions[n + 1].timestamp < s.enteredAt + timeouts.degraded + timeouts.healing + 2 * delta
  }

  lemma CheckEscalates(s: FsmState, t: FsmState, timeouts: Timeouts, last: int, delta: int, now: int)
    requires s.current == Degraded && timeouts.Positive() && Escalating(s, t, timeouts, last, delta)
    requires last <= now <= last + delta
    ensures Escalating(s, TimeoutChecked(t, timeouts, now), timeouts, now, delta)
  {
    EventsAnsweredIff(t, TtlExpired, now);
    var n, u := |s.transitions|, Sent(t, TtlExpired, now);
    assert n + 1 < |t.transitions| < |u.transitions| ==> u.transitions[n + 1] == t.transitions[n + 1];
  }

  /** A region left alone in DEGRADED, with a runbook that never reports, goes to HEALING and from there to
      FAILED within both limits and twice the distance of the checks. */
  lemma {:induction false} HungRegionEscalates(s: FsmState, timeouts: Timeouts, times: seq<int>, delta: int)
    requires s.current == Degraded && timeouts.Positive() && Regular(times, s.enteredAt, delta)
    ensures Escalating(s, Checks(s, timeouts, times), timeouts, Last(times, s.enteredAt), delta)
  {
    if times != [] {
      var before := times[..|times| - 1];
      HungRegionEscalates(s, timeouts, before, delta);
      CheckEscalates(s, Checks(s, timeouts, before), timeouts, Last(before, s.enteredAt), delta, times[|times| - 1]);
    }
  }

  lemma HungRegionFails(s: FsmState, timeouts: Timeouts, times: seq<int>, delta: int)
    requires s.current == Degraded && timeouts.Positive() && Regular(times, s.enteredAt, delta)
    requires Last(times, s.enteredAt) >= s.enteredAt + timeouts.degraded + timeouts.healing + 2 * delta && delta >= 0
    ensures var ts, n := Checks(s, timeouts, times).transitions, |s.transitions|;
            && |ts| > n + 1 && ts[n + 1].from == Healing && ts[n + 1].to == Failed
            && ts[n + 1].timestamp < s.enteredAt + timeouts.degraded + timeouts.healing + 2 * delta
  {
    HungRegionEscalates(s, timeouts, times, delta);
  }

  /** With the default limits and a check every ten seconds that is within 920 seconds. */
  lemma HungRegionFailsByDefault(s: FsmState, times: seq<int>)
    requires s.current == Degraded && Regular(times, s.enteredAt, 10 * SECOND)
    requires Last(times, s.enteredAt) >= s.enteredAt + 920 * SECOND
    ensures var ts, n := Checks(s, DEFAULT_TIMEOUTS, times).transitions, |s.transitions|;
            |ts| > n + 1 && ts[n + 1].to == Failed && ts[n + 1].timestamp < s.enteredAt + 920 * SECOND
  {
    HungRegionFails(s, DEFAULT_TIMEOUTS, times, 10 * SECOND);
  }

  function TotalStay(ts: seq<TransitionRecord>): int {
    if ts == [] then 0 else TotalStay(ts[..|ts| - 1]) + ts[|ts| - 1].duration
  }

  /** The recorded stays add up: together with the stay in progress they cover the whole run, and
      every escalation by time limit was preceded by a stay of at least that limit. */
  lemma {:induction false} StaysCoverTheRun(timeouts: Timeouts, start: int, xs: seq<Input>)
    requires forall i :: 0 <= i < |xs| ==> xs[i] != Event(TtlExpired, xs[i].at)
    ensures TotalStay(Run(timeouts, start, xs).transitions) == Run(timeouts, start, xs).enteredAt - start
    ensures forall r :: r in Run(timeouts, start, xs).transitions && r.event == TtlExpired ==>
              timeouts.Of(r.from).Some? && r.duration >= timeouts.Of(r.from).value
  {
    if xs != [] {
      var before := xs[..|xs| - 1];
      StaysCoverTheRun(timeouts, start, before);
      var s := Run(timeouts, start, before);
      var t := Run(timeouts, start, xs);
      assert t == s || (t.transitions[..|s.transitions|] == s.transitions && |t.transitions| == |s.transitions| + 1);
      assert xs[|xs| - 1] != Event(TtlExpired, xs[|xs| - 1].at);
    }
  }
}
