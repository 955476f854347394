/**
 The runbook executor (sre-operations-05/sre/runbooks/executor.py).

 What the outside world does in one run (clock readings, how each attempt of each step ends, whether the
 preconditions and the final gate hold, which reports raise an exception) is an Env.  StepFrom and Outcome say what the executor makes of it.
 */
module Runbooks {
  import Statemachine

  datatype Status = Pending | Running | Success | Failed | Timeout | Skipped

  /** How one attempt at a step ends: the command fails, its check fails, both pass, or an exception. */
  datatype Attempt = CommandFails | CheckFails | Passes | Raises

  datatype Env = Env(
    dryRun: bool,
    startRaises: bool,
    startNoteRaises: bool,
    noteRaises: nat -> bool,
    delivered: nat -> bool,
    preconditionsHold: bool,
    verified: bool,
    deadline: real,
    stepClock: nat -> real,
    attemptClock: (nat, nat) -> real,
    attempt: (nat, nat) -> Attempt)
  {
    /** Clock readings in program order never decrease. */
    ghost predicate Monotone() {
      && (forall i: nat, k: nat :: stepClock(i) <= attemptClock(i, k) <= stepClock(i + 1))
      && (forall i: nat, k: nat, l: nat :: k <= l ==> attemptClock(i, k) <= attemptClock(i, l))
    }

    predicate Late(i: nat, k: nat) { attemptClock(i, k) > deadline }

    predicate Good(i: nat, k: nat) { dryRun || attempt(i, k) == Passes }
  }

  datatype StepReport = StepReport(status: Status, attempts: nat, backoff: nat)

  function Pow2(n: nat): nat { if n == 0 then 1 else 2 * Pow2(n - 1) }

  /** Each wait is twice the one before, so they multiply as powers of two do. */
  lemma {:induction false} WaitsDouble(m: nat, n: nat)
    ensures Pow2(m + n) == Pow2(m) * Pow2(n) && Pow2(0) == 1 && Pow2(1) == 2
  {
    if n > 0 {
      WaitsDouble(m, n - 1);
      DoubledProduct(Pow2(m), Pow2(n - 1));
    }
  }

  lemma DoubledProduct(x: nat, y: nat)
    ensures x * (2 * y) == 2 * (x * y)
  {
  }

  /** Step i from its k-th attempt on.  A range of attempts that is empty from the start leaves the step
      marked as running. */
  function StepFrom(env: Env, i: nat, retries: int, k: nat): StepReport
    decreases retries - k
  {
    if k > retries then StepReport(Running, 0, 0)
    else if env.Late(i, k) then StepReport(Timeout, 0, 0)
    else if env.Good(i, k) then StepReport(Success, 1, 0)
    else if k == retries then StepReport(Failed, 1, 0)
    else
      var rest := StepFrom(env, i, retries, k + 1);
      StepReport(rest.status, rest.attempts + 1, rest.backoff + if env.attempt(i, k) == Raises then 0 else Pow2(k))
  }

  /** With n retries a step makes at most n + 1 attempts and waits at most 2^n - 1 seconds between them;
      it ends in SUCCESS, FAILED or TIMEOUT exactly if it may be attempted at all. */
  lemma {:induction false} StepIsBounded(env: Env, i: nat, retries: int, k: nat)
    requires k <= retries + 1
    ensures var r := StepFrom(env, i, retries, k);
            && r.attempts <= retries + 1 - k
            && (k <= retries ==> r.backoff + Pow2(k) <= Pow2(retries))
            && (r.status in {Success, Failed, Timeout} <==> k <= retries)
            && (k > retries ==> r == StepReport(Running, 0, 0))
    decreases retries - k
  {
    if k < retries {
      StepIsBounded(env, i, retries, k + 1);
    }
  }

  /** A step succeeds exactly if some attempt passes after all before it failed, none of them late. */
  lemma {:induction false} StepSucceedsIff(env: Env, i: nat, retries: int, k: nat)
    ensures StepFrom(env, i, retries, k).status == Success
            <==> exists n :: k <= n <= retries && env.Good(i, n) && forall j :: k <= j <= n ==> !env.Late(i, j) && (j < n ==> !env.Good(i, j))
    decreases retries - k
  {
    if k <= retries {
      StepSucceedsIff(env, i, retries, k + 1);
      if !env.Late(i, k) && env.Good(i, k) {
        assert k <= k <= retries && env.Good(i, k);
      } else if StepFrom(env, i, retries, k).status == Success {
        var n :| k + 1 <= n <= retries && env.Good(i, n) && forall j :: k + 1 <= j <= n ==> !env.Late(i, j) && (j < n ==> !env.Good(i, j));
        assert forall j :: k <= j <= n ==> !env.Late(i, j) && (j < n ==> !env.Good(i, j));
      }
    }
  }

  /** A step fails exactly if every attempt was made in time and none passed. */
  lemma {:induction false} StepFailsIff(env: Env, i: nat, retries: int, k: nat)
    ensures StepFrom(env, i, retries, k).status == Failed
            <==> k <= retries && forall j :: k <= j <= retries ==> !env.Late(i, j) && !env.Good(i, j)
    decreases retries - k
  {
    if k < retries {
      StepFailsIff(env, i, retries, k + 1);
    }
  }

  lemma {:induction false} TimeoutMeansLate(env: Env, i: nat, retries: int, k: nat) returns (j: nat)
    requires StepFrom(env, i, retries, k).status == Timeout
    ensures env.Late(i, j)
    decreases retries - k
  {
    if env.Late(i, k) {
      j := k;
    } else {
      j := TimeoutMeansLate(env, i, retries, k + 1);
    }
  }

  /** The waits after the attempts from number k up to but not including number n: twice as long each time,
      and none after an exception. */
  function Waits(env: Env, i: nat, k: nat, n: nat): nat
    decreases n
  {
    if n <= k then 0 else Waits(env, i, k, n - 1) + if env.attempt(i, n - 1) == Raises then 0 else Pow2(n - 1)
  }

  lemma {:induction false} FirstWait(env: Env, i: nat, k: nat, n: nat)
    requires k < n
    ensures Waits(env, i, k, n) == (if env.attempt(i, k) == Raises then 0 else Pow2(k)) + Waits(env, i, k + 1, n)
    decreases n
  {
    if n > k + 1 {
      FirstWait(env, i, k, n - 1);
    }
  }

  /** The last attempt looked at: the one that passed, came too late, or was the last there is. */
  function Final(r: StepReport, k: nat): int {
    k + r.attempts - if r.status == Timeout then 0 else 1
  }

  /** A step in full: up to the last attempt looked at all were in time and failed, each was followed by its
      wait, and that last one decides. */
  lemma {:induction false} StepInFull(env: Env, i: nat, retries: int, k: nat)
    requires k <= retries
    ensures var r := StepFrom(env, i, retries, k);
            var n := Final(r, k);
            && k <= n <= retries && r.backoff == Waits(env, i, k, n)
            && (forall j :: k <= j < n ==> env.attemptClock(i, j) <= env.deadline && !env.dryRun && env.attempt(i, j) != Passes)
            && r.status == (if env.attemptClock(i, n) > env.deadline then Timeout
                            else if env.dryRun || env.attempt(i, n) == Passes then Success else Failed)
            && (r.status == Failed ==> n == retries)
    decreases retries - k
  {
    if k < retries && !env.Late(i, k) && !env.Good(i, k) {
      StepInFull(env, i, retries, k + 1);
      FirstWait(env, i, k, Final(StepFrom(env, i, retries, k + 1), k + 1));
    }
  }

  // ----- a whole run -----

  /** How a run ends: its status, the steps it went through, and how often `_finish` was called. */
  datatype RunReport = RunReport(status: Status, reports: seq<StepReport>, finishes: nat)

  /** The steps from number |done| on. */
  function StepsFrom(env: Env, retries: seq<int>, done: seq<StepReport>): RunReport
    requires |done| <= |retries|
    decreases |retries| - |done|
  {
    var i := |done|;
    if i == |retries| then RunReport(if env.verified then Success else Failed, done, 1)
    else if env.stepClock(i) > env.deadline then RunReport(Timeout, done, 2)
    else
      var r := StepFrom(env, i, retries[i], 0);
      if env.noteRaises(i) then RunReport(Failed, done + [r], 1)
      else if r.status == Failed then RunReport(Failed, done + [r], 2)
      else StepsFrom(env, retries, done + [r])
  }

  function Outcome(env: Env, retries: seq<int>): RunReport {
    if env.startRaises || env.startNoteRaises then RunReport(Failed, [], 1)
    else if !env.preconditionsHold then RunReport(Skipped, [], 2)
    else StepsFrom(env, retries, [])
  }

  /** The step begins in time, does not fail, and its progress is noted without an exception. */
  predicate Passed(env: Env, retries: seq<int>, i: nat)
    requires i < |retries|
  {
    env.stepClock(i) <= env.deadline && StepFrom(env, i, retries[i], 0).status != Failed && !env.noteRaises(i)
  }

  lemma OneStep(env: Env, retries: seq<int>, done: seq<StepReport>)
    requires |done| < |retries|
    ensures var i := |done|;
            var r := StepFrom(env, i, retries[i], 0);
            if Passed(env, retries, i) then StepsFrom(env, retries, done) == StepsFrom(env, retries, done + [r])
            else StepsFrom(env, retries, done).status == (if env.stepClock(i) > env.deadline then Timeout else Failed)
  {
  }

  lemma {:induction false} StepsSucceedIff(env: Env, retries: seq<int>, done: seq<StepReport>)
    requires |done| <= |retries|
    ensures StepsFrom(env, retries, done).status in {Success, Failed, Timeout}
    ensures StepsFrom(env, retries, done).status == Success
            <==> env.verified && forall i :: |done| <= i < |retries| ==> Passed(env, retries, i)
    decreases |retries| - |done|
  {
    var i := |done|;
    if i < |retries| {
      OneStep(env, retries, done);
      StepsSucceedIff(env, retries, done + [StepFrom(env, i, retries[i], 0)]);
    }
  }

  /** The n-th step would begin too late, and all before it passed. */
  predicate CutOffAt(env: Env, retries: seq<int>, from: nat, n: nat) {
    from <= n < |retries| && env.stepClock(n) > env.deadline && forall i :: from <= i < n ==> Passed(env, retries, i)
  }

  lemma {:induction false} StepsTimeOutIff(env: Env, retries: seq<int>, done: seq<StepReport>)
    requires |done| <= |retries|
    ensures StepsFrom(env, retries, done).status == Timeout <==> exists n: nat :: CutOffAt(env, retries, |done|, n)
    decreases |retries| - |done|
  {
    var i := |done|;
    if i < |retries| {
      OneStep(env, retries, done);
      if Passed(env, retries, i) {
        StepsTimeOutIff(env, retries, done + [StepFrom(env, i, retries[i], 0)]);
        if n: nat :| CutOffAt(env, retries, i, n) {
          assert CutOffAt(env, retries, i + 1, n);
        }
        var next := i + 1;
        if n: nat :| CutOffAt(env, retries, next, n) {
          assert CutOffAt(env, retries, i, n);
        }
      } else if env.stepClock(i) > env.deadline {
        assert CutOffAt(env, retries, i, i);
      }
    }
  }

  /** A run is skipped exactly if it gets under way and its preconditions fail, and then no step is attempted;
      it succeeds exactly if every step passes and the final gate holds; its time is up exactly if some step
      would begin too late after all before it passed. */
  lemma RunEndsAs(env: Env, retries: seq<int>)
    ensures var r := Outcome(env, retries);
            var started := !env.startRaises && !env.startNoteRaises;
            && (r.status == Skipped <==> started && !env.preconditionsHold)
            && (r.status == Skipped ==> r.reports == [])
            && (r.status == Success
                <==> started && env.preconditionsHold && env.verified && forall i :: 0 <= i < |retries| ==> Passed(env, retries, i))
            && (r.status == Timeout <==> started && env.preconditionsHold && exists n: nat :: CutOffAt(env, retries, 0, n))
            && r.status in {Skipped, Success, Timeout, Failed}
  {
    StepsSucceedIff(env, retries, []);
    StepsTimeOutIff(env, retries, []);
  }

  /** The reports are those of the steps begun, in order; all of those but the last passed, and a step that was
      not begun was too late, or came after one that did not pass. */
  lemma {:induction false} StepsReported(env: Env, retries: seq<int>, done: seq<StepReport>)
    requires |done| <= |retries|
    ensures var r := StepsFrom(env, retries, done);
            var n := |r.reports|;
            && |done| <= n <= |retries| && r.reports[..|done|] == done
            && (forall i :: |done| <= i < n ==> r.reports[i] == StepFrom(env, i, retries[i], 0) && env.stepClock(i) <= env.deadline)
            && (forall i :: |done| <= i < n - 1 ==> Passed(env, retries, i))
            && (n < |retries| ==> env.stepClock(n) > env.deadline || (n > |done| && !Passed(env, retries, n - 1)))
    decreases |retries| - |done|
  {
    var i := |done|;
    if i < |retries| && env.stepClock(i) <= env.deadline {
      var r := StepFrom(env, i, retries[i], 0);
      if Passed(env, retries, i) {
        StepsReported(env, retries, done + [r]);
        var reports := StepsFrom(env, retries, done + [r]).reports;
        assert reports[i] == (done + [r])[i];
      } else {
        assert StepsFrom(env, retries, done).reports == done + [r];
      }
    }
  }

  /** The end is reported once if the run did not get under way, and twice if it was skipped. */
  lemma EarlyEnds(env: Env, retries: seq<int>)
    ensures env.startRaises || env.startNoteRaises ==> Outcome(env, retries) == RunReport(Failed, [], 1)
    ensures Outcome(env, retries).status == Skipped ==> Outcome(env, retries).finishes == 2
  {
    RunEndsAs(env, retries);
  }

  /** The reports of the steps done are those of StepFrom, none failed, and none but the last timed out. */
  ghost predicate Clean(env: Env, retries: seq<int>, reports: seq<StepReport>) {
    && |reports| <= |retries|
    && (forall i :: 0 <= i < |reports| ==> reports[i] == StepFrom(env, i, retries[i], 0) && reports[i].status != Failed)
    && (forall i :: 0 <= i < |reports| - 1 ==> reports[i].status != Timeout)
  }

  lemma {:induction false} SuccessIsClean(env: Env, retries: seq<int>, done: seq<StepReport>)
    requires env.Monotone() && Clean(env, retries, done)
    requires StepsFrom(env, retries, done).status == Success
    ensures var r := StepsFrom(env, retries, done); |r.reports| == |retries| && Clean(env, retries, r.reports) && env.verified
    decreases |retries| - |done|
  {
    var i := |done|;
    if i < |retries| {
      if i > 0 && done[i - 1].status == Timeout {
        var k := TimeoutMeansLate(env, i - 1, retries[i - 1], 0);
      }
      var r := StepFrom(env, i, retries[i], 0);
      assert Clean(env, retries, done + [r]);
      SuccessIsClean(env, retries, done + [r]);
    }
  }

  /** A run that reports SUCCESS went through all its steps; of those that may be attempted, every one but
      possibly the last ended in SUCCESS, and the last in SUCCESS or TIMEOUT. */
  lemma SuccessfulRunsDidEverything(env: Env, retries: seq<int>)
    requires env.Monotone() && Outcome(env, retries).status == Success
    ensures var reports := Outcome(env, retries).reports;
            && |reports| == |retries|
            && (forall i :: 0 <= i < |reports| - 1 && retries[i] >= 0 ==> reports[i].status == Success)
            && (forall i :: 0 <= i < |reports| && retries[i] >= 0 ==> reports[i].status in {Success, Timeout})
  {
    SuccessIsClean(env, retries, []);
    var reports := Outcome(env, retries).reports;
    forall i | 0 <= i < |reports| && retries[i] >= 0 ensures reports[i].status in {Success, Timeout} {
      StepIsBounded(env, i, retries[i], 0);
    }
  }

  /** The exception is real: a run whose only step timed out reports SUCCESS. */
  lemma LastStepMayTimeOut() returns (env: Env)
    ensures env.Monotone() && Outcome(env, [3]).status == Success && Outcome(env, [3]).reports[0].status == Timeout
  {
    env := Env(false, false, false, (i: nat) => false, (k: nat) => true, true, true, 600.0, (i: nat) => if i == 0 then 600.0 else 601.0, (i: nat, k: nat) => 601.0, (i: nat, k: nat) => Passes);
    assert StepFrom(env, 0, 3, 0).status == Timeout;
    assert Outcome(env, [3]) == StepsFrom(env, [3], [StepReport(Timeout, 0, 0)]);
  }

  /** `_finish`, and with it the postmortem hook, runs once or twice in every run of steps: twice exactly
      when the run was cut short by its time limit or by a failed step that could be reported. */
  lemma {:induction false} FinishedOnceOrTwice(env: Env, retries: seq<int>, done: seq<StepReport>)
    requires |done| <= |retries|
    requires forall i :: 0 <= i < |done| ==> done[i].status != Failed
    ensures var r := StepsFrom(env, retries, done);
            && 1 <= r.finishes <= 2
            && (r.finishes == 2 <==> r.status == Timeout || (r.status == Failed && r.reports != [] && r.reports[|r.reports| - 1].status == Failed && !env.noteRaises(|r.reports| - 1)))
    decreases |retries| - |done|
  {
    if |done| < |retries| && env.stepClock(|done|) <= env.deadline {
      var r := StepFrom(env, |done|, retries[|done|], 0);
      if r.status != Failed && !env.noteRaises(|done|) {
        FinishedOnceOrTwice(env, retries, done + [r]);
      }
    }
  }

  // ----- what the state machine makes of it -----

  function Heard(s: Statemachine.FsmState, events: seq<Statemachine.EventType>, now: int): Statemachine.FsmState
    decreases |events|
  {
    if events == [] then s else Heard(Statemachine.Sent(s, events[0], now), events[1..], now)
  }

  function EndNotice(status: Status): Statemachine.EventType {
    if status == Success then Statemachine.RunbookSucceeded else Statemachine.RunbookFailed
  }

  /** The notices of the end that get through, of n that are sent; a failed one is only logged. */
  function EndNotices(env: Env, status: Status, n: nat): seq<Statemachine.EventType> {
    if n == 0 then [] else EndNotices(env, status, n - 1) + if env.delivered(n - 1) then [EndNotice(status)] else []
  }

  function Notices(env: Env, r: RunReport): seq<Statemachine.EventType> {
    (if env.startRaises then [] else [Statemachine.RunbookStarted]) + EndNotices(env, r.status, r.finishes)
  }

  lemma EndsAppear(env: Env, status: Status)
    ensures EndNotices(env, status, 1) == if env.delivered(0) then [EndNotice(status)] else []
    ensures EndNotices(env, status, 2) == EndNotices(env, status, 1) + if env.delivered(1) then [EndNotice(status)] else []
  {
    assert EndNotices(env, status, 0) == [];
  }

  lemma EndIsHeard(env: Env, status: Status, n: nat, s: Statemachine.FsmState, now: int)
    requires 1 <= n <= 2
    ensures var heard := env.delivered(0) || (n == 2 && env.delivered(1));
            Heard(s, EndNotices(env, status, n), now) == if heard then Statemachine.Sent(s, EndNotice(status), now) else s
  {
    var e := EndNotice(status);
    var once := Statemachine.Sent(s, e, now);
    Statemachine.RepeatedEventIsIgnored(s, e, now, now);
    assert EndNotices(env, status, 0) == [];
    assert EndNotices(env, status, 1) == if env.delivered(0) then [e] else [];
    assert [e][1..] == [] && [e, e][1..] == [e];
    assert Heard(s, [e], now) == Heard(once, [], now) == once;
    assert Heard(s, [e, e], now) == Heard(once, [e], now) == Heard(Statemachine.Sent(once, e, now), [], now) == once;
  }

  /** Reporting the end twice does no harm: from DEGRADED a run that got going takes its region through
      HEALING to RECOVERED if it succeeded and to FAILED if not, in two transitions whatever the number of
      reports, exactly if one of them gets through; if none does, the region is left in HEALING.  A run whose
      start was not reported leaves the region where it is. */
  lemma RunDrivesTheMachine(env: Env, retries: seq<int>, s: Statemachine.FsmState, now: int)
    requires s.current == Statemachine.Degraded
    ensures var r := Outcome(env, retries);
            var after := Heard(s, Notices(env, r), now);
            var heard := env.delivered(0) || (r.finishes == 2 && env.delivered(1));
            if env.startRaises then after == s
            else if heard then
              && after.current == (if r.status == Success then Statemachine.Recovered else Statemachine.Failed)
              && |after.transitions| == |s.transitions| + 2
            else
              && after.current == Statemachine.Healing
              && |after.transitions| == |s.transitions| + 1
  {
    var r := Outcome(env, retries);
    if !env.startRaises && !env.startNoteRaises && env.preconditionsHold {
      FinishedOnceOrTwice(env, retries, []);
    }
    var ends := EndNotices(env, r.status, r.finishes);
    if env.startRaises {
      assert [] + ends == ends;
      EndIsHeard(env, r.status, r.finishes, s, now);
    } else {
      var healing := Statemachine.Sent(s, Statemachine.RunbookStarted, now);
      assert ([Statemachine.RunbookStarted] + ends)[1..] == ends;
      EndIsHeard(env, r.status, r.finishes, healing, now);
    }
  }

  // ----- the executor object -----

  class RunbookStep {
    const retries: int
    const hasRollback: bool
    var status: Status
    var rolledBack: bool

    constructor (retries: int, hasRollback: bool)
      ensures this.retries == retries && this.hasRollback == hasRollback && status == Pending && !rolledBack
    {
      this.retries := retries;
      this.hasRollback := hasRollback;
      status := Pending;
      rolledBack := false;
    }
  }

  function Retries(steps: seq<RunbookStep>): seq<int> {
    seq(|steps|, i requires 0 <= i < |steps| => steps[i].retries)
  }

  class RunbookExecutor {
    var notices: seq<Statemachine.EventType>
    var postmortems: seq<Status>
    var activeRuns: set<string>

    constructor ()
      ensures notices == [] && postmortems == [] && activeRuns == {}
    {
      notices := [];
      postmortems := [];
      activeRuns := {};
    }

    method ExecuteStep(step: RunbookStep, env: Env, i: nat) returns (attempts: nat, backoff: nat)
      modifies step
      ensures StepReport(step.status, attempts, backoff) == StepFrom(env, i, step.retries, 0)
      ensures step.rolledBack == (old(step.rolledBack) || (step.status == Failed && step.hasRollback && !env.dryRun))
    {
      step.status := Running;
      attempts, backoff := 0, 0;
      var k := 0;
      while k < step.retries + 1
        invariant 0 <= k && (k <= step.retries + 1 || k == 0)
        invariant step.rolledBack == old(step.rolledBack)
        invariant if k > 0 && k > step.retries then StepReport(step.status, attempts, backoff) == StepFrom(env, i, step.retries, 0)
                  else
                    var rest := StepFrom(env, i, step.retries, k);
                    && step.status == Running
                    && StepReport(rest.status, attempts + rest.attempts, backoff + rest.backoff) == StepFrom(env, i, step.retries, 0)
        decreases step.retries + 1 - k
      {
        if env.attemptClock(i, k) > env.deadline {
          step.status := Timeout;
          break;
        }
        attempts := attempts + 1;
        if env.dryRun {
          step.status := Success;
          break;
        }
        match env.attempt(i, k) {
          case Passes =>
            step.status := Success;
            break;
          case Raises =>
            if k >= step.retries {
              step.status := Failed;
            }
          case _ =>
            if k < step.retries {
              backoff := backoff + Pow2(k);
            } else {
              step.status := Failed;
            }
        }
        k := k + 1;
      }
      if step.status == Failed && step.hasRollback && !env.dryRun {
        step.rolledBack := true;
      }
    }

    method Run(region: string, steps: seq<RunbookStep>, env: Env) returns (status: Status, reports: seq<StepReport>)
      modifies this, steps
      ensures var r := Outcome(env, Retries(steps));
              && status == r.status && reports == r.reports
              && notices == old(notices) + Notices(env, r)
              && postmortems == old(postmortems) + seq(r.finishes, _ => r.status)
              && activeRuns == old(activeRuns) - {region}
    {
      var early;
      status, reports, early := RunToEnd(steps, env);
      FinishOnceOrTwice(region, status, early, env);
    }

    /** Everything up to the end: the start notice, the preconditions and the steps. */
    method RunToEnd(steps: seq<RunbookStep>, env: Env) returns (status: Status, reports: seq<StepReport>, early: bool)
      modifies this`notices, steps
      ensures Outcome(env, Retries(steps)) == RunReport(status, reports, if early then 2 else 1)
      ensures notices == old(notices) + if env.startRaises then [] else [Statemachine.RunbookStarted]
    {
      if env.startRaises {
        return Failed, [], false;
      }
      notices := notices + [Statemachine.RunbookStarted];
      if env.startNoteRaises {
        return Failed, [], false;
      }
      if !env.preconditionsHold {
        return Skipped, [], true;
      }
      status, reports, early := RunSteps(steps, env);
    }

    method FinishOnceOrTwice(region: string, status: Status, early: bool, env: Env)
      modifies this
      ensures var n := if early then 2 else 1;
              && notices == old(notices) + EndNotices(env, status, n)
              && postmortems == old(postmortems) + seq(n, _ => status)
              && activeRuns == old(activeRuns) - {region}
    {
      EndsAppear(env, status);
      var finishes := 0;
      if early {
        Finish(region, status, env.delivered(0));
        finishes := 1;
      }
      Finish(region, status, env.delivered(finishes));
    }

    method RunSteps(steps: seq<RunbookStep>, env: Env) returns (status: Status, reports: seq<StepReport>, early: bool)
      modifies steps
      ensures StepsFrom(env, Retries(steps), []) == RunReport(status, reports, if early then 2 else 1)
    {
      reports, early := [], true;
      var i := 0;
      while i < |steps|
        invariant |reports| == i <= |steps| && early
        invariant StepsFrom(env, Retries(steps), reports) == StepsFrom(env, Retries(steps), [])
      {
        if env.stepClock(i) > env.deadline {
          return Timeout, reports, true;
        }
        var attempts, backoff := ExecuteStep(steps[i], env, i);
        reports := reports + [StepReport(steps[i].status, attempts, backoff)];
        if env.noteRaises(i) {
          return Failed, reports, false;
        }
        if steps[i].status == Failed {
          return Failed, reports, true;
        }
        i := i + 1;
      }
      status, early := if env.verified then Success else Failed, false;
    }

    method Finish(region: string, status: Status, delivered: bool)
      modifies this
      ensures notices == old(notices) + if delivered then [EndNotice(status)] else []
      ensures postmortems == old(postmortems) + [status]
      ensures activeRuns == old(activeRuns) - {region}
    {
      if delivered {
        if status == Success {
          notices := notices + [Statemachine.RunbookSucceeded];
        } else {
          notices := notices + [Statemachine.RunbookFailed];
        }
      }
      postmortems := postmortems + [status];
      activeRuns := activeRuns - {region};
    }
  }
}
