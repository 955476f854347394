/**
 The incident store (sre-operations-05/sre/runbooks/incident_manager.py): one active incident per region,
 a file per incident, and the reload after a crash.  Writing a file is taken to succeed.
 */
module Incidents {
  import opened Options
  import opened Listings

  datatype Severity = P0 | P1 | P2 | P3

  datatype Status = Open | Mitigated | Resolved

  datatype RunResult = Success | Failure | TimedOut

  /** What the models reported when the fault was detected. */
  datatype Detection = Detection(detectedAt: int, degradedAt: int, faultType: string, ifScore: real, xgbSeverity: string, rttEwmaUs: int)

  /** What the reload does not bring back. */
  datatype Progress = Progress(
    lstmConfidence: real, retransmitRate: real,
    runbookId: Option<string>, runbookResult: Option<RunResult>, stepsCompleted: int, stepsTotal: int,
    escalatedAt: Option<int>, acknowledged: bool, resolvedAt: Option<int>)

  const NO_PROGRESS := Progress(0.0, 0.0, None, None, 0, 0, None, false, None)

  datatype Record = Record(id: string, region: string, severity: Severity, status: Status, detection: Detection, progress: Progress)

  function SeverityOf(xgbSeverity: string, faultType: string): Severity {
    if xgbSeverity == "CRITICAL" || faultType == "REGION_PARTITION" || faultType == "CASCADING" then P0
    else if xgbSeverity == "DEGRADED" then P1
    else if xgbSeverity == "WARNING" then P2
    else P3
  }

  /** An incident is as grave as its worst sign. */
  lemma SeverityMeaning(xgbSeverity: string, faultType: string)
    ensures SeverityOf(xgbSeverity, faultType) == P0 <==> xgbSeverity == "CRITICAL" || faultType in {"REGION_PARTITION", "CASCADING"}
    ensures SeverityOf(xgbSeverity, faultType) == P1 <==> xgbSeverity == "DEGRADED" && faultType !in {"REGION_PARTITION", "CASCADING"}
    ensures SeverityOf(xgbSeverity, faultType) == P2 <==> xgbSeverity == "WARNING" && faultType !in {"REGION_PARTITION", "CASCADING"}
  {
  }

  // ----- identifiers -----

  function WithoutDashes(s: string): string {
    if s == "" then ""
    else WithoutDashes(s[..|s| - 1]) + if s[|s| - 1] == '-' then "" else [s[|s| - 1]]
  }

  function ShortName(region: string): string {
    var name := WithoutDashes(region);
    if |name| <= 6 then name else name[..6]
  }

  /** `stamp` is the time to the second, as YYYYMMDD-hhmmss. */
  function NewId(region: string, stamp: string): string {
    "INC-" + stamp + "-" + ShortName(region)
  }

  const STAMP_LENGTH := 15

  /** Two incidents get the same identifier exactly when they are opened in the same second in regions
      whose names agree in their first six letters, dashes aside. */
  lemma IdsClashIff(r1: string, t1: string, r2: string, t2: string)
    requires |t1| == |t2| == STAMP_LENGTH
    ensures NewId(r1, t1) == NewId(r2, t2) <==> t1 == t2 && ShortName(r1) == ShortName(r2)
  {
    IdParts(r1, t1);
    IdParts(r2, t2);
  }

  lemma IdParts(region: string, stamp: string)
    requires |stamp| == STAMP_LENGTH
    ensures |NewId(region, stamp)| >= 20
    ensures NewId(region, stamp)[4..19] == stamp && NewId(region, stamp)[20..] == ShortName(region)
  {
  }

  lemma {:induction false} DashesAppend(a: string, b: string)
    ensures WithoutDashes(a + b) == WithoutDashes(a) + WithoutDashes(b)
  {
    if b == "" {
      assert a + b == a;
    } else {
      DashesAppend(a, b[..|b| - 1]);
      assert (a + b)[..|a + b| - 1] == a + b[..|b| - 1];
    }
  }

  /** Regions that differ only after their first six letters clash whenever they fail in the same second,
      as us-east-1 and us-east-2 do. */
  lemma NeighboursClash(prefix: string, a: string, b: string, stamp: string)
    requires |WithoutDashes(prefix)| >= 6
    ensures NewId(prefix + a, stamp) == NewId(prefix + b, stamp)
    ensures NewId("us-east-1", stamp) == NewId("us-east-2", stamp)
  {
    SameShortName(prefix, a, b);
    EastHasSixLetters();
    SameShortName("us-east-", "1", "2");
    assert "us-east-" + "1" == "us-east-1" && "us-east-" + "2" == "us-east-2";
  }

  lemma ShortNameOf(prefix: string, rest: string)
    requires |WithoutDashes(prefix)| >= 6
    ensures ShortName(prefix + rest) == WithoutDashes(prefix)[..6]
  {
    DashesAppend(prefix, rest);
    FirstSix(WithoutDashes(prefix), WithoutDashes(rest));
  }

  lemma FirstSix(a: string, b: string)
    requires |a| >= 6
    ensures (if |a + b| <= 6 then a + b else (a + b)[..6]) == a[..6]
  {
  }

  lemma SameShortName(prefix: string, a: string, b: string)
    requires |WithoutDashes(prefix)| >= 6
    ensures ShortName(prefix + a) == ShortName(prefix + b)
  {
    ShortNameOf(prefix, a);
    ShortNameOf(prefix, b);
  }

  lemma EastHasSixLetters()
    ensures |WithoutDashes("us-east-")| == 6
  {
    DashDropped("us");
    DashDropped("east");
    DashesAppend("us" + "-", "east" + "-");
    assert "us" + "-" + ("east" + "-") == "us-east-";
  }

  lemma DashDropped(s: string)
    requires forall i :: 0 <= i < |s| ==> s[i] != '-'
    ensures WithoutDashes(s + "-") == s
  {
    LettersStay(s);
    assert (s + "-")[..|s|] == s;
  }

  lemma {:induction false} LettersStay(s: string)
    requires forall i :: 0 <= i < |s| ==> s[i] != '-'
    ensures WithoutDashes(s) == s
  {
    if s != "" {
      LettersStay(s[..|s| - 1]);
    }
  }

  // ----- the store -----

  datatype Store = Store(active: map<string, Record>, disk: map<string, Record>)

  const EMPTY_STORE := Store(map[], map[])

  datatype Op =
    | Opened(region: string, id: string, detection: Detection, lstmConfidence: real, retransmitRate: real)
    | RunbookStarted(region: string, runbookId: string, stepsTotal: int)
    | RunbookProgressed(region: string, stepsCompleted: int)
    | RunbookEnded(region: string, result: RunResult, stepsCompleted: int)
    | EscalatedAt(region: string, now: int)
    | Acknowledged(region: string)
    | ResolvedAt(region: string, now: int)
    | Restarted(order: seq<string>)

  function NewRecord(op: Op): Record
    requires op.Opened?
  {
    Record(op.id, op.region, SeverityOf(op.detection.xgbSeverity, op.detection.faultType), Open, op.detection,
           NO_PROGRESS.(lstmConfidence := op.lstmConfidence, retransmitRate := op.retransmitRate))
  }

  /** The update a report makes to the active record of its region. */
  function Noted(rec: Record, op: Op): Record {
    var p := rec.progress;
    match op
    case RunbookStarted(_, runbookId, steps) => rec.(progress := p.(runbookId := Some(runbookId), stepsTotal := steps))
    case RunbookProgressed(_, steps) => rec.(progress := p.(stepsCompleted := steps))
    case RunbookEnded(_, result, steps) =>
      rec.(progress := p.(runbookResult := Some(result), stepsCompleted := steps),
           status := if result == Success then Mitigated else rec.status)
    case EscalatedAt(_, now) => rec.(progress := p.(escalatedAt := Some(now)))
    case Acknowledged(_) => rec.(progress := p.(acknowledged := true))
    case ResolvedAt(_, now) => rec.(progress := p.(resolvedAt := Some(now)), status := Resolved)
    case _ => rec
  }

  /** Opening is refused while an incident of the region is open; a mitigated one is replaced. */
  predicate Opens(s: Store, op: Op) {
    op.Opened? && (op.region in s.active ==> s.active[op.region].status != Open)
  }

  /** What a reload keeps of a record. */
  function Minimal(rec: Record): Record { rec.(progress := NO_PROGRESS) }

  function Reloaded(disk: map<string, Record>, order: seq<string>): map<string, Record> {
    if order == [] then map[]
    else
      var before, id := Reloaded(disk, order[..|order| - 1]), order[|order| - 1];
      if id in disk && disk[id].status != Resolved then before[disk[id].region := Minimal(disk[id])] else before
  }

  function Step(s: Store, op: Op): Store {
    if op.Restarted? then
      Store(Reloaded(s.disk, op.order), s.disk)
    else if op.Opened? then
      if Opens(s, op) then Store(s.active[op.region := NewRecord(op)], s.disk[op.id := NewRecord(op)]) else s
    else if op.region !in s.active then
      s
    else
      var rec := Noted(s.active[op.region], op);
      Store(if op.ResolvedAt? then s.active - {op.region} else s.active[op.region := rec], s.disk[rec.id := rec])
  }

  function Run(ops: seq<Op>): Store {
    if ops == [] then EMPTY_STORE else Step(Run(ops[..|ops| - 1]), ops[|ops| - 1])
  }

  // ----- crash recovery -----

  /** Active incidents and unresolved files agree, as far as a reload can tell. */
  ghost predicate Clean(s: Store) {
    && (forall r :: r in s.active ==>
          s.active[r].id in s.disk && s.disk[s.active[r].id].status != Resolved && s.disk[s.active[r].id].region == r)
    && (forall id :: id in s.disk && s.disk[id].status != Resolved ==> FileIsActive(s, id))
  }

  ghost predicate FileIsActive(s: Store, id: string)
    requires id in s.disk
  {
    s.disk[id].region in s.active && Minimal(s.active[s.disk[id].region]) == Minimal(s.disk[id])
  }

  /** Both maps are filed under the right names, and active incidents are not resolved. */
  ghost predicate Filed(s: Store) {
    && (forall r :: r in s.active ==> s.active[r].region == r && s.active[r].status != Resolved)
    && (forall id :: id in s.disk ==> s.disk[id].id == id)
  }

  function Minimals(active: map<string, Record>): map<string, Record> {
    map r | r in active :: Minimal(active[r])
  }

  lemma {:induction false} ReloadedRegions(disk: map<string, Record>, order: seq<string>, r: string)
    ensures r in Reloaded(disk, order) <==> exists id :: id in order && id in disk && disk[id].status != Resolved && disk[id].region == r
    ensures r in Reloaded(disk, order) ==>
              exists id :: id in order && id in disk && disk[id].status != Resolved && disk[id].region == r && Reloaded(disk, order)[r] == Minimal(disk[id])
  {
    if order != [] {
      ReloadedRegions(disk, order[..|order| - 1], r);
    }
  }

  lemma CleanReload(s: Store, order: seq<string>)
    requires Filed(s) && Clean(s) && Lists(order, s.disk.Keys)
    ensures Reloaded(s.disk, order) == Minimals(s.active)
  {
    forall r ensures r in Reloaded(s.disk, order) <==> r in s.active {
      ReloadedRegions(s.disk, order, r);
      if r in s.active {
        assert s.active[r].id in order;
      }
    }
    forall r | r in s.active ensures Reloaded(s.disk, order)[r] == Minimal(s.active[r]) {
      ReloadedRegions(s.disk, order, r);
    }
  }

  /** The names in some order, each once, the given one last. */
  ghost function ListingEndingIn(names: set<string>, last: string): (order: seq<string>)
    requires last in names
    ensures Lists(order, names) && order != [] && order[|order| - 1] == last
  {
    ListOneMore(Listing(names - {last}), names - {last}, last);
    assert names - {last} + {last} == names;
    Listing(names - {last}) + [last]
  }

  ghost function Listing(names: set<string>): (order: seq<string>)
    ensures Lists(order, names)
  {
    if names == {} then []
    else
      var x :| x in names;
      ListOneMore(Listing(names - {x}), names - {x}, x);
      assert names - {x} + {x} == names;
      Listing(names - {x}) + [x]
  }

  lemma LastFileWins(disk: map<string, Record>, id: string)
    requires id in disk && disk[id].status != Resolved
    ensures var order := ListingEndingIn(disk.Keys, id);
            disk[id].region in Reloaded(disk, order) && Reloaded(disk, order)[disk[id].region] == Minimal(disk[id])
  {
  }

  ghost predicate ReloadsExactly(s: Store, order: seq<string>) {
    Reloaded(s.disk, order) == Minimals(s.active)
  }

  /** A crash brings every active incident back, in whatever order the files are listed, exactly when the
      unresolved files and the active incidents agree. */
  lemma ReloadIsExactIff(s: Store)
    requires Filed(s)
    ensures (forall order :: Lists(order, s.disk.Keys) ==> ReloadsExactly(s, order)) <==> Clean(s)
  {
    if Clean(s) {
      forall order | Lists(order, s.disk.Keys) ensures ReloadsExactly(s, order) {
        CleanReload(s, order);
      }
    } else if forall order :: Lists(order, s.disk.Keys) ==> ReloadsExactly(s, order) {
      ExactReloadsMeanClean(s);
    }
  }

  lemma ExactReloadsMeanClean(s: Store)
    requires Filed(s) && forall order :: Lists(order, s.disk.Keys) ==> ReloadsExactly(s, order)
    ensures Clean(s)
  {
    forall id | id in s.disk && s.disk[id].status != Resolved ensures FileIsActive(s, id) {
      LastFileWins(s.disk, id);
      assert ReloadsExactly(s, ListingEndingIn(s.disk.Keys, id));
    }
    forall r | r in s.active
      ensures s.active[r].id in s.disk && s.disk[s.active[r].id].status != Resolved && s.disk[s.active[r].id].region == r
    {
      ReloadedIsFiled(s, Listing(s.disk.Keys), r);
    }
  }

  lemma ReloadedIsFiled(s: Store, order: seq<string>, r: string)
    requires Filed(s) && ReloadsExactly(s, order) && r in s.active
    ensures s.active[r].id in s.disk && s.disk[s.active[r].id].status != Resolved && s.disk[s.active[r].id].region == r
  {
    ReloadedRegions(s.disk, order, r);
    assert r in Minimals(s.active) && Minimals(s.active)[r] == Minimal(s.active[r]);
  }

  lemma StepKeepsFiled(s: Store, op: Op)
    requires Filed(s)
    ensures Filed(Step(s, op))
  {
    if op.Restarted? {
      forall r | r in Reloaded(s.disk, op.order)
        ensures Reloaded(s.disk, op.order)[r].region == r && Reloaded(s.disk, op.order)[r].status != Resolved
      {
        ReloadedRegions(s.disk, op.order, r);
      }
    }
  }

  /** A new incident may take over a file or a region only from itself. */
  ghost predicate Admissible(s: Store, op: Op) {
    Opens(s, op) ==>
      && (op.region in s.active ==> s.active[op.region].id == op.id)
      && (op.id in s.disk && s.disk[op.id].status != Resolved ==> s.disk[op.id].region == op.region)
  }

  /** Opening an incident keeps the files in step exactly when it does not replace a mitigated incident
      of the region, nor write over the file of an unresolved one. */
  lemma OpeningStaysCleanIff(s: Store, op: Op)
    requires Filed(s) && Clean(s) && op.Opened?
    ensures Clean(Step(s, op)) <==> Admissible(s, op)
  {
    if Opens(s, op) {
      var t := Step(s, op);
      if op.region in s.active && s.active[op.region].id != op.id {
        assert s.disk[s.active[op.region].id] == t.disk[s.active[op.region].id];
        assert !FileIsActive(t, s.active[op.region].id);
      } else if op.id in s.disk && s.disk[op.id].status != Resolved && s.disk[op.id].region != op.region {
        assert FileIsActive(s, op.id);
        assert t.active[s.disk[op.id].region].id == op.id;
      } else {
        AdmissibleOpening(s, op);
      }
    }
  }

  lemma AdmissibleOpening(s: Store, op: Op)
    requires Filed(s) && Clean(s) && Opens(s, op) && Admissible(s, op)
    ensures Clean(Step(s, op))
  {
    var t := Step(s, op);
    forall r | r in t.active
      ensures t.active[r].id in t.disk && t.disk[t.active[r].id].status != Resolved && t.disk[t.active[r].id].region == r
    {
    }
    forall id | id in t.disk && t.disk[id].status != Resolved ensures FileIsActive(t, id) {
      if id != op.id {
        assert FileIsActive(s, id);
        assert s.disk[id].region != op.region;
      }
    }
  }

  lemma ReportKeepsClean(s: Store, op: Op)
    requires Filed(s) && Clean(s) && !op.Opened? && !op.Restarted?
    ensures Clean(Step(s, op))
  {
    if op.region in s.active {
      var t := Step(s, op);
      var own := s.active[op.region].id;
      forall r | r in t.active
        ensures t.active[r].id in t.disk && t.disk[t.active[r].id].status != Resolved && t.disk[t.active[r].id].region == r
      {
        if r != op.region {
          assert s.disk[s.active[r].id].region == r && s.disk[own].region == op.region;
        }
      }
      forall id | id in t.disk && t.disk[id].status != Resolved ensures FileIsActive(t, id) {
        if id != own {
          assert FileIsActive(s, id);
          assert s.disk[id].region == op.region ==> id == own;
        }
      }
    }
  }

  lemma RestartKeepsClean(s: Store, order: seq<string>)
    requires Filed(s) && Clean(s) && Lists(order, s.disk.Keys)
    ensures Clean(Step(s, Restarted(order)))
  {
    CleanReload(s, order);
    var t := Step(s, Restarted(order));
    forall id | id in t.disk && t.disk[id].status != Resolved ensures FileIsActive(t, id) {
      assert FileIsActive(s, id);
    }
  }

  ghost predicate WellRun(ops: seq<Op>) {
    ops == [] ||
    (var before, op := ops[..|ops| - 1], ops[|ops| - 1];
     WellRun(before) && Admissible(Run(before), op) && (op.Restarted? ==> Lists(op.order, Run(before).disk.Keys)))
  }

  /** Whether the last thing that happened to the region was an opening rather than a resolution. */
  predicate Unresolved(ops: seq<Op>, region: string) {
    if ops == [] then false
    else
      var op := ops[|ops| - 1];
      if op.Opened? && op.region == region then true
      else if op.ResolvedAt? && op.region == region then false
      else Unresolved(ops[..|ops| - 1], region)
  }

  /** In every run with any number of crashes and restarts the region has an active incident exactly when
      it was opened since it was last resolved, provided every opening was admissible. */
  lemma {:induction false} NoIncidentIsLost(ops: seq<Op>)
    requires WellRun(ops)
    ensures Filed(Run(ops)) && Clean(Run(ops))
    ensures forall r :: r in Run(ops).active <==> Unresolved(ops, r)
  {
    if ops != [] {
      var before, op := ops[..|ops| - 1], ops[|ops| - 1];
      NoIncidentIsLost(before);
      var s := Run(before);
      StepKeepsFiled(s, op);
      if op.Restarted? {
        CleanReload(s, op.order);
        RestartKeepsClean(s, op.order);
      } else if op.Opened? {
        OpeningStaysCleanIff(s, op);
      } else {
        ReportKeepsClean(s, op);
      }
    }
  }

  function RunFrom(s: Store, ops: seq<Op>): Store {
    if ops == [] then s else Step(RunFrom(s, ops[..|ops| - 1]), ops[|ops| - 1])
  }

  // ----- what an incident's record tells -----

  /** The operation is a report about the region that neither opens nor closes an incident. */
  predicate Reports(op: Op, r: string) {
    !op.Restarted? && op.region == r && (op.RunbookStarted? || op.RunbookProgressed? || op.RunbookEnded? || op.EscalatedAt? || op.Acknowledged?)
  }

  function LastStarted(ops: seq<Op>, r: string): (Option<string>, int) {
    if ops == [] then (None, 0)
    else
      var op := ops[|ops| - 1];
      if op.RunbookStarted? && op.region == r then (Some(op.runbookId), op.stepsTotal) else LastStarted(ops[..|ops| - 1], r)
  }

  function StepsReported(ops: seq<Op>, r: string): int {
    if ops == [] then 0
    else
      var op := ops[|ops| - 1];
      if (op.RunbookProgressed? || op.RunbookEnded?) && op.region == r then op.stepsCompleted else StepsReported(ops[..|ops| - 1], r)
  }

  function LastResult(ops: seq<Op>, r: string): Option<RunResult> {
    if ops == [] then None
    else
      var op := ops[|ops| - 1];
      if op.RunbookEnded? && op.region == r then Some(op.result) else LastResult(ops[..|ops| - 1], r)
  }

  predicate SomeSuccess(ops: seq<Op>, r: string) {
    ops != [] &&
    (SomeSuccess(ops[..|ops| - 1], r) || (ops[|ops| - 1].RunbookEnded? && ops[|ops| - 1].region == r && ops[|ops| - 1].result == Success))
  }

  function LastEscalation(ops: seq<Op>, r: string): Option<int> {
    if ops == [] then None
    else
      var op := ops[|ops| - 1];
      if op.EscalatedAt? && op.region == r then Some(op.now) else LastEscalation(ops[..|ops| - 1], r)
  }

  predicate SomeAck(ops: seq<Op>, r: string) {
    ops != [] && (SomeAck(ops[..|ops| - 1], r) || (ops[|ops| - 1].Acknowledged? && ops[|ops| - 1].region == r))
  }

  /** The record that an opening and the reports after it leave. */
  function Told(opening: Op, ops: seq<Op>): Record
    requires opening.Opened?
  {
    var r := opening.region;
    Record(opening.id, r, SeverityOf(opening.detection.xgbSeverity, opening.detection.faultType),
           if SomeSuccess(ops, r) then Mitigated else Open, opening.detection,
           Progress(opening.lstmConfidence, opening.retransmitRate, LastStarted(ops, r).0, LastResult(ops, r),
                    StepsReported(ops, r), LastStarted(ops, r).1, LastEscalation(ops, r), SomeAck(ops, r), None))
  }

  /** After an incident was opened, and until its region is opened or resolved again or a restart comes, its
      record tells the reports about the region since then, the latest of each kind; its file says the same. */
  lemma {:induction false} RecordTellsReports(s: Store, opening: Op, ops: seq<Op>)
    requires Filed(s) && Opens(s, opening)
    requires forall i :: 0 <= i < |ops| ==>
               !ops[i].Restarted? && (ops[i].region == opening.region ==> Reports(ops[i], opening.region))
    requires forall i :: 0 <= i < |ops| && ops[i].Opened? ==> ops[i].id != opening.id
    requires forall r :: r in s.active && r != opening.region ==> s.active[r].id != opening.id
    ensures var t := RunFrom(Step(s, opening), ops);
            && opening.region in t.active && t.active[opening.region] == Told(opening, ops)
            && opening.id in t.disk && t.disk[opening.id] == Told(opening, ops)
            && (forall r :: r in t.active && r != opening.region ==> t.active[r].id != opening.id)
  {
    if ops != [] {
      RecordTellsReports(s, opening, ops[..|ops| - 1]);
      OneMoreReport(RunFrom(Step(s, opening), ops[..|ops| - 1]), opening, ops);
    }
  }

  lemma OneMoreReport(t: Store, opening: Op, ops: seq<Op>)
    requires opening.Opened? && ops != [] && var op := ops[|ops| - 1];
             && !op.Restarted? && (op.region == opening.region ==> Reports(op, opening.region)) && (op.Opened? ==> op.id != opening.id)
    requires var told := Told(opening, ops[..|ops| - 1]);
             && opening.region in t.active && t.active[opening.region] == told
             && opening.id in t.disk && t.disk[opening.id] == told
             && (forall r :: r in t.active && r != opening.region ==> t.active[r].id != opening.id)
    ensures var u := Step(t, ops[|ops| - 1]);
            && opening.region in u.active && u.active[opening.region] == Told(opening, ops)
            && opening.id in u.disk && u.disk[opening.id] == Told(opening, ops)
            && (forall r :: r in u.active && r != opening.region ==> u.active[r].id != opening.id)
  {
    var op := ops[|ops| - 1];
    if op.region == opening.region {
      assert Noted(Told(opening, ops[..|ops| - 1]), op) == Told(opening, ops);
    } else {
      assert Told(opening, ops[..|ops| - 1]) == Told(opening, ops);
    }
  }

  /** A resolution takes the incident out and leaves its file resolved, with the time, and else as it was. */
  lemma ResolvingCloses(s: Store, r: string, now: int)
    requires r in s.active
    ensures var rec, t := s.active[r], Step(s, ResolvedAt(r, now));
            && t.active == s.active - {r} && rec.id in t.disk && t.disk[rec.id].status == Resolved
            && t.disk[rec.id].progress.resolvedAt == Some(now)
            && t.disk[rec.id].(status := rec.status, progress := t.disk[rec.id].progress.(resolvedAt := rec.progress.resolvedAt)) == rec
  {
  }

  /** An unresolved file whose incident is not the active one of its region. */
  ghost predicate Phantom(s: Store, id: string) {
    && id in s.disk && s.disk[id].status != Resolved
    && forall r :: r in s.active ==> s.active[r].id != id
  }

  /** Once a file is stranded, no report and no resolution reaches it until a restart ... */
  lemma {:induction false} PhantomsStay(s: Store, ops: seq<Op>, id: string)
    requires Phantom(s, id) && Filed(s)
    requires forall i :: 0 <= i < |ops| ==> !ops[i].Restarted? && (ops[i].Opened? ==> ops[i].id != id)
    ensures Phantom(RunFrom(s, ops), id) && RunFrom(s, ops).disk[id] == s.disk[id] && Filed(RunFrom(s, ops))
  {
    if ops != [] {
      var before, op := ops[..|ops| - 1], ops[|ops| - 1];
      PhantomsStay(s, before, id);
      StepKeepsFiled(RunFrom(s, before), op);
    }
  }

  /** ... which may bring the old incident back to life.  Replacing a mitigated incident strands its file. */
  lemma ReplacingLeavesPhantom(s: Store, op: Op)
    requires Filed(s) && Clean(s) && Opens(s, op) && op.region in s.active && s.active[op.region].id != op.id
    ensures Phantom(Step(s, op), s.active[op.region].id)
    ensures exists order :: Lists(order, Step(s, op).disk.Keys) && op.region in Reloaded(Step(s, op).disk, order)
                         && Reloaded(Step(s, op).disk, order)[op.region].id == s.active[op.region].id
  {
    var t, stale := Step(s, op), s.active[op.region].id;
    assert t.disk[stale] == s.disk[stale];
    LastFileWins(t.disk, stale);
    assert Lists(ListingEndingIn(t.disk.Keys, stale), t.disk.Keys);
  }

  // ----- the objects -----

  class Incident {
    const id: string
    const region: string
    const severity: Severity
    const detection: Detection
    var status: Status
    var progress: Progress

    constructor (rec: Record)
      ensures View() == rec
    {
      id, region, severity, detection := rec.id, rec.region, rec.severity, rec.detection;
      status, progress := rec.status, rec.progress;
    }

    function View(): Record
      reads this
    {
      Record(id, region, severity, status, detection, progress)
    }
  }

  class IncidentManager {
    var active: map<string, Incident>
    var disk: map<string, Record>

    ghost predicate Valid()
      reads this
    {
      forall r :: r in active ==> active[r].region == r
    }

    ghost function View(): Store
      reads this, active.Values
    {
      Store(map r | r in active :: active[r].View(), disk)
    }

    /** Starts from whatever files there are, in the order in which the directory lists them. */
    constructor (disk: map<string, Record>, order: seq<string>)
      ensures Valid() && View() == Store(Reloaded(disk, order), disk)
    {
      active, this.disk := map[], disk;
      new;
      LoadActive(order);
    }

    method LoadActive(order: seq<string>)
      requires active == map[]
      modifies this`active
      ensures Valid() && View() == Store(Reloaded(disk, order), disk)
    {
      for i := 0 to |order|
        invariant Valid() && forall r :: r in active ==> fresh(active[r])
        invariant View() == Store(Reloaded(disk, order[..i]), disk)
      {
        assert order[..i + 1][..i] == order[..i];
        if order[i] in disk && disk[order[i]].status != Resolved {
          var inc := new Incident(Minimal(disk[order[i]]));
          Activate(inc);
        }
      }
      assert order[..|order|] == order;
    }

    method Activate(inc: Incident)
      requires Valid()
      modifies this`active
      ensures Valid() && active == old(active)[inc.region := inc]
      ensures View() == Store(old(View()).active[inc.region := inc.View()], disk)
    {
      ghost var before := View();
      active := active[inc.region := inc];
      assert View().active == before.active[inc.region := inc.View()];
    }

    method Open(region: string, id: string, detection: Detection, lstmConfidence: real, retransmitRate: real) returns (inc: Incident)
      requires Valid()
      modifies this
      ensures Valid() && View() == Step(old(View()), Opened(region, id, detection, lstmConfidence, retransmitRate))
      ensures region in active && inc == active[region] && inc.status == Status.Open
      ensures fresh(inc) || (inc in old(active).Values && disk == old(disk))
    {
      if region in active && active[region].status == Status.Open {
        return active[region];
      }
      var severity := SeverityOf(detection.xgbSeverity, detection.faultType);
      inc := new Incident(Record(id, region, severity, Status.Open, detection,
                                 NO_PROGRESS.(lstmConfidence := lstmConfidence, retransmitRate := retransmitRate)));
      Activate(inc);
      Persist(inc);
    }

    method Persist(inc: Incident)
      requires Valid()
      modifies this`disk
      ensures Valid() && disk == old(disk)[inc.id := inc.View()]
      ensures View() == Store(old(View()).active, disk)
    {
      disk := disk[inc.id := inc.View()];
    }

    method RecordRunbookStarted(region: string, runbookId: string, stepsTotal: int)
      requires Valid()
      modifies this`disk, active.Values
      ensures Valid() && View() == Step(old(View()), RunbookStarted(region, runbookId, stepsTotal))
    {
      if region in active {
        var inc := active[region];
        Update(inc, inc.status, inc.progress.(runbookId := Some(runbookId), stepsTotal := stepsTotal));
      }
    }

    method RecordRunbookProgress(region: string, stepsCompleted: int)
      requires Valid()
      modifies this`disk, active.Values
      ensures Valid() && View() == Step(old(View()), RunbookProgressed(region, stepsCompleted))
    {
      if region in active {
        var inc := active[region];
        Update(inc, inc.status, inc.progress.(stepsCompleted := stepsCompleted));
      }
    }

    method RecordRunbookResult(region: string, result: RunResult, stepsCompleted: int)
      requires Valid()
      modifies this`disk, active.Values
      ensures Valid() && View() == Step(old(View()), RunbookEnded(region, result, stepsCompleted))
    {
      if region in active {
        var inc := active[region];
        var status := if result == Success then Mitigated else inc.status;
        Update(inc, status, inc.progress.(runbookResult := Some(result), stepsCompleted := stepsCompleted));
      }
    }

    method RecordEscalation(region: string, now: int)
      requires Valid()
      modifies this`disk, active.Values
      ensures Valid() && View() == Step(old(View()), EscalatedAt(region, now))
    {
      if region in active {
        var inc := active[region];
        Update(inc, inc.status, inc.progress.(escalatedAt := Some(now)));
      }
    }

    method RecordSreAck(region: string)
      requires Valid()
      modifies this`disk, active.Values
      ensures Valid() && View() == Step(old(View()), Acknowledged(region))
    {
      if region in active {
        var inc := active[region];
        Update(inc, inc.status, inc.progress.(acknowledged := true));
      }
    }

    method Resolve(region: string, now: int) returns (closed: Option<Incident>)
      requires Valid()
      modifies this, active.Values
      ensures Valid() && View() == Step(old(View()), ResolvedAt(region, now))
      ensures closed == if region in old(active) then Some(old(active)[region]) else None
    {
      if region !in active {
        return None;
      }
      var inc := active[region];
      Update(inc, Resolved, inc.progress.(resolvedAt := Some(now)));
      active := active - {region};
      closed := Some(inc);
    }

    /** Changes an active incident and writes its file. */
    method Update(inc: Incident, status: Status, progress: Progress)
      requires Valid() && inc in active.Values
      modifies this`disk, inc
      ensures Valid()
      ensures var rec := old(inc.View()).(status := status, progress := progress);
              View() == Store(old(View()).active[inc.region := rec], old(disk)[inc.id := rec])
    {
      ghost var before := View();
      inc.status, inc.progress := status, progress;
      assert View().active == before.active[inc.region := inc.View()];
      Persist(inc);
    }
  }
}
