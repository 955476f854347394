/**
 The DynamoDB lease lock around Route 53 writes, and what is written
 (control-plane-04/controlplane/route53/client.go).

 Put and Delete are the two conditional writes.  The second half is the protocol: any number of agents,
 clocks that are up to a skew off, lost messages and crashes.  Times are integer nanoseconds; the table
 stores whole seconds.
 */
module LeaseLock {
  import opened Options
  import opened Nanoseconds

  datatype Item = Item(owner: string, expiresAt: int, acquiredAt: int)

  type Table = map<string, Item>

  function Unix(t: int): int { t / SECOND }

  /** The put's condition: no such lock, or it has expired by the caller's clock. */
  predicate Available(table: Table, key: string, local: int) {
    key !in table || table[key].expiresAt < Unix(local)
  }

  function Lease(local: int, ttlSeconds: int): int { Unix(local + ttlSeconds * SECOND) }

  function Put(table: Table, key: string, owner: string, local: int, ttlSeconds: int): Table {
    if Available(table, key, local) then table[key := Item(owner, Lease(local, ttlSeconds), Unix(local))] else table
  }

  /** The delete's condition: the caller owns the lock. */
  function Delete(table: Table, key: string, owner: string): Table {
    if key in table && table[key].owner == owner then table - {key} else table
  }

  lemma UnixBounds(t: int)
    ensures Unix(t) * SECOND <= t < (Unix(t) + 1) * SECOND
  {
  }

  /** A lock put at the reading `local` is taken for `ttlSeconds` by any clock, and free a second later. */
  lemma LeaseLastsItsTime(table: Table, key: string, owner: string, local: int, ttlSeconds: int, reading: int)
    requires Available(table, key, local)
    ensures var after := Put(table, key, owner, local, ttlSeconds);
            && key in after && after[key].owner == owner
            && (reading < local + ttlSeconds * SECOND ==> !Available(after, key, reading))
            && (reading >= local + (ttlSeconds + 1) * SECOND ==> Available(after, key, reading))
  {
    UnixBounds(local);
    UnixBounds(local + ttlSeconds * SECOND);
    UnixBounds(reading);
  }

  /** A put finding the lock taken changes nothing, and a put never touches another lock. */
  lemma PutTouchesOneFreeLock(table: Table, key: string, owner: string, local: int, ttlSeconds: int)
    ensures var after := Put(table, key, owner, local, ttlSeconds);
            && (!Available(table, key, local) ==> after == table)
            && after.Keys == table.Keys + {key} && forall k :: k in table && k != key ==> after[k] == table[k]
  {
  }

  /** How a request to the table fares: it gets there and back, or it is lost on the way, or the answer is. */
  datatype Delivery = Answered | RequestLost | AnswerLost

  // ----- the client object -----

  class LockTable {
    var items: Table

    method PutItem(key: string, owner: string, local: int, ttlSeconds: int) returns (stored: bool)
      modifies this
      ensures items == Put(old(items), key, owner, local, ttlSeconds)
      ensures stored <==> Available(old(items), key, local)
    {
      stored := key !in items || items[key].expiresAt < Unix(local);
      if stored {
        items := items[key := Item(owner, Lease(local, ttlSeconds), Unix(local))];
      }
    }

    method DeleteItem(key: string, owner: string)
      modifies this
      ensures items == Delete(old(items), key, owner)
    {
      if key in items && items[key].owner == owner {
        items := items - {key};
      }
    }
  }

  // ----- records -----

  /** A region's latency record: the health check associated with it, its time to live, and its address. */
  datatype RecordSet = RecordSet(healthCheckId: string, ttl: int, value: string)

  datatype DnsConfig = DnsConfig(lockTtlSeconds: int, recordTtl: int, healthCheckIds: map<string, string>)

  function Address(region: string): string {
    "alb." + region + ".nimbusnet.internal"
  }

  /** The one record that the client ever writes for a region; without a configured health check its id is
      Go's empty string. */
  function RecordFor(c: DnsConfig, region: string): RecordSet {
    RecordSet(if region in c.healthCheckIds then c.healthCheckIds[region] else "", c.recordTtl, Address(region))
  }

  datatype Kind = Drain | Restore

  /** One call of DrainRegion or RestoreRegion, with the caller's clock and the fate of its three requests:
      the lock, the record change (a refused change counts as lost), and the release. */
  datatype Request = Request(kind: Kind, region: string, owner: string, local: int, acquire: Delivery, change: Delivery, release: Delivery)

  datatype Zone = Zone(table: Table, records: map<string, RecordSet>)

  function KeyOf(q: Request): string {
    (if q.kind.Drain? then "drain:" else "restore:") + q.region
  }

  /** The caller gets the lock: it is free by the caller's clock, and the answer comes back. */
  predicate Enters(z: Zone, q: Request) {
    q.acquire == Answered && Available(z.table, KeyOf(q), q.local)
  }

  /** The record is written: the caller is inside, a drain has its health check, and the change is accepted. */
  predicate TakesEffect(c: DnsConfig, z: Zone, q: Request) {
    Enters(z, q) && (q.kind.Drain? ==> q.region in c.healthCheckIds) && q.change != RequestLost
  }

  function Served(c: DnsConfig, z: Zone, q: Request): Zone {
    var held := if q.acquire == RequestLost then z.table else Put(z.table, KeyOf(q), q.owner, q.local, c.lockTtlSeconds);
    Zone(if !Enters(z, q) || q.release == RequestLost then held else Delete(held, KeyOf(q), q.owner),
         if TakesEffect(c, z, q) then z.records[q.region := RecordFor(c, q.region)] else z.records)
  }

  /** Two requests compete for one lock exactly if they are of one kind and about one region. */
  lemma OneLockPerKindAndRegion(p: Request, q: Request)
    ensures KeyOf(p) == KeyOf(q) <==> p.kind == q.kind && p.region == q.region
    ensures KeyOf(q) == (if q.kind == Drain then "drain:" else "restore:") + q.region
  {
    var m, n := if p.kind.Drain? then 6 else 8, if q.kind.Drain? then 6 else 8;
    assert KeyOf(p)[m..] == p.region && KeyOf(q)[n..] == q.region;
    assert KeyOf(p)[0] == (if p.kind.Drain? then 'd' else 'r') && KeyOf(q)[0] == (if q.kind.Drain? then 'd' else 'r');
  }

  /** A request writes its region's record exactly if its lock is free, the answer that says so arrives, the
      change does too, and a drain has a health check to associate; it never writes any other record. */
  lemma RequestWritesIff(c: DnsConfig, z: Zone, q: Request)
    ensures var key := (if q.kind == Drain then "drain:" else "restore:") + q.region;
            var free := key !in z.table || z.table[key].expiresAt < q.local / SECOND;
            Served(c, z, q).records ==
              if q.acquire == Answered && free && (q.kind == Restore || q.region in c.healthCheckIds) && q.change != RequestLost
              then z.records[q.region := RecordSet(if q.region in c.healthCheckIds then c.healthCheckIds[q.region] else "", c.recordTtl, Address(q.region))]
              else z.records
    ensures forall k :: k != KeyOf(q) ==>
              (k in Served(c, z, q).table <==> k in z.table) && (k in z.table ==> Served(c, z, q).table[k] == z.table[k])
  {
    OneLockPerKindAndRegion(q, q);
  }

  /** And it gives its lock back, whatever became of the change, exactly if it got it and the release is not
      lost; otherwise the lock is left with it if it was free and the put was not lost, and as it was if not. */
  lemma RequestGivesBackIff(c: DnsConfig, z: Zone, q: Request)
    ensures var after := Served(c, z, q).table;
            if q.acquire == RequestLost || !Available(z.table, KeyOf(q), q.local) then after == z.table
            else if q.acquire == Answered && q.release != RequestLost then after == z.table - {KeyOf(q)}
            else KeyOf(q) in after && after[KeyOf(q)].owner == q.owner
  {
  }

  function ServedAll(c: DnsConfig, z: Zone, qs: seq<Request>): Zone {
    if qs == [] then z else Served(c, ServedAll(c, z, qs[..|qs| - 1]), qs[|qs| - 1])
  }

  /** Some drain or restore of the region took effect. */
  predicate Wrote(c: DnsConfig, z: Zone, qs: seq<Request>, r: string) {
    qs != [] &&
    (var before, q := qs[..|qs| - 1], qs[|qs| - 1];
     Wrote(c, z, before, r) || (q.region == r && TakesEffect(c, ServedAll(c, z, before), q)))
  }

  /** Whatever any number of agents ask, in whatever order and with whatever losses, a region's record is
      untouched if nothing took effect, and otherwise the one fixed record: a drain and a restore cannot be
      told apart in it. */
  lemma {:induction false} RecordIsUntouchedOrFixed(c: DnsConfig, z: Zone, qs: seq<Request>, r: string)
    ensures var after := ServedAll(c, z, qs).records;
            if Wrote(c, z, qs, r) then r in after && after[r] == RecordFor(c, r)
            else (r in after <==> r in z.records) && (r in z.records ==> after[r] == z.records[r])
  {
    if qs != [] {
      RecordIsUntouchedOrFixed(c, z, qs[..|qs| - 1], r);
    }
  }

  /** So two histories of requests that took effect leave the same record, whatever was asked last in each. */
  lemma HistoriesLeaveOneRecord(c: DnsConfig, z1: Zone, z2: Zone, qs1: seq<Request>, qs2: seq<Request>, r: string)
    requires Wrote(c, z1, qs1, r) && Wrote(c, z2, qs2, r)
    ensures r in ServedAll(c, z1, qs1).records && r in ServedAll(c, z2, qs2).records
    ensures ServedAll(c, z1, qs1).records[r] == ServedAll(c, z2, qs2).records[r]
  {
    RecordIsUntouchedOrFixed(c, z1, qs1, r);
    RecordIsUntouchedOrFixed(c, z2, qs2, r);
  }

  /** Some restore of the region took effect. */
  predicate Restored(c: DnsConfig, z: Zone, qs: seq<Request>, r: string) {
    qs != [] &&
    (var before, q := qs[..|qs| - 1], qs[|qs| - 1];
     Restored(c, z, before, r) || (q.region == r && q.kind.Restore? && TakesEffect(c, ServedAll(c, z, before), q)))
  }

  /** The exception is a region without a configured health check: its drains never take effect, and a
      restore writes it a record with an empty health check. */
  lemma {:induction false} UncheckedRegionsOnlyRestore(c: DnsConfig, z: Zone, qs: seq<Request>, r: string)
    requires r !in c.healthCheckIds
    ensures Wrote(c, z, qs, r) <==> Restored(c, z, qs, r)
    ensures Restored(c, z, qs, r) ==>
              r in ServedAll(c, z, qs).records && ServedAll(c, z, qs).records[r].healthCheckId == ""
  {
    if qs != [] {
      UncheckedRegionsOnlyRestore(c, z, qs[..|qs| - 1], r);
    }
    RecordIsUntouchedOrFixed(c, z, qs, r);
  }

  class HostedZone {
    var records: map<string, RecordSet>

    /** The call that upserts one latency record. */
    method ChangeRecord(region: string, rec: RecordSet, d: Delivery) returns (accepted: bool)
      modifies this
      ensures records == if d == RequestLost then old(records) else old(records)[region := rec]
      ensures accepted == (d == Answered)
    {
      if d != RequestLost {
        records := records[region := rec];
      }
      accepted := d == Answered;
    }
  }

  datatype Result = Done | HeldElsewhere | Error(reason: string)

  class Client {
    const localRegion: string
    const cfg: DnsConfig
    const table: LockTable
    const zone: HostedZone

    ghost function View(): Zone
      reads table, zone
    {
      Zone(table.items, zone.records)
    }

    constructor (localRegion: string, cfg: DnsConfig, table: LockTable, zone: HostedZone)
      ensures this.localRegion == localRegion && this.table == table && this.zone == zone
      ensures this.cfg == DnsConfig(if cfg.lockTtlSeconds == 0 then 60 else cfg.lockTtlSeconds,
                                    if cfg.recordTtl == 0 then 30 else cfg.recordTtl,
                                    cfg.healthCheckIds)
    {
      this.localRegion := localRegion;
      var recordTtl := if cfg.recordTtl == 0 then 30 else cfg.recordTtl;
      var lockTtlSeconds := if cfg.lockTtlSeconds == 0 then 60 else cfg.lockTtlSeconds;
      this.cfg := DnsConfig(lockTtlSeconds, recordTtl, cfg.healthCheckIds);
      this.table := table;
      this.zone := zone;
    }

    method AcquireLock(key: string, local: int, d: Delivery) returns (acquired: Option<bool>)
      modifies table
      ensures table.items == if d == RequestLost then old(table.items) else Put(old(table.items), key, localRegion, local, cfg.lockTtlSeconds)
      ensures acquired == if d == Answered then Some(Available(old(table.items), key, local)) else None
    {
      acquired := None;
      if d != RequestLost {
        var stored := table.PutItem(key, localRegion, local, cfg.lockTtlSeconds);
        if d == Answered {
          acquired := Some(stored);
        }
      }
    }

    method ReleaseLock(key: string, d: Delivery)
      modifies table
      ensures table.items == if d == RequestLost then old(table.items) else Delete(old(table.items), key, localRegion)
    {
      if d != RequestLost {
        table.DeleteItem(key, localRegion);
      }
    }

    /** Left alone by other agents, a drain that got the lock has given it back by the time it returns,
        whether or not the record change went through, unless the release itself was lost. */
    method DrainRegion(region: string, local: int, acquire: Delivery, change: Delivery, release: Delivery) returns (r: Result)
      modifies table, zone
      ensures var q := Request(Drain, region, localRegion, local, acquire, change, release);
              && View() == Served(cfg, old(View()), q)
              && (r == HeldElsewhere <==> acquire == Answered && !Enters(old(View()), q))
              && (r == Done <==> TakesEffect(cfg, old(View()), q) && change == Answered)
              && GivenBack(old(table.items), table.items, q, Enters(old(View()), q))
    {
      var key := "drain:" + region;
      var acquired := AcquireLock(key, local, acquire);
      if acquired.None? {
        return Error("acquire lock for drain");
      }
      if !acquired.value {
        return HeldElsewhere;
      }
      if region !in cfg.healthCheckIds {
        r := Error("no health check ID configured");
      } else {
        var healthCheckId := cfg.healthCheckIds[region];
        var accepted := zone.ChangeRecord(region, RecordSet(healthCheckId, cfg.recordTtl, Address(region)), change);
        r := if accepted then Done else Error("change record set for drain");
      }
      ReleaseLock(key, release);
    }

    /** The same for a restore, which takes a lock of its own and needs no health check. */
    method RestoreRegion(region: string, local: int, acquire: Delivery, change: Delivery, release: Delivery) returns (r: Result)
      modifies table, zone
      ensures var q := Request(Restore, region, localRegion, local, acquire, change, release);
              && View() == Served(cfg, old(View()), q)
              && (r == HeldElsewhere <==> acquire == Answered && !Enters(old(View()), q))
              && (r == Done <==> TakesEffect(cfg, old(View()), q) && change == Answered)
              && GivenBack(old(table.items), table.items, q, Enters(old(View()), q))
    {
      var key := "restore:" + region;
      var acquired := AcquireLock(key, local, acquire);
      if acquired.None? {
        return Error("acquire lock for restore");
      }
      if !acquired.value {
        return HeldElsewhere;
      }
      var healthCheckId := if region in cfg.healthCheckIds then cfg.healthCheckIds[region] else "";
      var accepted := zone.ChangeRecord(region, RecordSet(healthCheckId, cfg.recordTtl, Address(region)), change);
      r := if accepted then Done else Error("change record set for restore");
      ReleaseLock(key, release);
    }
  }

  /** A caller that got the lock has given it back, unless its release was lost; one that found it held has
      changed nothing; and no other lock is touched. */
  ghost predicate GivenBack(before: Table, after: Table, q: Request, entered: bool) {
    && (entered && q.release != RequestLost ==> after == before - {KeyOf(q)})
    && (q.acquire == Answered && !entered ==> after == before)
    && (forall k :: k != KeyOf(q) ==> (k in after <==> k in before))
    && (forall k :: k != KeyOf(q) && k in after ==> after[k] == before[k])
  }

  // ----- the protocol -----

  datatype Seat = Seat(agent: string, key: string)

  /** True time, the table, and who is inside which critical section, with the expiry of the lease taken. */
  datatype World = World(now: int, table: Table, inside: map<Seat, int>)

  datatype Step =
    | Pass(elapsed: nat)
    | Acquire(seat: Seat, local: int, delivery: Delivery)
    | Release(seat: Seat, delivery: Delivery)
    | Crash(seat: Seat)

  datatype Setting = Setting(ttlSeconds: int, skew: int)

  predicate Enabled(c: Setting, w: World, s: Step) {
    match s
    case Pass(_) => true
    case Acquire(seat, local, _) => seat !in w.inside && w.now - c.skew <= local <= w.now + c.skew
    case Release(seat, _) => seat in w.inside
    case Crash(seat) => seat in w.inside
  }

  function Next(c: Setting, w: World, s: Step): World {
    if !Enabled(c, w, s) then w
    else
      match s
      case Pass(elapsed) => w.(now := w.now + elapsed)
      case Acquire(seat, local, d) =>
        if d == RequestLost then w
        else
          World(
            w.now,
            Put(w.table, seat.key, seat.agent, local, c.ttlSeconds),
            if d == Answered && Available(w.table, seat.key, local)
            then w.inside[seat := Lease(local, c.ttlSeconds)] else w.inside)
      case Release(seat, d) =>
        World(w.now, if d == RequestLost then w.table else Delete(w.table, seat.key, seat.agent), w.inside - {seat})
      case Crash(seat) => w.(inside := w.inside - {seat})
  }

  function RunLock(c: Setting, start: int, steps: seq<Step>): World {
    if steps == [] then World(start, map[], map[])
    else Next(c, RunLock(c, start, steps[..|steps| - 1]), steps[|steps| - 1])
  }

  function RunFrom(c: Setting, w: World, steps: seq<Step>): World {
    if steps == [] then w else Next(c, RunFrom(c, w, steps[..|steps| - 1]), steps[|steps| - 1])
  }

  /** The lock of `key` has its holder's item, and nobody has entered it since `before` but its holder. */
  ghost predicate StillHeld(before: World, w: World, holder: Seat, item: Item) {
    && holder.key in w.table && w.table[holder.key] == item
    && (forall s :: s in w.inside && s.key == holder.key && s != holder ==> s in before.inside && w.inside[s] == before.inside[s])
  }

  lemma NextKeepsHeld(c: Setting, before: World, w: World, holder: Seat, item: Item, s: Step)
    requires item.owner == holder.agent && StillHeld(before, w, holder, item)
    requires !(s.Release? && s.seat == holder)
    requires s.Acquire? && s.seat.key == holder.key && Enabled(c, w, s) ==> !Available(w.table, holder.key, s.local)
    ensures StillHeld(before, Next(c, w, s), holder, item)
  {
  }

  /** Once an agent has got a lock, no other agent gets it until the lease's whole seconds have passed on
      its own clock or the holder gives it back: in every run, whatever is lost and whoever crashes. */
  lemma {:induction false} LeaseHolds(c: Setting, w: World, holder: Seat, local: int, steps: seq<Step>)
    requires Enabled(c, w, Acquire(holder, local, Answered)) && Available(w.table, holder.key, local)
    requires forall i :: 0 <= i < |steps| ==> !(steps[i].Release? && steps[i].seat == holder)
    requires forall i :: 0 <= i < |steps| && steps[i].Acquire? && steps[i].seat.key == holder.key ==>
               steps[i].local < local + c.ttlSeconds * SECOND
    ensures var entered := Next(c, w, Acquire(holder, local, Answered));
            holder.key in entered.table && holder in entered.inside && entered.table[holder.key].owner == holder.agent
            && StillHeld(w, RunFrom(c, entered, steps), holder, entered.table[holder.key])
  {
    var entered := Next(c, w, Acquire(holder, local, Answered));
    if steps != [] {
      var before, s := steps[..|steps| - 1], steps[|steps| - 1];
      LeaseHolds(c, w, holder, local, before);
      if s.Acquire? {
        LeaseLastsItsTime(w.table, holder.key, holder.agent, local, c.ttlSeconds, s.local);
      }
      NextKeepsHeld(c, w, RunFrom(c, entered, before), holder, entered.table[holder.key], s);
    }
  }

  /** In true time: until the lease's length, less twice the skew, has passed. */
  lemma {:induction false} LeaseHoldsInTime(c: Setting, w: World, holder: Seat, local: int, steps: seq<Step>)
    requires Enabled(c, w, Acquire(holder, local, Answered)) && Available(w.table, holder.key, local)
    requires forall i :: 0 <= i < |steps| ==> !(steps[i].Release? && steps[i].seat == holder)
    requires RunFrom(c, Next(c, w, Acquire(holder, local, Answered)), steps).now < w.now + c.ttlSeconds * SECOND - 2 * c.skew
    ensures var entered := Next(c, w, Acquire(holder, local, Answered));
            holder.key in entered.table && StillHeld(w, RunFrom(c, entered, steps), holder, entered.table[holder.key])
  {
    var entered := Next(c, w, Acquire(holder, local, Answered));
    if steps != [] {
      var before, s := steps[..|steps| - 1], steps[|steps| - 1];
      assert RunFrom(c, entered, before).now <= RunFrom(c, entered, steps).now;
      LeaseHoldsInTime(c, w, holder, local, before);
      if s.Acquire? {
        LeaseLastsItsTime(w.table, holder.key, holder.agent, local, c.ttlSeconds, s.local);
      }
      NextKeepsHeld(c, w, RunFrom(c, entered, before), holder, entered.table[holder.key], s);
    }
  }

  /** And a holder that never gives it back loses it: whoever asks one second after the lease's length gets
      the lock, if it asks as another agent, or as one that is no longer inside. */
  lemma LeaseEnds(c: Setting, before: World, w: World, holder: Seat, local: int, next: Seat, reading: int)
    requires Available(before.table, holder.key, local) && next.key == holder.key
    requires StillHeld(before, w, holder, Item(holder.agent, Lease(local, c.ttlSeconds), Unix(local)))
    requires Enabled(c, w, Acquire(next, reading, Answered)) && reading >= local + (c.ttlSeconds + 1) * SECOND
    ensures var v := Next(c, w, Acquire(next, reading, Answered));
            next in v.inside && next.key in v.table && v.table[next.key].owner == next.agent
  {
    LeaseLastsItsTime(before.table, holder.key, holder.agent, local, c.ttlSeconds, reading);
  }

  /** Everyone inside still has its item in the table, or its lease could by now have been seen expired. */
  ghost predicate Guarded(c: Setting, w: World) {
    forall s :: s in w.inside ==>
      || (s.key in w.table && w.table[s.key].owner == s.agent && w.table[s.key].expiresAt == w.inside[s])
      || w.inside[s] < Unix(w.now + c.skew)
  }

  lemma LaterIsLater(t: int, u: int)
    requires t <= u
    ensures Unix(t) <= Unix(u)
  {
  }

  lemma NextKeepsGuarded(c: Setting, w: World, s: Step)
    requires Guarded(c, w)
    ensures Guarded(c, Next(c, w, s))
  {
    var v := Next(c, w, s);
    LaterIsLater(w.now + c.skew, v.now + c.skew);
    if s.Acquire? && Enabled(c, w, s) {
      LaterIsLater(s.local, w.now + c.skew);
    }
  }

  lemma {:induction false} AlwaysGuarded(c: Setting, start: int, steps: seq<Step>)
    ensures Guarded(c, RunLock(c, start, steps))
  {
    if steps != [] {
      AlwaysGuarded(c, start, steps[..|steps| - 1]);
      NextKeepsGuarded(c, RunLock(c, start, steps[..|steps| - 1]), steps[|steps| - 1]);
    }
  }

  /** An agent inside its critical section works on while some reading its clock could show now is short
      of the end of its lease by more than the margin.  A lease with expiry e ends when second e does. */
  predicate Working(c: Setting, w: World, seat: Seat, margin: int) {
    seat in w.inside && w.now - c.skew < (w.inside[seat] + 1) * SECOND - margin
  }

  ghost predicate Exclusive(c: Setting, w: World, margin: int) {
    forall s, t :: Working(c, w, s, margin) && Working(c, w, t, margin) && s.key == t.key ==> s.agent == t.agent
  }

  lemma WorkersHoldTheLock(c: Setting, w: World, s: Seat, margin: int)
    requires Guarded(c, w) && Working(c, w, s, margin) && margin >= 2 * c.skew
    ensures s.key in w.table && w.table[s.key].owner == s.agent
  {
  }

  lemma WideMarginIsSafe(c: Setting, margin: int, start: int, steps: seq<Step>)
    requires margin >= 2 * c.skew
    ensures Exclusive(c, RunLock(c, start, steps), margin)
  {
    var w := RunLock(c, start, steps);
    AlwaysGuarded(c, start, steps);
    forall s, t | Working(c, w, s, margin) && Working(c, w, t, margin) && s.key == t.key ensures s.agent == t.agent {
      WorkersHoldTheLock(c, w, s, margin);
      WorkersHoldTheLock(c, w, t, margin);
    }
  }

  /** With a narrower margin: one agent takes the lock; another, whose clock is fast, takes it over while
      the first, whose clock has become slow, is still at work. */
  function Takeover(c: Setting, key: string): seq<Step> {
    var end := (Lease(c.skew, c.ttlSeconds) + 1) * SECOND;
    [Acquire(Seat("a", key), c.skew, Answered), Pass(if end > c.skew then end - c.skew else 0), Acquire(Seat("b", key), end, Answered)]
  }

  lemma NarrowMarginFails(c: Setting, margin: int, key: string)
    requires c.skew >= 0 && c.ttlSeconds >= 0 && margin < 2 * c.skew
    ensures !Exclusive(c, RunLock(c, 0, Takeover(c, key)), margin)
  {
    var steps := Takeover(c, key);
    var w1 := Next(c, World(0, map[], map[]), steps[0]);
    var w2 := Next(c, w1, steps[1]);
    var w3 := Next(c, w2, steps[2]);
    assert steps[..0] == [] && steps[..1][..0] == [] && steps[..2][..1] == steps[..1] && steps[..3] == steps;
    assert RunLock(c, 0, steps[..1]) == w1;
    assert RunLock(c, 0, steps[..2]) == w2;
    assert RunLock(c, 0, steps) == w3;
    assert Working(c, w3, Seat("a", key), margin) && Working(c, w3, Seat("b", key), margin);
  }

  /** The exact margin: for every number of agents, every run and every lock, at most one agent is at work
      in the critical section, if and only if agents stop at least twice the skew before their lease ends.
      With exact clocks no margin is needed. */
  lemma ExclusionNeedsTwiceTheSkew(c: Setting, margin: int)
    requires c.skew >= 0 && c.ttlSeconds >= 0
    ensures (forall start: int, steps: seq<Step> :: Exclusive(c, RunLock(c, start, steps), margin)) <==> margin >= 2 * c.skew
  {
    if margin >= 2 * c.skew {
      forall start: int, steps: seq<Step> ensures Exclusive(c, RunLock(c, start, steps), margin) {
        WideMarginIsSafe(c, margin, start, steps);
      }
    } else {
      NarrowMarginFails(c, margin, "drain");
    }
  }

  /** Letting go late does no harm: a release never takes a lock away from another agent, and never changes
      who else is inside. */
  lemma StaleReleaseIsHarmless(c: Setting, w: World, seat: Seat, d: Delivery, key: string)
    requires key in w.table && w.table[key].owner != seat.agent
    ensures var v := Next(c, w, Release(seat, d));
            key in v.table && v.table[key] == w.table[key] && forall s :: s in w.inside && s != seat ==> s in v.inside && v.inside[s] == w.inside[s]
  {
  }

  /** The lock keys of a drain and of a restore of the same region differ, so the two do not exclude each
      other: one agent can drain a region while another restores it, both with valid leases. */
  lemma DrainAndRestoreOverlap(c: Setting, region: string) returns (steps: seq<Step>)
    requires c.skew >= 0 && c.ttlSeconds >= 0
    ensures var w := RunLock(c, 0, steps);
            Working(c, w, Seat("a", "drain:" + region), 0) && Working(c, w, Seat("b", "restore:" + region), 0)
  {
    var drain, restore := Seat("a", "drain:" + region), Seat("b", "restore:" + region);
    steps := [Acquire(drain, 0, Answered), Acquire(restore, 0, Answered)];
    assert drain.key[0] == 'd' && restore.key[0] == 'r';
    assert steps[..1][..0] == [] && steps[..1] == [Acquire(drain, 0, Answered)];
    var w1 := Next(c, World(0, map[], map[]), steps[0]);
    assert RunLock(c, 0, steps[..1]) == w1;
    var w2 := Next(c, w1, steps[1]);
    assert RunLock(c, 0, steps) == w2;
  }
}
