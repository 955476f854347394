/**
 The training-sample store (ml-intelligence-03/ml/flywheel/flywheel.py): samples wait in a buffer, are
 appended to a file a hundred at a time, and are counted in statistics that have a file of their own.
 A crash may come between two calls or anywhere inside a flush, between or in the middle of its writes,
 the flush that the hundredth append sets off included.
 */
module Flywheel {
  import opened Listings

  datatype Sample = Sample(source: string, fault: string, confidence: real, payload: string)

  const FLUSH_AT := 100
  const RETRAIN_VOLUME_THRESHOLD := 500
  const MIN_SAMPLES_FOR_RETRAIN := 100

  /** What the sample file is made of: whole lines, and the torn ends of writes cut short. */
  datatype Chunk = Line(sample: Sample) | Scrap

  predicate EndsTorn(file: seq<Chunk>) {
    file != [] && file[|file| - 1].Scrap?
  }

  /** The samples that can be read back: a line written after a torn one runs into it and is skipped. */
  function Readable(file: seq<Chunk>): seq<Sample> {
    if file == [] then []
    else
      var before, last := file[..|file| - 1], file[|file| - 1];
      if last.Scrap? || EndsTorn(before) then Readable(before) else Readable(before) + [last.sample]
  }

  datatype Stats = Stats(total: int, bySource: map<string, int>, byFault: map<string, int>)

  const NO_STATS := Stats(0, map[], map[])

  function CountOne(stats: Stats, s: Sample): Stats {
    Stats(stats.total + 1,
          stats.bySource[s.source := CountOf(stats.bySource, s.source) + 1],
          stats.byFault[s.fault := CountOf(stats.byFault, s.fault) + 1])
  }

  /** The statistics that a list of samples deserves. */
  function Tally(samples: seq<Sample>): Stats {
    if samples == [] then NO_STATS else CountOne(Tally(samples[..|samples| - 1]), samples[|samples| - 1])
  }

  lemma {:induction false} TallyCounts(samples: seq<Sample>)
    ensures Tally(samples).total == |samples|
  {
    if samples != [] {
      TallyCounts(samples[..|samples| - 1]);
    }
  }

  function FromSource(samples: seq<Sample>, source: string): nat {
    if samples == [] then 0
    else FromSource(samples[..|samples| - 1], source) + if samples[|samples| - 1].source == source then 1 else 0
  }

  function OfFault(samples: seq<Sample>, fault: string): nat {
    if samples == [] then 0
    else OfFault(samples[..|samples| - 1], fault) + if samples[|samples| - 1].fault == fault then 1 else 0
  }

  /** They hold the number of samples in all, from each source, and of each fault. */
  lemma {:induction false} TallyInFull(samples: seq<Sample>, source: string, fault: string)
    ensures Tally(samples).total == |samples|
    ensures CountOf(Tally(samples).bySource, source) == FromSource(samples, source)
    ensures CountOf(Tally(samples).byFault, fault) == OfFault(samples, fault)
  {
    if samples != [] {
      TallyInFull(samples[..|samples| - 1], source, fault);
    }
  }

  datatype StatsFile = Missing | Torn | Saved(stats: Stats)

  function Loaded(f: StatsFile): Stats {
    if f.Saved? then f.stats else NO_STATS
  }

  /** Both files, the statistics in memory, the buffer, and the samples appended since the last retraining. */
  datatype Wheel = Wheel(file: seq<Chunk>, statsFile: StatsFile, stats: Stats, buffer: seq<Sample>, recent: nat)

  function Lines(samples: seq<Sample>): seq<Chunk> {
    seq(|samples|, i requires 0 <= i < |samples| => Line(samples[i]))
  }

  function Flushed(w: Wheel): Wheel {
    if w.buffer == [] then w else Wheel(w.file + Lines(w.buffer), Saved(w.stats), w.stats, [], w.recent)
  }

  function Buffered(w: Wheel, s: Sample): Wheel {
    w.(buffer := w.buffer + [s], stats := CountOne(w.stats, s), recent := w.recent + 1)
  }

  function Appended(w: Wheel, s: Sample): Wheel {
    if |w.buffer| + 1 >= FLUSH_AT then Flushed(Buffered(w, s)) else Buffered(w, s)
  }

  /** Where a crash strikes: between two calls; in a flush, after `lines` whole lines and perhaps a part of
      the next; or in a flush, with the statistics file open for writing. */
  datatype Crash = Idle | Writing(lines: nat, torn: bool) | Saving

  predicate Possible(w: Wheel, c: Crash) {
    match c
    case Idle => true
    case Writing(k, torn) => w.buffer != [] && k <= |w.buffer| && (torn ==> k < |w.buffer|)
    case Saving => w.buffer != []
  }

  function Restarted(w: Wheel, c: Crash): Wheel
    requires Possible(w, c)
  {
    match c
    case Idle => Wheel(w.file, w.statsFile, Loaded(w.statsFile), [], 0)
    case Writing(k, torn) =>
      Wheel(w.file + Lines(w.buffer[..k]) + (if torn then [Scrap] else []), w.statsFile, Loaded(w.statsFile), [], 0)
    case Saving => Wheel(w.file + Lines(w.buffer), Torn, NO_STATS, [], 0)
  }

  // ----- the books -----

  /** The statistics are those of the stored and the buffered samples. */
  predicate Balanced(w: Wheel) {
    w.stats == Tally(Readable(w.file) + w.buffer)
  }

  /** ... and so are the saved ones, of the stored samples, in a file without a torn end. */
  predicate Sound(w: Wheel) {
    Balanced(w) && Loaded(w.statsFile) == Tally(Readable(w.file)) && !EndsTorn(w.file)
  }

  lemma {:induction false} ReadableAppends(file: seq<Chunk>, samples: seq<Sample>)
    ensures !EndsTorn(file) ==> Readable(file + Lines(samples)) == Readable(file) + samples
    ensures EndsTorn(file) && samples != [] ==> Readable(file + Lines(samples)) == Readable(file) + samples[1..]
    ensures samples != [] ==> !EndsTorn(file + Lines(samples))
  {
    if samples == [] {
      assert file + Lines(samples) == file;
    } else {
      var before, last := samples[..|samples| - 1], samples[|samples| - 1];
      ReadableAppends(file, before);
      assert Lines(samples) == Lines(before) + [Line(last)];
      assert (file + Lines(samples))[..|file + Lines(samples)| - 1] == file + Lines(before);
      if before == [] {
        assert file + Lines(before) == file;
      }
    }
  }

  lemma ScrapAppends(file: seq<Chunk>)
    ensures Readable(file + [Scrap]) == Readable(file)
  {
  }

  lemma FlushKeepsBooks(w: Wheel)
    requires Sound(w)
    ensures Sound(Flushed(w))
  {
    ReadableAppends(w.file, w.buffer);
    if w.buffer != [] {
      assert Readable(Flushed(w).file) + [] == Readable(w.file) + w.buffer;
      assert Readable(Flushed(w).file) == Readable(w.file) + w.buffer;
    }
  }

  lemma AppendKeepsBooks(w: Wheel, s: Sample)
    requires Sound(w)
    ensures Sound(Buffered(w, s)) && Sound(Appended(w, s))
  {
    var all := Readable(w.file) + Buffered(w, s).buffer;
    assert all[..|all| - 1] == Readable(w.file) + w.buffer;
    FlushKeepsBooks(Buffered(w, s));
  }

  /** After a crash and a restart the books balance exactly when no line of a flush had got out before its
      statistics were saved ... */
  lemma CrashBalancesIff(w: Wheel, c: Crash)
    requires Sound(w) && Possible(w, c)
    ensures Balanced(Restarted(w, c)) <==> c.Idle? || (c.Writing? && c.lines == 0)
  {
    var v := Restarted(w, c);
    var written := match c case Idle => [] case Writing(k, _) => w.buffer[..k] case Saving => w.buffer;
    ReadableAppends(w.file, written);
    assert w.file + Lines([]) == w.file;
    ScrapAppends(w.file + Lines(written));
    assert w.file + Lines(written) + [] == w.file + Lines(written);
    assert Readable(v.file) == Readable(w.file) + written;
    assert Readable(v.file) + [] == Readable(v.file);
    TallyCounts(Readable(v.file));
    TallyCounts(Readable(w.file));
    if written == [] {
      assert Readable(w.file) + written == Readable(w.file);
    }
  }

  /** ... and goes on balancing exactly when no part of one had. */
  lemma CrashIsHarmlessIff(w: Wheel, c: Crash)
    requires Sound(w) && Possible(w, c)
    ensures Sound(Restarted(w, c)) <==> c.Idle? || c == Writing(0, false)
  {
    CrashBalancesIff(w, c);
    assert w.file + Lines([]) == w.file && w.file + [] == w.file;
    if c.Writing? && c.lines == 0 {
      assert w.buffer[..0] == [];
      ScrapAppends(w.file);
      assert Readable(w.file) + [] == Readable(w.file);
    }
  }

  /** A crash between two calls or in a flush asked for, or one that cuts an append short. */
  datatype Op = Append(sample: Sample) | Flush | Retrained | Crashed(crash: Crash) | AppendCut(sample: Sample, crash: Crash)

  predicate Allowed(w: Wheel, op: Op) {
    match op
    case Crashed(c) => Possible(w, c)
    case AppendCut(s, c) => Possible(Buffered(w, s), c) && (c.Idle? || |w.buffer| + 1 >= FLUSH_AT)
    case _ => true
  }

  function Step(w: Wheel, op: Op): Wheel
    requires Allowed(w, op)
  {
    match op
    case Append(s) => Appended(w, s)
    case Flush => Flushed(w)
    case Retrained => w.(recent := 0)
    case Crashed(c) => Restarted(w, c)
    case AppendCut(s, c) => Restarted(Buffered(w, s), c)
  }

  predicate Feasible(w: Wheel, ops: seq<Op>)
    decreases |ops|, 0
  {
    ops == [] || (Feasible(w, ops[..|ops| - 1]) && Allowed(Run(w, ops[..|ops| - 1]), ops[|ops| - 1]))
  }

  function Run(w: Wheel, ops: seq<Op>): Wheel
    requires Feasible(w, ops)
    decreases |ops|, 1
  {
    if ops == [] then w else Step(Run(w, ops[..|ops| - 1]), ops[|ops| - 1])
  }

  const NEW_WHEEL := Wheel([], Missing, NO_STATS, [], 0)

  /** Where every run starts that begins without any files: all the laws below hold there. */
  lemma NewStoreIsSound()
    ensures Sound(NEW_WHEEL) && NEW_WHEEL.buffer == [] && Drift(NEW_WHEEL, 0) && NEW_WHEEL.recent == 0 == NEW_WHEEL.stats.total
  {
  }

  predicate Crashes(op: Op) { op.Crashed? || op.AppendCut? }

  predicate Gentle(op: Op) {
    Crashes(op) ==> op.crash.Idle? || op.crash == Writing(0, false)
  }

  predicate AllGentle(ops: seq<Op>) {
    forall i :: 0 <= i < |ops| ==> Gentle(ops[i])
  }

  lemma StepKeepsBooks(w: Wheel, op: Op)
    requires Sound(w) && Allowed(w, op) && Gentle(op)
    ensures Sound(Step(w, op))
  {
    match op
    case Append(s) => AppendKeepsBooks(w, s);
    case Flush => FlushKeepsBooks(w);
    case Retrained =>
    case Crashed(c) => CrashIsHarmlessIff(w, c);
    case AppendCut(s, c) =>
      AppendKeepsBooks(w, s);
      CrashIsHarmlessIff(Buffered(w, s), c);
  }

  /** In every run whose crashes never interrupt a write, total = stored + buffered, and likewise for each
      label source and each fault type. */
  lemma {:induction false} BooksAlwaysBalance(w: Wheel, ops: seq<Op>)
    requires Sound(w) && Feasible(w, ops) && AllGentle(ops)
    ensures Sound(Run(w, ops))
    ensures Run(w, ops).stats.total == |Readable(Run(w, ops).file)| + |Run(w, ops).buffer|
    decreases |ops|
  {
    if ops != [] {
      BooksAlwaysBalance(w, ops[..|ops| - 1]);
      StepKeepsBooks(Run(w, ops[..|ops| - 1]), ops[|ops| - 1]);
    }
    TallyCounts(Readable(Run(w, ops).file) + Run(w, ops).buffer);
  }

  // ----- samples kept -----

  function Held(w: Wheel): seq<Sample> {
    Readable(w.file) + w.buffer
  }

  function Taken(op: Op): seq<Sample> {
    if op.Append? || op.AppendCut? then [op.sample] else []
  }

  function Ingested(ops: seq<Op>): seq<Sample> {
    if ops == [] then [] else Ingested(ops[..|ops| - 1]) + Taken(ops[|ops| - 1])
  }

  function CrashCount(ops: seq<Op>): nat {
    if ops == [] then 0 else CrashCount(ops[..|ops| - 1]) + (if Crashes(ops[|ops| - 1]) then 1 else 0)
  }

  lemma AppendHolds(w: Wheel, s: Sample)
    requires !EndsTorn(w.file)
    ensures Held(Buffered(w, s)) == Held(w) + [s] && Held(Appended(w, s)) == Held(w) + [s]
  {
    FlushHolds(Buffered(w, s));
    assert Readable(w.file) + (w.buffer + [s]) == Held(w) + [s];
  }

  lemma FlushHolds(w: Wheel)
    requires !EndsTorn(w.file)
    ensures Held(Flushed(w)) == Held(w)
  {
    ReadableAppends(w.file, w.buffer);
    assert Readable(w.file) + w.buffer + [] == Held(w);
  }

  lemma GentleCrashKeepsStored(w: Wheel, c: Crash)
    requires Possible(w, c) && (c.Idle? || c == Writing(0, false))
    ensures Held(Restarted(w, c)) == Readable(w.file)
  {
    assert w.file + Lines([]) == w.file && w.file + [] == w.file;
    if c.Writing? {
      assert w.buffer[..0] == [];
    }
  }

  lemma StepHolds(w: Wheel, op: Op)
    requires Sound(w) && |w.buffer| < FLUSH_AT && Allowed(w, op) && Gentle(op)
    ensures |Step(w, op).buffer| < FLUSH_AT
    ensures !Crashes(op) ==> Held(Step(w, op)) == Held(w) + Taken(op)
    ensures Crashes(op) ==> |Held(w)| + |Taken(op)| - FLUSH_AT <= |Held(Step(w, op))| <= |Held(w)|
  {
    match op
    case Append(s) => AppendHolds(w, s);
    case Flush => FlushHolds(w); assert Held(w) + [] == Held(w);
    case Retrained => assert Held(w) + [] == Held(w);
    case Crashed(c) => GentleCrashKeepsStored(w, c);
    case AppendCut(s, c) => GentleCrashKeepsStored(Buffered(w, s), c);
  }

  /** A run without crashes keeps every sample, in order ... */
  lemma {:induction false} NothingIsLost(w: Wheel, ops: seq<Op>)
    requires Sound(w) && |w.buffer| < FLUSH_AT && Feasible(w, ops) && forall i :: 0 <= i < |ops| ==> !Crashes(ops[i])
    ensures Sound(Run(w, ops)) && |Run(w, ops).buffer| < FLUSH_AT
    ensures Held(Run(w, ops)) == Held(w) + Ingested(ops)
    decreases |ops|
  {
    if ops != [] {
      var before, last := ops[..|ops| - 1], ops[|ops| - 1];
      NothingIsLost(w, before);
      StepHolds(Run(w, before), last);
      StepKeepsBooks(Run(w, before), last);
    }
  }

  /** ... and each crash that interrupts no write costs at most a hundred samples, the one of an append cut
      short included. */
  lemma {:induction false} FewAreLost(w: Wheel, ops: seq<Op>)
    requires Sound(w) && |w.buffer| < FLUSH_AT && Feasible(w, ops) && AllGentle(ops)
    ensures Sound(Run(w, ops)) && |Run(w, ops).buffer| < FLUSH_AT
    ensures |Held(w)| + |Ingested(ops)| - FLUSH_AT * CrashCount(ops) <= |Held(Run(w, ops))| <= |Held(w)| + |Ingested(ops)|
    decreases |ops|
  {
    if ops != [] {
      var before, last := ops[..|ops| - 1], ops[|ops| - 1];
      FewAreLost(w, before);
      StepHolds(Run(w, before), last);
      StepKeepsBooks(Run(w, before), last);
    }
  }

  /** A store that is only ever appended to flushes at every hundredth sample and not before. */
  lemma {:induction false} FlushedByTheHundred(w: Wheel, ops: seq<Op>)
    requires w.buffer == [] && Feasible(w, ops) && forall i :: 0 <= i < |ops| ==> ops[i].Append?
    ensures |Run(w, ops).buffer| == |ops| % 100
    decreases |ops|
  {
    if ops != [] {
      FlushedByTheHundred(w, ops[..|ops| - 1]);
      AppendFills(Run(w, ops[..|ops| - 1]), ops[|ops| - 1].sample, |ops| - 1);
    }
  }

  lemma AppendFills(w: Wheel, s: Sample, n: nat)
    requires |w.buffer| == n % 100
    ensures |Appended(w, s).buffer| == (n + 1) % 100
  {
  }

  // ----- when to retrain -----

  predicate Due(w: Wheel) {
    w.stats.total >= MIN_SAMPLES_FOR_RETRAIN && w.recent >= RETRAIN_VOLUME_THRESHOLD
  }

  /** Appends since the last retraining or restart. */
  function AppendsSince(ops: seq<Op>): nat {
    if ops == [] then 0
    else
      var op := ops[|ops| - 1];
      if op.Retrained? || Crashes(op) then 0
      else AppendsSince(ops[..|ops| - 1]) + |Taken(op)|
  }

  lemma {:induction false} RecentAreCounted(w: Wheel, ops: seq<Op>)
    requires Feasible(w, ops) && w.recent == 0 <= w.stats.total && Loaded(w.statsFile).total >= 0
    ensures Run(w, ops).recent == AppendsSince(ops) <= Run(w, ops).stats.total && Loaded(Run(w, ops).statsFile).total >= 0
    decreases |ops|
  {
    if ops != [] {
      RecentAreCounted(w, ops[..|ops| - 1]);
    }
  }

  /** In every run from a start, whatever crashes there are and whatever they tear, retraining is due
      exactly from the 500th append since the last retraining or restart on: the second condition, a
      minimum of 100 samples in all, never decides. */
  lemma RetrainingDueIff(w: Wheel, ops: seq<Op>)
    requires Feasible(w, ops) && w.recent == 0 <= w.stats.total && Loaded(w.statsFile).total >= 0
    ensures Due(Run(w, ops)) <==> AppendsSince(ops) >= 500
  {
    RecentAreCounted(w, ops);
  }

  // ----- drift -----

  /** Samples that are stored or buffered but not counted, in memory and in the statistics file. */
  predicate Drift(w: Wheel, d: int) {
    && w.stats.total + d == |Readable(w.file)| + |w.buffer|
    && Loaded(w.statsFile).total + d == |Readable(w.file)|
    && !EndsTorn(w.file)
  }

  /** A crash after k whole lines leaves the statistics k short, and one while they are being saved leaves
      every stored sample uncounted; nothing the store does later makes up for it. */
  lemma CrashDrifts(w: Wheel, c: Crash, d: int)
    requires Drift(w, d) && Possible(w, c) && (c.Writing? ==> !c.torn)
    ensures Drift(Restarted(w, c), match c case Idle => d case Writing(k, _) => d + k case Saving => |Readable(w.file)| + |w.buffer|)
  {
    match c
    case Idle =>
    case Writing(k, _) =>
      ReadableAppends(w.file, w.buffer[..k]);
      assert w.file + Lines(w.buffer[..k]) + [] == w.file + Lines(w.buffer[..k]);
      if k == 0 {
        assert w.file + Lines(w.buffer[..k]) == w.file;
      }
    case Saving => ReadableAppends(w.file, w.buffer);
  }

  lemma StepKeepsDrift(w: Wheel, op: Op, d: int)
    requires Drift(w, d) && Allowed(w, op) && Gentle(op)
    ensures Drift(Step(w, op), d)
  {
    match op
    case Append(s) => ReadableAppends(w.file, w.buffer + [s]);
    case Flush => ReadableAppends(w.file, w.buffer);
    case Retrained =>
    case Crashed(c) => CrashDrifts(w, c, d);
    case AppendCut(s, c) => CrashDrifts(Buffered(w, s), c, d);
  }

  lemma {:induction false} DriftStays(w: Wheel, ops: seq<Op>, d: int)
    requires Drift(w, d) && Feasible(w, ops) && AllGentle(ops)
    ensures Drift(Run(w, ops), d)
    decreases |ops|
  {
    if ops != [] {
      DriftStays(w, ops[..|ops| - 1], d);
      StepKeepsDrift(Run(w, ops[..|ops| - 1]), ops[|ops| - 1], d);
    }
  }

  /** A torn end swallows the first sample of the next flush, which is counted and never read again. */
  lemma TornEndSwallowsNext(w: Wheel)
    requires EndsTorn(w.file) && w.buffer != []
    ensures Readable(Flushed(w).file) == Readable(w.file) + w.buffer[1..] && Flushed(w).stats == w.stats
  {
    ReadableAppends(w.file, w.buffer);
  }

  // ----- the store object -----

  predicate Wanted(s: Sample, sources: set<string>, minConfidence: real) {
    s.confidence >= minConfidence && (sources == {} || s.source in sources)
  }

  function Selected(samples: seq<Sample>, sources: set<string>, minConfidence: real): seq<Sample> {
    if samples == [] then []
    else
      var before, s := Selected(samples[..|samples| - 1], sources, minConfidence), samples[|samples| - 1];
      if Wanted(s, sources, minConfidence) then before + [s] else before
  }

  /** Exactly the samples of enough confidence from the sources asked for, all of them if none is named, each
      as often as it is there ... */
  lemma {:induction false} SelectedAreWanted(samples: seq<Sample>, sources: set<string>, minConfidence: real, s: Sample)
    ensures multiset(Selected(samples, sources, minConfidence))[s] ==
              if s.confidence >= minConfidence && (sources == {} || s.source in sources) then multiset(samples)[s] else 0
  {
    if samples != [] {
      SelectedAreWanted(samples[..|samples| - 1], sources, minConfidence, s);
      assert samples == samples[..|samples| - 1] + [samples[|samples| - 1]];
    }
  }

  /** ... in the order in which they are there. */
  lemma {:induction false} SelectedInOrder(a: seq<Sample>, b: seq<Sample>, sources: set<string>, minConfidence: real)
    ensures Selected(a + b, sources, minConfidence) == Selected(a, sources, minConfidence) + Selected(b, sources, minConfidence)
  {
    if b == [] {
      assert a + b == a;
    } else {
      SelectedInOrder(a, b[..|b| - 1], sources, minConfidence);
      assert (a + b)[..|a + b| - 1] == a + b[..|b| - 1];
    }
  }

  class DataFlywheel {
    var file: seq<Chunk>
    var statsFile: StatsFile
    var stats: Stats
    var buffer: seq<Sample>
    var samplesSinceLastRetrain: nat

    ghost function View(): Wheel
      reads this
    {
      Wheel(file, statsFile, stats, buffer, samplesSinceLastRetrain)
    }

    /** Starts from the files that are there. */
    constructor (file: seq<Chunk>, statsFile: StatsFile)
      ensures View() == Wheel(file, statsFile, Loaded(statsFile), [], 0)
    {
      this.file, this.statsFile := file, statsFile;
      stats := if statsFile.Saved? then statsFile.stats else NO_STATS;
      buffer, samplesSinceLastRetrain := [], 0;
    }

    method Append(s: Sample)
      modifies this
      ensures View() == Appended(old(View()), s)
    {
      buffer := buffer + [s];
      samplesSinceLastRetrain := samplesSinceLastRetrain + 1;
      stats := Stats(stats.total + 1,
                     stats.bySource[s.source := CountOf(stats.bySource, s.source) + 1],
                     stats.byFault[s.fault := CountOf(stats.byFault, s.fault) + 1]);
      if |buffer| >= FLUSH_AT {
        FlushBuffer();
      }
    }

    method FlushBuffer()
      modifies this`file, this`statsFile, this`buffer
      ensures View() == Flushed(old(View()))
    {
      if buffer == [] {
        return;
      }
      ghost var start := file;
      for i := 0 to |buffer|
        invariant buffer == old(buffer) && statsFile == old(statsFile)
        invariant file == start + Lines(buffer[..i])
      {
        file := file + [Line(buffer[i])];
        assert Lines(buffer[..i + 1]) == Lines(buffer[..i]) + [Line(buffer[i])];
      }
      assert buffer[..|buffer|] == buffer;
      buffer := [];
      statsFile := Saved(stats);
    }

    /** Everything ingested that is wanted, buffered samples included. */
    method LoadTrainingSamples(sources: set<string>, minConfidence: real) returns (samples: seq<Sample>)
      modifies this`file, this`statsFile, this`buffer
      ensures View() == Flushed(old(View()))
      ensures samples == Selected(Readable(file), sources, minConfidence)
      ensures !EndsTorn(old(file)) ==> samples == Selected(Readable(old(file)) + old(buffer), sources, minConfidence)
    {
      FlushBuffer();
      ReadableAppends(old(file), old(buffer));
      assert Readable(old(file)) + [] == Readable(old(file));
      samples := ReadStore(sources, minConfidence);
    }

    method ReadStore(sources: set<string>, minConfidence: real) returns (samples: seq<Sample>)
      ensures samples == Selected(Readable(file), sources, minConfidence)
    {
      samples := [];
      var torn := false;
      for i := 0 to |file|
        invariant torn <==> EndsTorn(file[..i])
        invariant samples == Selected(Readable(file[..i]), sources, minConfidence)
      {
        assert file[..i + 1][..i] == file[..i];
        if file[i].Line? && !torn {
          var s := file[i].sample;
          assert (Readable(file[..i]) + [s])[..|Readable(file[..i])|] == Readable(file[..i]);
          if Wanted(s, sources, minConfidence) {
            samples := samples + [s];
          }
        }
        torn := file[i].Scrap?;
      }
      assert file[..|file|] == file;
    }

    /** In a store that has counted what it appended, as every run has, volume alone decides. */
    method ShouldRetrain() returns (due: bool)
      ensures due <==> Due(View())
      ensures samplesSinceLastRetrain <= stats.total ==> (due <==> samplesSinceLastRetrain >= RETRAIN_VOLUME_THRESHOLD)
    {
      due := stats.total >= MIN_SAMPLES_FOR_RETRAIN && samplesSinceLastRetrain >= RETRAIN_VOLUME_THRESHOLD;
    }

    /** What the retrainer does to the store when it is done. */
    method NoteRetrained()
      modifies this`samplesSinceLastRetrain
      ensures View() == old(View()).(recent := 0)
    {
      samplesSinceLastRetrain := 0;
    }
  }
}
