/** Recording into an archive directory: staged writes that may be cut short by a
    crash, and what every sequence of captures leaves behind. */
module RecorderRuns {
  import opened Wrappers
  import opened Json
  import opened Frames
  import opened Intervals
  import opened Recorder

  // The archive directory: finished snapshots and staging directories left by crashes.
  datatype Store = Store(snapshots: seq<Snapshot>, pending: seq<Dir>)

  const EMPTY_STORE := Store([], [])

  // ---- Storage size -------------------------------------------------------------------

  function FileSize(f: Option<Bytes>): nat {
    match f case None => 0 case Some(b) => |b|
  }

  function DirSize(d: Dir): nat {
    FileSize(d.exported) + FileSize(d.transport) + FileSize(d.receipts) + FileSize(d.manifest)
  }

  function SnapshotsSize(ss: seq<Snapshot>): nat {
    if ss == [] then 0 else SnapshotsSize(ss[..|ss| - 1]) + DirSize(ss[|ss| - 1].dir)
  }

  function PendingSize(ds: seq<Dir>): nat {
    if ds == [] then 0 else PendingSize(ds[..|ds| - 1]) + DirSize(ds[|ds| - 1])
  }

  function StorageSize(st: Store): nat {
    SnapshotsSize(st.snapshots) + PendingSize(st.pending)
  }

  // ---- record: everything decided before the first write ---------------------------------

  datatype Report = Report(warnings: seq<Warning>, missing: seq<Range>, matching: nat, coverage: seq<Range>)

  // What is about to be published.
  datatype Plan = Plan(dir: Dir, report: Report)

  /** A valid export of the configured generation: the only kind whose content is believed. */
  predicate Matches(env: Env, config: Config, c: Capture) {
    Inspect(env, c.raw, config).Some? && c.generation == config.generation
  }

  /** Receipts are kept only from such an export: signatures do not bind the generation. */
  function ReceiptsKept(env: Env, config: Config, c: Capture): seq<Found> {
    if Matches(env, config, c) then Inspect(env, c.raw, config).value.found else []
  }

  function CountsOf(env: Env, config: Config, c: Capture): Option<Counts> {
    match Inspect(env, c.raw, config)
    case None => None
    case Some(i) => Some(Counts(i.signedValid, i.unsigned, i.invalid, i.unrecognized))
  }

  /** Coverage grows by a valid export of the configured generation and by nothing else. */
  function NewCoverage(env: Env, config: Config, coverage: seq<Range>, c: Capture): seq<Range> {
    match Inspect(env, c.raw, config)
    case None => coverage
    case Some(i) => if c.generation != config.generation then coverage else Merge(coverage + i.observed)
  }

  function If(b: bool, w: Warning): seq<Warning> {
    if b then [w] else []
  }

  function Warnings(env: Env, config: Config, coverage: seq<Range>, c: Capture): seq<Warning> {
    (match Inspect(env, c.raw, config)
     case None => [InvalidExport]
     case Some(i) =>
       (if c.generation != config.generation then [GenerationMismatch]
        else If(coverage != [] && (i.observed == [] || i.observed[|i.observed| - 1].hi < coverage[|coverage| - 1].hi), EmptyOrRegressedWindow))
       + If(i.invalid > 0, InvalidSignaturesPresent)
       + If(i.unrecognized > 0, UnrecognizedRefereePayload))
    + If(Holes(NewCoverage(env, config, coverage, c), config.after) != [], CoverageGap)
  }

  function PlanOf(env: Env, config: Config, head: Head, c: Capture, stamp: Text): Plan {
    var coverage := NewCoverage(env, config, head.coverage, c);
    var missing := Holes(coverage, config.after);
    var warnings := Warnings(env, config, head.coverage, c);
    var found := ReceiptsKept(env, config, c);
    var transport, receipts := env.encodeTransport(c), env.encodeReceipts(found);
    var hashes := Hashes(env.digest(c.raw), env.digest(transport), env.digest(receipts));
    var manifest := Manifest(config, stamp, head.previous, hashes, coverage, missing, warnings, CountsOf(env, config, c), |found|);
    Plan(Dir(Some(c.raw), Some(transport), Some(receipts), Some(env.encode(manifest))), Report(warnings, missing, |found|, coverage))
  }

  /** None where the source raises before writing anything. */
  function Prepare(env: Env, config: Config, budget: nat, st: Store, c: Capture, stamp: Text): Option<Plan> {
    if |st.snapshots| >= MAX_SNAPSHOTS || StorageSize(st) >= budget then None
    else
      match Chain(env, config, st.snapshots, |st.snapshots|)
      case None => None
      case Some(head) =>
        if |c.raw| > MAX_EXPORT || !(0 <= c.generation <= MAX_SAFE_INTEGER) then None
        else
          var plan := PlanOf(env, config, head, c, stamp);
          if StorageSize(st) + DirSize(plan.dir) > budget then None else Some(plan)
  }

  // ---- record: the writes -------------------------------------------------------------------

  // Which of the four files, in the order they are written.
  type FileNumber = n: nat | 1 <= n <= 4 witness 1

  // Where a crash cuts the writes: before the staging directory, inside a file (the file
  // missing, or holding a prefix), before the rename, after the rename but before the
  // caller hears of it, or not at all.
  datatype Cut = BeforeStaging | InsideFile(file: FileNumber, written: Option<nat>) | BeforeRename | AfterRename | NoCut

  datatype Outcome = Refused | Crashed | Recorded(report: Report)

  const NO_FILES := Dir(None, None, None, None)

  function Partial(b: Option<Bytes>, written: Option<nat>): Option<Bytes> {
    match (b, written)
    case (Some(bytes), Some(k)) => Some(if k <= |bytes| then bytes[..k] else bytes)
    case _ => None
  }

  /** The staging directory a cut leaves. */
  function Staged(d: Dir, cut: Cut): Dir {
    match cut
    case InsideFile(file, written) =>
      if file == 1 then Dir(Partial(d.exported, written), None, None, None)
      else if file == 2 then Dir(d.exported, Partial(d.transport, written), None, None)
      else if file == 3 then Dir(d.exported, d.transport, Partial(d.receipts, written), None)
      else Dir(d.exported, d.transport, d.receipts, Partial(d.manifest, written))
    case _ => d
  }

  function Publish(st: Store, plan: Plan, cut: Cut): (Store, Outcome) {
    var published := st.(snapshots := st.snapshots + [Snapshot(|st.snapshots| + 1, plan.dir)]);
    match cut
    case BeforeStaging => (st, Crashed)
    case AfterRename => (published, Crashed)
    case NoCut => (published, Recorded(plan.report))
    case _ => (st.(pending := st.pending + [Staged(plan.dir, cut)]), Crashed)
  }

  /** One call of record. */
  function RecordStep(env: Env, config: Config, budget: nat, st: Store, c: Capture, stamp: Text, cut: Cut): (Store, Outcome) {
    match Prepare(env, config, budget, st, c, stamp)
    case None => (st, Refused)
    case Some(plan) => Publish(st, plan, cut)
  }

  class Archive {
    const config: Config
    const budget: nat
    var snapshots: seq<Snapshot>
    var pending: seq<Dir>

    function Value(): Store
      reads this
    {
      Store(snapshots, pending)
    }

    constructor (config: Config, budget: nat)
      ensures Value() == EMPTY_STORE && this.config == config && this.budget == budget
    {
      this.config, this.budget := config, budget;
      snapshots, pending := [], [];
    }

    /** The verification loop run before every capture. */
    method Verify(env: Env) returns (head: Option<Head>)
      ensures head == Chain(env, config, snapshots, |snapshots|)
    {
      hide Linked;
      var previous: Option<Text>, coverage: seq<Range> := None, [];
      for number := 0 to |snapshots|
        invariant Chain(env, config, snapshots, number) == Some(Head(previous, coverage))
      {
        var next := Linked(env, config, Head(previous, coverage), snapshots[number], number);
        if next.None? {
          ChainStaysNone(env, config, snapshots, number + 1, |snapshots|);
          return None;
        }
        previous, coverage := next.value.previous, next.value.coverage;
      }
      return Some(Head(previous, coverage));
    }

    /** Stage four files one after the other, then rename; a crash stops between or inside writes. */
    method Write(plan: Plan, cut: Cut) returns (outcome: Outcome)
      requires plan.dir.exported.Some? && plan.dir.transport.Some? && plan.dir.receipts.Some? && plan.dir.manifest.Some?
      modifies this
      ensures (Value(), outcome) == Publish(old(Value()), plan, cut)
    {
      hide Partial;
      outcome := Crashed;
      if cut == BeforeStaging {
        return;
      }
      var staging := NO_FILES;
      for file := 1 to 5
        invariant cut.InsideFile? ==> file <= cut.file
        invariant staging == Dir(if file > 1 then plan.dir.exported else None, if file > 2 then plan.dir.transport else None,
                                 if file > 3 then plan.dir.receipts else None, if file > 4 then plan.dir.manifest else None)
        invariant Value() == old(Value())
      {
        var data := if file == 1 then plan.dir.exported else if file == 2 then plan.dir.transport
                    else if file == 3 then plan.dir.receipts else plan.dir.manifest;
        var stopHere := cut.InsideFile? && cut.file == file;
        var content := if stopHere then Partial(data, cut.written) else data;
        staging := if file == 1 then staging.(exported := content) else if file == 2 then staging.(transport := content)
                   else if file == 3 then staging.(receipts := content) else staging.(manifest := content);
        if stopHere {
          pending := pending + [staging];
          return;
        }
      }
      if cut == BeforeRename {
        pending := pending + [staging];
        return;
      }
      snapshots := snapshots + [Snapshot(|snapshots| + 1, staging)];
      if cut != AfterRename {
        outcome := Recorded(plan.report);
      }
    }

    /** record */
    method Record(env: Env, c: Capture, stamp: Text, cut: Cut) returns (outcome: Outcome)
      modifies this
      ensures (Value(), outcome) == RecordStep(env, config, budget, old(Value()), c, stamp, cut)
    {
      hide PlanOf, Publish;
      outcome := Refused;
      var used := StorageSize(Value());
      if |snapshots| >= MAX_SNAPSHOTS || used >= budget {
        return;
      }
      var head := Verify(env);
      if head.None? || |c.raw| > MAX_EXPORT || !(0 <= c.generation <= MAX_SAFE_INTEGER) {
        return;
      }
      var plan := PlanOf(env, config, head.value, c, stamp);
      PlanIsComplete(env, config, head.value, c, stamp);
      if used + DirSize(plan.dir) > budget {
        return;
      }
      outcome := Write(plan, cut);
    }
  }

  lemma PlanIsComplete(env: Env, config: Config, head: Head, c: Capture, stamp: Text)
    ensures var d := PlanOf(env, config, head, c, stamp).dir;
            d.exported.Some? && d.transport.Some? && d.receipts.Some? && d.manifest.Some?
  {
  }

  lemma {:induction false} ChainStaysNone(env: Env, config: Config, ss: seq<Snapshot>, m: nat, n: nat)
    requires m <= n <= |ss| && Chain(env, config, ss, m) == None
    ensures Chain(env, config, ss, n) == None
    decreases n
  {
    hide Linked;
    if m < n { ChainStaysNone(env, config, ss, m, n - 1); }
  }
}
