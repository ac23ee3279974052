/** What one call of the recorder needs, writes and reports. */
module RecordedCalls {
  import opened Wrappers
  import opened Json
  import opened Frames
  import opened Intervals
  import opened Recorder
  import opened RecorderRuns
  import opened ReportedReceipts
  import ArchiveTheorems

  // ---- Bytes on disk ----------------------------------------------------------------------

  function Content(f: Option<Bytes>): Bytes {
    match f case None => [] case Some(b) => b
  }

  function FilesOf(d: Dir): Bytes {
    Content(d.exported) + Content(d.transport) + Content(d.receipts) + Content(d.manifest)
  }

  /** Every byte of every file, snapshots first. */
  function Everything(ss: seq<Snapshot>, ds: seq<Dir>): Bytes {
    if ds != [] then Everything(ss, ds[..|ds| - 1]) + FilesOf(ds[|ds| - 1])
    else if ss != [] then Everything(ss[..|ss| - 1], []) + FilesOf(ss[|ss| - 1].dir)
    else []
  }

  lemma {:induction false} SizeExactly(ss: seq<Snapshot>, ds: seq<Dir>)
    ensures StorageSize(Store(ss, ds)) == |Everything(ss, ds)|
    decreases |ds|, |ss|
  {
    if ds != [] {
      SizeExactly(ss, ds[..|ds| - 1]);
    } else if ss != [] {
      SizeExactly(ss[..|ss| - 1], []);
    }
  }

  // ---- The chain ------------------------------------------------------------------------------

  /** The digest of the last manifest among the first n, none before the first snapshot. */
  function LastDigest(env: Env, ss: seq<Snapshot>, n: nat): Option<Text>
    requires n <= |ss|
  {
    if n == 0 then None
    else match ss[n - 1].dir.manifest case None => None case Some(b) => Some(env.digest(b))
  }

  /** Snapshot i is the next by number, holds all four files, and its manifest names this configuration,
      the manifest before it and the digests of the three other files. */
  predicate InChain(env: Env, config: Config, ss: seq<Snapshot>, i: nat)
    requires i < |ss|
  {
    var d := ss[i].dir;
    && ss[i].number == i + 1
    && d.exported.Some? && d.transport.Some? && d.receipts.Some? && d.manifest.Some?
    && match env.decode(d.manifest.value)
       case None => false
       case Some(m) =>
         && m.config == config && m.previous == LastDigest(env, ss, i)
         && m.artifacts.exported == env.digest(d.exported.value)
         && m.artifacts.transport == env.digest(d.transport.value)
         && m.artifacts.receipts == env.digest(d.receipts.value)
  }

  predicate Chained(env: Env, config: Config, ss: seq<Snapshot>, n: nat)
    requires n <= |ss|
  {
    forall i: nat | i < n :: InChain(env, config, ss, i)
  }

  lemma LinkExactly(env: Env, config: Config, ss: seq<Snapshot>, i: nat, h: Head)
    requires i < |ss| && h.previous == LastDigest(env, ss, i)
    ensures Linked(env, config, h, ss[i], i).Some? <==> InChain(env, config, ss, i)
    ensures Linked(env, config, h, ss[i], i).Some? ==>
              var g := Linked(env, config, h, ss[i], i).value;
              && g.previous == LastDigest(env, ss, i + 1)
              && Some(g.coverage) == match env.decode(ss[i].dir.manifest.value) case None => None case Some(m) => Some(m.coverage)
  {
  }

  /** An archive verifies exactly when every snapshot is in the chain; the head carries the digest of the
      last manifest and the coverage recorded there. */
  lemma {:induction false} ChainExactly(env: Env, config: Config, ss: seq<Snapshot>, n: nat)
    requires n <= |ss|
    ensures Chain(env, config, ss, n).Some? <==> Chained(env, config, ss, n)
    ensures Chain(env, config, ss, n).Some? ==>
              var h := Chain(env, config, ss, n).value;
              && h.previous == LastDigest(env, ss, n)
              && (n == 0 ==> h.coverage == [])
              && (n > 0 ==> ss[n - 1].dir.manifest.Some? && env.decode(ss[n - 1].dir.manifest.value).Some?
                            && h.coverage == env.decode(ss[n - 1].dir.manifest.value).value.coverage)
  {
    hide Linked, InChain;
    if n > 0 {
      ChainExactly(env, config, ss, n - 1);
      match Chain(env, config, ss, n - 1)
      case None =>
      case Some(h) =>
        LinkExactly(env, config, ss, n - 1, h);
        ManifestPresent(env, config, ss, n - 1);
    }
  }

  lemma ManifestPresent(env: Env, config: Config, ss: seq<Snapshot>, i: nat)
    requires i < |ss|
    ensures InChain(env, config, ss, i) ==> ss[i].dir.manifest.Some? && env.decode(ss[i].dir.manifest.value).Some?
  {
  }

  // ---- What is believed -------------------------------------------------------------------------

  /** The export ends a line, and its lines parse and are numbered upwards from at least 1. */
  predicate Intact(env: Env, config: Config, raw: Bytes) {
    var rows := env.rows(raw, config);
    && (raw == [] || raw[|raw| - 1] == 10)
    && (forall i: nat | i < |rows| :: rows[i].Some? && 1 <= rows[i].value.sequence <= 9_007_199_254_740_991)
    && (forall i: nat | i < |rows| && i > 0 :: rows[i - 1].value.sequence < rows[i].value.sequence)
  }

  lemma IntactExactly(env: Env, config: Config, raw: Bytes)
    ensures Intact(env, config, raw) <==> Inspect(env, raw, config).Some?
  {
    hide Inspect;
    InspectAccepts(env, raw, config);
    var rows := env.rows(raw, config);
    assert Increasing(rows, |rows|) <==>
             && (forall i: nat | i < |rows| :: rows[i].Some? && 1 <= rows[i].value.sequence <= 9_007_199_254_740_991)
             && (forall i: nat | i < |rows| && i > 0 :: rows[i - 1].value.sequence < rows[i].value.sequence);
  }

  // ---- What is written -----------------------------------------------------------------------------

  /** Lines of the export with this signature check. */
  function Checked(env: Env, config: Config, c: Capture, check: SignatureCheck): set<nat> {
    var rows := env.rows(c.raw, config);
    set i: nat | i < |rows| && rows[i].Some? && rows[i].value.check == check
  }

  function Broken(env: Env, config: Config, c: Capture): set<nat> {
    var rows := env.rows(c.raw, config);
    set i: nat | i < |rows| && rows[i].Some? && Breaks(config, rows[i].value)
  }

  lemma CountsExactly(env: Env, config: Config, c: Capture)
    ensures CountsOf(env, config, c) ==
              if !Intact(env, config, c.raw) then None
              else Some(Counts(|Checked(env, config, c, ValidSignature)|, |Checked(env, config, c, Unsigned)|,
                               |Checked(env, config, c, InvalidSignature)|, |Broken(env, config, c)|))
  {
    hide Intact, Inspect, Breaks;
    IntactExactly(env, config, c.raw);
    if Inspect(env, c.raw, config).Some? {
      InspectAccepts(env, c.raw, config);
      UnrecognizedExactly(env, c.raw, config);
      var rows := env.rows(c.raw, config);
      assert Checked(env, config, c, ValidSignature) == Lines(rows, ValidSignature, |rows|);
      assert Checked(env, config, c, Unsigned) == Lines(rows, Unsigned, |rows|);
      assert Checked(env, config, c, InvalidSignature) == Lines(rows, InvalidSignature, |rows|);
    }
  }

  /** found is what a call reports: the receipts an intact export of the configured generation bears,
      none from any other capture. */
  ghost predicate Kept(env: Env, config: Config, c: Capture, found: seq<Found>) {
    if Intact(env, config, c.raw) && c.generation == config.generation
    then exists places :: Lists(config, env.rows(c.raw, config), found, places)
    else found == []
  }

  lemma KeptExactly(env: Env, config: Config, c: Capture)
    ensures Kept(env, config, c, ReceiptsKept(env, config, c))
  {
    hide Intact, Inspect, Lists;
    IntactExactly(env, config, c.raw);
    if Matches(env, config, c) {
      var places := ReceiptsInOrder(env, c.raw, config);
    }
  }

  /** A recorded call adds one snapshot: the export as fetched, its transport record, the receipts kept and
      a manifest that links to the one before it and fixes the three digests. What it reports is what the
      manifest says; the number of receipts is that of the receipts file. */
  lemma RecordedContents(env: Env, config: Config, budget: nat, st: Store, c: Capture, stamp: Text, cut: Cut)
    returns (found: seq<Found>, m: Manifest)
    requires RecordStep(env, config, budget, st, c, stamp, cut).1.Recorded?
    ensures Kept(env, config, c, found)
    ensures var (st', outcome) := RecordStep(env, config, budget, st, c, stamp, cut);
            var dir := Dir(Some(c.raw), Some(env.encodeTransport(c)), Some(env.encodeReceipts(found)), Some(env.encode(m)));
            && st' == Store(st.snapshots + [Snapshot(|st.snapshots| + 1, dir)], st.pending)
            && outcome.report == Report(m.warnings, m.missing, |found|, m.coverage)
    ensures m.config == config && m.capturedAt == stamp && m.matching == |found|
    ensures m.previous == LastDigest(env, st.snapshots, |st.snapshots|)
    ensures m.artifacts.exported == env.digest(c.raw) && m.artifacts.transport == env.digest(env.encodeTransport(c))
    ensures m.artifacts.receipts == env.digest(env.encodeReceipts(found))
    ensures m.counts == (if !Intact(env, config, c.raw) then None
                         else Some(Counts(|Checked(env, config, c, ValidSignature)|, |Checked(env, config, c, Unsigned)|,
                                          |Checked(env, config, c, InvalidSignature)|, |Broken(env, config, c)|)))
    ensures m.missing == Holes(m.coverage, config.after)
    ensures var before := if st.snapshots == [] then [] else env.decode(st.snapshots[|st.snapshots| - 1].dir.manifest.value).value.coverage;
            m.coverage == NewCoverage(env, config, before, c) && m.warnings == Warnings(env, config, before, c)
  {
    hide Intact, Kept, Checked, Broken, NewCoverage, Warnings, Holes, CountsOf, ReceiptsKept, DirSize, StorageSize, Chain, Chained;
    ChainExactly(env, config, st.snapshots, |st.snapshots|);
    CountsExactly(env, config, c);
    KeptExactly(env, config, c);
    var head := Chain(env, config, st.snapshots, |st.snapshots|).value;
    found := ReceiptsKept(env, config, c);
    var coverage := NewCoverage(env, config, head.coverage, c);
    var hashes := Hashes(env.digest(c.raw), env.digest(env.encodeTransport(c)), env.digest(env.encodeReceipts(found)));
    m := Manifest(config, stamp, head.previous, hashes, coverage, Holes(coverage, config.after),
                  Warnings(env, config, head.coverage, c), CountsOf(env, config, c), |found|);
  }

  // ---- What is warned of ---------------------------------------------------------------------------

  /** Warnings come in this order. */
  function Rank(w: Warning): nat {
    match w
    case InvalidExport => 0 case GenerationMismatch => 1 case EmptyOrRegressedWindow => 2
    case InvalidSignaturesPresent => 3 case UnrecognizedRefereePayload => 4 case CoverageGap => 5
  }

  /** Every number the export shows lies below the last number covered before. */
  predicate Regressed(env: Env, config: Config, coverage: seq<Range>, c: Capture) {
    var rows := env.rows(c.raw, config);
    coverage != [] && forall i: nat | i < |rows| && rows[i].Some? :: rows[i].value.sequence < coverage[|coverage| - 1].hi
  }

  lemma RegressedExactly(env: Env, config: Config, coverage: seq<Range>, c: Capture)
    requires Inspect(env, c.raw, config).Some? && IsCanonical(coverage) && Above(coverage, config.after)
    ensures var observed := Inspect(env, c.raw, config).value.observed;
            Regressed(env, config, coverage, c) <==>
              coverage != [] && (observed == [] || observed[|observed| - 1].hi < coverage[|coverage| - 1].hi)
  {
    hide Inspect, IsCanonical;
    var rows, observed := env.rows(c.raw, config), Inspect(env, c.raw, config).value.observed;
    InspectMeaning(env, c.raw, config);
    ArchiveTheorems.AboveByPoints(observed, config.after) by { CanonicalIsProper(observed); }
    CursorIsMark(coverage, config.after);
    CursorIsMark(observed, config.after);
    if coverage != [] {
      LastIsAbove(coverage, config.after);
      forall i: nat | i < |rows| && rows[i].Some?
        ensures rows[i].value.sequence <= HighWater(observed, config.after)
      {
        if rows[i].value.sequence > config.after { assert Carries(rows, |rows|, rows[i].value.sequence); }
      }
      if observed != [] && Regressed(env, config, coverage, c) {
        LastIsAbove(observed, config.after);
        var x := observed[|observed| - 1].hi;
        assert Carries(rows, |rows|, x);
      }
    }
  }

  lemma CanonicalIsProper(rs: seq<Range>)
    requires IsCanonical(rs)
    ensures Proper(rs)
  {
  }

  lemma LastIsAbove(rs: seq<Range>, after: int)
    requires IsCanonical(rs) && Above(rs, after) && rs != []
    ensures after < rs[|rs| - 1].hi && Covers(rs, rs[|rs| - 1].hi)
  {
    assert In(rs[|rs| - 1], rs[|rs| - 1].hi);
  }

  /** Some number between the starting mark and a covered number is not covered. */
  ghost predicate Missing(rs: seq<Range>, after: int) {
    exists x, y :: after < x < y && !Covers(rs, x) && Covers(rs, y)
  }

  lemma MissingExactly(rs: seq<Range>, after: int)
    requires IsCanonical(rs) && Above(rs, after)
    ensures Missing(rs, after) <==> Holes(rs, after) != []
  {
    hide Holes, Covers, IsCanonical;
    HolesPartition(rs, after);
    ArchiveTheorems.HolesEmpty(rs, after);
    CursorIsMark(rs, after);
    if Holes(rs, after) != [] {
      var x :| Covers(Holes(rs, after), x);
      assert rs != [];
      LastIsAbove(rs, after);
      assert after < x < HighWater(rs, after) && !Covers(rs, x) && Covers(rs, HighWater(rs, after));
    }
    if Missing(rs, after) {
      var x, y :| after < x < y && !Covers(rs, x) && Covers(rs, y);
      assert Covers(Holes(rs, after), x);
    }
  }

  function Flag(ws: seq<Warning>, b: bool, w: Warning): seq<Warning> {
    if b then ws + [w] else ws
  }

  function Flagged(invalid: bool, mismatch: bool, regressed: bool, signatures: bool, payload: bool, gap: bool): seq<Warning> {
    Flag(Flag(Flag(Flag(Flag(Flag([], invalid, InvalidExport), mismatch, GenerationMismatch), regressed, EmptyOrRegressedWindow),
                   signatures, InvalidSignaturesPresent), payload, UnrecognizedRefereePayload), gap, CoverageGap)
  }

  /** In order, and none ranked n or later. */
  predicate Sorted(ws: seq<Warning>, n: nat) {
    && (forall i: nat, j: nat | i < j < |ws| :: Rank(ws[i]) < Rank(ws[j]))
    && (forall i: nat | i < |ws| :: Rank(ws[i]) < n)
  }

  predicate Warns(ws: seq<Warning>, w: Warning) {
    w in ws
  }

  lemma FlagAppend(ws: seq<Warning>, b: bool, w: Warning)
    requires Sorted(ws, Rank(w))
    ensures Sorted(Flag(ws, b, w), Rank(w) + 1)
    ensures forall v :: Warns(Flag(ws, b, w), v) <==> Warns(ws, v) || (b && v == w)
  {
  }

  lemma FlaggedMeaning(invalid: bool, mismatch: bool, regressed: bool, signatures: bool, payload: bool, gap: bool)
    ensures var ws := Flagged(invalid, mismatch, regressed, signatures, payload, gap);
            && (Warns(ws, InvalidExport) <==> invalid) && (Warns(ws, GenerationMismatch) <==> mismatch)
            && (Warns(ws, EmptyOrRegressedWindow) <==> regressed) && (Warns(ws, InvalidSignaturesPresent) <==> signatures)
            && (Warns(ws, UnrecognizedRefereePayload) <==> payload) && (Warns(ws, CoverageGap) <==> gap)
            && Sorted(ws, 6)
  {
    hide Sorted, Flag, Warns;
    NothingSorted();
    FlagAppend([], invalid, InvalidExport);
    var one := Flag([], invalid, InvalidExport);
    FlagAppend(one, mismatch, GenerationMismatch);
    var two := Flag(one, mismatch, GenerationMismatch);
    FlagAppend(two, regressed, EmptyOrRegressedWindow);
    var three := Flag(two, regressed, EmptyOrRegressedWindow);
    FlagAppend(three, signatures, InvalidSignaturesPresent);
    var four := Flag(three, signatures, InvalidSignaturesPresent);
    FlagAppend(four, payload, UnrecognizedRefereePayload);
    FlagAppend(Flag(four, payload, UnrecognizedRefereePayload), gap, CoverageGap);
  }

  lemma NothingSorted()
    ensures Sorted([], 0) && forall w :: !Warns([], w)
  {
  }

  lemma WarningsFlagged(env: Env, config: Config, coverage: seq<Range>, c: Capture)
    ensures var inspected, gap := Inspect(env, c.raw, config), Holes(NewCoverage(env, config, coverage, c), config.after) != [];
            Warnings(env, config, coverage, c) ==
              match inspected
              case None => Flagged(true, false, false, false, false, gap)
              case Some(i) =>
                var same := c.generation == config.generation;
                var low := coverage != [] && (i.observed == [] || i.observed[|i.observed| - 1].hi < coverage[|coverage| - 1].hi);
                Flagged(false, !same, same && low, i.invalid > 0, i.unrecognized > 0, gap)
  {
    hide Inspect, NewCoverage, Holes;
  }

  /** Each warning is given exactly for its reason, and in their order. */
  lemma WarningsExactly(env: Env, config: Config, coverage: seq<Range>, c: Capture)
    requires IsCanonical(coverage) && Above(coverage, config.after)
    ensures var ws, intact := Warnings(env, config, coverage, c), Intact(env, config, c.raw);
            && (Warns(ws, InvalidExport) <==> !intact)
            && (Warns(ws, GenerationMismatch) <==> intact && c.generation != config.generation)
            && (Warns(ws, EmptyOrRegressedWindow) <==> intact && c.generation == config.generation && Regressed(env, config, coverage, c))
            && (Warns(ws, InvalidSignaturesPresent) <==> intact && Checked(env, config, c, InvalidSignature) != {})
            && (Warns(ws, UnrecognizedRefereePayload) <==> intact && Broken(env, config, c) != {})
            && (Warns(ws, CoverageGap) <==> Missing(NewCoverage(env, config, coverage, c), config.after))
            && Sorted(ws, 6)
  {
    hide Intact, Inspect, Regressed, Missing, NewCoverage, Holes, Checked, Broken, IsCanonical, Above, Warnings, Flagged, Warns;
    IntactExactly(env, config, c.raw);
    CountsExactly(env, config, c);
    ArchiveTheorems.NewCoverageMeaning(env, config, coverage, c);
    MissingExactly(NewCoverage(env, config, coverage, c), config.after);
    WarningsFlagged(env, config, coverage, c);
    var gap := Missing(NewCoverage(env, config, coverage, c), config.after);
    if Inspect(env, c.raw, config).Some? {
      RegressedExactly(env, config, coverage, c);
      var i, same := Inspect(env, c.raw, config).value, c.generation == config.generation;
      FlaggedMeaning(false, !same, same && Regressed(env, config, coverage, c), i.invalid > 0, i.unrecognized > 0, gap);
    } else {
      FlaggedMeaning(true, false, false, false, false, gap);
    }
  }

  // ---- What is refused, and what a crash leaves ------------------------------------------------------

  /** The bytes a call would add: the export, its transport record, the receipts kept and the manifest. */
  function Added(env: Env, config: Config, st: Store, c: Capture, stamp: Text): nat
    requires Chained(env, config, st.snapshots, |st.snapshots|)
  {
    ChainExactly(env, config, st.snapshots, |st.snapshots|);
    var plan := PlanOf(env, config, Chain(env, config, st.snapshots, |st.snapshots|).value, c, stamp);
    |FilesOf(plan.dir)|
  }

  /** A call is refused, changing nothing, exactly when the archive is full or does not verify, the capture
      is too large or names no generation, or the snapshot does not fit the budget. */
  lemma RefusedExactly(env: Env, config: Config, budget: nat, st: Store, c: Capture, stamp: Text, cut: Cut)
    ensures var (st', outcome) := RecordStep(env, config, budget, st, c, stamp, cut);
            var used := |Everything(st.snapshots, st.pending)|;
            && (outcome == Refused <==>
                  || |st.snapshots| >= 1000 || used >= budget
                  || !Chained(env, config, st.snapshots, |st.snapshots|)
                  || |c.raw| > 33_554_432 || !(0 <= c.generation <= 9_007_199_254_740_991)
                  || used + Added(env, config, st, c, stamp) > budget)
            && (outcome == Refused ==> st' == st)
  {
    hide Chained, Everything, StorageSize, Chain, PlanOf;
    SizeExactly(st.snapshots, st.pending);
    assert Store(st.snapshots, st.pending) == st;
    ChainExactly(env, config, st.snapshots, |st.snapshots|);
  }

  /** The files of d as far as they were written: some of them whole, at most one cut short. */
  predicate WrittenUpTo(d: Dir, left: Dir, files: nat) {
    var all, kept := [d.exported, d.transport, d.receipts, d.manifest], [left.exported, left.transport, left.receipts, left.manifest];
    forall i: nat | i < 4 ::
      if i < files then kept[i] == all[i]
      else if i == files then kept[i] == None || (all[i].Some? && kept[i].value <= all[i].value)
      else kept[i] == None
  }

  /** A call that is not refused either records, publishes the snapshot without reporting it, or leaves
      at most one staging directory holding a beginning of the snapshot's files. */
  lemma CrashLeaves(env: Env, config: Config, budget: nat, st: Store, c: Capture, stamp: Text, cut: Cut) returns (left: Dir, files: nat)
    requires RecordStep(env, config, budget, st, c, stamp, cut).1.Crashed?
    ensures RecordStep(env, config, budget, st, c, stamp, NoCut).1.Recorded?
    ensures var full, st' := RecordStep(env, config, budget, st, c, stamp, NoCut).0, RecordStep(env, config, budget, st, c, stamp, cut).0;
            && full.snapshots != []
            && WrittenUpTo(full.snapshots[|full.snapshots| - 1].dir, left, files)
            && (match cut
                case BeforeStaging => st' == st
                case AfterRename => st' == full
                case _ => st' == Store(st.snapshots, st.pending + [left]))
            && (cut.BeforeRename? ==> left == full.snapshots[|full.snapshots| - 1].dir)
            && (cut.InsideFile? ==> files + 1 == cut.file)
  {
    hide PlanOf, Chain, StorageSize, DirSize;
    var plan := Prepare(env, config, budget, st, c, stamp).value;
    left := Staged(plan.dir, cut);
    files := if cut.InsideFile? then cut.file - 1 else 4;
  }
}
