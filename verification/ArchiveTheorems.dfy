/** What holds of the archive after any run of captures: refused, crashed at any write,
    repeated, out of order or of another generation. */
module ArchiveTheorems {
  import opened Wrappers
  import opened Json
  import opened Frames
  import opened Intervals
  import opened Recorder
  import opened RecorderRuns

  datatype Call = Call(capture: Capture, stamp: Text, cut: Cut)

  // The archive, and the captures whose snapshot was renamed into place.
  datatype Trace = Trace(store: Store, log: seq<Capture>)

  function Next(env: Env, config: Config, budget: nat, t: Trace, c: Call): Trace {
    var st := RecordStep(env, config, budget, t.store, c.capture, c.stamp, c.cut).0;
    Trace(st, if |st.snapshots| > |t.store.snapshots| then t.log + [c.capture] else t.log)
  }

  function Run(env: Env, config: Config, budget: nat, calls: seq<Call>): Trace {
    if calls == [] then Trace(EMPTY_STORE, [])
    else Next(env, config, budget, Run(env, config, budget, calls[..|calls| - 1]), calls[|calls| - 1])
  }

  /** Manifests of this archive survive encoding. */
  ghost predicate Faithful(env: Env, config: Config) {
    forall m: Manifest | m.config == config :: env.decode(env.encode(m)) == Some(m)
  }

  predicate ShownIn(env: Env, config: Config, log: seq<Capture>, x: int) {
    exists i :: 0 <= i < |log| && Shows(env, config, log[i], x)
  }

  /** The coverage list holds exactly the shown points, in canonical form. */
  ghost predicate CoverageIs(env: Env, config: Config, coverage: seq<Range>, log: seq<Capture>) {
    && IsCanonical(coverage) && Above(coverage, config.after)
    && forall x :: Covers(coverage, x) <==> ShownIn(env, config, log, x)
  }

  function Load(env: Env, config: Config, st: Store): Option<Head> {
    Chain(env, config, st.snapshots, |st.snapshots|)
  }

  ghost predicate Sound(env: Env, config: Config, budget: nat, t: Trace) {
    && |t.log| == |t.store.snapshots| <= MAX_SNAPSHOTS
    && StorageSize(t.store) <= budget
    && Load(env, config, t.store).Some?
    && CoverageIs(env, config, Load(env, config, t.store).value.coverage, t.log)
    && forall i | 0 <= i < |t.log| :: t.store.snapshots[i].dir.exported == Some(t.log[i].raw)
  }

  // ---- Coverage of one more capture ---------------------------------------------------------

  lemma CoversConcat(as': seq<Range>, bs: seq<Range>, x: int)
    ensures Covers(as' + bs, x) <==> Covers(as', x) || Covers(bs, x)
  {
    var rs := as' + bs;
    if Covers(as', x) {
      var i :| 0 <= i < |as'| && In(as'[i], x);
      assert In(rs[i], x);
    }
    if Covers(bs, x) {
      var i :| 0 <= i < |bs| && In(bs[i], x);
      assert In(rs[|as'| + i], x);
    }
    if Covers(rs, x) {
      var i :| 0 <= i < |rs| && In(rs[i], x);
      assert if i < |as'| then In(as'[i], x) else In(bs[i - |as'|], x);
    }
  }

  lemma AboveByPoints(rs: seq<Range>, after: int)
    requires Proper(rs) && forall x :: Covers(rs, x) ==> x > after
    ensures Above(rs, after)
  {
    forall i | 0 <= i < |rs|
      ensures after < rs[i].lo
    {
      assert In(rs[i], rs[i].lo);
      assert Covers(rs, rs[i].lo);
    }
  }

  lemma NewCoverageMeaning(env: Env, config: Config, coverage: seq<Range>, c: Capture)
    requires IsCanonical(coverage) && Above(coverage, config.after)
    ensures var grown := NewCoverage(env, config, coverage, c);
            && IsCanonical(grown) && Above(grown, config.after)
            && forall x :: Covers(grown, x) <==> Covers(coverage, x) || Shows(env, config, c, x)
  {
    hide Inspect, Merge, Covers, Carries;
    if Matches(env, config, c) {
      InspectMeaning(env, c.raw, config);
      var observed := Inspect(env, c.raw, config).value.observed;
      var grown := Merge(coverage + observed);
      MergeMeaning(coverage + observed);
      forall x
        ensures Covers(grown, x) <==> Covers(coverage, x) || Shows(env, config, c, x)
      {
        CoversConcat(coverage, observed, x);
      }
      CursorIsMark(coverage, config.after);
      AboveByPoints(grown, config.after);
    }
  }

  /** A capture draws no warning exactly when it is a valid export of the configured generation
      that reaches at least as high as before, has no bad signature or unreadable referee
      payload, and leaves no number missing up to the new high-water mark. */
  lemma NoWarning(env: Env, config: Config, coverage: seq<Range>, c: Capture)
    requires IsCanonical(coverage) && Above(coverage, config.after)
    ensures var grown := NewCoverage(env, config, coverage, c);
            Warnings(env, config, coverage, c) == [] <==>
              && Matches(env, config, c)
              && Inspect(env, c.raw, config).value.invalid == 0 && Inspect(env, c.raw, config).value.unrecognized == 0
              && HighWater(coverage, config.after) <= HighWater(Inspect(env, c.raw, config).value.observed, config.after)
              && forall x | config.after < x <= HighWater(grown, config.after) :: Covers(grown, x)
  {
    hide Inspect, Merge, Covers, Carries, IsCanonical;
    var grown := NewCoverage(env, config, coverage, c);
    NewCoverageMeaning(env, config, coverage, c);
    MarkAbove(coverage, config.after);
    HolesPartition(grown, config.after);
    HolesEmpty(grown, config.after);
    if Matches(env, config, c) {
      ObservedAbove(env, config, c);
    }
  }

  lemma MarkAbove(rs: seq<Range>, after: int)
    requires IsCanonical(rs) && Above(rs, after)
    ensures if rs == [] then HighWater(rs, after) == after else after < HighWater(rs, after)
  {
  }

  lemma ObservedAbove(env: Env, config: Config, c: Capture)
    requires Inspect(env, c.raw, config).Some?
    ensures var observed := Inspect(env, c.raw, config).value.observed;
            if observed == [] then HighWater(observed, config.after) == config.after
            else config.after < HighWater(observed, config.after)
  {
    hide Inspect;
    InspectMeaning(env, c.raw, config);
    var observed := Inspect(env, c.raw, config).value.observed;
    AboveByPoints(observed, config.after);
    MarkAbove(observed, config.after);
  }

  lemma HolesEmpty(rs: seq<Range>, after: int)
    requires IsCanonical(rs) && Above(rs, after)
    ensures Holes(rs, after) == [] <==> forall x :: !Covers(Holes(rs, after), x)
  {
    HolesAreCanonical(rs, after);
    var holes := Holes(rs, after);
    if holes != [] {
      assert In(holes[0], holes[0].lo);
      assert Covers(holes, holes[0].lo);
    }
  }

  lemma ShownInAppend(env: Env, config: Config, log: seq<Capture>, c: Capture, x: int)
    ensures ShownIn(env, config, log + [c], x) <==> ShownIn(env, config, log, x) || Shows(env, config, c, x)
  {
    hide Shows;
    var longer := log + [c];
    assert longer[|log|] == c;
    if ShownIn(env, config, log, x) {
      var i :| 0 <= i < |log| && Shows(env, config, log[i], x);
      assert longer[i] == log[i];
    }
  }

  // ---- One call -------------------------------------------------------------------------------

  lemma PlanLinks(env: Env, config: Config, head: Head, c: Capture, stamp: Text, i: nat)
    requires Faithful(env, config)
    ensures var plan := PlanOf(env, config, head, c, stamp);
            var linked := Linked(env, config, head, Snapshot(i + 1, plan.dir), i);
            && linked.Some? && linked.value.coverage == plan.report.coverage
            && plan.report.coverage == NewCoverage(env, config, head.coverage, c)
            && plan.report.missing == Holes(plan.report.coverage, config.after)
            && plan.dir.exported == Some(c.raw)
  {
    hide NewCoverage, Holes, Warnings, ReceiptsKept, CountsOf;
  }

  lemma ChainAppend(env: Env, config: Config, ss: seq<Snapshot>, s: Snapshot)
    requires Chain(env, config, ss, |ss|).Some?
    ensures Chain(env, config, ss + [s], |ss| + 1) == Linked(env, config, Chain(env, config, ss, |ss|).value, s, |ss|)
  {
    hide Linked;
    var longer := ss + [s];
    ChainPrefix(env, config, longer, |ss|, |ss|);
    assert longer[..|ss|] == ss;
  }

  lemma SizeAppend(st: Store, s: Snapshot, d: Dir)
    ensures StorageSize(st.(snapshots := st.snapshots + [s])) == StorageSize(st) + DirSize(s.dir)
    ensures StorageSize(st.(pending := st.pending + [d])) == StorageSize(st) + DirSize(d)
  {
    assert (st.snapshots + [s])[..|st.snapshots|] == st.snapshots;
    assert (st.pending + [d])[..|st.pending|] == st.pending;
  }

  lemma StagedIsSmaller(d: Dir, cut: Cut)
    ensures DirSize(Staged(d, cut)) <= DirSize(d)
  {
  }

  /** What one call may do: nothing, leave one staging directory, or publish one snapshot. */
  lemma StepEffects(env: Env, config: Config, budget: nat, st: Store, c: Call)
    ensures var (st', outcome) := RecordStep(env, config, budget, st, c.capture, c.stamp, c.cut);
            && st.snapshots <= st'.snapshots && |st'.snapshots| <= |st.snapshots| + 1
            && (outcome.Refused? ==> st' == st)
            && (outcome.Recorded? ==> |st'.snapshots| == |st.snapshots| + 1)
            && (outcome.Crashed? && c.cut != AfterRename ==> st'.snapshots == st.snapshots)
  {
    hide Prepare, Staged;
  }

  /** A reachable archive stays sound whatever one more call does. */
  lemma StepIsSound(env: Env, config: Config, budget: nat, t: Trace, c: Call)
    requires Faithful(env, config) && Sound(env, config, budget, t)
    ensures Sound(env, config, budget, Next(env, config, budget, t, c))
  {
    hide Linked, PlanOf, Staged, DirSize, StorageSize, NewCoverage, CoverageIs, Faithful, Holes;
    var prepared := Prepare(env, config, budget, t.store, c.capture, c.stamp);
    if prepared.Some? {
      var plan, head := prepared.value, Load(env, config, t.store).value;
      var snapshot := Snapshot(|t.log| + 1, plan.dir);
      SizeAppend(t.store, snapshot, Staged(plan.dir, c.cut));
      StagedIsSmaller(plan.dir, c.cut);
      PlanLinks(env, config, head, c.capture, c.stamp, |t.log|);
      ChainAppend(env, config, t.store.snapshots, snapshot);
      CoverageGrows(env, config, head.coverage, t.log, c.capture);
    }
  }

  lemma CoverageGrows(env: Env, config: Config, coverage: seq<Range>, log: seq<Capture>, c: Capture)
    requires CoverageIs(env, config, coverage, log)
    ensures CoverageIs(env, config, NewCoverage(env, config, coverage, c), log + [c])
  {
    hide NewCoverage, Shows, ShownIn, Covers, IsCanonical;
    NewCoverageMeaning(env, config, coverage, c);
    forall x
      ensures ShownIn(env, config, log + [c], x) <==> ShownIn(env, config, log, x) || Shows(env, config, c, x)
    {
      ShownInAppend(env, config, log, c, x);
    }
  }

  // ---- Every run ----------------------------------------------------------------------------------

  /** After any run the archive verifies, fits the budget, holds exactly the completed
      captures, and its stored coverage is their shown points in canonical form. */
  lemma {:induction false} RunIsSound(env: Env, config: Config, budget: nat, calls: seq<Call>)
    requires Faithful(env, config)
    ensures Sound(env, config, budget, Run(env, config, budget, calls))
  {
    hide Next, Faithful;
    if calls != [] {
      RunIsSound(env, config, budget, calls[..|calls| - 1]);
      StepIsSound(env, config, budget, Run(env, config, budget, calls[..|calls| - 1]), calls[|calls| - 1]);
    } else {
      NothingRecorded(env, config, budget);
    }
  }

  lemma NothingRecorded(env: Env, config: Config, budget: nat)
    ensures Sound(env, config, budget, Trace(EMPTY_STORE, []))
  {
  }

  function RunCoverage(env: Env, config: Config, budget: nat, calls: seq<Call>): seq<Range> {
    match Load(env, config, Run(env, config, budget, calls).store)
    case None => []
    case Some(head) => head.coverage
  }

  /** Coverage does not depend on the order, the repetition, the crashes or the refusals of a
      run, only on the set of captures that completed. */
  lemma CoverageByCaptures(env: Env, config: Config, budget: nat, calls: seq<Call>, budget': nat, calls': seq<Call>)
    requires Faithful(env, config)
    requires forall c :: c in Run(env, config, budget, calls).log <==> c in Run(env, config, budget', calls').log
    ensures RunCoverage(env, config, budget, calls) == RunCoverage(env, config, budget', calls')
  {
    hide Shows, Run, Faithful, Load, StorageSize, IsCanonical, Covers;
    RunIsSound(env, config, budget, calls);
    RunIsSound(env, config, budget', calls');
    var a, b := Run(env, config, budget, calls), Run(env, config, budget', calls');
    forall x
      ensures ShownIn(env, config, a.log, x) <==> ShownIn(env, config, b.log, x)
    {
      SameCapturesShow(env, config, a.log, b.log, x);
      SameCapturesShow(env, config, b.log, a.log, x);
    }
    CanonicalUnique(RunCoverage(env, config, budget, calls), RunCoverage(env, config, budget', calls'));
  }

  lemma SameCapturesShow(env: Env, config: Config, log: seq<Capture>, log': seq<Capture>, x: int)
    requires forall c :: c in log ==> c in log'
    ensures ShownIn(env, config, log, x) ==> ShownIn(env, config, log', x)
  {
    hide Shows;
    if ShownIn(env, config, log, x) {
      var i :| 0 <= i < |log| && Shows(env, config, log[i], x);
      assert log[i] in log';
      var j :| 0 <= j < |log'| && log'[j] == log[i];
    }
  }

  /** A completed call reports exactly what the next load of the archive finds, and the
      missing numbers it lists are those up to the high-water mark that no completed
      capture showed. */
  lemma ReportIsNextLoad(env: Env, config: Config, budget: nat, calls: seq<Call>, c: Call)
    requires Faithful(env, config)
    requires RecordStep(env, config, budget, Run(env, config, budget, calls).store, c.capture, c.stamp, c.cut).1.Recorded?
    ensures var report := RecordStep(env, config, budget, Run(env, config, budget, calls).store, c.capture, c.stamp, c.cut).1.report;
            var log := Run(env, config, budget, calls).log + [c.capture];
            var mark := HighWater(report.coverage, config.after);
            && RunCoverage(env, config, budget, calls + [c]) == report.coverage
            && Run(env, config, budget, calls + [c]).log == log
            && (forall x :: Covers(report.missing, x) <==> config.after < x <= mark && !ShownIn(env, config, log, x))
            && Length(report.coverage) + Length(report.missing) == mark - config.after
  {
    hide Linked, PlanOf, Staged, DirSize, StorageSize, NewCoverage, Faithful, Holes, Covers, IsCanonical, ShownIn, Above, HighWater, Length;
    assert (calls + [c])[..|calls|] == calls;
    RunIsSound(env, config, budget, calls);
    RunIsSound(env, config, budget, calls + [c]);
    var t := Run(env, config, budget, calls);
    var plan, head := Prepare(env, config, budget, t.store, c.capture, c.stamp).value, Load(env, config, t.store).value;
    PlanLinks(env, config, head, c.capture, c.stamp, |t.log|);
    ChainAppend(env, config, t.store.snapshots, Snapshot(|t.log| + 1, plan.dir));
    HolesPartition(plan.report.coverage, config.after);
  }

  /** Earlier snapshots are never touched, and the log only grows. */
  lemma {:induction false} RunOnlyAppends(env: Env, config: Config, budget: nat, calls: seq<Call>, k: nat)
    requires k <= |calls|
    ensures Run(env, config, budget, calls[..k]).store.snapshots <= Run(env, config, budget, calls).store.snapshots
    ensures Run(env, config, budget, calls[..k]).log <= Run(env, config, budget, calls).log
  {
    hide RecordStep;
    if k == |calls| {
      assert calls[..k] == calls;
    } else {
      var init := calls[..|calls| - 1];
      RunOnlyAppends(env, config, budget, init, k);
      assert init[..k] == calls[..k];
      StepEffects(env, config, budget, Run(env, config, budget, init).store, calls[|calls| - 1]);
    }
  }

  lemma MarkGrows(small: seq<Range>, large: seq<Range>, after: int)
    requires IsCanonical(small) && Above(small, after) && IsCanonical(large) && Above(large, after)
    requires forall x :: Covers(small, x) ==> Covers(large, x)
    ensures HighWater(small, after) <= HighWater(large, after)
  {
    CursorIsMark(large, after);
    if small != [] {
      var last := small[|small| - 1];
      assert In(last, last.hi);
      assert Covers(small, last.hi);
    }
  }

  /** A number listed as missing stays listed through any further calls until a completed
      valid capture of the configured generation shows it, and then it is gone for good. */
  lemma MissingUntilShown(env: Env, config: Config, budget: nat, calls: seq<Call>, k: nat, x: int)
    requires Faithful(env, config) && k <= |calls|
    requires Covers(Holes(RunCoverage(env, config, budget, calls[..k]), config.after), x)
    ensures Covers(Holes(RunCoverage(env, config, budget, calls), config.after), x)
            <==> !ShownIn(env, config, Run(env, config, budget, calls).log, x)
  {
    hide Shows, Run, Faithful, Load, StorageSize, IsCanonical, Covers, Holes, Above, HighWater;
    RunIsSound(env, config, budget, calls[..k]);
    RunIsSound(env, config, budget, calls);
    RunOnlyAppends(env, config, budget, calls, k);
    var early, late := RunCoverage(env, config, budget, calls[..k]), RunCoverage(env, config, budget, calls);
    var log, log' := Run(env, config, budget, calls[..k]).log, Run(env, config, budget, calls).log;
    forall y | ShownIn(env, config, log, y)
      ensures ShownIn(env, config, log', y)
    {
      var i :| 0 <= i < |log| && Shows(env, config, log[i], y);
      assert log'[i] == log[i];
    }
    MarkGrows(early, late, config.after);
    HolesPartition(early, config.after);
    HolesPartition(late, config.after);
  }
}
