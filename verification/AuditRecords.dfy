/** What an audit report says about the records of the two rooms. */
module AuditRecords {
  import opened Wrappers
  import opened Json
  import opened Frames
  import opened FrameCodec
  import opened FrameTheorems
  import opened Contracts
  import opened ContractTraces
  import opened Folds
  import opened Interleavings
  import opened Transport
  import opened CrossRoom
  import opened CrossRoomRefinement
  import opened TranscriptMessages

  // ---- One record ---------------------------------------------------------------------------

  /** Signed and marked with the prefix: the records an audit reads. */
  predicate Counts(r: Record) {
    r.signed.Some? && Lit("tclk1 ") <= r.text
  }

  /** The board holds offers and acceptances, the deal room every other kind. */
  predicate Belongs(source: Source, f: Frame) {
    match source
    case Board => f.OfferFrame? || f.Accept?
    case Deal => f.Lock? || f.Reveal? || f.Refund? || f.Cancel? || f.Receipt? || f.Heartbeat?
  }

  ghost predicate Shows(env: Env, source: Source, r: Record, e: Event) {
    Tells(env, r.sender, r.ts, r.text, e) && Belongs(source, e.frame)
  }

  /** An unsigned or unmarked record is skipped; any other is taken as the frame it tells, in its
      room and at its own time. */
  lemma RecordEventExactly(env: Env, source: Source, r: Record, t: Tagged)
    ensures RecordEvent(env, source, r) == Some(None) <==> !Counts(r)
    ensures RecordEvent(env, source, r) == Some(Some(t)) <==> Counts(r) && t.source == source && Shows(env, source, r, t.event)
  {
    hide ValidFrame, CleanFrame, Line, Lit, DecodeLine, PREFIX;
    OrdinaryText(env.crypto.sha, r.text);
    DecodesExactlyLines(env.crypto.sha, r.text, t.event.frame);
  }

  // ---- The counted records of a room ----------------------------------------------------------

  function CountedAt(rs: seq<Record>, n: nat): seq<nat>
    requires n <= |rs|
  {
    if n == 0 then []
    else if Counts(rs[n - 1]) then CountedAt(rs, n - 1) + [n - 1]
    else CountedAt(rs, n - 1)
  }

  lemma {:induction false} CountedExactly(rs: seq<Record>, n: nat)
    requires n <= |rs|
    ensures forall i: nat :: i in CountedAt(rs, n) <==> i < n && Counts(rs[i])
    ensures forall p: nat, q: nat | p < q < |CountedAt(rs, n)| :: CountedAt(rs, n)[p] < CountedAt(rs, n)[q] < n
    ensures forall p: nat | p < |CountedAt(rs, n)| :: CountedAt(rs, n)[p] < n
  {
    hide Counts;
    if n > 0 { CountedExactly(rs, n - 1); }
  }

  /** es is what the counted records among the first n show, in their order. */
  ghost predicate Shown(env: Env, source: Source, rs: seq<Record>, n: nat, es: seq<Event>)
    requires n <= |rs|
  {
    && |es| == |CountedAt(rs, n)|
    && forall p: nat | p < |es| :: CountedAt(rs, n)[p] < |rs| && Shows(env, source, rs[CountedAt(rs, n)[p]], es[p])
  }

  lemma ShownMore(env: Env, source: Source, rs: seq<Record>, n: nat, es: seq<Event>, e: Event)
    requires n < |rs| && Shown(env, source, rs, n, es) && Counts(rs[n]) && Shows(env, source, rs[n], e)
    ensures Shown(env, source, rs, n + 1, es + [e])
  {
    hide Shows, Counts;
    assert CountedAt(rs, n + 1) == CountedAt(rs, n) + [n];
    var all := es + [e];
    forall p: nat | p < |all|
      ensures CountedAt(rs, n + 1)[p] < |rs| && Shows(env, source, rs[CountedAt(rs, n + 1)[p]], all[p])
    {
      if p < |es| { assert CountedAt(rs, n + 1)[p] == CountedAt(rs, n)[p] && all[p] == es[p]; }
    }
  }

  lemma ShownSkip(env: Env, source: Source, rs: seq<Record>, n: nat, es: seq<Event>)
    requires n < |rs| && !Counts(rs[n])
    ensures Shown(env, source, rs, n, es) <==> Shown(env, source, rs, n + 1, es)
  {
    hide Shows, Counts;
  }

  lemma ShownLess(env: Env, source: Source, rs: seq<Record>, n: nat, es: seq<Event>)
    requires n < |rs| && Shown(env, source, rs, n + 1, es) && Counts(rs[n])
    ensures es != [] && Shown(env, source, rs, n, es[..|es| - 1]) && Shows(env, source, rs[n], es[|es| - 1])
  {
    hide Shows, Counts;
    assert CountedAt(rs, n + 1) == CountedAt(rs, n) + [n];
    var last := |es| - 1;
    var init := es[..last];
    assert CountedAt(rs, n + 1)[last] == n && Shows(env, source, rs[n], es[last]);
    forall p: nat | p < |init|
      ensures CountedAt(rs, n)[p] < |rs| && Shows(env, source, rs[CountedAt(rs, n)[p]], init[p])
    {
      assert CountedAt(rs, n + 1)[p] == CountedAt(rs, n)[p];
    }
  }

  ghost predicate Readable(env: Env, source: Source, rs: seq<Record>, n: nat)
    requires n <= |rs|
  {
    forall i: nat | i < n :: RecordEvent(env, source, rs[i]).Some?
  }

  /** The readable records of a room show exactly its frames. */
  lemma {:induction false} RoomShows(env: Env, source: Source, rs: seq<Record>, n: nat)
    requires n <= |rs| && Readable(env, source, rs, n)
    ensures Shown(env, source, rs, n, Strip(RoomFrames(env, source, rs, n)))
    ensures forall p: nat | p < |RoomFrames(env, source, rs, n)| :: RoomFrames(env, source, rs, n)[p].source == source
  {
    hide RecordEvent, Shows, Counts, Shown;
    if n == 0 {
      NothingShown(env, source, rs);
      assert Strip(RoomFrames(env, source, rs, 0)) == [];
    } else {
      RoomShows(env, source, rs, n - 1);
      var ts := RoomFrames(env, source, rs, n - 1);
      match RecordEvent(env, source, rs[n - 1]).value
      case None =>
        RecordEventExactly(env, source, rs[n - 1], Tagged(source, Event(Cancel([], [], None), 0)));
        ShownSkip(env, source, rs, n - 1, Strip(ts));
      case Some(t) =>
        RecordEventExactly(env, source, rs[n - 1], t);
        ShownMore(env, source, rs, n - 1, Strip(ts), t.event);
        assert Strip(ts + [t]) == Strip(ts) + [t.event];
    }
  }

  lemma NothingShown(env: Env, source: Source, rs: seq<Record>)
    ensures forall es :: Shown(env, source, rs, 0, es) <==> es == []
  {
  }

  /** A room whose records show es is readable, and these are its frames. */
  lemma {:induction false} ShownRoom(env: Env, source: Source, rs: seq<Record>, n: nat, es: seq<Event>)
    requires n <= |rs| && Shown(env, source, rs, n, es)
    ensures Readable(env, source, rs, n) && Strip(RoomFrames(env, source, rs, n)) == es
  {
    hide RecordEvent, Shows, Counts, Shown;
    if n == 0 {
      NothingShown(env, source, rs);
      assert Strip(RoomFrames(env, source, rs, 0)) == [];
    } else if Counts(rs[n - 1]) {
      ShownLess(env, source, rs, n - 1, es);
      var last := |es| - 1;
      ShownRoom(env, source, rs, n - 1, es[..last]);
      RecordEventExactly(env, source, rs[n - 1], Tagged(source, es[last]));
      assert Readable(env, source, rs, n);
      assert es == es[..last] + [es[last]];
      var ts := RoomFrames(env, source, rs, n - 1);
      assert Strip(ts + [Tagged(source, es[last])]) == Strip(ts) + [es[last]];
    } else {
      ShownSkip(env, source, rs, n - 1, es);
      ShownRoom(env, source, rs, n - 1, es);
      RecordEventExactly(env, source, rs[n - 1], Tagged(source, Event(Cancel([], [], None), 0)));
      assert Readable(env, source, rs, n);
    }
  }

  // ---- The record loops and the fold over their frames --------------------------------------------

  lemma {:induction false} FoldShrinks(c: Crypto, target: Text, ts: seq<Tagged>, m: nat, n: nat)
    requires m <= n <= |ts| && AuditFold(c, target, ts, n).Some?
    ensures AuditFold(c, target, ts, m).Some?
    decreases n
  {
    hide AuditStep;
    if m < n { FoldShrinks(c, target, ts, m, n - 1); }
  }

  lemma {:induction false} RoomRuns(env: Env, target: Text, before: seq<Tagged>, source: Source, rs: seq<Record>, n: nat)
    requires n <= |rs| && AuditFold(env.crypto, target, before, |before|).Some?
    ensures AuditRoom(env, target, AuditFold(env.crypto, target, before, |before|), source, rs, n).Some? <==>
              && Readable(env, source, rs, n)
              && var ts := before + RoomFrames(env, source, rs, n); AuditFold(env.crypto, target, ts, |ts|).Some?
  {
    hide AuditStep, RecordEvent, AuditFold;
    if n == 0 {
      assert before + [] == before;
    } else {
      RoomRuns(env, target, before, source, rs, n - 1);
      var ts := before + RoomFrames(env, source, rs, n - 1);
      if AuditRoom(env, target, AuditFold(env.crypto, target, before, |before|), source, rs, n - 1).Some? {
        RoomIsFold(env, target, before, source, rs, n - 1);
      }
      match RecordEvent(env, source, rs[n - 1])
      case Some(Some(t)) =>
        AuditFoldSnoc(env.crypto, target, ts, t);
        assert ts + [t] == before + (RoomFrames(env, source, rs, n - 1) + [t]);
      case _ =>
    }
  }

  /** The auditor runs through both rooms exactly when every record is readable and the fold over
      their frames goes through. */
  lemma RoomsRun(env: Env, target: Text, board: seq<Record>, deal: seq<Record>)
    ensures BoardThenDeal(env, target, board, deal).Some? <==>
              && Readable(env, Board, board, |board|) && Readable(env, Deal, deal, |deal|)
              && var ts := AllFrames(env, board, deal); AuditFold(env.crypto, target, ts, |ts|).Some?
  {
    hide AuditStep, RecordEvent, AuditRoom, RoomFrames, Readable;
    var bs := RoomFrames(env, Board, board, |board|);
    assert AuditFold(env.crypto, target, [], 0) == Some(EMPTY_AUDIT);
    RoomRuns(env, target, [], Board, board, |board|);
    assert [] + bs == bs;
    if AuditRoom(env, target, Some(EMPTY_AUDIT), Board, board, |board|) == None {
      DealStaysNone(env, target, deal);
      var ts := AllFrames(env, board, deal);
      if AuditFold(env.crypto, target, ts, |ts|).Some? {
        FoldShrinks(env.crypto, target, ts, |bs|, |ts|);
        AuditFoldPrefix(env.crypto, target, bs, RoomFrames(env, Deal, deal, |deal|), |bs|);
      }
    } else {
      RoomIsFold(env, target, [], Board, board, |board|);
      RoomRuns(env, target, bs, Deal, deal, |deal|);
    }
  }

  /** What one step adds to the counters, the contract it may name, and when a contract is selected. */
  lemma StepReports(c: Crypto, target: Text, a: Audit, t: Tagged)
    requires AuditStep(c, target, a, t).Some?
    ensures var a', f := AuditStep(c, target, a, t).value, t.event.frame;
            && a'.board == a.board + (if t.source == Board then 1 else 0)
            && a'.deal == a.deal + (if t.source == Deal then 1 else 0)
            && (f.OfferFrame? || f.Accept? || f.contract == target)
            && (a'.state.Some? <==> a.state.Some? || (f.Accept? && f.contract == target))
  {
    hide Line, Step, Init;
  }

  ghost predicate Selects(target: Text, e: Event) {
    e.frame.Accept? && e.frame.contract == target
  }

  lemma {:induction false} FoldReports(c: Crypto, target: Text, ts: seq<Tagged>, k: nat, n: nat)
    requires n <= |ts| && AuditFold(c, target, ts, n).Some?
    requires forall p: nat | p < n :: ts[p].source == if p < k then Board else Deal
    ensures var a := AuditFold(c, target, ts, n).value;
            && a.board == (if n < k then n else k) && a.deal == n - a.board
            && (forall p: nat | p < n :: var f := ts[p].event.frame; f.OfferFrame? || f.Accept? || f.contract == target)
            && (a.state.Some? <==> exists p: nat :: p < n && Selects(target, ts[p].event))
  {
    hide AuditStep;
    if n > 0 {
      FoldReports(c, target, ts, k, n - 1);
      StepReports(c, target, AuditFold(c, target, ts, n - 1).value, ts[n - 1]);
    }
  }

  // ---- The converse of the simulation --------------------------------------------------------------

  /** The transcript fold takes the event, and the auditor's own demands are met. */
  ghost predicate Demands(target: Text, es: seq<Event>, n: nat)
    requires n <= |es|
  {
    && (forall i: nat | i < n :: es[i].frame.OfferFrame? || es[i].frame.Accept? || es[i].frame.contract == target)
    && (forall id :: Ordered(Own(es, n, id)))
  }

  lemma DemandsShrink(target: Text, es: seq<Event>, n: nat)
    requires n < |es| && Demands(target, es, n + 1)
    ensures Demands(target, es, n)
  {
    hide Route;
    forall id
      ensures Ordered(Own(es, n, id))
    {
      assert Ordered(Own(es, n + 1, id));
      assert Own(es, n, id) <= Own(es, n + 1, id);
    }
  }

  lemma OfferTaken(c: Crypto, target: Text, a: Audit, w: World, t: Tagged)
    requires Simulates(c, target, a, w) && FoldStep(c, w, t.event).Some? && t.event.frame.OfferFrame?
    ensures AuditStep(c, target, a, t).Some?
  {
    hide Line, Init, Step, Listed;
  }

  lemma AcceptTaken(c: Crypto, target: Text, a: Audit, w: World, es: seq<Event>, n: nat, t: Tagged)
    requires n < |es| && es[n] == t.event && t.event.frame.Accept?
    requires Simulates(c, target, a, w) && Timed(target, a, es, n, w) && FoldStep(c, w, t.event).Some?
    requires Own(es, n + 1, t.event.frame.ref) == Own(es, n, t.event.frame.ref) + [es[n]]
    requires Ordered(Own(es, n + 1, t.event.frame.ref))
    ensures AuditStep(c, target, a, t).Some?
  {
    hide Line, Init, Own, ContractId, ValidFrame, CleanFrame;
    var ref := t.event.frame.ref;
    var l := a.offers[ref];
    assert Listed(c, w, ref, l);
    assert !l.bound;
    var own := Own(es, n + 1, ref);
    assert own[0].now <= own[1].now;
  }

  lemma DealTaken(c: Crypto, target: Text, a: Audit, w: World, es: seq<Event>, n: nat, t: Tagged)
    requires n < |es| && es[n] == t.event && !t.event.frame.OfferFrame? && !t.event.frame.Accept? && t.event.frame.contract == target
    requires Simulates(c, target, a, w) && Timed(target, a, es, n, w) && FoldStep(c, w, t.event).Some?
    requires target in w.byId ==> Own(es, n + 1, w.byId[target]) == Own(es, n, w.byId[target]) + [es[n]]
    requires target in w.byId ==> Ordered(Own(es, n + 1, w.byId[target]))
    ensures AuditStep(c, target, a, t).Some?
  {
    hide Line, Init, Own, Step, Listed;
    var id := w.byId[target];
    var own, now := Own(es, n, id), Own(es, n + 1, id);
    assert Ordered(now) && now[|own| - 1] == own[|own| - 1] && now[|own|] == es[n];
  }

  lemma {:induction false} DemandsMet(c: Crypto, target: Text, ts: seq<Tagged>, n: nat)
    requires Injective(c.sha) && n <= |ts|
    requires forall i | 0 <= i < |ts| :: ValidFrame(c.sha, ts[i].event.frame) && CleanFrame(ts[i].event.frame)
    requires Fold(c, Strip(ts), n).Some? && Demands(target, Strip(ts), n)
    ensures AuditFold(c, target, ts, n).Some?
  {
    hide AuditStep, FoldStep, Injective, ValidFrame, CleanFrame, Simulates, Timed, Own, Route, Ordered;
    if n > 0 {
      var es, t := Strip(ts), ts[n - 1];
      DemandsShrink(target, es, n - 1);
      DemandsMet(c, target, ts, n - 1);
      FoldSimulates(c, target, ts, n - 1);
      FoldTimed(c, target, ts, n - 1);
      NextEvent(c, es, n - 1);
      var a, w := AuditFold(c, target, ts, n - 1).value, Fold(c, es, n - 1).value;
      match t.event.frame
      case OfferFrame(_) => OfferTaken(c, target, a, w, t);
      case Accept(_, ref, _, _, _) =>
        AcceptRoute(es, n - 1);
        AcceptTaken(c, target, a, w, es, n - 1, t);
      case _ => DealTaken(c, target, a, w, es, n - 1, t);
    }
  }

  lemma AcceptRoute(es: seq<Event>, n: nat)
    requires n < |es| && es[n].frame.Accept? && Route(es, n).Some?
    ensures Route(es, n) == Some(es[n].frame.ref)
  {
  }

  /** What the auditor's acceptance implies about time and targets. */
  lemma DemandsHold(c: Crypto, target: Text, ts: seq<Tagged>)
    requires Injective(c.sha)
    requires forall i | 0 <= i < |ts| :: ValidFrame(c.sha, ts[i].event.frame) && CleanFrame(ts[i].event.frame)
    requires AuditFold(c, target, ts, |ts|).Some?
    requires forall p: nat | p < |ts| :: var f := ts[p].event.frame; f.OfferFrame? || f.Accept? || f.contract == target
    ensures Fold(c, Strip(ts), |ts|).Some? && Demands(target, Strip(ts), |ts|)
  {
    hide Fold, AuditFold, Injective, ValidFrame, CleanFrame, Simulates, Own, Ordered, EachRunsAlone, DistinctLines, Solo;
    var es, n := Strip(ts), |ts|;
    FoldTimed(c, target, ts, n);
    FoldSimulates(c, target, ts, n);
    FoldMeaning(c, es, n);
    var a, w := AuditFold(c, target, ts, n).value, Fold(c, es, n).value;
    SameKeys(c, target, a, w);
    forall id
      ensures Ordered(Own(es, n, id))
    {
      OwnIsOffered(es, n, id);
      if Own(es, n, id) == [] { NothingOrdered(); } else { assert id in w.contracts && id in a.offers; }
    }
  }

  lemma NothingOrdered()
    ensures Ordered([])
  {
  }

  // ---- What is loaded --------------------------------------------------------------------------------

  /** One record of an export: next in number, within the limit, dated, and verified if signed. */
  ghost predicate Kept(env: Env, room: Text, sequence: int, r: Record) {
    && r.sequence == sequence && |r.text| <= 4096 && env.parseTime(r.ts) != None
    && (r.signed == None
        || exists m: Message :: m.sequence == r.sequence && m.sender == r.sender && m.ts == r.ts && m.text == r.text
                                && r.signed == Some((m.nonce, m.sig)) && VerifyTransport(env, room, m))
  }

  /** The file is the captured one and holds every number from the first to the last of its descriptor. */
  ghost predicate Captured(env: Env, d: Descriptor, x: Export) {
    && IsRoom(d.room) && SafeInteger(d.generation) && SafeInteger(d.lastSeq) && 1 <= d.firstSeq
    && x.sha256 == d.sha256 && x.records.Some?
    && var rs := x.records.value;
       && |rs| == d.lastSeq - d.firstSeq + 1 && 1 <= |rs|
       && forall i: nat | i < |rs| :: Kept(env, d.room, d.firstSeq + i, rs[i])
  }

  lemma KeptExactly(env: Env, d: Descriptor, r: Record, i: nat)
    ensures Kept(env, d.room, d.firstSeq + i, r) <==> RecordOk(env, d, r, i)
  {
    hide VerifyTransport;
    if r.signed.Some? {
      var m := Message(r.sequence, r.sender, r.ts, r.signed.value.0, r.text, r.signed.value.1);
      assert r.signed == Some((m.nonce, m.sig));
    }
  }

  lemma LoadableExactly(env: Env, d: Descriptor, x: Export)
    ensures Loadable(env, d, x) <==> Captured(env, d, x)
  {
    hide RecordOk, Kept, IsRoom;
    if x.records.Some? {
      var rs := x.records.value;
      forall i: nat | i < |rs|
        ensures Kept(env, d.room, d.firstSeq + i, rs[i]) <==> RecordOk(env, d, rs[i], i)
        ensures RecordOk(env, d, rs[i], i) ==> rs[i].sequence == d.firstSeq + i
      {
        KeptExactly(env, d, rs[i], i);
        KeptNumber(env, d.room, d.firstSeq + i, rs[i]);
      }
      if rs != [] { assert RecordOk(env, d, rs[|rs| - 1], |rs| - 1) ==> rs[|rs| - 1].sequence == d.firstSeq + (|rs| - 1); }
    }
  }

  lemma KeptNumber(env: Env, room: Text, sequence: int, r: Record)
    ensures Kept(env, room, sequence, r) ==> r.sequence == sequence
  {
  }

  // ---- What is reported --------------------------------------------------------------------------------

  /** The frames of an audit, as the records of its rooms show them. */
  lemma AuditShows(env: Env, target: Text, board: seq<Record>, deal: seq<Record>) returns (eb: seq<Event>, ed: seq<Event>)
    requires BoardThenDeal(env, target, board, deal).Some?
    ensures Shown(env, Board, board, |board|, eb) && Shown(env, Source.Deal, deal, |deal|, ed)
    ensures AuditEvents(env, board, deal) == eb + ed
    ensures var a := BoardThenDeal(env, target, board, deal).value;
            && a.board == |eb| && a.deal == |ed|
            && (a.state.Some? <==> exists p: nat :: p < |eb + ed| && Selects(target, (eb + ed)[p]))
    ensures forall p: nat | p < |eb + ed| :: var f := (eb + ed)[p].frame; f.OfferFrame? || f.Accept? || f.contract == target
  {
    hide BoardThenDeal, RoomFrames, Readable, Shown, AuditFold, Selects;
    RoomsRun(env, target, board, deal);
    AuditIsFold(env, target, board, deal);
    RoomShows(env, Board, board, |board|);
    RoomShows(env, Source.Deal, deal, |deal|);
    var bs, ds := RoomFrames(env, Board, board, |board|), RoomFrames(env, Source.Deal, deal, |deal|);
    var ts := bs + ds;
    eb, ed := Strip(bs), Strip(ds);
    assert Strip(ts) == eb + ed;
    FoldReports(env.crypto, target, ts, |bs|, |ts|);
  }

  /** The frames an audit counts are exactly the signed, marked records of its rooms, in order, each at
      its own time: offers and acceptances from the board, every other kind from the deal room. */
  lemma FramesAreRecords(env: Env, board: Descriptor, boardFile: Export, deal: Descriptor, dealFile: Export, target: Text)
    returns (boardAt: seq<nat>, dealAt: seq<nat>)
    requires Audited(env, board, boardFile, deal, dealFile, target).Some?
    ensures boardFile.records.Some? && dealFile.records.Some?
    ensures var bs, ds := boardFile.records.value, dealFile.records.value;
            && (forall i: nat :: i in boardAt <==> i < |bs| && Counts(bs[i]))
            && (forall i: nat :: i in dealAt <==> i < |ds| && Counts(ds[i]))
            && (forall p: nat, q: nat | p < q < |boardAt| :: boardAt[p] < boardAt[q])
            && (forall p: nat, q: nat | p < q < |dealAt| :: dealAt[p] < dealAt[q])
            && var es := AuditEvents(env, bs, ds);
               && |es| == |boardAt| + |dealAt|
               && (forall p: nat | p < |boardAt| :: boardAt[p] < |bs| && Shows(env, Board, bs[boardAt[p]], es[p]))
               && (forall p: nat | p < |dealAt| :: dealAt[p] < |ds| && Shows(env, Source.Deal, ds[dealAt[p]], es[|boardAt| + p]))
    ensures var a := Audited(env, board, boardFile, deal, dealFile, target).value; a.board == |boardAt| && a.deal == |dealAt|
  {
    hide BoardThenDeal, AuditEvents, Shows, Counts, Selects, RecordOk, DescriptorOk, RoomsMatch;
    var bs, ds := boardFile.records.value, dealFile.records.value;
    var eb, ed := AuditShows(env, target, bs, ds);
    boardAt, dealAt := CountedAt(bs, |bs|), CountedAt(ds, |ds|);
    CountedExactly(bs, |bs|);
    CountedExactly(ds, |ds|);
    forall p: nat | p < |dealAt|
      ensures dealAt[p] < |ds| && Shows(env, Source.Deal, ds[dealAt[p]], AuditEvents(env, bs, ds)[|boardAt| + p])
    {
      assert (eb + ed)[|eb| + p] == ed[p];
    }
  }

  /** eb and ed are what the two rooms show: distinct frames, each routed to an earlier offer or
      acceptance, each contract's own frames acceptable alone and in the order of time, the deal
      room's all about the target, and the target accepted on the board. */
  ghost predicate Consistent(env: Env, target: Text, board: seq<Record>, deal: seq<Record>, eb: seq<Event>, ed: seq<Event>) {
    && Shown(env, Board, board, |board|, eb) && Shown(env, Source.Deal, deal, |deal|, ed)
    && (exists p: nat :: p < |eb| && Selects(target, eb[p]))
    && Sound(env.crypto, target, eb + ed)
  }

  ghost predicate Sound(c: Crypto, target: Text, es: seq<Event>) {
    && DistinctLines(es, |es|) && Routed(es, |es|) && EachRunsAlone(c, es, |es|)
    && (forall i: nat | i < |es| :: es[i].frame.OfferFrame? || es[i].frame.Accept? || es[i].frame.contract == target)
    && (forall id :: InOrder(Own(es, |es|, id)))
  }

  ghost predicate InOrder(es: seq<Event>) {
    forall i: nat, j: nat | i < j < |es| :: es[i].now <= es[j].now
  }

  lemma SoundExactly(c: Crypto, target: Text, es: seq<Event>)
    ensures Sound(c, target, es) <==> Fold(c, es, |es|).Some? && Demands(target, es, |es|)
  {
    hide Fold, Own, DistinctLines, Routed, EachRunsAlone, Mirrors;
    FoldMeaning(c, es, |es|);
    forall id
      ensures InOrder(Own(es, |es|, id)) <==> Ordered(Own(es, |es|, id))
    {
      SameOrder(Own(es, |es|, id));
    }
  }

  lemma SameOrder(es: seq<Event>)
    ensures InOrder(es) <==> Ordered(es)
  {
  }

  /** Two loaded rooms pass with the target selected exactly when what they show is consistent. */
  lemma RoomsExactly(env: Env, target: Text, board: seq<Record>, deal: seq<Record>)
    requires Injective(env.crypto.sha)
    ensures BoardThenDeal(env, target, board, deal).Some? && BoardThenDeal(env, target, board, deal).value.state.Some? <==>
              exists eb, ed :: Consistent(env, target, board, deal, eb, ed)
  {
    hide BoardThenDeal, AuditEvents, Injective, Consistent;
    if BoardThenDeal(env, target, board, deal).Some? && BoardThenDeal(env, target, board, deal).value.state.Some? {
      var eb, ed := AcceptedIsConsistent(env, target, board, deal);
    }
    if eb, ed :| Consistent(env, target, board, deal, eb, ed) {
      ConsistentIsAccepted(env, target, board, deal, eb, ed);
    }
  }

  lemma AcceptedIsConsistent(env: Env, target: Text, board: seq<Record>, deal: seq<Record>) returns (eb: seq<Event>, ed: seq<Event>)
    requires Injective(env.crypto.sha) && BoardThenDeal(env, target, board, deal).Some?
    requires BoardThenDeal(env, target, board, deal).value.state.Some?
    ensures Consistent(env, target, board, deal, eb, ed)
  {
    hide BoardThenDeal, AllFrames, Injective, AuditFold, Fold, Demands, Sound, Shows, ValidFrame, CleanFrame;
    eb, ed := AuditShows(env, target, board, deal);
    var ts := AllFrames(env, board, deal);
    AuditIsFold(env, target, board, deal);
    AllDecodable(env, board, deal);
    assert Strip(ts) == eb + ed;
    assert forall p: nat | p < |ts| :: ts[p].event == (eb + ed)[p];
    DemandsHold(env.crypto, target, ts);
    SoundExactly(env.crypto, target, eb + ed);
    var p: nat :| p < |eb + ed| && Selects(target, (eb + ed)[p]);
    if p >= |eb| {
      assert ed[p - |eb|] == (eb + ed)[p];
      DealHasNoAccept(env, deal, ed, p - |eb|);
      assert false;
    }
    assert Selects(target, eb[p]);
  }

  lemma DealHasNoAccept(env: Env, deal: seq<Record>, ed: seq<Event>, p: nat)
    requires Shown(env, Source.Deal, deal, |deal|, ed) && p < |ed|
    ensures !ed[p].frame.OfferFrame? && !ed[p].frame.Accept?
  {
    hide Tells;
    assert Shows(env, Source.Deal, deal[CountedAt(deal, |deal|)[p]], ed[p]);
  }

  lemma ConsistentIsAccepted(env: Env, target: Text, board: seq<Record>, deal: seq<Record>, eb: seq<Event>, ed: seq<Event>)
    requires Injective(env.crypto.sha) && Consistent(env, target, board, deal, eb, ed)
    ensures BoardThenDeal(env, target, board, deal).Some? && BoardThenDeal(env, target, board, deal).value.state.Some?
  {
    hide BoardThenDeal, RoomFrames, Injective, AuditFold, Fold, Demands, Sound, Shown, Readable, ValidFrame, CleanFrame, Selects;
    var bs, ds := RoomFrames(env, Board, board, |board|), RoomFrames(env, Source.Deal, deal, |deal|);
    var ts := AllFrames(env, board, deal);
    ShownRoom(env, Board, board, |board|, eb);
    ShownRoom(env, Source.Deal, deal, |deal|, ed);
    assert Strip(ts) == eb + ed;
    AllDecodable(env, board, deal);
    SoundExactly(env.crypto, target, eb + ed);
    DemandsMet(env.crypto, target, ts, |ts|);
    RoomsRun(env, target, board, deal);
    AuditIsFold(env, target, board, deal);
    RoomShows(env, Board, board, |board|);
    RoomShows(env, Source.Deal, deal, |deal|);
    FoldReports(env.crypto, target, ts, |bs|, |ts|);
    var p: nat :| p < |eb| && Selects(target, eb[p]);
    assert ts[p].event == eb[p];
  }

  /** An audit reports exactly when both files are captured whole, the rooms are the board and the
      target's deal room, and what their records show is consistent. */
  lemma AuditedExactly(env: Env, board: Descriptor, boardFile: Export, deal: Descriptor, dealFile: Export, target: Text)
    requires Injective(env.crypto.sha)
    ensures Audited(env, board, boardFile, deal, dealFile, target).Some? <==>
              && Captured(env, board, boardFile) && Captured(env, deal, dealFile)
              && IsHex32(target) && board.room == Lit("tclk-offers") && deal.room == Lit("mb-p-tclk-") + target[2..18]
              && exists eb, ed :: Consistent(env, target, boardFile.records.value, dealFile.records.value, eb, ed)
  {
    hide BoardThenDeal, Loadable, Captured, Consistent, Injective, Lit;
    LoadableExactly(env, board, boardFile);
    LoadableExactly(env, deal, dealFile);
    LoadedRecords(env, board, boardFile);
    LoadedRecords(env, deal, dealFile);
    if Loadable(env, board, boardFile) && Loadable(env, deal, dealFile) {
      RoomsExactly(env, target, boardFile.records.value, dealFile.records.value);
    }
  }

  lemma LoadedRecords(env: Env, d: Descriptor, x: Export)
    ensures Captured(env, d, x) ==> x.records.Some?
    ensures Loadable(env, d, x) ==> x.records.Some?
  {
  }

  lemma BoardPlace(env: Env, r: Record, source: Source, e: Event)
    requires Shows(env, source, r, e)
    ensures e.frame.OfferFrame? || e.frame.Accept? <==> source == Board
  {
    hide Tells;
  }

  /** The events behind a settled contract: the first two of its own frames and the settling two. */
  lemma SettledEvents(env: Env, target: Text, bs: seq<Record>, ds: seq<Record>)
    returns (d: Path, p: nat, q: nat, s: nat, t: nat)
    requires CrossRoomRefinement.Accepted(env, target, bs, ds)
    requires BoardThenDeal(env, target, bs, ds).value.state.value.status in {Claimed, Refunded}
    ensures var es, state := AuditEvents(env, bs, ds), BoardThenDeal(env, target, bs, ds).value.state.value;
            && p < q < |es| && s < t < |es|
            && es[p].frame == OfferFrame(d.offer) && es[q].frame == d.accept && es[s].frame == d.lock && es[t].frame == d.last
            && es[p].now <= es[q].now <= es[s].now <= es[t].now
            && Entered(env.crypto, d, es[q].now, es[s].now)
            && state.contract == Some(d.accept.contract) && state.rail == Some(d.lock.rail)
            && (if state.status == Claimed then Claims(env.crypto, d, es[t].now) else Refunds(d, es[t].now))
  {
    hide Fold, Own, Injective, BoardThenDeal, AuditEvents, Solo, Ordered, Route, ContractId;
    var id := RoomsRefineFold(env, target, bs, ds);
    var es := AuditEvents(env, bs, ds);
    var own, l, r := Own(es, |es|, id), 0, 0;
    d, l, r := OwnSettlement(env.crypto, own);
    p, q := OwnPlaces(es, id, 0, 1);
    s, t := OwnPlaces(es, id, l, r);
    InTime(own, l, r);
  }

  /** The records behind an audit that reports Claimed or Refunded: on the board an offer and then its
      acceptance, in the deal room a lock and then the settling frame, their times in this order and
      each guard read at its record's own time; the contract is the target. */
  lemma SettledRecords(env: Env, board: Descriptor, boardFile: Export, deal: Descriptor, dealFile: Export, target: Text)
    returns (d: Path, i: nat, j: nat, k: nat, m: nat, times: seq<int>)
    requires Injective(env.crypto.sha)
    requires Audited(env, board, boardFile, deal, dealFile, target).Some?
    requires Audited(env, board, boardFile, deal, dealFile, target).value.state.Some?
    requires Audited(env, board, boardFile, deal, dealFile, target).value.state.value.status in {Claimed, Refunded}
    ensures boardFile.records.Some? && dealFile.records.Some?
    ensures var bs, ds := boardFile.records.value, dealFile.records.value;
            && i < j < |bs| && k < m < |ds| && |times| == 4
            && Counts(bs[i]) && Shows(env, Board, bs[i], Event(OfferFrame(d.offer), times[0]))
            && Counts(bs[j]) && Shows(env, Board, bs[j], Event(d.accept, times[1]))
            && Counts(ds[k]) && Shows(env, Source.Deal, ds[k], Event(d.lock, times[2]))
            && Counts(ds[m]) && Shows(env, Source.Deal, ds[m], Event(d.last, times[3]))
    ensures times[0] <= times[1] <= times[2] <= times[3]
    ensures Entered(env.crypto, d, times[1], times[2]) && d.accept.contract == target
    ensures var s := Audited(env, board, boardFile, deal, dealFile, target).value.state.value;
            && s.contract == Some(target) && s.rail == Some(d.lock.rail)
            && (if s.status == Claimed then Claims(env.crypto, d, times[3]) else Refunds(d, times[3]))
  {
    hide Injective, Audited, BoardThenDeal, AuditEvents, CrossRoomRefinement.Accepted, Shows, Counts;
    hide Claims, Refunds, ContractId;
    AuditedRooms(env, board, boardFile, deal, dealFile, target);
    var bs, ds := boardFile.records.value, dealFile.records.value;
    var p, q, s, t;
    d, p, q, s, t := SettledEvents(env, target, bs, ds);
    var boardAt, dealAt := FramesAreRecords(env, board, boardFile, deal, dealFile, target);
    var es := AuditEvents(env, bs, ds);
    BoardRecord(env, bs, ds, boardAt, es, dealAt, q);
    BoardRecord(env, bs, ds, boardAt, es, dealAt, s);
    times := [es[p].now, es[q].now, es[s].now, es[t].now];
    i, j, k, m := boardAt[p], boardAt[q], dealAt[s - |boardAt|], dealAt[t - |boardAt|];
    assert es[p] == Event(OfferFrame(d.offer), times[0]) && es[q] == Event(d.accept, times[1]);
    assert es[s] == Event(d.lock, times[2]) && es[t] == Event(d.last, times[3]);
    assert boardAt[p] in boardAt && boardAt[q] in boardAt && dealAt[s - |boardAt|] in dealAt && dealAt[t - |boardAt|] in dealAt;
    RunThrough(env, target, bs, ds);
    LockNamesTarget(env, target, bs, ds, s);
  }

  lemma RunThrough(env: Env, target: Text, bs: seq<Record>, ds: seq<Record>)
    requires CrossRoomRefinement.Accepted(env, target, bs, ds)
    ensures BoardThenDeal(env, target, bs, ds).Some?
  {
    hide BoardThenDeal;
  }

  lemma InTime(own: seq<Event>, l: nat, r: nat)
    requires Ordered(own) && 1 < l < r < |own|
    ensures own[0].now <= own[1].now <= own[l].now <= own[r].now
  {
  }

  /** Offers and acceptances come from the board, other frames from the deal room. */
  lemma BoardRecord(env: Env, bs: seq<Record>, ds: seq<Record>, boardAt: seq<nat>, es: seq<Event>, dealAt: seq<nat>, p: nat)
    requires p < |es| == |boardAt| + |dealAt|
    requires forall p: nat | p < |boardAt| :: boardAt[p] < |bs| && Shows(env, Board, bs[boardAt[p]], es[p])
    requires forall p: nat | p < |dealAt| :: dealAt[p] < |ds| && Shows(env, Source.Deal, ds[dealAt[p]], es[|boardAt| + p])
    ensures es[p].frame.OfferFrame? || es[p].frame.Accept? <==> p < |boardAt|
  {
    hide Shows;
    if p < |boardAt| {
      BoardPlace(env, bs[boardAt[p]], Board, es[p]);
    } else {
      var n: nat := p - |boardAt|;
      assert dealAt[n] < |ds| && Shows(env, Source.Deal, ds[dealAt[n]], es[|boardAt| + n]);
      BoardPlace(env, ds[dealAt[n]], Source.Deal, es[p]);
    }
  }

  lemma LockNamesTarget(env: Env, target: Text, bs: seq<Record>, ds: seq<Record>, s: nat)
    requires BoardThenDeal(env, target, bs, ds).Some? && s < |AuditEvents(env, bs, ds)|
    requires AuditEvents(env, bs, ds)[s].frame.Lock?
    ensures AuditEvents(env, bs, ds)[s].frame.contract == target
  {
    hide BoardThenDeal, AuditEvents, Shown, Selects;
    var eb, ed := AuditShows(env, target, bs, ds);
  }
}
