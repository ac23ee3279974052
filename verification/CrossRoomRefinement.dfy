/** An accepted cross-room audit is an accepted transcript fold of the same
    frames, board then deal, with the same state for the selected contract. */
module CrossRoomRefinement {
  import opened Wrappers
  import opened Json
  import opened Frames
  import opened FrameCodec
  import opened FrameTheorems
  import opened Contracts
  import opened ContractTraces
  import opened Folds
  import opened Interleavings
  import opened Transport
  import opened CrossRoom

  // ---- The frames of an audit ------------------------------------------------------------

  /** The signed protocol frames among the first n records of a room, in order. */
  function RoomFrames(env: Env, source: Source, rs: seq<Record>, n: nat): seq<Tagged>
    requires n <= |rs|
  {
    if n == 0 then []
    else
      match RecordEvent(env, source, rs[n - 1])
      case Some(Some(t)) => RoomFrames(env, source, rs, n - 1) + [t]
      case Some(None) => RoomFrames(env, source, rs, n - 1)
      case None => RoomFrames(env, source, rs, n - 1)
  }

  /** The auditor over a list of frames. */
  function AuditFold(c: Crypto, target: Text, ts: seq<Tagged>, n: nat): Option<Audit>
    requires n <= |ts|
  {
    if n == 0 then Some(EMPTY_AUDIT)
    else
      match AuditFold(c, target, ts, n - 1)
      case None => None
      case Some(a) => AuditStep(c, target, a, ts[n - 1])
  }

  function Strip(ts: seq<Tagged>): (es: seq<Event>)
    ensures |es| == |ts| && forall i | 0 <= i < |ts| :: es[i] == ts[i].event
  {
    seq(|ts|, i requires 0 <= i < |ts| => ts[i].event)
  }

  lemma {:induction false} AuditFoldPrefix(c: Crypto, target: Text, ts: seq<Tagged>, us: seq<Tagged>, n: nat)
    requires n <= |ts|
    ensures AuditFold(c, target, ts + us, n) == AuditFold(c, target, ts, n)
  {
    hide AuditStep;
    if n > 0 { AuditFoldPrefix(c, target, ts, us, n - 1); }
  }

  lemma AuditFoldSnoc(c: Crypto, target: Text, ts: seq<Tagged>, t: Tagged)
    ensures AuditFold(c, target, ts + [t], |ts| + 1) ==
              match AuditFold(c, target, ts, |ts|) case None => None case Some(a) => AuditStep(c, target, a, t)
  {
    hide AuditStep;
    AuditFoldPrefix(c, target, ts, [t], |ts|);
  }

  /** The record loop of one room continues the fold over its frames. */
  lemma {:induction false} RoomIsFold(env: Env, target: Text, before: seq<Tagged>, source: Source, rs: seq<Record>, n: nat)
    requires n <= |rs|
    requires AuditRoom(env, target, AuditFold(env.crypto, target, before, |before|), source, rs, n).Some?
    ensures var ts := before + RoomFrames(env, source, rs, n);
            AuditRoom(env, target, AuditFold(env.crypto, target, before, |before|), source, rs, n) == AuditFold(env.crypto, target, ts, |ts|)
  {
    hide AuditStep, RecordEvent, AuditFold;
    if n == 0 {
      assert before + [] == before;
    } else {
      RoomIsFold(env, target, before, source, rs, n - 1);
      var ts := before + RoomFrames(env, source, rs, n - 1);
      match RecordEvent(env, source, rs[n - 1])
      case Some(Some(t)) =>
        AuditFoldSnoc(env.crypto, target, ts, t);
        assert ts + [t] == before + (RoomFrames(env, source, rs, n - 1) + [t]);
      case _ =>
    }
  }

  /** The frames of both rooms, board then deal. */
  function AllFrames(env: Env, board: seq<Record>, deal: seq<Record>): seq<Tagged> {
    RoomFrames(env, Board, board, |board|) + RoomFrames(env, Deal, deal, |deal|)
  }

  lemma AuditIsFold(env: Env, target: Text, board: seq<Record>, deal: seq<Record>)
    requires BoardThenDeal(env, target, board, deal).Some?
    ensures var ts := AllFrames(env, board, deal);
            AuditFold(env.crypto, target, ts, |ts|) == BoardThenDeal(env, target, board, deal)
  {
    hide AuditStep, RecordEvent, AuditRoom, RoomFrames;
    assert AuditFold(env.crypto, target, [], 0) == Some(EMPTY_AUDIT);
    if AuditRoom(env, target, Some(EMPTY_AUDIT), Board, board, |board|) == None { DealStaysNone(env, target, deal); }
    RoomIsFold(env, target, [], Board, board, |board|);
    assert [] + RoomFrames(env, Board, board, |board|) == RoomFrames(env, Board, board, |board|);
    RoomIsFold(env, target, RoomFrames(env, Board, board, |board|), Deal, deal, |deal|);
  }

  lemma {:induction false} FramesDecodable(env: Env, source: Source, rs: seq<Record>, n: nat)
    requires n <= |rs|
    ensures forall t | t in RoomFrames(env, source, rs, n) :: ValidFrame(env.crypto.sha, t.event.frame) && CleanFrame(t.event.frame)
  {
    hide RecordEvent, ValidFrame, CleanFrame;
    if n > 0 {
      FramesDecodable(env, source, rs, n - 1);
      match RecordEvent(env, source, rs[n - 1])
      case Some(Some(_)) => RecordEventDecodable(env, source, rs[n - 1]);
      case _ =>
    }
  }

  lemma RecordEventDecodable(env: Env, source: Source, r: Record)
    requires RecordEvent(env, source, r).Some? && RecordEvent(env, source, r).value.Some?
    ensures var f := RecordEvent(env, source, r).value.value.event.frame;
            ValidFrame(env.crypto.sha, f) && CleanFrame(f) && f.From() == r.sender
  {
    hide Line, DecodeLine, ValidFrame, CleanFrame;
    DecodesExactlyLines(env.crypto.sha, r.text, RecordEvent(env, source, r).value.value.event.frame);
  }

  // ---- Simulation ------------------------------------------------------------------------------

  ghost predicate Listed(c: Crypto, w: World, id: Text, l: Listing) {
    && id in w.contracts && w.contracts[id].offer == l.offer && l.offer.id == id
    && (if l.bound then w.contracts[id].status != Proposed else w.contracts[id] == Init(l.offer))
    && ValidFrame(c.sha, OfferFrame(l.offer)) && CleanFrame(OfferFrame(l.offer)) && Line(OfferFrame(l.offer)) in w.seen
  }

  /** The auditor's variables against the transcript fold's. */
  ghost predicate Simulates(c: Crypto, target: Text, a: Audit, w: World) {
    && a.seen == w.seen
    && a.offers.Keys == w.contracts.Keys
    && (forall id | id in a.offers :: Listed(c, w, id, a.offers[id]))
    && (target in w.byId <==> a.state.Some?)
    && (target in w.byId ==>
          var id := w.byId[target];
          id in w.contracts && w.contracts[id] == a.state.value && a.offers[id].bound)
  }

  lemma OfferSimulates(c: Crypto, target: Text, a: Audit, w: World, t: Tagged)
    requires Injective(c.sha) && Simulates(c, target, a, w)
    requires t.event.frame.OfferFrame? && ValidFrame(c.sha, t.event.frame) && CleanFrame(t.event.frame)
    requires AuditStep(c, target, a, t).Some?
    ensures FoldStep(c, w, t.event).Some?
    ensures Simulates(c, target, AuditStep(c, target, a, t).value, FoldStep(c, w, t.event).value)
  {
    hide Line, ValidFrame, CleanFrame, Injective, Init;
    var o := t.event.frame.offer;
    if o.id in a.offers {
      assert Listed(c, w, o.id, a.offers[o.id]);
      OfferIdsAreUnique(c.sha, o, a.offers[o.id].offer);
    }
    InitFacts(o);
  }

  lemma InitFacts(o: Offer)
    ensures Init(o).offer == o && Init(o).status == Proposed
  {
  }

  /** What an accepted acceptance does to the auditor, and to the fold. */
  lemma AcceptEffects(c: Crypto, target: Text, a: Audit, w: World, t: Tagged)
    requires Simulates(c, target, a, w)
    requires t.event.frame.Accept?
    requires AuditStep(c, target, a, t).Some?
    ensures var e := t.event; var ref, k := e.frame.ref, e.frame.contract;
            && ref in a.offers && !a.offers[ref].bound
            && var l := a.offers[ref]; var line := Line(e.frame);
               && Step(c, Init(l.offer), e).Ok?
               && var s := Step(c, Init(l.offer), e).value; var a' := AuditStep(c, target, a, t).value;
                  && a'.offers == a.offers[ref := l.(bound := true)] && a'.seen == a.seen + {line}
                  && a'.state == (if k == target then Some(s) else a.state)
                  && FoldStep(c, w, e) == Some(World(w.contracts[ref := s], w.byId[k := ref], w.seen + {line}))
  {
    hide Line, ValidFrame, CleanFrame, Init, Step;
    assert Listed(c, w, t.event.frame.ref, a.offers[t.event.frame.ref]);
  }

  lemma ListedKept(c: Crypto, w: World, w': World, id: Text, l: Listing)
    requires Listed(c, w, id, l) && id in w'.contracts && w'.contracts[id] == w.contracts[id] && w.seen <= w'.seen
    ensures Listed(c, w', id, l)
  {
  }

  lemma ListedBound(c: Crypto, w: World, w': World, id: Text, l: Listing)
    requires Listed(c, w, id, l) && w.seen <= w'.seen
    requires id in w'.contracts && w'.contracts[id].offer == l.offer && w'.contracts[id].status != Proposed
    ensures Listed(c, w', id, l.(bound := true))
  {
  }

  lemma AcceptListed(c: Crypto, target: Text, a: Audit, w: World, t: Tagged)
    requires Simulates(c, target, a, w) && t.event.frame.Accept? && AuditStep(c, target, a, t).Some?
    ensures FoldStep(c, w, t.event).Some?
    ensures var w', a' := FoldStep(c, w, t.event).value, AuditStep(c, target, a, t).value;
            forall id | id in a'.offers :: Listed(c, w', id, a'.offers[id])
  {
    hide Line, ValidFrame, CleanFrame, Init, Step, AuditStep, FoldStep, Listed;
    AcceptEffects(c, target, a, w, t);
    var ref := t.event.frame.ref;
    InitFacts(a.offers[ref].offer);
    StepKeeps(c, Init(a.offers[ref].offer), t.event);
    var w' := FoldStep(c, w, t.event).value;
    var a' := AuditStep(c, target, a, t).value;
    forall id | id in a'.offers
      ensures Listed(c, w', id, a'.offers[id])
    {
      assert Listed(c, w, id, a.offers[id]);
      if id == ref {
        ListedBound(c, w, w', ref, a.offers[ref]);
      } else {
        ListedKept(c, w, w', id, a.offers[id]);
      }
    }
  }

  lemma AcceptSimulates(c: Crypto, target: Text, a: Audit, w: World, t: Tagged)
    requires Simulates(c, target, a, w)
    requires t.event.frame.Accept?
    requires AuditStep(c, target, a, t).Some?
    ensures FoldStep(c, w, t.event).Some?
    ensures Simulates(c, target, AuditStep(c, target, a, t).value, FoldStep(c, w, t.event).value)
  {
    hide Line, ValidFrame, CleanFrame, Init, Step, AuditStep, FoldStep, Listed;
    AcceptEffects(c, target, a, w, t);
    AcceptListed(c, target, a, w, t);
  }

  lemma DealSimulates(c: Crypto, target: Text, a: Audit, w: World, t: Tagged)
    requires Simulates(c, target, a, w)
    requires !t.event.frame.OfferFrame? && !t.event.frame.Accept?
    requires AuditStep(c, target, a, t).Some?
    ensures FoldStep(c, w, t.event).Some?
    ensures Simulates(c, target, AuditStep(c, target, a, t).value, FoldStep(c, w, t.event).value)
  {
    hide Line, ValidFrame, CleanFrame, Init, Step;
    var id0 := w.byId[target];
    StepKeeps(c, a.state.value, t.event);
    var w' := FoldStep(c, w, t.event).value;
    var a' := AuditStep(c, target, a, t).value;
    assert Listed(c, w, id0, a.offers[id0]);
    forall id | id in a'.offers
      ensures Listed(c, w', id, a'.offers[id])
    {
      assert Listed(c, w, id, a.offers[id]);
    }
  }

  lemma {:induction false} FoldSimulates(c: Crypto, target: Text, ts: seq<Tagged>, n: nat)
    requires Injective(c.sha) && n <= |ts|
    requires forall i | 0 <= i < |ts| :: ValidFrame(c.sha, ts[i].event.frame) && CleanFrame(ts[i].event.frame)
    requires AuditFold(c, target, ts, n).Some?
    ensures Fold(c, Strip(ts), n).Some?
    ensures Simulates(c, target, AuditFold(c, target, ts, n).value, Fold(c, Strip(ts), n).value)
  {
    hide AuditStep, FoldStep, Injective, ValidFrame, CleanFrame, Simulates;
    if n == 0 {
      NothingSimulates(c, target);
    } else {
      FoldSimulates(c, target, ts, n - 1);
      var a, w, t := AuditFold(c, target, ts, n - 1).value, Fold(c, Strip(ts), n - 1).value, ts[n - 1];
      match t.event.frame
      case OfferFrame(_) => OfferSimulates(c, target, a, w, t);
      case Accept(_, _, _, _, _) => AcceptSimulates(c, target, a, w, t);
      case _ => DealSimulates(c, target, a, w, t);
    }
  }

  lemma NothingSimulates(c: Crypto, target: Text)
    ensures Simulates(c, target, EMPTY_AUDIT, EMPTY_WORLD)
  {
  }

  // ---- Venue time never runs backwards ------------------------------------------------------------

  ghost predicate Ordered(es: seq<Event>) {
    forall i, j | 0 <= i < j < |es| :: es[i].now <= es[j].now
  }

  lemma OrderedAppend(es: seq<Event>, e: Event)
    requires Ordered(es) && (es != [] ==> es[|es| - 1].now <= e.now)
    ensures Ordered(es + [e])
  {
  }

  /** The listing's time is its offer's, and the auditor's clock is the selected contract's. */
  ghost predicate Timed(target: Text, a: Audit, es: seq<Event>, n: nat, w: World)
    requires n <= |es|
  {
    && (forall id | id in a.offers :: Ordered(Own(es, n, id)) && Own(es, n, id) != [])
    && (forall id | id in a.offers && !a.offers[id].bound ::
          Own(es, n, id) == [Event(OfferFrame(a.offers[id].offer), a.offers[id].time)])
    && (target in w.byId && w.byId[target] in a.offers ==>
          var own := Own(es, n, w.byId[target]); own != [] && own[|own| - 1].now == a.clock)
  }

  /** Facts about the next event that the transcript fold provides. */
  lemma NextEvent(c: Crypto, es: seq<Event>, n: nat)
    requires n < |es| && Fold(c, es, n).Some? && Fold(c, es, n + 1).Some?
    ensures Route(es, n).Some?
    ensures forall id :: Own(es, n + 1, id) == if Route(es, n) == Some(id) then Own(es, n, id) + [es[n]] else Own(es, n, id)
    ensures var w := Fold(c, es, n).value;
            && (forall id :: Own(es, n, id) != [] <==> id in w.contracts)
            && (!es[n].frame.OfferFrame? && !es[n].frame.Accept? && es[n].frame.contract in w.byId ==>
                  Route(es, n) == Some(w.byId[es[n].frame.contract]))
  {
    hide Fold, Line, Solo, DistinctLines, EachRunsAlone, Offered;
    FoldMeaning(c, es, n);
    FoldMeaning(c, es, n + 1);
    assert Routed(es, n + 1) && Route(es, n).Some?;
    forall id
      ensures Own(es, n, id) != [] <==> id in Fold(c, es, n).value.contracts
    {
      OwnIsOffered(es, n, id);
    }
  }

  lemma OfferEffects(c: Crypto, target: Text, a: Audit, w: World, t: Tagged)
    requires t.event.frame.OfferFrame? && AuditStep(c, target, a, t).Some? && FoldStep(c, w, t.event).Some?
    ensures var o, a', w' := t.event.frame.offer, AuditStep(c, target, a, t).value, FoldStep(c, w, t.event).value;
            && o.id !in w.contracts && w'.byId == w.byId && a'.clock == a.clock
            && a'.offers.Keys == a.offers.Keys + {o.id} && a'.offers[o.id] == Listing(o, t.event.now, false)
            && forall other | other in a.offers && other != o.id :: a'.offers[other] == a.offers[other]
  {
    hide Line, Init;
  }

  lemma FoldNext(c: Crypto, es: seq<Event>, n: nat)
    requires n < |es| && Fold(c, es, n).Some?
    ensures Fold(c, es, n + 1) == FoldStep(c, Fold(c, es, n).value, es[n])
  {
    hide FoldStep;
  }

  /** One event belongs to one contract: if its listing and its own frames grow in order and the
      clock follows the selected contract, everything stays timed. */
  lemma TimedGrows(target: Text, a: Audit, a': Audit, es: seq<Event>, n: nat, w: World, w': World, id: Text)
    requires n < |es| && Timed(target, a, es, n, w)
    requires forall other :: Own(es, n + 1, other) == if other == id then Own(es, n, id) + [es[n]] else Own(es, n, other)
    requires Ordered(Own(es, n, id) + [es[n]])
    requires a'.offers.Keys == a.offers.Keys + {id}
    requires forall other | other in a.offers && other != id :: a'.offers[other] == a.offers[other]
    requires !a'.offers[id].bound ==> Own(es, n, id) + [es[n]] == [Event(OfferFrame(a'.offers[id].offer), a'.offers[id].time)]
    requires target in w'.byId && w'.byId[target] == id ==> a'.clock == es[n].now
    requires target in w'.byId && w'.byId[target] != id ==>
               a'.clock == a.clock && target in w.byId && w.byId[target] == w'.byId[target]
    ensures Timed(target, a', es, n + 1, w')
  {
    hide Own, Ordered;
    forall other | other in a'.offers
      ensures Ordered(Own(es, n + 1, other)) && Own(es, n + 1, other) != []
    {
      if other != id { assert other in a.offers; }
    }
  }

  lemma OfferRoute(es: seq<Event>, n: nat)
    requires n < |es| && es[n].frame.OfferFrame?
    ensures Route(es, n) == Some(es[n].frame.offer.id)
  {
  }

  lemma OfferTimed(c: Crypto, target: Text, a: Audit, es: seq<Event>, n: nat, t: Tagged)
    requires n < |es| && es[n] == t.event && Fold(c, es, n).Some? && Fold(c, es, n + 1).Some?
    requires var w := Fold(c, es, n).value; Simulates(c, target, a, w) && Timed(target, a, es, n, w)
    requires t.event.frame.OfferFrame? && AuditStep(c, target, a, t).Some?
    ensures Timed(target, AuditStep(c, target, a, t).value, es, n + 1, Fold(c, es, n + 1).value)
  {
    hide Fold, FoldStep, AuditStep, Own, Ordered, Simulates, Timed, Route, Line, Step, Init;
    FoldNext(c, es, n);
    var w, o := Fold(c, es, n).value, t.event.frame.offer;
    NextEvent(c, es, n);
    SameKeys(c, target, a, w);
    OfferEffects(c, target, a, w, t);
    OfferRoute(es, n);
    SingleOrdered(es[n]);
    assert [] + [es[n]] == [es[n]];
    TimedGrows(target, a, AuditStep(c, target, a, t).value, es, n, w, Fold(c, es, n + 1).value, o.id);
  }

  lemma SingleOrdered(e: Event)
    ensures Ordered([e])
  {
  }

  lemma SameKeys(c: Crypto, target: Text, a: Audit, w: World)
    requires Simulates(c, target, a, w)
    ensures a.offers.Keys == w.contracts.Keys
    ensures target in w.byId ==> w.byId[target] in a.offers && a.offers[w.byId[target]].bound
    ensures a.state.Some? ==> target in w.byId
  {
  }

  /** What the auditor checked and set when it took an acceptance or a deal frame. */
  lemma AcceptClock(c: Crypto, target: Text, a: Audit, t: Tagged)
    requires t.event.frame.Accept? && AuditStep(c, target, a, t).Some?
    ensures var ref := t.event.frame.ref;
            && ref in a.offers && a.offers[ref].time <= t.event.now
            && AuditStep(c, target, a, t).value.clock == if t.event.frame.contract == target then t.event.now else a.clock
  {
    hide Line, Step, Init;
  }

  lemma DealClock(c: Crypto, target: Text, a: Audit, t: Tagged)
    requires !t.event.frame.OfferFrame? && !t.event.frame.Accept? && AuditStep(c, target, a, t).Some?
    ensures a.state.Some? && t.event.frame.contract == target && a.clock <= t.event.now
    ensures var a' := AuditStep(c, target, a, t).value; a'.offers == a.offers && a'.clock == t.event.now
  {
    hide Line, Step, Init;
  }

  lemma SameRouting(c: Crypto, w: World, e: Event)
    requires !e.frame.OfferFrame? && !e.frame.Accept? && FoldStep(c, w, e).Some?
    ensures FoldStep(c, w, e).value.byId == w.byId
  {
    hide Line, Step;
  }

  lemma AcceptTimed(c: Crypto, target: Text, a: Audit, es: seq<Event>, n: nat, t: Tagged)
    requires n < |es| && es[n] == t.event && Fold(c, es, n).Some? && Fold(c, es, n + 1).Some?
    requires var w := Fold(c, es, n).value; Simulates(c, target, a, w) && Timed(target, a, es, n, w)
    requires t.event.frame.Accept? && AuditStep(c, target, a, t).Some?
    ensures Timed(target, AuditStep(c, target, a, t).value, es, n + 1, Fold(c, es, n + 1).value)
  {
    hide Fold, FoldStep, AuditStep, Own, Ordered, Simulates, Step, Init, Line;
    FoldNext(c, es, n);
    var w, ref := Fold(c, es, n).value, t.event.frame.ref;
    NextEvent(c, es, n);
    SameKeys(c, target, a, w);
    AcceptEffects(c, target, a, w, t);
    AcceptClock(c, target, a, t);
    OrderedAppend(Own(es, n, ref), es[n]);
    assert Route(es, n) == Some(ref);
    TimedGrows(target, a, AuditStep(c, target, a, t).value, es, n, w, Fold(c, es, n + 1).value, ref);
  }

  lemma DealTimed(c: Crypto, target: Text, a: Audit, es: seq<Event>, n: nat, t: Tagged)
    requires n < |es| && es[n] == t.event && Fold(c, es, n).Some? && Fold(c, es, n + 1).Some?
    requires var w := Fold(c, es, n).value; Simulates(c, target, a, w) && Timed(target, a, es, n, w)
    requires !t.event.frame.OfferFrame? && !t.event.frame.Accept? && AuditStep(c, target, a, t).Some?
    ensures Timed(target, AuditStep(c, target, a, t).value, es, n + 1, Fold(c, es, n + 1).value)
  {
    hide Fold, FoldStep, AuditStep, Own, Ordered, Simulates, Step, Init, Line;
    FoldNext(c, es, n);
    var w := Fold(c, es, n).value;
    NextEvent(c, es, n);
    SameKeys(c, target, a, w);
    DealClock(c, target, a, t);
    SameRouting(c, w, es[n]);
    var id := w.byId[target];
    OrderedAppend(Own(es, n, id), es[n]);
    TimedGrows(target, a, AuditStep(c, target, a, t).value, es, n, w, Fold(c, es, n + 1).value, id);
  }

  lemma {:induction false} FoldTimed(c: Crypto, target: Text, ts: seq<Tagged>, n: nat)
    requires Injective(c.sha) && n <= |ts|
    requires forall i | 0 <= i < |ts| :: ValidFrame(c.sha, ts[i].event.frame) && CleanFrame(ts[i].event.frame)
    requires AuditFold(c, target, ts, n).Some?
    ensures Fold(c, Strip(ts), n).Some?
    ensures Timed(target, AuditFold(c, target, ts, n).value, Strip(ts), n, Fold(c, Strip(ts), n).value)
  {
    hide AuditStep, FoldStep, Injective, ValidFrame, CleanFrame, Simulates, Timed;
    FoldSimulates(c, target, ts, n);
    if n == 0 {
      NothingTimed(target, Strip(ts));
    } else {
      FoldSimulates(c, target, ts, n - 1);
      FoldTimed(c, target, ts, n - 1);
      var a, t := AuditFold(c, target, ts, n - 1).value, ts[n - 1];
      match t.event.frame
      case OfferFrame(_) => OfferTimed(c, target, a, Strip(ts), n - 1, t);
      case Accept(_, _, _, _, _) => AcceptTimed(c, target, a, Strip(ts), n - 1, t);
      case _ => DealTimed(c, target, a, Strip(ts), n - 1, t);
    }
  }

  lemma NothingTimed(target: Text, es: seq<Event>)
    ensures Timed(target, EMPTY_AUDIT, es, 0, EMPTY_WORLD)
  {
  }

  // ---- The refinement ---------------------------------------------------------------------------------

  /** The frames an audit read, board then deal. */
  function AuditEvents(env: Env, board: seq<Record>, deal: seq<Record>): seq<Event> {
    Strip(AllFrames(env, board, deal))
  }

  lemma AllDecodable(env: Env, board: seq<Record>, deal: seq<Record>)
    ensures var ts := AllFrames(env, board, deal);
            forall i | 0 <= i < |ts| :: ValidFrame(env.crypto.sha, ts[i].event.frame) && CleanFrame(ts[i].event.frame)
  {
    hide ValidFrame, CleanFrame, RoomFrames;
    FramesDecodable(env, Board, board, |board|);
    FramesDecodable(env, Deal, deal, |deal|);
    var ts := AllFrames(env, board, deal);
    forall i | 0 <= i < |ts|
      ensures ValidFrame(env.crypto.sha, ts[i].event.frame) && CleanFrame(ts[i].event.frame)
    {
      assert ts[i] in RoomFrames(env, Board, board, |board|) || ts[i] in RoomFrames(env, Deal, deal, |deal|);
    }
  }

  /** Two loaded rooms the auditor runs through with a contract selected. */
  ghost predicate Accepted(env: Env, target: Text, board: seq<Record>, deal: seq<Record>) {
    Injective(env.crypto.sha) && BoardThenDeal(env, target, board, deal).Some? &&
    BoardThenDeal(env, target, board, deal).value.state.Some?
  }

  lemma Simulated(env: Env, target: Text, board: seq<Record>, deal: seq<Record>)
    requires Accepted(env, target, board, deal)
    ensures var es, a := AuditEvents(env, board, deal), BoardThenDeal(env, target, board, deal).value;
            && Fold(env.crypto, es, |es|).Some?
            && var w := Fold(env.crypto, es, |es|).value;
               Simulates(env.crypto, target, a, w) && Timed(target, a, es, |es|, w)
  {
    hide AuditFold, Fold, Injective, ValidFrame, CleanFrame, BoardThenDeal, AllFrames, Simulates, Timed;
    var ts := AllFrames(env, board, deal);
    AuditIsFold(env, target, board, deal);
    AllDecodable(env, board, deal);
    FoldSimulates(env.crypto, target, ts, |ts|);
    FoldTimed(env.crypto, target, ts, |ts|);
  }

  /** If the auditor accepts, the same signed frames, board then deal, are accepted by the
      transcript fold; the selected contract has the audited state there, which is also its
      solo state; and its frames are in time order. */
  lemma RoomsRefineFold(env: Env, target: Text, board: seq<Record>, deal: seq<Record>) returns (id: Text)
    requires Accepted(env, target, board, deal)
    ensures var es := AuditEvents(env, board, deal);
            && Fold(env.crypto, es, |es|).Some?
            && var w := Fold(env.crypto, es, |es|).value;
               && target in w.byId && w.byId[target] == id && id in w.contracts
               && BoardThenDeal(env, target, board, deal).value.state == Some(w.contracts[id])
               && Solo(env.crypto, Own(es, |es|, id)) == Some(w.contracts[id])
               && Ordered(Own(es, |es|, id))
  {
    hide Fold, Own, Ordered, Injective, BoardThenDeal, AuditEvents, Solo, Offered, DistinctLines, Routed, EachRunsAlone, Listed;
    Simulated(env, target, board, deal);
    var es := AuditEvents(env, board, deal);
    FoldMeaning(env.crypto, es, |es|);
    id := Fold(env.crypto, es, |es|).value.byId[target];
  }

  /** At most one acceptance of any contract is ever selected. */
  lemma OneSelectedAcceptance(env: Env, target: Text, board: seq<Record>, deal: seq<Record>, i: nat, j: nat)
    requires Accepted(env, target, board, deal)
    requires i < j < |AuditEvents(env, board, deal)|
    requires var es := AuditEvents(env, board, deal); es[i].frame.Accept? && es[j].frame.Accept?
    ensures var es := AuditEvents(env, board, deal); es[i].frame.contract != es[j].frame.contract
  {
    hide Fold, Injective, BoardThenDeal, AllFrames, Simulates, Timed, ValidFrame, CleanFrame;
    Simulated(env, target, board, deal);
    AllDecodable(env, board, deal);
    OneAcceptPerContract(env.crypto, AuditEvents(env, board, deal), i, j);
  }

  lemma AuditedRooms(env: Env, board: Descriptor, boardFile: Export, deal: Descriptor, dealFile: Export, target: Text)
    requires Injective(env.crypto.sha) && Audited(env, board, boardFile, deal, dealFile, target).Some?
    ensures boardFile.records.Some? && dealFile.records.Some?
    ensures Accepted(env, target, boardFile.records.value, dealFile.records.value)
    ensures Audited(env, board, boardFile, deal, dealFile, target) ==
              BoardThenDeal(env, target, boardFile.records.value, dealFile.records.value)
  {
    hide BoardThenDeal, RecordOk, DescriptorOk, RoomsMatch, Injective;
  }
}
