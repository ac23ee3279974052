/** validate_transcript: one saved batch of one room, many interleaved contracts. */
module Transcripts {
  import opened Wrappers
  import opened Json
  import opened Frames
  import opened FrameCodec
  import opened FrameTheorems
  import opened Contracts
  import opened ContractTraces
  import opened Folds
  import opened Interleavings
  import opened Transport

  datatype Batch = Batch(
    status: string, generation: int, starting: int, proposed: int, count: int,
    firstSeq: Option<int>, lastSeq: int, messages: seq<Message>)

  // What the report says of one contract.
  datatype Entry = Entry(contract: Option<Text>, status: Status, rail: Option<Text>)

  datatype Report = Report(contracts: map<Text, Entry>, accepted: nat, ignored: nat)

  // ---- The batch, message by message ----------------------------------------------------

  predicate Bounded(n: int) {
    0 <= n <= MAX_SAFE_INTEGER
  }

  predicate HeaderOk(b: Batch) {
    && b.status == "ok"
    && Bounded(b.generation) && Bounded(b.starting) && Bounded(b.proposed) && Bounded(b.count) && Bounded(b.lastSeq)
    && b.count == |b.messages|
    && b.proposed == b.lastSeq && b.proposed >= b.starting
    && (if b.messages != [] then b.firstSeq == Some(b.messages[0].sequence) else b.firstSeq == None && b.proposed == b.starting)
  }

  function Previous(b: Batch, i: nat): int
    requires i <= |b.messages|
  {
    if i == 0 then b.starting else b.messages[i - 1].sequence
  }

  predicate SeqOk(b: Batch, i: nat)
    requires i < |b.messages|
  {
    var s := b.messages[i].sequence;
    0 < s <= MAX_SAFE_INTEGER && Previous(b, i) < s <= b.proposed && ((i == 0 && b.starting == 0) || s == Previous(b, i) + 1)
  }

  /** None where the source raises, Some(None) for an ordinary message. */
  function MessageEvent(env: Env, room: Text, m: Message): Option<Option<Event>> {
    if !VerifyTransport(env, room, m) then None
    else
      match DecodeLine(env.crypto.sha, m.text)
      case Err(_) => None
      case Ok(None) => Some(None)
      case Ok(Some(f)) =>
        if m.sender != f.From() then None
        else
          match env.parseTime(m.ts)
          case None => None
          case Some(now) => Some(Some(Event(f, now)))
  }

  datatype Scanned = Scanned(world: World, accepted: nat, ignored: nat)

  /** The state after the first n messages, None once one of them was refused. */
  function Scan(env: Env, b: Batch, room: Text, n: nat): Option<Scanned>
    requires n <= |b.messages|
  {
    if n == 0 then Some(Scanned(EMPTY_WORLD, 0, 0))
    else
      match Scan(env, b, room, n - 1)
      case None => None
      case Some(s) => if SeqOk(b, n - 1) then Take(env, room, s, b.messages[n - 1]) else None
  }

  function Take(env: Env, room: Text, s: Scanned, m: Message): Option<Scanned> {
    match MessageEvent(env, room, m)
    case None => None
    case Some(None) => Some(s.(ignored := s.ignored + 1))
    case Some(Some(e)) =>
      match FoldStep(env.crypto, s.world, e)
      case None => None
      case Some(w) => Some(Scanned(w, s.accepted + 1, s.ignored))
  }

  function EntryOf(s: State): Entry {
    Entry(s.contract, s.status, s.rail)
  }

  function ReportOf(s: Scanned): Report {
    Report(map id | id in s.world.contracts :: EntryOf(s.world.contracts[id]), s.accepted, s.ignored)
  }

  function Validated(env: Env, b: Batch, room: Text): Option<Report> {
    if !HeaderOk(b) then None
    else
      match Scan(env, b, room, |b.messages|)
      case None => None
      case Some(s) => if Previous(b, |b.messages|) == b.proposed then Some(ReportOf(s)) else None
  }

  // ---- The scan is the fold over the frames of the batch --------------------------------------

  /** Message i passes every check that does not depend on the contracts. */
  predicate MessageOk(env: Env, b: Batch, room: Text, i: nat)
    requires i < |b.messages|
  {
    SeqOk(b, i) && MessageEvent(env, room, b.messages[i]).Some?
  }

  predicate MessagesOk(env: Env, b: Batch, room: Text, n: nat)
    requires n <= |b.messages|
  {
    forall i: nat | i < n :: MessageOk(env, b, room, i)
  }

  function Events(env: Env, b: Batch, room: Text, n: nat): seq<Event>
    requires n <= |b.messages| && MessagesOk(env, b, room, n)
  {
    if n == 0 then []
    else
      assert MessageOk(env, b, room, n - 1);
      match MessageEvent(env, room, b.messages[n - 1]).value
      case None => Events(env, b, room, n - 1)
      case Some(e) => Events(env, b, room, n - 1) + [e]
  }

  lemma {:induction false} FoldPrefix(c: Crypto, es: seq<Event>, e: Event, n: nat)
    requires n <= |es|
    ensures Fold(c, es + [e], n) == Fold(c, es, n)
  {
    hide FoldStep;
    if n > 0 { FoldPrefix(c, es, e, n - 1); }
  }

  lemma {:induction false} ScanIsFold(env: Env, b: Batch, room: Text, n: nat)
    requires n <= |b.messages|
    ensures Scan(env, b, room, n).Some? <==>
              MessagesOk(env, b, room, n) && var es := Events(env, b, room, n); Fold(env.crypto, es, |es|).Some?
    ensures Scan(env, b, room, n).Some? ==>
              var es, s := Events(env, b, room, n), Scan(env, b, room, n).value;
              Fold(env.crypto, es, |es|) == Some(s.world) && s.accepted == |es| && s.accepted + s.ignored == n
  {
    hide MessageEvent, SeqOk, FoldStep;
    if n > 0 {
      ScanIsFold(env, b, room, n - 1);
      if MessagesOk(env, b, room, n) {
        assert MessageOk(env, b, room, n - 1) && MessagesOk(env, b, room, n - 1);
        var es := Events(env, b, room, n - 1);
        match MessageEvent(env, room, b.messages[n - 1]).value
        case None =>
        case Some(e) => FoldPrefix(env.crypto, es, e, |es|);
      } else if Scan(env, b, room, n - 1).Some? {
        assert !MessageOk(env, b, room, n - 1);
      }
    }
  }

  lemma {:induction false} ScanStaysNone(env: Env, b: Batch, room: Text, m: nat, n: nat)
    requires m <= n <= |b.messages| && Scan(env, b, room, m) == None
    ensures Scan(env, b, room, n) == None
    decreases n
  {
    hide Take, SeqOk;
    if m < n { ScanStaysNone(env, b, room, m, n - 1); }
  }

  lemma MessageEventDecodable(env: Env, room: Text, m: Message)
    requires MessageEvent(env, room, m).Some? && MessageEvent(env, room, m).value.Some?
    ensures var f := MessageEvent(env, room, m).value.value.frame;
            ValidFrame(env.crypto.sha, f) && CleanFrame(f) && m.text == Line(f) && m.sender == f.From()
  {
    hide VerifyTransport, DecodeLine, ValidFrame, CleanFrame, Line;
    DecodesExactlyLines(env.crypto.sha, m.text, MessageEvent(env, room, m).value.value.frame);
  }

  lemma {:induction false} EventsDecodable(env: Env, b: Batch, room: Text, n: nat)
    requires n <= |b.messages| && MessagesOk(env, b, room, n)
    ensures forall e | e in Events(env, b, room, n) :: ValidFrame(env.crypto.sha, e.frame) && CleanFrame(e.frame)
  {
    hide SeqOk, MessageEvent, ValidFrame, CleanFrame, Line;
    if n > 0 {
      EventsDecodable(env, b, room, n - 1);
      assert MessageOk(env, b, room, n - 1);
      var m := b.messages[n - 1];
      match MessageEvent(env, room, m).value
      case None =>
      case Some(_) => MessageEventDecodable(env, room, m);
    }
  }

  /** Sequences of an accepted batch are consecutive and end at the proposed cursor. */
  lemma {:induction false} SequencesAreConsecutive(b: Batch, i: nat)
    requires i < |b.messages| && forall j: nat | j < |b.messages| :: SeqOk(b, j)
    ensures b.messages[i].sequence == b.messages[0].sequence + i
    ensures b.starting > 0 ==> b.messages[0].sequence == b.starting + 1
  {
    assert SeqOk(b, 0);
    if i > 0 {
      assert SeqOk(b, i);
      SequencesAreConsecutive(b, i - 1);
    }
  }

  /** A batch is accepted exactly when its header is consistent, every message is
      in sequence, signed and decodable, the tclk lines are distinct, every frame
      routes to an earlier offer or acceptance, and each contract's own frames run
      alone; each reported status and rail is that of the solo run. */
  lemma AcceptedBatches(env: Env, b: Batch, room: Text)
    ensures Validated(env, b, room).Some? <==>
              && HeaderOk(b) && MessagesOk(env, b, room, |b.messages|) && Previous(b, |b.messages|) == b.proposed
              && var es := Events(env, b, room, |b.messages|);
                 DistinctLines(es, |es|) && Routed(es, |es|) && EachRunsAlone(env.crypto, es, |es|)
    ensures Validated(env, b, room).Some? ==>
              var es, r := Events(env, b, room, |b.messages|), Validated(env, b, room).value;
              && r.accepted == |es| && r.accepted + r.ignored == |b.messages|
              && (forall id :: id in r.contracts <==> Offered(es, |es|, id))
              && (forall id | id in r.contracts ::
                    Solo(env.crypto, Own(es, |es|, id)).Some? &&
                    r.contracts[id] == EntryOf(Solo(env.crypto, Own(es, |es|, id)).value))
  {
    hide Scan, MessagesOk, FoldStep, HeaderOk, Own, Solo, Offered, DistinctLines, Routed, EachRunsAlone;
    ScanIsFold(env, b, room, |b.messages|);
    if MessagesOk(env, b, room, |b.messages|) {
      var es := Events(env, b, room, |b.messages|);
      FoldMeaning(env.crypto, es, |es|);
    }
  }

  lemma {:induction false} EventsAreDecodable(env: Env, b: Batch, room: Text)
    requires MessagesOk(env, b, room, |b.messages|)
    ensures Decodable(env.crypto, Events(env, b, room, |b.messages|))
  {
    hide ValidFrame, CleanFrame;
    var es := Events(env, b, room, |b.messages|);
    EventsDecodable(env, b, room, |b.messages|);
    assert forall i: nat | i < |es| :: es[i] in es;
  }

  /** Re-interleaving the contracts of an accepted batch: any well-formed batch whose frames are
      the same, each contract's in their old order, is accepted and reports the same contracts
      with the same status and rail. Rooms, sequences and ordinary messages may differ. */
  lemma ReorderedBatches(env: Env, b: Batch, room: Text, b': Batch, room': Text)
    requires Injective(env.crypto.sha) && Validated(env, b, room).Some?
    requires HeaderOk(b') && MessagesOk(env, b', room', |b'.messages|) && Previous(b', |b'.messages|) == b'.proposed
    requires MessagesOk(env, b, room, |b.messages|) ==>
               Reorders(Events(env, b, room, |b.messages|), Events(env, b', room', |b'.messages|))
    ensures Validated(env, b', room').Some?
    ensures Validated(env, b', room').value.contracts == Validated(env, b, room).value.contracts
  {
    hide Scan, MessagesOk, FoldStep, Fold, HeaderOk, Injective, Reorders, Decodable;
    ScanIsFold(env, b, room, |b.messages|);
    ScanIsFold(env, b', room', |b'.messages|);
    EventsAreDecodable(env, b, room);
    ReorderingIsHarmless(env.crypto, Events(env, b, room, |b.messages|), Events(env, b', room', |b'.messages|));
  }

  // ---- The validator: two dictionaries sharing mutable contract objects -------------------------

  /** The dictionaries hold the world: one object per offer id, shared by both. */
  ghost predicate Holds(contracts: map<Text, Contract>, byId: map<Text, Contract>, seen: set<Text>, w: World)
    reads contracts.Values
  {
    && contracts.Keys == w.contracts.Keys && byId.Keys == w.byId.Keys && seen == w.seen
    && (forall id | id in contracts :: contracts[id].Value() == w.contracts[id])
    && (forall k | k in byId :: w.byId[k] in contracts && byId[k] == contracts[w.byId[k]])
    && (forall a, b | a in contracts && b in contracts && a != b :: contracts[a] != contracts[b])
  }

  /** state.apply(frame, now): one shared object changes, the world follows. */
  method ApplyShared(c: Crypto, state: Contract, e: Event, ghost contracts: map<Text, Contract>, ghost byId: map<Text, Contract>,
                     ghost seen: set<Text>, ghost w: World, ghost id: Text)
    returns (ok: bool)
    requires Holds(contracts, byId, seen, w) && id in contracts && contracts[id] == state
    modifies state
    ensures ok <==> Step(c, w.contracts[id], e).Ok?
    ensures ok ==> Holds(contracts, byId, seen, w.(contracts := w.contracts[id := Step(c, w.contracts[id], e).value]))
  {
    hide Step;
    var error := state.Apply(c, e);
    ok := error == None;
  }

  /** Contract(frame) under its offer id. */
  method OpenContract(offer: Offer, contracts: map<Text, Contract>, ghost byId: map<Text, Contract>, ghost seen: set<Text>, ghost w: World)
    returns (contracts': map<Text, Contract>)
    requires Holds(contracts, byId, seen, w) && offer.id !in contracts
    ensures Holds(contracts', byId, seen, w.(contracts := w.contracts[offer.id := Init(offer)]))
    ensures forall id | id in contracts' :: (id in contracts && contracts'[id] == contracts[id]) || fresh(contracts'[id])
  {
    hide Init;
    var state := new Contract(offer);
    contracts' := contracts[offer.id := state];
  }

  /** An acceptance also files the contract under its contract id. */
  method AcceptContract(c: Crypto, e: Event, contracts: map<Text, Contract>, byId: map<Text, Contract>,
                        ghost seen: set<Text>, ghost w: World)
    returns (ok: bool, byId': map<Text, Contract>)
    requires Holds(contracts, byId, seen, w) && e.frame.Accept? && e.frame.ref in contracts
    modifies contracts[e.frame.ref]
    ensures ok <==> Deliver(c, w, e.frame.ref, e).Some?
    ensures ok ==> Holds(contracts, byId', seen, Deliver(c, w, e.frame.ref, e).value)
  {
    hide Step, Holds;
    HoldsFacts(contracts, byId, seen, w, []);
    var state := contracts[e.frame.ref];
    ok := ApplyShared(c, state, e, contracts, byId, seen, w, e.frame.ref);
    byId' := byId[e.frame.contract := state];
    if ok {
      FiledUnder(contracts, byId, seen, w.(contracts := w.contracts[e.frame.ref := Step(c, w.contracts[e.frame.ref], e).value]),
                 e.frame.contract, e.frame.ref);
    }
  }

  lemma FiledUnder(contracts: map<Text, Contract>, byId: map<Text, Contract>, seen: set<Text>, w: World, k: Text, id: Text)
    requires Holds(contracts, byId, seen, w) && id in contracts
    ensures Holds(contracts, byId[k := contracts[id]], seen, w.(byId := w.byId[k := id]))
  {
  }

  lemma HoldsFacts(contracts: map<Text, Contract>, byId: map<Text, Contract>, seen: set<Text>, w: World, line: Text)
    requires Holds(contracts, byId, seen, w)
    ensures contracts.Keys == w.contracts.Keys && byId.Keys == w.byId.Keys && seen == w.seen
    ensures forall k | k in byId :: w.byId[k] in contracts && byId[k] == contracts[w.byId[k]]
    ensures Holds(contracts, byId, seen + {line}, w.(seen := w.seen + {line}))
  {
  }

  /** The loop body behind the sequence checks: route one frame to its contract. */
  method TakeFrame(c: Crypto, contracts: map<Text, Contract>, byId: map<Text, Contract>, seen: set<Text>,
                   ghost w: World, line: Text, e: Event)
    returns (ok: bool, contracts': map<Text, Contract>, byId': map<Text, Contract>, seen': set<Text>)
    requires Holds(contracts, byId, seen, w) && line == Line(e.frame)
    modifies contracts.Values
    ensures ok <==> FoldStep(c, w, e).Some?
    ensures ok ==> Holds(contracts', byId', seen', FoldStep(c, w, e).value)
    ensures forall id | id in contracts' :: (id in contracts && contracts'[id] == contracts[id]) || fresh(contracts'[id])
  {
    hide Step, Line, Init, Holds;
    HoldsFacts(contracts, byId, seen, w, line);
    ok, contracts', byId', seen' := false, contracts, byId, seen;
    if line in seen {
      return;
    }
    seen' := seen + {line};
    ghost var v := w.(seen := w.seen + {line});
    match e.frame {
      case OfferFrame(offer) =>
        if offer.id !in contracts {
          contracts' := OpenContract(offer, contracts, byId, seen', v);
          ok := true;
        }
      case Accept(_, ref, _, _, _) =>
        if ref in contracts {
          ok, byId' := AcceptContract(c, e, contracts, byId, seen', v);
        }
      case _ =>
        if e.frame.contract in byId {
          ok := ApplyShared(c, byId[e.frame.contract], e, contracts, byId, seen', v, w.byId[e.frame.contract]);
        }
    }
  }

  /** One pass of the loop: an ordinary message is counted, a frame is routed. */
  method TakeMessage(env: Env, room: Text, m: Message, contracts: map<Text, Contract>, byId: map<Text, Contract>, seen: set<Text>,
                     accepted: nat, ignored: nat, ghost w: World)
    returns (ok: bool, contracts': map<Text, Contract>, byId': map<Text, Contract>, seen': set<Text>, accepted': nat, ignored': nat)
    requires Holds(contracts, byId, seen, w)
    modifies contracts.Values
    ensures ok <==> Take(env, room, Scanned(w, accepted, ignored), m).Some?
    ensures ok ==> var s := Take(env, room, Scanned(w, accepted, ignored), m).value;
                   Holds(contracts', byId', seen', s.world) && accepted' == s.accepted && ignored' == s.ignored
    ensures forall id | id in contracts' :: (id in contracts && contracts'[id] == contracts[id]) || fresh(contracts'[id])
  {
    hide Holds, MessageEvent, Line, FoldStep;
    ok, contracts', byId', seen', accepted', ignored' := false, contracts, byId, seen, accepted, ignored;
    var event := MessageEvent(env, room, m);
    if event.None? {
      return;
    }
    if event.value.None? {
      ok, ignored' := true, ignored + 1;
    } else {
      MessageEventDecodable(env, room, m);
      ok, contracts', byId', seen' := TakeFrame(env.crypto, contracts, byId, seen, w, m.text, event.value.value);
      accepted' := accepted + 1;
    }
  }

  /** validate_transcript: the report, or None where the source raises. */
  method ValidateTranscript(env: Env, b: Batch, room: Text) returns (report: Option<Report>)
    ensures report == Validated(env, b, room)
  {
    hide Take, SeqOk, HeaderOk, Holds, Scan;
    if !HeaderOk(b) {
      return None;
    }
    var contracts: map<Text, Contract> := map[];
    var byId: map<Text, Contract> := map[];
    var seen: set<Text> := {};
    var ignored, accepted := 0, 0;
    var previous := b.starting;
    ghost var w := EMPTY_WORLD;
    StartsEmpty(env, b, room, contracts, byId, seen);
    for index := 0 to |b.messages|
      invariant previous == Previous(b, index)
      invariant Scan(env, b, room, index) == Some(Scanned(w, accepted, ignored))
      invariant Holds(contracts, byId, seen, w)
      invariant forall id | id in contracts :: fresh(contracts[id])
    {
      ScanNext(env, b, room, index);
      var ok := SeqOk(b, index);
      if ok {
        ghost var next := Take(env, room, Scanned(w, accepted, ignored), b.messages[index]);
        previous := b.messages[index].sequence;
        ok, contracts, byId, seen, accepted, ignored :=
          TakeMessage(env, room, b.messages[index], contracts, byId, seen, accepted, ignored, w);
        if ok { w := next.value.world; }
      }
      if !ok {
        ScanStaysNone(env, b, room, index + 1, |b.messages|);
        return None;
      }
    }
    if previous != b.proposed {
      return None;
    }
    var entries := map id | id in contracts :: Entry(contracts[id].contract, contracts[id].status, contracts[id].rail);
    SameEntries(contracts, byId, seen, w, entries);
    return Some(Report(entries, accepted, ignored));
  }

  lemma StartsEmpty(env: Env, b: Batch, room: Text, contracts: map<Text, Contract>, byId: map<Text, Contract>, seen: set<Text>)
    requires contracts == map[] && byId == map[] && seen == {}
    ensures Holds(contracts, byId, seen, EMPTY_WORLD)
    ensures Scan(env, b, room, 0) == Some(Scanned(EMPTY_WORLD, 0, 0))
  {
  }

  lemma ScanNext(env: Env, b: Batch, room: Text, i: nat)
    requires i < |b.messages| && Scan(env, b, room, i).Some?
    ensures Scan(env, b, room, i + 1) == if SeqOk(b, i) then Take(env, room, Scan(env, b, room, i).value, b.messages[i]) else None
  {
    hide Take, SeqOk;
  }

  lemma SameEntries(contracts: map<Text, Contract>, byId: map<Text, Contract>, seen: set<Text>, w: World, entries: map<Text, Entry>)
    requires Holds(contracts, byId, seen, w)
    requires entries == map id | id in contracts :: Entry(contracts[id].contract, contracts[id].status, contracts[id].rail)
    ensures entries == map id | id in w.contracts :: EntryOf(w.contracts[id])
  {
    forall id | id in contracts
      ensures entries[id] == EntryOf(w.contracts[id])
    {
      assert contracts[id].Value() == w.contracts[id];
    }
  }
}
