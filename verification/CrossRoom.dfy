/** The offline auditor: a board room and one deal room folded into one contract. */
module CrossRoom {
  import opened Wrappers
  import opened Json
  import opened Frames
  import opened Contracts
  import opened Folds
  import opened Transport
  import FrameTheorems

  // A record of a room export; unsigned records carry neither nonce nor signature.
  datatype Record = Record(sequence: int, sender: Text, ts: Text, text: Text, signed: Option<(int, Text)>)

  datatype Descriptor = Descriptor(room: Text, generation: int, firstSeq: int, lastSeq: int, sha256: Text)

  // A file: the digest of its bytes, and its records if every line parses.
  datatype Export = Export(sha256: Text, records: Option<seq<Record>>)

  datatype Source = Board | Deal

  // ---- load_export --------------------------------------------------------------------

  predicate IsRoom(t: Text) {
    1 <= |t| <= 48 && LowerOrDigit(t[0]) && forall i | 1 <= i < |t| :: LowerOrDigit(t[i]) || t[i] in {0x5F, 0x2D}
  }

  predicate DescriptorOk(d: Descriptor) {
    && IsRoom(d.room) && 0 <= d.generation <= MAX_SAFE_INTEGER
    && 0 <= d.firstSeq <= MAX_SAFE_INTEGER && 0 <= d.lastSeq <= MAX_SAFE_INTEGER
  }

  predicate RecordOk(env: Env, d: Descriptor, r: Record, i: nat) {
    && r.sequence == d.firstSeq + i
    && |r.text| <= MAX_CHARS
    && env.parseTime(r.ts).Some?
    && (r.signed.Some? ==>
          VerifyTransport(env, d.room, Message(r.sequence, r.sender, r.ts, r.signed.value.0, r.text, r.signed.value.1)))
  }

  /** An export is loaded exactly when it is one unbroken, fully verified stretch of the room. */
  predicate Loadable(env: Env, d: Descriptor, x: Export) {
    && DescriptorOk(d) && x.sha256 == d.sha256 && x.records.Some?
    && (forall i | 0 <= i < |x.records.value| :: RecordOk(env, d, x.records.value[i], i))
    && d.firstSeq >= 1 && x.records.value != []
    && x.records.value[|x.records.value| - 1].sequence == d.lastSeq
  }

  method LoadExport(env: Env, d: Descriptor, x: Export) returns (records: Option<seq<Record>>)
    ensures records.Some? <==> Loadable(env, d, x)
    ensures records.Some? ==> records == x.records
  {
    hide VerifyTransport;
    if !DescriptorOk(d) || x.sha256 != d.sha256 || x.records == None {
      return None;
    }
    var loaded: seq<Record> := [];
    var lines := x.records.value;
    for k := 0 to |lines|
      invariant loaded == lines[..k]
      invariant forall i | 0 <= i < k :: RecordOk(env, d, lines[i], i)
    {
      if !RecordOk(env, d, lines[k], |loaded|) {
        return None;
      }
      loaded := loaded + [lines[k]];
    }
    assert loaded == lines;
    if d.firstSeq < 1 || loaded == [] || loaded[|loaded| - 1].sequence != d.lastSeq {
      return None;
    }
    return Some(loaded);
  }

  // ---- audit -----------------------------------------------------------------------------

  // An offer with the time it was seen and whether it has been accepted.
  datatype Listing = Listing(offer: Offer, time: int, bound: bool)

  // The auditor's variables; `clock` is the time of the last selected frame.
  datatype Audit = Audit(offers: map<Text, Listing>, state: Option<State>, seen: set<Text>, clock: int, board: nat, deal: nat)

  const EMPTY_AUDIT := Audit(map[], None, {}, 0, 0, 0)

  // A frame with the room it was found in.
  datatype Tagged = Tagged(source: Source, event: Event)

  /** None where the source raises, Some(None) for a record that is skipped. */
  function RecordEvent(env: Env, source: Source, r: Record): Option<Option<Tagged>> {
    if r.signed.None? || !(PREFIX <= r.text) then Some(None)
    else
      match DecodeLine(env.crypto.sha, r.text)
      case Err(_) => None
      case Ok(None) => None
      case Ok(Some(f)) =>
        if f.From() != r.sender || (source == Board) != (f.OfferFrame? || f.Accept?) then None
        else
          match env.parseTime(r.ts)
          case None => None
          case Some(now) => Some(Some(Tagged(source, Event(f, now))))
  }

  function Counted(a: Audit, source: Source): Audit {
    if source == Board then a.(board := a.board + 1) else a.(deal := a.deal + 1)
  }

  function AuditStep(c: Crypto, target: Text, a: Audit, t: Tagged): Option<Audit> {
    var line, e := Line(t.event.frame), t.event;
    if line in a.seen then None
    else
      var b := Counted(a.(seen := a.seen + {line}), t.source);
      match e.frame
      case OfferFrame(o) => Some(b.(offers := b.offers[o.id := Listing(o, e.now, false)]))
      case Accept(_, ref, _, contract, _) =>
        if ref !in b.offers || b.offers[ref].bound || e.now < b.offers[ref].time then None
        else
          (match Step(c, Init(b.offers[ref].offer), e)
           case Err(_) => None
           case Ok(s) =>
             var d := b.(offers := b.offers[ref := b.offers[ref].(bound := true)]);
             if contract == target then Some(d.(state := Some(s), clock := e.now)) else Some(d))
      case _ =>
        if b.state == None || e.frame.contract != target || e.now < b.clock then None
        else
          (match Step(c, b.state.value, e)
           case Err(_) => None
           case Ok(s) => Some(b.(state := Some(s), clock := e.now)))
  }

  /** The auditor over the first n records of one room. */
  function AuditRoom(env: Env, target: Text, start: Option<Audit>, source: Source, rs: seq<Record>, n: nat): Option<Audit>
    requires n <= |rs|
  {
    if n == 0 then start
    else
      match AuditRoom(env, target, start, source, rs, n - 1)
      case None => None
      case Some(a) => AuditRecord(env, target, a, source, rs[n - 1])
  }

  function AuditRecord(env: Env, target: Text, a: Audit, source: Source, r: Record): Option<Audit> {
    match RecordEvent(env, source, r)
    case None => None
    case Some(None) => Some(a)
    case Some(Some(t)) => AuditStep(env.crypto, target, a, t)
  }

  predicate RoomsMatch(board: Descriptor, deal: Descriptor, target: Text) {
    && IsHex32(target)
    && board.room == Lit("tclk-offers")
    && deal.room == Lit("mb-p-tclk-") + target[2..18]
  }

  function BoardThenDeal(env: Env, target: Text, board: seq<Record>, deal: seq<Record>): Option<Audit> {
    var afterBoard := AuditRoom(env, target, Some(EMPTY_AUDIT), Board, board, |board|);
    AuditRoom(env, target, afterBoard, Deal, deal, |deal|)
  }

  /** What the audit reports: the selected contract's state and the frames counted. */
  function Audited(env: Env, board: Descriptor, boardFile: Export, deal: Descriptor, dealFile: Export, target: Text)
    : Option<Audit>
  {
    if !Loadable(env, board, boardFile) || !Loadable(env, deal, dealFile) || !RoomsMatch(board, deal, target) then None
    else
      match BoardThenDeal(env, target, boardFile.records.value, dealFile.records.value)
      case None => None
      case Some(a) => if a.state.Some? then Some(a) else None
  }

  /** The auditor's variables with the selected contract as a mutable object. */
  class Auditor {
    var offers: map<Text, Listing>
    var state: Contract?
    var seen: set<Text>
    var clock: int
    var board: nat
    var deal: nat

    function Value(): Audit
      reads this, state
    {
      Audit(offers, if state == null then None else Some(state.Value()), seen, clock, board, deal)
    }

    constructor ()
      ensures Value() == EMPTY_AUDIT && state == null
    {
      offers, state, seen, clock, board, deal := map[], null, {}, 0, 0, 0;
    }

    /** An acceptance is tried on a fresh contract; the target's one is kept. */
    method TakeAccept(c: Crypto, target: Text, e: Event) returns (ok: bool)
      requires e.frame.Accept?
      modifies this`offers, this`state, this`clock
      ensures state == old(state) || (state != null && fresh(state))
      ensures var b := old(Value()); var ref := e.frame.ref;
              && (ok <==> ref in b.offers && !b.offers[ref].bound && e.now >= b.offers[ref].time && Step(c, Init(b.offers[ref].offer), e).Ok?)
              && (ok ==>
                    var s, d := Step(c, Init(b.offers[ref].offer), e).value, b.(offers := b.offers[ref := b.offers[ref].(bound := true)]);
                    Value() == if e.frame.contract == target then d.(state := Some(s), clock := e.now) else d)
    {
      hide Step, Init;
      ok := false;
      var ref := e.frame.ref;
      if ref in offers && !offers[ref].bound && e.now >= offers[ref].time {
        var candidate := new Contract(offers[ref].offer);
        var error := candidate.Apply(c, e);
        ok := error == None;
        if ok {
          offers := offers[ref := offers[ref].(bound := true)];
          if e.frame.contract == target {
            state, clock := candidate, e.now;
          }
        }
      }
    }

    /** A deal frame goes to the selected contract, never before the clock. */
    method TakeDeal(c: Crypto, target: Text, e: Event) returns (ok: bool)
      requires !e.frame.OfferFrame? && !e.frame.Accept?
      modifies this`clock, state
      ensures state == old(state)
      ensures var b := old(Value());
              && (ok <==> b.state.Some? && e.frame.contract == target && e.now >= b.clock && Step(c, b.state.value, e).Ok?)
              && (ok ==> Value() == b.(state := Some(Step(c, b.state.value, e).value), clock := e.now))
    {
      hide Step;
      ok := false;
      if state != null && e.frame.contract == target && e.now >= clock {
        var error := state.Apply(c, e);
        ok := error == None;
        if ok {
          clock := e.now;
        }
      }
    }

    /** One signed protocol frame; false where the source raises. */
    method Take(c: Crypto, target: Text, line: Text, t: Tagged) returns (ok: bool)
      requires line == Line(t.event.frame)
      modifies this, state
      ensures ok <==> AuditStep(c, target, old(Value()), t).Some?
      ensures ok ==> Value() == AuditStep(c, target, old(Value()), t).value
      ensures state == old(state) || (state != null && fresh(state))
    {
      hide Step, Line, Init;
      ok := false;
      var e := t.event;
      if line in seen {
        return;
      }
      seen := seen + {line};
      if t.source == Board {
        board := board + 1;
      } else {
        deal := deal + 1;
      }
      match e.frame {
        case OfferFrame(offer) =>
          offers := offers[offer.id := Listing(offer, e.now, false)];
          ok := true;
        case Accept(_, _, _, _, _) => ok := TakeAccept(c, target, e);
        case _ => ok := TakeDeal(c, target, e);
      }
    }
  }

  // ---- Proof of the nested loops -----------------------------------------------------------

  lemma {:induction false} RoomStaysNone(env: Env, target: Text, start: Option<Audit>, source: Source, rs: seq<Record>, m: nat, n: nat)
    requires m <= n <= |rs| && AuditRoom(env, target, start, source, rs, m) == None
    ensures AuditRoom(env, target, start, source, rs, n) == None
    decreases n
  {
    hide AuditRecord;
    if m < n { RoomStaysNone(env, target, start, source, rs, m, n - 1); }
  }

  lemma RecordEventLine(env: Env, source: Source, r: Record)
    requires RecordEvent(env, source, r).Some? && RecordEvent(env, source, r).value.Some?
    ensures r.text == Line(RecordEvent(env, source, r).value.value.event.frame)
  {
    hide Line, DecodeLine;
    FrameTheorems.DecodesExactlyLines(env.crypto.sha, r.text, RecordEvent(env, source, r).value.value.event.frame);
  }

  lemma RoomStarts(env: Env, target: Text, start: Option<Audit>, source: Source, rs: seq<Record>)
    ensures AuditRoom(env, target, start, source, rs, 0) == start
  {
  }

  lemma RoomNext(env: Env, target: Text, start: Option<Audit>, source: Source, rs: seq<Record>, i: nat)
    requires i < |rs| && AuditRoom(env, target, start, source, rs, i).Some?
    ensures var a := AuditRoom(env, target, start, source, rs, i).value;
            AuditRoom(env, target, start, source, rs, i + 1) ==
              match RecordEvent(env, source, rs[i])
              case None => None
              case Some(None) => Some(a)
              case Some(Some(t)) => AuditStep(env.crypto, target, a, t)
  {
    hide RecordEvent, AuditStep;
  }

  /** The record loop of one room. */
  method TakeRoom(env: Env, target: Text, auditor: Auditor, source: Source, records: seq<Record>) returns (ok: bool)
    modifies auditor, auditor.state
    ensures var end := AuditRoom(env, target, Some(old(auditor.Value())), source, records, |records|);
            (ok <==> end.Some?) && (ok ==> end == Some(auditor.Value()))
    ensures auditor.state == old(auditor.state) || (auditor.state != null && fresh(auditor.state))
  {
    hide AuditStep, RecordEvent, AuditRoom, Line;
    ghost var start := Some(auditor.Value());
    RoomStarts(env, target, start, source, records);
    for i := 0 to |records|
      invariant Some(auditor.Value()) == AuditRoom(env, target, start, source, records, i)
      invariant auditor.state == old(auditor.state) || (auditor.state != null && fresh(auditor.state))
    {
      RoomNext(env, target, start, source, records, i);
      var tagged := RecordEvent(env, source, records[i]);
      var taken := tagged.Some?;
      if tagged.Some? && tagged.value.Some? {
        RecordEventLine(env, source, records[i]);
        taken := auditor.Take(env.crypto, target, records[i].text, tagged.value.value);
      }
      if !taken {
        RoomStaysNone(env, target, start, source, records, i + 1, |records|);
        return false;
      }
    }
    return true;
  }

  /** audit: both exports loaded, board first, then deal. */
  method RunAudit(env: Env, board: Descriptor, boardFile: Export, deal: Descriptor, dealFile: Export, target: Text)
    returns (report: Option<Audit>)
    ensures report == Audited(env, board, boardFile, deal, dealFile, target)
  {
    hide Loadable, RoomsMatch, AuditStep, RecordEvent, AuditRoom;
    var first := LoadExport(env, board, boardFile);
    var second := LoadExport(env, deal, dealFile);
    if first.None? || second.None? || !RoomsMatch(board, deal, target) {
      return None;
    }
    DealStaysNone(env, target, second.value);
    var auditor := new Auditor();
    var ok := TakeRoom(env, target, auditor, Board, first.value);
    if !ok {
      return None;
    }
    ok := TakeRoom(env, target, auditor, Deal, second.value);
    if !ok || auditor.state == null {
      return None;
    }
    return Some(auditor.Value());
  }

  lemma DealStaysNone(env: Env, target: Text, deal: seq<Record>)
    ensures AuditRoom(env, target, None, Deal, deal, |deal|) == None
  {
    RoomStaysNone(env, target, None, Deal, deal, 0, |deal|);
  }
}
