/** What a transcript report says about the messages themselves. */
module TranscriptMessages {
  import opened Wrappers
  import opened Json
  import opened Frames
  import opened FrameCodec
  import opened FrameTheorems
  import opened Contracts
  import opened ContractTraces
  import opened Folds
  import opened Interleavings
  import opened Transport
  import opened Transcripts

  // ---- One message ------------------------------------------------------------------------

  /** The text is the line of a valid frame whose author is the sender; the event is at this time. */
  ghost predicate Tells(env: Env, sender: Text, ts: Text, text: Text, e: Event) {
    && text == Line(e.frame) && ValidFrame(env.crypto.sha, e.frame) && CleanFrame(e.frame) && |text| <= 4096
    && sender == e.frame.From()
    && env.parseTime(ts) == Some(e.now)
  }

  ghost predicate Says(env: Env, m: Message, e: Event) {
    Tells(env, m.sender, m.ts, m.text, e)
  }

  lemma OrdinaryText(sha: Hash, text: Text)
    ensures PREFIX <= text <==> Lit("tclk1 ") <= text
    ensures DecodeLine(sha, text) == Ok(None) <==> !(Lit("tclk1 ") <= text)
  {
    hide Lit, Loads, ValidateFrame, Canonical;
    assert PREFIX == Lit("tclk1 ");
  }

  /** A verified message without the prefix is ordinary; one with it is taken as the frame it says. */
  lemma MessageEventExactly(env: Env, room: Text, m: Message, e: Event)
    ensures MessageEvent(env, room, m) == Some(None) <==> VerifyTransport(env, room, m) && !(Lit("tclk1 ") <= m.text)
    ensures MessageEvent(env, room, m) == Some(Some(e)) <==> VerifyTransport(env, room, m) && Says(env, m, e)
  {
    hide VerifyTransport, ValidFrame, CleanFrame, Line, Lit, DecodeLine;
    OrdinaryText(env.crypto.sha, m.text);
    DecodesExactlyLines(env.crypto.sha, m.text, e.frame);
  }

  lemma SaidIsMarked(env: Env, m: Message, e: Event)
    requires Says(env, m, e)
    ensures Lit("tclk1 ") <= m.text
  {
    hide ValidFrame, CleanFrame, Line;
    LineShape(e.frame);
  }

  // ---- The marked messages ----------------------------------------------------------------

  /** The indices of the messages that start with the prefix. */
  function Marked(ms: seq<Message>, n: nat): seq<nat>
    requires n <= |ms|
  {
    if n == 0 then []
    else if Lit("tclk1 ") <= ms[n - 1].text then Marked(ms, n - 1) + [n - 1]
    else Marked(ms, n - 1)
  }

  lemma {:induction false} MarkedExactly(ms: seq<Message>, n: nat)
    requires n <= |ms|
    ensures forall i: nat :: i in Marked(ms, n) <==> i < n && Lit("tclk1 ") <= ms[i].text
    ensures forall p: nat, q: nat | p < q < |Marked(ms, n)| :: Marked(ms, n)[p] < Marked(ms, n)[q] < n
    ensures forall p: nat | p < |Marked(ms, n)| :: Marked(ms, n)[p] < n
  {
    hide Lit;
    if n > 0 { MarkedExactly(ms, n - 1); }
  }

  /** es is what the marked messages among the first n say, in their order. */
  ghost predicate Reads(env: Env, ms: seq<Message>, n: nat, es: seq<Event>)
    requires n <= |ms|
  {
    |es| == |Marked(ms, n)| && forall p: nat | p < |es| :: Marked(ms, n)[p] < |ms| && Says(env, ms[Marked(ms, n)[p]], es[p])
  }

  lemma ReadsMore(env: Env, ms: seq<Message>, n: nat, es: seq<Event>, e: Event)
    requires n < |ms| && Reads(env, ms, n, es) && Says(env, ms[n], e)
    ensures Reads(env, ms, n + 1, es + [e])
  {
    hide Says, Lit;
    SaidIsMarked(env, ms[n], e);
    assert Marked(ms, n + 1) == Marked(ms, n) + [n];
    var all := es + [e];
    forall p: nat | p < |all|
      ensures Marked(ms, n + 1)[p] < |ms| && Says(env, ms[Marked(ms, n + 1)[p]], all[p])
    {
      if p < |es| { assert Marked(ms, n + 1)[p] == Marked(ms, n)[p] && all[p] == es[p]; }
    }
  }

  lemma ReadsSame(env: Env, ms: seq<Message>, n: nat, es: seq<Event>)
    requires n < |ms| && Reads(env, ms, n, es) && !(Lit("tclk1 ") <= ms[n].text)
    ensures Reads(env, ms, n + 1, es)
  {
    hide Says, Lit;
  }

  lemma ReadsLess(env: Env, ms: seq<Message>, n: nat, es: seq<Event>)
    requires n < |ms| && Reads(env, ms, n + 1, es) && Lit("tclk1 ") <= ms[n].text
    ensures es != [] && Reads(env, ms, n, es[..|es| - 1]) && Says(env, ms[n], es[|es| - 1])
  {
    hide Says, Lit;
    assert Marked(ms, n + 1) == Marked(ms, n) + [n];
    var last := |es| - 1;
    var init := es[..last];
    assert Marked(ms, n + 1)[last] == n && Says(env, ms[n], es[last]);
    forall p: nat | p < |init|
      ensures Marked(ms, n)[p] < |ms| && Says(env, ms[Marked(ms, n)[p]], init[p])
    {
      assert Marked(ms, n + 1)[p] == Marked(ms, n)[p];
    }
  }

  lemma {:induction false} EventsRead(env: Env, b: Batch, room: Text, n: nat)
    requires n <= |b.messages| && MessagesOk(env, b, room, n)
    ensures Reads(env, b.messages, n, Events(env, b, room, n))
  {
    hide SeqOk, MessageEvent, Says, Lit, VerifyTransport;
    if n == 0 {
    } else {
      EventsRead(env, b, room, n - 1);
      EventsStep(env, b, room, n);
    }
  }

  lemma EventsStep(env: Env, b: Batch, room: Text, n: nat)
    requires 0 < n <= |b.messages| && MessagesOk(env, b, room, n) && Reads(env, b.messages, n - 1, Events(env, b, room, n - 1))
    ensures Reads(env, b.messages, n, Events(env, b, room, n))
  {
    hide SeqOk, MessageEvent, Says, Lit, VerifyTransport, Reads;
    var m, es := b.messages[n - 1], Events(env, b, room, n - 1);
    assert MessageOk(env, b, room, n - 1);
    match MessageEvent(env, room, m).value
    case None =>
      MessageEventExactly(env, room, m, Event(Cancel([], [], None), 0));
      ReadsSame(env, b.messages, n - 1, es);
    case Some(e) =>
      MessageEventExactly(env, room, m, e);
      ReadsMore(env, b.messages, n - 1, es, e);
  }

  /** The verified messages, of which the marked ones say es. */
  ghost predicate AllRead(env: Env, room: Text, ms: seq<Message>, n: nat, es: seq<Event>)
    requires n <= |ms|
  {
    (forall i: nat | i < n :: VerifyTransport(env, room, ms[i])) && Reads(env, ms, n, es)
  }

  lemma {:induction false} ReadEvents(env: Env, b: Batch, room: Text, n: nat, es: seq<Event>)
    requires n <= |b.messages| && AllRead(env, room, b.messages, n, es)
    requires forall i: nat | i < n :: SeqOk(b, i)
    ensures MessagesOk(env, b, room, n) && Events(env, b, room, n) == es
  {
    hide SeqOk, MessageEvent, VerifyTransport, Says, Lit, Reads;
    if n == 0 {
      assert es == [] by { NothingRead(env, b.messages, es); }
    } else {
      var m := b.messages[n - 1];
      if Lit("tclk1 ") <= m.text {
        ReadsLess(env, b.messages, n - 1, es);
        ReadEvents(env, b, room, n - 1, es[..|es| - 1]);
        MessageEventExactly(env, room, m, es[|es| - 1]);
        assert es == es[..|es| - 1] + [es[|es| - 1]];
      } else {
        ReadsOrdinary(env, b.messages, n - 1, es);
        ReadEvents(env, b, room, n - 1, es);
        MessageEventExactly(env, room, m, Event(Cancel([], [], None), 0));
      }
      assert MessageOk(env, b, room, n - 1);
      assert MessagesOk(env, b, room, n - 1);
    }
  }

  lemma NothingRead(env: Env, ms: seq<Message>, es: seq<Event>)
    requires Reads(env, ms, 0, es)
    ensures es == []
  {
  }

  lemma ReadsOrdinary(env: Env, ms: seq<Message>, n: nat, es: seq<Event>)
    requires n < |ms| && Reads(env, ms, n + 1, es) && !(Lit("tclk1 ") <= ms[n].text)
    ensures Reads(env, ms, n, es)
  {
    hide Says, Lit;
  }

  // ---- The batch ----------------------------------------------------------------------------

  predicate SafeInteger(n: int) {
    0 <= n <= 9_007_199_254_740_991
  }

  /** The header and the numbering of a batch, read off its fields. */
  ghost predicate Numbered(b: Batch) {
    var ms := b.messages;
    && b.status == "ok"
    && SafeInteger(b.generation) && SafeInteger(b.starting) && SafeInteger(b.proposed)
    && b.count == |ms| && |ms| <= 9_007_199_254_740_991 && b.lastSeq == b.proposed
    && (if ms == [] then b.firstSeq == None && b.proposed == b.starting
        else
          && b.firstSeq == Some(ms[0].sequence) && ms[|ms| - 1].sequence == b.proposed
          && b.starting < ms[0].sequence && (b.starting > 0 ==> ms[0].sequence == b.starting + 1)
          && forall i: nat | i < |ms| :: ms[i].sequence == ms[0].sequence + i)
  }

  lemma NumberedExactly(b: Batch)
    ensures Numbered(b) <==>
              HeaderOk(b) && (forall i: nat | i < |b.messages| :: SeqOk(b, i)) && Previous(b, |b.messages|) == b.proposed
  {
    if HeaderOk(b) && (forall i: nat | i < |b.messages| :: SeqOk(b, i)) && Previous(b, |b.messages|) == b.proposed {
      forall i: nat | i < |b.messages|
        ensures b.messages[i].sequence == b.messages[0].sequence + i
      {
        SequencesAreConsecutive(b, i);
      }
      if b.messages != [] { assert SeqOk(b, 0); }
    }
    if Numbered(b) {
      forall i: nat | i < |b.messages|
        ensures SeqOk(b, i)
      {
        assert b.messages[|b.messages| - 1].sequence == b.messages[0].sequence + (|b.messages| - 1);
      }
    }
  }

  /** The messages are signed and the marked ones say es: distinct frames, each routed to an
      earlier offer or acceptance, each contract's own frames acceptable alone. */
  ghost predicate Acceptable(env: Env, room: Text, ms: seq<Message>, es: seq<Event>) {
    AllRead(env, room, ms, |ms|, es) && DistinctLines(es, |es|) && Routed(es, |es|) && EachRunsAlone(env.crypto, es, |es|)
  }

  /** A batch is accepted exactly when its header agrees with its messages, these are numbered without
      a gap, and they are signed and say an acceptable list of frames, each at its message's time. */
  lemma AcceptedExactly(env: Env, b: Batch, room: Text)
    ensures Validated(env, b, room).Some? <==> Numbered(b) && exists es :: Acceptable(env, room, b.messages, es)
  {
    hide HeaderOk, SeqOk, Previous, AllRead, DistinctLines, Routed, EachRunsAlone, Validated, Events, Numbered, MessageEvent;
    NumberedExactly(b);
    AcceptedBatches(env, b, room);
    if Validated(env, b, room).Some? {
      forall i: nat | i < |b.messages|
        ensures SeqOk(b, i)
      {
        assert MessageOk(env, b, room, i);
      }
      EventsAllRead(env, b, room);
      assert Acceptable(env, room, b.messages, Events(env, b, room, |b.messages|));
    }
    if Numbered(b) && exists es :: Acceptable(env, room, b.messages, es) {
      var es :| Acceptable(env, room, b.messages, es);
      ReadEvents(env, b, room, |b.messages|, es);
    }
  }

  lemma EventsAllRead(env: Env, b: Batch, room: Text)
    requires MessagesOk(env, b, room, |b.messages|)
    ensures AllRead(env, room, b.messages, |b.messages|, Events(env, b, room, |b.messages|))
  {
    hide SeqOk, Events, Reads, VerifyTransport, Says;
    EventsRead(env, b, room, |b.messages|);
    forall i: nat | i < |b.messages|
      ensures VerifyTransport(env, room, b.messages[i])
    {
      assert MessageOk(env, b, room, i);
    }
  }

  /** The frames a report counts are exactly the marked messages, in order, each at its own time. */
  lemma FramesAreMessages(env: Env, b: Batch, room: Text) returns (at: seq<nat>)
    requires Validated(env, b, room).Some?
    ensures forall i: nat :: i in at <==> i < |b.messages| && Lit("tclk1 ") <= b.messages[i].text
    ensures forall p: nat, q: nat | p < q < |at| :: at[p] < at[q]
    ensures var r := Validated(env, b, room).value; r.accepted == |at| && r.ignored == |b.messages| - |at|
    ensures MessagesOk(env, b, room, |b.messages|)
    ensures var es := Events(env, b, room, |b.messages|);
            |es| == |at| && forall p: nat | p < |at| :: at[p] < |b.messages| && Says(env, b.messages[at[p]], es[p])
  {
    hide HeaderOk, MessagesOk, Validated, Events, Says, Lit, DistinctLines, Routed, EachRunsAlone;
    at := Marked(b.messages, |b.messages|);
    MarkedExactly(b.messages, |b.messages|);
    AcceptedBatches(env, b, room);
    EventsRead(env, b, room, |b.messages|);
  }

  // ---- The messages behind a settled contract -------------------------------------------------

  /** Two of a contract's own frames, in the order of the stream. */
  lemma OwnPlaces(es: seq<Event>, id: Text, p: nat, q: nat) returns (j: nat, k: nat)
    requires p < q < |Own(es, |es|, id)|
    ensures j < k < |es| && es[j] == Own(es, |es|, id)[p] && es[k] == Own(es, |es|, id)[q]
    ensures Route(es, j) == Some(id) && Route(es, k) == Some(id) && |Own(es, j, id)| == p && |Own(es, k, id)| == q
  {
    hide Route;
    j := OwnMember(es, |es|, id, p);
    k := OwnMember(es, |es|, id, q);
    if k <= j { OwnGrows(es, k, j, id); }
  }

  // The offer, acceptance, lock and settling frame of one contract.
  datatype Path = Path(offer: Offer, accept: Frame, lock: Frame, last: Frame)

  /** The acceptance and the lock of a settled contract, with the times they were seen at. */
  ghost predicate Entered(c: Crypto, d: Path, accepted: int, locked: int) {
    && d.accept.Accept? && d.lock.Lock?
    && d.accept.ref == d.offer.id && d.accept.sender != d.offer.from
    && d.accept.contract == ContractId(c.sha, d.offer, d.accept) && accepted < d.offer.expiresMs
    && d.lock.contract == d.accept.contract && d.lock.rail in d.offer.rails && locked < d.offer.refundAfterMs
    && d.lock.sender == (if d.offer.role == Payer then d.offer.from else d.accept.sender)
  }

  /** A reveal by the payee before the refund time, opening the accepted statement. */
  ghost predicate Claims(c: Crypto, d: Path, settled: int)
    requires d.accept.Accept? && d.lock.Lock?
  {
    && d.last.Reveal? && d.last.contract == d.accept.contract && settled < d.offer.refundAfterMs
    && d.last.sender == (if d.offer.role == Payer then d.accept.sender else d.offer.from)
    && c.opens(d.last.secret) == d.accept.statement
    && (d.last.railRef == None || d.last.railRef == Some(d.lock.lockRef))
  }

  /** A refund by the payer, not before the refund time. */
  ghost predicate Refunds(d: Path, settled: int)
    requires d.accept.Accept? && d.lock.Lock?
  {
    && d.last.Refund? && d.last.contract == d.accept.contract && settled >= d.offer.refundAfterMs
    && d.last.sender == (if d.offer.role == Payer then d.offer.from else d.accept.sender)
    && (d.last.railRef == None || d.last.railRef == Some(d.lock.lockRef))
  }

  /** Among one contract's own frames: offer first, acceptance second, a lock and what settled it. */
  lemma OwnSettlement(c: Crypto, own: seq<Event>) returns (d: Path, l: nat, r: nat)
    requires Solo(c, own).Some? && Solo(c, own).value.status in {Claimed, Refunded}
    ensures 1 < l < r < |own|
    ensures own[0].frame == OfferFrame(d.offer) && own[1].frame == d.accept && own[l].frame == d.lock && own[r].frame == d.last
    ensures Entered(c, d, own[1].now, own[l].now)
    ensures var s := Solo(c, own).value;
            && s.contract == Some(d.accept.contract) && s.rail == Some(d.lock.rail)
            && (if s.status == Claimed then Claims(c, d, own[r].now) else Refunds(d, own[r].now))
  {
    hide Run, Init, ContractId;
    l, r := SettlementShape(c, own[0].frame.offer, own[1..]);
    l, r := l + 1, r + 1;
    d := Path(own[0].frame.offer, own[1].frame, own[l].frame, own[r].frame);
  }

  /** The messages behind a contract reported Claimed or Refunded: an offer with this id, its
      acceptance, a lock and the settling frame, in this order, each guard read at its message's own
      time; the report names the accepted contract and the locked rail. */
  lemma SettledMessages(env: Env, b: Batch, room: Text, id: Text) returns (d: Path, i: nat, j: nat, k: nat, m: nat, times: seq<int>)
    requires Validated(env, b, room).Some? && id in Validated(env, b, room).value.contracts
    requires Validated(env, b, room).value.contracts[id].status in {Claimed, Refunded}
    ensures i < j < k < m < |b.messages| && |times| == 4
    ensures Says(env, b.messages[i], Event(OfferFrame(d.offer), times[0])) && Says(env, b.messages[j], Event(d.accept, times[1]))
    ensures Says(env, b.messages[k], Event(d.lock, times[2])) && Says(env, b.messages[m], Event(d.last, times[3]))
    ensures d.offer.id == id && Entered(env.crypto, d, times[1], times[2])
    ensures var entry := Validated(env, b, room).value.contracts[id];
            && entry.contract == Some(d.accept.contract) && entry.rail == Some(d.lock.rail)
            && (if entry.status == Claimed then Claims(env.crypto, d, times[3]) else Refunds(d, times[3]))
  {
    hide Validated, MessagesOk, Events, Says, Own, Solo, Route, Entered, Claims, Refunds, DistinctLines, Routed, EachRunsAlone, HeaderOk, Offered;
    AcceptedBatches(env, b, room);
    var at := FramesAreMessages(env, b, room);
    var es := Events(env, b, room, |b.messages|);
    var own := Own(es, |es|, id);
    var l, r;
    d, l, r := OwnSettlement(env.crypto, own);
    var p, q := OwnPlaces(es, id, 0, 1);
    var q', s := OwnPlaces(es, id, 1, l);
    var s', t := OwnPlaces(es, id, l, r);
    OfferIsRouted(es, p, id);
    SamePlace(es, id, q, q');
    SamePlace(es, id, s, s');
    i, j, k, m := at[p], at[q], at[s], at[t];
    times := [es[p].now, es[q].now, es[s].now, es[t].now];
    assert es[p] == Event(OfferFrame(d.offer), times[0]) && es[q] == Event(d.accept, times[1]);
    assert es[s] == Event(d.lock, times[2]) && es[t] == Event(d.last, times[3]);
  }

  lemma OfferIsRouted(es: seq<Event>, p: nat, id: Text)
    requires p < |es| && es[p].frame.OfferFrame? && Route(es, p) == Some(id)
    ensures es[p].frame.offer.id == id
  {
  }

  lemma SamePlace(es: seq<Event>, id: Text, j: nat, k: nat)
    requires j < |es| && k < |es| && Route(es, j) == Some(id) && Route(es, k) == Some(id)
    requires |Own(es, j, id)| == |Own(es, k, id)|
    ensures j == k
  {
    hide Route;
    if j < k { OwnSplit(es, j, k, id); }
    if k < j { OwnSplit(es, k, j, id); }
  }

  // ---- The status of any contract ---------------------------------------------------------------

  /** What the frames after the offer make of a contract. */
  ghost predicate Amounts(es: seq<Event>, t: State) {
    && (t.status == Proposed <==> es == [])
    && (t.status == Cancelled <==> exists i | 0 <= i < |es| :: es[i].frame.Cancel?)
    && (t.status == Claimed <==> exists i | 0 <= i < |es| :: es[i].frame.Reveal?)
    && (t.status == Refunded <==> exists i | 0 <= i < |es| :: es[i].frame.Refund?)
    && (t.status == Locked <==>
          && (exists i | 0 <= i < |es| :: es[i].frame.Lock?)
          && (forall i | 0 <= i < |es| :: !es[i].frame.Reveal? && !es[i].frame.Refund?))
    && (es == [] ==> t.contract == None)
    && (es != [] ==> es[0].frame.Accept? && t.contract == Some(es[0].frame.contract))
    && (t.rail == None <==> forall i | 0 <= i < |es| :: !es[i].frame.Lock?)
    && (forall i | 0 <= i < |es| && es[i].frame.Lock? :: t.rail == Some(es[i].frame.rail))
  }

  lemma AmountsGrow(c: Crypto, es: seq<Event>, t: State, e: Event)
    requires Amounts(es, t) && Step(c, t, e).Ok?
    ensures Amounts(es + [e], Step(c, t, e).value)
  {
    hide ContractId;
    var all := es + [e];
    assert all[|es|] == e && forall i | 0 <= i < |es| :: all[i] == es[i];
    StepStatus(c, t, e);
    hide Step;
    OneMore(es, e);
  }

  lemma OneMore(es: seq<Event>, e: Event)
    ensures (exists i | 0 <= i < |es + [e]| :: (es + [e])[i].frame.Cancel?) <==> (exists i | 0 <= i < |es| :: es[i].frame.Cancel?) || e.frame.Cancel?
    ensures (exists i | 0 <= i < |es + [e]| :: (es + [e])[i].frame.Reveal?) <==> (exists i | 0 <= i < |es| :: es[i].frame.Reveal?) || e.frame.Reveal?
    ensures (exists i | 0 <= i < |es + [e]| :: (es + [e])[i].frame.Refund?) <==> (exists i | 0 <= i < |es| :: es[i].frame.Refund?) || e.frame.Refund?
    ensures (exists i | 0 <= i < |es + [e]| :: (es + [e])[i].frame.Lock?) <==> (exists i | 0 <= i < |es| :: es[i].frame.Lock?) || e.frame.Lock?
  {
    var all := es + [e];
    assert all[|es|] == e && forall i | 0 <= i < |es| :: all[i] == es[i];
  }

  lemma StepStatus(c: Crypto, t: State, e: Event)
    requires Step(c, t, e).Ok?
    ensures var u := Step(c, t, e).value;
            match e.frame
            case Accept(_, _, _, contract, _) =>
              t.status == Proposed && u.status == Status.Accepted && u.contract == Some(contract) && u.rail == t.rail
            case Lock(_, _, rail, _) =>
              t.status == Status.Accepted && u.status == Locked && u.contract == t.contract && u.rail == Some(rail)
            case Reveal(_, _, _, _) => t.status == Locked && u.status == Claimed && u.contract == t.contract && u.rail == t.rail
            case Refund(_, _, _, _) => t.status == Locked && u.status == Refunded && u.contract == t.contract && u.rail == t.rail
            case Cancel(_, _, _) =>
              t.status == Status.Accepted && u.status == Cancelled && u.contract == t.contract && u.rail == t.rail
            case _ => t.status != Proposed && u == t
  {
    hide ContractId;
  }

  lemma {:induction false} RunAmounts(c: Crypto, o: Offer, es: seq<Event>)
    requires Run(c, Init(o), es).Ok?
    ensures Amounts(es, Run(c, Init(o), es).value)
  {
    hide Step, Amounts;
    if es == [] {
      NothingAmounts(o);
    } else {
      var last := |es| - 1;
      assert es == es[..last] + [es[last]];
      RunAppend(c, Init(o), es[..last], es[last]);
      RunAmounts(c, o, es[..last]);
      AmountsGrow(c, es[..last], Run(c, Init(o), es[..last]).value, es[last]);
    }
  }

  lemma NothingAmounts(o: Offer)
    ensures Amounts([], Init(o))
  {
  }

  /** Every reported contract, whatever its status: status, contract id and rail are what its own frames
      after the offer amount to. */
  lemma ReportedStatus(env: Env, b: Batch, room: Text, id: Text) returns (own: seq<Event>, t: State)
    requires Validated(env, b, room).Some? && id in Validated(env, b, room).value.contracts
    ensures MessagesOk(env, b, room, |b.messages|)
    ensures var es := Events(env, b, room, |b.messages|); own == Own(es, |es|, id) && own != [] && own[0].frame.OfferFrame?
    ensures Amounts(own[1..], t)
    ensures var entry := Validated(env, b, room).value.contracts[id];
            entry.status == t.status && entry.contract == t.contract && entry.rail == t.rail
  {
    hide Validated, MessagesOk, Events, Own, Run, DistinctLines, Routed, EachRunsAlone, HeaderOk, Offered, Amounts, Init;
    AcceptedBatches(env, b, room);
    var es := Events(env, b, room, |b.messages|);
    own := Own(es, |es|, id);
    t := Solo(env.crypto, own).value;
    RunAmounts(env.crypto, own[0].frame.offer, own[1..]);
  }
}
