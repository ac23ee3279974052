/** The language of frame runs a contract accepts, given without its state. */
module ContractTraces {
  import opened Wrappers
  import opened Json
  import opened Frames
  import opened Contracts

  function Run(c: Crypto, s: State, es: seq<Event>): Result<State, Refusal>
    decreases |es|
  {
    if es == [] then Ok(s)
    else
      match Step(c, s, es[0])
      case Err(reason) => Err(reason)
      case Ok(t) => Run(c, t, es[1..])
  }

  // ---- Guards, computed from the offer, accept and lock frames alone -----------------

  function PayerOf(o: Offer, a: Frame): Text
    requires a.Accept?
  {
    if o.role == Payer then o.from else a.sender
  }

  function PayeeOf(o: Offer, a: Frame): Text
    requires a.Accept?
  {
    if o.role == Payer then a.sender else o.from
  }

  predicate AcceptOk(c: Crypto, o: Offer, e: Event) {
    var a := e.frame;
    a.Accept? && a.ref == o.id && a.sender != o.from && e.now < o.expiresMs && a.contract == ContractId(c.sha, o, a)
  }

  predicate FromParty(o: Offer, a: Frame, f: Frame)
    requires a.Accept? && !f.OfferFrame?
  {
    f.contract == a.contract && (f.sender == o.from || f.sender == a.sender)
  }

  predicate HeartbeatOk(o: Offer, a: Frame, e: Event)
    requires a.Accept?
  {
    e.frame.Heartbeat? && FromParty(o, a, e.frame)
  }

  predicate CancelOk(o: Offer, a: Frame, e: Event)
    requires a.Accept?
  {
    e.frame.Cancel? && FromParty(o, a, e.frame)
  }

  predicate LockOk(o: Offer, a: Frame, e: Event)
    requires a.Accept?
  {
    var l := e.frame;
    l.Lock? && l.contract == a.contract && l.sender == PayerOf(o, a) && l.rail in o.rails && e.now < o.refundAfterMs
  }

  predicate RevealOk(c: Crypto, o: Offer, a: Frame, l: Frame, e: Event)
    requires a.Accept? && l.Lock?
  {
    var r := e.frame;
    && r.Reveal? && r.contract == a.contract && r.sender == PayeeOf(o, a) && e.now < o.refundAfterMs
    && (r.railRef.Some? ==> r.railRef.value == l.lockRef) && c.opens(r.secret) == a.statement
  }

  predicate RefundOk(o: Offer, a: Frame, l: Frame, e: Event)
    requires a.Accept? && l.Lock?
  {
    var r := e.frame;
    && r.Refund? && r.contract == a.contract && r.sender == PayerOf(o, a) && e.now >= o.refundAfterMs
    && (r.railRef.Some? ==> r.railRef.value == l.lockRef)
  }

  /** A receipt may name the rail and its reference only if a lock fixed them. */
  predicate ReceiptOk(o: Offer, a: Frame, lock: Option<Frame>, outcome: Outcome, e: Event)
    requires a.Accept? && (lock.Some? ==> lock.value.Lock?)
  {
    var r := e.frame;
    && r.Receipt? && FromParty(o, a, r) && r.outcome == outcome
    && (r.railName.Some? ==> lock.Some? && r.railName.value == lock.value.rail)
    && (r.railRef.Some? ==> lock.Some? && r.railRef.value == lock.value.lockRef)
  }

  // ---- The language -------------------------------------------------------------------

  predicate Heartbeats(o: Offer, a: Frame, es: seq<Event>)
    requires a.Accept?
  {
    forall i | 0 <= i < |es| :: HeartbeatOk(o, a, es[i])
  }

  predicate Receipts(o: Offer, a: Frame, lock: Option<Frame>, outcome: Outcome, es: seq<Event>)
    requires a.Accept? && (lock.Some? ==> lock.value.Lock?)
  {
    forall i | 0 <= i < |es| :: ReceiptOk(o, a, lock, outcome, es[i])
  }

  /** Nothing yet, or a reveal and receipts, or a refund and receipts. */
  predicate Settlement(c: Crypto, o: Offer, a: Frame, l: Frame, es: seq<Event>)
    requires a.Accept? && l.Lock?
  {
    || es == []
    || (RevealOk(c, o, a, l, es[0]) && Receipts(o, a, Some(l), ClaimedOutcome, es[1..]))
    || (RefundOk(o, a, l, es[0]) && Receipts(o, a, Some(l), RefundedOutcome, es[1..]))
  }

  predicate LockedSplit(c: Crypto, o: Offer, a: Frame, l: Frame, es: seq<Event>, m: nat)
    requires a.Accept? && l.Lock?
  {
    m <= |es| && Heartbeats(o, a, es[..m]) && Settlement(c, o, a, l, es[m..])
  }

  predicate AfterLock(c: Crypto, o: Offer, a: Frame, l: Frame, es: seq<Event>)
    requires a.Accept? && l.Lock?
  {
    exists m: nat :: m <= |es| && LockedSplit(c, o, a, l, es, m)
  }

  /** Nothing yet, or a cancel and receipts, or a lock and what follows it. */
  predicate Turn(c: Crypto, o: Offer, a: Frame, es: seq<Event>)
    requires a.Accept?
  {
    || es == []
    || (CancelOk(o, a, es[0]) && Receipts(o, a, None, CancelledOutcome, es[1..]))
    || (LockOk(o, a, es[0]) && AfterLock(c, o, a, es[0].frame, es[1..]))
  }

  predicate AcceptedSplit(c: Crypto, o: Offer, a: Frame, es: seq<Event>, k: nat)
    requires a.Accept?
  {
    k <= |es| && Heartbeats(o, a, es[..k]) && Turn(c, o, a, es[k..])
  }

  predicate AfterAccept(c: Crypto, o: Offer, a: Frame, es: seq<Event>)
    requires a.Accept?
  {
    exists k: nat :: k <= |es| && AcceptedSplit(c, o, a, es, k)
  }

  predicate Language(c: Crypto, o: Offer, es: seq<Event>) {
    es == [] || (AcceptOk(c, o, es[0]) && AfterAccept(c, o, es[0].frame, es[1..]))
  }

  // ---- States as functions of the defining frames ----------------------------------------

  function AcceptedState(o: Offer, a: Frame): State
    requires a.Accept?
  {
    State(o, Accepted, Some(PayerOf(o, a)), Some(PayeeOf(o, a)), Some(a.contract), Some(a.statement), None, None)
  }

  function LockedState(o: Offer, a: Frame, l: Frame): State
    requires a.Accept? && l.Lock?
  {
    AcceptedState(o, a).(status := Locked, rail := Some(l.rail), railRef := Some(l.lockRef))
  }

  function Settled(s: State, lock: Option<Frame>, status: Status): State
    requires lock.Some? ==> lock.value.Lock?
  {
    match lock
    case None => s.(status := status)
    case Some(l) => s.(status := status, rail := Some(l.rail), railRef := Some(l.lockRef))
  }

  // ---- Each phase accepts exactly its part of the language ----------------------------------

  /** In a terminal state only matching receipts are accepted, and nothing changes. */
  lemma {:induction false} TerminalRun(c: Crypto, o: Offer, a: Frame, lock: Option<Frame>, status: Status, es: seq<Event>)
    requires a.Accept? && (lock.Some? ==> lock.value.Lock?) && Terminal(status)
    ensures var s := Settled(AcceptedState(o, a), lock, status);
            && (Run(c, s, es).Ok? <==> Receipts(o, a, lock, OutcomeOf(status).value, es))
            && (Run(c, s, es).Ok? ==> Run(c, s, es).value == s)
    decreases |es|
  {
    hide Step, ReceiptOk, ContractId;
    var s := Settled(AcceptedState(o, a), lock, status);
    if es != [] {
      TerminalRun(c, o, a, lock, status, es[1..]);
      TerminalStep(c, o, a, lock, status, es[0]);
      assert es == [es[0]] + es[1..];
    }
  }

  lemma TerminalStep(c: Crypto, o: Offer, a: Frame, lock: Option<Frame>, status: Status, e: Event)
    requires a.Accept? && (lock.Some? ==> lock.value.Lock?) && Terminal(status)
    ensures var s := Settled(AcceptedState(o, a), lock, status);
            && (Step(c, s, e).Ok? <==> ReceiptOk(o, a, lock, OutcomeOf(status).value, e))
            && (Step(c, s, e).Ok? ==> Step(c, s, e).value == s)
  {
    hide ContractId;
  }

  lemma SettlementRun(c: Crypto, o: Offer, a: Frame, l: Frame, es: seq<Event>)
    requires a.Accept? && l.Lock?
    requires es == [] || !HeartbeatOk(o, a, es[0])
    ensures var s := LockedState(o, a, l);
            && (Run(c, s, es).Ok? <==> Settlement(c, o, a, l, es))
            && (Run(c, s, es).Ok? ==> var t := Run(c, s, es).value;
                 && (t.status == Locked <==> es == [])
                 && (t.status == Claimed <==> es != [] && RevealOk(c, o, a, l, es[0]))
                 && (t.status == Refunded <==> es != [] && RefundOk(o, a, l, es[0]))
                 && t.contract == Some(a.contract) && t.rail == Some(l.rail))
  {
    hide ContractId;
    if es != [] {
      var s := LockedState(o, a, l);
      assert Step(c, s, es[0]).Ok? <==> RevealOk(c, o, a, l, es[0]) || RefundOk(o, a, l, es[0]);
      if RevealOk(c, o, a, l, es[0]) {
        TerminalRun(c, o, a, Some(l), Claimed, es[1..]);
        assert Step(c, s, es[0]) == Ok(Settled(AcceptedState(o, a), Some(l), Claimed));
      } else if RefundOk(o, a, l, es[0]) {
        TerminalRun(c, o, a, Some(l), Refunded, es[1..]);
        assert Step(c, s, es[0]) == Ok(Settled(AcceptedState(o, a), Some(l), Refunded));
      }
    }
  }

  lemma HeartbeatStep(c: Crypto, o: Offer, a: Frame, s: State, e: Event)
    requires a.Accept?
    requires s == AcceptedState(o, a) || exists l: Frame | l.Lock? :: s == LockedState(o, a, l)
    ensures HeartbeatOk(o, a, e) ==> Step(c, s, e) == Ok(s)
    ensures e.frame.Heartbeat? && Step(c, s, e).Ok? ==> HeartbeatOk(o, a, e)
  {
  }

  lemma {:induction false} LockedRun(c: Crypto, o: Offer, a: Frame, l: Frame, es: seq<Event>)
    requires a.Accept? && l.Lock?
    ensures Run(c, LockedState(o, a, l), es).Ok? <==> AfterLock(c, o, a, l, es)
    decreases |es|
  {
    var s := LockedState(o, a, l);
    if es != [] && HeartbeatOk(o, a, es[0]) {
      HeartbeatStep(c, o, a, s, es[0]);
      LockedRun(c, o, a, l, es[1..]);
      if AfterLock(c, o, a, l, es[1..]) {
        var m: nat :| m <= |es[1..]| && LockedSplit(c, o, a, l, es[1..], m);
        assert es[..m + 1] == [es[0]] + es[1..][..m] && es[m + 1..] == es[1..][m..];
        assert LockedSplit(c, o, a, l, es, m + 1);
      }
      if AfterLock(c, o, a, l, es) {
        var m: nat :| m <= |es| && LockedSplit(c, o, a, l, es, m);
        assert m > 0 by { assert es[0..] == es; }
        assert es[1..][..m - 1] == es[..m][1..] && es[1..][m - 1..] == es[m..];
        assert LockedSplit(c, o, a, l, es[1..], m - 1);
      }
    } else {
      SettlementRun(c, o, a, l, es);
      assert es[0..] == es;
      if Settlement(c, o, a, l, es) { assert LockedSplit(c, o, a, l, es, 0); }
      if AfterLock(c, o, a, l, es) {
        var m: nat :| m <= |es| && LockedSplit(c, o, a, l, es, m);
        if m > 0 { assert es[..m][0] == es[0]; }
      }
    }
  }

  lemma TurnRun(c: Crypto, o: Offer, a: Frame, es: seq<Event>)
    requires a.Accept?
    requires es == [] || !HeartbeatOk(o, a, es[0])
    ensures Run(c, AcceptedState(o, a), es).Ok? <==> Turn(c, o, a, es)
  {
    hide ContractId;
    if es != [] {
      var s := AcceptedState(o, a);
      assert Step(c, s, es[0]).Ok? <==> CancelOk(o, a, es[0]) || LockOk(o, a, es[0]);
      if CancelOk(o, a, es[0]) {
        TerminalRun(c, o, a, None, Cancelled, es[1..]);
        assert Step(c, s, es[0]) == Ok(Settled(s, None, Cancelled));
      } else if LockOk(o, a, es[0]) {
        LockedRun(c, o, a, es[0].frame, es[1..]);
        assert Step(c, s, es[0]) == Ok(LockedState(o, a, es[0].frame));
      }
    }
  }

  lemma {:induction false} AcceptedRun(c: Crypto, o: Offer, a: Frame, es: seq<Event>)
    requires a.Accept?
    ensures Run(c, AcceptedState(o, a), es).Ok? <==> AfterAccept(c, o, a, es)
    decreases |es|
  {
    hide Step;
    var s := AcceptedState(o, a);
    if es != [] && HeartbeatOk(o, a, es[0]) {
      HeartbeatStep(c, o, a, s, es[0]);
      AcceptedRun(c, o, a, es[1..]);
      if AfterAccept(c, o, a, es[1..]) {
        var k: nat :| k <= |es[1..]| && AcceptedSplit(c, o, a, es[1..], k);
        assert es[..k + 1] == [es[0]] + es[1..][..k] && es[k + 1..] == es[1..][k..];
        assert AcceptedSplit(c, o, a, es, k + 1);
      }
      if AfterAccept(c, o, a, es) {
        var k: nat :| k <= |es| && AcceptedSplit(c, o, a, es, k);
        assert k > 0 by { assert es[0..] == es; }
        assert es[1..][..k - 1] == es[..k][1..] && es[1..][k - 1..] == es[k..];
        assert AcceptedSplit(c, o, a, es[1..], k - 1);
      }
    } else {
      TurnRun(c, o, a, es);
      assert es[0..] == es;
      if Turn(c, o, a, es) { assert AcceptedSplit(c, o, a, es, 0); }
      if AfterAccept(c, o, a, es) {
        var k: nat :| k <= |es| && AcceptedSplit(c, o, a, es, k);
        if k > 0 { assert es[..k][0] == es[0]; }
      }
    }
  }

  lemma AcceptStep(c: Crypto, o: Offer, e: Event)
    ensures Step(c, Init(o), e).Ok? <==> AcceptOk(c, o, e)
    ensures AcceptOk(c, o, e) ==> e.frame.Accept? && Step(c, Init(o), e) == Ok(AcceptedState(o, e.frame))
  {
  }

  /** The runs a contract accepts after its offer are exactly the words of the language. */
  lemma TraceLanguage(c: Crypto, o: Offer, es: seq<Event>)
    ensures Run(c, Init(o), es).Ok? <==> Language(c, o, es)
  {
    if es != [] {
      AcceptStep(c, o, es[0]);
      if AcceptOk(c, o, es[0]) { AcceptedRun(c, o, es[0].frame, es[1..]); }
    }
  }

  // ---- What a settlement presupposes ---------------------------------------------------------

  /** The frame that settles a locked contract: a reveal for a claim, a refund for a refund. */
  predicate Settles(c: Crypto, o: Offer, a: Frame, l: Frame, status: Status, e: Event)
    requires a.Accept? && l.Lock?
  {
    if status == Claimed then RevealOk(c, o, a, l, e) else status == Refunded && RefundOk(o, a, l, e)
  }

  lemma {:induction false} LockedSettles(c: Crypto, o: Offer, a: Frame, l: Frame, es: seq<Event>) returns (r: nat)
    requires a.Accept? && l.Lock?
    requires Run(c, LockedState(o, a, l), es).Ok? && Run(c, LockedState(o, a, l), es).value.status in {Claimed, Refunded}
    ensures var t := Run(c, LockedState(o, a, l), es).value;
            r < |es| && Settles(c, o, a, l, t.status, es[r]) && t.contract == Some(a.contract) && t.rail == Some(l.rail)
    decreases |es|
  {
    hide Step, RevealOk, RefundOk;
    if es != [] && HeartbeatOk(o, a, es[0]) {
      HeartbeatStep(c, o, a, LockedState(o, a, l), es[0]);
      r := LockedSettles(c, o, a, l, es[1..]);
      r := r + 1;
    } else {
      SettlementRun(c, o, a, l, es);
      r := 0;
    }
  }

  lemma CancelledForGood(c: Crypto, o: Offer, a: Frame, es: seq<Event>)
    requires a.Accept? && es != [] && CancelOk(o, a, es[0])
    requires Run(c, AcceptedState(o, a), es).Ok?
    ensures Run(c, AcceptedState(o, a), es).value.status == Cancelled
  {
    var s := AcceptedState(o, a);
    assert Step(c, s, es[0]) == Ok(Settled(s, None, Cancelled));
    TerminalRun(c, o, a, None, Cancelled, es[1..]);
  }

  lemma LockTaken(c: Crypto, o: Offer, a: Frame, e: Event)
    requires a.Accept? && LockOk(o, a, e)
    ensures Step(c, AcceptedState(o, a), e) == Ok(LockedState(o, a, e.frame))
  {
  }

  lemma {:induction false} AcceptedSettles(c: Crypto, o: Offer, a: Frame, es: seq<Event>) returns (l: nat, r: nat)
    requires a.Accept?
    requires Run(c, AcceptedState(o, a), es).Ok? && Run(c, AcceptedState(o, a), es).value.status in {Claimed, Refunded}
    ensures var t := Run(c, AcceptedState(o, a), es).value;
            && l < r < |es| && LockOk(o, a, es[l]) && Settles(c, o, a, es[l].frame, t.status, es[r])
            && t.contract == Some(a.contract) && t.rail == Some(es[l].frame.rail)
    decreases |es|
  {
    hide Step, Settles, Settlement, AfterLock;
    var s := AcceptedState(o, a);
    if HeartbeatOk(o, a, es[0]) {
      HeartbeatStep(c, o, a, s, es[0]);
      l, r := AcceptedSettles(c, o, a, es[1..]);
      l, r := l + 1, r + 1;
    } else {
      TurnRun(c, o, a, es);
      if CancelOk(o, a, es[0]) {
        CancelledForGood(c, o, a, es);
        assert false;
      } else {
        LockTaken(c, o, a, es[0]);
        r := LockedSettles(c, o, a, es[0].frame, es[1..]);
        l, r := 0, r + 1;
      }
    }
  }

  /** A settled contract saw, in this order, an acceptance before expiry, a lock by the payer on an
      offered rail before the refund time, and what settled it; its contract id and rail are theirs. */
  lemma SettlementShape(c: Crypto, o: Offer, es: seq<Event>) returns (l: nat, r: nat)
    requires Run(c, Init(o), es).Ok? && Run(c, Init(o), es).value.status in {Claimed, Refunded}
    ensures 0 < l < r < |es| && AcceptOk(c, o, es[0]) && LockOk(o, es[0].frame, es[l])
    ensures var t := Run(c, Init(o), es).value;
            && Settles(c, o, es[0].frame, es[l].frame, t.status, es[r])
            && t.contract == Some(es[0].frame.contract) && t.rail == Some(es[l].frame.rail)
  {
    hide Step, ContractId, AcceptOk, LockOk, Settles, AcceptedState;
    AcceptStep(c, o, es[0]);
    l, r := AcceptedSettles(c, o, es[0].frame, es[1..]);
    l, r := l + 1, r + 1;
  }

  /** A claimed contract saw, in this order, an acceptance before expiry, a lock by the
      payer on an offered rail, and a reveal by the payee that opens the accepted
      statement, the last two before the refund time. */
  lemma ClaimShape(c: Crypto, o: Offer, es: seq<Event>) returns (l: nat, r: nat)
    requires Run(c, Init(o), es).Ok? && Run(c, Init(o), es).value.status == Claimed
    ensures 0 < l < r < |es| && AcceptOk(c, o, es[0])
    ensures LockOk(o, es[0].frame, es[l]) && RevealOk(c, o, es[0].frame, es[l].frame, es[r])
  {
    hide Step, ContractId, AcceptOk, LockOk, RevealOk;
    l, r := SettlementShape(c, o, es);
  }

  /** claimByMs is checked nowhere: a reveal is judged by refundAfterMs alone. */
  lemma ClaimDeadlineUnused(c: Crypto, s: State, e: Event, later: int)
    requires e.frame.Reveal? && Step(c, s, e).Ok?
    ensures Step(c, s, e.(now := later)).Ok? <==> later < s.offer.refundAfterMs
  {
  }
}
