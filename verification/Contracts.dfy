/** One tclk/1 hash-lock contract: the guarded escrow state machine. */
module Contracts {
  import opened Wrappers
  import opened Json
  import opened Frames

  datatype Status = Proposed | Accepted | Locked | Claimed | Refunded | Cancelled

  // Why a frame is refused, one name per error of the source.
  datatype Refusal =
    | AdditionalOffer | AcceptOutOfTurn | SelfAcceptOrExpired | ContractIdMismatch | LockOutOfTurn | LockPartyOrRail | LockTooLate | RevealOutOfTurn
    | RevealPartyOrTooLate | RevealReference | SecretDoesNotOpen | RefundOutOfTurn | RefundPartyOrTooEarly | RefundReference | HeartbeatOutsideActive | HeartbeatNonParty
    | CancelDeferred | CancelOutOfTurn | CancelNonParty | ReceiptBeforeTerminal | ReceiptContractOrParty | ReceiptOutcome | ReceiptReference | ReceiptRail

  // `opens` maps a secret to the statement it opens (SHA-256 of its bytes).
  datatype Crypto = Crypto(sha: Hash, opens: Text -> Text)

  // A frame with the transport time it was retained at, in milliseconds.
  datatype Event = Event(frame: Frame, now: int)

  datatype State = State(
    offer: Offer, status: Status, payer: Option<Text>, payee: Option<Text>,
    contract: Option<Text>, statement: Option<Text>, rail: Option<Text>, railRef: Option<Text>)

  function Init(o: Offer): State {
    if o.role == Payer then State(o, Proposed, Some(o.from), None, None, None, None, None)
    else State(o, Proposed, None, Some(o.from), None, None, None, None)
  }

  predicate IsParty(s: State, who: Text) {
    Some(who) == s.payer || Some(who) == s.payee
  }

  predicate Terminal(status: Status) {
    status in {Claimed, Refunded, Cancelled}
  }

  function OutcomeOf(status: Status): Option<Outcome> {
    match status
    case Claimed => Some(ClaimedOutcome)
    case Refunded => Some(RefundedOutcome)
    case Cancelled => Some(CancelledOutcome)
    case _ => None
  }

  function StepAccept(c: Crypto, s: State, e: Event): Result<State, Refusal>
    requires e.frame.Accept?
  {
    var Accept(sender, ref, statement, contract, _) := e.frame;
    if s.status != Proposed || ref != s.offer.id then Err(AcceptOutOfTurn)
    else if sender == s.offer.from || e.now >= s.offer.expiresMs then Err(SelfAcceptOrExpired)
    else if contract != ContractId(c.sha, s.offer, e.frame) then Err(ContractIdMismatch)
    else
      var t := s.(contract := Some(contract), statement := Some(statement), status := Accepted);
      Ok(if s.offer.role == Payer then t.(payee := Some(sender)) else t.(payer := Some(sender)))
  }

  function StepLock(c: Crypto, s: State, e: Event): Result<State, Refusal>
    requires e.frame.Lock?
  {
    var Lock(sender, contract, rail, ref) := e.frame;
    if s.status != Accepted || Some(contract) != s.contract then Err(LockOutOfTurn)
    else if Some(sender) != s.payer || rail !in s.offer.rails then Err(LockPartyOrRail)
    else if e.now >= s.offer.refundAfterMs then Err(LockTooLate)
    else Ok(s.(rail := Some(rail), railRef := Some(ref), status := Locked))
  }

  function StepReveal(c: Crypto, s: State, e: Event): Result<State, Refusal>
    requires e.frame.Reveal?
  {
    var Reveal(sender, contract, secret, ref) := e.frame;
    if s.status != Locked || Some(contract) != s.contract then Err(RevealOutOfTurn)
    else if Some(sender) != s.payee || e.now >= s.offer.refundAfterMs then Err(RevealPartyOrTooLate)
    else if ref.Some? && ref != s.railRef then Err(RevealReference)
    else if Some(c.opens(secret)) != s.statement then Err(SecretDoesNotOpen)
    else Ok(s.(status := Claimed))
  }

  function StepRefund(c: Crypto, s: State, e: Event): Result<State, Refusal>
    requires e.frame.Refund?
  {
    var Refund(sender, contract, _, ref) := e.frame;
    if s.status != Locked || Some(contract) != s.contract then Err(RefundOutOfTurn)
    else if Some(sender) != s.payer || e.now < s.offer.refundAfterMs then Err(RefundPartyOrTooEarly)
    else if ref.Some? && ref != s.railRef then Err(RefundReference)
    else Ok(s.(status := Refunded))
  }

  function StepHeartbeat(c: Crypto, s: State, e: Event): Result<State, Refusal>
    requires e.frame.Heartbeat?
  {
    var Heartbeat(sender, contract, _, _) := e.frame;
    if s.status !in {Accepted, Locked} || Some(contract) != s.contract then Err(HeartbeatOutsideActive)
    else if !IsParty(s, sender) then Err(HeartbeatNonParty)
    else Ok(s)
  }

  function StepCancel(c: Crypto, s: State, e: Event): Result<State, Refusal>
    requires e.frame.Cancel?
  {
    var Cancel(sender, contract, _) := e.frame;
    if s.status == Proposed then Err(CancelDeferred)
    else if s.status != Accepted || Some(contract) != s.contract then Err(CancelOutOfTurn)
    else if !IsParty(s, sender) then Err(CancelNonParty)
    else Ok(s.(status := Cancelled))
  }

  function StepReceipt(c: Crypto, s: State, e: Event): Result<State, Refusal>
    requires e.frame.Receipt?
  {
    var Receipt(sender, contract, outcome, rail, ref) := e.frame;
    if !Terminal(s.status) then Err(ReceiptBeforeTerminal)
    else if Some(contract) != s.contract || !IsParty(s, sender) then Err(ReceiptContractOrParty)
    else if Some(outcome) != OutcomeOf(s.status) then Err(ReceiptOutcome)
    else if rail.Some? && rail != s.rail then Err(ReceiptRail)
    else if ref.Some? && ref != s.railRef then Err(ReceiptReference)
    else Ok(s)
  }

  /** The effect of one frame: the next state, or the reason it is refused. */
  function Step(c: Crypto, s: State, e: Event): Result<State, Refusal> {
    match e.frame
    case OfferFrame(_) => Err(AdditionalOffer)
    case Accept(_, _, _, _, _) => StepAccept(c, s, e)
    case Lock(_, _, _, _) => StepLock(c, s, e)
    case Reveal(_, _, _, _) => StepReveal(c, s, e)
    case Refund(_, _, _, _) => StepRefund(c, s, e)
    case Heartbeat(_, _, _, _) => StepHeartbeat(c, s, e)
    case Cancel(_, _, _) => StepCancel(c, s, e)
    case Receipt(_, _, _, _, _) => StepReceipt(c, s, e)
  }

  /** The fact a refusal reports, read off the frame and the contract. */
  predicate Reason(c: Crypto, s: State, e: Event, reason: Refusal) {
    var f := e.frame;
    match reason
    case AdditionalOffer => f.OfferFrame?
    case AcceptOutOfTurn => f.Accept? && (s.status != Proposed || f.ref != s.offer.id)
    case SelfAcceptOrExpired => f.Accept? && (f.sender == s.offer.from || s.offer.expiresMs <= e.now)
    case ContractIdMismatch => f.Accept? && f.contract != ContractId(c.sha, s.offer, f)
    case LockOutOfTurn => f.Lock? && (s.status != Accepted || s.contract != Some(f.contract))
    case LockPartyOrRail => f.Lock? && (s.payer != Some(f.sender) || f.rail !in s.offer.rails)
    case LockTooLate => f.Lock? && s.offer.refundAfterMs <= e.now
    case RevealOutOfTurn => f.Reveal? && (s.status != Locked || s.contract != Some(f.contract))
    case RevealPartyOrTooLate => f.Reveal? && (s.payee != Some(f.sender) || s.offer.refundAfterMs <= e.now)
    case RevealReference => f.Reveal? && f.railRef.Some? && s.railRef != f.railRef
    case SecretDoesNotOpen => f.Reveal? && s.statement != Some(c.opens(f.secret))
    case RefundOutOfTurn => f.Refund? && (s.status != Locked || s.contract != Some(f.contract))
    case RefundPartyOrTooEarly => f.Refund? && (s.payer != Some(f.sender) || e.now < s.offer.refundAfterMs)
    case RefundReference => f.Refund? && f.railRef.Some? && s.railRef != f.railRef
    case HeartbeatOutsideActive => f.Heartbeat? && (s.status !in {Accepted, Locked} || s.contract != Some(f.contract))
    case HeartbeatNonParty => f.Heartbeat? && Some(f.sender) !in {s.payer, s.payee}
    case CancelDeferred => f.Cancel? && s.status == Proposed
    case CancelOutOfTurn => f.Cancel? && (s.status != Accepted || s.contract != Some(f.contract))
    case CancelNonParty => f.Cancel? && Some(f.sender) !in {s.payer, s.payee}
    case ReceiptBeforeTerminal => f.Receipt? && s.status !in {Claimed, Refunded, Cancelled}
    case ReceiptContractOrParty => f.Receipt? && (s.contract != Some(f.contract) || Some(f.sender) !in {s.payer, s.payee})
    case ReceiptOutcome =>
      f.Receipt? && !(match f.outcome
                      case ClaimedOutcome => s.status == Claimed
                      case RefundedOutcome => s.status == Refunded
                      case CancelledOutcome => s.status == Cancelled)
    case ReceiptRail => f.Receipt? && f.railName.Some? && s.rail != f.railName
    case ReceiptReference => f.Receipt? && f.railRef.Some? && s.railRef != f.railRef
  }

  /** The checks of the source in their order: the reason reported is the first that holds. */
  function Checks(f: Frame): seq<Refusal> {
    match f
    case OfferFrame(_) => [AdditionalOffer]
    case Accept(_, _, _, _, _) => [AcceptOutOfTurn, SelfAcceptOrExpired, ContractIdMismatch]
    case Lock(_, _, _, _) => [LockOutOfTurn, LockPartyOrRail, LockTooLate]
    case Reveal(_, _, _, _) => [RevealOutOfTurn, RevealPartyOrTooLate, RevealReference, SecretDoesNotOpen]
    case Refund(_, _, _, _) => [RefundOutOfTurn, RefundPartyOrTooEarly, RefundReference]
    case Heartbeat(_, _, _, _) => [HeartbeatOutsideActive, HeartbeatNonParty]
    case Cancel(_, _, _) => [CancelDeferred, CancelOutOfTurn, CancelNonParty]
    case Receipt(_, _, _, _, _) =>
      [ReceiptBeforeTerminal, ReceiptContractOrParty, ReceiptOutcome, ReceiptRail, ReceiptReference]
  }

  /** Check i fails and none before it does. */
  predicate FailsFirst(c: Crypto, s: State, e: Event, i: nat)
    requires i < |Checks(e.frame)|
  {
    Reason(c, s, e, Checks(e.frame)[i]) && forall j: nat | j < i :: !Reason(c, s, e, Checks(e.frame)[j])
  }

  /** The step is refused for check i exactly when it is the first to fail. */
  predicate RefusedFor(c: Crypto, s: State, e: Event, i: nat)
    requires i < |Checks(e.frame)|
  {
    Step(c, s, e) == Err(Checks(e.frame)[i]) <==> FailsFirst(c, s, e, i)
  }

  lemma OfferRefusals(c: Crypto, s: State, e: Event, i: nat)
    requires e.frame.OfferFrame? && i < 1
    ensures RefusedFor(c, s, e, i)
  {
    hide ContractId;
    var checks := Checks(e.frame);
    assert checks[0] == AdditionalOffer;
  }

  lemma AcceptRefusals(c: Crypto, s: State, e: Event, i: nat)
    requires e.frame.Accept? && i < 3
    ensures RefusedFor(c, s, e, i)
  {
    hide ContractId;
    var checks := Checks(e.frame);
    assert checks[0] == AcceptOutOfTurn && checks[1] == SelfAcceptOrExpired && checks[2] == ContractIdMismatch;
  }

  lemma LockRefusals(c: Crypto, s: State, e: Event, i: nat)
    requires e.frame.Lock? && i < 3
    ensures RefusedFor(c, s, e, i)
  {
    hide ContractId;
    var checks := Checks(e.frame);
    assert checks[0] == LockOutOfTurn && checks[1] == LockPartyOrRail && checks[2] == LockTooLate;
  }

  lemma RevealRefusals(c: Crypto, s: State, e: Event, i: nat)
    requires e.frame.Reveal? && i < 4
    ensures RefusedFor(c, s, e, i)
  {
    hide ContractId;
    var checks := Checks(e.frame);
    assert checks[0] == RevealOutOfTurn && checks[1] == RevealPartyOrTooLate && checks[2] == RevealReference;
    assert checks[3] == SecretDoesNotOpen;
  }

  lemma RefundRefusals(c: Crypto, s: State, e: Event, i: nat)
    requires e.frame.Refund? && i < 3
    ensures RefusedFor(c, s, e, i)
  {
    hide ContractId;
    var checks := Checks(e.frame);
    assert checks[0] == RefundOutOfTurn && checks[1] == RefundPartyOrTooEarly && checks[2] == RefundReference;
  }

  lemma HeartbeatRefusals(c: Crypto, s: State, e: Event, i: nat)
    requires e.frame.Heartbeat? && i < 2
    ensures RefusedFor(c, s, e, i)
  {
    hide ContractId;
    var checks := Checks(e.frame);
    assert checks[0] == HeartbeatOutsideActive && checks[1] == HeartbeatNonParty;
  }

  lemma CancelRefusals(c: Crypto, s: State, e: Event, i: nat)
    requires e.frame.Cancel? && i < 3
    ensures RefusedFor(c, s, e, i)
  {
    hide ContractId;
    var checks := Checks(e.frame);
    assert checks[0] == CancelDeferred && checks[1] == CancelOutOfTurn && checks[2] == CancelNonParty;
  }

  lemma ReceiptRefusals(c: Crypto, s: State, e: Event, i: nat)
    requires e.frame.Receipt? && i < 5
    ensures RefusedFor(c, s, e, i)
  {
    hide ContractId;
    var checks := Checks(e.frame);
    assert checks[0] == ReceiptBeforeTerminal && checks[1] == ReceiptContractOrParty && checks[2] == ReceiptOutcome;
    assert checks[3] == ReceiptRail && checks[4] == ReceiptReference;
  }

  /** A frame is refused exactly when one of its checks fails, and the reason is the first. */
  lemma RefusedForFirst(c: Crypto, s: State, e: Event, i: nat)
    requires i < |Checks(e.frame)|
    ensures Step(c, s, e) == Err(Checks(e.frame)[i]) <==> FailsFirst(c, s, e, i)
  {
    hide Step, FailsFirst, Reason;
    match e.frame
    case OfferFrame(_) => OfferRefusals(c, s, e, i);
    case Accept(_, _, _, _, _) => AcceptRefusals(c, s, e, i);
    case Lock(_, _, _, _) => LockRefusals(c, s, e, i);
    case Reveal(_, _, _, _) => RevealRefusals(c, s, e, i);
    case Refund(_, _, _, _) => RefundRefusals(c, s, e, i);
    case Heartbeat(_, _, _, _) => HeartbeatRefusals(c, s, e, i);
    case Cancel(_, _, _) => CancelRefusals(c, s, e, i);
    case Receipt(_, _, _, _, _) => ReceiptRefusals(c, s, e, i);
  }

  /** Nothing else is refused. */
  lemma NoOtherRefusal(c: Crypto, s: State, e: Event)
    requires Step(c, s, e).Err?
    ensures Step(c, s, e).error in Checks(e.frame)
  {
    hide ContractId;
  }

  /** What one application did: took the step, or reported the reason and changed nothing. */
  predicate Follows(c: Crypto, before: State, e: Event, after: State, error: Option<Refusal>) {
    match Step(c, before, e)
    case Ok(s) => error == None && after == s
    case Err(reason) => error == Some(reason) && after == before
  }

  /** The mutable contract object of the validator. */
  class Contract {
    const offer: Offer
    var status: Status
    var payer: Option<Text>
    var payee: Option<Text>
    var contract: Option<Text>
    var statement: Option<Text>
    var rail: Option<Text>
    var railRef: Option<Text>

    function Value(): State
      reads this
    {
      State(offer, status, payer, payee, contract, statement, rail, railRef)
    }

    constructor (offer: Offer)
      ensures Value() == Init(offer)
    {
      this.offer := offer;
      status := Proposed;
      contract, statement, rail, railRef := None, None, None, None;
      if offer.role == Payer {
        payer, payee := Some(offer.from), None;
      } else {
        payer, payee := None, Some(offer.from);
      }
    }

    /** Applies one frame; a refused frame changes no field. */
    method Apply(c: Crypto, e: Event) returns (error: Option<Refusal>)
      modifies this
      ensures Follows(c, old(Value()), e, Value(), error)
    {
      match e.frame {
        case OfferFrame(_) =>
          error := Some(AdditionalOffer);
        case Accept(_, _, _, _, _) => error := ApplyAccept(c, e);
        case Lock(_, _, _, _) => error := ApplyLock(c, e);
        case Reveal(_, _, _, _) => error := ApplyReveal(c, e);
        case Refund(_, _, _, _) => error := ApplyRefund(c, e);
        case Heartbeat(_, _, _, _) => error := ApplyHeartbeat(c, e);
        case Cancel(_, _, _) => error := ApplyCancel(c, e);
        case Receipt(_, _, _, _, _) => error := ApplyReceipt(c, e);
      }
    }

    method ApplyAccept(c: Crypto, e: Event) returns (error: Option<Refusal>)
      requires e.frame.Accept?
      modifies this
      ensures Follows(c, old(Value()), e, Value(), error)
    {
      hide ContractId;
      error := None;
      var Accept(sender, ref, stated, id, _) := e.frame;
      if status != Proposed || ref != offer.id {
        error := Some(AcceptOutOfTurn);
      } else if sender == offer.from || e.now >= offer.expiresMs {
        error := Some(SelfAcceptOrExpired);
      } else {
        var expected := ContractId(c.sha, offer, e.frame);
        if id != expected {
          error := Some(ContractIdMismatch);
        } else {
          contract, statement := Some(expected), Some(stated);
          if offer.role == Payer {
            payee := Some(sender);
          } else {
            payer := Some(sender);
          }
          status := Accepted;
        }
      }
    }

    method ApplyLock(c: Crypto, e: Event) returns (error: Option<Refusal>)
      requires e.frame.Lock?
      modifies this
      ensures Follows(c, old(Value()), e, Value(), error)
    {
      error := None;
      var Lock(sender, id, name, ref) := e.frame;
      if status != Accepted || Some(id) != contract {
        error := Some(LockOutOfTurn);
      } else if Some(sender) != payer || name !in offer.rails {
        error := Some(LockPartyOrRail);
      } else if e.now >= offer.refundAfterMs {
        error := Some(LockTooLate);
      } else {
        rail, railRef, status := Some(name), Some(ref), Locked;
      }
    }

    method ApplyReveal(c: Crypto, e: Event) returns (error: Option<Refusal>)
      requires e.frame.Reveal?
      modifies this
      ensures Follows(c, old(Value()), e, Value(), error)
    {
      error := None;
      var Reveal(sender, id, secret, ref) := e.frame;
      if status != Locked || Some(id) != contract {
        error := Some(RevealOutOfTurn);
      } else if Some(sender) != payee || e.now >= offer.refundAfterMs {
        error := Some(RevealPartyOrTooLate);
      } else if ref.Some? && ref != railRef {
        error := Some(RevealReference);
      } else if Some(c.opens(secret)) != statement {
        error := Some(SecretDoesNotOpen);
      } else {
        status := Claimed;
      }
    }

    method ApplyRefund(c: Crypto, e: Event) returns (error: Option<Refusal>)
      requires e.frame.Refund?
      modifies this
      ensures Follows(c, old(Value()), e, Value(), error)
    {
      error := None;
      var Refund(sender, id, _, ref) := e.frame;
      if status != Locked || Some(id) != contract {
        error := Some(RefundOutOfTurn);
      } else if Some(sender) != payer || e.now < offer.refundAfterMs {
        error := Some(RefundPartyOrTooEarly);
      } else if ref.Some? && ref != railRef {
        error := Some(RefundReference);
      } else {
        status := Refunded;
      }
    }

    method ApplyHeartbeat(c: Crypto, e: Event) returns (error: Option<Refusal>)
      requires e.frame.Heartbeat?
      modifies this
      ensures Follows(c, old(Value()), e, Value(), error)
    {
      error := None;
      var Heartbeat(sender, id, _, _) := e.frame;
      if status !in {Accepted, Locked} || Some(id) != contract {
        error := Some(HeartbeatOutsideActive);
      } else if Some(sender) != payer && Some(sender) != payee {
        error := Some(HeartbeatNonParty);
      }
    }

    method ApplyCancel(c: Crypto, e: Event) returns (error: Option<Refusal>)
      requires e.frame.Cancel?
      modifies this
      ensures Follows(c, old(Value()), e, Value(), error)
    {
      error := None;
      var Cancel(sender, id, _) := e.frame;
      if status == Proposed {
        error := Some(CancelDeferred);
      } else if status != Accepted || Some(id) != contract {
        error := Some(CancelOutOfTurn);
      } else if Some(sender) != payer && Some(sender) != payee {
        error := Some(CancelNonParty);
      } else {
        status := Cancelled;
      }
    }

    method ApplyReceipt(c: Crypto, e: Event) returns (error: Option<Refusal>)
      requires e.frame.Receipt?
      modifies this
      ensures Follows(c, old(Value()), e, Value(), error)
    {
      error := None;
      var Receipt(sender, id, outcome, name, ref) := e.frame;
      if status !in {Claimed, Refunded, Cancelled} {
        error := Some(ReceiptBeforeTerminal);
      } else if Some(id) != contract || (Some(sender) != payer && Some(sender) != payee) {
        error := Some(ReceiptContractOrParty);
      } else if Some(outcome) != OutcomeOf(status) {
        error := Some(ReceiptOutcome);
      } else if name.Some? && name != rail {
        error := Some(ReceiptRail);
      } else if ref.Some? && ref != railRef {
        error := Some(ReceiptReference);
      }
    }
  }
}
