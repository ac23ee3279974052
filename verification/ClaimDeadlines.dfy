/** The claim deadline of an offer binds nobody: when exactly all claims come in time. */
module ClaimDeadlines {
  import opened Wrappers
  import opened Json
  import opened Frames
  import opened FrameCodec
  import opened Contracts
  import opened ContractTraces

  /** Hashes are written as 0x and 64 lower-case hex digits. */
  ghost predicate HexHashes(c: Crypto) {
    (forall t :: IsHex32(c.sha(t))) && (forall t :: IsHex32(c.opens(t)))
  }

  /** Someone else than the offerer, with a secret and a nonce of the right form. */
  predicate Counterparty(o: Offer, who: Text, secret: Text, nonce: Text) {
    IsDid(who) && who != o.from && IsHex32(secret) && IsNonce(nonce)
  }

  /** Frames the schema accepts, at times that never go back, run on the offer's contract. */
  ghost predicate Passes(c: Crypto, o: Offer, es: seq<Event>) {
    && (forall i | 0 <= i < |es| :: ValidFrame(c.sha, es[i].frame))
    && (forall i, j | 0 <= i < j < |es| :: es[i].now <= es[j].now)
    && Run(c, Init(o), es).Ok?
  }

  /** Every reveal of an accepted run comes no later than claimByMs. */
  ghost predicate AllClaimsInTime(c: Crypto, o: Offer) {
    forall es: seq<Event>, r: nat | Passes(c, o, es) && r < |es| && es[r].frame.Reveal? :: es[r].now <= o.claimByMs
  }

  function Earlier(x: int, y: int): int {
    if x < y then x else y
  }

  /** An acceptance before expiry, a lock and a reveal one millisecond after claimByMs. */
  function LateRun(c: Crypto, o: Offer, who: Text, secret: Text, nonce: Text): seq<Event>
    requires o.rails != []
  {
    var blank := Accept(who, o.id, c.opens(secret), [], nonce);
    var a := Accept(who, o.id, c.opens(secret), ContractId(c.sha, o, blank), nonce);
    var late := o.claimByMs + 1;
    [Event(a, Earlier(o.expiresMs - 1, late)),
     Event(Lock(PayerOf(o, a), a.contract, o.rails[0], [0x31]), late),
     Event(Reveal(PayeeOf(o, a), a.contract, secret, None), late)]
  }

  lemma {:induction false} SameBuild(t: Entries, u: Entries, n: nat)
    requires n <= 27 && forall k: Key :: t(k) == u(k)
    ensures Build(t, n) == Build(u, n)
    decreases 27 - n
  {
    hide KeyText, Ranked;
    if n < 27 { SameBuild(t, u, n + 1); }
  }

  /** A contract id does not depend on the id the acceptance itself carries. */
  lemma SameContractId(c: Crypto, o: Offer, a: Frame, b: Frame)
    requires a.Accept? && b.Accept?
    requires a.sender == b.sender && a.ref == b.ref && a.statement == b.statement && a.nonce == b.nonce
    ensures ContractId(c.sha, o, a) == ContractId(c.sha, o, b)
  {
    hide Build, Digest;
    SameBuild(AcceptCoreEntries(a), AcceptCoreEntries(b), 0);
    SameBuild(ContractEntries(o, a), ContractEntries(o, b), 0);
  }

  /** Accept, lock and reveal in their places run through. */
  lemma ThreeStepsClaim(c: Crypto, o: Offer, es: seq<Event>)
    requires |es| == 3 && AcceptOk(c, o, es[0]) && LockOk(o, es[0].frame, es[1])
    requires RevealOk(c, o, es[0].frame, es[1].frame, es[2])
    ensures Run(c, Init(o), es).Ok? && Run(c, Init(o), es).value.status == Claimed
  {
    hide ContractId;
    var a, l := es[0].frame, es[1].frame;
    var claimed := Settled(AcceptedState(o, a), Some(l), Claimed);
    AcceptStep(c, o, es[0]);
    var second, third := es[1..], es[2..];
    assert second[1..] == third && third == [es[2]] && third[1..] == [];
    assert Run(c, LockedState(o, a, l), third) == Ok(claimed) by {
      assert Step(c, LockedState(o, a, l), es[2]) == Ok(claimed);
      assert Run(c, claimed, []) == Ok(claimed);
    }
    assert Run(c, AcceptedState(o, a), second) == Ok(claimed) by {
      assert Step(c, AcceptedState(o, a), es[1]) == Ok(LockedState(o, a, l));
    }
  }

  lemma LateRunFits(c: Crypto, o: Offer, who: Text, secret: Text, nonce: Text)
    requires ValidOffer(c.sha, o) && HexHashes(c) && Counterparty(o, who, secret, nonce)
    requires o.claimByMs + 1 < o.refundAfterMs
    ensures Passes(c, o, LateRun(c, o, who, secret, nonce))
    ensures var es := LateRun(c, o, who, secret, nonce);
            && Run(c, Init(o), es).value.status == Claimed
            && o.claimByMs < es[2].now < o.refundAfterMs && es[0].now < o.expiresMs
  {
    hide ContractId, IsDid, IsHex32, IsNonce, IsRail, OfferId, Run, Step, Init;
    var es := LateRun(c, o, who, secret, nonce);
    SameContractId(c, o, es[0].frame, Accept(who, o.id, c.opens(secret), [], nonce));
    ThreeStepsClaim(c, o, es);
    LateRunIsValid(c, o, who, secret, nonce);
  }

  lemma LateRunIsValid(c: Crypto, o: Offer, who: Text, secret: Text, nonce: Text)
    requires ValidOffer(c.sha, o) && HexHashes(c) && Counterparty(o, who, secret, nonce)
    ensures var es := LateRun(c, o, who, secret, nonce); forall i | 0 <= i < |es| :: ValidFrame(c.sha, es[i].frame)
  {
    hide IsDid, IsHex32, IsNonce, IsRail, OfferId, Object;
    var es := LateRun(c, o, who, secret, nonce);
    assert IsHex32(es[0].frame.contract);
    assert ValidFrame(c.sha, es[0].frame) && ValidFrame(c.sha, es[1].frame) && ValidFrame(c.sha, es[2].frame);
  }

  /** All claims on a valid offer come by claimByMs exactly when there is no millisecond left
      between claimByMs and refundAfterMs for a later one. */
  lemma ClaimsInTime(c: Crypto, o: Offer, who: Text, secret: Text, nonce: Text)
    requires ValidOffer(c.sha, o) && HexHashes(c) && Counterparty(o, who, secret, nonce)
    ensures AllClaimsInTime(c, o) <==> o.refundAfterMs <= o.claimByMs + 1
  {
    hide ValidOffer, HexHashes, Counterparty, Passes;
    if o.claimByMs + 1 < o.refundAfterMs {
      LateRunFits(c, o, who, secret, nonce);
      LateRunReveals(c, o, who, secret, nonce);
    } else {
      forall es: seq<Event>, r: nat | Passes(c, o, es) && r < |es| && es[r].frame.Reveal?
        ensures es[r].now <= o.claimByMs
      {
        RevealBeforeRefund(c, o, es, r);
      }
    }
  }

  lemma LateRunReveals(c: Crypto, o: Offer, who: Text, secret: Text, nonce: Text)
    requires ValidOffer(c.sha, o)
    ensures var es := LateRun(c, o, who, secret, nonce); |es| == 3 && es[2].frame.Reveal? && es[2].now == o.claimByMs + 1
  {
  }

  lemma RevealBeforeRefund(c: Crypto, o: Offer, es: seq<Event>, r: nat)
    requires Passes(c, o, es) && r < |es| && es[r].frame.Reveal?
    ensures es[r].now < o.refundAfterMs
  {
    RevealInRun(c, Init(o), es, r);
  }

  lemma {:induction false} RevealInRun(c: Crypto, s: State, es: seq<Event>, r: nat)
    requires Run(c, s, es).Ok? && r < |es| && es[r].frame.Reveal?
    ensures es[r].now < s.offer.refundAfterMs
    decreases r
  {
    StepKeepsOffer(c, s, es[0]);
    if r > 0 { RevealInRun(c, Step(c, s, es[0]).value, es[1..], r - 1); }
  }

  lemma StepKeepsOffer(c: Crypto, s: State, e: Event)
    requires Step(c, s, e).Ok?
    ensures Step(c, s, e).value.offer == s.offer
  {
  }
}
