/** The literal text of frame lines and of digest preimages, field by field. */
module FrameText {
  import opened Wrappers
  import opened Json
  import opened CanonicalJson
  import opened Frames
  import opened FrameLines
  import opened FrameCodec
  import opened FrameTheorems
  import opened Spelling

  function Opt(name: string, value: Option<Text>, rest: Fields): Fields {
    match value case None => rest case Some(t) => Field(Lit(name), JStr(t), rest)
  }

  function Text1(name: string, value: Text, rest: Fields): Fields {
    Field(Lit(name), JStr(value), rest)
  }

  function JobObject(j: Job): Json {
    JObj(Opt("context", j.context, Text1("id", j.id, Text1("proto", j.proto, NoFields))))
  }

  /** The fields of an offer by name; the digest leaves out the id. */
  function OfferFields(o: Offer, withId: bool): Fields {
    var afterJob :=
      Text1("lock", Lit("hash"),
      Text1("nonce", o.nonce,
      Field(Lit("rails"), JArr(RailItems(o.rails)),
      Field(Lit("refundAfterMs"), JInt(o.refundAfterMs),
      Text1("role", if o.role == Payer then Lit("payer") else Lit("payee"),
      Text1("type", Lit("offer"), NoFields))))));
    var job := match o.job case None => afterJob case Some(j) => Field(Lit("job"), JobObject(j), afterJob);
    Text1("amount", o.amount,
    Text1("asset", o.asset,
    Field(Lit("claimByMs"), JInt(o.claimByMs),
    Field(Lit("expiresMs"), JInt(o.expiresMs),
    Text1("from", o.from,
    if withId then Text1("id", o.id, job) else job)))))
  }

  /** Every frame as the object its line spells. */
  function AsObject(f: Frame): Json {
    JObj(
      match f
      case OfferFrame(o) => OfferFields(o, true)
      case Accept(sender, ref, statement, contract, nonce) =>
        Text1("contract", contract, Text1("from", sender, Text1("nonce", nonce, Text1("ref", ref,
        Text1("statement", statement, Text1("type", Lit("accept"), NoFields))))))
      case Lock(sender, contract, rail, ref) =>
        Text1("contract", contract, Text1("from", sender, Text1("rail", rail, Text1("ref", ref,
        Text1("type", Lit("lock"), NoFields)))))
      case Reveal(sender, contract, secret, ref) =>
        Text1("contract", contract, Text1("from", sender, Opt("ref", ref, Text1("secret", secret,
        Text1("type", Lit("reveal"), NoFields)))))
      case Refund(sender, contract, reason, ref) =>
        Text1("contract", contract, Text1("from", sender, Opt("reason", reason, Opt("ref", ref,
        Text1("type", Lit("refund"), NoFields)))))
      case Cancel(sender, contract, reason) =>
        Text1("contract", contract, Text1("from", sender, Opt("reason", reason, Text1("type", Lit("cancel"), NoFields))))
      case Receipt(sender, contract, outcome, rail, ref) =>
        var said := match outcome
                    case ClaimedOutcome => Lit("claimed") case RefundedOutcome => Lit("refunded") case CancelledOutcome => Lit("cancelled");
        Text1("contract", contract, Text1("from", sender, Text1("outcome", said, Opt("rail", rail, Opt("ref", ref,
        Text1("type", Lit("receipt"), NoFields))))))
      case Heartbeat(sender, contract, nonce, note) =>
        Text1("contract", contract, Text1("from", sender, Text1("nonce", nonce, Opt("note", note,
        Text1("type", Lit("heartbeat"), NoFields))))))
  }

  // ---- Walking through the key table -----------------------------------------------------------

  lemma {:induction false} Skip(t: Entries, present: set<Key>, n: nat, m: nat)
    requires n <= m <= 27 && (forall k: Key :: k !in present ==> t(k) == None) && forall k | k in present :: !(n <= Rank(k) < m)
    ensures Build(t, n) == Build(t, m)
    decreases m - n
  {
    hide KeyText, Ranked, Rank;
    if n < m {
      RankInverts(n);
      assert Ranked(n) !in present;
      Skip(t, present, n + 1, m);
    }
  }

  /** From rank n on, k is the first key that may be present. */
  lemma Next(t: Entries, present: set<Key>, n: nat, k: Key)
    requires n <= Rank(k) && (forall j: Key :: j !in present ==> t(j) == None) &&
    forall j | j in present :: !(n <= Rank(j) < Rank(k))
    ensures t(k).Some? ==> Build(t, n) == Field(KeyText(k), t(k).value, Build(t, Rank(k) + 1))
    ensures t(k).None? ==> Build(t, n) == Build(t, Rank(k) + 1)
  {
    hide KeyText;
    Skip(t, present, n, Rank(k));
    RankedOfRank(k);
  }

  lemma RankedOfRank(k: Key)
    ensures Ranked(Rank(k)) == k
  {
  }

  lemma NothingLeft(t: Entries)
    ensures Build(t, 27) == NoFields
  {
  }

  // ---- Field names --------------------------------------------------------------------------------

  lemma NameOfAccept()
    ensures KeyText(KAccept) == Lit("accept")
  {
    hide Lit;
  }

  lemma NameOfAmount()
    ensures KeyText(KAmount) == Lit("amount")
  {
    hide Lit;
  }

  lemma NameOfAsset()
    ensures KeyText(KAsset) == Lit("asset")
  {
    hide Lit;
  }

  lemma NameOfClaimBy()
    ensures KeyText(KClaimBy) == Lit("claimByMs")
  {
    hide Lit;
  }

  lemma NameOfContext()
    ensures KeyText(KContext) == Lit("context")
  {
    hide Lit;
  }

  lemma NameOfContract()
    ensures KeyText(KContract) == Lit("contract")
  {
    hide Lit;
  }

  lemma NameOfExpires()
    ensures KeyText(KExpires) == Lit("expiresMs")
  {
    hide Lit;
  }

  lemma NameOfFrom()
    ensures KeyText(KFrom) == Lit("from")
  {
    hide Lit;
  }

  lemma NameOfId()
    ensures KeyText(KId) == Lit("id")
  {
    hide Lit;
  }

  lemma NameOfJob()
    ensures KeyText(KJob) == Lit("job")
  {
    hide Lit;
  }

  lemma NameOfLock()
    ensures KeyText(KLock) == Lit("lock")
  {
    hide Lit;
  }

  lemma NameOfNonce()
    ensures KeyText(KNonce) == Lit("nonce")
  {
    hide Lit;
  }

  lemma NameOfNote()
    ensures KeyText(KNote) == Lit("note")
  {
    hide Lit;
  }

  lemma NameOfOffer()
    ensures KeyText(KOffer) == Lit("offer")
  {
    hide Lit;
  }

  lemma NameOfOutcome()
    ensures KeyText(KOutcome) == Lit("outcome")
  {
    hide Lit;
  }

  lemma NameOfProto()
    ensures KeyText(KProto) == Lit("proto")
  {
    hide Lit;
  }

  lemma NameOfRail()
    ensures KeyText(KRail) == Lit("rail")
  {
    hide Lit;
  }

  lemma NameOfRails()
    ensures KeyText(KRails) == Lit("rails")
  {
    hide Lit;
  }

  lemma NameOfReason()
    ensures KeyText(KReason) == Lit("reason")
  {
    hide Lit;
  }

  lemma NameOfRef()
    ensures KeyText(KRef) == Lit("ref")
  {
    hide Lit;
  }

  lemma NameOfRefundAfter()
    ensures KeyText(KRefundAfter) == Lit("refundAfterMs")
  {
    hide Lit;
  }

  lemma NameOfRole()
    ensures KeyText(KRole) == Lit("role")
  {
    hide Lit;
  }

  lemma NameOfSecret()
    ensures KeyText(KSecret) == Lit("secret")
  {
    hide Lit;
  }

  lemma NameOfStatement()
    ensures KeyText(KStatement) == Lit("statement")
  {
    hide Lit;
  }

  lemma NameOfType()
    ensures KeyText(KType) == Lit("type")
  {
    hide Lit;
  }

  // ---- Jobs and frames other than offers ---------------------------------------------------------------

  lemma JobSpelled(j: Job)
    ensures JobJson(j) == JobObject(j)
  {
    hide KeyText, Lit, Build, Ranked;
    var t: Entries, present := JobEntries(j), {KContext, KId, KProto};
    NameOfContext(); NameOfId(); NameOfProto();
    Next(t, present, 0, KContext);
    Next(t, present, Rank(KContext) + 1, KId);
    Next(t, present, Rank(KId) + 1, KProto);
    Skip(t, present, Rank(KProto) + 1, 27);
    NothingLeft(t);
  }

  lemma AcceptPresent(f: Frame)
    requires f.Accept?
    ensures forall k: Key :: k !in {KContract, KFrom, KNonce, KRef, KStatement, KType} ==> FrameEntries(f)(k) == None
    ensures var t := FrameEntries(f);
            t(KContract) == Str(f.contract) && t(KFrom) == Str(f.sender) && t(KNonce) == Str(f.nonce) &&
            t(KRef) == Str(f.ref) && t(KStatement) == Str(f.statement) && t(KType) == Str(Lit("accept"))
  {
    hide Lit;
  }

  lemma AcceptStart(f: Frame)
    requires f.Accept?
    ensures Build(FrameEntries(f), 0)
            == Text1("contract", f.contract, Text1("from", f.sender, Text1("nonce", f.nonce, Build(FrameEntries(f), Rank(KNonce) + 1))))
  {
    hide KeyText, Lit, Build, Ranked, FrameEntries;
    var t: Entries, present := FrameEntries(f), {KContract, KFrom, KNonce, KRef, KStatement, KType};
    AcceptPresent(f);
    NameOfContract(); NameOfFrom(); NameOfNonce();
    Next(t, present, 0, KContract);
    Next(t, present, Rank(KContract) + 1, KFrom);
    Next(t, present, Rank(KFrom) + 1, KNonce);
  }

  lemma AcceptEnd(f: Frame)
    requires f.Accept?
    ensures Build(FrameEntries(f), Rank(KNonce) + 1)
            == Text1("ref", f.ref, Text1("statement", f.statement, Text1("type", Lit("accept"), NoFields)))
  {
    hide KeyText, Lit, Build, Ranked, FrameEntries;
    var t: Entries, present := FrameEntries(f), {KContract, KFrom, KNonce, KRef, KStatement, KType};
    AcceptPresent(f);
    NameOfRef(); NameOfStatement(); NameOfType();
    Next(t, present, Rank(KNonce) + 1, KRef);
    Next(t, present, Rank(KRef) + 1, KStatement);
    Next(t, present, Rank(KStatement) + 1, KType);
    Skip(t, present, Rank(KType) + 1, 27);
    NothingLeft(t);
  }

  lemma AcceptSpelled(f: Frame)
    requires f.Accept?
    ensures FrameJson(f) == AsObject(f)
  {
    hide Lit, Build, Rank, FrameEntries;
    AcceptStart(f);
    AcceptEnd(f);
  }

  lemma LockPresent(f: Frame)
    requires f.Lock?
    ensures forall k: Key :: k !in {KContract, KFrom, KRail, KRef, KType} ==> FrameEntries(f)(k) == None
    ensures var t := FrameEntries(f);
            t(KContract) == Str(f.contract) && t(KFrom) == Str(f.sender) && t(KRail) == Str(f.rail) &&
            t(KRef) == Str(f.lockRef) && t(KType) == Str(Lit("lock"))
  {
    hide Lit;
  }

  lemma LockSpelled(f: Frame)
    requires f.Lock?
    ensures FrameJson(f) == AsObject(f)
  {
    hide KeyText, Lit, Build, Ranked, FrameEntries;
    var t: Entries, present := FrameEntries(f), {KContract, KFrom, KRail, KRef, KType};
    LockPresent(f);
    NameOfContract(); NameOfFrom(); NameOfRail(); NameOfRef(); NameOfType();
    Next(t, present, 0, KContract);
    Next(t, present, Rank(KContract) + 1, KFrom);
    Next(t, present, Rank(KFrom) + 1, KRail);
    Next(t, present, Rank(KRail) + 1, KRef);
    Next(t, present, Rank(KRef) + 1, KType);
    Skip(t, present, Rank(KType) + 1, 27);
    NothingLeft(t);
  }

  lemma RevealPresent(f: Frame)
    requires f.Reveal?
    ensures forall k: Key :: k !in {KContract, KFrom, KRef, KSecret, KType} ==> FrameEntries(f)(k) == None
    ensures var t := FrameEntries(f);
            t(KContract) == Str(f.contract) && t(KFrom) == Str(f.sender) && t(KRef) == OptionalStr(f.railRef) &&
            t(KSecret) == Str(f.secret) && t(KType) == Str(Lit("reveal"))
  {
    hide Lit;
  }

  lemma RevealSpelled(f: Frame)
    requires f.Reveal?
    ensures FrameJson(f) == AsObject(f)
  {
    hide KeyText, Lit, Build, Ranked, FrameEntries;
    var t: Entries, present := FrameEntries(f), {KContract, KFrom, KRef, KSecret, KType};
    RevealPresent(f);
    NameOfContract(); NameOfFrom(); NameOfRef(); NameOfSecret(); NameOfType();
    Next(t, present, 0, KContract);
    Next(t, present, Rank(KContract) + 1, KFrom);
    Next(t, present, Rank(KFrom) + 1, KRef);
    Next(t, present, Rank(KRef) + 1, KSecret);
    Next(t, present, Rank(KSecret) + 1, KType);
    Skip(t, present, Rank(KType) + 1, 27);
    NothingLeft(t);
  }

  lemma RefundPresent(f: Frame)
    requires f.Refund?
    ensures forall k: Key :: k !in {KContract, KFrom, KReason, KRef, KType} ==> FrameEntries(f)(k) == None
    ensures var t := FrameEntries(f);
            t(KContract) == Str(f.contract) && t(KFrom) == Str(f.sender) && t(KReason) == OptionalStr(f.reason) &&
            t(KRef) == OptionalStr(f.railRef) && t(KType) == Str(Lit("refund"))
  {
    hide Lit;
  }

  lemma RefundSpelled(f: Frame)
    requires f.Refund?
    ensures FrameJson(f) == AsObject(f)
  {
    hide KeyText, Lit, Build, Ranked, FrameEntries;
    var t: Entries, present := FrameEntries(f), {KContract, KFrom, KReason, KRef, KType};
    RefundPresent(f);
    NameOfContract(); NameOfFrom(); NameOfReason(); NameOfRef(); NameOfType();
    Next(t, present, 0, KContract);
    Next(t, present, Rank(KContract) + 1, KFrom);
    Next(t, present, Rank(KFrom) + 1, KReason);
    Next(t, present, Rank(KReason) + 1, KRef);
    Next(t, present, Rank(KRef) + 1, KType);
    Skip(t, present, Rank(KType) + 1, 27);
    NothingLeft(t);
  }

  lemma CancelPresent(f: Frame)
    requires f.Cancel?
    ensures forall k: Key :: k !in {KContract, KFrom, KReason, KType} ==> FrameEntries(f)(k) == None
    ensures var t := FrameEntries(f);
            t(KContract) == Str(f.contract) && t(KFrom) == Str(f.sender) && t(KReason) == OptionalStr(f.reason) &&
            t(KType) == Str(Lit("cancel"))
  {
    hide Lit;
  }

  lemma CancelSpelled(f: Frame)
    requires f.Cancel?
    ensures FrameJson(f) == AsObject(f)
  {
    hide KeyText, Lit, Build, Ranked, FrameEntries;
    var t: Entries, present := FrameEntries(f), {KContract, KFrom, KReason, KType};
    CancelPresent(f);
    NameOfContract(); NameOfFrom(); NameOfReason(); NameOfType();
    Next(t, present, 0, KContract);
    Next(t, present, Rank(KContract) + 1, KFrom);
    Next(t, present, Rank(KFrom) + 1, KReason);
    Next(t, present, Rank(KReason) + 1, KType);
    Skip(t, present, Rank(KType) + 1, 27);
    NothingLeft(t);
  }

  lemma ReceiptPresent(f: Frame)
    requires f.Receipt?
    ensures forall k: Key :: k !in {KContract, KFrom, KOutcome, KRail, KRef, KType} ==> FrameEntries(f)(k) == None
    ensures var t := FrameEntries(f);
            t(KContract) == Str(f.contract) && t(KFrom) == Str(f.sender) &&
            t(KOutcome) == Str(OutcomeText(f.outcome)) && t(KRail) == OptionalStr(f.railName) &&
            t(KRef) == OptionalStr(f.railRef) && t(KType) == Str(Lit("receipt"))
  {
    hide Lit;
  }

  lemma ReceiptStart(f: Frame)
    requires f.Receipt?
    ensures Build(FrameEntries(f), 0)
            == Text1("contract", f.contract, Text1("from", f.sender,
               Text1("outcome", OutcomeText(f.outcome), Build(FrameEntries(f), Rank(KOutcome) + 1))))
  {
    hide KeyText, Lit, Build, Ranked, OutcomeText, FrameEntries;
    var t: Entries, present := FrameEntries(f), {KContract, KFrom, KOutcome, KRail, KRef, KType};
    ReceiptPresent(f);
    NameOfContract(); NameOfFrom(); NameOfOutcome();
    Next(t, present, 0, KContract);
    Next(t, present, Rank(KContract) + 1, KFrom);
    Next(t, present, Rank(KFrom) + 1, KOutcome);
  }

  lemma ReceiptEnd(f: Frame)
    requires f.Receipt?
    ensures Build(FrameEntries(f), Rank(KOutcome) + 1)
            == Opt("rail", f.railName, Opt("ref", f.railRef, Text1("type", Lit("receipt"), NoFields)))
  {
    hide KeyText, Lit, Build, Ranked, OutcomeText, FrameEntries;
    var t: Entries, present := FrameEntries(f), {KContract, KFrom, KOutcome, KRail, KRef, KType};
    ReceiptPresent(f);
    NameOfRail(); NameOfRef(); NameOfType();
    Next(t, present, Rank(KOutcome) + 1, KRail);
    Next(t, present, Rank(KRail) + 1, KRef);
    Next(t, present, Rank(KRef) + 1, KType);
    Skip(t, present, Rank(KType) + 1, 27);
    NothingLeft(t);
  }

  lemma ReceiptSpelled(f: Frame)
    requires f.Receipt?
    ensures FrameJson(f) == AsObject(f)
  {
    hide Lit, Build, Rank, FrameEntries;
    ReceiptStart(f);
    ReceiptEnd(f);
  }

  lemma HeartbeatPresent(f: Frame)
    requires f.Heartbeat?
    ensures forall k: Key :: k !in {KContract, KFrom, KNonce, KNote, KType} ==> FrameEntries(f)(k) == None
    ensures var t := FrameEntries(f);
            t(KContract) == Str(f.contract) && t(KFrom) == Str(f.sender) && t(KNonce) == Str(f.nonce) &&
            t(KNote) == OptionalStr(f.note) && t(KType) == Str(Lit("heartbeat"))
  {
    hide Lit;
  }

  lemma HeartbeatSpelled(f: Frame)
    requires f.Heartbeat?
    ensures FrameJson(f) == AsObject(f)
  {
    hide KeyText, Lit, Build, Ranked, FrameEntries;
    var t: Entries, present := FrameEntries(f), {KContract, KFrom, KNonce, KNote, KType};
    HeartbeatPresent(f);
    NameOfContract(); NameOfFrom(); NameOfNonce(); NameOfNote(); NameOfType();
    Next(t, present, 0, KContract);
    Next(t, present, Rank(KContract) + 1, KFrom);
    Next(t, present, Rank(KFrom) + 1, KNonce);
    Next(t, present, Rank(KNonce) + 1, KNote);
    Next(t, present, Rank(KNote) + 1, KType);
    Skip(t, present, Rank(KType) + 1, 27);
    NothingLeft(t);
  }

  // ---- Offers ---------------------------------------------------------------------------------------

  predicate OfferLike(o: Offer, t: Entries) {
    (forall k: Key :: k != KId ==> t(k) == OfferEntry(o, k)) && (t(KId) == None || t(KId) == Str(o.id))
  }

  lemma OfferValues(o: Offer, t: Entries)
    requires OfferLike(o, t)
    ensures t(KAmount) == Str(o.amount) && t(KAsset) == Str(o.asset) && t(KFrom) == Str(o.from) && t(KNonce) == Str(o.nonce)
    ensures t(KClaimBy) == Some(JInt(o.claimByMs)) && t(KExpires) == Some(JInt(o.expiresMs))
  {
    hide Lit, RailItems, JobJson, RoleText;
  }

  lemma OfferMoreValues(o: Offer, t: Entries)
    requires OfferLike(o, t)
    ensures t(KRefundAfter) == Some(JInt(o.refundAfterMs)) && t(KRails) == Some(JArr(RailItems(o.rails)))
    ensures t(KLock) == Str(Lit("hash")) && t(KType) == Str(Lit("offer")) && t(KRole) == Str(RoleText(o.role))
    ensures t(KJob) == match o.job case None => None case Some(j) => Some(JobJson(j))
  {
    hide Lit, RailItems, JobJson, RoleText;
  }

  /** The keys an offer never has. */
  lemma OfferLacks(o: Offer, t: Entries)
    requires OfferLike(o, t)
    ensures t(KAccept) == None && t(KContext) == None && t(KContract) == None && t(KNote) == None && t(KOffer) == None
    ensures t(KOutcome) == None && t(KPaymentKey) == None && t(KPresig) == None && t(KProto) == None && t(KRail) == None
    ensures t(KReason) == None && t(KRef) == None && t(KSecret) == None && t(KStatement) == None
  {
    hide Lit, RailItems, JobJson, RoleText;
  }

  lemma Missing(t: Entries, k: Key)
    requires t(k) == None
    ensures Build(t, Rank(k)) == Build(t, Rank(k) + 1)
  {
    hide KeyText, Ranked;
  }

  lemma Here(t: Entries, k: Key)
    requires t(k).Some?
    ensures Build(t, Rank(k)) == Field(KeyText(k), t(k).value, Build(t, Rank(k) + 1))
  {
    hide KeyText, Ranked;
  }

  lemma OfferGaps(o: Offer, t: Entries)
    requires OfferLike(o, t)
    ensures Build(t, 0) == Build(t, 1) && Build(t, 4) == Build(t, 6) && Build(t, 20) == Build(t, 22) &&
    Build(t, 24) == Build(t, 26)
  {
    hide Build, Ranked, OfferLike;
    OfferLacks(o, t);
    Missing(t, KAccept);
    Missing(t, KContext);
    Missing(t, KContract);
    Missing(t, KReason);
    Missing(t, KRef);
    Missing(t, KSecret);
    Missing(t, KStatement);
  }

  lemma OfferWideGap(o: Offer, t: Entries)
    requires OfferLike(o, t)
    ensures Build(t, 12) == Build(t, 19)
  {
    hide Build, Ranked, OfferLike;
    OfferLacks(o, t);
    Missing(t, KNote);
    Missing(t, KOffer);
    Missing(t, KOutcome);
    Missing(t, KPaymentKey);
    Missing(t, KPresig);
    Missing(t, KProto);
    Missing(t, KRail);
  }

  lemma OfferMiddle(o: Offer, t: Entries)
    requires OfferLike(o, t)
    ensures Build(t, 10) == Text1("lock", Lit("hash"), Text1("nonce", o.nonce, Field(Lit("rails"), JArr(RailItems(o.rails)), Build(t, 20))))
  {
    hide KeyText, Lit, Build, RailItems, Ranked, OfferLike;
    OfferValues(o, t);
    OfferMoreValues(o, t);
    OfferWideGap(o, t);
    NameOfLock(); NameOfNonce(); NameOfRails();
    Here(t, KLock);
    Here(t, KNonce);
    Here(t, KRails);
  }

  lemma OfferEnd(o: Offer, t: Entries)
    requires OfferLike(o, t)
    ensures Build(t, 20) ==
              Field(Lit("refundAfterMs"), JInt(o.refundAfterMs),
              Text1("role", if o.role == Payer then Lit("payer") else Lit("payee"),
              Text1("type", Lit("offer"), NoFields)))
  {
    hide KeyText, Lit, Build, RailItems, Ranked, OfferLike;
    OfferMoreValues(o, t);
    OfferGaps(o, t);
    NameOfRefundAfter(); NameOfRole(); NameOfType();
    Here(t, KRefundAfter);
    Here(t, KRole);
    Here(t, KType);
    NothingLeft(t);
  }

  lemma OfferJob(o: Offer, t: Entries)
    requires OfferLike(o, t)
    ensures Build(t, 9) == match o.job case None => Build(t, 10) case Some(j) => Field(Lit("job"), JobObject(j), Build(t, 10))
  {
    hide KeyText, Lit, Build, JobJson, RailItems, JobObject, Ranked, OfferLike;
    OfferMoreValues(o, t);
    NameOfJob();
    match o.job
    case None => Missing(t, KJob);
    case Some(j) =>
      JobSpelled(j);
      Here(t, KJob);
  }

  lemma OfferStart(o: Offer, t: Entries)
    requires OfferLike(o, t)
    ensures Build(t, 0) ==
              Text1("amount", o.amount,
              Text1("asset", o.asset,
              Field(Lit("claimByMs"), JInt(o.claimByMs),
              Field(Lit("expiresMs"), JInt(o.expiresMs),
              Text1("from", o.from, Build(t, 8))))))
  {
    hide KeyText, Lit, Build, JobJson, RailItems, Ranked, OfferLike;
    OfferValues(o, t);
    OfferGaps(o, t);
    NameOfAmount(); NameOfAsset(); NameOfClaimBy(); NameOfExpires(); NameOfFrom();
    Here(t, KAmount);
    Here(t, KAsset);
    Here(t, KClaimBy);
    Here(t, KExpires);
    Here(t, KFrom);
  }

  lemma OfferIdField(o: Offer, t: Entries)
    requires OfferLike(o, t)
    ensures Build(t, 8) == if t(KId).Some? then Text1("id", o.id, Build(t, 9)) else Build(t, 9)
  {
    hide KeyText, Lit, Build, Ranked;
    NameOfId();
    if t(KId).Some? { Here(t, KId); } else { Missing(t, KId); }
  }

  lemma OfferTable(o: Offer, t: Entries)
    requires OfferLike(o, t)
    ensures Object(t) == JObj(OfferFields(o, t(KId).Some?))
  {
    hide Lit, Build, RailItems, JobObject, Rank, OfferLike;
    OfferStart(o, t);
    OfferIdField(o, t);
    OfferJob(o, t);
    OfferMiddle(o, t);
    OfferEnd(o, t);
  }

  lemma IdEntry(o: Offer)
    ensures OfferEntry(o, KId) == Str(o.id)
  {
    hide Lit, RailItems, JobJson, RoleText;
  }

  lemma OfferLikeItself(o: Offer)
    ensures OfferLike(o, OfferEntries(o)) && OfferEntries(o)(KId).Some?
  {
    hide OfferEntry;
    IdEntry(o);
  }

  lemma BodyLikeOffer(o: Offer)
    ensures OfferLike(o, BodyEntries(o)) && BodyEntries(o)(KId).None?
  {
    hide OfferEntry;
  }

  lemma OfferSpelled(o: Offer)
    ensures Object(OfferEntries(o)) == JObj(OfferFields(o, true))
    ensures Object(BodyEntries(o)) == JObj(OfferFields(o, false))
  {
    hide Lit, Build, OfferFields, OfferLike, OfferEntries, BodyEntries;
    OfferLikeItself(o);
    BodyLikeOffer(o);
    OfferTable(o, OfferEntries(o));
    OfferTable(o, BodyEntries(o));
  }

  /** Rails are listed in their own order. */
  function Commas(rails: seq<Text>): Text {
    if rails == [] then [] else Quoted(rails[0]) + if |rails| == 1 then [] else Lit(",") + Commas(rails[1..])
  }

  lemma {:induction false} RailsSpelled(rails: seq<Text>)
    ensures Listed(RailItems(rails)) == Commas(rails)
  {
    hide Lit, Quoted;
    if rails != [] {
      RailsSpelled(rails[1..]);
      ListHead(JStr(rails[0]), RailItems(rails[1..]));
    }
  }

  // ---- Lines and digests -------------------------------------------------------------------------------

  lemma FrameSpelled(f: Frame)
    ensures FrameJson(f) == AsObject(f)
  {
    hide FrameJson, AsObject;
    match f
    case OfferFrame(o) => OfferFrameSpelled(o);
    case Accept(_, _, _, _, _) => AcceptSpelled(f);
    case Lock(_, _, _, _) => LockSpelled(f);
    case Reveal(_, _, _, _) => RevealSpelled(f);
    case Refund(_, _, _, _) => RefundSpelled(f);
    case Cancel(_, _, _) => CancelSpelled(f);
    case Receipt(_, _, _, _, _) => ReceiptSpelled(f);
    case Heartbeat(_, _, _, _) => HeartbeatSpelled(f);
  }

  lemma OfferFrameSpelled(o: Offer)
    ensures FrameJson(OfferFrame(o)) == AsObject(OfferFrame(o))
  {
    hide KeyText, Lit, Build, OfferFields;
    OfferSpelled(o);
  }

  /** A frame's line, byte for byte: the prefix and the compact object with these fields in this
      order; its sender is what the line says under from. */
  lemma LineSpelled(f: Frame)
    ensures Line(f) == Lit("tclk1 ") + TextOf(AsObject(f))
    ensures Get(AsObject(f).fields, Lit("from")) == Some(JStr(f.From()))
  {
    LineIsObject(f);
    FromIsSpelled(f);
  }

  lemma LineIsObject(f: Frame)
    ensures Line(f) == Lit("tclk1 ") + TextOf(AsObject(f))
  {
    hide FrameJson, AsObject, Write, TextOf, Lit;
    FrameSpelled(f);
    FrameEntriesAreCanonical(f);
    CanonicalSpelled(FrameJson(f));
  }

  lemma NamesApart()
    ensures Lit("from") != Lit("contract") && Lit("from") != Lit("amount") && Lit("from") != Lit("asset")
    ensures Lit("from") != Lit("claimByMs") && Lit("from") != Lit("expiresMs")
  {
    assert Lit("from")[0] == 0x66 && Lit("contract")[0] == 0x63 && Lit("amount")[0] == 0x61;
    assert Lit("asset")[0] == 0x61 && Lit("claimByMs")[0] == 0x63 && Lit("expiresMs")[0] == 0x65;
  }

  lemma FromIsSpelled(f: Frame)
    ensures Get(AsObject(f).fields, Lit("from")) == Some(JStr(f.From()))
  {
    hide Lit;
    NamesApart();
    if f.OfferFrame? {
      OfferFromIsSpelled(f.offer);
    } else {
      BareFromIsSpelled(f);
    }
  }

  lemma OfferFromIsSpelled(o: Offer)
    ensures Get(OfferFields(o, true), Lit("from")) == Some(JStr(o.from))
  {
    hide Lit, RailItems, JobObject;
    NamesApart();
    var rest := OfferFields(o, true).rest.rest.rest.rest;
    assert Get(rest, Lit("from")) == Some(JStr(o.from));
    assert Get(OfferFields(o, true).rest.rest, Lit("from")) == Get(rest, Lit("from"));
  }

  lemma BareFromIsSpelled(f: Frame)
    requires !f.OfferFrame?
    ensures Get(AsObject(f).fields, Lit("from")) == Some(JStr(f.From()))
  {
    hide Lit;
    NamesApart();
    var rest := AsObject(f).fields.rest;
    assert rest.key == Lit("from");
    assert Get(rest, Lit("from")) == Some(JStr(f.From()));
  }

  lemma Preimage(sha: Hash, tag: Text, v: Json)
    requires Canon(v) == v
    ensures Digest(sha, tag, v) == sha(Lit("FLOP::tclk::v1|") + tag + Lit("|") + TextOf(v))
  {
    hide TextOf, Write, Lit, Canon;
    CanonicalSpelled(v);
  }

  /** An offer's id hashes the domain, the tag and every field but the id, byte for byte. */
  lemma OfferPreimage(sha: Hash, o: Offer)
    ensures OfferId(sha, o) == sha(Lit("FLOP::tclk::v1|") + Lit("offer") + Lit("|") + TextOf(JObj(OfferFields(o, false))))
  {
    hide OfferFields, Lit, TextOf, Digest, OfferEntry, Object;
    OfferSpelled(o);
    OfferEntriesAreCanonical(o);
    ObjectIsCanonical(BodyEntries(o));
    Preimage(sha, Lit("offer"), Object(BodyEntries(o)));
  }

  /** The offer and the four core fields of its acceptance. */
  function ContractObject(o: Offer, a: Frame): Json
    requires a.Accept?
  {
    JObj(Field(Lit("accept"),
               JObj(Text1("from", a.sender, Text1("nonce", a.nonce, Text1("ref", a.ref, Text1("statement", a.statement, NoFields))))),
         Field(Lit("offer"), JObj(OfferFields(o, true)), NoFields)))
  }

  lemma CoreSpelled(a: Frame)
    requires a.Accept?
    ensures Object(AcceptCoreEntries(a))
            == JObj(Text1("from", a.sender, Text1("nonce", a.nonce, Text1("ref", a.ref, Text1("statement", a.statement, NoFields)))))
  {
    hide KeyText, Lit, Build, Ranked;
    var t: Entries, present := AcceptCoreEntries(a), {KFrom, KNonce, KRef, KStatement};
    NameOfFrom(); NameOfNonce(); NameOfRef(); NameOfStatement();
    Next(t, present, 0, KFrom);
    Next(t, present, Rank(KFrom) + 1, KNonce);
    Next(t, present, Rank(KNonce) + 1, KRef);
    Next(t, present, Rank(KRef) + 1, KStatement);
    Skip(t, present, Rank(KStatement) + 1, 27);
    NothingLeft(t);
  }

  lemma ContractSpelled(o: Offer, a: Frame)
    requires a.Accept?
    ensures Object(ContractEntries(o, a)) == ContractObject(o, a)
  {
    hide KeyText, Lit, Build, OfferEntries, AcceptCoreEntries, OfferFields;
    var t: Entries, present := ContractEntries(o, a), {KAccept, KOffer};
    OfferSpelled(o);
    CoreSpelled(a);
    NameOfAccept(); NameOfOffer();
    Next(t, present, 0, KAccept);
    Next(t, present, Rank(KAccept) + 1, KOffer);
    Skip(t, present, Rank(KOffer) + 1, 27);
    NothingLeft(t);
  }

  lemma ContractCanonical(o: Offer, a: Frame)
    requires a.Accept?
    ensures Canon(Object(ContractEntries(o, a))) == Object(ContractEntries(o, a))
  {
    CoreIsCanonical(a);
    OfferEntriesAreCanonical(o);
    ObjectIsCanonical(OfferEntries(o));
    ObjectIsCanonical(ContractEntries(o, a));
  }

  /** A contract id hashes the domain, the tag and the offer with the acceptance's core, byte for
      byte. */
  lemma ContractPreimage(sha: Hash, o: Offer, a: Frame)
    requires a.Accept?
    ensures ContractId(sha, o, a) == sha(Lit("FLOP::tclk::v1|") + Lit("contract") + Lit("|") + TextOf(ContractObject(o, a)))
  {
    hide ContractObject, ContractEntries, Lit, TextOf, Digest, Object;
    ContractSpelled(o, a);
    ContractCanonical(o, a);
    Preimage(sha, Lit("contract"), Object(ContractEntries(o, a)));
  }
}
