/** A valid frame and its canonical line determine each other: the decoder
    accepts exactly the lines of valid frames. */
module FrameCodec {
  import opened Wrappers
  import opened Json
  import opened CanonicalJson
  import opened Frames
  import opened FrameLines

  // ---- What the schema demands of a frame ------------------------------------------

  predicate OptionalOk(t: Option<Text>) {
    t.Some? ==> t.value != []
  }

  predicate ValidJob(j: Job) {
    IsProto(j.proto) && j.id != [] && OptionalOk(j.context)
  }

  /** Everything ValidOffer asks except that the id is the digest of the other fields. */
  predicate OfferFieldsOk(o: Offer) {
    && IsDid(o.from) && IsAmount(o.amount) && IsAsset(o.asset)
    && o.rails != [] && (forall i | 0 <= i < |o.rails| :: IsRail(o.rails[i]))
    && IsMs(o.claimByMs) && IsMs(o.refundAfterMs) && IsMs(o.expiresMs) && o.claimByMs < o.refundAfterMs
    && IsNonce(o.nonce) && IsHex32(o.id)
  }

  predicate ValidOffer(sha: Hash, o: Offer) {
    OfferFieldsOk(o) && (o.job.Some? ==> ValidJob(o.job.value)) && o.id == OfferId(sha, o)
  }


  predicate ValidFrame(sha: Hash, f: Frame) {
    if f.OfferFrame? then ValidOffer(sha, f.offer)
    else
      FieldsOk(f)
  }

  predicate FieldsOk(f: Frame)
    requires !f.OfferFrame?
  {
    && IsDid(f.sender) && IsHex32(f.contract)
    && match f
       case Accept(_, ref, statement, _, nonce) => IsHex32(ref) && IsHex32(statement) && IsNonce(nonce)
       case Lock(_, _, rail, ref) => IsRail(rail) && ref != []
       case Reveal(_, _, secret, ref) => IsHex32(secret) && OptionalOk(ref)
       case Refund(_, _, reason, ref) => OptionalOk(reason) && OptionalOk(ref)
       case Cancel(_, _, reason) => OptionalOk(reason)
       case Receipt(_, _, _, rail, ref) => (rail.Some? ==> IsRail(rail.value)) && OptionalOk(ref)
       case Heartbeat(_, _, nonce, note) => IsNonce(nonce) && OptionalOk(note)
  }

  /** No string of the frame holds a split surrogate pair. */
  predicate CleanFrame(f: Frame) {
    CleanValue(FrameJson(f))
  }

  lemma NotEmpty(t: Text)
    requires IsDid(t) || IsAmount(t) || IsAsset(t) || IsNonce(t) || IsHex32(t) || IsRail(t) || IsProto(t)
    ensures t != []
  {
  }

  // ---- Rails and jobs -----------------------------------------------------------------

  lemma {:induction false} RailsReadBack(rails: seq<Text>)
    requires forall i | 0 <= i < |rails| :: IsRail(rails[i])
    ensures ReadRails(RailItems(rails)) == Some(rails)
  {
    hide IsRail;
    if rails != [] {
      RailsReadBack(rails[1..]);
      assert rails == [rails[0]] + rails[1..];
    }
  }

  lemma {:induction false} RailsFromRead(items: Items)
    requires ReadRails(items).Some?
    ensures items == RailItems(ReadRails(items).value)
    ensures forall i | 0 <= i < |ReadRails(items).value| :: IsRail(ReadRails(items).value[i])
  {
    hide IsRail;
    if items.Item? {
      RailsFromRead(items.rest);
      var rails := ReadRails(items).value;
      assert rails[1..] == ReadRails(items.rest).value;
    }
  }

  lemma {:induction false} RailsAreCanonical(rails: seq<Text>)
    ensures CanonItems(RailItems(rails)) == RailItems(rails)
  {
    if rails != [] { RailsAreCanonical(rails[1..]); }
  }

  lemma JobReadsBack(j: Job)
    requires ValidJob(j)
    ensures ReadJob(JobJson(j)) == Some(j)
  {
    hide KeyText, IsProto, OnlyKeys, HasKeys, Build, At;
    BuiltKeys(JobEntries(j), JOB_REQUIRED, JOB_KEYS);
    var fs := Build(JobEntries(j), 0);
    NotEmpty(j.proto);
    assert At(fs, KProto) == Str(j.proto) && At(fs, KId) == Str(j.id) && At(fs, KContext) == OptionalStr(j.context);
  }

  lemma JobFromRead(v: Json)
    requires CleanValue(v) && ReadJob(v).Some?
    ensures ValidJob(ReadJob(v).value) && Canon(v) == JobJson(ReadJob(v).value)
  {
    hide KeyText, IsProto;
    var fs, j := v.fields, ReadJob(v).value;
    forall k: Key
      ensures CanonEntry(fs, k) == JobEntry(j, k)
    {
      if k !in JOB_KEYS { NotAllowed(fs, JOB_KEYS, k); }
    }
    CanonIsObject(fs, JOB_KEYS, JobEntries(j));
  }

  lemma JobIsCanonical(j: Job)
    ensures Canon(JobJson(j)) == JobJson(j)
  {
    ObjectIsCanonical(JobEntries(j));
  }

  // ---- Offers ----------------------------------------------------------------------------

  lemma {:induction false} WithoutMeaning(fs: Fields, k: Text)
    ensures forall q :: Get(Without(fs, k), q) == if q == k then None else Get(fs, q)
    ensures NoDuplicates(fs) ==> NoDuplicates(Without(fs, k))
    ensures forall S :: OnlyKeys(fs, S) ==> OnlyKeys(Without(fs, k), S)
  {
    hide Named;
    if fs.Field? {
      WithoutMeaning(fs.rest, k);
      assert !HasKey(fs.rest, fs.key) ==> Get(Without(fs.rest, k), fs.key) == None;
    }
  }

  lemma OfferEntriesAreCanonical(o: Offer)
    ensures forall k: Key | OfferEntry(o, k).Some? :: Canon(OfferEntry(o, k).value) == OfferEntry(o, k).value
  {
    forall k: Key | OfferEntry(o, k).Some?
      ensures Canon(OfferEntry(o, k).value) == OfferEntry(o, k).value
    {
      if k == KRails { RailsAreCanonical(o.rails); }
      if k == KJob { JobIsCanonical(o.job.value); }
    }
  }

  /** The id read from an object with o's entries is compared with o's own digest. */
  lemma BodyDigest(sha: Hash, fs: Fields, allowed: set<Key>, o: Offer)
    requires NoDuplicates(fs) && OnlyKeys(fs, allowed)
    requires forall k: Key :: CanonEntry(fs, k) == OfferEntry(o, k)
    ensures Digest(sha, Lit("offer"), JObj(Without(fs, KeyText(KId)))) == OfferId(sha, o)
  {
    hide KeyText;
    var body := Without(fs, KeyText(KId));
    WithoutMeaning(fs, KeyText(KId));
    var t := BodyEntries(o);
    forall k: Key
      ensures CanonEntry(body, k) == t(k)
    {
      NamesDistinct(k, KId);
      assert CanonEntry(fs, k) == OfferEntry(o, k);
    }
    CanonIsObject(body, allowed, t);
    OfferEntriesAreCanonical(o);
    ObjectIsCanonical(t);
  }

  lemma RolesDistinct()
    ensures RoleText(Payer) != RoleText(Payee)
  {
    assert RoleText(Payer)[4] != RoleText(Payee)[4];
  }

  /** The object holds exactly o's field values. */
  predicate HoldsOffer(fs: Fields, o: Offer) {
    && At(fs, KType) == Str(Lit("offer")) && At(fs, KFrom) == Str(o.from) && At(fs, KRole) == Str(RoleText(o.role))
    && At(fs, KAmount) == Str(o.amount) && At(fs, KAsset) == Str(o.asset) && At(fs, KLock) == Str(Lit("hash"))
    && At(fs, KRails) == Some(JArr(RailItems(o.rails))) && At(fs, KClaimBy) == Some(JInt(o.claimByMs))
    && At(fs, KRefundAfter) == Some(JInt(o.refundAfterMs)) && At(fs, KExpires) == Some(JInt(o.expiresMs))
    && At(fs, KPaymentKey) == None && At(fs, KNonce) == Str(o.nonce) && At(fs, KId) == Str(o.id)
    && match o.job
       case None => At(fs, KJob) == None
       case Some(j) => At(fs, KJob).Some? && ReadJob(At(fs, KJob).value) == Some(j)
  }

  lemma OfferAccepted(sha: Hash, fs: Fields, o: Offer)
    requires OnlyKeys(fs, OFFER_KEYS + {KPaymentKey, KJob}) && HasKeys(fs, OFFER_KEYS)
    requires HoldsOffer(fs, o) && OfferFieldsOk(o)
    requires o.id == Digest(sha, Lit("offer"), JObj(Without(fs, KeyText(KId))))
    ensures ReadOffer(sha, fs) == Some(OfferFrame(o))
  {
    hide KeyText, At, OnlyKeys, HasKeys, IsDid, IsAmount, IsAsset, IsNonce, IsHex32, IsRail, Lit, Digest, ReadJob, Without;
    RailsReadBack(o.rails);
    RolesDistinct();
    assert ReadText(fs, KFrom, IsDid) == Some(o.from) by { NotEmpty(o.from); }
    assert ReadRole(fs) == Some(o.role);
    assert ReadText(fs, KAmount, IsAmount) == Some(o.amount) by { NotEmpty(o.amount); }
    assert ReadText(fs, KAsset, IsAsset) == Some(o.asset) by { NotEmpty(o.asset); }
    assert ReadText(fs, KNonce, IsNonce) == Some(o.nonce) by { NotEmpty(o.nonce); }
    assert ReadText(fs, KId, IsHex32) == Some(o.id) by { NotEmpty(o.id); }
    assert ReadOptionalJob(fs) == Some(o.job);
  }

  lemma OfferWasChecked(sha: Hash, fs: Fields)
    requires ReadOffer(sha, fs).Some?
    ensures ReadOffer(sha, fs).value.OfferFrame?
    ensures At(fs, KRails).Some? && At(fs, KRails).value.JArr?
    ensures ReadRails(At(fs, KRails).value.items) == Some(ReadOffer(sha, fs).value.offer.rails)
    ensures var o := ReadOffer(sha, fs).value.offer;
            && OnlyKeys(fs, OFFER_KEYS + {KPaymentKey, KJob})
            && o.id == Digest(sha, Lit("offer"), JObj(Without(fs, KeyText(KId))))
            && IsDid(o.from) && IsAmount(o.amount) && IsAsset(o.asset) && o.rails != []
            && IsMs(o.claimByMs) && IsMs(o.refundAfterMs) && IsMs(o.expiresMs) && o.claimByMs < o.refundAfterMs
            && IsNonce(o.nonce) && IsHex32(o.id)
  {
    hide KeyText, At, OnlyKeys, HasKeys, IsDid, IsAmount, IsAsset, IsNonce, IsHex32, IsRail, Lit, Digest, ReadJob, Without,
      ReadRails, RailItems, RoleText;
  }

  lemma OfferValuesHeld(sha: Hash, fs: Fields)
    requires At(fs, KType) == Str(Lit("offer"))
    requires ReadOffer(sha, fs).Some? && ReadOffer(sha, fs).value.OfferFrame?
    requires At(fs, KRails) == Some(JArr(RailItems(ReadOffer(sha, fs).value.offer.rails)))
    ensures HoldsOffer(fs, ReadOffer(sha, fs).value.offer)
  {
    hide KeyText, At, OnlyKeys, HasKeys, IsDid, IsAmount, IsAsset, IsNonce, IsHex32, IsRail, Lit, Digest, ReadJob, Without,
      ReadRails, RailItems, RoleText;
  }

  lemma OfferWasRead(sha: Hash, fs: Fields)
    requires At(fs, KType) == Str(Lit("offer"))
    requires ReadOffer(sha, fs).Some?
    ensures ReadOffer(sha, fs).value.OfferFrame?
    ensures var o := ReadOffer(sha, fs).value.offer;
            && HoldsOffer(fs, o) && OfferFieldsOk(o)
            && OnlyKeys(fs, OFFER_KEYS + {KPaymentKey, KJob})
            && o.id == Digest(sha, Lit("offer"), JObj(Without(fs, KeyText(KId))))
  {
    hide ReadOffer, KeyText, At, OnlyKeys, IsDid, IsAmount, IsAsset, IsNonce, IsHex32, IsRail, Lit, Digest, Without, HoldsOffer;
    OfferWasChecked(sha, fs);
    RailsFromRead(At(fs, KRails).value.items);
    OfferValuesHeld(sha, fs);
  }

  lemma HeldOfferText(fs: Fields, o: Offer, k: Key)
    requires HoldsOffer(fs, o)
    requires k in {KType, KFrom, KRole, KAmount, KAsset, KLock, KNonce, KId}
    ensures CanonEntry(fs, k) == OfferEntry(o, k)
  {
    hide KeyText, At, OnlyKeys, Lit, ReadJob, RoleText;
  }

  lemma HeldOfferOther(fs: Fields, o: Offer, k: Key)
    requires HoldsOffer(fs, o)
    requires o.job.Some? ==> Canon(At(fs, KJob).value) == JobJson(o.job.value)
    requires k in {KRails, KClaimBy, KRefundAfter, KExpires, KJob, KPaymentKey}
    ensures CanonEntry(fs, k) == OfferEntry(o, k)
  {
    hide KeyText, At, OnlyKeys, Lit, ReadJob, RoleText;
    RailsAreCanonical(o.rails);
  }

  lemma HeldOfferEntry(fs: Fields, o: Offer, k: Key)
    requires OnlyKeys(fs, OFFER_KEYS + {KPaymentKey, KJob}) && HoldsOffer(fs, o)
    requires o.job.Some? ==> Canon(At(fs, KJob).value) == JobJson(o.job.value)
    ensures CanonEntry(fs, k) == OfferEntry(o, k)
  {
    hide KeyText, At, OnlyKeys, HoldsOffer;
    if k in {KType, KFrom, KRole, KAmount, KAsset, KLock, KNonce, KId} {
      HeldOfferText(fs, o, k);
    } else if k in {KRails, KClaimBy, KRefundAfter, KExpires, KJob, KPaymentKey} {
      HeldOfferOther(fs, o, k);
    } else {
      NotAllowed(fs, OFFER_KEYS + {KPaymentKey, KJob}, k);
    }
  }

  lemma BuiltOfferKeys(o: Offer)
    ensures var fs := Build(OfferEntries(o), 0);
            && OnlyKeys(fs, OFFER_KEYS + {KPaymentKey, KJob}) && HasKeys(fs, OFFER_KEYS) && NoDuplicates(fs)
            && forall k: Key :: At(fs, k) == OfferEntry(o, k)
  {
    hide KeyText, At, Build, OnlyKeys, HasKeys, Lit, JobJson;
    var t: Entries := OfferEntries(o);
    BuiltKeys(t, OFFER_KEYS, OFFER_KEYS + {KPaymentKey, KJob});
    forall k: Key
      ensures At(Build(t, 0), k) == OfferEntry(o, k)
    {
      assert At(Build(t, 0), k) == t(k);
    }
  }

  lemma BuiltOffer(fs: Fields, o: Offer)
    requires forall k: Key :: At(fs, k) == OfferEntry(o, k)
    requires o.job.Some? ==> ReadJob(JobJson(o.job.value)) == Some(o.job.value)
    ensures HoldsOffer(fs, o)
  {
    hide KeyText, At, Lit, JobJson, ReadJob;
  }

  lemma BuiltOfferEntries(o: Offer)
    ensures forall k: Key :: CanonEntry(Build(OfferEntries(o), 0), k) == OfferEntry(o, k)
  {
    hide KeyText, At, Build, OnlyKeys, HasKeys, OfferEntry;
    var t: Entries := OfferEntries(o);
    OfferEntriesAreCanonical(o);
    assert OnlyKeys(Build(t, 0), ANY_KEY) && forall k: Key :: At(Build(t, 0), k) == t(k) by { EveryKeyBuilt(t); }
    forall k: Key
      ensures CanonEntry(Build(t, 0), k) == OfferEntry(o, k)
    {
      assert At(Build(t, 0), k) == t(k);
    }
  }

  lemma OfferReadsBack(sha: Hash, o: Offer)
    requires ValidOffer(sha, o)
    ensures ReadOffer(sha, Build(OfferEntries(o), 0)) == Some(OfferFrame(o))
  {
    hide KeyText, HoldsOffer, OfferFieldsOk, Build, OnlyKeys, HasKeys, OfferId, Digest, Without, ReadOffer;
    BuiltOfferKeys(o);
    if o.job.Some? { JobReadsBack(o.job.value); }
    BuiltOffer(Build(OfferEntries(o), 0), o);
    BuiltOfferEntries(o);
    BodyDigest(sha, Build(OfferEntries(o), 0), OFFER_KEYS + {KPaymentKey, KJob}, o);
    OfferAccepted(sha, Build(OfferEntries(o), 0), o);
  }

  lemma OfferFromRead(sha: Hash, fs: Fields)
    requires NoDuplicates(fs) && CleanFields(fs)
    requires At(fs, KType) == Str(Lit("offer"))
    requires ReadOffer(sha, fs).Some?
    ensures var f := ReadOffer(sha, fs).value;
            f.OfferFrame? && ValidOffer(sha, f.offer) && Canon(JObj(fs)) == Object(OfferEntries(f.offer))
  {
    hide KeyText, At, Build, OnlyKeys, HasKeys, IsDid, IsAmount, IsAsset, IsNonce, IsHex32, IsRail, Lit, OfferId, Digest, JobJson, ReadJob, Without, ReadOffer, ValidJob;
    OfferWasRead(sha, fs);
    var o := ReadOffer(sha, fs).value.offer;
    if o.job.Some? {
      assert CleanValue(At(fs, KJob).value) by { JobFieldClean(fs); }
      JobFromRead(At(fs, KJob).value);
    }
    forall k: Key
      ensures CanonEntry(fs, k) == OfferEntry(o, k)
    {
      HeldOfferEntry(fs, o, k);
    }
    CanonIsObject(fs, OFFER_KEYS + {KPaymentKey, KJob}, OfferEntries(o));
    BodyDigest(sha, fs, OFFER_KEYS + {KPaymentKey, KJob}, o);
  }

  lemma JobFieldClean(fs: Fields)
    requires CleanFields(fs) && At(fs, KJob).Some?
    ensures CleanValue(At(fs, KJob).value)
  {
    FieldIsClean(fs, KeyText(KJob));
  }

  lemma {:induction false} FieldIsClean(fs: Fields, k: Text)
    requires CleanFields(fs) && HasKey(fs, k)
    ensures CleanValue(Get(fs, k).value)
  {
    if fs.key != k { FieldIsClean(fs.rest, k); }
  }

  // ---- The other kinds: every field is a string ---------------------------------------------

  function RequiredKeys(f: Frame): set<Key>
    requires !f.OfferFrame?
  {
    match f
    case Accept(_, _, _, _, _) => ACCEPT_KEYS
    case Lock(_, _, _, _) => LOCK_KEYS
    case Reveal(_, _, _, _) => REVEAL_KEYS
    case Receipt(_, _, _, _, _) => BARE_KEYS + {KOutcome}
    case Heartbeat(_, _, _, _) => BARE_KEYS + {KNonce}
    case _ => BARE_KEYS
  }

  function AllowedKeys(f: Frame): set<Key>
    requires !f.OfferFrame?
  {
    match f
    case Accept(_, _, _, _, _) => ACCEPT_KEYS + {KPaymentKey}
    case Lock(_, _, _, _) => LOCK_KEYS + {KPresig}
    case Reveal(_, _, _, _) => REVEAL_KEYS + {KRef}
    case Refund(_, _, _, _) => BARE_KEYS + {KReason, KRef}
    case Cancel(_, _, _) => BARE_KEYS + {KReason}
    case Receipt(_, _, _, _, _) => BARE_KEYS + {KOutcome, KRail, KRef}
    case Heartbeat(_, _, _, _) => BARE_KEYS + {KNonce, KNote}
  }

  /** The reader the frame's type field selects. */
  function ReadKind(f: Frame, fs: Fields): Option<Frame>
    requires !f.OfferFrame?
  {
    match f
    case Accept(_, _, _, _, _) => ReadAccept(fs)
    case Lock(_, _, _, _) => ReadLock(fs)
    case Reveal(_, _, _, _) => ReadReveal(fs)
    case Refund(_, _, _, _) => ReadRefund(fs)
    case Cancel(_, _, _) => ReadCancel(fs)
    case Receipt(_, _, _, _, _) => ReadReceipt(fs)
    case Heartbeat(_, _, _, _) => ReadHeartbeat(fs)
  }

  lemma BuiltFrame(f: Frame)
    requires !f.OfferFrame?
    ensures var fs := Build(FrameEntries(f), 0);
            && OnlyKeys(fs, AllowedKeys(f)) && HasKeys(fs, RequiredKeys(f)) && NoDuplicates(fs)
            && forall k: Key :: At(fs, k) == Entry(f, k)
  {
    hide KeyText, At, Build, OnlyKeys, HasKeys, Lit;
    var t: Entries := FrameEntries(f);
    BuiltKeys(t, RequiredKeys(f), AllowedKeys(f));
    forall k: Key
      ensures At(Build(t, 0), k) == Entry(f, k)
    {
      assert At(Build(t, 0), k) == t(k);
    }
  }

  lemma OutcomesDistinct()
    ensures OutcomeText(ClaimedOutcome) != OutcomeText(RefundedOutcome)
    ensures OutcomeText(ClaimedOutcome) != OutcomeText(CancelledOutcome)
    ensures OutcomeText(RefundedOutcome) != OutcomeText(CancelledOutcome)
  {
    assert OutcomeText(ClaimedOutcome)[1] != OutcomeText(RefundedOutcome)[1];
    assert |OutcomeText(CancelledOutcome)| == 9;
  }

  /** The facts every reader of a string-valued frame starts from. */
  predicate Holds(f: Frame, fs: Fields) {
    && !f.OfferFrame? && FieldsOk(f)
    && OnlyKeys(fs, AllowedKeys(f)) && HasKeys(fs, RequiredKeys(f))
    && forall k: Key :: At(fs, k) == Entry(f, k)
  }

  lemma SenderAndContract(f: Frame, fs: Fields)
    requires Holds(f, fs)
    ensures ReadText(fs, KFrom, IsDid) == Some(f.sender)
    ensures ReadText(fs, KContract, IsHex32) == Some(f.contract)
  {
    hide KeyText, At, OnlyKeys, HasKeys, IsDid, IsNonce, IsHex32, IsRail, Lit;
    NotEmpty(f.sender);
    NotEmpty(f.contract);
    assert At(fs, KFrom) == Entry(f, KFrom) && At(fs, KContract) == Entry(f, KContract);
  }

  lemma TextHeld(fs: Fields, k: Key, t: Text, ok: Text -> bool)
    requires At(fs, k) == Str(t) && t != [] && ok(t)
    ensures ReadText(fs, k, ok) == Some(t)
  {
  }

  lemma OptionalHeld(fs: Fields, k: Key, t: Option<Text>, ok: Text -> bool)
    requires At(fs, k) == OptionalStr(t) && (t.Some? ==> t.value != [] && ok(t.value))
    ensures ReadOptional(fs, k, ok) == Some(t)
  {
  }

  lemma AcceptTexts(f: Frame, fs: Fields)
    requires Holds(f, fs) && f.Accept?
    ensures ReadText(fs, KRef, IsHex32) == Some(f.ref)
    ensures ReadText(fs, KStatement, IsHex32) == Some(f.statement)
    ensures ReadText(fs, KNonce, IsNonce) == Some(f.nonce)
    ensures At(fs, KPaymentKey) == None
  {
    hide KeyText, At, OnlyKeys, HasKeys, IsDid, IsNonce, IsHex32, IsRail, Lit;
    NotEmpty(f.ref);
    NotEmpty(f.statement);
    NotEmpty(f.nonce);
    assert At(fs, KRef) == Entry(f, KRef) && At(fs, KStatement) == Entry(f, KStatement);
    assert At(fs, KNonce) == Entry(f, KNonce) && At(fs, KPaymentKey) == Entry(f, KPaymentKey);
  }

  lemma AcceptAccepted(f: Frame, fs: Fields)
    requires Holds(f, fs) && f.Accept?
    ensures ReadKind(f, fs) == Some(f)
  {
    hide KeyText, At, OnlyKeys, HasKeys, IsDid, IsNonce, IsHex32, IsRail, Lit, ReadText, FieldsOk, Entry;
    SenderAndContract(f, fs);
    AcceptTexts(f, fs);
  }

  lemma LockTexts(f: Frame, fs: Fields)
    requires Holds(f, fs) && f.Lock?
    ensures ReadText(fs, KRail, IsRail) == Some(f.rail) && ReadText(fs, KRef, NonEmpty) == Some(f.lockRef)
    ensures At(fs, KPresig) == None
  {
    hide KeyText, At, OnlyKeys, HasKeys, IsDid, IsNonce, IsHex32, IsRail, Lit, ReadText;
    assert At(fs, KRail) == Entry(f, KRail) && At(fs, KRef) == Entry(f, KRef) && At(fs, KPresig) == Entry(f, KPresig);
    NotEmpty(f.rail);
    TextHeld(fs, KRail, f.rail, IsRail);
    TextHeld(fs, KRef, f.lockRef, NonEmpty);
  }

  lemma LockAccepted(f: Frame, fs: Fields)
    requires Holds(f, fs) && f.Lock?
    ensures ReadKind(f, fs) == Some(f)
  {
    hide KeyText, At, OnlyKeys, HasKeys, IsDid, IsNonce, IsHex32, IsRail, Lit, ReadText, FieldsOk, Entry;
    SenderAndContract(f, fs);
    LockTexts(f, fs);
  }

  lemma RevealAccepted(f: Frame, fs: Fields)
    requires Holds(f, fs) && f.Reveal?
    ensures ReadKind(f, fs) == Some(f)
  {
    hide KeyText, At, OnlyKeys, HasKeys, IsDid, IsNonce, IsHex32, IsRail, Lit;
    SenderAndContract(f, fs);
    NotEmpty(f.secret);
  }

  lemma HeartbeatAccepted(f: Frame, fs: Fields)
    requires Holds(f, fs) && f.Heartbeat?
    ensures ReadKind(f, fs) == Some(f)
  {
    hide KeyText, At, OnlyKeys, HasKeys, IsDid, IsNonce, IsHex32, IsRail, Lit;
    SenderAndContract(f, fs);
    NotEmpty(f.nonce);
  }

  lemma CancelAccepted(f: Frame, fs: Fields)
    requires Holds(f, fs) && f.Cancel?
    ensures ReadKind(f, fs) == Some(f)
  {
    hide KeyText, At, OnlyKeys, HasKeys, IsDid, IsNonce, IsHex32, IsRail, Lit;
    SenderAndContract(f, fs);
  }

  lemma RefundTexts(f: Frame, fs: Fields)
    requires Holds(f, fs) && f.Refund?
    ensures ReadOptional(fs, KReason, NonEmpty) == Some(f.reason) && ReadOptional(fs, KRef, NonEmpty) == Some(f.railRef)
  {
    hide KeyText, At, OnlyKeys, HasKeys, IsDid, IsNonce, IsHex32, IsRail, Lit, ReadOptional;
    assert At(fs, KReason) == Entry(f, KReason) && At(fs, KRef) == Entry(f, KRef);
    OptionalHeld(fs, KReason, f.reason, NonEmpty);
    OptionalHeld(fs, KRef, f.railRef, NonEmpty);
  }

  lemma RefundAccepted(f: Frame, fs: Fields)
    requires Holds(f, fs) && f.Refund?
    ensures ReadKind(f, fs) == Some(f)
  {
    hide KeyText, At, OnlyKeys, HasKeys, IsDid, IsNonce, IsHex32, IsRail, Lit, ReadText, ReadOptional, FieldsOk, Entry;
    SenderAndContract(f, fs);
    RefundTexts(f, fs);
  }

  lemma OutcomeReads(f: Frame, fs: Fields)
    requires f.Receipt? && At(fs, KOutcome) == Entry(f, KOutcome)
    ensures ReadOutcome(fs) == Some(f.outcome)
  {
    hide At;
    OutcomesDistinct();
  }

  lemma ReceiptTexts(f: Frame, fs: Fields)
    requires Holds(f, fs) && f.Receipt?
    ensures ReadOutcome(fs) == Some(f.outcome)
    ensures ReadOptional(fs, KRail, IsRail) == Some(f.railName) && ReadOptional(fs, KRef, NonEmpty) == Some(f.railRef)
  {
    hide KeyText, At, OnlyKeys, HasKeys, IsDid, IsNonce, IsHex32, IsRail, Lit, OutcomeText, ReadOptional, ReadOutcome;
    assert At(fs, KOutcome) == Entry(f, KOutcome) && At(fs, KRail) == Entry(f, KRail) && At(fs, KRef) == Entry(f, KRef);
    OutcomeReads(f, fs);
    if f.railName.Some? { NotEmpty(f.railName.value); }
    OptionalHeld(fs, KRail, f.railName, IsRail);
    OptionalHeld(fs, KRef, f.railRef, NonEmpty);
  }

  lemma ReceiptAccepted(f: Frame, fs: Fields)
    requires Holds(f, fs) && f.Receipt?
    ensures ReadKind(f, fs) == Some(f)
  {
    hide KeyText, At, OnlyKeys, HasKeys, IsDid, IsNonce, IsHex32, IsRail, Lit, ReadText, ReadOptional, ReadOutcome, FieldsOk, Entry;
    SenderAndContract(f, fs);
    ReceiptTexts(f, fs);
  }

  lemma KindReadsBack(f: Frame)
    requires !f.OfferFrame? && FieldsOk(f)
    ensures ReadKind(f, Build(FrameEntries(f), 0)) == Some(f)
  {
    hide KeyText, Build, At, OnlyKeys, HasKeys, FieldsOk, ReadKind, RequiredKeys, AllowedKeys, Entry;
    BuiltFrame(f);
    var fs := Build(FrameEntries(f), 0);
    match f
    case Accept(_, _, _, _, _) => AcceptAccepted(f, fs);
    case Lock(_, _, _, _) => LockAccepted(f, fs);
    case Reveal(_, _, _, _) => RevealAccepted(f, fs);
    case Heartbeat(_, _, _, _) => HeartbeatAccepted(f, fs);
    case Receipt(_, _, _, _, _) => ReceiptAccepted(f, fs);
    case Cancel(_, _, _) => CancelAccepted(f, fs);
    case Refund(_, _, _, _) => RefundAccepted(f, fs);
  }

  lemma KindWasValid(f: Frame, fs: Fields)
    requires !f.OfferFrame? && ReadKind(f, fs) == Some(f)
    ensures FieldsOk(f) && OnlyKeys(fs, AllowedKeys(f))
  {
    hide KeyText, At, OnlyKeys, HasKeys, IsDid, IsNonce, IsHex32, IsRail, Lit, OutcomeText;
  }

  /** f was read from fs. */
  predicate ReadFrom(f: Frame, fs: Fields) {
    !f.OfferFrame? && At(fs, KType) == Str(KindText(f)) && ReadKind(f, fs) == Some(f)
  }

  lemma EntryNotAllowed(f: Frame, k: Key)
    requires !f.OfferFrame? && k !in AllowedKeys(f)
    ensures Entry(f, k) == None
  {
  }

  lemma AcceptEntry(f: Frame, fs: Fields, k: Key)
    requires ReadFrom(f, fs) && f.Accept? && k in AllowedKeys(f)
    ensures At(fs, k) == Entry(f, k)
  {
    hide KeyText, At, OnlyKeys, HasKeys, IsDid, IsNonce, IsHex32, IsRail, Lit, OutcomeText, FieldsOk;
  }

  lemma LockEntry(f: Frame, fs: Fields, k: Key)
    requires ReadFrom(f, fs) && f.Lock? && k in AllowedKeys(f)
    ensures At(fs, k) == Entry(f, k)
  {
    hide KeyText, At, OnlyKeys, HasKeys, IsDid, IsNonce, IsHex32, IsRail, Lit, OutcomeText, FieldsOk;
  }

  lemma RevealEntry(f: Frame, fs: Fields, k: Key)
    requires ReadFrom(f, fs) && f.Reveal? && k in AllowedKeys(f)
    ensures At(fs, k) == Entry(f, k)
  {
    hide KeyText, At, OnlyKeys, HasKeys, IsDid, IsNonce, IsHex32, IsRail, Lit, OutcomeText, FieldsOk;
  }

  lemma RefundEntry(f: Frame, fs: Fields, k: Key)
    requires ReadFrom(f, fs) && f.Refund? && k in AllowedKeys(f)
    ensures At(fs, k) == Entry(f, k)
  {
    hide KeyText, At, OnlyKeys, HasKeys, IsDid, IsNonce, IsHex32, IsRail, Lit, OutcomeText, FieldsOk;
  }

  lemma CancelEntry(f: Frame, fs: Fields, k: Key)
    requires ReadFrom(f, fs) && f.Cancel? && k in AllowedKeys(f)
    ensures At(fs, k) == Entry(f, k)
  {
    hide KeyText, At, OnlyKeys, HasKeys, IsDid, IsNonce, IsHex32, IsRail, Lit, OutcomeText, FieldsOk;
  }

  lemma ReceiptEntry(f: Frame, fs: Fields, k: Key)
    requires ReadFrom(f, fs) && f.Receipt? && k in AllowedKeys(f)
    ensures At(fs, k) == Entry(f, k)
  {
    hide KeyText, At, OnlyKeys, HasKeys, IsDid, IsNonce, IsHex32, IsRail, Lit, OutcomeText, FieldsOk;
  }

  lemma HeartbeatEntry(f: Frame, fs: Fields, k: Key)
    requires ReadFrom(f, fs) && f.Heartbeat? && k in AllowedKeys(f)
    ensures At(fs, k) == Entry(f, k)
  {
    hide KeyText, At, OnlyKeys, HasKeys, IsDid, IsNonce, IsHex32, IsRail, Lit, OutcomeText, FieldsOk;
  }

  lemma KindEntry(f: Frame, fs: Fields, k: Key)
    requires ReadFrom(f, fs) && OnlyKeys(fs, AllowedKeys(f))
    ensures At(fs, k) == Entry(f, k)
  {
    hide KeyText, At, OnlyKeys, ReadKind, AllowedKeys, Entry, KindText;
    if k !in AllowedKeys(f) {
      NotAllowed(fs, AllowedKeys(f), k);
      EntryNotAllowed(f, k);
    } else {
      match f
      case Accept(_, _, _, _, _) => AcceptEntry(f, fs, k);
      case Lock(_, _, _, _) => LockEntry(f, fs, k);
      case Reveal(_, _, _, _) => RevealEntry(f, fs, k);
      case Refund(_, _, _, _) => RefundEntry(f, fs, k);
      case Cancel(_, _, _) => CancelEntry(f, fs, k);
      case Receipt(_, _, _, _, _) => ReceiptEntry(f, fs, k);
      case Heartbeat(_, _, _, _) => HeartbeatEntry(f, fs, k);
    }
  }
}
