/** The decoder accepts a text as a frame exactly when it is the canonical line
    of that valid frame; the protocol's digests determine what they digest. */
module FrameTheorems {
  import opened Wrappers
  import opened Json
  import opened CanonicalJson
  import opened Frames
  import opened FrameLines
  import opened FrameCodec

  // ---- Clean objects --------------------------------------------------------------------

  lemma NamesAreClean(k: Key)
    ensures Clean(KeyText(k))
  {
    hide Name;
  }

  lemma {:induction false} BuiltClean(t: Entries, n: nat)
    requires n <= 27
    requires forall k: Key | t(k).Some? :: CleanValue(t(k).value)
    ensures CleanFields(Build(t, n))
    decreases 27 - n
  {
    hide KeyText, Ranked;
    if n < 27 {
      BuiltClean(t, n + 1);
      NamesAreClean(Ranked(n));
    }
  }

  /** An object is clean exactly when all its entries are. */
  lemma ObjectClean(t: Entries)
    ensures CleanValue(Object(t)) <==> forall k: Key | t(k).Some? :: CleanValue(t(k).value)
  {
    hide KeyText, Build, OnlyKeys;
    EveryKeyBuilt(t);
    if forall k: Key | t(k).Some? :: CleanValue(t(k).value) { BuiltClean(t, 0); }
    if CleanFields(Build(t, 0)) {
      forall k: Key | t(k).Some?
        ensures CleanValue(t(k).value)
      {
        assert At(Build(t, 0), k) == t(k);
        FieldIsClean(Build(t, 0), KeyText(k));
      }
    }
  }

  lemma FrameEntriesAreCanonical(f: Frame)
    ensures Canon(FrameJson(f)) == FrameJson(f)
  {
    hide KeyText, Build, Object;
    if f.OfferFrame? {
      OfferEntriesAreCanonical(f.offer);
      ObjectIsCanonical(OfferEntries(f.offer));
    } else {
      ObjectIsCanonical(FrameEntries(f));
    }
  }

  // ---- The schema reader and its inverse --------------------------------------------------

  lemma ValidReadsBack(sha: Hash, f: Frame)
    requires ValidFrame(sha, f)
    ensures ValidateFrame(sha, FrameJson(f)) == Some(f)
  {
    hide KeyText, Build, ReadOffer, ReadAccept, ReadLock, ReadReveal, ReadRefund, ReadCancel, ReadReceipt, ReadHeartbeat,
      FieldsOk, OnlyKeys, HasKeys, Lit, ValidOffer;
    var fs := Build(FrameEntries(f), 0);
    if f.OfferFrame? {
      BuiltOfferKeys(f.offer);
      assert At(fs, KType) == OfferEntry(f.offer, KType);
      OfferReadsBack(sha, f.offer);
    } else {
      BuiltFrame(f);
      assert At(fs, KType) == Entry(f, KType);
      KindReadsBack(f);
      ReadByType(sha, f, fs);
    }
  }

  /** validate_frame dispatches on the type name to the reader of that kind. */
  lemma ReadByType(sha: Hash, f: Frame, fs: Fields)
    requires !f.OfferFrame? && At(fs, KType) == Str(KindText(f))
    ensures ValidateFrame(sha, JObj(fs)) == ReadKind(f, fs)
  {
    hide KeyText, At, ReadOffer, ReadAccept, ReadLock, ReadReveal, ReadRefund, ReadCancel, ReadReceipt, ReadHeartbeat, OnlyKeys, HasKeys;
    TypeNamesDistinct();
  }

  lemma TypeNamesDistinct()
    ensures Lit("accept") !in {Lit("offer")}
    ensures Lit("lock") !in {Lit("offer"), Lit("accept")}
    ensures Lit("reveal") !in {Lit("offer"), Lit("accept"), Lit("lock")}
    ensures Lit("refund") !in {Lit("offer"), Lit("accept"), Lit("lock"), Lit("reveal")}
    ensures Lit("cancel") !in {Lit("offer"), Lit("accept"), Lit("lock"), Lit("reveal"), Lit("refund")}
    ensures Lit("receipt") !in {Lit("offer"), Lit("accept"), Lit("lock"), Lit("reveal"), Lit("refund"), Lit("cancel")}
    ensures Lit("heartbeat") !in {Lit("offer"), Lit("accept"), Lit("lock"), Lit("reveal"), Lit("refund"), Lit("cancel"), Lit("receipt")}
  {
    assert |Lit("lock")| == 4 && |Lit("offer")| == 5 && |Lit("accept")| == 6 && |Lit("reveal")| == 6;
    assert |Lit("refund")| == 6 && |Lit("cancel")| == 6 && |Lit("receipt")| == 7 && |Lit("heartbeat")| == 9;
    assert Lit("accept")[0] == 0x61 && Lit("cancel")[0] == 0x63 && Lit("reveal")[0] == 0x72 && Lit("refund")[0] == 0x72;
    assert Lit("reveal")[2] == 0x76 && Lit("refund")[2] == 0x66;
  }

  /** What validate_frame returns is valid and has the object's canonical form. */
  lemma ReadIsValid(sha: Hash, v: Json)
    requires CleanValue(v) && ValidateFrame(sha, v).Some?
    ensures var f := ValidateFrame(sha, v).value; ValidFrame(sha, f) && Canon(v) == FrameJson(f)
  {
    hide KeyText, Build, At, ReadOffer, ReadAccept, ReadLock, ReadReveal, ReadRefund, ReadCancel, ReadReceipt, ReadHeartbeat,
      FieldsOk, OnlyKeys, HasKeys, Lit, ValidOffer, AllowedKeys;
    var f, fs := ValidateFrame(sha, v).value, v.fields;
    ReadKindMatches(sha, fs);
    if f.OfferFrame? {
      OfferFromRead(sha, fs);
    } else {
      KindIsCanonical(f, fs);
    }
  }

  lemma KindIsCanonical(f: Frame, fs: Fields)
    requires ReadFrom(f, fs) && NoDuplicates(fs)
    ensures FieldsOk(f) && Canon(JObj(fs)) == FrameJson(f)
  {
    hide KeyText, Build, At, ReadKind, FieldsOk, OnlyKeys, HasKeys, Lit, AllowedKeys;
    KindWasValid(f, fs);
    forall k: Key
      ensures CanonEntry(fs, k) == FrameEntries(f)(k)
    {
      KindEntry(f, fs, k);
      EntryIsText(f, k);
    }
    CanonIsObject(fs, AllowedKeys(f), FrameEntries(f));
  }

  lemma EntryIsText(f: Frame, k: Key)
    requires !f.OfferFrame?
    ensures Entry(f, k).Some? ==> Entry(f, k).value.JStr?
  {
  }

  lemma ReadKindMatches(sha: Hash, fs: Fields)
    requires ValidateFrame(sha, JObj(fs)).Some?
    ensures var f := ValidateFrame(sha, JObj(fs)).value;
            At(fs, KType) == Str(KindText(f)) && (if f.OfferFrame? then ReadOffer(sha, fs) == Some(f) else ReadFrom(f, fs))
  {
    hide KeyText, At, OnlyKeys, HasKeys, ReadText, ReadOptional, ReadMs, ReadRails, ReadOptionalJob, ReadRole, ReadOutcome, Digest, Without, Lit;
  }

  // ---- The line theorem ---------------------------------------------------------------------

  lemma LineShape(f: Frame)
    ensures PREFIX <= Line(f) && Line(f)[|PREFIX|..] == Canonical(FrameJson(f)) && Printable(Line(f))
  {
    hide FrameJson, Canon;
    assert Printable(PREFIX);
    WrittenPrintable(Canon(FrameJson(f)), []);
    Joined(PREFIX, Canonical(FrameJson(f)));
  }

  lemma Joined(a: Text, b: Text)
    ensures a <= a + b && (a + b)[|a|..] == b && (Printable(a) && Printable(b) ==> Printable(a + b))
  {
  }

  /** decode_line accepts a text as frame f if and only if the text is f's canonical
      line, f is valid, the line fits, and no string of f holds a split surrogate pair. */
  lemma DecodesExactlyLines(sha: Hash, text: Text, f: Frame)
    ensures DecodeLine(sha, text) == Ok(Some(f)) <==>
              text == Line(f) && ValidFrame(sha, f) && |text| <= MAX_CHARS && CleanFrame(f)
  {
    hide FrameJson, ValidFrame, ValidateFrame, Printable, Loads, PREFIX;
    LineShape(f);
    if DecodeLine(sha, text) == Ok(Some(f)) {
      var body := text[|PREFIX|..];
      PrintableSuffix(text, |PREFIX|);
      ReadFromPrintable(body);
      var v := Loads(body).value;
      ReadIsValid(sha, v);
      CanonIsClean(v);
      FrameEntriesAreCanonical(f);
      assert text == PREFIX + body;
    }
    if text == Line(f) && ValidFrame(sha, f) && |text| <= MAX_CHARS && CleanFrame(f) {
      FrameEntriesAreCanonical(f);
      CanonicalRoundTrip(FrameJson(f));
      ValidReadsBack(sha, f);
    }
  }

  lemma PrintableSuffix(s: Text, n: nat)
    requires Printable(s) && n <= |s|
    ensures Printable(s[n..])
  {
  }

  /** Two accepted lines are equal exactly when their frames are. */
  lemma LinesAndFramesAgree(sha: Hash, s: Text, t: Text, f: Frame, g: Frame)
    requires DecodeLine(sha, s) == Ok(Some(f)) && DecodeLine(sha, t) == Ok(Some(g))
    ensures s == t <==> f == g
  {
    DecodesExactlyLines(sha, s, f);
    DecodesExactlyLines(sha, t, g);
  }

  // ---- Digests determine what they digest -----------------------------------------------------

  ghost predicate Injective(sha: Hash) {
    forall a: Text, b: Text :: sha(a) == sha(b) ==> a == b
  }

  lemma DigestInjective(sha: Hash, tag: Text, v: Json, w: Json)
    requires Injective(sha) && CleanValue(v) && CleanValue(w)
    requires Digest(sha, tag, v) == Digest(sha, tag, w)
    ensures Canon(v) == Canon(w)
  {
    var head := DOMAIN + tag + Lit("|");
    assert head + Canonical(v) == head + Canonical(w);
    assert Canonical(v) == (head + Canonical(v))[|head|..];
    assert Canonical(w) == (head + Canonical(w))[|head|..];
    CanonicalInjective(v, w);
  }

  lemma EqualObjects(t: Entries, u: Entries)
    requires Object(t) == Object(u)
    ensures forall k: Key :: t(k) == u(k)
  {
    hide KeyText, Build, OnlyKeys;
    EveryKeyBuilt(t);
    EveryKeyBuilt(u);
    forall k: Key
      ensures t(k) == u(k)
    {
      assert At(Build(t, 0), k) == t(k) && At(Build(u, 0), k) == u(k);
    }
  }

  lemma {:induction false} RailItemsInjective(a: seq<Text>, b: seq<Text>)
    requires RailItems(a) == RailItems(b)
    ensures a == b
  {
    if a != [] && b != [] {
      RailItemsInjective(a[1..], b[1..]);
      assert a == [a[0]] + a[1..] && b == [b[0]] + b[1..];
    }
  }

  lemma JobJsonInjective(a: Job, b: Job)
    requires JobJson(a) == JobJson(b)
    ensures a == b
  {
    hide Object;
    EqualObjects(JobEntries(a), JobEntries(b));
    assert JobEntries(a)(KProto) == JobEntries(b)(KProto);
    assert JobEntries(a)(KId) == JobEntries(b)(KId);
    assert JobEntries(a)(KContext) == JobEntries(b)(KContext);
  }

  lemma RoleTextInjective(a: Role, b: Role)
    ensures RoleText(a) == RoleText(b) ==> a == b
  {
    RolesDistinct();
  }

  lemma OfferScalars(a: Offer, b: Offer)
    requires forall k: Key :: k != KId ==> OfferEntry(a, k) == OfferEntry(b, k)
    ensures a.from == b.from && a.amount == b.amount && a.asset == b.asset && a.nonce == b.nonce
    ensures a.claimByMs == b.claimByMs && a.expiresMs == b.expiresMs && a.refundAfterMs == b.refundAfterMs
  {
    hide JobJson, Lit, RoleText, RailItems;
    assert OfferEntry(a, KFrom) == OfferEntry(b, KFrom) && OfferEntry(a, KAmount) == OfferEntry(b, KAmount);
    assert OfferEntry(a, KAsset) == OfferEntry(b, KAsset) && OfferEntry(a, KNonce) == OfferEntry(b, KNonce);
    assert OfferEntry(a, KClaimBy) == OfferEntry(b, KClaimBy) && OfferEntry(a, KExpires) == OfferEntry(b, KExpires);
    assert OfferEntry(a, KRefundAfter) == OfferEntry(b, KRefundAfter);
  }

  lemma OfferParts(a: Offer, b: Offer)
    requires forall k: Key :: k != KId ==> OfferEntry(a, k) == OfferEntry(b, k)
    ensures a.rails == b.rails && a.job == b.job && a.role == b.role
  {
    hide JobJson, Lit, RoleText, RailItems;
    assert OfferEntry(a, KRails) == OfferEntry(b, KRails);
    RailItemsInjective(a.rails, b.rails);
    assert OfferEntry(a, KJob) == OfferEntry(b, KJob);
    if a.job.Some? && b.job.Some? { JobJsonInjective(a.job.value, b.job.value); }
    assert OfferEntry(a, KRole) == OfferEntry(b, KRole);
    RoleTextInjective(a.role, b.role);
  }

  /** Offers with the same entries, ids apart, and the same id are the same offer. */
  lemma OfferFromEntries(a: Offer, b: Offer)
    requires forall k: Key :: k != KId ==> OfferEntry(a, k) == OfferEntry(b, k)
    requires a.id == b.id
    ensures a == b
  {
    hide OfferEntry;
    OfferScalars(a, b);
    OfferParts(a, b);
  }

  lemma OfferEntriesClean(o: Offer)
    requires CleanFrame(OfferFrame(o))
    ensures forall k: Key | OfferEntry(o, k).Some? :: CleanValue(OfferEntry(o, k).value)
  {
    hide Object, OfferEntry;
    ObjectClean(OfferEntries(o));
    assert forall k: Key :: OfferEntries(o)(k) == OfferEntry(o, k);
  }

  lemma SameBody(a: Offer, b: Offer)
    requires Object(BodyEntries(a)) == Object(BodyEntries(b))
    ensures forall k: Key :: k != KId ==> OfferEntry(a, k) == OfferEntry(b, k)
  {
    hide Object, OfferEntry;
    EqualObjects(BodyEntries(a), BodyEntries(b));
    forall k: Key | k != KId
      ensures OfferEntry(a, k) == OfferEntry(b, k)
    {
      assert BodyEntries(a)(k) == BodyEntries(b)(k);
    }
  }

  lemma BodyIsCanonicalAndClean(o: Offer)
    requires CleanFrame(OfferFrame(o))
    ensures CleanValue(Object(BodyEntries(o))) && Canon(Object(BodyEntries(o))) == Object(BodyEntries(o))
  {
    hide Object, OfferEntry, CleanFrame;
    OfferEntriesClean(o);
    ObjectClean(BodyEntries(o));
    OfferEntriesAreCanonical(o);
    ObjectIsCanonical(BodyEntries(o));
  }

  /** Two valid offers with one id are one offer. */
  lemma OfferIdsAreUnique(sha: Hash, a: Offer, b: Offer)
    requires Injective(sha)
    requires ValidFrame(sha, OfferFrame(a)) && CleanFrame(OfferFrame(a))
    requires ValidFrame(sha, OfferFrame(b)) && CleanFrame(OfferFrame(b))
    requires a.id == b.id
    ensures a == b
  {
    hide Object, OfferEntry, Digest, OfferFieldsOk, ValidJob, Injective, CleanFrame, BodyEntries, Canon;
    BodyIsCanonicalAndClean(a);
    BodyIsCanonicalAndClean(b);
    DigestInjective(sha, Lit("offer"), Object(BodyEntries(a)), Object(BodyEntries(b)));
    SameBody(a, b);
    OfferFromEntries(a, b);
  }

  lemma CoreIsCanonical(a: Frame)
    requires a.Accept?
    ensures Canon(Object(AcceptCoreEntries(a))) == Object(AcceptCoreEntries(a))
  {
    ObjectIsCanonical(AcceptCoreEntries(a));
  }

  lemma CoreIsClean(a: Frame)
    requires a.Accept? && CleanFrame(a)
    ensures CleanValue(Object(AcceptCoreEntries(a)))
  {
    hide Object;
    ObjectClean(FrameEntries(a));
    ObjectClean(AcceptCoreEntries(a));
    forall k: Key | AcceptCoreEntries(a)(k).Some?
      ensures CleanValue(AcceptCoreEntries(a)(k).value)
    {
      assert FrameEntries(a)(k) == AcceptCoreEntries(a)(k);
    }
  }

  lemma ContractIsCanonicalAndClean(o: Offer, a: Frame)
    requires a.Accept? && CleanFrame(OfferFrame(o)) && CleanFrame(a)
    ensures CleanValue(Object(ContractEntries(o, a))) && Canon(Object(ContractEntries(o, a))) == Object(ContractEntries(o, a))
  {
    hide Object, OfferEntry;
    CoreIsCanonical(a);
    CoreIsClean(a);
    OfferEntriesAreCanonical(o);
    ObjectIsCanonical(OfferEntries(o));
    ObjectClean(ContractEntries(o, a));
    ObjectIsCanonical(ContractEntries(o, a));
  }

  /** One contract id names one offer and one acceptance of it. */
  lemma ContractIdsAreUnique(sha: Hash, o: Offer, a: Frame, p: Offer, b: Frame)
    requires Injective(sha) && a.Accept? && b.Accept?
    requires CleanFrame(OfferFrame(o)) && CleanFrame(a) && CleanFrame(OfferFrame(p)) && CleanFrame(b)
    requires ContractId(sha, o, a) == ContractId(sha, p, b)
    ensures o == p
    ensures a.sender == b.sender && a.ref == b.ref && a.statement == b.statement && a.nonce == b.nonce
  {
    hide Object, OfferEntry, Digest, CleanFrame, Injective;
    ContractIsCanonicalAndClean(o, a);
    ContractIsCanonicalAndClean(p, b);
    DigestInjective(sha, Lit("contract"), Object(ContractEntries(o, a)), Object(ContractEntries(p, b)));
    EqualObjects(ContractEntries(o, a), ContractEntries(p, b));
    assert ContractEntries(o, a)(KOffer) == ContractEntries(p, b)(KOffer);
    assert ContractEntries(o, a)(KAccept) == ContractEntries(p, b)(KAccept);
    EqualObjects(OfferEntries(o), OfferEntries(p));
    assert OfferEntries(o)(KId) == OfferEntries(p)(KId);
    OfferFromOwnEntries(o, p);
    EqualObjects(AcceptCoreEntries(a), AcceptCoreEntries(b));
    assert AcceptCoreEntries(a)(KFrom) == AcceptCoreEntries(b)(KFrom);
    assert AcceptCoreEntries(a)(KRef) == AcceptCoreEntries(b)(KRef);
    assert AcceptCoreEntries(a)(KStatement) == AcceptCoreEntries(b)(KStatement);
    assert AcceptCoreEntries(a)(KNonce) == AcceptCoreEntries(b)(KNonce);
  }

  lemma OfferFromOwnEntries(o: Offer, p: Offer)
    requires forall k: Key :: OfferEntries(o)(k) == OfferEntries(p)(k)
    ensures o == p
  {
    hide JobJson;
    assert OfferEntries(o)(KId) == OfferEntries(p)(KId);
    forall k: Key
      ensures OfferEntry(o, k) == OfferEntry(p, k)
    {
      assert OfferEntries(o)(k) == OfferEntries(p)(k);
    }
    OfferFromEntries(o, p);
  }
}
