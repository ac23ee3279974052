/** tclk/1 frames: their schema, their canonical line, and the line decoder. */
module Frames {
  import opened Wrappers
  import opened Json
  import opened CanonicalJson

  const MAX_CHARS: nat := 4096
  const MAX_SAFE_INTEGER: nat := 9_007_199_254_740_991
  const PREFIX: Text := Lit("tclk1 ")
  const DOMAIN: Text := Lit("FLOP::tclk::v1|")

  // "0x" followed by the lower-case SHA-256 of the ASCII text.
  type Hash = Text -> Text

  datatype Role = Payer | Payee

  datatype Outcome = ClaimedOutcome | RefundedOutcome | CancelledOutcome

  datatype Job = Job(proto: Text, id: Text, context: Option<Text>)

  datatype Offer = Offer(
    from: Text, role: Role, amount: Text, asset: Text, rails: seq<Text>,
    claimByMs: int, refundAfterMs: int, expiresMs: int,
    job: Option<Job>, nonce: Text, id: Text)

  datatype Frame =
    | OfferFrame(offer: Offer)
    | Accept(sender: Text, ref: Text, statement: Text, contract: Text, nonce: Text)
    | Lock(sender: Text, contract: Text, rail: Text, lockRef: Text)
    | Reveal(sender: Text, contract: Text, secret: Text, railRef: Option<Text>)
    | Refund(sender: Text, contract: Text, reason: Option<Text>, railRef: Option<Text>)
    | Cancel(sender: Text, contract: Text, reason: Option<Text>)
    | Receipt(sender: Text, contract: Text, outcome: Outcome, railName: Option<Text>, railRef: Option<Text>)
    | Heartbeat(sender: Text, contract: Text, nonce: Text, note: Option<Text>)
  {
    function From(): Text {
      if OfferFrame? then offer.from else sender
    }
  }

  // ---- Field names --------------------------------------------------------------

  datatype Key =
    | KAccept | KAmount | KAsset | KClaimBy | KContext | KContract | KExpires | KFrom | KId | KJob
    | KLock | KNonce | KNote | KOffer | KOutcome | KPaymentKey | KPresig | KProto | KRail | KRails
    | KReason | KRef | KRefundAfter | KRole | KSecret | KStatement | KType

  function Name(k: Key): string {
    match k
    case KAccept => "accept" case KAmount => "amount" case KAsset => "asset"
    case KClaimBy => "claimByMs" case KContext => "context" case KContract => "contract"
    case KExpires => "expiresMs" case KFrom => "from" case KId => "id" case KJob => "job"
    case KLock => "lock" case KNonce => "nonce" case KNote => "note" case KOffer => "offer"
    case KOutcome => "outcome" case KPaymentKey => "paymentKey" case KPresig => "presig"
    case KProto => "proto" case KRail => "rail" case KRails => "rails" case KReason => "reason"
    case KRef => "ref" case KRefundAfter => "refundAfterMs" case KRole => "role"
    case KSecret => "secret" case KStatement => "statement" case KType => "type"
  }

  function KeyText(k: Key): Text {
    Lit(Name(k))
  }

  function At(fs: Fields, k: Key): Option<Json> {
    Get(fs, KeyText(k))
  }

  predicate Named(k: Text, allowed: set<Key>) {
    exists a | a in allowed :: KeyText(a) == k
  }

  predicate OnlyKeys(fs: Fields, allowed: set<Key>) {
    match fs
    case NoFields => true
    case Field(k, _, rest) => Named(k, allowed) && OnlyKeys(rest, allowed)
  }

  predicate HasKeys(fs: Fields, required: set<Key>) {
    forall k | k in required :: HasKey(fs, KeyText(k))
  }

  // ---- Patterns ------------------------------------------------------------------

  predicate LowerHex(c: nat) { 0x30 <= c <= 0x39 || 0x61 <= c <= 0x66 }

  predicate LowerOrDigit(c: nat) { 0x30 <= c <= 0x39 || 0x61 <= c <= 0x7A }

  predicate WordOrDash(c: nat) { LowerOrDigit(c) || 0x41 <= c <= 0x5A || c == 0x5F || c == 0x2D }

  predicate Base58Char(c: nat) {
    (0x31 <= c <= 0x39 || 0x41 <= c <= 0x5A || 0x61 <= c <= 0x7A) && c !in {0x49, 0x4F, 0x6C}
  }

  predicate IsDid(t: Text) {
    |t| == 56 && t[..12] == Lit("did:key:z6Mk") && forall i | 12 <= i < 56 :: Base58Char(t[i])
  }

  predicate IsHex32(t: Text) {
    |t| == 66 && t[0] == 0x30 && t[1] == 0x78 && forall i | 2 <= i < 66 :: LowerHex(t[i])
  }

  predicate IsAmount(t: Text) {
    |t| >= 1 && 0x31 <= t[0] <= 0x39 && forall i | 1 <= i < |t| :: IsDigit(t[i])
  }

  predicate IsAsset(t: Text) {
    1 <= |t| <= 32 && forall i | 0 <= i < |t| :: WordOrDash(t[i])
  }

  predicate IsRail(t: Text) {
    1 <= |t| <= 64 && LowerOrDigit(t[0]) &&
    forall i | 1 <= i < |t| :: LowerOrDigit(t[i]) || t[i] in {0x2E, 0x5F, 0x2D}
  }

  predicate IsProto(t: Text) {
    |t| <= 32 && IsRail(t)
  }

  predicate IsNonce(t: Text) {
    8 <= |t| <= 64 && forall i | 0 <= i < |t| :: LowerHex(t[i])
  }

  predicate NonEmpty(t: Text) { t != [] }

  predicate IsMs(n: int) { 0 < n <= MAX_SAFE_INTEGER }

  // ---- Digests --------------------------------------------------------------------

  function Digest(sha: Hash, tag: Text, payload: Json): Text {
    sha(DOMAIN + tag + Lit("|") + Canonical(payload))
  }

  // ---- Frames as JSON objects, keys already in order ---------------------------------

  /** The key of alphabetical rank n. */
  function Ranked(n: nat): Key
    requires n < 27
  {
    match n
    case 0 => KAccept case 1 => KAmount case 2 => KAsset case 3 => KClaimBy
    case 4 => KContext case 5 => KContract case 6 => KExpires case 7 => KFrom
    case 8 => KId case 9 => KJob case 10 => KLock case 11 => KNonce
    case 12 => KNote case 13 => KOffer case 14 => KOutcome case 15 => KPaymentKey
    case 16 => KPresig case 17 => KProto case 18 => KRail case 19 => KRails
    case 20 => KReason case 21 => KRef case 22 => KRefundAfter case 23 => KRole
    case 24 => KSecret case 25 => KStatement case _ => KType
  }

  // What a dict literal says: the value of each key it has.
  type Entries = Key -> Option<Json>

  /** The object with these entries, in key order. */
  function Build(t: Entries, n: nat): Fields
    requires n <= 27
    decreases 27 - n
  {
    if n == 27 then NoFields
    else
      match t(Ranked(n))
      case None => Build(t, n + 1)
      case Some(v) => Field(KeyText(Ranked(n)), v, Build(t, n + 1))
  }

  function Object(t: Entries): Json {
    JObj(Build(t, 0))
  }

  function Str(t: Text): Option<Json> {
    Some(JStr(t))
  }

  function OptionalStr(t: Option<Text>): Option<Json> {
    match t case None => None case Some(s) => Some(JStr(s))
  }

  function JobEntry(j: Job, k: Key): Option<Json> {
    match k
    case KProto => Str(j.proto)
    case KId => Str(j.id)
    case KContext => OptionalStr(j.context)
    case _ => None
  }

  function JobEntries(j: Job): Entries {
    k => JobEntry(j, k)
  }

  function JobJson(j: Job): Json {
    Object(JobEntries(j))
  }

  function RailItems(rails: seq<Text>): Items {
    if rails == [] then NoItems else Item(JStr(rails[0]), RailItems(rails[1..]))
  }

  function RoleText(r: Role): Text {
    match r case Payer => Lit("payer") case Payee => Lit("payee")
  }

  function OutcomeText(o: Outcome): Text {
    match o
    case ClaimedOutcome => Lit("claimed")
    case RefundedOutcome => Lit("refunded")
    case CancelledOutcome => Lit("cancelled")
  }

  function OfferEntry(o: Offer, k: Key): Option<Json> {
    match k
    case KType => Str(Lit("offer"))
    case KFrom => Str(o.from)
    case KRole => Str(RoleText(o.role))
    case KAmount => Str(o.amount)
    case KAsset => Str(o.asset)
    case KLock => Str(Lit("hash"))
    case KRails => Some(JArr(RailItems(o.rails)))
    case KClaimBy => Some(JInt(o.claimByMs))
    case KRefundAfter => Some(JInt(o.refundAfterMs))
    case KExpires => Some(JInt(o.expiresMs))
    case KJob => (match o.job case None => None case Some(j) => Some(JobJson(j)))
    case KNonce => Str(o.nonce)
    case KId => Str(o.id)
    case _ => None
  }

  function OfferEntries(o: Offer): Entries {
    k => OfferEntry(o, k)
  }

  function BodyEntries(o: Offer): Entries {
    k => if k == KId then None else OfferEntry(o, k)
  }

  /** digest("offer", every field but the id) */
  function OfferId(sha: Hash, o: Offer): Text {
    Digest(sha, Lit("offer"), Object(BodyEntries(o)))
  }

  function AcceptCoreEntry(a: Frame, k: Key): Option<Json>
    requires a.Accept?
  {
    match k
    case KFrom => Str(a.sender)
    case KRef => Str(a.ref)
    case KStatement => Str(a.statement)
    case KNonce => Str(a.nonce)
    case _ => None
  }

  function AcceptCoreEntries(a: Frame): Entries
    requires a.Accept?
  {
    k => AcceptCoreEntry(a, k)
  }

  function ContractEntry(o: Offer, a: Frame, k: Key): Option<Json>
    requires a.Accept?
  {
    match k
    case KOffer => Some(Object(OfferEntries(o)))
    case KAccept => Some(Object(AcceptCoreEntries(a)))
    case _ => None
  }

  function ContractEntries(o: Offer, a: Frame): Entries
    requires a.Accept?
  {
    k => ContractEntry(o, a, k)
  }

  /** digest("contract", {"offer": offer, "accept": core}) */
  function ContractId(sha: Hash, o: Offer, a: Frame): Text
    requires a.Accept?
  {
    Digest(sha, Lit("contract"), Object(ContractEntries(o, a)))
  }

  function KindText(f: Frame): Text {
    match f
    case OfferFrame(_) => Lit("offer")
    case Accept(_, _, _, _, _) => Lit("accept")
    case Lock(_, _, _, _) => Lit("lock")
    case Reveal(_, _, _, _) => Lit("reveal")
    case Refund(_, _, _, _) => Lit("refund")
    case Cancel(_, _, _) => Lit("cancel")
    case Receipt(_, _, _, _, _) => Lit("receipt")
    case Heartbeat(_, _, _, _) => Lit("heartbeat")
  }

  function Entry(f: Frame, k: Key): Option<Json> {
    if f.OfferFrame? then OfferEntry(f.offer, k)
    else if k == KType then Str(KindText(f))
    else if k == KFrom then Str(f.sender)
    else if k == KContract then Str(f.contract)
    else
      match f
      case OfferFrame(_) => None
      case Accept(_, ref, statement, _, nonce) =>
        if k == KRef then Str(ref) else if k == KStatement then Str(statement) else if k == KNonce then Str(nonce) else None
      case Lock(_, _, rail, ref) =>
        if k == KRail then Str(rail) else if k == KRef then Str(ref) else None
      case Reveal(_, _, secret, ref) =>
        if k == KSecret then Str(secret) else if k == KRef then OptionalStr(ref) else None
      case Refund(_, _, reason, ref) =>
        if k == KReason then OptionalStr(reason) else if k == KRef then OptionalStr(ref) else None
      case Cancel(_, _, reason) =>
        if k == KReason then OptionalStr(reason) else None
      case Receipt(_, _, outcome, rail, ref) =>
        if k == KOutcome then Str(OutcomeText(outcome)) else if k == KRail then OptionalStr(rail)
        else if k == KRef then OptionalStr(ref) else None
      case Heartbeat(_, _, nonce, note) =>
        if k == KNonce then Str(nonce) else if k == KNote then OptionalStr(note) else None
  }

  function FrameEntries(f: Frame): Entries {
    if f.OfferFrame? then OfferEntries(f.offer) else k => Entry(f, k)
  }

  function FrameJson(f: Frame): Json {
    Object(FrameEntries(f))
  }

  /** PREFIX + canonical(frame) */
  function Line(f: Frame): Text {
    PREFIX + Canonical(FrameJson(f))
  }

  // ---- validate_frame -----------------------------------------------------------------

  /** require_string */
  function ReadText(fs: Fields, k: Key, ok: Text -> bool): Option<Text> {
    match At(fs, k)
    case Some(JStr(s)) => if s != [] && ok(s) then Some(s) else None
    case _ => None
  }

  function ReadOptional(fs: Fields, k: Key, ok: Text -> bool): Option<Option<Text>> {
    if At(fs, k).None? then Some(None)
    else match ReadText(fs, k, ok) case None => None case Some(s) => Some(Some(s))
  }

  /** require_ms */
  function ReadMs(fs: Fields, k: Key): Option<int> {
    match At(fs, k)
    case Some(JInt(n)) => if IsMs(n) then Some(n) else None
    case _ => None
  }

  function ReadRails(items: Items): Option<seq<Text>> {
    match items
    case NoItems => Some([])
    case Item(JStr(s), rest) =>
      if !IsRail(s) then None
      else (match ReadRails(rest) case None => None case Some(ss) => Some([s] + ss))
    case _ => None
  }

  const JOB_REQUIRED: set<Key> := {KProto, KId}
  const JOB_KEYS: set<Key> := {KProto, KId, KContext}

  /** validate_job */
  function ReadJob(v: Json): Option<Job> {
    match v
    case JObj(fs) =>
      if !OnlyKeys(fs, JOB_KEYS) || !HasKeys(fs, JOB_REQUIRED) then None
      else
        var proto :- ReadText(fs, KProto, IsProto);
        var id :- ReadText(fs, KId, NonEmpty);
        var context :- ReadOptional(fs, KContext, NonEmpty);
        Some(Job(proto, id, context))
    case _ => None
  }

  function ReadOptionalJob(fs: Fields): Option<Option<Job>> {
    match At(fs, KJob)
    case None => Some(None)
    case Some(v) => (match ReadJob(v) case None => None case Some(j) => Some(Some(j)))
  }

  function ReadRole(fs: Fields): Option<Role> {
    if At(fs, KRole) == Some(JStr(RoleText(Payer))) then Some(Payer)
    else if At(fs, KRole) == Some(JStr(RoleText(Payee))) then Some(Payee)
    else None
  }

  function ReadOutcome(fs: Fields): Option<Outcome> {
    if At(fs, KOutcome) == Some(JStr(OutcomeText(ClaimedOutcome))) then Some(ClaimedOutcome)
    else if At(fs, KOutcome) == Some(JStr(OutcomeText(RefundedOutcome))) then Some(RefundedOutcome)
    else if At(fs, KOutcome) == Some(JStr(OutcomeText(CancelledOutcome))) then Some(CancelledOutcome)
    else None
  }

  function Without(fs: Fields, k: Text): Fields {
    match fs
    case NoFields => NoFields
    case Field(key, v, rest) => if key == k then Without(rest, k) else Field(key, v, Without(rest, k))
  }

  const OFFER_KEYS: set<Key> :=
    {KType, KFrom, KRole, KAmount, KAsset, KLock, KRails, KClaimBy, KRefundAfter, KExpires, KNonce, KId}

  function ReadOffer(sha: Hash, fs: Fields): Option<Frame> {
    if !OnlyKeys(fs, OFFER_KEYS + {KPaymentKey, KJob}) || !HasKeys(fs, OFFER_KEYS) then None
    else
      var from :- ReadText(fs, KFrom, IsDid);
      var role :- ReadRole(fs);
      var amount :- ReadText(fs, KAmount, IsAmount);
      var asset :- ReadText(fs, KAsset, IsAsset);
      if At(fs, KLock) != Some(JStr(Lit("hash"))) then None
      else
        match At(fs, KRails)
        case Some(JArr(items)) =>
          var rails :- ReadRails(items);
          var claim :- ReadMs(fs, KClaimBy);
          var refund :- ReadMs(fs, KRefundAfter);
          var expires :- ReadMs(fs, KExpires);
          if rails == [] || claim >= refund || At(fs, KPaymentKey).Some? then None
          else
            var job :- ReadOptionalJob(fs);
            var nonce :- ReadText(fs, KNonce, IsNonce);
            var id :- ReadText(fs, KId, IsHex32);
            if id != Digest(sha, Lit("offer"), JObj(Without(fs, KeyText(KId)))) then None
            else Some(OfferFrame(Offer(from, role, amount, asset, rails, claim, refund, expires, job, nonce, id)))
        case _ => None
  }

  const ACCEPT_KEYS: set<Key> := {KType, KFrom, KRef, KStatement, KContract, KNonce}

  function ReadAccept(fs: Fields): Option<Frame> {
    if !OnlyKeys(fs, ACCEPT_KEYS + {KPaymentKey}) || !HasKeys(fs, ACCEPT_KEYS) then None
    else
      var sender :- ReadText(fs, KFrom, IsDid);
      var ref :- ReadText(fs, KRef, IsHex32);
      var statement :- ReadText(fs, KStatement, IsHex32);
      var contract :- ReadText(fs, KContract, IsHex32);
      var nonce :- ReadText(fs, KNonce, IsNonce);
      if At(fs, KPaymentKey).Some? then None else Some(Accept(sender, ref, statement, contract, nonce))
  }

  const LOCK_KEYS: set<Key> := {KType, KFrom, KContract, KRail, KRef}

  function ReadLock(fs: Fields): Option<Frame> {
    if !OnlyKeys(fs, LOCK_KEYS + {KPresig}) || !HasKeys(fs, LOCK_KEYS) then None
    else
      var sender :- ReadText(fs, KFrom, IsDid);
      var contract :- ReadText(fs, KContract, IsHex32);
      var rail :- ReadText(fs, KRail, IsRail);
      var ref :- ReadText(fs, KRef, NonEmpty);
      if At(fs, KPresig).Some? then None else Some(Lock(sender, contract, rail, ref))
  }

  const REVEAL_KEYS: set<Key> := {KType, KFrom, KContract, KSecret}

  function ReadReveal(fs: Fields): Option<Frame> {
    if !OnlyKeys(fs, REVEAL_KEYS + {KRef}) || !HasKeys(fs, REVEAL_KEYS) then None
    else
      var sender :- ReadText(fs, KFrom, IsDid);
      var contract :- ReadText(fs, KContract, IsHex32);
      var secret :- ReadText(fs, KSecret, IsHex32);
      var ref :- ReadOptional(fs, KRef, NonEmpty);
      Some(Reveal(sender, contract, secret, ref))
  }

  const BARE_KEYS: set<Key> := {KType, KFrom, KContract}

  function ReadRefund(fs: Fields): Option<Frame> {
    if !OnlyKeys(fs, BARE_KEYS + {KReason, KRef}) || !HasKeys(fs, BARE_KEYS) then None
    else
      var sender :- ReadText(fs, KFrom, IsDid);
      var contract :- ReadText(fs, KContract, IsHex32);
      var ref :- ReadOptional(fs, KRef, NonEmpty);
      var reason :- ReadOptional(fs, KReason, NonEmpty);
      Some(Refund(sender, contract, reason, ref))
  }

  function ReadCancel(fs: Fields): Option<Frame> {
    if !OnlyKeys(fs, BARE_KEYS + {KReason}) || !HasKeys(fs, BARE_KEYS) then None
    else
      var sender :- ReadText(fs, KFrom, IsDid);
      var contract :- ReadText(fs, KContract, IsHex32);
      var reason :- ReadOptional(fs, KReason, NonEmpty);
      Some(Cancel(sender, contract, reason))
  }

  function ReadReceipt(fs: Fields): Option<Frame> {
    if !OnlyKeys(fs, BARE_KEYS + {KOutcome, KRail, KRef}) || !HasKeys(fs, BARE_KEYS + {KOutcome}) then None
    else
      var sender :- ReadText(fs, KFrom, IsDid);
      var contract :- ReadText(fs, KContract, IsHex32);
      var outcome :- ReadOutcome(fs);
      var rail :- ReadOptional(fs, KRail, IsRail);
      var ref :- ReadOptional(fs, KRef, NonEmpty);
      Some(Receipt(sender, contract, outcome, rail, ref))
  }

  function ReadHeartbeat(fs: Fields): Option<Frame> {
    if !OnlyKeys(fs, BARE_KEYS + {KNonce, KNote}) || !HasKeys(fs, BARE_KEYS + {KNonce}) then None
    else
      var sender :- ReadText(fs, KFrom, IsDid);
      var contract :- ReadText(fs, KContract, IsHex32);
      var nonce :- ReadText(fs, KNonce, IsNonce);
      var note :- ReadOptional(fs, KNote, NonEmpty);
      Some(Heartbeat(sender, contract, nonce, note))
  }

  /** validate_frame: the typed frame, or None where the source raises. */
  function ValidateFrame(sha: Hash, v: Json): Option<Frame> {
    match v
    case JObj(fs) =>
      (match At(fs, KType)
       case Some(JStr(kind)) =>
         if kind == Lit("offer") then ReadOffer(sha, fs)
         else if kind == Lit("accept") then ReadAccept(fs)
         else if kind == Lit("lock") then ReadLock(fs)
         else if kind == Lit("reveal") then ReadReveal(fs)
         else if kind == Lit("refund") then ReadRefund(fs)
         else if kind == Lit("cancel") then ReadCancel(fs)
         else if kind == Lit("receipt") then ReadReceipt(fs)
         else if kind == Lit("heartbeat") then ReadHeartbeat(fs)
         else None
       case _ => None)
    case _ => None
  }

  /** decode_line: Ok(None) for an ordinary message, Err where the source raises. */
  function DecodeLine(sha: Hash, text: Text): Result<Option<Frame>, string> {
    if !(PREFIX <= text) then Ok(None)
    else if |text| > MAX_CHARS || !Printable(text) then Err("line exceeds limits or is not printable ASCII")
    else
      var body := text[|PREFIX|..];
      match Loads(body)
      case None => Err("malformed JSON or duplicate key")
      case Some(v) =>
        match ValidateFrame(sha, v)
        case None => Err("frame does not match tclk/1")
        case Some(f) => if body == Canonical(v) then Ok(Some(f)) else Err("not canonical JSON")
  }
}
