/** What every single write of the mailbox scripts keeps, wherever a crash falls. */
module MailboxInvariant {
  import opened Wrappers
  import opened Json
  import opened Mailbox
  import opened MailboxScripts

  // The files, and the first sequence acknowledged since the last adopted generation.
  datatype Trace = Trace(st: State, origin: Option<int>)

  function NewOrigin(t: Trace, w: Write): Option<int> {
    match w
    case Adopt(_) => None
    case Acknowledge(_) =>
      if t.origin == None && t.st.receipt.Some? && t.st.receipt.value.items != []
      then Some(t.st.receipt.value.items[0].sequence) else t.origin
    case _ => t.origin
  }

  function Advance(t: Trace, w: Write): Trace {
    Trace(Apply(t.st, w), NewOrigin(t, w))
  }

  function AdvanceAll(t: Trace, ws: seq<Write>, cut: nat): Trace
    decreases ws
  {
    if ws == [] || cut == 0 then t else AdvanceAll(Advance(t, ws[0]), ws[1..], cut - 1)
  }

  // ---- The invariant ----------------------------------------------------------------------

  predicate Archived(st: State, r: Receipt) {
    KeyOf(r) in st.archive && st.archive[KeyOf(r)] == r
  }

  /** The batch was fetched at the current cursor; if it proposes to move it, the matching
      acknowledgement is pending. */
  predicate Fresh(st: State, b: Batch) {
    && b.starting == Cursor(st) <= b.proposed
    && (b.proposed > b.starting ==> st.pending == Some(Mark(b.generation, b.proposed)))
    && (b.generation.Some? ==>
          Generation(st) == b.generation || (Generation(st) == None && b.proposed > b.starting))
  }

  /** The batch is already acknowledged, and its receipt is live or archived. */
  predicate Acked(env: Env, st: State, b: Batch) {
    && ValidateBatch(env, b).Some?
    && var r := ValidateBatch(env, b).value;
    && r.items != [] && r.proposed == Cursor(st) && Generation(st) == Some(r.generation)
    && (st.receipt == Some(r) || Archived(st, r))
    && forall k | k in st.archive && k.generation == r.generation ::
         st.archive[k] == r || st.archive[k].proposed <= r.starting
  }

  predicate ArchiveSound(st: State) {
    forall k | k in st.archive ::
      && k == KeyOf(st.archive[k]) && WellReviewed(st.archive[k])
      && (Generation(st) == None || Generation(st) == Some(k.generation) ==> st.archive[k].proposed <= Cursor(st))
  }

  /** Within the two receipts, equal signature hashes and equal sequences go together. */
  predicate Agree(r: Receipt, s: Receipt) {
    forall i, j | 0 <= i < |r.items| && 0 <= j < |s.items| ::
      r.items[i].signature == s.items[j].signature <==> r.items[i].sequence == s.items[j].sequence
  }

  predicate OneToOne(archive: map<Key, Receipt>) {
    forall k, l | k in archive && l in archive && k.generation == l.generation :: Agree(archive[k], archive[l])
  }

  /** A receipt of this generation, archived or still live, accounts for sequence x. */
  predicate Held(st: State, g: SafeInt, x: int) {
    || (exists k | k in st.archive :: k.generation == g && Holds(st.archive[k], x))
    || (st.receipt.Some? && st.receipt.value.generation == g && Holds(st.receipt.value, x))
  }

  predicate NothingSkipped(t: Trace) {
    t.origin.Some? ==>
      && Generation(t.st).Some? && 1 <= t.origin.value <= Cursor(t.st)
      && forall x | t.origin.value <= x <= Cursor(t.st) :: Held(t.st, Generation(t.st).value, x)
  }

  predicate Inv(env: Env, t: Trace) {
    && ArchiveSound(t.st) && OneToOne(t.st.archive) && NothingSkipped(t)
    && (t.st.batch.Some? ==> Fresh(t.st, t.st.batch.value) || Acked(env, t.st, t.st.batch.value))
  }

  // ---- Writes a script may perform in a state ------------------------------------------------

  predicate Permitted(env: Env, st: State, w: Write) {
    match w
    case RecordGeneration(m) =>
      st.pending == None && Generation(st) == None && m.generation.Some? && m.cursor == Cursor(st)
    case Acknowledge(m) =>
      && st.batch.Some? && st.receipt.Some? && Review(env, st.batch.value, st.archive) == st.receipt
      && var r := st.receipt.value;
      && r.items != [] && r.proposed >= Cursor(st) && (KeyOf(r) in st.archive ==> st.archive[KeyOf(r)] == r)
      && AckWrites(st, r.proposed) == Some([Acknowledge(m), ClearPending])
    case Adopt(m) =>
      && st.pending == None && st.batch == None && st.receipt == None && m.generation.Some?
      && forall k | k in st.archive && Some(k.generation) == m.generation :: st.archive[k].proposed <= m.cursor
    case SetPending(m) => st.pending == None && m.cursor > Cursor(st)
    case ClearPending => st.batch.None? || Acked(env, st, st.batch.value)
    case SaveBatch(b) => st.batch == None && Fresh(st, b)
    case ClearBatch =>
      && st.batch.Some? && ValidateBatch(env, st.batch.value).Some?
      && var r := ValidateBatch(env, st.batch.value).value;
      && (r.items == [] || (Acked(env, st, st.batch.value) && Archived(st, r)))
    case SaveReceipt(r) => st.receipt == None
    case ClearReceipt => st.receipt.Some? && (st.receipt.value.items == [] || Archived(st, st.receipt.value))
    case ArchiveReceipt(r) =>
      && st.receipt == Some(r) && st.batch.Some? && Acked(env, st, st.batch.value)
      && Review(env, st.batch.value, st.archive) == Some(r) && KeyOf(r) !in st.archive
    case _ => true
  }

  predicate AllPermitted(env: Env, st: State, ws: seq<Write>)
    decreases ws
  {
    ws == [] || (Permitted(env, st, ws[0]) && AllPermitted(env, Apply(st, ws[0]), ws[1..]))
  }

  lemma {:induction false} PermittedConcat(env: Env, st: State, vs: seq<Write>, ws: seq<Write>)
    ensures AllPermitted(env, st, vs + ws) <==> AllPermitted(env, st, vs) && AllPermitted(env, ApplyAll(st, vs), ws)
    decreases vs
  {
    hide Permitted, Apply;
    if vs == [] {
      assert vs + ws == ws;
    } else {
      assert (vs + ws)[1..] == vs[1..] + ws;
      PermittedConcat(env, Apply(st, vs[0]), vs[1..], ws);
    }
  }

  // ---- Each write keeps the invariant ---------------------------------------------------------

  /** Held sequences stay held when receipts only move into the archive. */
  lemma HeldKept(st: State, st': State, g: SafeInt, x: int)
    requires Held(st, g, x)
    requires forall k | k in st.archive :: k in st'.archive && st'.archive[k] == st.archive[k]
    requires st.receipt.None? || st'.receipt == st.receipt || Archived(st', st.receipt.value) || st.receipt.value.items == []
    ensures Held(st', g, x)
  {
    hide Holds, WellReviewed;
    if k :| k in st.archive && k.generation == g && Holds(st.archive[k], x) {
      assert k in st'.archive;
    } else if st.receipt.value.items == [] {
      NothingHeld(st.receipt.value, x);
    } else if st'.receipt != st.receipt {
      assert KeyOf(st.receipt.value) in st'.archive;
    }
  }

  lemma NothingHeld(r: Receipt, x: int)
    requires r.items == []
    ensures !Holds(r, x)
  {
  }

  lemma KeepsSkipped(t: Trace, st': State)
    requires NothingSkipped(t)
    requires Cursor(st') == Cursor(t.st) && (Generation(t.st).Some? ==> Generation(st') == Generation(t.st))
    requires forall k | k in t.st.archive :: k in st'.archive && st'.archive[k] == t.st.archive[k]
    requires t.st.receipt.None? || st'.receipt == t.st.receipt || Archived(st', t.st.receipt.value) || t.st.receipt.value.items == []
    ensures NothingSkipped(Trace(st', t.origin))
  {
    hide Held, Archived;
    if t.origin.Some? {
      forall x | t.origin.value <= x <= Cursor(st')
        ensures Held(st', Generation(st').value, x)
      {
        HeldKept(t.st, st', Generation(t.st).value, x);
      }
    }
  }

  /** The cursor moves only past messages of the receipt that vouches for them. */
  lemma AcknowledgeKeeps(env: Env, t: Trace, m: Mark)
    requires Inv(env, t) && Permitted(env, t.st, Acknowledge(m))
    ensures Inv(env, Advance(t, Acknowledge(m)))
    ensures var t' := Advance(t, Acknowledge(m)); t'.st.batch.Some? && Acked(env, t'.st, t'.st.batch.value)
    ensures Cursor(t.st) <= m.cursor && (Generation(t.st).Some? ==> m.generation == Generation(t.st))
  {
    hide Holds, OneToOne, WellReviewed, Replays, HeaderAccepted, ReviewMessages, Held;
    var st, st', b, r := t.st, Advance(t, Acknowledge(m)).st, t.st.batch.value, t.st.receipt.value;
    ValidatedIsContiguous(env, b);
    AckFacts(env, st, m, b, r);
    AcknowledgedHeld(t, m, r);
  }

  lemma AckFacts(env: Env, st: State, m: Mark, b: Batch, r: Receipt)
    requires st.batch == Some(b) && st.receipt == Some(r)
    requires Permitted(env, st, Acknowledge(m)) && ArchiveSound(st) && (Fresh(st, b) || Acked(env, st, b))
    ensures ValidateBatch(env, b) == Some(r) && WellReviewed(r)
    ensures m == Mark(Some(r.generation), r.proposed)
    ensures Cursor(st) <= m.cursor && (Generation(st).Some? ==> Generation(st) == Some(r.generation))
    ensures r.starting == Cursor(st) || (r.proposed == Cursor(st) && Generation(st) == Some(r.generation))
    ensures ArchiveSound(Apply(st, Acknowledge(m))) && Acked(env, Apply(st, Acknowledge(m)), b)
  {
    hide WellReviewed, Replays, HeaderAccepted, ReviewMessages;
    ValidatedIsContiguous(env, b);
  }

  lemma AcknowledgedHeld(t: Trace, m: Mark, r: Receipt)
    requires NothingSkipped(t) && t.st.receipt == Some(r) && WellReviewed(r) && r.items != []
    requires m == Mark(Some(r.generation), r.proposed) && Cursor(t.st) <= m.cursor
    requires Generation(t.st).Some? ==> Generation(t.st) == Some(r.generation)
    requires r.starting == Cursor(t.st) || (r.proposed == Cursor(t.st) && Generation(t.st) == Some(r.generation))
    ensures NothingSkipped(Advance(t, Acknowledge(m)))
  {
    hide Holds, Held;
    var t' := Advance(t, Acknowledge(m));
    var o, first := t'.origin.value, r.proposed - |r.items| + 1;
    assert r.items[0].sequence == first;
    forall x | o <= x <= r.proposed
      ensures Held(t'.st, r.generation, x)
    {
      HoldsRange(r, x);
      if x >= first {
        LiveIsHeld(t'.st, r, x);
      } else {
        HeldKept(t.st, t'.st, r.generation, x);
      }
    }
  }

  lemma LiveIsHeld(st: State, r: Receipt, x: int)
    requires st.receipt == Some(r) && Holds(r, x)
    ensures Held(st, r.generation, x)
  {
  }

  lemma SelfAgrees(r: Receipt)
    requires WellReviewed(r)
    ensures Agree(r, r)
  {
  }

  /** Later ranges do not meet earlier ones, and the replay check excludes shared signatures. */
  lemma LaterAgrees(r: Receipt, s: Receipt)
    requires WellReviewed(r) && WellReviewed(s) && s.proposed <= r.starting && !SharesSignature(r, s)
    ensures Agree(r, s) && Agree(s, r)
  {
    forall i, j | 0 <= i < |r.items| && 0 <= j < |s.items|
      ensures r.items[i].sequence != s.items[j].sequence && r.items[i].signature != s.items[j].signature
    {
      assert r.items[i].sequence > s.items[j].sequence;
    }
  }

  lemma ArchiveKeeps(env: Env, t: Trace, r: Receipt)
    requires Inv(env, t) && Permitted(env, t.st, ArchiveReceipt(r))
    ensures Inv(env, Advance(t, ArchiveReceipt(r)))
  {
    hide WellReviewed, HeaderAccepted, ReviewMessages, Agree, SharesSignature, Holds, Held;
    var st, st' := t.st, Apply(t.st, ArchiveReceipt(r));
    ValidatedIsContiguous(env, st.batch.value);
    SelfAgrees(r);
    forall k | k in st.archive && k.generation == r.generation
      ensures Agree(r, st.archive[k]) && Agree(st.archive[k], r)
    {
      LaterAgrees(r, st.archive[k]);
    }
    KeepsSkipped(t, st');
  }

  /** No write breaks the invariant in a state where a script may perform it. */
  lemma WriteKeeps(env: Env, t: Trace, w: Write)
    requires Inv(env, t) && Permitted(env, t.st, w)
    ensures Inv(env, Advance(t, w))
  {
    hide WellReviewed, OneToOne, NothingSkipped, ValidateBatch, Review, Held;
    match w
    case Acknowledge(m) => AcknowledgeKeeps(env, t, m);
    case ArchiveReceipt(r) => ArchiveKeeps(env, t, r);
    case Adopt(m) => OriginForgotten(Advance(t, w));
    case _ => KeepsSkipped(t, Apply(t.st, w));
  }

  lemma OriginForgotten(t: Trace)
    requires t.origin == None
    ensures NothingSkipped(t)
  {
  }

  lemma {:induction false} WritesKeep(env: Env, t: Trace, ws: seq<Write>, cut: nat)
    requires Inv(env, t) && AllPermitted(env, t.st, ws)
    ensures Inv(env, AdvanceAll(t, ws, cut)) && AdvanceAll(t, ws, cut).st == After(t.st, ws, cut)
    decreases ws
  {
    hide Inv, Permitted, NewOrigin, Apply;
    if ws != [] && cut > 0 {
      WriteKeeps(env, t, ws[0]);
      WritesKeep(env, Advance(t, ws[0]), ws[1..], cut - 1);
    }
  }
}
