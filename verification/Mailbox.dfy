/** The private mailbox files, the atomic writes that change them, and the review of one
    saved batch. */
module Mailbox {
  import opened Wrappers
  import opened Json
  import Frames
  import Spelling
  import Transport
  import opened Base64Url

  const MAX_MESSAGES: nat := 200
  const MAX_NONCE: nat := 9_999_999_999_999_999_999

  type SafeInt = n: int | 0 <= n <= Frames.MAX_SAFE_INTEGER

  // A polled message; `nonce` is None for anything but an integer, `sig` for an absent field.
  datatype Message = Message(
    sequence: SafeInt, sender: Text, ts: Text, nonce: Option<int>, text: Text, sig: Option<Text>)

  // The poller's output, which becomes the saved batch.
  datatype Batch = Batch(
    generation: Option<SafeInt>, starting: SafeInt, proposed: SafeInt, count: int,
    first: Option<SafeInt>, last: SafeInt, messages: seq<Message>)

  // One message with its content hashed away.
  datatype Reviewed = Reviewed(sequence: SafeInt, sender: Text, message: Text, envelope: Text, signature: Text, url: bool)

  datatype Receipt = Receipt(
    generation: SafeInt, starting: SafeInt, proposed: SafeInt, digest: Text, urls: nat, items: seq<Reviewed>)

  // Contents of the cursor and pending files.
  datatype Mark = Mark(generation: Option<SafeInt>, cursor: SafeInt)

  // The name of an archived receipt.
  datatype Key = Key(generation: SafeInt, cursor: SafeInt)

  // Oracles: a saved batch of at most 2 MiB, text without invisible characters, the verifier's answer
  // for a room, nonce, text, sender and signature, SHA-256, URL search.
  datatype Env = Env(
    mailbox: Text,
    fits: Batch -> bool,
    visible: Text -> bool,
    verified: (Text, int, Text, Text, Text) -> bool,
    sha: Text -> Text,
    url: Text -> bool,
    batchDigest: (SafeInt, SafeInt, SafeInt, seq<Reviewed>) -> Text)

  // ---- Durable state -----------------------------------------------------------------------

  datatype State = State(
    cursor: Option<Mark>, pending: Option<Mark>, batch: Option<Batch>, receipt: Option<Receipt>,
    archive: map<Key, Receipt>, halt: bool)

  function Cursor(st: State): SafeInt {
    match st.cursor case None => 0 case Some(m) => m.cursor
  }

  function Generation(st: State): Option<SafeInt> {
    match st.cursor case None => None case Some(m) => m.generation
  }

  function KeyOf(r: Receipt): Key {
    Key(r.generation, r.proposed)
  }

  // One rename, unlink or link. The cursor file is replaced for three reasons: the poller
  // learns the generation, a reviewed batch is acknowledged, an operator adopts a generation.
  datatype Write =
    | RecordGeneration(mark: Mark) | Acknowledge(mark: Mark) | Adopt(mark: Mark)
    | SetPending(mark: Mark) | ClearPending
    | SaveBatch(batch: Batch) | ClearBatch
    | SaveReceipt(receipt: Receipt) | ClearReceipt | ArchiveReceipt(receipt: Receipt)
    | SetHalt | ClearHalt

  function Apply(st: State, w: Write): State {
    match w
    case RecordGeneration(m) => st.(cursor := Some(m))
    case Acknowledge(m) => st.(cursor := Some(m))
    case Adopt(m) => st.(cursor := Some(m))
    case SetPending(m) => st.(pending := Some(m))
    case ClearPending => st.(pending := None)
    case SaveBatch(b) => st.(batch := Some(b))
    case ClearBatch => st.(batch := None)
    case SaveReceipt(r) => st.(receipt := Some(r))
    case ClearReceipt => st.(receipt := None)
    case ArchiveReceipt(r) => st.(archive := st.archive[KeyOf(r) := r], receipt := None)
    case SetHalt => st.(halt := true)
    case ClearHalt => st.(halt := false)
  }

  /** The state left when a crash allows only the first `cut` writes. */
  function After(st: State, ws: seq<Write>, cut: nat): State
    decreases ws
  {
    if ws == [] || cut == 0 then st else After(Apply(st, ws[0]), ws[1..], cut - 1)
  }

  function ApplyAll(st: State, ws: seq<Write>): State {
    After(st, ws, |ws|)
  }

  lemma {:induction false} AfterConcat(st: State, vs: seq<Write>, ws: seq<Write>, cut: nat)
    ensures After(st, vs + ws, cut)
            == if cut <= |vs| then After(st, vs, cut) else After(ApplyAll(st, vs), ws, cut - |vs|)
    decreases vs
  {
    if vs == [] {
      assert vs + ws == ws;
    } else if cut > 0 {
      assert (vs + ws)[1..] == vs[1..] + ws;
      AfterConcat(Apply(st, vs[0]), vs[1..], ws, cut - 1);
    }
  }

  lemma {:induction false} AfterEnough(st: State, ws: seq<Write>, cut: nat)
    requires cut >= |ws|
    ensures After(st, ws, cut) == ApplyAll(st, ws)
    decreases ws
  {
    if ws != [] { AfterEnough(Apply(st, ws[0]), ws[1..], cut - 1); }
  }

  lemma AfterNothing(st: State, cut: nat)
    ensures After(st, [], cut) == st
  {
  }

  lemma AfterOne(st: State, w: Write, cut: nat)
    ensures After(st, [w], cut) == if cut == 0 then st else Apply(st, w)
  {
    assert [w][1..] == [];
  }

  lemma AfterTwo(st: State, v: Write, w: Write, cut: nat)
    ensures After(st, [v, w], cut) == if cut == 0 then st else if cut == 1 then Apply(st, v) else Apply(Apply(st, v), w)
  {
    assert [v, w][1..] == [w];
    if cut > 0 { AfterOne(Apply(st, v), w, cut - 1); }
  }

  lemma AfterFour(st: State, v: Write, w: Write, x: Write, y: Write, cut: nat)
    ensures After(st, [v, w] + [x, y], cut)
            == if cut <= 2 then After(st, [v, w], cut) else After(Apply(Apply(st, v), w), [x, y], cut - 2)
  {
    AfterConcat(st, [v, w], [x, y], cut);
    AfterTwo(st, v, w, 2);
  }

  // ---- Review of a saved batch ----------------------------------------------------------------

  datatype Progress = Progress(previous: SafeInt, seen: set<Text>, items: seq<Reviewed>)

  function ReviewedOf(env: Env, m: Message): Reviewed
    requires m.sig.Some? && m.nonce.Some?
  {
    var envelope := Transport.Challenge(env.mailbox, m.nonce.value, m.text);
    Reviewed(m.sequence, env.sha(m.sender), env.sha(m.text), env.sha(envelope), env.sha(m.sig.value), env.url(m.text))
  }

  predicate MessageAccepted(env: Env, b: Batch, p: Progress, i: nat, m: Message) {
    && p.previous < m.sequence <= b.proposed
    && ((i == 0 && b.starting == 0) || m.sequence == p.previous + 1)
    && Frames.IsDid(m.sender)
    && 1 <= |m.ts| <= 64
    && m.nonce.Some? && 0 <= m.nonce.value <= MAX_NONCE
    && 1 <= |m.text| <= Frames.MAX_CHARS && env.visible(m.text)
    && m.sig.Some? && FastCanonical(m.sig.value) && env.verified(env.mailbox, m.nonce.value, m.text, m.sender, m.sig.value)
    && env.sha(m.sig.value) !in p.seen
  }

  function ReviewMessages(env: Env, b: Batch, n: nat): Option<Progress>
    requires n <= |b.messages|
  {
    if n == 0 then Some(Progress(b.starting, {}, []))
    else
      var p :- ReviewMessages(env, b, n - 1);
      var m := b.messages[n - 1];
      if MessageAccepted(env, b, p, n - 1, m)
      then Some(Progress(m.sequence, p.seen + {env.sha(m.sig.value)}, p.items + [ReviewedOf(env, m)]))
      else None
  }

  predicate HeaderAccepted(b: Batch) {
    && b.generation.Some?
    && |b.messages| <= MAX_MESSAGES && b.count == |b.messages|
    && b.proposed == b.last && b.proposed >= b.starting
    && (if b.messages != [] then b.first == Some(b.messages[0].sequence)
        else b.first == None && b.proposed == b.starting)
  }

  function UrlCount(items: seq<Reviewed>): nat {
    if items == [] then 0 else UrlCount(items[..|items| - 1]) + if items[|items| - 1].url then 1 else 0
  }

  function MakeReceipt(env: Env, b: Batch, items: seq<Reviewed>): Receipt
    requires b.generation.Some?
  {
    var g := b.generation.value;
    Receipt(g, b.starting, b.proposed, env.batchDigest(g, b.starting, b.proposed, items), UrlCount(items), items)
  }

  /** validate_batch; None where it fails. */
  function ValidateBatch(env: Env, b: Batch): Option<Receipt> {
    if !HeaderAccepted(b) then None
    else
      var p :- ReviewMessages(env, b, |b.messages|);
      if b.messages != [] && p.previous != b.proposed then None else Some(MakeReceipt(env, b, p.items))
  }

  /** Some archived receipt of the same generation holds a signature of `r` at another sequence. */
  predicate Replays(r: Receipt, archive: map<Key, Receipt>) {
    exists k | k in archive :: archive[k].generation == r.generation && SharesSignature(r, archive[k])
  }

  predicate SharesSignature(r: Receipt, old': Receipt) {
    exists i, j | 0 <= i < |r.items| && 0 <= j < |old'.items| ::
      r.items[i].signature == old'.items[j].signature && r.items[i].sequence != old'.items[j].sequence
  }

  /** The size limit on the saved file, validate_batch, then reject_historical_replays. */
  function Review(env: Env, b: Batch, archive: map<Key, Receipt>): Option<Receipt> {
    if !env.fits(b) then None
    else
      var r :- ValidateBatch(env, b);
      if Replays(r, archive) then None else Some(r)
  }

  method ValidateBatchLoop(env: Env, b: Batch) returns (result: Option<Receipt>)
    ensures result == ValidateBatch(env, b)
  {
    hide MessageAccepted, ReviewedOf;
    if !HeaderAccepted(b) {
      return None;
    }
    var reviewed: seq<Reviewed> := [];
    var previous := b.starting;
    var seen: set<Text> := {};
    for index := 0 to |b.messages|
      invariant ReviewMessages(env, b, index) == Some(Progress(previous, seen, reviewed))
    {
      var m := b.messages[index];
      if !MessageAccepted(env, b, Progress(previous, seen, reviewed), index, m) {
        ReviewStaysNone(env, b, index + 1, |b.messages|);
        return None;
      }
      AcceptedIsSigned(env, b, Progress(previous, seen, reviewed), index, m);
      seen := seen + {env.sha(m.sig.value)};
      reviewed := reviewed + [ReviewedOf(env, m)];
      previous := m.sequence;
    }
    if b.messages != [] && previous != b.proposed {
      return None;
    }
    return Some(MakeReceipt(env, b, reviewed));
  }

  predicate Distinct(items: seq<Reviewed>) {
    forall i, j | 0 <= i < j < |items| :: items[i].signature != items[j].signature
  }

  predicate Signed(items: seq<Reviewed>, s: Text) {
    exists i :: 0 <= i < |items| && items[i].signature == s
  }

  /** The signatures of a receipt with their sequences. */
  predicate Indexes(current: map<Text, SafeInt>, items: seq<Reviewed>) {
    && (forall i | 0 <= i < |items| :: items[i].signature in current && current[items[i].signature] == items[i].sequence)
    && (forall s | s in current :: Signed(items, s))
  }

  method IndexLoop(items: seq<Reviewed>) returns (current: map<Text, SafeInt>)
    requires Distinct(items)
    ensures Indexes(current, items)
  {
    current := map[];
    for n := 0 to |items|
      invariant Indexes(current, items[..n])
    {
      current := current[items[n].signature := items[n].sequence];
      forall s | s in current
        ensures Signed(items[..n + 1], s)
      {
        if s == items[n].signature {
          assert items[..n + 1][n].signature == s;
        } else {
          var i :| 0 <= i < |items[..n]| && items[..n][i].signature == s;
          assert items[..n + 1][i].signature == s;
        }
      }
    }
    assert items[..|items|] == items;
  }

  lemma SharingByIndex(r: Receipt, current: map<Text, SafeInt>, old': Receipt)
    requires Indexes(current, r.items)
    ensures SharesSignature(r, old') <==>
            exists j :: 0 <= j < |old'.items| && old'.items[j].signature in current
                        && current[old'.items[j].signature] != old'.items[j].sequence
  {
    if j :| 0 <= j < |old'.items| && old'.items[j].signature in current
            && current[old'.items[j].signature] != old'.items[j].sequence {
      assert Signed(r.items, old'.items[j].signature);
      var i :| 0 <= i < |r.items| && r.items[i].signature == old'.items[j].signature;
    }
  }

  /** The scan of the history directory, in whatever order it lists its files. */
  method ReplaysLoop(r: Receipt, archive: map<Key, Receipt>) returns (found: bool)
    requires Distinct(r.items)
    ensures found == Replays(r, archive)
  {
    hide SharesSignature;
    var current := IndexLoop(r.items);
    var files := archive.Keys;
    while files != {}
      invariant files <= archive.Keys
      invariant forall k | k in archive && k !in files :: !(archive[k].generation == r.generation && SharesSignature(r, archive[k]))
    {
      var k :| k in files;
      files := files - {k};
      var past := archive[k];
      SharingByIndex(r, current, past);
      if past.generation == r.generation {
        for j := 0 to |past.items|
          invariant forall i | 0 <= i < j ::
            past.items[i].signature in current ==> current[past.items[i].signature] == past.items[i].sequence
        {
          if past.items[j].signature in current && current[past.items[j].signature] != past.items[j].sequence {
            return true;
          }
        }
      }
    }
    return false;
  }

  method ReviewBatch(env: Env, b: Batch, archive: map<Key, Receipt>) returns (result: Option<Receipt>)
    ensures result == Review(env, b, archive)
  {
    hide ReviewMessages, Replays;
    if !env.fits(b) {
      return None;
    }
    var receipt := ValidateBatchLoop(env, b);
    if receipt.None? {
      return None;
    }
    ValidatedIsContiguous(env, b);
    var replayed := ReplaysLoop(receipt.value, archive);
    return if replayed then None else receipt;
  }

  lemma AcceptedIsSigned(env: Env, b: Batch, p: Progress, i: nat, m: Message)
    requires MessageAccepted(env, b, p, i, m)
    ensures m.sig.Some? && m.nonce.Some?
  {
  }

  lemma {:induction false} ReviewStaysNone(env: Env, b: Batch, m: nat, n: nat)
    requires m <= n <= |b.messages| && ReviewMessages(env, b, m) == None
    ensures ReviewMessages(env, b, n) == None
    decreases n
  {
    hide MessageAccepted, ReviewedOf;
    if m < n { ReviewStaysNone(env, b, m, n - 1); }
  }

  // ---- What a receipt vouches for ---------------------------------------------------------------

  /** Items run without a gap to the proposed cursor, from the message after the starting
      cursor (from the first message ever when nothing was read before); no signature repeats. */
  predicate WellReviewed(r: Receipt) {
    && (forall i | 0 <= i < |r.items| :: r.items[i].sequence == r.proposed - |r.items| + 1 + i)
    && r.starting <= r.proposed - |r.items|
    && (r.starting > 0 || r.items == [] ==> r.starting == r.proposed - |r.items|)
    && Distinct(r.items)
  }

  lemma {:induction false} ReviewProgress(env: Env, b: Batch, n: nat)
    requires n <= |b.messages| && ReviewMessages(env, b, n).Some?
    ensures var p := ReviewMessages(env, b, n).value;
            && |p.items| == n && b.starting <= p.previous - n
            && (b.starting > 0 || n == 0 ==> b.starting == p.previous - n)
            && (forall i | 0 <= i < n :: p.items[i].sequence == p.previous - n + 1 + i)
            && (forall i | 0 <= i < n :: p.items[i].signature in p.seen)
            && (forall i, j | 0 <= i < j < n :: p.items[i].signature != p.items[j].signature)
  {
    hide FastCanonical, Frames.IsDid;
    if n > 0 { ReviewProgress(env, b, n - 1); }
  }

  /** The poller tolerates gaps; a validated batch has none. */
  lemma ValidatedIsContiguous(env: Env, b: Batch)
    requires ValidateBatch(env, b).Some?
    ensures var r := ValidateBatch(env, b).value;
            && WellReviewed(r) && |r.items| == |b.messages|
            && Some(r.generation) == b.generation && r.starting == b.starting && r.proposed == b.proposed
            && (r.items == [] <==> r.starting == r.proposed)
  {
    ReviewProgress(env, b, |b.messages|);
  }

  /** What the review asks of a message by itself. */
  predicate Wellformed(env: Env, m: Message) {
    && Frames.IsDid(m.sender) && 1 <= |m.ts| <= 64
    && m.nonce.Some? && 0 <= m.nonce.value <= 9_999_999_999_999_999_999
    && 1 <= |m.text| <= 4096 && env.visible(m.text)
    && m.sig.Some? && FastCanonical(m.sig.value)
    && env.verified(env.mailbox, m.nonce.value, m.text, m.sender, m.sig.value)
  }

  /** Message i continues the batch at position i; only a first-ever message may start anywhere. */
  predicate InSequence(b: Batch, i: nat)
    requires i < |b.messages|
  {
    && b.messages[i].sequence <= b.proposed
    && (if i > 0 then b.messages[i].sequence == b.messages[i - 1].sequence + 1
        else b.messages[0].sequence > b.starting && (b.starting > 0 ==> b.messages[0].sequence == b.starting + 1))
  }

  predicate MessagesFine(env: Env, b: Batch, n: nat)
    requires n <= |b.messages|
  {
    && (forall i: nat | i < n :: Wellformed(env, b.messages[i]) && InSequence(b, i))
    && (forall i: nat, j: nat | i < j < n && b.messages[i].sig.Some? && b.messages[j].sig.Some? ::
          env.sha(b.messages[i].sig.value) != env.sha(b.messages[j].sig.value))
  }

  /** No earlier message carries this signature hash. */
  predicate NewSignature(env: Env, b: Batch, n: nat)
    requires n < |b.messages|
  {
    forall i: nat | i < n && b.messages[i].sig.Some? && b.messages[n].sig.Some? ::
      env.sha(b.messages[i].sig.value) != env.sha(b.messages[n].sig.value)
  }

  lemma FineStep(env: Env, b: Batch, n: nat)
    requires n < |b.messages|
    ensures MessagesFine(env, b, n + 1)
            <==> MessagesFine(env, b, n) && Wellformed(env, b.messages[n]) && InSequence(b, n) && NewSignature(env, b, n)
  {
    hide Wellformed, InSequence;
  }

  /** The state of the review loop after n fine messages. */
  predicate Reviewing(env: Env, b: Batch, p: Progress, n: nat)
    requires n <= |b.messages|
  {
    && p.previous == (if n == 0 then b.starting else b.messages[n - 1].sequence) && |p.items| == n
    && (forall i: nat | i < n :: b.messages[i].sig.Some? && b.messages[i].nonce.Some? && p.items[i] == ReviewedOf(env, b.messages[i]))
    && (forall s | s in p.seen :: exists i: nat :: i < n && env.sha(b.messages[i].sig.value) == s)
    && (forall i: nat | i < n :: env.sha(b.messages[i].sig.value) in p.seen)
  }

  lemma AcceptedIff(env: Env, b: Batch, p: Progress, n: nat)
    requires n < |b.messages| && Reviewing(env, b, p, n)
    ensures MessageAccepted(env, b, p, n, b.messages[n])
            <==> Wellformed(env, b.messages[n]) && InSequence(b, n) && NewSignature(env, b, n)
  {
    hide FastCanonical, Frames.IsDid, ReviewedOf;
  }

  lemma ReviewingStep(env: Env, b: Batch, p: Progress, n: nat)
    requires n < |b.messages| && Reviewing(env, b, p, n) && b.messages[n].sig.Some? && b.messages[n].nonce.Some?
    ensures var m := b.messages[n];
            Reviewing(env, b, Progress(m.sequence, p.seen + {env.sha(m.sig.value)}, p.items + [ReviewedOf(env, m)]), n + 1)
  {
    hide ReviewedOf;
  }

  lemma {:induction false} ReviewAccepts(env: Env, b: Batch, n: nat)
    requires n <= |b.messages|
    ensures ReviewMessages(env, b, n).Some? <==> MessagesFine(env, b, n)
    ensures MessagesFine(env, b, n) ==> Reviewing(env, b, ReviewMessages(env, b, n).value, n)
  {
    hide MessageAccepted, MessagesFine, Reviewing, Wellformed, InSequence, NewSignature, ReviewedOf;
    if n > 0 {
      ReviewAccepts(env, b, n - 1);
      FineStep(env, b, n - 1);
      if ReviewMessages(env, b, n - 1).Some? {
        var p := ReviewMessages(env, b, n - 1).value;
        AcceptedIff(env, b, p, n - 1);
        if MessagesFine(env, b, n) {
          AcceptedIsSigned(env, b, p, n - 1, b.messages[n - 1]);
          ReviewingStep(env, b, p, n - 1);
        }
      }
    } else {
      NothingReviewed(env, b);
    }
  }

  lemma NothingReviewed(env: Env, b: Batch)
    ensures MessagesFine(env, b, 0) && Reviewing(env, b, Progress(b.starting, {}, []), 0)
  {
  }

  /** The positions of the items with a URL. */
  function WithUrl(items: seq<Reviewed>): set<nat> {
    set i: nat | i < |items| && items[i].url
  }

  lemma {:induction false} UrlsCounted(items: seq<Reviewed>)
    ensures UrlCount(items) == |WithUrl(items)|
  {
    if items == [] {
      assert WithUrl(items) == {};
    } else {
      var last: nat := |items| - 1;
      UrlsCounted(items[..last]);
      var before := WithUrl(items[..last]);
      assert WithUrl(items) == if items[last].url then before + {last} else before;
      assert last !in before;
    }
  }

  /** The header of a batch agrees with its messages, which are numbered without a gap from the
      message after the starting cursor (from any first message ever) to the proposed cursor. */
  predicate Consecutive(b: Batch) {
    var ms := b.messages;
    && b.generation != None && b.count == |ms| && |ms| <= 200 && b.last == b.proposed
    && (if ms == [] then b.first == None && b.proposed == b.starting
        else
          && b.first == Some(ms[0].sequence) && ms[|ms| - 1].sequence == b.proposed
          && b.starting < ms[0].sequence && (b.starting > 0 ==> ms[0].sequence == b.starting + 1)
          && forall i: nat | i < |ms| :: ms[i].sequence == ms[0].sequence + i)
  }

  lemma {:induction false} RunsOn(b: Batch, n: nat)
    requires n < |b.messages| && forall i: nat | i < |b.messages| :: InSequence(b, i)
    ensures b.messages[n].sequence == b.messages[0].sequence + n
  {
    assert InSequence(b, n);
    if n > 0 { RunsOn(b, n - 1); }
  }

  lemma ConsecutiveExactly(b: Batch)
    ensures Consecutive(b) <==>
              && HeaderAccepted(b) && (forall i: nat | i < |b.messages| :: InSequence(b, i))
              && (b.messages != [] ==> b.messages[|b.messages| - 1].sequence == b.proposed)
  {
    var ms := b.messages;
    if ms != [] && forall i: nat | i < |ms| :: InSequence(b, i) {
      assert InSequence(b, 0);
      forall i: nat | i < |ms|
        ensures ms[i].sequence == ms[0].sequence + i
      {
        RunsOn(b, i);
      }
    }
    if ms != [] && Consecutive(b) {
      forall i: nat | i < |ms|
        ensures InSequence(b, i)
      {
        assert ms[|ms| - 1].sequence == ms[0].sequence + (|ms| - 1);
      }
    }
  }

  /** What the receipt keeps of a message: its number and the hashes of its sender, its text, the
      signed text and its signature. */
  predicate Hashes(env: Env, m: Message, item: Reviewed) {
    && item.sequence == m.sequence && item.sender == env.sha(m.sender) && item.message == env.sha(m.text)
    && m.nonce.Some? && m.sig.Some? && item.signature == env.sha(m.sig.value) && item.url == env.url(m.text)
    && item.envelope == env.sha(env.mailbox + Lit("|") + Spelling.Number(m.nonce.value) + Lit("|") + m.text)
  }

  lemma ReviewedHashes(env: Env, m: Message)
    requires m.sig.Some? && m.nonce.Some?
    ensures Hashes(env, m, ReviewedOf(env, m))
  {
    hide Transport.Challenge, Lit, Spelling.Number;
    Transport.ChallengeSpelled(env.mailbox, m.nonce.value, m.text);
  }

  /** A batch is validated exactly when it is consecutive, every message is well formed and signed,
      and no signature repeats. */
  lemma ValidatedExactly(env: Env, b: Batch)
    ensures ValidateBatch(env, b).Some? <==>
              && Consecutive(b) && (forall i: nat | i < |b.messages| :: Wellformed(env, b.messages[i]))
              && forall i: nat, j: nat | i < j < |b.messages| && b.messages[i].sig.Some? && b.messages[j].sig.Some? ::
                   env.sha(b.messages[i].sig.value) != env.sha(b.messages[j].sig.value)
  {
    hide ReviewMessages, ReviewedOf, Reviewing, Wellformed, HeaderAccepted, Consecutive, InSequence;
    ConsecutiveExactly(b);
    ReviewAccepts(env, b, |b.messages|);
    ReviewEnds(env, b);
  }

  lemma ReviewEnds(env: Env, b: Batch)
    requires ReviewMessages(env, b, |b.messages|).Some? ==> Reviewing(env, b, ReviewMessages(env, b, |b.messages|).value, |b.messages|)
    ensures ReviewMessages(env, b, |b.messages|).Some? && b.messages != [] ==>
              ReviewMessages(env, b, |b.messages|).value.previous == b.messages[|b.messages| - 1].sequence
  {
    hide ReviewMessages, ReviewedOf;
  }

  lemma ReceiptHeader(env: Env, b: Batch)
    requires ValidateBatch(env, b).Some?
    ensures var r := ValidateBatch(env, b).value;
            && Some(r.generation) == b.generation && r.starting == b.starting && r.proposed == b.proposed
            && r.digest == env.batchDigest(r.generation, r.starting, r.proposed, r.items) && r.urls == UrlCount(r.items)
            && ReviewMessages(env, b, |b.messages|).Some? && r.items == ReviewMessages(env, b, |b.messages|).value.items
  {
    hide ReviewMessages, UrlCount;
  }

  lemma ReceiptItems(env: Env, b: Batch)
    requires ValidateBatch(env, b).Some?
    ensures var r, ms := ValidateBatch(env, b).value, b.messages;
            |r.items| == |ms| && forall i: nat | i < |ms| :: Hashes(env, ms[i], r.items[i])
  {
    hide ReviewMessages, ReviewedOf, Hashes, ValidateBatch, MessagesFine;
    ReceiptHeader(env, b);
    ReviewAccepts(env, b, |b.messages|);
    forall i: nat | i < |b.messages|
      ensures Hashes(env, b.messages[i], ValidateBatch(env, b).value.items[i])
    {
      ReviewedHashes(env, b.messages[i]);
    }
  }

  /** The receipt carries the header of the batch, hashes every message in order and counts the
      messages with a URL. */
  lemma ReceiptExactly(env: Env, b: Batch)
    requires ValidateBatch(env, b).Some?
    ensures var r, ms := ValidateBatch(env, b).value, b.messages;
            && Some(r.generation) == b.generation && r.starting == b.starting && r.proposed == b.proposed
            && r.digest == env.batchDigest(r.generation, r.starting, r.proposed, r.items)
            && |r.items| == |ms| && (forall i: nat | i < |ms| :: Hashes(env, ms[i], r.items[i]))
            && r.urls == |set i: nat | i < |ms| && env.url(ms[i].text)|
  {
    hide ValidateBatch, Hashes, UrlCount;
    ReceiptHeader(env, b);
    ReceiptItems(env, b);
    var r, ms := ValidateBatch(env, b).value, b.messages;
    forall i: nat | i < |ms|
      ensures r.items[i].url == env.url(ms[i].text)
    {
      HashesUrl(env, ms[i], r.items[i]);
    }
    UrlsCounted(r.items);
    assert WithUrl(r.items) == set i: nat | i < |ms| && env.url(ms[i].text);
  }

  lemma HashesUrl(env: Env, m: Message, item: Reviewed)
    requires Hashes(env, m, item)
    ensures item.url == env.url(m.text)
  {
  }

  /** A saved batch passes the review with receipt r exactly when the file is small enough, r is its
      receipt, and no archived receipt of the same generation has one of its signatures at another number. */
  lemma ReviewExactly(env: Env, b: Batch, archive: map<Key, Receipt>, r: Receipt)
    ensures Review(env, b, archive) == Some(r) <==>
              && env.fits(b) && ValidateBatch(env, b) == Some(r)
              && forall k, i, j | k in archive && archive[k].generation == r.generation
                   && 0 <= i < |r.items| && 0 <= j < |archive[k].items| && r.items[i].signature == archive[k].items[j].signature ::
                     r.items[i].sequence == archive[k].items[j].sequence
  {
    hide ValidateBatch;
  }

  /** The sequences a receipt accounts for. */
  predicate Holds(r: Receipt, x: int) {
    exists i :: 0 <= i < |r.items| && r.items[i].sequence == x
  }

  lemma HoldsRange(r: Receipt, x: int)
    requires WellReviewed(r)
    ensures Holds(r, x) <==> r.proposed - |r.items| < x <= r.proposed
  {
    if r.proposed - |r.items| < x <= r.proposed {
      assert r.items[x - (r.proposed - |r.items| + 1)].sequence == x;
    }
  }
}
