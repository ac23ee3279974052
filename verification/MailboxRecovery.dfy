/** Which crashes of an acknowledgement can be finished, which leave a safe but stuck mailbox,
    when a review and an acknowledgement make progress, and how the fetcher waits for a human. */
module MailboxRecovery {
  import opened Wrappers
  import opened Json
  import opened Base64Url
  import opened Mailbox
  import opened MailboxScripts
  import opened MailboxInvariant
  import opened MailboxRuns

  // ---- Crashes inside an acknowledgement -----------------------------------------------------

  /** A batch the cursor has already reached, with no pending file that could acknowledge it again. */
  predicate Stuck(env: Env, st: State) {
    && st.batch.Some? && ValidateBatch(env, st.batch.value).Some?
    && var r := ValidateBatch(env, st.batch.value).value;
    && r.items != [] && r.proposed <= Cursor(st)
    && (st.pending == None || st.pending.value.cursor > r.proposed)
  }

  /** Cut before the pending file goes, the acknowledgement can be repeated to the same end;
      cut after it and before the batch goes, the mailbox is stuck. */
  lemma AckCrashes(env: Env, st: State, cut: nat)
    requires AckPlan(env, st).exit == Done
    ensures var ws, r := AckPlan(env, st).writes, st.receipt.value;
            var mid, end := After(st, ws, cut), ApplyAll(st, ws);
            && (cut <= 1 ==> AckPlan(env, mid).exit == Done && ApplyAll(mid, AckPlan(env, mid).writes) == end)
            && (2 <= cut <= 3 ==> Stuck(env, mid) && Cursor(mid) == r.proposed)
            && (4 <= cut ==> mid == end)
            && Cursor(end) == r.proposed && Archived(end, r)
            && end.batch == None && end.pending == None && end.receipt == None
  {
    hide ValidateBatch, Replays, After;
    AckStates(env, st, cut);
    AckStates(env, st, 4);
    if cut == 1 { AckStates(env, After(st, AckPlan(env, st).writes, 1), 4); }
  }

  // ---- What a stuck mailbox can still do -------------------------------------------------------

  // Everything the scripts and the documentation offer, operator actions without any discipline:
  // acknowledging a cursor without review, adopting a cursor and generation over saved files,
  // and removing the pending file while a batch is saved.
  datatype Kind =
    | Scripted(action: Action) | AcknowledgeByHand(cursor: SafeInt) | AdoptByHand(mark: Mark) | DropPending

  datatype Move = Move(kind: Kind, cut: nat)

  function MoveWrites(env: Env, st: State, k: Kind): seq<Write> {
    match k
    case Scripted(a) => WritesOf(env, st, a)
    case AcknowledgeByHand(c) => (match AckWrites(st, c) case None => [] case Some(ws) => ws)
    case AdoptByHand(m) => [Adopt(m)]
    case DropPending => [ClearPending]
  }

  function MakeMove(env: Env, st: State, m: Move): State {
    After(st, MoveWrites(env, st, m.kind), m.cut)
  }

  function Moved(env: Env, st: State, ms: seq<Move>): State {
    if ms == [] then st else MakeMove(env, Moved(env, st, ms[..|ms| - 1]), ms[|ms| - 1])
  }

  /** A stuck mailbox offers a script no more than one harmless write. */
  lemma StuckWrites(env: Env, st: State, a: Action)
    requires Stuck(env, st)
    ensures var ws := WritesOf(env, st, a);
            && |ws| <= 1
            && (ws != [] ==> Stuck(env, Apply(st, ws[0])) && Apply(st, ws[0]).batch == st.batch && Cursor(Apply(st, ws[0])) == Cursor(st))
  {
    hide ValidateBatch, Acceptable, Replays;
  }

  /** Without an adoption a move leaves the mailbox stuck on the same batch, and the cursor where
      it is unless the move acknowledges by hand. */
  lemma StuckMove(env: Env, st: State, m: Move)
    requires Stuck(env, st) && !m.kind.AdoptByHand?
    ensures var st' := MakeMove(env, st, m);
            && Stuck(env, st') && st'.batch == st.batch && Cursor(st) <= Cursor(st')
            && (!m.kind.AcknowledgeByHand? ==> Cursor(st') == Cursor(st))
  {
    hide ValidateBatch, WritesOf, After;
    var ws := MoveWrites(env, st, m.kind);
    match m.kind
    case Scripted(a) =>
      StuckWrites(env, st, a);
      AtMostOneWrite(st, ws, m.cut);
    case AcknowledgeByHand(_) =>
      if ws == [] { AfterNothing(st, m.cut); } else { AfterTwo(st, ws[0], ws[1], m.cut); }
    case DropPending => AfterOne(st, ClearPending, m.cut);
  }

  lemma AtMostOneWrite(st: State, ws: seq<Write>, cut: nat)
    requires |ws| <= 1
    ensures After(st, ws, cut) == st || (ws != [] && After(st, ws, cut) == Apply(st, ws[0]))
  {
    if ws != [] { AfterOne(st, ws[0], cut); assert ws == [ws[0]]; } else { AfterNothing(st, cut); }
  }

  /** Safe but stuck: unless an operator adopts a cursor, no run of scripts and operator actions
      ever removes the batch, and the cursor moves, forward, only where an operator acknowledges
      by hand. */
  lemma {:induction false} StuckUntilAdoption(env: Env, st: State, ms: seq<Move>)
    requires Stuck(env, st) && forall m | m in ms :: !m.kind.AdoptByHand?
    ensures Stuck(env, Moved(env, st, ms)) && Moved(env, st, ms).batch == st.batch && Cursor(st) <= Cursor(Moved(env, st, ms))
    ensures forall k: nat | k < |ms| ::
              Cursor(Moved(env, st, ms[..k + 1])) != Cursor(Moved(env, st, ms[..k])) ==> ms[k].kind.AcknowledgeByHand?
  {
    hide Stuck, MakeMove;
    if ms != [] {
      var init := ms[..|ms| - 1];
      assert ms[|ms| - 1] in ms;
      StuckUntilAdoption(env, st, init);
      StuckMove(env, Moved(env, st, init), ms[|ms| - 1]);
      forall k: nat | k < |ms|
        ensures Cursor(Moved(env, st, ms[..k + 1])) != Cursor(Moved(env, st, ms[..k])) ==> ms[k].kind.AcknowledgeByHand?
      {
        if k < |ms| - 1 {
          assert init[..k + 1] == ms[..k + 1] && init[..k] == ms[..k] && init[k] == ms[k];
        } else {
          assert ms[..k + 1] == ms && ms[..k] == init;
        }
      }
    }
  }

  /** In particular, with neither an adoption nor an acknowledgement by hand the cursor stands
      still for good. */
  lemma {:induction false} StuckForever(env: Env, st: State, ms: seq<Move>)
    requires Stuck(env, st) && forall m | m in ms :: !m.kind.AdoptByHand? && !m.kind.AcknowledgeByHand?
    ensures var st' := Moved(env, st, ms); Stuck(env, st') && st'.batch == st.batch && Cursor(st') == Cursor(st)
  {
    hide Stuck, MakeMove;
    if ms != [] {
      assert ms[|ms| - 1] in ms;
      StuckForever(env, st, ms[..|ms| - 1]);
      StuckMove(env, Moved(env, st, ms[..|ms| - 1]), ms[|ms| - 1]);
    }
  }

  /** An acknowledgement by hand moves the cursor exactly when it names a pending cursor ahead
      of it whose generation does not contradict the known one. */
  lemma AcknowledgedByHand(env: Env, st: State, c: SafeInt, cut: nat)
    requires Stuck(env, st) && cut > 0
    ensures var st' := MakeMove(env, st, Move(AcknowledgeByHand(c), cut));
            && (Cursor(st') != Cursor(st) <==>
                  && st.pending.Some? && st.pending.value.cursor == c > Cursor(st)
                  && (Generation(st).Some? && st.pending.value.generation.Some? ==> Generation(st) == st.pending.value.generation))
            && (Cursor(st') != Cursor(st) ==> Cursor(st') == c)
            && st'.archive == st.archive && st'.receipt == st.receipt
  {
    hide ValidateBatch, After;
    var ws := MoveWrites(env, st, AcknowledgeByHand(c));
    if ws == [] { AfterNothing(st, cut); } else { AfterTwo(st, ws[0], ws[1], cut); }
  }

  /** This way out of a stuck mailbox gives up the review: one polled message and its cursor
      acknowledged by hand move the cursor past a message that no receipt holds. */
  lemma HandAcknowledgementSkips(env: Env, st: State, m: Message) returns (reply: Reply)
    requires Stuck(env, st) && st.pending == None && m.sequence == Cursor(st) + 1
    requires m.sig.Some? ==> FastCanonical(m.sig.value)
    requires forall g: SafeInt :: !Held(st, g, m.sequence)
    ensures var polled := MakeMove(env, st, Move(Scripted(PollMailbox(reply)), 1));
            var st' := MakeMove(env, polled, Move(AcknowledgeByHand(m.sequence), 2));
            && Cursor(st') == m.sequence && st'.batch == st.batch && st'.pending == None
            && forall g: SafeInt :: !Held(st', g, m.sequence)
  {
    hide ValidateBatch, After, Held, Holds, FastCanonical;
    reply := Replied(Response(env.mailbox, 1, Some(m.sequence), m.sequence, None, true, [m]));
    var plan := PollPlan(env, st, reply);
    var mark := Mark(Generation(st), m.sequence);
    assert plan.writes == [SetPending(mark)];
    AfterOne(st, SetPending(mark), 1);
    var polled := Apply(st, SetPending(mark));
    AfterTwo(polled, Acknowledge(mark), ClearPending, 2);
    var st' := MakeMove(env, polled, Move(AcknowledgeByHand(m.sequence), 2));
    forall g: SafeInt
      ensures !Held(st', g, m.sequence)
    {
      HeldByFiles(st, st', g, m.sequence);
    }
  }

  lemma HeldByFiles(st: State, st': State, g: SafeInt, x: int)
    requires st.archive == st'.archive && st.receipt == st'.receipt
    ensures Held(st, g, x) <==> Held(st', g, x)
  {
    hide Holds;
  }

  predicate Idle(st: State) {
    st.batch == None && st.pending == None && st.receipt == None
  }

  lemma FiledIsNoReplay(env: Env, b: Batch, archive: map<Key, Receipt>)
    requires Review(env, b, archive).Some?
    ensures var r := Review(env, b, archive).value; Review(env, b, archive[KeyOf(r) := r]) == Some(r)
  {
    hide HeaderAccepted, ReviewMessages;
    ValidatedIsContiguous(env, b);
    var r := Review(env, b, archive).value;
    var longer := archive[KeyOf(r) := r];
    forall k | k in longer && longer[k].generation == r.generation
      ensures !SharesSignature(r, longer[k])
    {
      if k == KeyOf(r) { assert longer[k] == r; } else { assert archive[k] == longer[k]; }
    }
  }

  /** The files a crash after the removal of the pending file leaves. */
  lemma StuckFiles(env: Env, st: State, cut: nat)
    requires AckPlan(env, st).exit == Done && 2 <= cut <= 3
    ensures var mid, r := After(st, AckPlan(env, st).writes, cut), st.receipt.value;
            && mid.batch == st.batch && mid.pending == None && mid.cursor.Some? && mid.cursor.value.cursor == r.proposed
            && (mid.receipt == None || mid.receipt == Some(r))
            && Review(env, st.batch.value, mid.archive) == Some(r)
            && (KeyOf(r) in mid.archive ==> mid.archive[KeyOf(r)] == r)
  {
    hide Review;
    AckStates(env, st, cut);
    FiledIsNoReplay(env, st.batch.value, st.archive);
  }

  /** The way out that keeps the review: adopt the batch's own generation and starting cursor,
      poll once more up to the same last sequence, review, and acknowledge. Nothing stays in
      flight, the receipt is archived and the cursor stands at the end of the batch. */
  lemma AdoptionRecovers(env: Env, st: State, cut: nat, reply: Reply, later: Reply)
    requires AckPlan(env, st).exit == Done && 2 <= cut <= 3
    requires var r := st.receipt.value;
             var mid := After(st, AckPlan(env, st).writes, cut);
             var adopted := MakeMove(env, mid, Move(AdoptByHand(Mark(Some(r.generation), r.starting)), 1));
             PollPlan(env, adopted, reply).output.Some? && PollPlan(env, adopted, reply).output.value.proposed == r.proposed
    ensures var r := st.receipt.value;
            var mid := After(st, AckPlan(env, st).writes, cut);
            var adopted := MakeMove(env, mid, Move(AdoptByHand(Mark(Some(r.generation), r.starting)), 1));
            var polled := ApplyAll(adopted, PollPlan(env, adopted, reply).writes);
            var reviewed := ApplyAll(polled, ReviewPlan(env, polled, later).writes);
            var end := ApplyAll(reviewed, AckPlan(env, reviewed).writes);
            && Idle(end) && Cursor(end) == r.proposed && Generation(end) == Some(r.generation) && Archived(end, r)
  {
    hide ValidateBatch, Replays, Acceptable, After, Review, ReviewPlan, Idle;
    var r := st.receipt.value;
    var mid := After(st, AckPlan(env, st).writes, cut);
    StuckFiles(env, st, cut);
    var mark := Mark(Some(r.generation), r.starting);
    AfterOne(mid, Adopt(mark), 1);
    var adopted := Apply(mid, Adopt(mark));
    SpansMessages(env, st.batch.value, mid.archive);
    var polled := AheadIsPending(env, adopted, reply);
    var reviewed := ReviewedAgain(env, polled, r, later);
    AckGoesThrough(env, reviewed, r);
  }

  /** A reviewed batch whose cursor is pending is acknowledged. */
  lemma AckGoesThrough(env: Env, st: State, r: Receipt)
    requires st.batch.Some? && st.receipt == Some(r) && Review(env, st.batch.value, st.archive) == Some(r) && r.items != []
    requires KeyOf(r) in st.archive ==> st.archive[KeyOf(r)] == r
    requires Generation(st) == Some(r.generation) && Cursor(st) <= r.proposed
    requires st.pending == Some(Mark(Some(r.generation), r.proposed))
    ensures var end := ApplyAll(st, AckPlan(env, st).writes);
            Idle(end) && Cursor(end) == r.proposed && Generation(end) == Some(r.generation) && Archived(end, r)
  {
    hide Review, After;
    AckStates(env, st, 4);
    assert AckPlan(env, st).exit == Done;
  }

  lemma SpansMessages(env: Env, b: Batch, archive: map<Key, Receipt>)
    requires Review(env, b, archive).Some?
    ensures var r := Review(env, b, archive).value; r.items != [] ==> r.starting < r.proposed
  {
    ValidatedIsContiguous(env, b);
  }

  /** A printed batch that proposes to move the cursor is pending. */
  lemma AheadIsPending(env: Env, st: State, reply: Reply) returns (polled: State)
    requires PollPlan(env, st, reply).output.Some? && PollPlan(env, st, reply).output.value.proposed > Cursor(st)
    requires Generation(st).Some?
    ensures polled == ApplyAll(st, PollPlan(env, st, reply).writes)
    ensures polled == st.(pending := Some(Mark(Generation(st), PollPlan(env, st, reply).output.value.proposed)))
  {
    hide Acceptable, After;
    var plan := PollPlan(env, st, reply);
    AfterOne(st, plan.writes[0], 1);
    assert plan.writes == [plan.writes[0]];
    polled := ApplyAll(st, plan.writes);
  }

  lemma ReviewedAgain(env: Env, st: State, r: Receipt, later: Reply) returns (reviewed: State)
    requires st.batch.Some? && Review(env, st.batch.value, st.archive) == Some(r) && r.items != []
    requires st.receipt == None || st.receipt == Some(r)
    ensures reviewed == ApplyAll(st, ReviewPlan(env, st, later).writes) && reviewed == st.(receipt := Some(r))
  {
    hide Review, After;
    var plan := ReviewPlan(env, st, later);
    ReviewWrites(env, st, |plan.writes|);
    AfterNothing(st.(receipt := Some(r)), 0);
    reviewed := ApplyAll(st, plan.writes);
  }

  // ---- Progress ---------------------------------------------------------------------------------

  /** From an idle mailbox, an accepted reply with messages is fetched, reviewed and acknowledged
      through its last sequence exactly when the review accepts it; otherwise the cursor stays
      and the batch and its pending file remain for the operator. */
  lemma ReviewThenAckAdvances(env: Env, t: Trace, reply: Reply)
    requires Inv(env, t) && Idle(t.st)
    requires PollPlan(env, t.st, reply).output.Some? && PollPlan(env, t.st, reply).output.value.messages != []
    ensures var st, b := t.st, PollPlan(env, t.st, reply).output.value;
            var reviewed := ApplyAll(st, ReviewPlan(env, st, reply).writes);
            var acked := ApplyAll(reviewed, AckPlan(env, reviewed).writes);
            && b.proposed > Cursor(st)
            && (Review(env, b, st.archive).Some? ==>
                  Idle(acked) && Cursor(acked) == b.proposed && Archived(acked, Review(env, b, st.archive).value))
            && (Review(env, b, st.archive).None? ==>
                  acked == reviewed && Cursor(acked) == Cursor(st) && acked.batch == Some(b) && acked.pending.Some?)
  {
    hide ValidateBatch, Replays, Acked, OneToOne, NothingSkipped, WellReviewed, After, Acceptable;
    var st, poll := t.st, PollPlan(env, t.st, reply);
    var b := poll.output.value;
    MessagesAhead(env, st, reply);
    var reviewed := ReviewedState(env, st, reply);
    if Review(env, b, st.archive).Some? {
      var r := Review(env, b, st.archive).value;
      ReviewKeepsHeader(env, b);
      assert KeyOf(r) !in st.archive;
      AckStates(env, reviewed, 4);
      assert AckPlan(env, reviewed).exit == Done;
    } else {
      AfterNothing(reviewed, 0);
    }
  }

  lemma ReviewKeepsHeader(env: Env, b: Batch)
    requires ValidateBatch(env, b).Some? && b.messages != []
    ensures var r := ValidateBatch(env, b).value;
            Some(r.generation) == b.generation && r.proposed == b.proposed && r.items != []
  {
    ValidatedIsContiguous(env, b);
  }

  lemma MessagesAhead(env: Env, st: State, reply: Reply)
    requires Idle(st)
    requires PollPlan(env, st, reply).output.Some? && PollPlan(env, st, reply).output.value.messages != []
    ensures var poll := PollPlan(env, st, reply); var b := poll.output.value;
            && b.proposed > Cursor(st) && poll.writes == [SetPending(Mark(b.generation, b.proposed))]
            && (b.generation.None? ==> Generation(st) == None)
            && (Generation(st).Some? ==> b.generation == Generation(st))
  {
  }

  /** The files after an uninterrupted review of a fresh batch with messages. */
  lemma ReviewedState(env: Env, st: State, reply: Reply) returns (reviewed: State)
    requires Idle(st)
    requires PollPlan(env, st, reply).output.Some? && PollPlan(env, st, reply).output.value.messages != []
    ensures var b := PollPlan(env, st, reply).output.value;
            && reviewed == ApplyAll(st, ReviewPlan(env, st, reply).writes)
            && reviewed == st.(pending := Some(Mark(b.generation, b.proposed)), batch := Some(b), receipt := Review(env, b, st.archive))
  {
    hide ValidateBatch, Replays, Acceptable, After;
    var poll := PollPlan(env, st, reply);
    var b := poll.output.value;
    MessagesAhead(env, st, reply);
    var save := SaveBatch(b);
    var mid := Apply(Apply(st, poll.writes[0]), save);
    AfterOne(st, poll.writes[0], 1);
    var rest := ReviewSaved(env, mid);
    AfterTwo(st, poll.writes[0], save, 2);
    AfterConcat(st, poll.writes + [save], rest.writes, |poll.writes + [save] + rest.writes|);
    assert poll.writes + [save] == [poll.writes[0], save];
    ReviewWrites(env, mid, |rest.writes|);
    if Review(env, b, st.archive).Some? { ReviewKeepsHeader(env, b); }
    AfterNothing(mid.(receipt := Review(env, b, st.archive)), 0);
    reviewed := ApplyAll(st, ReviewPlan(env, st, reply).writes);
  }

  // ---- Fetching pauses for a human ------------------------------------------------------------------

  /** The number of polls the fetcher starts in a run. */
  function FetchPolls(env: Env, t: Trace, steps: seq<Step>): nat {
    if steps == [] then 0
    else
      var init, s := steps[..|steps| - 1], steps[|steps| - 1];
      FetchPolls(env, t, init)
      + if s.action.FetchOnce? && FetchPlan(env, Run(env, t, init).st, s.action.reply).exit != Paused then 1 else 0
  }

  lemma OnlyOperatorResumes(env: Env, st: State, a: Action)
    requires st.halt && !a.RemoveHalt?
    ensures forall w | w in WritesOf(env, st, a) :: w != ClearHalt
  {
    hide PollPlan, ReviewPlan, AckPlan, FetchPlan;
    match a
    case PollMailbox(reply) => PollKinds(env, st, reply);
    case ReviewMailbox(reply) => ReviewKinds(env, st, reply);
    case AckReviewed => AckKinds(env, st);
    case FetchOnce(reply) => FetchKinds(env, st, reply);
    case _ =>
  }

  lemma {:induction false} HaltKept(t: Trace, ws: seq<Write>, cut: nat)
    requires t.st.halt && forall w | w in ws :: w != ClearHalt
    ensures AdvanceAll(t, ws, cut).st.halt
    decreases ws
  {
    if ws != [] && cut > 0 {
      assert ws[0] in ws && forall w | w in ws[1..] :: w in ws;
      HaltKept(Advance(t, ws[0]), ws[1..], cut - 1);
    }
  }

  /** A halted fetcher starts no poll, whatever else runs or crashes, until the marker is
      removed by hand. */
  lemma {:induction false} HaltedFetcherWaits(env: Env, t: Trace, steps: seq<Step>)
    requires t.st.halt && forall s | s in steps :: !s.action.RemoveHalt?
    ensures Run(env, t, steps).st.halt && FetchPolls(env, t, steps) == 0
  {
    hide WritesOf, AdvanceAll;
    if steps != [] {
      var init, s := Run(env, t, steps[..|steps| - 1]), steps[|steps| - 1];
      assert s in steps;
      HaltedFetcherWaits(env, t, steps[..|steps| - 1]);
      OnlyOperatorResumes(env, init.st, s.action);
      HaltKept(init, WritesOf(env, init.st, s.action), s.cut);
    }
  }
}
