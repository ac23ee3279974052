/** Which exit each reply and each state of the mailbox files gets, and what is left on disk. */
module PollOutcomes {
  import opened Wrappers
  import opened Json
  import opened Base64Url
  import opened Mailbox
  import opened MailboxScripts

  // ---- The cursor file and the reply -------------------------------------------------------

  /** The number a missing cursor file stands for is 0. */
  predicate ReadUpTo(st: State, n: SafeInt) {
    if st.cursor == None then n == 0 else st.cursor.value.cursor == n
  }

  predicate KnownGeneration(st: State, g: Option<SafeInt>) {
    if st.cursor == None then g == None else st.cursor.value.generation == g
  }

  /** A usable response: this mailbox, its own count, canonical signatures, ascending numbers beyond
      the cursor, the first and last numbers those of the messages. */
  predicate Usable(env: Env, r: Response, cursor: SafeInt) {
    var ms := r.messages;
    && r.room == env.mailbox && r.count == |ms|
    && (forall m | m in ms :: m.sig == None || FastCanonical(m.sig.value))
    && (if ms == [] then r.first == None && cursor <= r.last
        else
          && r.first == Some(ms[0].sequence) && cursor < ms[0].sequence && ms[|ms| - 1].sequence <= r.last
          && forall i | 1 <= i < |ms| :: ms[i - 1].sequence < ms[i].sequence)
  }

  lemma {:induction false} Ascending(ms: seq<Message>, i: nat, j: nat)
    requires forall i | 1 <= i < |ms| :: ms[i - 1].sequence < ms[i].sequence
    requires i < j < |ms|
    ensures ms[i].sequence < ms[j].sequence
    decreases j
  {
    if i < j - 1 { Ascending(ms, i, j - 1); }
  }

  lemma UsableExactly(env: Env, r: Response, cursor: SafeInt)
    ensures Usable(env, r, cursor) <==> Acceptable(env, r, cursor)
  {
    hide FastCanonical;
    var ms := r.messages;
    if Usable(env, r, cursor) {
      forall i, j | 0 <= i < j < |ms|
        ensures ms[i].sequence < ms[j].sequence
      {
        Ascending(ms, i, j);
      }
      assert forall i | 0 <= i < |ms| :: ms[i] in ms;
    }
  }

  /** A usable response whose long-poll slot was held. */
  predicate Answer(env: Env, st: State, reply: Reply) {
    reply.Replied? && reply.response.waitHeld && exists n: SafeInt :: ReadUpTo(st, n) && Usable(env, reply.response, n)
  }

  /** Nothing was retrieved, or a usable response came without the slot: worth another try. */
  predicate Retry(env: Env, st: State, reply: Reply) {
    || reply == Unavailable
    || (reply.Replied? && !reply.response.waitHeld && exists n: SafeInt :: ReadUpTo(st, n) && Usable(env, reply.response, n))
  }

  /** The mailbox and the response both name a generation, and not the same one. */
  predicate Disagrees(st: State, r: Response) {
    exists g: SafeInt, h: SafeInt :: g != h && KnownGeneration(st, Some(g)) && r.generation == Some(h)
  }

  /** The response starts after the message that follows the cursor, which is not 0. */
  predicate Gap(st: State, r: Response) {
    st.cursor.Some? && st.cursor.value.cursor > 0 && r.messages != [] && r.messages[0].sequence > st.cursor.value.cursor + 1
  }

  lemma DisagreesExactly(st: State, r: Response)
    ensures Disagrees(st, r) <==> Generation(st).Some? && r.generation.Some? && Generation(st) != r.generation
  {
    if Generation(st).Some? && r.generation.Some? && Generation(st) != r.generation {
      var g, h := Generation(st).value, r.generation.value;
      assert KnownGeneration(st, Some(g)) && r.generation == Some(h);
    }
  }

  /** Every exit of the poller, by the reply and the cursor and pending files. */
  lemma PollExits(env: Env, st: State, reply: Reply)
    ensures var exit := PollPlan(env, st, reply).exit;
            && (exit == StillPending <==> st.pending.Some?)
            && (exit == Transient <==> st.pending == None && Retry(env, st, reply))
            && (exit == Failed <==> st.pending == None && !Retry(env, st, reply) && !Answer(env, st, reply))
            && (exit == GenerationChanged <==> st.pending == None && Answer(env, st, reply) && Disagrees(st, reply.response))
            && (exit == HistoryGap <==>
                  st.pending == None && Answer(env, st, reply) && !Disagrees(st, reply.response) && Gap(st, reply.response))
            && (exit == Done <==>
                  st.pending == None && Answer(env, st, reply) && !Disagrees(st, reply.response) && !Gap(st, reply.response))
  {
    hide Usable, Acceptable, Disagrees;
    assert ReadUpTo(st, Cursor(st));
    if reply.Replied? {
      UsableExactly(env, reply.response, Cursor(st));
      DisagreesExactly(st, reply.response);
      if Usable(env, reply.response, Cursor(st)) { FirstIsFirst(env, reply.response, Cursor(st)); }
    }
  }

  lemma FirstIsFirst(env: Env, r: Response, cursor: SafeInt)
    requires Usable(env, r, cursor)
    ensures r.first == if r.messages == [] then None else Some(r.messages[0].sequence)
  {
  }

  /** The generation a batch carries: the response's, or else the one already known. */
  function Stamp(st: State, r: Response): Option<SafeInt> {
    if r.generation != None then r.generation else if st.cursor == None then None else st.cursor.value.generation
  }

  /** The printed batch: the response's own messages and numbers, from the cursor on. */
  predicate Prints(st: State, r: Response, b: Batch) {
    && b.messages == r.messages && b.count == |r.messages| && b.first == r.first
    && b.last == r.last && b.proposed == r.last && ReadUpTo(st, b.starting) && b.generation == Stamp(st, r)
  }

  /** The files after a poll that ends well: the last number is pending if it is new; otherwise a
      generation learnt now is recorded. */
  function Polled(st: State, r: Response): State {
    if !ReadUpTo(st, r.last) then st.(pending := Some(Mark(Stamp(st, r), r.last)))
    else if KnownGeneration(st, None) && r.generation.Some? then st.(cursor := Some(Mark(r.generation, r.last)))
    else st
  }

  /** A poll that ends well prints the response; any other prints and changes nothing. */
  lemma PollLeaves(env: Env, st: State, reply: Reply)
    ensures var poll := PollPlan(env, st, reply);
            if poll.exit == Done then
              && reply.Replied? && poll.output.Some? && Prints(st, reply.response, poll.output.value)
              && |poll.writes| <= 1 && ApplyAll(st, poll.writes) == Polled(st, reply.response)
            else poll.output == None && poll.writes == [] && ApplyAll(st, poll.writes) == st
  {
    hide FastCanonical;
    var poll := PollPlan(env, st, reply);
    AfterNothing(st, 0);
    if poll.writes != [] {
      assert poll.writes == [poll.writes[0]];
      AfterOne(st, poll.writes[0], 1);
    }
  }

  // ---- Fetching once ------------------------------------------------------------------------

  /** The answer is taken: no other generation, no gap. */
  predicate Taken(env: Env, st: State, reply: Reply) {
    Answer(env, st, reply) && !Disagrees(st, reply.response) && !Gap(st, reply.response)
  }

  /** Nothing new: no message, and the last number is the cursor's. */
  predicate Quiet(st: State, r: Response) {
    r.messages == [] && ReadUpTo(st, r.last)
  }

  lemma HaltUnread(env: Env, st: State, reply: Reply)
    ensures PollPlan(env, st.(halt := true), reply) == PollPlan(env, st, reply)
  {
    hide Acceptable;
  }

  /** A fetch is paused by a marker, a saved batch or a pending number. Otherwise a reply worth
      another try leaves everything as it was, an answer taken is polled and, unless it is quiet,
      saved with the marker left in place, and any other reply leaves the marker alone. */
  lemma FetchLeaves(env: Env, st: State, reply: Reply)
    ensures var plan := FetchPlan(env, st, reply);
            var st' := ApplyAll(st, plan.writes);
            if st.halt || st.batch.Some? || st.pending.Some? then plan == Plan([], Paused)
            else if Retry(env, st, reply) then plan.exit == Transient && st' == st
            else if Taken(env, st, reply) then
              && plan.exit == Done
              && (if Quiet(st, reply.response) then st' == Polled(st, reply.response)
                  else st'.batch.Some? && Prints(st, reply.response, st'.batch.value)
                       && st' == Polled(st, reply.response).(halt := true, batch := st'.batch))
            else plan.exit == Failed && st' == st.(halt := true)
  {
    hide PollPlan, After, Retry, Answer, Disagrees, Gap;
    if !(st.halt || st.batch.Some? || st.pending.Some?) {
      var halted, plan := st.(halt := true), FetchPlan(env, st, reply);
      FetchStates(env, st, reply, |plan.writes|);
      PollExits(env, st, reply);
      HaltUnread(env, st, reply);
      PollLeaves(env, halted, reply);
      PollLeaves(env, st, reply);
    }
  }

  /** Once a fetch has set its marker it resumes on its own exactly when it ran to the end and the
      reply was worth another try, or taken with nothing new. */
  lemma FetchPauses(env: Env, st: State, reply: Reply, cut: nat)
    requires !st.halt && st.batch == None && st.pending == None && cut > 0
    ensures var plan := FetchPlan(env, st, reply);
            !After(st, plan.writes, cut).halt <==>
              cut >= |plan.writes| && (Retry(env, st, reply) || (Taken(env, st, reply) && Quiet(st, reply.response)))
  {
    hide PollPlan, After, Retry, Taken, Quiet;
    var plan := FetchPlan(env, st, reply);
    FetchLeaves(env, st, reply);
    if cut >= |plan.writes| {
      AfterEnough(st, plan.writes, cut);
    } else {
      FetchStates(env, st, reply, cut);
      PollLeaves(env, st.(halt := true), reply);
      CutPoll(env, st.(halt := true), reply, cut - 1);
    }
  }

  lemma CutPoll(env: Env, st: State, reply: Reply, cut: nat)
    ensures var poll := PollPlan(env, st, reply);
            After(st, poll.writes, cut) == if cut == 0 then st else ApplyAll(st, poll.writes)
  {
    hide PollPlan, After;
    PollLeaves(env, st, reply);
    var poll := PollPlan(env, st, reply);
    if poll.writes == [] {
      AfterNothing(st, cut);
    } else {
      assert poll.writes == [poll.writes[0]];
      AfterOne(st, poll.writes[0], cut);
      AfterOne(st, poll.writes[0], 1);
    }
  }

  // ---- Reviewing --------------------------------------------------------------------------------

  /** What a review of the saved batch leaves: nothing changed if it is refused or another receipt is
      saved; an empty batch cleared away; otherwise its receipt, for a batch that is pending. */
  predicate SavedReviewed(env: Env, st: State, exit: Exit, st': State)
    requires st.batch.Some?
  {
    var r := Review(env, st.batch.value, st.archive);
    if r == None || (st.receipt.Some? && st.receipt != r) then exit == Failed && st' == st
    else if st.batch.value.messages == [] then exit == Done && st' == st.(batch := None, receipt := None)
    else exit == (if st.pending.Some? then Done else Failed) && st' == st.(receipt := r)
  }

  lemma SavedLeaves(env: Env, st: State)
    requires st.batch.Some?
    ensures var plan := ReviewSaved(env, st); SavedReviewed(env, st, plan.exit, ApplyAll(st, plan.writes))
  {
    hide ValidateBatch, Replays, After;
    var plan, r := ReviewSaved(env, st), Review(env, st.batch.value, st.archive);
    ReviewWrites(env, st, |plan.writes|);
    if r.Some? {
      ValidatedIsContiguous(env, st.batch.value);
      AfterNothing(st.(receipt := r), 0);
      AfterTwo(st.(receipt := r), ClearBatch, ClearReceipt, 2);
    }
  }

  /** A review works on the saved batch; without one it polls, unless a number is pending, and goes on
      only with an answer taken, which it saves first. */
  lemma ReviewLeaves(env: Env, st: State, reply: Reply)
    ensures var plan := ReviewPlan(env, st, reply);
            var st' := ApplyAll(st, plan.writes);
            if st.batch.Some? then SavedReviewed(env, st, plan.exit, st')
            else if st.pending.Some? then plan == Plan([], Failed)
            else if Taken(env, st, reply) then
              exists b :: Prints(st, reply.response, b)
                          && SavedReviewed(env, Polled(st, reply.response).(batch := Some(b)), plan.exit, st')
            else
              && plan.writes == []
              && plan.exit == (if Retry(env, st, reply) then Transient
                               else if !Answer(env, st, reply) then Failed
                               else if Disagrees(st, reply.response) then GenerationChanged
                               else HistoryGap)
  {
    hide PollPlan, ReviewSaved, SavedReviewed, After, Retry, Answer, Disagrees, Gap, Prints, Polled;
    if st.batch.Some? {
      SavedLeaves(env, st);
    } else if st.pending == None {
      PollExits(env, st, reply);
      PollLeaves(env, st, reply);
      if Taken(env, st, reply) { TakenLeaves(env, st, reply); }
    }
  }

  lemma TakenLeaves(env: Env, st: State, reply: Reply)
    requires st.batch == None && st.pending == None && Taken(env, st, reply)
    ensures var plan, b := ReviewPlan(env, st, reply), PollPlan(env, st, reply).output;
            && b.Some? && Prints(st, reply.response, b.value)
            && SavedReviewed(env, Polled(st, reply.response).(batch := b), plan.exit, ApplyAll(st, plan.writes))
  {
    hide PollPlan, ReviewSaved, SavedReviewed, After, Retry, Answer, Disagrees, Gap, Prints, Polled;
    PollExits(env, st, reply);
    PollLeaves(env, st, reply);
    var poll := PollPlan(env, st, reply);
    var save := SaveBatch(poll.output.value);
    var mid := ApplyAll(st, poll.writes).(batch := poll.output);
    var rest := ReviewSaved(env, mid);
    AfterConcat(st, poll.writes + [save], rest.writes, |poll.writes + [save] + rest.writes|);
    AfterConcat(st, poll.writes, [save], |poll.writes + [save]|);
    AfterOne(ApplyAll(st, poll.writes), save, 1);
    assert ReviewPlan(env, st, reply) == Plan(poll.writes + [save] + rest.writes, rest.exit);
    assert ApplyAll(st, poll.writes + [save]) == mid;
    AfterNothing(mid, 0);
    SavedLeaves(env, mid);
  }

  // ---- Acknowledging ------------------------------------------------------------------------------

  /** The number is the pending one, not behind the cursor, and of no other generation. */
  predicate Acknowledgeable(st: State, cursor: SafeInt) {
    && st.pending.Some? && st.pending.value.cursor == cursor && (exists n: SafeInt :: ReadUpTo(st, n) && n <= cursor)
    && (KnownGeneration(st, None) || st.pending.value.generation == None || KnownGeneration(st, st.pending.value.generation))
  }

  /** The cursor file after an acknowledgement: the pending number, with the generation known then. */
  function Advanced(st: State): State
    requires st.pending.Some?
  {
    var p := st.pending.value;
    var g := if p.generation != None || st.cursor == None then p.generation else st.cursor.value.generation;
    st.(cursor := Some(Mark(g, p.cursor)), pending := None)
  }

  /** An acknowledgement by number is accepted exactly when the number is acknowledgeable. */
  lemma AckLeaves(st: State, cursor: SafeInt)
    ensures AckWrites(st, cursor).Some? <==> Acknowledgeable(st, cursor)
    ensures AckWrites(st, cursor).Some? ==>
              st.pending.Some? && |AckWrites(st, cursor).value| == 2 && ApplyAll(st, AckWrites(st, cursor).value) == Advanced(st)
  {
    assert ReadUpTo(st, Cursor(st)) && KnownGeneration(st, Generation(st));
    if AckWrites(st, cursor).Some? {
      var ws := AckWrites(st, cursor).value;
      AfterTwo(st, ws[0], ws[1], 2);
    }
  }

  /** The saved receipt is that of the saved batch, which has messages and is pending, and no other
      receipt is archived under its generation and number. */
  predicate Ready(env: Env, st: State) {
    && st.batch.Some? && st.receipt.Some? && st.batch.value.messages != []
    && Review(env, st.batch.value, st.archive) == st.receipt
    && Acknowledgeable(st, st.batch.value.proposed)
    && var r := st.receipt.value;
       var name := Key(r.generation, r.proposed);
       name in st.archive ==> st.archive[name] == r
  }

  /** A reviewed batch is acknowledged exactly when everything is ready: the cursor advances, the receipt
      is archived and nothing stays in flight; otherwise nothing changes. */
  lemma AckReviewedLeaves(env: Env, st: State)
    ensures var plan := AckPlan(env, st);
            var st' := ApplyAll(st, plan.writes);
            if Ready(env, st) then
              var r := st.receipt.value;
              plan.exit == Done
              && st' == Advanced(st).(receipt := None, batch := None, archive := st.archive[Key(r.generation, r.proposed) := r])
            else plan == Plan([], Failed)
  {
    hide ValidateBatch, Replays, After, Acknowledgeable, AckWrites, Advanced;
    if st.batch.Some? && st.receipt.Some? && Review(env, st.batch.value, st.archive) == st.receipt {
      ValidatedIsContiguous(env, st.batch.value);
      AckLeaves(st, st.receipt.value.proposed);
    }
    if AckPlan(env, st).exit == Done {
      AckStates(env, st, 4);
      var ws := AckWrites(st, st.receipt.value.proposed).value;
      AckStates(env, st, 2);
      AdvancedKeeps(st);
    }
  }

  lemma AdvancedKeeps(st: State)
    requires st.pending.Some?
    ensures Advanced(st).archive == st.archive && Advanced(st).receipt == st.receipt && Advanced(st).batch == st.batch
  {
  }
}
