/** Every run of the mailbox scripts, in any order, with a crash after any write. */
module MailboxRuns {
  import opened Wrappers
  import opened Json
  import Frames
  import opened Base64Url
  import opened Mailbox
  import opened MailboxScripts
  import opened MailboxInvariant

  // The scripts and the three operator actions the documentation describes.
  datatype Action =
    | PollMailbox(reply: Reply) | ReviewMailbox(reply: Reply) | AckReviewed | FetchOnce(reply: Reply)
    | RemovePending | RemoveHalt | AdoptGeneration(mark: Mark)

  // An action cut off after some number of writes.
  datatype Step = Step(action: Action, cut: nat)

  /** An operator adopts a generation with nothing in flight and behind no archived receipt of it. */
  predicate MayAdopt(st: State, m: Mark) {
    && st.pending == None && st.batch == None && st.receipt == None && m.generation.Some?
    && forall k | k in st.archive && Some(k.generation) == m.generation :: st.archive[k].proposed <= m.cursor
  }

  function WritesOf(env: Env, st: State, a: Action): seq<Write> {
    match a
    case PollMailbox(reply) => PollPlan(env, st, reply).writes
    case ReviewMailbox(reply) => ReviewPlan(env, st, reply).writes
    case AckReviewed => AckPlan(env, st).writes
    case FetchOnce(reply) => FetchPlan(env, st, reply).writes
    case RemovePending => if st.batch == None then [ClearPending] else []
    case RemoveHalt => [ClearHalt]
    case AdoptGeneration(m) => if MayAdopt(st, m) then [Adopt(m)] else []
  }

  function Take(env: Env, t: Trace, s: Step): Trace {
    AdvanceAll(t, WritesOf(env, t.st, s.action), s.cut)
  }

  function Run(env: Env, t: Trace, steps: seq<Step>): Trace {
    if steps == [] then t else Take(env, Run(env, t, steps[..|steps| - 1]), steps[|steps| - 1])
  }

  lemma {:induction false} AdvancedFiles(t: Trace, ws: seq<Write>, cut: nat)
    ensures AdvanceAll(t, ws, cut).st == After(t.st, ws, cut)
    decreases ws
  {
    hide Apply;
    if ws != [] && cut > 0 { AdvancedFiles(Advance(t, ws[0]), ws[1..], cut - 1); }
  }

  /** One step of a run on the files: the script itself, or what the operator does by hand. */
  method Perform(env: Env, box: Box, s: Step, ghost t: Trace)
    requires t.st == box.Value()
    modifies box
    ensures box.Value() == Take(env, t, s).st
  {
    hide PollPlan, ReviewPlan, AckPlan, FetchPlan, After;
    ghost var ws := WritesOf(env, t.st, s.action);
    AdvancedFiles(t, ws, s.cut);
    if ws == [] { AfterNothing(t.st, s.cut); }
    match s.action {
      case PollMailbox(reply) => var _, _, _ := box.Poll(env, reply, s.cut);
      case ReviewMailbox(reply) => var _ := box.ReviewMailbox(env, reply, s.cut);
      case AckReviewed => var _ := box.AckReviewed(env, s.cut);
      case FetchOnce(reply) => var _ := box.FetchOnce(env, reply, s.cut);
      case RemovePending =>
        if box.batch == None {
          AfterOne(t.st, ClearPending, s.cut);
          if s.cut > 0 { box.pending := None; }
        }
      case RemoveHalt =>
        AfterOne(t.st, ClearHalt, s.cut);
        if s.cut > 0 { box.halt := false; }
      case AdoptGeneration(mark) =>
        if MayAdopt(box.Value(), mark) {
          AfterOne(t.st, Adopt(mark), s.cut);
          if s.cut > 0 { box.cursor := Some(mark); }
        }
    }
  }

  // ---- Every script only performs permitted writes -----------------------------------------------

  /** The poller's output is a fresh batch in the state the poller leaves. */
  lemma PollPermitted(env: Env, st: State, reply: Reply)
    ensures var plan := PollPlan(env, st, reply);
            && AllPermitted(env, st, plan.writes)
            && (plan.output.Some? ==> Fresh(ApplyAll(st, plan.writes), plan.output.value))
            && ApplyAll(st, plan.writes).batch == st.batch
            && ApplyAll(st, plan.writes).receipt == st.receipt && ApplyAll(st, plan.writes).archive == st.archive
  {
    hide FastCanonical;
    var plan := PollPlan(env, st, reply);
    if plan.writes != [] {
      AfterOne(st, plan.writes[0], 1);
      assert plan.writes == [plan.writes[0]] && plan.writes[1..] == [];
    } else {
      AfterNothing(st, 0);
    }
  }

  /** What the poller alone promises of its output: messages after the cursor in increasing
      order, without a gap at the front once something was read, up to the proposed cursor. */
  lemma PollPromises(env: Env, st: State, reply: Reply)
    requires PollPlan(env, st, reply).output.Some?
    ensures var b := PollPlan(env, st, reply).output.value;
            && b.count == |b.messages| && b.starting == Cursor(st) && b.proposed == b.last >= b.starting
            && (forall i | 0 <= i < |b.messages| :: b.starting < b.messages[i].sequence <= b.proposed)
            && (forall i, j | 0 <= i < j < |b.messages| :: b.messages[i].sequence < b.messages[j].sequence)
            && (b.messages != [] && b.starting > 0 ==> b.messages[0].sequence == b.starting + 1)
  {
    hide FastCanonical;
    var m := PollPlan(env, st, reply).output.value.messages;
    forall i | 0 <= i < |m|
      ensures m[i].sequence <= PollPlan(env, st, reply).output.value.proposed
    {
      if i < |m| - 1 { assert m[i].sequence < m[|m| - 1].sequence; }
    }
  }

  /** It does not promise contiguity: messages 6 and 8 with a last sequence of 9, unsigned or
      with signatures of the canonical form, are printed and made pending, and only the review
      refuses them. */
  lemma PollerToleratesGaps(env: Env, st: State, m: Message) returns (reply: Reply)
    requires st.pending == None && Cursor(st) == 5 && (m.sig.Some? ==> FastCanonical(m.sig.value))
    ensures var plan := PollPlan(env, st, reply);
            && plan.output.Some? && plan.writes == [SetPending(Mark(Generation(st), 9))]
            && ValidateBatch(env, plan.output.value) == None
  {
    hide FastCanonical, Frames.IsDid;
    var messages := [m.(sequence := 6), m.(sequence := 8)];
    reply := Replied(Response(env.mailbox, 2, Some(6), 9, None, true, messages));
    ValidatedExactly(env, PollPlan(env, st, reply).output.value);
  }

  lemma ReviewSavedPermitted(env: Env, st: State)
    requires st.batch.Some?
    ensures AllPermitted(env, st, ReviewSaved(env, st).writes)
  {
    hide ValidateBatch, Acked, Fresh, Replays;
    var r := Review(env, st.batch.value, st.archive);
    if r.Some? && (st.receipt == None || st.receipt == r) {
      var saved := if st.receipt.Some? then [] else [SaveReceipt(r.value)];
      var st' := st.(receipt := r);
      var end := if r.value.items == [] then [ClearBatch, ClearReceipt] else [];
      assert ApplyAll(st, saved) == st' by { if saved != [] { AfterOne(st, saved[0], 1); } }
      assert AllPermitted(env, st, saved) by { if saved != [] { assert saved[1..] == []; } }
      assert AllPermitted(env, st', end) by {
        if end != [] { assert end[1..] == [ClearReceipt] && [ClearReceipt][1..] == []; }
      }
      PermittedConcat(env, st, saved, end);
      assert saved + [] == saved;
    }
  }

  lemma ReviewPermitted(env: Env, st: State, reply: Reply)
    ensures AllPermitted(env, st, ReviewPlan(env, st, reply).writes)
  {
    hide PollPlan, ReviewSaved, Fresh;
    if st.batch.Some? {
      ReviewSavedPermitted(env, st);
    } else if st.pending == None {
      var poll := PollPlan(env, st, reply);
      PollPermitted(env, st, reply);
      if poll.output.Some? {
        var mid, save := ApplyAll(st, poll.writes), SaveBatch(poll.output.value);
        var st' := mid.(batch := poll.output);
        ReviewSavedPermitted(env, st');
        AfterOne(mid, save, 1);
        assert [save][1..] == [];
        PermittedConcat(env, mid, [save], ReviewSaved(env, st').writes);
        PermittedConcat(env, st, poll.writes, [save] + ReviewSaved(env, st').writes);
        assert poll.writes + [save] + ReviewSaved(env, st').writes == poll.writes + ([save] + ReviewSaved(env, st').writes);
      }
    }
  }

  lemma OnePermitted(env: Env, st: State, w: Write)
    requires Permitted(env, st, w)
    ensures AllPermitted(env, st, [w])
  {
    hide Permitted, Apply;
    assert [w][1..] == [];
  }

  /** What a fetch does after its poll. */
  lemma FetchEndPermitted(env: Env, st: State, poll: Poll)
    requires st.batch == None && (poll.output.Some? ==> Fresh(st, poll.output.value))
    ensures AllPermitted(env, st, FetchEnd(st, poll).writes)
  {
    hide Fresh, AllPermitted, Acked;
    var end := FetchEnd(st, poll);
    if end.writes == [] { NonePermitted(env, st); } else { OnePermitted(env, st, end.writes[0]); }
  }

  lemma NonePermitted(env: Env, st: State)
    ensures AllPermitted(env, st, [])
  {
  }

  lemma FetchPermitted(env: Env, st: State, reply: Reply)
    ensures AllPermitted(env, st, FetchPlan(env, st, reply).writes)
  {
    hide PollPlan, Fresh, After, AllPermitted, FetchEnd, Permitted;
    var plan := FetchPlan(env, st, reply);
    if plan.exit == Paused && plan.writes == [] {
      NonePermitted(env, st);
    } else {
      var halted := Apply(st, SetHalt);
      var poll := PollPlan(env, halted, reply);
      PollPermitted(env, halted, reply);
      var mid := ApplyAll(halted, poll.writes);
      FetchEndPermitted(env, mid, poll);
      PermittedConcat(env, halted, poll.writes, FetchEnd(mid, poll).writes);
      HaltFirst(env, st, poll.writes + FetchEnd(mid, poll).writes);
      assert plan.writes == [SetHalt] + (poll.writes + FetchEnd(mid, poll).writes);
    }
  }

  lemma HaltFirst(env: Env, st: State, ws: seq<Write>)
    requires AllPermitted(env, Apply(st, SetHalt), ws)
    ensures AllPermitted(env, st, [SetHalt] + ws)
  {
    assert ([SetHalt] + ws)[1..] == ws;
  }

  lemma AckPermitted(env: Env, t: Trace)
    requires Inv(env, t)
    ensures AllPermitted(env, t.st, AckPlan(env, t.st).writes)
  {
    hide Inv, Fresh, Acked, ValidateBatch, Replays;
    var plan := AckPlan(env, t.st);
    if plan.writes != [] {
      var b, r, w := t.st.batch.value, t.st.receipt.value, plan.writes[0];
      var st1 := Apply(t.st, w);
      AcknowledgeKeeps(env, t, w.mark);
      var st2 := Apply(st1, ClearPending);
      ClearPendingKeepsAcked(env, st1, b);
      var last := plan.writes[2];
      var st3 := Apply(st2, last);
      FiledStaysAcked(env, st2, b, r, last);
      assert AllPermitted(env, st3, [ClearBatch]) by { assert [ClearBatch][1..] == []; }
      assert AllPermitted(env, st2, [last, ClearBatch]) by { assert [last, ClearBatch][1..] == [ClearBatch]; }
      assert plan.writes[1..] == [ClearPending, last, ClearBatch] && plan.writes[1..][1..] == [last, ClearBatch];
    }
  }

  lemma ClearPendingKeepsAcked(env: Env, st: State, b: Batch)
    requires Acked(env, st, b)
    ensures Acked(env, Apply(st, ClearPending), b)
  {
  }

  lemma FiledStaysAcked(env: Env, st: State, b: Batch, r: Receipt, w: Write)
    requires Acked(env, st, b) && ValidateBatch(env, b) == Some(r) && st.receipt == Some(r)
    requires w == if KeyOf(r) in st.archive then ClearReceipt else ArchiveReceipt(r)
    requires KeyOf(r) in st.archive ==> st.archive[KeyOf(r)] == r
    ensures Acked(env, Apply(st, w), b) && Archived(Apply(st, w), r)
  {
    hide ValidateBatch;
  }

  lemma StepPermitted(env: Env, t: Trace, a: Action)
    requires Inv(env, t)
    ensures AllPermitted(env, t.st, WritesOf(env, t.st, a))
  {
    hide Inv, PollPlan, ReviewPlan, FetchPlan, AckPlan;
    match a
    case PollMailbox(reply) => PollPermitted(env, t.st, reply);
    case ReviewMailbox(reply) => ReviewPermitted(env, t.st, reply);
    case FetchOnce(reply) => FetchPermitted(env, t.st, reply);
    case AckReviewed => AckPermitted(env, t);
    case _ =>
      var ws := WritesOf(env, t.st, a);
      if ws != [] { assert ws[1..] == []; }
  }

  // ---- Runs ------------------------------------------------------------------------------------------

  /** Nothing in flight, and an archive that earlier runs could have left. */
  predicate Start(t: Trace) {
    && t.origin == None && t.st.batch == None && t.st.pending == None && t.st.receipt == None
    && ArchiveSound(t.st) && OneToOne(t.st.archive)
  }

  lemma {:induction false} RunKeeps(env: Env, t: Trace, steps: seq<Step>)
    requires Inv(env, t)
    ensures Inv(env, Run(env, t, steps))
  {
    hide Inv, WritesOf;
    if steps != [] {
      var init, s := Run(env, t, steps[..|steps| - 1]), steps[|steps| - 1];
      RunKeeps(env, t, steps[..|steps| - 1]);
      StepPermitted(env, init, s.action);
      WritesKeep(env, init, WritesOf(env, init.st, s.action), s.cut);
    }
  }

  lemma StartKeeps(env: Env, t: Trace)
    requires Start(t)
    ensures Inv(env, t)
  {
    OriginForgotten(t);
  }

  /** No message is skipped: whatever is run and wherever it crashes, every sequence from the
      first acknowledged message to the cursor is in an archived or live receipt of the
      current generation. */
  lemma NoMessageSkipped(env: Env, t: Trace, steps: seq<Step>, x: int)
    requires Start(t)
    requires var t' := Run(env, t, steps); t'.origin.Some? && t'.origin.value <= x <= Cursor(t'.st)
    ensures var st := Run(env, t, steps).st; Generation(st).Some? && Held(st, Generation(st).value, x)
  {
    hide Run, Held;
    StartKeeps(env, t);
    RunKeeps(env, t, steps);
  }

  /** In every reachable archive, within one generation, signature hashes and sequences
      correspond one to one. */
  lemma NoSignedReplay(env: Env, t: Trace, steps: seq<Step>, k: Key, l: Key, i: nat, j: nat)
    requires Start(t)
    requires var archive := Run(env, t, steps).st.archive;
             && k in archive && l in archive && k.generation == l.generation
             && i < |archive[k].items| && j < |archive[l].items|
    ensures var archive := Run(env, t, steps).st.archive;
            archive[k].items[i].signature == archive[l].items[j].signature
            <==> archive[k].items[i].sequence == archive[l].items[j].sequence
  {
    hide Run;
    StartKeeps(env, t);
    RunKeeps(env, t, steps);
    assert Agree(Run(env, t, steps).st.archive[k], Run(env, t, steps).st.archive[l]);
  }

  // ---- What no write undoes -----------------------------------------------------------------------------

  /** The cursor only moves forward, a known generation stays, and archived receipts stay. */
  predicate Forward(st: State, st': State) {
    && Cursor(st) <= Cursor(st') && (Generation(st).Some? ==> Generation(st') == Generation(st))
    && forall k | k in st.archive :: k in st'.archive && st'.archive[k] == st.archive[k]
  }

  /** A saved batch is never replaced, and only given up once it is known to be empty or its
      receipt is archived with the cursor past it. */
  predicate Retained(env: Env, st: State, st': State) {
    st.batch.Some? ==>
      || st'.batch == st.batch
      || (ValidateBatch(env, st.batch.value).Some?
          && var r := ValidateBatch(env, st.batch.value).value;
             r.items == [] || (Archived(st', r) && r.proposed <= Cursor(st')))
  }

  lemma WriteIsForward(env: Env, t: Trace, w: Write)
    requires Inv(env, t) && Permitted(env, t.st, w)
    ensures !w.Adopt? ==> Forward(t.st, Apply(t.st, w)) && Retained(env, t.st, Apply(t.st, w))
    ensures w.Adopt? ==> t.st.batch == None
  {
    hide Inv, ValidateBatch, Review, Fresh;
    if w.Acknowledge? { AcknowledgeKeeps(env, t, w.mark); }
  }

  lemma {:induction false} WritesAreForward(env: Env, t: Trace, ws: seq<Write>, cut: nat)
    requires Inv(env, t) && AllPermitted(env, t.st, ws) && forall w | w in ws :: !w.Adopt?
    ensures Forward(t.st, AdvanceAll(t, ws, cut).st) && Retained(env, t.st, AdvanceAll(t, ws, cut).st)
    decreases ws
  {
    hide Inv, Permitted, NewOrigin, Apply, ValidateBatch;
    if ws != [] && cut > 0 {
      WriteIsForward(env, t, ws[0]);
      WriteKeeps(env, t, ws[0]);
      WritesAreForward(env, Advance(t, ws[0]), ws[1..], cut - 1);
    }
  }

  /** The kinds of writes each script is made of. */
  lemma PollKinds(env: Env, st: State, reply: Reply)
    ensures forall w | w in PollPlan(env, st, reply).writes :: w.SetPending? || w.RecordGeneration?
  {
    hide Acceptable;
  }

  lemma SavedKinds(env: Env, st: State)
    requires st.batch.Some?
    ensures forall w | w in ReviewSaved(env, st).writes :: w.SaveReceipt? || w.ClearBatch? || w.ClearReceipt?
  {
    hide Review;
  }

  lemma ReviewKinds(env: Env, st: State, reply: Reply)
    ensures forall w | w in ReviewPlan(env, st, reply).writes ::
              w.SetPending? || w.RecordGeneration? || w.SaveBatch? || w.SaveReceipt? || w.ClearBatch? || w.ClearReceipt?
  {
    hide PollPlan, ReviewSaved, After;
    PollKinds(env, st, reply);
    if st.batch.Some? {
      SavedKinds(env, st);
    } else {
      var poll := PollPlan(env, st, reply);
      if poll.output.Some? { SavedKinds(env, ApplyAll(st, poll.writes).(batch := poll.output)); }
    }
  }

  lemma AckKinds(env: Env, st: State)
    ensures forall w | w in AckPlan(env, st).writes ::
              w.Acknowledge? || w.ClearPending? || w.ClearReceipt? || w.ArchiveReceipt? || w.ClearBatch?
  {
    hide Review;
  }

  lemma FetchKinds(env: Env, st: State, reply: Reply)
    ensures forall w | w in FetchPlan(env, st, reply).writes ::
              w.SetHalt? || w.ClearHalt? || w.SetPending? || w.RecordGeneration? || w.SaveBatch?
    ensures st.halt ==> FetchPlan(env, st, reply).writes == []
  {
    hide PollPlan, After;
    PollKinds(env, Apply(st, SetHalt), reply);
  }

  lemma NoAdoption(env: Env, st: State, a: Action)
    requires !a.AdoptGeneration?
    ensures forall w | w in WritesOf(env, st, a) :: !w.Adopt?
  {
    hide PollPlan, ReviewPlan, AckPlan, FetchPlan;
    match a
    case PollMailbox(reply) => PollKinds(env, st, reply);
    case ReviewMailbox(reply) => ReviewKinds(env, st, reply);
    case AckReviewed => AckKinds(env, st);
    case FetchOnce(reply) => FetchKinds(env, st, reply);
    case _ =>
  }

  /** Between adoptions of a generation the cursor never decreases, a generation once known
      never changes, no archived receipt is lost, and no unarchived batch is dropped. */
  lemma {:induction false} RunIsForward(env: Env, t: Trace, steps: seq<Step>)
    requires Inv(env, t) && forall s | s in steps :: !s.action.AdoptGeneration?
    ensures Forward(t.st, Run(env, t, steps).st)
  {
    hide Inv, WritesOf;
    if steps != [] {
      var init, s := Run(env, t, steps[..|steps| - 1]), steps[|steps| - 1];
      assert s in steps;
      RunKeeps(env, t, steps[..|steps| - 1]);
      RunIsForward(env, t, steps[..|steps| - 1]);
      StepPermitted(env, init, s.action);
      NoAdoption(env, init.st, s.action);
      WritesAreForward(env, init, WritesOf(env, init.st, s.action), s.cut);
    }
  }

  /** One action never overwrites a saved batch and never drops one that is not dealt with. */
  lemma BatchRetained(env: Env, t: Trace, steps: seq<Step>, s: Step)
    requires Start(t)
    ensures var st := Run(env, t, steps).st; Retained(env, st, Take(env, Run(env, t, steps), s).st)
  {
    hide Inv, WritesOf, Start, ValidateBatch, Run;
    var t' := Run(env, t, steps);
    StartKeeps(env, t);
    RunKeeps(env, t, steps);
    StepPermitted(env, t', s.action);
    if s.action.AdoptGeneration? {
      if t'.st.batch.Some? { AdoptionHasNoBatch(env, t'.st, s.action); }
    } else {
      NoAdoption(env, t'.st, s.action);
      WritesAreForward(env, t', WritesOf(env, t'.st, s.action), s.cut);
    }
  }

  lemma AdoptionHasNoBatch(env: Env, st: State, a: Action)
    requires a.AdoptGeneration? && st.batch.Some?
    ensures WritesOf(env, st, a) == []
  {
  }
}
