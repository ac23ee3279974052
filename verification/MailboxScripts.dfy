/** The mailbox scripts as the writes each one performs: poll, review, acknowledge, fetch. */
module MailboxScripts {
  import opened Wrappers
  import opened Json
  import opened Base64Url
  import opened Mailbox

  datatype Response = Response(
    room: Text, count: int, first: Option<SafeInt>, last: SafeInt, generation: Option<SafeInt>,
    waitHeld: bool, messages: seq<Message>)

  // What the request returned: no HTTP 200, no usable JSON, or a response.
  datatype Reply = Unavailable | Malformed | Replied(response: Response)

  datatype Exit =
    | Done | Transient | StillPending | GenerationChanged | HistoryGap | Failed | Paused | Crashed

  // ---- poll-mailbox.sh ----------------------------------------------------------------------

  predicate Acceptable(env: Env, r: Response, cursor: SafeInt) {
    && r.room == env.mailbox
    && r.count == |r.messages|
    && (forall i | 0 <= i < |r.messages| :: r.messages[i].sig.Some? ==> FastCanonical(r.messages[i].sig.value))
    && (forall i | 0 <= i < |r.messages| :: r.messages[i].sequence > cursor)
    && (forall i, j | 0 <= i < j < |r.messages| :: r.messages[i].sequence < r.messages[j].sequence)
    && (if r.messages == [] then r.first == None
        else r.first == Some(r.messages[0].sequence) && r.last >= r.messages[|r.messages| - 1].sequence)
    && r.last >= cursor
  }

  // Writes in order, exit status, and the batch printed on standard output.
  datatype Poll = Poll(writes: seq<Write>, exit: Exit, output: Option<Batch>)

  function Refuse(exit: Exit): Poll {
    Poll([], exit, None)
  }

  function PollAnswer(env: Env, st: State, r: Response): Poll {
    var cursor, stored := Cursor(st), Generation(st);
    if !Acceptable(env, r, cursor) then Refuse(Failed)
    else if !r.waitHeld then Refuse(Transient)
    else if stored.Some? && r.generation.Some? && stored != r.generation then Refuse(GenerationChanged)
    else if cursor > 0 && r.first.Some? && r.first.value > cursor + 1 then Refuse(HistoryGap)
    else
      var effective := if r.generation.Some? then r.generation else stored;
      var batch := Batch(effective, cursor, r.last, r.count, r.first, r.last, r.messages);
      var writes :=
        if r.last > cursor then [SetPending(Mark(effective, r.last))]
        else if stored.None? && effective.Some? then [RecordGeneration(Mark(effective, cursor))]
        else [];
      Poll(writes, Done, Some(batch))
  }

  function PollPlan(env: Env, st: State, reply: Reply): Poll {
    if st.pending.Some? then Refuse(StillPending)
    else
      match reply
      case Unavailable => Refuse(Transient)
      case Malformed => Refuse(Failed)
      case Replied(r) => PollAnswer(env, st, r)
  }

  // ---- review-mailbox.sh ----------------------------------------------------------------------

  datatype Plan = Plan(writes: seq<Write>, exit: Exit)

  /** The part after a batch is on disk. */
  function ReviewSaved(env: Env, st: State): Plan
    requires st.batch.Some?
  {
    match Review(env, st.batch.value, st.archive)
    case None => Plan([], Failed)
    case Some(r) =>
      if st.receipt.Some? && st.receipt.value != r then Plan([], Failed)
      else
        var saved := if st.receipt.Some? then [] else [SaveReceipt(r)];
        if r.items == [] then Plan(saved + [ClearBatch, ClearReceipt], Done)
        else Plan(saved, if st.pending.Some? then Done else Failed)
  }

  function ReviewPlan(env: Env, st: State, reply: Reply): Plan {
    if st.batch.Some? then ReviewSaved(env, st)
    else if st.pending.Some? then Plan([], Failed)
    else
      var poll := PollPlan(env, st, reply);
      if poll.output.None? then Plan(poll.writes, poll.exit)
      else
        var writes := poll.writes + [SaveBatch(poll.output.value)];
        var rest := ReviewSaved(env, ApplyAll(st, poll.writes).(batch := poll.output));
        Plan(writes + rest.writes, rest.exit)
  }

  // ---- ack-mailbox.sh, called by ack-reviewed-mailbox.sh ------------------------------------------

  function AckWrites(st: State, cursor: SafeInt): Option<seq<Write>> {
    if st.pending.None? || st.pending.value.cursor != cursor || cursor < Cursor(st) then None
    else
      var pending, current := st.pending.value.generation, Generation(st);
      if current.Some? && pending.Some? && current != pending then None
      else Some([Acknowledge(Mark(if pending.Some? then pending else current, cursor)), ClearPending])
  }

  function AckPlan(env: Env, st: State): Plan {
    if st.batch.None? || st.receipt.None? || Review(env, st.batch.value, st.archive) != st.receipt then Plan([], Failed)
    else
      var r := st.receipt.value;
      if r.items == [] then Plan([], Failed)
      else if KeyOf(r) in st.archive && st.archive[KeyOf(r)] != r then Plan([], Failed)
      else
        match AckWrites(st, r.proposed)
        case None => Plan([], Failed)
        case Some(ws) =>
          Plan(ws + [if KeyOf(r) in st.archive then ClearReceipt else ArchiveReceipt(r), ClearBatch], Done)
  }

  // ---- fetch-mailbox-once.py -------------------------------------------------------------------------

  /** After the poll: resume, publish, or stay halted. */
  function FetchEnd(st: State, poll: Poll): Plan {
    if poll.exit == Transient && st.pending.None? then Plan([ClearHalt], Transient)
    else if poll.output.None? then Plan([], Failed)
    else if poll.output.value.count == 0 && st.pending.None? then Plan([ClearHalt], Done)
    else Plan([SaveBatch(poll.output.value)], Done)
  }

  function FetchPlan(env: Env, st: State, reply: Reply): Plan {
    if st.halt || st.batch.Some? || st.pending.Some? then Plan([], Paused)
    else
      var halted := Apply(st, SetHalt);
      var poll := PollPlan(env, halted, reply);
      var end := FetchEnd(ApplyAll(halted, poll.writes), poll);
      Plan([SetHalt] + poll.writes + end.writes, end.exit)
  }

  /** The states a review passes through: nothing done, receipt saved, clean-up. */
  lemma ReviewWrites(env: Env, st: State, cut: nat)
    requires st.batch.Some?
    ensures var plan, r := ReviewSaved(env, st), Review(env, st.batch.value, st.archive);
            var saved: nat := if st.receipt.Some? then 0 else 1;
            if r == None || (st.receipt.Some? && st.receipt != r) then plan == Plan([], Failed) && After(st, plan.writes, cut) == st
            else && |plan.writes| == saved + (if r.value.items == [] then 2 else 0)
                 && After(st, plan.writes, cut) ==
                    if cut < saved then st
                    else After(st.(receipt := r), if r.value.items == [] then [ClearBatch, ClearReceipt] else [], cut - saved)
  {
    hide Review, After;
    var r := Review(env, st.batch.value, st.archive);
    if r.None? || (st.receipt.Some? && st.receipt != r) {
      AfterNothing(st, cut);
    } else {
      var end := if r.value.items == [] then [ClearBatch, ClearReceipt] else [];
      if st.receipt == None {
        SavedThen(st, r.value, end, cut);
        assert [SaveReceipt(r.value)] + [] == [SaveReceipt(r.value)];
      } else {
        assert st.(receipt := r) == st && [] + end == end;
      }
    }
  }

  lemma SavedThen(st: State, r: Receipt, end: seq<Write>, cut: nat)
    ensures After(st, [SaveReceipt(r)] + end, cut) == if cut < 1 then st else After(st.(receipt := Some(r)), end, cut - 1)
  {
    hide After;
    AfterConcat(st, [SaveReceipt(r)], end, cut);
    AfterOne(st, SaveReceipt(r), cut);
    AfterOne(st, SaveReceipt(r), 1);
    AfterNothing(st.(receipt := Some(r)), 0);
    if cut == 1 { CutNothing(st.(receipt := Some(r)), end); }
  }

  lemma CutNothing(st: State, ws: seq<Write>)
    ensures After(st, ws, 0) == st
  {
  }

  /** The states an accepted acknowledgement passes through. */
  lemma AckStates(env: Env, st: State, cut: nat)
    ensures AckPlan(env, st).exit == Failed ==> After(st, AckPlan(env, st).writes, cut) == st
    ensures AckPlan(env, st).exit == Done ==>
      var r, ws := st.receipt.value, AckWrites(st, st.receipt.value.proposed).value;
      var mid := Apply(Apply(st, ws[0]), ws[1]);
      var last := if KeyOf(r) in st.archive then ClearReceipt else ArchiveReceipt(r);
      && AckPlan(env, st).writes == ws + [last, ClearBatch]
      && After(st, AckPlan(env, st).writes, cut) ==
           (if cut == 0 then st else if cut == 1 then Apply(st, ws[0]) else if cut == 2 then mid
           else if cut == 3 then Apply(mid, last)
           else Apply(Apply(mid, last), ClearBatch))
      && After(st, ws, cut) == if cut == 0 then st else if cut == 1 then Apply(st, ws[0]) else mid
  {
    hide Review, Apply;
    var plan := AckPlan(env, st);
    if plan.exit == Failed {
      AfterNothing(st, cut);
    } else {
      var ws := AckWrites(st, st.receipt.value.proposed).value;
      AfterFour(st, ws[0], ws[1], plan.writes[2], plan.writes[3], cut);
      AfterTwo(st, ws[0], ws[1], cut);
      if cut >= 2 { AfterTwo(Apply(Apply(st, ws[0]), ws[1]), plan.writes[2], plan.writes[3], cut - 2); }
    }
  }

  /** The states a fetch passes through: halted, polled, resumed or published. */
  lemma FetchStates(env: Env, st: State, reply: Reply, cut: nat)
    requires !st.halt && st.batch.None? && st.pending.None?
    ensures var halted := Apply(st, SetHalt);
            var poll := PollPlan(env, halted, reply);
            var mid, n := ApplyAll(halted, poll.writes), 1 + |poll.writes|;
            var plan, end := FetchPlan(env, st, reply), FetchEnd(mid, poll);
            && |plan.writes| == n + |end.writes| && plan.exit == end.exit
            && (cut >= n ==> After(halted, poll.writes, cut - 1) == mid)
            && After(st, plan.writes, cut) ==
                 if cut == 0 then st
                 else if cut <= n || end.writes == [] then After(halted, poll.writes, cut - 1)
                 else Apply(mid, end.writes[0])
  {
    hide PollPlan;
    var halted := Apply(st, SetHalt);
    var poll := PollPlan(env, halted, reply);
    var end := FetchEnd(ApplyAll(halted, poll.writes), poll);
    assert ([SetHalt] + poll.writes + end.writes)[1..] == poll.writes + end.writes;
    if cut > 0 {
      AfterConcat(halted, poll.writes, end.writes, cut - 1);
      if cut - 1 >= |poll.writes| {
        AfterEnough(halted, poll.writes, cut - 1);
        if end.writes != [] { AfterOne(ApplyAll(halted, poll.writes), end.writes[0], cut - 1 - |poll.writes|); }
      }
    }
  }

  // ---- The same scripts, file by file ------------------------------------------------------------------

  class Box {
    var cursor: Option<Mark>
    var pending: Option<Mark>
    var batch: Option<Batch>
    var receipt: Option<Receipt>
    var archive: map<Key, Receipt>
    var halt: bool

    function Value(): State
      reads this
    {
      State(cursor, pending, batch, receipt, archive, halt)
    }

    constructor (st: State)
      ensures Value() == st
    {
      cursor, pending, batch := st.cursor, st.pending, st.batch;
      receipt, archive, halt := st.receipt, st.archive, st.halt;
    }

    /** `left` counts the writes before the crash; `left'` what remains of it, `done` whether
        the poller reached its end. */
    method Poll(env: Env, reply: Reply, left: nat) returns (exit: Exit, output: Option<Batch>, left': nat)
      modifies this
      ensures var plan := PollPlan(env, old(Value()), reply);
              && plan.exit != Crashed && (plan.output.Some? <==> plan.exit == Done)
              && Value() == After(old(Value()), plan.writes, left)
              && (if left >= |plan.writes| then exit == plan.exit && output == plan.output && left' == left - |plan.writes|
                  else exit == Crashed && output == None)
    {
      hide Acceptable;
      exit, output, left' := Failed, None, left;
      if pending.Some? {
        return StillPending, None, left;
      }
      var starting := if cursor.Some? then cursor.value.cursor else 0;
      var stored := if cursor.Some? then cursor.value.generation else None;
      if reply.Unavailable? {
        return Transient, None, left;
      }
      if reply.Malformed? || !Acceptable(env, reply.response, starting) {
        return;
      }
      var r := reply.response;
      if !r.waitHeld {
        return Transient, None, left;
      }
      if stored.Some? && r.generation.Some? && stored != r.generation {
        return GenerationChanged, None, left;
      }
      if starting > 0 && r.first.Some? && r.first.value > starting + 1 {
        return HistoryGap, None, left;
      }
      var effective := if r.generation.Some? then r.generation else stored;
      var printed := Batch(effective, starting, r.last, r.count, r.first, r.last, r.messages);
      if r.last > starting {
        if left == 0 {
          return Crashed, None, 0;
        }
        pending, left' := Some(Mark(effective, r.last)), left - 1;
      } else if stored.None? && effective.Some? {
        if left == 0 {
          return Crashed, None, 0;
        }
        cursor, left' := Some(Mark(effective, starting)), left - 1;
      }
      return Done, Some(printed), left';
    }

    /** write_receipt: keep an identical receipt, create a missing one, refuse any other. */
    method WriteReceipt(r: Receipt, left: nat) returns (exit: Exit, left': nat)
      modifies this
      ensures old(receipt).Some? && old(receipt).value != r ==> Value() == old(Value()) && exit == Failed
      ensures old(receipt) == Some(r) ==> Value() == old(Value()) && exit == Done && left' == left
      ensures old(receipt) == None ==>
        if left == 0 then Value() == old(Value()) && exit == Crashed
        else Value() == Apply(old(Value()), SaveReceipt(r)) && exit == Done && left' == left - 1
    {
      if receipt.Some? {
        return if receipt.value == r then Done else Failed, left;
      }
      if left == 0 {
        return Crashed, 0;
      }
      receipt := Some(r);
      return Done, left - 1;
    }

    /** The review of the saved batch, then the clean-up of an empty one. */
    method ReviewOnDisk(env: Env, left: nat) returns (exit: Exit)
      requires batch.Some?
      modifies this
      ensures var plan := ReviewSaved(env, old(Value()));
              && Value() == After(old(Value()), plan.writes, left)
              && exit == if left >= |plan.writes| then plan.exit else Crashed
    {
      hide Review, After;
      var reviewed := ReviewBatch(env, batch.value, archive);
      ghost var start := Value();
      ReviewWrites(env, start, left);
      if reviewed.None? {
        return Failed;
      }
      var status, room := WriteReceipt(reviewed.value, left);
      if status != Done {
        return status;
      }
      AfterTwo(Value(), ClearBatch, ClearReceipt, room);
      if reviewed.value.items == [] {
        if room == 0 {
          return Crashed;
        }
        batch := None;
        if room == 1 {
          return Crashed;
        }
        receipt := None;
        return Done;
      }
      AfterNothing(Value(), room);
      return if pending.Some? then Done else Failed;
    }

    /** review-mailbox.sh */
    method ReviewMailbox(env: Env, reply: Reply, left: nat) returns (exit: Exit)
      modifies this
      ensures var plan := ReviewPlan(env, old(Value()), reply);
              && Value() == After(old(Value()), plan.writes, left)
              && exit == if left >= |plan.writes| then plan.exit else Crashed
    {
      hide PollPlan, ReviewSaved;
      if batch.Some? {
        exit := ReviewOnDisk(env, left);
        return;
      }
      if pending.Some? {
        return Failed;
      }
      ghost var start, poll := Value(), PollPlan(env, Value(), reply);
      var status, printed, room := Poll(env, reply, left);
      if poll.output.Some? {
        ghost var writes := poll.writes + [SaveBatch(poll.output.value)];
        ghost var rest := ReviewSaved(env, ApplyAll(start, poll.writes).(batch := poll.output));
        AfterConcat(start, writes, rest.writes, left);
        AfterConcat(start, poll.writes, [SaveBatch(poll.output.value)], left);
        AfterConcat(start, poll.writes, [SaveBatch(poll.output.value)], |writes|);
        AfterOne(ApplyAll(start, poll.writes), SaveBatch(poll.output.value), 1);
      }
      if printed.None? {
        return status;
      }
      AfterEnough(start, poll.writes, left);
      if room == 0 {
        return Crashed;
      }
      batch := printed;
      exit := ReviewOnDisk(env, room - 1);
    }

    /** ack-mailbox.sh */
    method AckMailbox(acknowledged: SafeInt, left: nat) returns (exit: Exit)
      modifies `cursor, `pending
      ensures var ws := AckWrites(old(Value()), acknowledged);
              if ws == None then Value() == old(Value()) && exit == Failed
              else Value() == After(old(Value()), ws.value, left) && exit == if left >= 2 then Done else Crashed
    {
      if pending.None? || pending.value.cursor != acknowledged {
        return Failed;
      }
      var current := if cursor.Some? then cursor.value.cursor else 0;
      var known := if cursor.Some? then cursor.value.generation else None;
      var announced := pending.value.generation;
      if acknowledged < current || (known.Some? && announced.Some? && known != announced) {
        return Failed;
      }
      ghost var target := Mark(if announced.Some? then announced else known, acknowledged);
      AfterTwo(Value(), Acknowledge(target), ClearPending, left);
      if left == 0 {
        return Crashed;
      }
      cursor := Some(Mark(if announced.Some? then announced else known, acknowledged));
      if left == 1 {
        return Crashed;
      }
      pending := None;
      return Done;
    }

    /** ack-reviewed-mailbox.sh */
    method AckReviewed(env: Env, left: nat) returns (exit: Exit)
      modifies this
      ensures var plan := AckPlan(env, old(Value()));
              && Value() == After(old(Value()), plan.writes, left)
              && exit == if left >= |plan.writes| then plan.exit else Crashed
    {
      hide Review, After;
      AckStates(env, Value(), left);
      if batch.None? || receipt.None? {
        return Failed;
      }
      var again := ReviewBatch(env, batch.value, archive);
      if again != receipt || receipt.value.items == [] {
        return Failed;
      }
      var name := KeyOf(receipt.value);
      if name in archive && archive[name] != receipt.value {
        return Failed;
      }
      var acked := AckMailbox(receipt.value.proposed, left);
      if acked != Done {
        return acked;
      }
      if left == 2 {
        return Crashed;
      }
      if name in archive {
        receipt := None;
      } else {
        archive, receipt := archive[name := receipt.value], None;
      }
      if left == 3 {
        return Crashed;
      }
      batch := None;
      return Done;
    }

    /** fetch-mailbox-once.py */
    method FetchOnce(env: Env, reply: Reply, left: nat) returns (exit: Exit)
      modifies this
      ensures var plan := FetchPlan(env, old(Value()), reply);
              && Value() == After(old(Value()), plan.writes, left)
              && exit == if left >= |plan.writes| then plan.exit else Crashed
    {
      hide PollPlan, After;
      if halt || batch.Some? || pending.Some? {
        AfterNothing(Value(), left);
        return Paused;
      }
      FetchStates(env, Value(), reply, left);
      if left == 0 {
        return Crashed;
      }
      halt := true;
      var status, printed, room := Poll(env, reply, left - 1);
      if status == Crashed {
        return Crashed;
      }
      if status == Transient && pending.None? {
        if room == 0 {
          return Crashed;
        }
        halt := false;
        return Transient;
      }
      if printed.None? {
        return Failed;
      }
      if room == 0 {
        return Crashed;
      }
      if printed.value.count == 0 && pending.None? {
        halt := false;
      } else {
        batch := printed;
      }
      return Done;
    }
  }
}
