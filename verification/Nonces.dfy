/** Nonce reservation: any number of senders, one lock, any clock, crashes anywhere. */
module Nonces {
  import opened Wrappers
  import opened Json

  // The shell compares signed 64-bit integers; a larger operand makes the test an error,
  // which an `if` takes for false.
  const INT64_LIMIT: nat := 0x8000_0000_0000_0000
  const DIGITS_LIMIT: nat := 10_000_000_000_000_000_000
  const LAST_NONCE: nat := 9_223_372_036_854_775_806

  datatype Refusal = InvalidClock | InvalidStored | LimitReached

  predicate ShellAtMost(a: nat, b: nat) {
    a < INT64_LIMIT && b < INT64_LIMIT && a <= b
  }

  /** The nonce chosen under the lock from the stored one (0 when there is none) and the clock. */
  function Choose(stored: Option<nat>, now: nat): Result<nat, Refusal> {
    var previous := match stored case None => 0 case Some(n) => n;
    if now >= DIGITS_LIMIT then Err(InvalidClock)
    else if previous >= DIGITS_LIMIT then Err(InvalidStored)
    else if !ShellAtMost(now, previous) then Ok(now)
    else if previous >= LAST_NONCE then Err(LimitReached)
    else Ok(previous + 1)
  }

  /** A chosen nonce exceeds the stored one exactly when the comparison was real or the clock
      was ahead anyway. */
  lemma ChoiceIncreases(previous: nat, now: nat)
    requires Choose(Some(previous), now).Ok?
    ensures Choose(Some(previous), now).value > previous
            <==> (now < INT64_LIMIT && previous < INT64_LIMIT) || now > previous
  {
  }

  /** Within 64 bits the choice is the least number above the stored one (0 when there is none)
      that the clock has not passed; it is refused exactly when that number is 2^63 - 1 without
      the clock itself reaching it. Outside 64 bits a clock of at most 19 digits is taken as it is. */
  lemma ChosenExactly(stored: Option<nat>, now: nat)
    ensures var previous := if stored.Some? then stored.value else 0;
            var least := if now > previous then now else previous + 1;
            && (now < 0x8000_0000_0000_0000 && previous < 0x8000_0000_0000_0000 ==>
                  Choose(stored, now)
                  == if now <= previous && least >= 9_223_372_036_854_775_807 then Err(LimitReached) else Ok(least))
            && (now >= 10_000_000_000_000_000_000 ==> Choose(stored, now) == Err(InvalidClock))
            && (now < 10_000_000_000_000_000_000 && previous >= 10_000_000_000_000_000_000 ==>
                  Choose(stored, now) == Err(InvalidStored))
            && ((now < 10_000_000_000_000_000_000 && previous < 10_000_000_000_000_000_000
                 && (now >= 0x8000_0000_0000_0000 || previous >= 0x8000_0000_0000_0000)) ==> Choose(stored, now) == Ok(now))
  {
  }

  /** Beyond 64 bits a nonce goes back: the stored value below has 19 digits, so it is read. */
  lemma LargeNonceGoesBack()
    ensures Choose(Some(9_223_372_036_854_775_808), 5) == Ok(5)
    ensures Choose(Some(5), 9_223_372_036_854_775_808) == Ok(9_223_372_036_854_775_808)
  {
  }

  // ---- Senders -----------------------------------------------------------------------------

  // Where one sender is; in the middle three it holds the lock.
  datatype Phase =
    | Outside
    | Locked(room: Text) | Chosen(room: Text, nonce: nat) | Written(room: Text, nonce: nat)
    | Signing(room: Text, nonce: nat)

  // A reservation, in the order the nonce files were replaced.
  datatype Entry = Entry(room: Text, nonce: nat, sender: nat)

  datatype World = World(holder: Option<nat>, phases: map<nat, Phase>, files: map<Text, nat>, log: seq<Entry>)

  datatype Event =
    | Enter(sender: nat, room: Text) | Read(sender: nat, now: nat) | Replace(sender: nat)
    | Leave(sender: nat) | Finish(sender: nat) | Crash(sender: nat)

  function PhaseOf(w: World, s: nat): Phase {
    if s in w.phases then w.phases[s] else Outside
  }

  function Stored(w: World, room: Text): Option<nat> {
    if room in w.files then Some(w.files[room]) else None
  }

  /** One event; an event that is not enabled changes nothing. A crash frees the lock. */
  function Step(w: World, e: Event): World {
    var s := e.sender;
    match (e, PhaseOf(w, s))
    case (Enter(_, room), Outside) =>
      if w.holder.Some? then w else w.(holder := Some(s), phases := w.phases[s := Locked(room)])
    case (Read(_, now), Locked(room)) =>
      (match Choose(Stored(w, room), now)
       case Err(_) => w.(holder := None, phases := w.phases[s := Outside])
       case Ok(nonce) => w.(phases := w.phases[s := Chosen(room, nonce)]))
    case (Replace(_), Chosen(room, nonce)) =>
      w.(files := w.files[room := nonce], log := w.log + [Entry(room, nonce, s)], phases := w.phases[s := Written(room, nonce)])
    case (Leave(_), Written(room, nonce)) =>
      w.(holder := None, phases := w.phases[s := Signing(room, nonce)])
    case (Finish(_), Signing(_, _)) => w.(phases := w.phases[s := Outside])
    case (Crash(_), _) =>
      w.(holder := if w.holder == Some(s) then None else w.holder, phases := w.phases[s := Outside])
    case _ => w
  }

  function Run(w: World, events: seq<Event>): World {
    if events == [] then w else Step(Run(w, events[..|events| - 1]), events[|events| - 1])
  }

  predicate InSection(p: Phase) {
    p.Locked? || p.Chosen? || p.Written?
  }

  predicate Increasing(log: seq<Entry>) {
    forall i, j | 0 <= i < j < |log| && log[i].room == log[j].room :: log[i].nonce < log[j].nonce
  }

  function Previous(w: World, room: Text): nat {
    if room in w.files then w.files[room] else 0
  }

  /** Only the holder of the lock is inside the section. */
  predicate Exclusive(w: World) {
    forall s | s in w.phases :: InSection(w.phases[s]) ==> w.holder == Some(s)
  }

  /** A nonce chosen but not yet written is ahead of the stored one. */
  predicate Ahead(w: World) {
    forall s | s in w.phases :: w.phases[s].Chosen? ==> Previous(w, w.phases[s].room) < w.phases[s].nonce < INT64_LIMIT
  }

  /** A nonce is only signed by the sender that reserved it. */
  predicate Owned(w: World) {
    forall s | s in w.phases :: w.phases[s].Written? || w.phases[s].Signing? ==>
      Entry(w.phases[s].room, w.phases[s].nonce, s) in w.log
  }

  /** The stored nonce is the highest reserved one. */
  predicate Topmost(w: World) {
    && (forall room | room in w.files :: w.files[room] < INT64_LIMIT)
    && (forall i | 0 <= i < |w.log| :: w.log[i].nonce <= Previous(w, w.log[i].room))
    && Increasing(w.log)
  }

  predicate Inv(w: World) {
    Exclusive(w) && Ahead(w) && Owned(w) && Topmost(w)
  }

  lemma StepExcludes(w: World, e: Event)
    requires Exclusive(w)
    ensures Exclusive(Step(w, e))
  {
    hide Choose;
  }

  lemma StepStaysAhead(w: World, e: Event)
    requires Inv(w) && (e.Read? ==> e.now < INT64_LIMIT)
    ensures Ahead(Step(w, e))
  {
    hide Owned, Increasing;
  }

  lemma StepOwns(w: World, e: Event)
    requires Owned(w)
    ensures Owned(Step(w, e)) && w.log <= Step(w, e).log
  {
    hide Choose;
  }

  lemma StepKeepsTop(w: World, e: Event)
    requires Ahead(w) && Topmost(w)
    ensures Topmost(Step(w, e))
  {
    hide Choose;
    var s := e.sender;
    if e.Replace? && PhaseOf(w, s).Chosen? {
      TopGrows(w, Step(w, e), PhaseOf(w, s).room, PhaseOf(w, s).nonce, s);
    }
  }

  lemma TopGrows(w: World, w': World, room: Text, nonce: nat, s: nat)
    requires Topmost(w) && Previous(w, room) < nonce < INT64_LIMIT
    requires w'.files == w.files[room := nonce] && w'.log == w.log + [Entry(room, nonce, s)]
    ensures Topmost(w')
  {
    forall i | 0 <= i < |w'.log|
      ensures w'.log[i].nonce <= Previous(w', w'.log[i].room)
    {
      if i < |w.log| { assert w.log[i].nonce <= Previous(w, w.log[i].room); }
    }
    forall i, j | 0 <= i < j < |w'.log| && w'.log[i].room == w'.log[j].room
      ensures w'.log[i].nonce < w'.log[j].nonce
    {
      assert w.log[i].nonce <= Previous(w, w.log[i].room);
    }
  }

  lemma StepKeeps(w: World, e: Event)
    requires Inv(w) && (e.Read? ==> e.now < INT64_LIMIT)
    ensures Inv(Step(w, e))
  {
    hide Step, Exclusive, Ahead, Owned, Topmost;
    StepExcludes(w, e);
    StepStaysAhead(w, e);
    StepOwns(w, e);
    StepKeepsTop(w, e);
  }

  /** A quiet start: nobody sending, stored nonces within 64 bits. */
  predicate Start(w: World) {
    && w.holder == None && w.phases == map[] && w.log == []
    && forall room | room in w.files :: w.files[room] < INT64_LIMIT
  }

  lemma {:induction false} RunKeeps(w: World, events: seq<Event>)
    requires Start(w) && forall e | e in events :: e.Read? ==> e.now < INT64_LIMIT
    ensures Inv(Run(w, events))
  {
    hide Inv, Step;
    if events == [] {
      StartHolds(w);
    } else {
      assert events[|events| - 1] in events;
      RunKeeps(w, events[..|events| - 1]);
      StepKeeps(Run(w, events[..|events| - 1]), events[|events| - 1]);
    }
  }

  lemma StartHolds(w: World)
    requires Start(w)
    ensures Inv(w)
  {
  }

  /** Reserved nonces of a room strictly increase in the order of reservation, for any number of
      senders, any interleaving, any clocks within 64 bits and any crashes; and no two senders
      are ever about to sign with the same nonce in one room. */
  lemma NoncesNeverRepeat(w: World, events: seq<Event>, a: nat, b: nat)
    requires Start(w) && forall e | e in events :: e.Read? ==> e.now < INT64_LIMIT
    ensures Increasing(Run(w, events).log)
    ensures var p, q := PhaseOf(Run(w, events), a), PhaseOf(Run(w, events), b);
            a != b && p.Signing? && q.Signing? && p.room == q.room ==> p.nonce != q.nonce
  {
    hide Run;
    RunKeeps(w, events);
    var w', p, q := Run(w, events), PhaseOf(Run(w, events), a), PhaseOf(Run(w, events), b);
    if a != b && p.Signing? && q.Signing? && p.room == q.room {
      var i :| 0 <= i < |w'.log| && w'.log[i] == Entry(p.room, p.nonce, a);
      var j :| 0 <= j < |w'.log| && w'.log[j] == Entry(q.room, q.nonce, b);
      assert i != j;
    }
  }

  /** At most one sender is between taking the lock and releasing it. */
  lemma OneSenderAtATime(w: World, events: seq<Event>, a: nat, b: nat)
    requires Start(w) && forall e | e in events :: e.Read? ==> e.now < INT64_LIMIT
    requires InSection(PhaseOf(Run(w, events), a)) && InSection(PhaseOf(Run(w, events), b))
    ensures a == b
  {
    hide Run;
    RunKeeps(w, events);
  }

  /** The critical section of one sender, file by file. */
  class NonceFiles {
    var files: map<Text, nat>

    constructor ()
      ensures files == map[]
    {
      files := map[];
    }

    method Reserve(room: Text, now: nat) returns (result: Result<nat, Refusal>)
      modifies this
      ensures result == Choose(if room in old(files) then Some(old(files)[room]) else None, now)
      ensures files == if result.Ok? then old(files)[room := result.value] else old(files)
    {
      if now >= DIGITS_LIMIT {
        return Err(InvalidClock);
      }
      var previous := if room in files then files[room] else 0;
      if previous >= DIGITS_LIMIT {
        return Err(InvalidStored);
      }
      var nonce := now;
      if ShellAtMost(now, previous) {
        if previous >= LAST_NONCE {
          return Err(LimitReached);
        }
        nonce := previous + 1;
      }
      files := files[room := nonce];
      return Ok(nonce);
    }
  }
}
