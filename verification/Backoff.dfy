/** Bounded retries with doubling delays, in the shell's 64-bit arithmetic. */
module Backoff {

  const INT64_LIMIT: int := 0x8000_0000_0000_0000
  const HALF: int := 0x4000_0000_0000_0000
  const TRANSIENT: int := 75

  function Min(x: int, y: int): int {
    if x < y then x else y
  }

  /** $(( )) on a sum or product of at most twice the 64-bit range. */
  function Wrap(x: int): int {
    if x >= INT64_LIMIT then x - 2 * INT64_LIMIT else if x < -INT64_LIMIT then x + 2 * INT64_LIMIT else x
  }

  function NextDelay(delay: int, max: int): int {
    if delay < max then Min(Wrap(delay * 2), max) else delay
  }

  /** The value of DELAY before retry k. */
  function DelayAt(initial: int, max: int, k: nat): int {
    if k == 0 then initial else NextDelay(DelayAt(initial, max, k - 1), max)
  }

  function Scaled(initial: int, k: nat): int {
    if k == 0 then initial else 2 * Scaled(initial, k - 1)
  }

  function Jitter(random: nat -> nat, k: nat): (j: nat)
    ensures j <= 15
  {
    random(k) % 16
  }

  /** The value of WAIT_SECONDS before retry k. */
  function WaitAt(initial: int, max: int, random: nat -> nat, k: nat): int {
    Wrap(DelayAt(initial, max, k) + Jitter(random, k))
  }

  /** The wait the script means: the capped doubling with its jitter. */
  function Intended(initial: int, max: int, random: nat -> nat, k: nat): int {
    Min(Scaled(initial, k), max) + random(k) % 16
  }

  // ---- Delays -----------------------------------------------------------------------------

  /** No delay that is still to be doubled reaches half the 64-bit range. */
  predicate NeverWraps(initial: int, max: int, n: nat) {
    forall k: nat | k < n :: !(HALF <= Scaled(initial, k) < max)
  }

  lemma {:induction false} ScaledGrows(initial: int, j: nat, k: nat)
    requires 0 < initial && j <= k
    ensures 0 < Scaled(initial, j) <= Scaled(initial, k)
    decreases k
  {
    if j < k {
      ScaledGrows(initial, j, k - 1);
    } else if k > 0 {
      ScaledGrows(initial, k - 1, k - 1);
    }
  }

  lemma {:induction false} DelayInRange(initial: int, max: int, k: nat)
    requires 0 < initial <= max < INT64_LIMIT
    ensures -INT64_LIMIT <= DelayAt(initial, max, k) <= max
  {
    if k > 0 { DelayInRange(initial, max, k - 1); }
  }

  /** Before retry k the delay is the initial delay doubled k times, capped at the maximum,
      for every retry up to n exactly when no doubling wraps around. */
  lemma {:induction false} DelayClosedForm(initial: int, max: int, n: nat)
    requires 0 < initial <= max < INT64_LIMIT
    ensures (forall k: nat | k <= n :: DelayAt(initial, max, k) == Min(Scaled(initial, k), max))
            <==> NeverWraps(initial, max, n)
  {
    if n > 0 {
      DelayClosedForm(initial, max, n - 1);
      ScaledGrows(initial, n - 1, n - 1);
      if NeverWraps(initial, max, n) {
        assert NeverWraps(initial, max, n - 1);
      } else if NeverWraps(initial, max, n - 1) {
        assert HALF <= Scaled(initial, n - 1) < max;
        assert DelayAt(initial, max, n - 1) == Scaled(initial, n - 1);
        assert DelayAt(initial, max, n) < 0;
      }
    }
  }

  lemma DelayCanWrap()
    ensures DelayAt(0x4000_0000_0000_0000, 0x4000_0000_0000_0001, 1) == -0x8000_0000_0000_0000
  {
    assert DelayAt(0x4000_0000_0000_0000, 0x4000_0000_0000_0001, 0) == 0x4000_0000_0000_0000;
  }

  // ---- Waits ------------------------------------------------------------------------------

  /** Every intended wait fits 64 bits. */
  predicate WaitsFit(initial: int, max: int, random: nat -> nat, n: nat) {
    forall k: nat | k < n :: Intended(initial, max, random, k) < INT64_LIMIT
  }

  /** Neither a delay to be used nor a wait overflows in n retries. */
  predicate NoOverflow(initial: int, max: int, random: nat -> nat, n: nat) {
    NeverWraps(initial, max, if n == 0 then 0 else n - 1) && WaitsFit(initial, max, random, n)
  }

  lemma WaitMeansDelay(initial: int, max: int, random: nat -> nat, k: nat)
    requires 0 < initial <= max < INT64_LIMIT
    ensures WaitAt(initial, max, random, k) == Intended(initial, max, random, k)
            <==> DelayAt(initial, max, k) == Min(Scaled(initial, k), max) && Intended(initial, max, random, k) < INT64_LIMIT
    ensures Intended(initial, max, random, k) > 0
  {
    hide DelayAt, Scaled;
    DelayInRange(initial, max, k);
    ScaledGrows(initial, k, k);
  }

  /** The first n waits are all as intended exactly when nothing overflows. */
  lemma WaitsClosedForm(initial: int, max: int, random: nat -> nat, n: nat)
    requires 0 < initial <= max < INT64_LIMIT
    ensures (forall k: nat | k < n :: WaitAt(initial, max, random, k) == Intended(initial, max, random, k))
            <==> NoOverflow(initial, max, random, n)
  {
    hide DelayAt, Scaled, Jitter, WaitAt, Intended, NeverWraps;
    if n == 0 {
      NothingWraps(initial, max);
    } else {
      DelayClosedForm(initial, max, n - 1);
      if forall k: nat | k < n :: WaitAt(initial, max, random, k) == Intended(initial, max, random, k) {
        forall k: nat | k <= n - 1
          ensures DelayAt(initial, max, k) == Min(Scaled(initial, k), max) && Intended(initial, max, random, k) < INT64_LIMIT
        {
          WaitMeansDelay(initial, max, random, k);
        }
      }
      if NoOverflow(initial, max, random, n) {
        forall k: nat | k < n
          ensures WaitAt(initial, max, random, k) == Intended(initial, max, random, k)
        {
          assert DelayAt(initial, max, k) == Min(Scaled(initial, k), max);
          WaitMeansDelay(initial, max, random, k);
        }
      }
    }
  }

  lemma NothingWraps(initial: int, max: int)
    ensures NeverWraps(initial, max, 0)
  {
  }

  /** With any maximum up to half the range, which is 146 billion years, nothing overflows. */
  lemma OrdinaryDelays(initial: int, max: int, random: nat -> nat, n: nat)
    requires max <= HALF
    ensures NoOverflow(initial, max, random, n)
  {
  }

  /** The second way to overflow: no doubling at all, and a jitter of 5 on the largest delay. */
  lemma WaitCanWrap(random: nat -> nat)
    requires random(0) == 5
    ensures NeverWraps(0x7FFF_FFFF_FFFF_FFFF, 0x7FFF_FFFF_FFFF_FFFF, 1)
    ensures WaitAt(0x7FFF_FFFF_FFFF_FFFF, 0x7FFF_FFFF_FFFF_FFFF, random, 0) == -0x7FFF_FFFF_FFFF_FFFC
  {
    assert DelayAt(0x7FFF_FFFF_FFFF_FFFF, 0x7FFF_FFFF_FFFF_FFFF, 0) == 0x7FFF_FFFF_FFFF_FFFF;
  }

  // ---- The loop -----------------------------------------------------------------------------

  /** The first n polls were all transient. */
  predicate AllTransient(status: nat -> int, n: nat) {
    forall k: nat | k < n :: status(k) == TRANSIENT
  }

  /** The retries the statuses call for: one after each leading transient poll but the last
      allowed one. */
  function Retries(status: nat -> int, maxAttempts: nat, k: nat): (n: nat)
    requires k < maxAttempts && AllTransient(status, k)
    ensures k <= n < maxAttempts && AllTransient(status, n) && (status(n) == TRANSIENT ==> n == maxAttempts - 1)
    decreases maxAttempts - k
  {
    if k == maxAttempts - 1 || status(k) != TRANSIENT then k else Retries(status, maxAttempts, k + 1)
  }

  // How the script ends: its status, the polls it made and the seconds it slept.
  datatype Ending = Ending(exit: int, polls: nat, waits: seq<int>)

  /** As meant: poll once more than the retries called for, sleep the intended waits between, and
      pass the last status on. */
  predicate AsIntended(e: Ending, initial: int, max: int, status: nat -> int, random: nat -> nat, n: nat) {
    && e.exit == status(n) && e.polls == n + 1 && |e.waits| == n
    && forall k: nat | k < n :: e.waits[k] == Intended(initial, max, random, k)
  }

  /** Every sleep so far took a nonnegative wait. */
  predicate Slept(initial: int, max: int, random: nat -> nat, waits: seq<int>) {
    forall k: nat | k < |waits| :: waits[k] == WaitAt(initial, max, random, k) >= 0
  }

  /** `status(k)` is what poll k returns and `random(k)` the random number drawn after it. A
      negative wait makes `sleep` fail and ends the script with status 1. An attempt limit
      beyond 64 bits makes the loop's own test an error: nothing is polled. */
  method PollWithBackoff(maxAttempts: nat, initial: int, max: int, status: nat -> int, random: nat -> nat)
    returns (end: Ending)
    requires 0 < maxAttempts && 0 < initial < INT64_LIMIT && 0 < max < INT64_LIMIT
    ensures end.polls <= maxAttempts && AllTransient(status, if end.polls == 0 then 0 else end.polls - 1)
    ensures initial > max ==> end == Ending(2, 0, [])
    ensures initial <= max && maxAttempts >= INT64_LIMIT ==> end == Ending(TRANSIENT, 0, [])
    ensures initial <= max && maxAttempts < INT64_LIMIT ==>
              var n := Retries(status, maxAttempts, 0);
              && (AsIntended(end, initial, max, status, random, n) <==> NoOverflow(initial, max, random, n))
              && (end.polls <= n ==> end.exit == 1)
    ensures Slept(initial, max, random, end.waits)
  {
    hide DelayAt, Scaled, Jitter, NoOverflow, Intended, Retries;
    if initial > max {
      return Ending(2, 0, []);
    }
    if maxAttempts >= INT64_LIMIT {
      return Ending(TRANSIENT, 0, []);
    }
    ghost var n := Retries(status, maxAttempts, 0);
    DelayAtStep(initial, max, 0);
    var delay, attempt, waits: seq<int> := initial, 1, [];
    while true
      invariant 1 <= attempt <= n + 1 && |waits| == attempt - 1
      invariant delay == DelayAt(initial, max, attempt - 1)
      invariant AllTransient(status, attempt - 1)
      invariant Slept(initial, max, random, waits)
      decreases maxAttempts - attempt
    {
      var result := status(attempt - 1);
      if result != TRANSIENT || attempt >= maxAttempts {
        assert attempt == n + 1;
        end := Ending(result, attempt, waits);
        AllWaited(end, initial, max, status, random, n);
        return;
      }
      assert attempt <= n;
      var wait := Wrap(delay + Jitter(random, attempt - 1));
      DelayAtStep(initial, max, attempt - 1);
      if wait < 0 {
        end := Ending(1, attempt, waits);
        CutShort(end, initial, max, status, random, n);
        return;
      }
      waits := waits + [wait];
      if delay < max {
        delay := Wrap(delay * 2);
        if delay > max {
          delay := max;
        }
      }
      attempt := attempt + 1;
    }
  }

  lemma DelayAtStep(initial: int, max: int, k: nat)
    ensures DelayAt(initial, max, 0) == initial
    ensures DelayAt(initial, max, k + 1) == NextDelay(DelayAt(initial, max, k), max)
  {
  }

  lemma AllWaited(e: Ending, initial: int, max: int, status: nat -> int, random: nat -> nat, n: nat)
    requires 0 < initial <= max < INT64_LIMIT
    requires e.exit == status(n) && e.polls == n + 1 && |e.waits| == n && Slept(initial, max, random, e.waits)
    ensures AsIntended(e, initial, max, status, random, n) <==> NoOverflow(initial, max, random, n)
  {
    hide WaitAt, Intended, NoOverflow;
    WaitsClosedForm(initial, max, random, n);
    forall k: nat | k < n
      ensures e.waits[k] == WaitAt(initial, max, random, k)
    {
    }
  }

  lemma CutShort(e: Ending, initial: int, max: int, status: nat -> int, random: nat -> nat, n: nat)
    requires 0 < initial <= max < INT64_LIMIT
    requires 1 <= e.polls <= n && WaitAt(initial, max, random, e.polls - 1) < 0
    ensures !AsIntended(e, initial, max, status, random, n) && !NoOverflow(initial, max, random, n)
  {
    hide WaitAt, Intended, NoOverflow;
    WaitsClosedForm(initial, max, random, n);
    WaitMeansDelay(initial, max, random, e.polls - 1);
  }

  // ---- Total waiting ----------------------------------------------------------------------

  function Sum(waits: seq<int>): int {
    if waits == [] then 0 else Sum(waits[..|waits| - 1]) + waits[|waits| - 1]
  }

  lemma {:induction false} SumBound(waits: seq<int>, c: int)
    requires forall k | 0 <= k < |waits| :: waits[k] <= c
    ensures Sum(waits) <= |waits| * c
  {
    if waits != [] {
      SumBound(waits[..|waits| - 1], c);
      assert |waits| * c == (|waits| - 1) * c + c;
    }
  }

  /** However the script ends, overflow or not, it has slept at most
      (attempts - 1) * (maximum + 15) seconds. */
  lemma TotalWait(initial: int, max: int, random: nat -> nat, waits: seq<int>, maxAttempts: nat)
    requires 0 < initial <= max < INT64_LIMIT && |waits| < maxAttempts && Slept(initial, max, random, waits)
    ensures 0 <= Sum(waits) <= (maxAttempts - 1) * (max + 15)
  {
    hide DelayAt, Jitter;
    forall k | 0 <= k < |waits|
      ensures 0 <= waits[k] <= max + 15
    {
      DelayInRange(initial, max, k);
    }
    SumBound(waits, max + 15);
    SumNonnegative(waits);
    MoreAttempts(|waits|, maxAttempts - 1, max + 15);
  }

  lemma {:induction false} SumNonnegative(waits: seq<int>)
    requires forall k | 0 <= k < |waits| :: waits[k] >= 0
    ensures Sum(waits) >= 0
  {
    if waits != [] { SumNonnegative(waits[..|waits| - 1]); }
  }

  lemma MoreAttempts(k: nat, n: nat, c: nat)
    requires k <= n
    ensures k * c <= n * c
  {
  }
}
