/** The reconnect backoff of a pooled OPC UA session. Durations are nanoseconds in 64-bit integers. */
module ReconnectBackoff {
  import opened Wrappers

  datatype ConnectError = TooManySessions | Eof | OtherError

  datatype Backoff = Backoff(lastError: Option<ConnectError>, failures: nat, nextAt: Option<int>)

  const FRESH := Backoff(None, 0, None)

  const SECOND := 1_000_000_000
  const MINUTE := 60 * SECOND
  const SHORTEST := 5 * SECOND
  const LONGEST := 5 * MINUTE

  const TWO_57 := 0x200_0000_0000_0000
  const TWO_63 := 0x8000_0000_0000_0000
  const TWO_64 := 0x1_0000_0000_0000_0000

  function Wrap64(x: int): int { (x + TWO_63) % TWO_64 - TWO_63 }

  /** The base delay that an error gets. */
  function Base(error: ConnectError, retryDelay: int): int {
    match error
    case TooManySessions => MINUTE
    case Eof => 30 * SECOND
    case OtherError => if retryDelay < SHORTEST then SHORTEST else retryDelay
  }

  function Power(shift: nat): int
    requires shift <= 6
  {
    [1, 2, 4, 8, 16, 32, 64][shift]
  }

  /** The delay after the k-th failure in a row. */
  function Delay(base: int, k: nat): int
    requires k >= 1
  {
    var delay := Wrap64(base * Power(if k - 1 > 6 then 6 else k - 1));
    if delay > LONGEST then LONGEST else delay
  }

  function CanAttempt(b: Backoff, now: int): bool { b.nextAt.None? || now >= b.nextAt.value }

  function Recorded(b: Backoff, now: int, error: Option<ConnectError>, retryDelay: int): Backoff {
    if error.None? then FRESH
    else Backoff(error, b.failures + 1, Some(now + Delay(Base(error.value, retryDelay), b.failures + 1)))
  }

  // ----- The delays

  lemma WrapsNothing(base: int, shift: nat)
    requires 0 <= base < TWO_57 && shift <= 6
    ensures Wrap64(base * Power(shift)) == base * Power(shift)
  {
  }

  /** Without overflow: doubled with every failure up to the sixth doubling, and never more than five
      minutes; so for every base the delay is between five seconds and five minutes, grows with the
      failures, and is five minutes from the seventh on. */
  lemma DelayIsCappedDoubling(base: int, k: nat)
    requires SHORTEST <= base < TWO_57 && k >= 1
    ensures var doubled := base * Power(if k > 7 then 6 else k - 1);
            Delay(base, k) == if doubled > LONGEST then LONGEST else doubled
    ensures SHORTEST <= Delay(base, k) <= LONGEST
    ensures Delay(base, k) <= Delay(base, k + 1)
    ensures k >= 7 ==> Delay(base, k) == LONGEST
  {
    WrapsNothing(base, if k - 1 > 6 then 6 else k - 1);
    WrapsNothing(base, if k > 6 then 6 else k);
  }

  /** The delays after the first seven failures in a row, in seconds; each later one is five minutes. */
  lemma SchedulesInSeconds(retryDelay: int, k: nat)
    requires retryDelay <= 5_000_000_000 && 1 <= k
    ensures Delay(Base(TooManySessions, retryDelay), k) ==
            (if k > 7 then 300 else [60, 120, 240, 300, 300, 300, 300][k - 1]) * 1_000_000_000
    ensures Delay(Base(Eof, retryDelay), k) ==
            (if k > 7 then 300 else [30, 60, 120, 240, 300, 300, 300][k - 1]) * 1_000_000_000
    ensures Delay(Base(OtherError, retryDelay), k) ==
            (if k > 7 then 300 else [5, 10, 20, 40, 80, 160, 300][k - 1]) * 1_000_000_000
  {
    var shift := if k - 1 > 6 then 6 else k - 1;
    WrapsNothing(Base(TooManySessions, retryDelay), shift);
    WrapsNothing(Base(Eof, retryDelay), shift);
    WrapsNothing(Base(OtherError, retryDelay), shift);
  }

  /** A longer configured delay is the base of the errors that have none of their own. */
  lemma ConfiguredDelayIsDoubled(retryDelay: int, k: nat)
    requires 5_000_000_000 <= retryDelay < TWO_57 && 1 <= k <= 7
    ensures Delay(Base(OtherError, retryDelay), k) ==
            var doubled := retryDelay * [1, 2, 4, 8, 16, 32, 64][k - 1];
            if doubled > 300_000_000_000 then 300_000_000_000 else doubled
  {
    WrapsNothing(Base(OtherError, retryDelay), k - 1);
  }

  /** The shift at which a long base overflows for the first time. */
  function Overflow(base: int): nat {
    if base < 2 * TWO_57 then 6
    else if base < 4 * TWO_57 then 5
    else if base < 8 * TWO_57 then 4
    else if base < 16 * TWO_57 then 3
    else if base < 32 * TWO_57 then 2
    else 1
  }

  lemma OverflowIsNegative(base: int)
    requires TWO_57 <= base < TWO_63
    ensures Overflow(base) <= 6 && Delay(base, Overflow(base) + 1) < 0
  {
    var s := Overflow(base);
    assert TWO_63 <= base * Power(s) < TWO_64;
  }

  /** The delay keeps its lower bound for every number of failures if and only if the configured retry
      delay is below 2^57 nanoseconds, some four and a half years; above, the product overflows. */
  lemma DelayIsLongEnoughIff(retryDelay: int)
    requires -TWO_63 <= retryDelay < TWO_63
    ensures (forall k: nat :: k >= 1 ==> Delay(Base(OtherError, retryDelay), k) >= SHORTEST) <==> retryDelay < TWO_57
  {
    var base := Base(OtherError, retryDelay);
    if retryDelay < TWO_57 {
      forall k: nat | k >= 1
        ensures Delay(base, k) >= SHORTEST
      {
        DelayIsCappedDoubling(base, k);
      }
    } else {
      OverflowIsNegative(base);
    }
  }

  // ----- Runs of failing attempts

  datatype Attempt = Attempt(now: int, error: ConnectError)

  /** Attempts that the backoff let through and that all failed. */
  ghost predicate Failing(b: Backoff, attempts: seq<Attempt>, retryDelay: int)
    decreases |attempts|
  {
    attempts != [] ==>
      && CanAttempt(b, attempts[0].now)
      && Failing(Recorded(b, attempts[0].now, Some(attempts[0].error), retryDelay), attempts[1..], retryDelay)
  }

  /** The delays after all of the attempts but the last. */
  function Waits(k: nat, attempts: seq<Attempt>, retryDelay: int): int
    decreases |attempts|
  {
    if |attempts| <= 1 then 0
    else Delay(Base(attempts[0].error, retryDelay), k + 1) + Waits(k + 1, attempts[1..], retryDelay)
  }

  /** The second attempt of a run comes after the delay of the first. */
  lemma NextAttempt(b: Backoff, attempts: seq<Attempt>, retryDelay: int)
    requires Failing(b, attempts, retryDelay) && |attempts| > 1 && retryDelay < TWO_57
    ensures var delay := Delay(Base(attempts[0].error, retryDelay), b.failures + 1);
            && attempts[1].now >= attempts[0].now + delay && delay >= SHORTEST
            && (b.failures >= 6 ==> delay == LONGEST)
  {
    DelayIsCappedDoubling(Base(attempts[0].error, retryDelay), b.failures + 1);
    assert attempts[1..][0] == attempts[1];
  }

  /** n failing attempts in a row take at least the sum of their delays, hence at least five seconds each,
      whoever makes them. */
  lemma {:induction false} AttemptsAreSpaced(b: Backoff, attempts: seq<Attempt>, retryDelay: int)
    requires Failing(b, attempts, retryDelay) && attempts != [] && retryDelay < TWO_57
    ensures attempts[|attempts| - 1].now - attempts[0].now >= Waits(b.failures, attempts, retryDelay)
    ensures Waits(b.failures, attempts, retryDelay) >= SHORTEST * (|attempts| - 1)
    decreases |attempts|
  {
    if |attempts| > 1 {
      NextAttempt(b, attempts, retryDelay);
      AttemptsAreSpaced(Recorded(b, attempts[0].now, Some(attempts[0].error), retryDelay), attempts[1..], retryDelay);
    }
  }

  /** From the seventh failure on, whatever the errors, one attempt every five minutes at most. */
  lemma {:induction false} LateAttemptsAreRare(b: Backoff, attempts: seq<Attempt>, retryDelay: int)
    requires Failing(b, attempts, retryDelay) && attempts != [] && retryDelay < TWO_57 && b.failures >= 6
    ensures attempts[|attempts| - 1].now - attempts[0].now >= LONGEST * (|attempts| - 1)
    decreases |attempts|
  {
    if |attempts| > 1 {
      NextAttempt(b, attempts, retryDelay);
      LateAttemptsAreRare(Recorded(b, attempts[0].now, Some(attempts[0].error), retryDelay), attempts[1..], retryDelay);
    }
  }
}
