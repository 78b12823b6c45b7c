/** What a worker does with a claimed job: deliver, retry later, or give up. */
module Worker {
  const SECOND: int := 1_000_000_000

  /** Which attempts counts the delay stops doubling at, as an exponent. */
  const RETRY_SHIFT: nat := 5
  const CALLBACK_SHIFT: nat := 6

  function Pow2(n: nat): (r: int)
    ensures r > 0
  {
    if n == 0 then 1 else 2 * Pow2(n - 1)
  }

  function Shift(attempt: int, maxShift: nat): nat {
    if attempt < 1 then 0 else if attempt - 1 < maxShift then attempt - 1 else maxShift
  }

  /** The doubling part of the delay. */
  function Base(attempt: int, maxShift: nat): (r: int)
    ensures r >= SECOND
  {
    SECOND * Pow2(Shift(attempt, maxShift))
  }

  /** Up to a quarter on top; `jitter` is drawn from [0, 1). */
  function Jitter(base: int, jitter: real): int {
    (base as real * 0.25 * jitter).Floor
  }

  function Backoff(attempt: int, maxShift: nat, jitter: real): int {
    Base(attempt, maxShift) + Jitter(Base(attempt, maxShift), jitter)
  }

  /** What came back from the other side. */
  datatype Delivery<+D> = Delivered(decision: D) | Undelivered(retryable: bool)

  datatype Plan = Apply | Reschedule(at: int) | GiveUp

  /** `processOne` after the claim: the deadline check at `checkedAt`, the call, the policy at `now`. */
  function PlanConfirmation<D>(attempts: int, maxAttempts: int, deadline: int,
                               checkedAt: int, delivery: Delivery<D>, now: int, jitter: real): Plan
  {
    if checkedAt >= deadline then GiveUp
    else match delivery {
      case Delivered(_) => Apply
      case Undelivered(retryable) =>
        var next := now + Backoff(attempts, RETRY_SHIFT, jitter);
        if !retryable || attempts >= maxAttempts || next >= deadline then GiveUp else Reschedule(next)
    }
  }

  function PlanCancellation<D>(attempts: int, maxAttempts: int, delivery: Delivery<D>, now: int, jitter: real): Plan {
    match delivery {
      case Delivered(_) => Apply
      case Undelivered(retryable) =>
        if !retryable || attempts >= maxAttempts then GiveUp
        else Reschedule(now + Backoff(attempts, RETRY_SHIFT, jitter))
    }
  }

  lemma Scaled(quarter: real, jitter: real)
    requires 0.0 <= quarter && 0.0 <= jitter < 1.0
    ensures 0.0 <= quarter * jitter <= quarter
  {
  }

  lemma FloorBetween(x: real, upper: real)
    requires 0.0 <= x <= upper
    ensures 0 <= x.Floor && x.Floor as real <= upper
  {
  }

  lemma JitterBounds(base: int, jitter: real)
    requires base > 0 && 0.0 <= jitter < 1.0
    ensures 0 <= 4 * Jitter(base, jitter) <= base
  {
    var quarter := base as real * 0.25;
    Scaled(quarter, jitter);
    var x := quarter * jitter;
    FloorBetween(x, quarter);
    assert Jitter(base, jitter) == x.Floor;
    QuarterOf(x.Floor, base);
  }

  lemma QuarterOf(part: int, base: int)
    requires part as real <= base as real * 0.25
    ensures 4 * part <= base
  {
  }

  lemma BackoffBounds(attempt: int, maxShift: nat, jitter: real)
    requires 0.0 <= jitter < 1.0
    ensures Base(attempt, maxShift) <= Backoff(attempt, maxShift, jitter)
    ensures 4 * Backoff(attempt, maxShift, jitter) <= 5 * Base(attempt, maxShift)
  {
    JitterBounds(Base(attempt, maxShift), jitter);
  }

  /** Until the cap is reached the next delay is longer, whatever the two jitters are. */
  lemma BackoffGrows(attempt: int, maxShift: nat, jitter: real, nextJitter: real)
    requires 0.0 <= jitter < 1.0 && 0.0 <= nextJitter < 1.0
    requires 1 <= attempt <= maxShift
    ensures Backoff(attempt, maxShift, jitter) < Backoff(attempt + 1, maxShift, nextJitter)
  {
    BackoffBounds(attempt, maxShift, jitter);
    BackoffBounds(attempt + 1, maxShift, nextJitter);
    assert Base(attempt + 1, maxShift) == 2 * Base(attempt, maxShift);
  }

  /** The delays in seconds: doubling from one to 32 between attempts at the venue and to 64 between callbacks, each
      with up to a quarter on top. */
  lemma RetryDelays(attempt: int, jitter: real)
    requires 0.0 <= jitter < 1.0
    ensures var seconds := if attempt <= 1 then 1 else if attempt == 2 then 2 else if attempt == 3 then 4
                           else if attempt == 4 then 8 else if attempt == 5 then 16 else 32;
      && seconds * SECOND <= Backoff(attempt, RETRY_SHIFT, jitter)
      && 4 * Backoff(attempt, RETRY_SHIFT, jitter) <= 5 * seconds * SECOND
    ensures var seconds := if attempt <= 1 then 1 else if attempt == 2 then 2 else if attempt == 3 then 4
                           else if attempt == 4 then 8 else if attempt == 5 then 16
                           else if attempt == 6 then 32 else 64;
      && seconds * SECOND <= Backoff(attempt, CALLBACK_SHIFT, jitter)
      && 4 * Backoff(attempt, CALLBACK_SHIFT, jitter) <= 5 * seconds * SECOND
  {
    BackoffBounds(attempt, RETRY_SHIFT, jitter);
    BackoffBounds(attempt, CALLBACK_SHIFT, jitter);
    PowersOfTwo();
    hide Backoff, Pow2;
  }

  lemma PowersOfTwo()
    ensures Pow2(0) == 1 && Pow2(1) == 2 && Pow2(2) == 4 && Pow2(3) == 8
    ensures Pow2(4) == 16 && Pow2(5) == 32 && Pow2(6) == 64
  {
    assert Pow2(3) == 2 * Pow2(2);
    assert Pow2(5) == 2 * Pow2(4);
  }

  /** A valid decision obtained in time is applied; a confirmation is put back if and only if it was sent in time, may
      be retried, has attempts left and would be due before its deadline; otherwise it is given up. */
  lemma ConfirmationPolicy<D>(attempts: int, maxAttempts: int, deadline: int,
                              checkedAt: int, delivery: Delivery<D>, now: int, jitter: real)
    ensures var plan, next := PlanConfirmation(attempts, maxAttempts, deadline, checkedAt, delivery, now, jitter),
                              now + Backoff(attempts, RETRY_SHIFT, jitter);
      && (plan == Apply <==> checkedAt < deadline && delivery.Delivered?)
      && (plan == Reschedule(next) <==>
            checkedAt < deadline && delivery == Undelivered(true) && attempts < maxAttempts && next < deadline)
      && (plan.Reschedule? ==> plan.at == next)
      && (plan.Reschedule? && 0.0 <= jitter < 1.0 ==> now + SECOND <= plan.at)
      && (plan == GiveUp <==>
            || checkedAt >= deadline
            || (delivery.Undelivered? && (!delivery.retryable || attempts >= maxAttempts || next >= deadline)))
  {
    hide Backoff, Base;
    if 0.0 <= jitter < 1.0 {
      BackoffBounds(attempts, RETRY_SHIFT, jitter);
    }
  }

  /** A cancellation has no deadline: it is given up if and only if it may not be retried or has no attempt left. */
  lemma CancellationPolicy<D>(attempts: int, maxAttempts: int, delivery: Delivery<D>, now: int, jitter: real)
    ensures var plan, next := PlanCancellation(attempts, maxAttempts, delivery, now, jitter),
                              now + Backoff(attempts, RETRY_SHIFT, jitter);
      && (plan == Apply <==> delivery.Delivered?)
      && (plan == Reschedule(next) <==> delivery == Undelivered(true) && attempts < maxAttempts)
      && (plan.Reschedule? ==> plan.at == next)
      && (plan == GiveUp <==> delivery.Undelivered? && (!delivery.retryable || attempts >= maxAttempts))
  {
    hide Backoff;
  }
}
