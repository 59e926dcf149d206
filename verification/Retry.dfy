/**
 * The delivery loop of a worker (internal/worker/pool.go, deliverWithRetry): up to maxRetries + 1
 * calls of Notifier.Send with exponential backoff, cut short by a cancelled context. Go's int and
 * time.Duration are 64 bits wide, and both the attempt budget and the backoff can wrap.
 */
module Retry {
  import opened Common

  const TWO_63 := 0x8000_0000_0000_0000
  const TWO_64 := 0x1_0000_0000_0000_0000
  /** 100 ms in nanoseconds, the unit of time.Duration. */
  const BASE_WAIT := 100_000_000

  predicate InInt64(x: int) {
    -TWO_63 <= x < TWO_63
  }

  /** Two's complement truncation to 64 bits. */
  function WrapInt64(x: int): (r: int)
    ensures InInt64(r)
    ensures InInt64(x) ==> r == x
  {
    (x + TWO_63) % TWO_64 - TWO_63
  }

  datatype SendResult = Delivered | Refused(reason: string)
  datatype DeliveryError = ContextDone | LastSend(reason: string)
  datatype Result = Result(attempts: int, error: Option<DeliveryError>)

  /** What the loop meets, attempt by attempt: ctx.Err() at its head, Send, the select of the backoff. */
  datatype Environment = Environment(
    cancelledAtCheck: int -> bool,
    send: int -> SendResult,
    cancelledInBackoff: int -> bool)

  /** maxRetries + 1 as Go computes it. */
  function Budget(maxRetries: int): int {
    WrapInt64(maxRetries + 1)
  }

  // ---------------------------------------------------------------- the backoff

  function Pow2(n: nat): (r: nat)
    ensures r > 0
  {
    if n == 0 then 1 else 2 * Pow2(n - 1)
  }

  /** time.Duration(1<<uint(attempt-1)) * 100 * time.Millisecond; both operations are on int64. */
  function Backoff(attempt: int): int
    requires attempt >= 1
  {
    WrapInt64(WrapInt64(Pow2(attempt - 1)) * BASE_WAIT)
  }

  /** The time spent in the first n backoffs; a timer for a negative duration fires at once. */
  function TotalBackoff(n: nat): int {
    if n == 0 then 0 else TotalBackoff(n - 1) + Max(0, Backoff(n))
  }

  // ---------------------------------------------------------------- the loop

  /** Attempt a was refused and nobody cancelled before the next one. */
  predicate Continues(env: Environment, a: int) {
    !env.cancelledAtCheck(a) && env.send(a).Refused? && !env.cancelledInBackoff(a)
  }

  /** What deliverWithRetry promises about its answer, read off the environment. */
  predicate Outcome(budget: int, env: Environment, r: Result) {
    if budget < 1 then
      r == Result(budget, None)
    else
      && 0 <= r.attempts <= budget
      && (forall a | 1 <= a < r.attempts :: Continues(env, a))
      && (r.attempts >= 1 ==> !env.cancelledAtCheck(r.attempts))
      && match r.error
         case None =>
           r.attempts >= 1 && env.send(r.attempts).Delivered?
         case Some(LastSend(reason)) =>
           r.attempts == budget && env.send(budget) == Refused(reason)
         case Some(ContextDone) =>
           && r.attempts < budget
           && (r.attempts >= 1 ==> env.send(r.attempts).Refused?)
           && (CutInBackoff(env, r) || env.cancelledAtCheck(r.attempts + 1))
  }

  predicate CutInBackoff(env: Environment, r: Result) {
    r.error == Some(ContextDone) && r.attempts >= 1 && env.cancelledInBackoff(r.attempts)
  }

  /** How many backoffs were waited out before the answer r. */
  function FullWaits(env: Environment, r: Result): int {
    if r.attempts < 1 then 0
    else if r.error == Some(ContextDone) && !CutInBackoff(env, r) then r.attempts
    else r.attempts - 1
  }

  /** The loop. The last two results record the Send calls made and the backoffs waited out. */
  method DeliverWithRetry(maxRetries: int, env: Environment)
    returns (r: Result, sends: seq<SendResult>, waits: seq<int>)
    requires InInt64(maxRetries)
    ensures Outcome(Budget(maxRetries), env, r)
    ensures |sends| == Max(0, r.attempts)
    ensures forall k | 0 <= k < |sends| :: sends[k] == env.send(k + 1)
    ensures |waits| == FullWaits(env, r) && forall k | 0 <= k < |waits| :: waits[k] == Backoff(k + 1)
    ensures 0 <= maxRetries < TWO_63 - 1 ==> Outcome(maxRetries + 1, env, r)
  {
    var budget := Budget(maxRetries);
    var lastErr: Option<DeliveryError> := None;
    sends, waits := [], [];
    var attempt := 1;
    while attempt <= budget
      invariant 1 <= attempt && (budget >= 1 ==> attempt <= budget + 1)
      invariant attempt <= budget ==> forall a | 1 <= a < attempt :: Continues(env, a)
      invariant attempt == budget + 1 ==>
        && (forall a | 1 <= a < budget :: Continues(env, a))
        && (budget >= 1 ==> !env.cancelledAtCheck(budget) && env.send(budget).Refused?
                            && lastErr == Some(LastSend(env.send(budget).reason)))
      invariant budget < 1 ==> attempt == 1 && lastErr == None
      invariant |sends| == attempt - 1
      invariant forall k | 0 <= k < |sends| :: sends[k] == env.send(k + 1)
      invariant |waits| == (if budget >= 1 && attempt == budget + 1 then attempt - 2 else attempt - 1)
      invariant forall k | 0 <= k < |waits| :: waits[k] == Backoff(k + 1)
    {
      if env.cancelledAtCheck(attempt) {
        assert attempt > 1 ==> Continues(env, attempt - 1);
        return Result(attempt - 1, Some(ContextDone)), sends, waits;
      }
      var answer := env.send(attempt);
      sends := sends + [answer];
      if answer.Delivered? {
        return Result(attempt, None), sends, waits;
      }
      lastErr := Some(LastSend(answer.reason));
      if attempt <= maxRetries {
        var backoff := Backoff(attempt);
        if env.cancelledInBackoff(attempt) {
          return Result(attempt, Some(ContextDone)), sends, waits;
        }
        waits := waits + [backoff];
      }
      attempt := attempt + 1;
    }
    return Result(budget, lastErr), sends, waits;
  }

  // ---------------------------------------------------------------- the loop, one blocking point at a time

  /** Where a worker stands inside the loop; this is what interleaves with the rest of the pool. */
  datatype Phase =
    | AtCheck(attempt: int)
    | Sending(attempt: int)
    | BackingOff(attempt: int)
    | Done(result: Result)

  function Start(budget: int): Phase {
    if 1 <= budget then AtCheck(1) else Done(Result(budget, None))
  }

  function AfterCheck(attempt: int, cancelled: bool): Phase {
    if cancelled then Done(Result(attempt - 1, Some(ContextDone))) else Sending(attempt)
  }

  function AfterSend(attempt: int, budget: int, answer: SendResult): Phase {
    match answer
    case Delivered => Done(Result(attempt, None))
    case Refused(reason) =>
      if attempt < budget then BackingOff(attempt) else Done(Result(budget, Some(LastSend(reason))))
  }

  function AfterBackoff(attempt: int, cancelled: bool): Phase {
    if cancelled then Done(Result(attempt, Some(ContextDone))) else AtCheck(attempt + 1)
  }

  /** The loop phases a worker with this budget can be in. */
  predicate ValidPhase(budget: int, phase: Phase) {
    match phase
    case AtCheck(a) => 1 <= a <= budget
    case Sending(a) => 1 <= a <= budget
    case BackingOff(a) => 1 <= a < budget
    case Done(r) => PlausibleResult(budget, r)
  }

  /** The answers the loop can give whatever happens: what MarkSent and MarkFailed can be told. */
  predicate PlausibleResult(budget: int, r: Result) {
    if budget < 1 then r == Result(budget, None)
    else
      && 0 <= r.attempts <= budget
      && (r.error == None ==> 1 <= r.attempts)
      && (r.error == Some(ContextDone) ==> r.attempts < budget)
      && (r.error.Some? && r.error.value.LastSend? ==> r.attempts == budget)
  }

  function Rank(phase: Phase): int {
    match phase case AtCheck(_) => 3 case Sending(_) => 2 case BackingOff(_) => 1 case Done(_) => 0
  }

  function Position(budget: int, phase: Phase): nat
    requires ValidPhase(budget, phase)
  {
    if phase.Done? then 0 else 3 * (budget - phase.attempt) + Rank(phase)
  }

  /** Runs the phases to the end against an environment. */
  function Drive(budget: int, env: Environment, phase: Phase): Result
    requires ValidPhase(budget, phase)
    decreases Position(budget, phase)
  {
    match phase
    case AtCheck(a) => Drive(budget, env, AfterCheck(a, env.cancelledAtCheck(a)))
    case Sending(a) => Drive(budget, env, AfterSend(a, budget, env.send(a)))
    case BackingOff(a) => Drive(budget, env, AfterBackoff(a, env.cancelledInBackoff(a)))
    case Done(r) => r
  }

  /** The history a phase stands for: every earlier attempt was refused and went on. */
  predicate Reached(budget: int, env: Environment, phase: Phase) {
    && ValidPhase(budget, phase)
    && match phase
       case AtCheck(a) => forall b | 1 <= b < a :: Continues(env, b)
       case Sending(a) => (forall b | 1 <= b < a :: Continues(env, b)) && !env.cancelledAtCheck(a)
       case BackingOff(a) =>
         && (forall b | 1 <= b < a :: Continues(env, b))
         && !env.cancelledAtCheck(a) && env.send(a).Refused?
       case Done(r) => Outcome(budget, env, r)
  }

  lemma {:induction false} DriveKeepsReached(budget: int, env: Environment, phase: Phase)
    requires Reached(budget, env, phase)
    ensures Outcome(budget, env, Drive(budget, env, phase))
    decreases Position(budget, phase)
  {
    match phase
    case AtCheck(a) =>
      assert a > 1 ==> Continues(env, a - 1);
      DriveKeepsReached(budget, env, AfterCheck(a, env.cancelledAtCheck(a)));
    case Sending(a) => DriveKeepsReached(budget, env, AfterSend(a, budget, env.send(a)));
    case BackingOff(a) => DriveKeepsReached(budget, env, AfterBackoff(a, env.cancelledInBackoff(a)));
    case Done(_) =>
  }

  /** The promise leaves no choice: an environment has one answer. */
  lemma OutcomeIsUnique(budget: int, env: Environment, r: Result, q: Result)
    requires Outcome(budget, env, r) && Outcome(budget, env, q)
    ensures r == q
  {
    if budget >= 1 {
      // Terms that let the promise of the longer answer speak about the end of the shorter one.
      var _ := Continues(env, r.attempts);
      var _ := Continues(env, r.attempts + 1);
      var _ := Continues(env, q.attempts);
      var _ := Continues(env, q.attempts + 1);
    }
  }

  /**
   * The phases the pool interleaves compute exactly what the loop returns: any answer that keeps the
   * promise of DeliverWithRetry is the one the phases reach, and that one keeps the promise.
   */
  lemma PhasesRefineLoop(budget: int, env: Environment, r: Result)
    ensures ValidPhase(budget, Start(budget))
    ensures Outcome(budget, env, r) <==> r == Drive(budget, env, Start(budget))
  {
    DriveKeepsReached(budget, env, Start(budget));
    if Outcome(budget, env, r) {
      OutcomeIsUnique(budget, env, r, Drive(budget, env, Start(budget)));
    }
  }

  // ---------------------------------------------------------------- what the answer means

  /** An answer reports a delivery honestly: no error exactly when Send was called and the last call succeeded. */
  predicate Honest(env: Environment, r: Result) {
    r.error == None <==> r.attempts >= 1 && env.send(r.attempts).Delivered?
  }

  /**
   * Whatever is sent and whenever the context ends, "no error" means delivered and an error short of the
   * budget means cancelled, exactly when maxRetries + 1 attempts is a positive int64: a negative
   * maxRetries, or the largest int64, makes the loop report success without one call of Send.
   */
  lemma HonestIffBudgetPositive(maxRetries: int)
    requires InInt64(maxRetries)
    ensures (forall env, r | Outcome(Budget(maxRetries), env, r) :: Honest(env, r))
            <==> 0 <= maxRetries < TWO_63 - 1
    ensures forall env, r | Outcome(Budget(maxRetries), env, r) && r.error.Some? && r.attempts < Budget(maxRetries) ::
              r.error == Some(ContextDone)
              && ((r.attempts >= 1 && env.cancelledInBackoff(r.attempts)) || env.cancelledAtCheck(r.attempts + 1))
  {
    var budget := Budget(maxRetries);
    if maxRetries < 0 || maxRetries == TWO_63 - 1 {
      var env := Environment(_ => false, _ => Refused(""), _ => false);
      assert Outcome(budget, env, Result(budget, None));
      assert !Honest(env, Result(budget, None));
    }
  }

  // ---------------------------------------------------------------- the backoff arithmetic

  /** Reducing modulo m commutes with adding multiples of m. */
  lemma ModShift(x: int, k: int, m: int)
    requires m > 0
    ensures (x + k * m) % m == x % m
  {
    var r, d := x % m - (x + k * m) % m, (x + k * m) / m - x / m - k;
    DivisionShift(x, k, m);
    SmallMultiple(d, m);
  }

  lemma DivisionShift(x: int, k: int, m: int)
    requires m > 0
    ensures ((x + k * m) / m - x / m - k) * m == x % m - (x + k * m) % m
  {
    var q, p := x / m, (x + k * m) / m;
    assert x == q * m + x % m;
    assert x + k * m == p * m + (x + k * m) % m;
    assert (p - q - k) * m == p * m - q * m - k * m;
  }

  /** Only the zero multiple of m lies strictly between -m and m. */
  lemma SmallMultiple(k: int, m: int)
    requires m > 0
    ensures -m < k * m < m ==> k == 0
  {
    if k >= 1 {
      assert (k - 1) * m >= 0;
    } else if k <= -1 {
      assert (-k - 1) * m >= 0;
    }
  }

  /** Truncating a factor first does not change the truncated product. */
  lemma WrapProduct(x: int, c: int)
    ensures WrapInt64(WrapInt64(x) * c) == WrapInt64(x * c)
  {
    var k := (x + TWO_63) / TWO_64;
    assert x == WrapInt64(x) + k * TWO_64;
    assert x * c == WrapInt64(x) * c + (k * c) * TWO_64;
    ModShift(WrapInt64(x) * c + TWO_63, k * c, TWO_64);
  }

  lemma {:induction false} Pow2Adds(a: nat, b: nat)
    ensures Pow2(a + b) == Pow2(a) * Pow2(b)
    decreases b
  {
    if b > 0 {
      Pow2Adds(a, b - 1);
      assert Pow2(a + b) == 2 * Pow2(a + (b - 1));
    }
  }

  lemma {:induction false} Pow2Monotone(a: nat, b: nat)
    requires a <= b
    ensures Pow2(a) <= Pow2(b)
    decreases b - a
  {
    if a < b {
      Pow2Monotone(a, b - 1);
    }
  }

  lemma Pow2Values()
    ensures Pow2(36) == 0x10_0000_0000 && Pow2(37) == 0x20_0000_0000
    ensures Pow2(55) == 0x80_0000_0000_0000 && Pow2(56) == 0x100_0000_0000_0000
  {
    assert Pow2(9) == 512;
    Pow2Doubles(9, 512);
    Pow2Doubles(18, 0x4_0000);
    Pow2Adds(18, 36);
    assert Pow2(54) == 0x4_0000 * 0x10_0000_0000;
  }

  lemma Pow2Doubles(n: nat, p: nat)
    requires Pow2(n) == p
    ensures Pow2(2 * n) == p * p
  {
    Pow2Adds(n, n);
  }

  /** The intended wait in nanoseconds, without truncation. */
  function IntendedBackoff(attempt: int): int
    requires attempt >= 1
  {
    Pow2(attempt - 1) * 100_000_000
  }

  /** The doubling survives int64 for 37 attempts and no longer. */
  lemma BackoffExactIff(attempt: int)
    requires attempt >= 1
    ensures Backoff(attempt) == IntendedBackoff(attempt) <==> attempt <= 37
    ensures attempt > 37 ==> Backoff(attempt) < IntendedBackoff(attempt)
  {
    WrapProduct(Pow2(attempt - 1), BASE_WAIT);
    Pow2Values();
    if attempt <= 37 {
      Pow2Monotone(attempt - 1, 36);
    } else {
      Pow2Monotone(37, attempt - 1);
    }
  }

  /** Since 100 ms is 2^8 * 5^8 ns, the wait vanishes from attempt 57 on, and only from there. */
  lemma BackoffZeroIff(attempt: int)
    requires attempt >= 1
    ensures Backoff(attempt) == 0 <==> attempt >= 57
  {
    WrapProduct(Pow2(attempt - 1), BASE_WAIT);
    if attempt >= 57 {
      var rest := Pow2(attempt - 57);
      Pow2Adds(attempt - 57, 56);
      Pow2Values();
      assert Pow2(attempt - 1) * BASE_WAIT == (rest * 390625) * TWO_64;
      ModShift(TWO_63, rest * 390625, TWO_64);
    } else {
      BackoffNonZero(attempt);
    }
  }

  /** A zero would make 2^(attempt-1) * 10^8 a multiple of 2^64; scaled up, 2^63 * 5^8 would be one. */
  lemma BackoffNonZero(attempt: int)
    requires 1 <= attempt < 57
    ensures WrapInt64(Pow2(attempt - 1) * BASE_WAIT) != 0
  {
    var low, up := Pow2(attempt - 1), Pow2(56 - attempt);
    var k := (low * BASE_WAIT + TWO_63) / TWO_64;
    if WrapInt64(low * BASE_WAIT) == 0 {
      assert low * BASE_WAIT == k * TWO_64;
      ScaleEquation(low, BASE_WAIT, k, TWO_64, up);
      Pow2Adds(attempt - 1, 56 - attempt);
      Pow2Values();
    }
  }

  lemma ScaleEquation(a: int, b: int, c: int, d: int, f: int)
    requires a * b == c * d
    ensures (a * f) * b == (c * f) * d
  {
    assert (a * f) * b == (a * b) * f;
    assert (c * f) * d == (c * d) * f;
  }

  /** Without overflow the backoffs before the answer add up to a geometric sum; beyond it they fall short. */
  lemma {:induction false} TotalBackoffIsGeometricIff(n: nat)
    ensures TotalBackoff(n) == 100_000_000 * (Pow2(n) - 1) <==> n <= 37
    ensures n > 37 ==> TotalBackoff(n) < 100_000_000 * (Pow2(n) - 1)
  {
    if n > 0 {
      TotalBackoffIsGeometricIff(n - 1);
      BackoffExactIff(n);
    }
  }

  /** A run that nobody cancels and that returns at attempt a has waited 100ms * (2^(a-1) - 1), for a up to 38. */
  lemma UncancelledWait(budget: int, env: Environment, r: Result)
    requires budget >= 1 && Outcome(budget, env, r) && r.error != Some(ContextDone)
    ensures TotalBackoff(FullWaits(env, r)) == 100_000_000 * (Pow2(r.attempts - 1) - 1) <==> r.attempts <= 38
  {
    TotalBackoffIsGeometricIff(r.attempts - 1);
  }
}
