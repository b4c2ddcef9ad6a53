/** The retrying client: which failures are retried, how long it waits, and when it gives up. */
module RetryClient {
  import opened Text
  import opened Wrappers

  /// Errors as chains of wrapped causes

  datatype Err =
    | DependencyUnavailable
    | Conflict
    | NotFound
    | DeadlineExceeded
    | Response(status: int)
    | UrlError(timeout: bool, cause: Err)  // what the HTTP transport returns for any failed exchange
    | NetError
    | Eof
    | Errno
    | Other
    | Wrapping(cause: Err)
    | Joining(first: Err, second: Err)

  /** `errors.Is`: somewhere in the tree of causes. */
  predicate Is(e: Err, target: Err) {
    e == target
    || (match e
        case UrlError(_, cause) => Is(cause, target)
        case Wrapping(cause) => Is(cause, target)
        case Joining(a, b) => Is(a, target) || Is(b, target)
        case _ => false)
  }

  /** `errors.As` with a URL error: the first one, depth first, and whether it timed out. */
  function FirstUrlError(e: Err): Option<bool> {
    match e
    case UrlError(timeout, _) => Some(timeout)
    case Wrapping(cause) => FirstUrlError(cause)
    case Joining(a, b) => (match FirstUrlError(a) case Some(t) => Some(t) case None => FirstUrlError(b))
    case _ => None
  }

  /** A URL error is itself a network error in the sense of the `net.Error` interface; deadlines are, too. */
  predicate HasNetError(e: Err) {
    match e
    case UrlError(_, _) => true
    case NetError => true
    case DeadlineExceeded => true
    case Wrapping(cause) => HasNetError(cause)
    case Joining(a, b) => HasNetError(a) || HasNetError(b)
    case _ => false
  }

  predicate IsConnectionError(e: Err) {
    Is(e, Eof) || HasNetError(e) || Is(e, Errno)
  }

  function ClassifyTransportError(e: Err): Err {
    if Is(e, DeadlineExceeded) then Joining(DependencyUnavailable, e)
    else if FirstUrlError(e) == Some(true) then Joining(DependencyUnavailable, e)
    else if IsConnectionError(e) then Joining(DependencyUnavailable, e)
    else e
  }

  /// One attempt

  /** What the network does to one attempt: no response, a status, and a body that may not decode. */
  datatype Exchange = NoResponse(timeout: bool, cause: Err) | Status(code: int, decode: Option<Err>)

  /** The error of one attempt; `None` is success. */
  function DoOnce(x: Exchange): Option<Err> {
    match x
    case NoResponse(timeout, cause) => Some(ClassifyTransportError(UrlError(timeout, cause)))
    case Status(code, decode) =>
      if code >= 400 then
        if code == 503 || code == 504 then Some(Joining(DependencyUnavailable, Response(code)))
        else if code == 401 || code == 403 then Some(Wrapping(Response(code)))
        else if code == 409 then Some(Joining(Conflict, Response(code)))
        else if code == 404 then Some(Joining(NotFound, Response(code)))
        else Some(Response(code))
      else
        match decode
        case Some(cause) => Some(Wrapping(cause))
        case None => None
  }

  predicate Idempotent(verb: string) {
    verb == "GET" || verb == "PUT" || verb == "DELETE"
  }

  predicate ShouldRetry(verb: string, e: Err) {
    && Idempotent(verb)
    && (Is(e, DependencyUnavailable) || Is(e, DeadlineExceeded) || FirstUrlError(e) == Some(true))
  }

  predicate Retried(verb: string, x: Exchange) {
    DoOnce(x).Some? && ShouldRetry(verb, DoOnce(x).value)
  }

  /** What is retried: no response at all, 503, 504, or a body cut off by a timeout, for idempotent verbs. */
  lemma RetriedIff(verb: string, x: Exchange)
    ensures Retried(verb, x) <==>
            && verb in {"GET", "PUT", "DELETE"}
            && (match x
                case NoResponse(_, _) => true
                case Status(code, decode) =>
                  code in {503, 504}
                  || (code < 400 && decode.Some? && (Is(decode.value, DependencyUnavailable)
                                                     || Is(decode.value, DeadlineExceeded)
                                                     || FirstUrlError(decode.value) == Some(true))))
  {
    match x
    case NoResponse(timeout, cause) =>
      assert HasNetError(UrlError(timeout, cause));
      assert Is(DoOnce(x).value, DependencyUnavailable);
    case Status(code, decode) =>
  }

  /** What an attempt's error is recognised as, by status; the response or the cause is always among its causes. */
  lemma OutcomeExactly(x: Exchange)
    ensures DoOnce(x) == None <==> x.Status? && x.code < 400 && x.decode == None
    ensures x.NoResponse? ==> Is(DoOnce(x).value, DependencyUnavailable) && Is(DoOnce(x).value, x.cause)
    ensures x.Status? && x.code < 400 && x.decode.Some? ==> DoOnce(x) == Some(Wrapping(x.decode.value))
    ensures x.Status? && x.code >= 400 ==>
              var e := DoOnce(x).value;
              && (Is(e, DependencyUnavailable) <==> x.code in {503, 504})
              && (Is(e, Conflict) <==> x.code == 409)
              && (Is(e, NotFound) <==> x.code == 404)
              && (forall status :: Is(e, Response(status)) <==> status == x.code)
  {
    if x.NoResponse? {
      assert HasNetError(UrlError(x.timeout, x.cause)) && Is(x.cause, x.cause);
      assert Is(UrlError(x.timeout, x.cause), x.cause);
    }
  }

  /// Backoff in 64-bit arithmetic

  function Pow2(n: nat): (power: nat)
    ensures power > 0
  {
    if n == 0 then 1 else 2 * Pow2(n - 1)
  }

  const TWO_63: int := 0x8000_0000_0000_0000
  const TWO_64: int := 0x1_0000_0000_0000_0000

  /** Two's complement wrap-around. */
  function Wrap64(x: int): int {
    (x + TWO_63) % TWO_64 - TWO_63
  }

  /** `1 << attempt` as a 64-bit value. */
  function ShiftOne(attempt: nat): int {
    if attempt >= 64 then 0 else Wrap64(Pow2(attempt))
  }

  datatype Policy = Policy(maxRetries: int, baseDelay: int, maxDelay: int)

  predicate ValidDelays(p: Policy) {
    0 < p.baseDelay <= MAX_INT64 && 0 < p.maxDelay <= MAX_INT64
  }

  /** The delay before jitter. */
  function Delay(p: Policy, attempt: nat): int {
    var d := Wrap64(p.baseDelay * ShiftOne(attempt));
    if d > p.maxDelay || d <= 0 then p.maxDelay else d
  }

  /** The delay that is meant: doubling, up to the maximum, over the integers. */
  function Ideal(p: Policy, attempt: nat): int {
    var d := p.baseDelay * Pow2(attempt);
    if d > p.maxDelay then p.maxDelay else d
  }

  lemma {:induction false} Pow2Add(a: nat, b: nat)
    ensures Pow2(a + b) == Pow2(a) * Pow2(b)
  {
    if a > 0 {
      Pow2Add(a - 1, b);
      assert a + b - 1 == a - 1 + b;
      assert 2 * (Pow2(a - 1) * Pow2(b)) == 2 * Pow2(a - 1) * Pow2(b);
    }
  }

  lemma {:induction false} Pow2Monotone(a: nat, b: nat)
    requires a <= b
    ensures Pow2(a) <= Pow2(b)
  {
    if a < b {
      Pow2Monotone(a, b - 1);
    }
  }

  lemma Pow2Of64()
    ensures Pow2(63) == TWO_63 && Pow2(64) == TWO_64
  {
    assert Pow2(8) == 256;
    Pow2Add(8, 8);
    Pow2Add(16, 16);
    Pow2Add(32, 32);
    assert Pow2(64) == 2 * Pow2(63);
  }

  /** What is left of `base << attempt` in 64 bits, read without sign. */
  function LowBits(base: nat, attempt: nat): nat
    requires attempt < 64
  {
    (base % Pow2(64 - attempt)) * Pow2(attempt)
  }

  lemma Remainder(y: int, q: int, r: int)
    requires y == q * TWO_64 + r && 0 <= r < TWO_64
    ensures y % TWO_64 == r
  {
  }

  lemma WrapShifts(x: int, k: int)
    ensures Wrap64(x + k * TWO_64) == Wrap64(x)
  {
    var q, r := (x + TWO_63) / TWO_64, (x + TWO_63) % TWO_64;
    Remainder(x + k * TWO_64 + TWO_63, q + k, r);
  }

  lemma WrapRange(v: nat)
    requires v < TWO_64
    ensures Wrap64(v) == if v < TWO_63 then v else v - TWO_64
  {
    Remainder(v + TWO_63, if v < TWO_63 then 0 else 1, if v < TWO_63 then v + TWO_63 else v - TWO_63);
  }

  lemma ProductRange(r: nat, v: nat, u: nat)
    requires r < v && u > 0
    ensures 0 <= r * u <= v * u - u && (r > 0 ==> r * u >= u)
  {
    assert (v - 1 - r) * u >= 0;
    assert (v - 1 - r) * u == v * u - u - r * u;
    if r > 0 {
      assert (r - 1) * u >= 0;
      assert (r - 1) * u == r * u - u;
    }
  }

  lemma LowBitsRange(base: nat, attempt: nat)
    requires attempt < 64
    ensures 0 <= LowBits(base, attempt) < TWO_64
    ensures LowBits(base, attempt) > 0 ==> LowBits(base, attempt) >= Pow2(attempt)
  {
    Pow2Add(64 - attempt, attempt);
    Pow2Of64();
    ProductRange(base % Pow2(64 - attempt), Pow2(64 - attempt), Pow2(attempt));
  }

  lemma MulLeft(a: int, b: int, u: int)
    requires a <= b && u >= 0
    ensures a * u <= b * u
  {
  }

  lemma Distribute(base: int, q: int, v: int, r: int, u: int)
    requires base == q * v + r
    ensures base * u == q * (v * u) + r * u
  {
    assert (q * v + r) * u == q * v * u + r * u;
    assert q * v * u == q * (v * u);
  }

  /** In 64 bits, multiplying by the shifted one keeps the low bits. */
  lemma ProductIsLowBits(base: nat, attempt: nat)
    requires attempt < 64
    ensures Wrap64(base * ShiftOne(attempt)) == Wrap64(LowBits(base, attempt))
  {
    var u, v := Pow2(attempt), Pow2(64 - attempt);
    Pow2Add(64 - attempt, attempt);
    Pow2Of64();
    var q, r := base / v, base % v;
    Distribute(base, q, v, r, u);
    WrapShifts(r * u, q);
    assert base * u == r * u + q * TWO_64;
    ShiftInBits(base, attempt);
  }

  lemma ShiftOneIs(attempt: nat)
    requires attempt < 64
    ensures ShiftOne(attempt) == if attempt == 63 then TWO_63 - TWO_64 else Pow2(attempt)
  {
    Pow2Of64();
    if attempt < 63 {
      Pow2Monotone(attempt, 62);
    }
  }

  lemma ShiftInBits(base: nat, attempt: nat)
    requires attempt < 64
    ensures Wrap64(base * ShiftOne(attempt)) == Wrap64(base * Pow2(attempt))
  {
    ShiftOneIs(attempt);
    if attempt == 63 {
      Pow2Of64();
      TopShift(base);
    }
  }

  lemma TopShift(base: nat)
    ensures Wrap64(base * (TWO_63 - TWO_64)) == Wrap64(base * TWO_63)
  {
    var k: int := 0 - base;
    WrapShifts(base * TWO_63, k);
  }

  lemma DelayInBits(p: Policy, attempt: nat)
    requires ValidDelays(p) && attempt < 64
    ensures var low := LowBits(p.baseDelay, attempt);
            Delay(p, attempt) == if 0 < low <= p.maxDelay then low else p.maxDelay
  {
    ProductIsLowBits(p.baseDelay, attempt);
    LowBitsRange(p.baseDelay, attempt);
    WrapRange(LowBits(p.baseDelay, attempt));
  }

  lemma Smaller(base: nat, v: nat, u: nat)
    requires base * u < v * u
    ensures base < v
  {
    if base >= v {
      MulLeft(v, base, u);
    }
  }

  lemma NoOverflow(base: nat, attempt: nat)
    requires attempt < 64 && base * Pow2(attempt) < TWO_63
    ensures LowBits(base, attempt) == base * Pow2(attempt)
  {
    Pow2Add(64 - attempt, attempt);
    Pow2Of64();
    Smaller(base, Pow2(64 - attempt), Pow2(attempt));
    SmallModulus(base, Pow2(64 - attempt));
  }

  lemma SmallModulus(x: nat, m: nat)
    requires x < m
    ensures x % m == x
  {
  }

  lemma LongShift(p: Policy, attempt: nat)
    requires ValidDelays(p) && attempt >= 64
    ensures Delay(p, attempt) == Ideal(p, attempt) == p.maxDelay
  {
    Pow2Monotone(64, attempt);
    Pow2Of64();
    MulLeft(1, p.baseDelay, Pow2(attempt));
  }

  lemma DelayExactAt(p: Policy, attempt: nat)
    requires ValidDelays(p) && attempt < 64
    ensures Delay(p, attempt) == Ideal(p, attempt) <==>
            p.baseDelay * Pow2(attempt) < TWO_63
            || !(0 < LowBits(p.baseDelay, attempt) < p.maxDelay)
  {
    DelayInBits(p, attempt);
    if p.baseDelay * Pow2(attempt) < TWO_63 {
      MulLeft(1, Pow2(attempt), p.baseDelay);
      NoOverflow(p.baseDelay, attempt);
    }
  }

  /** No overflowing shift of the base delay leaves low bits that look like a shorter delay. */
  ghost predicate SafeDelays(p: Policy)
    requires ValidDelays(p)
  {
    forall a: nat | a < 64 && p.baseDelay * Pow2(a) >= TWO_63 ::
      LowBits(p.baseDelay, a) == 0 || LowBits(p.baseDelay, a) >= p.maxDelay
  }

  ghost predicate AlwaysIdeal(p: Policy) {
    forall a: nat :: Delay(p, a) == Ideal(p, a)
  }

  /** The 64-bit computation is the intended one for every attempt if and only if the configured delays are safe. */
  lemma DelayIsIdealIff(p: Policy)
    requires ValidDelays(p)
    ensures AlwaysIdeal(p) <==> SafeDelays(p)
  {
    if SafeDelays(p) {
      forall a: nat ensures Delay(p, a) == Ideal(p, a) {
        if a < 64 {
          DelayExactAt(p, a);
        } else {
          LongShift(p, a);
        }
      }
    }
    if AlwaysIdeal(p) {
      forall a: nat | a < 64 && p.baseDelay * Pow2(a) >= TWO_63
        ensures LowBits(p.baseDelay, a) == 0 || LowBits(p.baseDelay, a) >= p.maxDelay
      {
        DelayExactAt(p, a);
      }
    }
  }

  /** Delays whose product fits 63 bits are safe. */
  lemma SmallProductIsSafe(p: Policy)
    requires ValidDelays(p) && p.baseDelay * p.maxDelay < TWO_63
    ensures SafeDelays(p)
  {
    forall a: nat | a < 64 && p.baseDelay * Pow2(a) >= TWO_63
      ensures LowBits(p.baseDelay, a) == 0 || LowBits(p.baseDelay, a) >= p.maxDelay
    {
      LowBitsRange(p.baseDelay, a);
      if Pow2(a) <= p.maxDelay {
        MulLeft(Pow2(a), p.maxDelay, p.baseDelay);
      }
    }
  }

  /** Without that, a large base delay can shrink to almost nothing: here to 4 ns on the third attempt. */
  lemma LargeBaseWraps()
    ensures var p := Policy(3, 0x4000_0000_0000_0001, 2_000_000_000); Delay(p, 2) == 4 && Ideal(p, 2) == 2_000_000_000
  {
    assert Pow2(2) == 4;
  }

  /// Jitter

  /** `raw` stands for the random number below half the delay, `minus` for the coin. */
  function Jittered(d: int, raw: nat, minus: bool): int
    requires d >= 2
  {
    var jitter := raw % (d / 2);
    if minus then d - jitter else d + jitter
  }

  /** The wait lies strictly between half and one and a half times the delay. */
  lemma JitterBounds(d: int, raw: nat, minus: bool)
    requires d >= 2
    ensures d < 2 * Jittered(d, raw, minus) < 3 * d
  {
  }

  /** Every wait by less than half the delay below or above it occurs. */
  lemma JitterReaches(d: int, k: nat)
    requires d >= 2 && k < d / 2
    ensures Jittered(d, k, false) == d + k && Jittered(d, k, true) == d - k
  {
  }

  /** The delay before jitter is never shorter than 2 ns, wrapped around or not. */
  lemma DelayAtLeastTwo(p: Policy, attempt: nat)
    requires UsableDelays(p)
    ensures 2 <= Delay(p, attempt) <= p.maxDelay
  {
    if attempt == 0 {
      assert Pow2(0) == 1;
      SmallModulus(p.baseDelay, TWO_63);
      NoOverflow(p.baseDelay, 0);
      DelayInBits(p, 0);
    } else if attempt < 64 {
      Pow2Monotone(1, attempt);
      LowBitsRange(p.baseDelay, attempt);
      DelayInBits(p, attempt);
    } else {
      LongShift(p, attempt);
    }
  }

  /// The retry loop

  /** The delays before jitter, summed over the first `n` waits. */
  function DelaySum(p: Policy, n: nat): int {
    if n == 0 then 0 else DelaySum(p, n - 1) + Delay(p, n - 1)
  }

  /** The delays that are meant, summed over the first `n` waits. */
  function IdealSum(p: Policy, n: nat): int {
    if n == 0 then 0 else IdealSum(p, n - 1) + Ideal(p, n - 1)
  }

  lemma {:induction false} SumIsIdeal(p: Policy, n: nat)
    requires ValidDelays(p) && SafeDelays(p)
    ensures DelaySum(p, n) == IdealSum(p, n)
  {
    if n > 0 {
      SumIsIdeal(p, n - 1);
      DelayIsIdealIff(p);
    }
  }

  /** Shorter delays would leave the random number generator no room. */
  predicate UsableDelays(p: Policy) {
    ValidDelays(p) && p.baseDelay >= 2 && p.maxDelay >= 2
  }

  method Backoff(p: Policy, attempt: nat, raw: nat, minus: bool) returns (wait: int)
    requires UsableDelays(p)
    ensures Delay(p, attempt) >= 2 && wait == Jittered(Delay(p, attempt), raw, minus)
    ensures Delay(p, attempt) < 2 * wait < 3 * Delay(p, attempt)
    ensures SafeDelays(p) ==> Ideal(p, attempt) < 2 * wait < 3 * Ideal(p, attempt)
  {
    DelayIsIdealIff(p);
    DelayAtLeastTwo(p, attempt);
    var d := Wrap64(p.baseDelay * ShiftOne(attempt));
    if d > p.maxDelay || d <= 0 {
      d := p.maxDelay;
    }
    JitterBounds(d, raw, minus);
    var jitter := raw % (d / 2);
    if minus {
      jitter := -jitter;
    }
    wait := d + jitter;
  }

  /**
   The network decides each attempt, `raw` and `minus` the jitter. The loop returns the first outcome that is a
   success, not worth retrying, or the last one allowed; it never returns a retryable failure earlier.
   A negative number of retries makes no attempt at all and reports no error.
   */
  method DoJSON(p: Policy, verb: string, network: nat -> Exchange, raw: nat -> nat, minus: nat -> bool)
      returns (err: Option<Err>, attempts: nat, slept: int)
    requires p.maxRetries > 0 ==> UsableDelays(p)
    ensures p.maxRetries < 0 ==> err == None && attempts == 0
    ensures p.maxRetries >= 0 ==>
              && 1 <= attempts <= p.maxRetries + 1
              && err == DoOnce(network(attempts - 1))
              && (forall k: nat | k < attempts - 1 :: Retried(verb, network(k)))
              && (attempts == p.maxRetries + 1 || !Retried(verb, network(attempts - 1)))
    ensures verb !in {"GET", "PUT", "DELETE"} ==> attempts <= 1
    ensures if attempts <= 1 then slept == 0
            else DelaySum(p, attempts - 1) < 2 * slept < 3 * DelaySum(p, attempts - 1)
    ensures attempts > 1 && ValidDelays(p) && SafeDelays(p) ==>
              IdealSum(p, attempts - 1) < 2 * slept < 3 * IdealSum(p, attempts - 1)
  {
    attempts, err, slept := 0, None, 0;
    while attempts <= p.maxRetries
      invariant if attempts == 0 then err == None
                else attempts <= p.maxRetries && err == DoOnce(network(attempts - 1))
      invariant forall k: nat | k < attempts :: Retried(verb, network(k))
      invariant if attempts == 0 then slept == 0 else DelaySum(p, attempts) < 2 * slept < 3 * DelaySum(p, attempts)
      decreases p.maxRetries + 1 - attempts
    {
      attempts := attempts + 1;
      err := DoOnce(network(attempts - 1));
      if err.None? || attempts > p.maxRetries || !ShouldRetry(verb, err.value) {
        break;
      }
      var wait := Backoff(p, attempts - 1, raw(attempts - 1), minus(attempts - 1));
      slept := slept + wait;
    }
    if attempts > 1 {
      RetriedIff(verb, network(0));
    }
    if attempts > 1 && ValidDelays(p) && SafeDelays(p) {
      SumIsIdeal(p, attempts - 1);
    }
  }
}
