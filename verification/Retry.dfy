/** The two retry loops of src/utils/retry.rs.

    Delays are exact numbers of seconds.  A negative multiplier, on which the conversion to a duration panics
    in the source, is excluded. */
module Retry {

  datatype Outcome<T> = Success(value: T) | Failure(message: string)

  datatype RetryConfig = RetryConfig(
    maxRetries: nat, initialDelay: real, maxDelay: real, backoffMultiplier: real, retryableErrors: seq<string>)

  predicate Valid(c: RetryConfig) {
    c.initialDelay >= 0.0 && c.maxDelay >= 0.0 && c.backoffMultiplier >= 0.0
  }

  function Min(a: real, b: real): real {
    if a < b then a else b
  }

  predicate Contains(s: string, pattern: string) {
    exists i :: 0 <= i <= |s| - |pattern| && OccursAt(s, pattern, i)
  }

  predicate OccursAt(s: string, pattern: string, i: nat)
    requires i + |pattern| <= |s|
  {
    s[i..i + |pattern|] == pattern
  }

  predicate Retryable(c: RetryConfig, message: string) {
    c.retryableErrors == [] || exists pattern :: pattern in c.retryableErrors && Contains(message, pattern)
  }

  predicate SplitsAs(s: string, before: string, pattern: string, after: string) {
    s == before + pattern + after
  }

  /** A failure is retried exactly when no patterns are configured or its message has one of them somewhere. */
  lemma RetryableIff(c: RetryConfig, message: string)
    ensures Retryable(c, message) <==>
            || |c.retryableErrors| == 0
            || exists pattern, before, after :: pattern in c.retryableErrors &&
                 SplitsAs(message, before, pattern, after)
  {
    forall pattern: string
      ensures Contains(message, pattern) <==> exists before, after :: SplitsAs(message, before, pattern, after)
    {
      ContainsIff(message, pattern);
    }
  }

  lemma ContainsIff(s: string, pattern: string)
    ensures Contains(s, pattern) <==> exists before, after :: SplitsAs(s, before, pattern, after)
  {
    if Contains(s, pattern) {
      var i :| 0 <= i <= |s| - |pattern| && OccursAt(s, pattern, i);
      assert SplitsAs(s, s[..i], pattern, s[i + |pattern|..]);
    }
    if before, after :| SplitsAs(s, before, pattern, after) {
      assert OccursAt(s, pattern, |before|);
    }
  }

  /** Attempt k, counting from 0, is the last one. */
  predicate Last<T>(c: RetryConfig, operation: nat -> Outcome<T>, k: nat) {
    operation(k).Success? || k >= c.maxRetries || !Retryable(c, operation(k).message)
  }

  /** The number of calls that the loops make. */
  ghost predicate Calls<T>(c: RetryConfig, operation: nat -> Outcome<T>, calls: nat) {
    && 0 < calls <= c.maxRetries + 1
    && Last(c, operation, calls - 1)
    && forall k: nat :: k < calls - 1 ==> !Last(c, operation, k)
  }

  function NextDelay(c: RetryConfig, delay: real): real {
    Min(delay * c.backoffMultiplier, c.maxDelay)
  }

  /** The k-th sleep. */
  function Delay(c: RetryConfig, k: nat): real {
    if k == 0 then c.initialDelay else NextDelay(c, Delay(c, k - 1))
  }

  /** One sleep between each two calls. */
  ghost predicate Sleeps(c: RetryConfig, calls: nat, sleeps: seq<real>) {
    |sleeps| + 1 == calls && forall k :: 0 <= k < |sleeps| ==> sleeps[k] == Delay(c, k)
  }

  /** What the first loop reports: an error that counts all the calls it could have made. */
  datatype Report<T> = Ok(value: T) | FailedAfter(retries: nat, message: string)

  method RetryWithBackoff<T>(c: RetryConfig, operation: nat -> Outcome<T>)
    returns (result: Report<T>, calls: nat, sleeps: seq<real>)
    requires Valid(c)
    ensures Calls(c, operation, calls) && Sleeps(c, calls, sleeps)
    ensures result == match operation(calls - 1)
                      case Success(value) => Ok(value)
                      case Failure(message) => FailedAfter(c.maxRetries + 1, message)
  {
    hide NextDelay, Retryable;
    var delay := c.initialDelay;
    calls, sleeps := 0, [];
    var attempt := 0;
    while true
      invariant attempt == calls == |sleeps| <= c.maxRetries
      invariant delay == Delay(c, attempt)
      invariant forall k: nat :: k < attempt ==> !Last(c, operation, k)
      invariant forall k :: 0 <= k < |sleeps| ==> sleeps[k] == Delay(c, k)
      decreases c.maxRetries - attempt
    {
      var outcome := operation(attempt);
      calls := calls + 1;
      if outcome.Success? {
        return Ok(outcome.value), calls, sleeps;
      }
      if attempt >= c.maxRetries || !Retryable(c, outcome.message) {
        return FailedAfter(c.maxRetries + 1, outcome.message), calls, sleeps;
      }
      sleeps := sleeps + [delay];
      delay := NextDelay(c, delay);
      attempt := attempt + 1;
    }
  }

  method Retry<T>(c: RetryConfig, operation: nat -> Outcome<T>)
    returns (result: Outcome<T>, calls: nat, sleeps: seq<real>)
    requires Valid(c)
    ensures Calls(c, operation, calls) && Sleeps(c, calls, sleeps)
    ensures result == operation(calls - 1)
  {
    hide NextDelay, Retryable;
    var delay := c.initialDelay;
    calls, sleeps := 0, [];
    result := Failure("Operation failed after retries");
    for attempt := 0 to c.maxRetries + 1
      invariant attempt == calls == |sleeps| <= c.maxRetries
      invariant delay == Delay(c, attempt)
      invariant forall k: nat :: k < attempt ==> !Last(c, operation, k)
      invariant forall k :: 0 <= k < |sleeps| ==> sleeps[k] == Delay(c, k)
    {
      result := operation(attempt);
      calls := calls + 1;
      if result.Success? {
        return;
      }
      if attempt >= c.maxRetries {
        return;
      }
      if !Retryable(c, result.message) {
        return;
      }
      sleeps := sleeps + [delay];
      delay := NextDelay(c, delay);
    }
    assert false;
  }

  /** Both loops make the same calls and the same sleeps: their contracts leave no choice. */
  lemma SameRun<T>(c: RetryConfig, operation: nat -> Outcome<T>, calls: nat, sleeps: seq<real>,
                   calls': nat, sleeps': seq<real>)
    requires Calls(c, operation, calls) && Sleeps(c, calls, sleeps)
    requires Calls(c, operation, calls') && Sleeps(c, calls', sleeps')
    ensures calls == calls' && sleeps == sleeps'
  {
    var k: nat, k': nat := calls - 1, calls' - 1;
    assert k < k' ==> !Last(c, operation, k);
    assert k' < k ==> !Last(c, operation, k');
  }

  // ----- Delays -------------------------------------------------------------------------------------

  function Power(x: real, k: nat): real {
    if k == 0 then 1.0 else Power(x, k - 1) * x
  }

  function Exponential(c: RetryConfig, k: nat): real {
    c.initialDelay * Power(c.backoffMultiplier, k)
  }

  /** Exponential backoff with a cap. */
  function Capped(c: RetryConfig, k: nat): real {
    Min(Exponential(c, k), c.maxDelay)
  }

  lemma {:induction false} DelayIsCapped(c: RetryConfig, k: nat)
    requires Valid(c) && c.initialDelay <= c.maxDelay
    ensures Delay(c, k) == Capped(c, k)
  {
    if k == 0 {
      ExponentialStart(c);
    } else {
      DelayIsCapped(c, k - 1);
      hide NextDelay, Capped;
      CappedNext(c, k);
    }
  }

  lemma CappedNext(c: RetryConfig, k: nat)
    requires Valid(c) && c.initialDelay <= c.maxDelay && k > 0
    ensures NextDelay(c, Capped(c, k - 1)) == Capped(c, k)
  {
    hide Exponential;
    ExponentialNext(c, k);
    ExponentialBounds(c, k - 1);
    var x, m, cap := Exponential(c, k - 1), c.backoffMultiplier, c.maxDelay;
    var before := CapCommutes(x, m, cap);
  }

  lemma ExponentialStart(c: RetryConfig)
    ensures Exponential(c, 0) == c.initialDelay
  {
  }

  lemma ExponentialNext(c: RetryConfig, k: nat)
    requires k > 0
    ensures Exponential(c, k) == Exponential(c, k - 1) * c.backoffMultiplier
  {
    var p := Power(c.backoffMultiplier, k - 1);
    assert c.initialDelay * (p * c.backoffMultiplier) == c.initialDelay * p * c.backoffMultiplier;
  }

  lemma {:induction false} ExponentialBounds(c: RetryConfig, k: nat)
    requires Valid(c)
    ensures Exponential(c, k) >= 0.0
    ensures c.backoffMultiplier <= 1.0 ==> Exponential(c, k) <= c.initialDelay
  {
    if k == 0 {
      ExponentialStart(c);
    } else {
      ExponentialNext(c, k);
      ExponentialBounds(c, k - 1);
      hide Exponential;
      var x := Exponential(c, k - 1);
      var r := Product(x, c.backoffMultiplier);
      if c.backoffMultiplier <= 1.0 {
        var lost := Product(x, 1.0 - c.backoffMultiplier);
      }
    }
  }

  lemma Product(x: real, y: real) returns (r: real)
    requires x >= 0.0 && y >= 0.0
    ensures r == x * y && r >= 0.0
  {
    r := x * y;
  }

  /** Capping before the multiplication makes no difference once the value is capped again. */
  lemma CapCommutes(x: real, m: real, cap: real) returns (capped: real)
    requires 0.0 <= x && 0.0 <= cap && (m >= 1.0 || x <= cap)
    ensures capped == Min(x, cap) && Min(capped * m, cap) == Min(x * m, cap)
  {
    capped := Min(x, cap);
    if x > cap {
      var a := Product(cap, m - 1.0);
      var b := Product(x - cap, m);
    }
  }

  /** The sleeps follow the formula initial * multiplier^k, capped, exactly when the initial delay is within
      the cap: the loops never cap the first sleep. */
  lemma FormulaIffInitialWithinCap(c: RetryConfig)
    requires Valid(c)
    ensures (forall k: nat :: Delay(c, k) == Capped(c, k)) <==> c.initialDelay <= c.maxDelay
  {
    if c.initialDelay <= c.maxDelay {
      forall k: nat
        ensures Delay(c, k) == Capped(c, k)
      {
        DelayIsCapped(c, k);
      }
    } else {
      assert Delay(c, 0) != Capped(c, 0);
    }
  }

  function Total(sleeps: seq<real>): real {
    if sleeps == [] then 0.0 else Total(sleeps[..|sleeps| - 1]) + sleeps[|sleeps| - 1]
  }

  lemma {:induction false} DelayWithinCap(c: RetryConfig, k: nat)
    ensures Delay(c, k) <= if k == 0 then c.initialDelay else c.maxDelay
  {
  }

  lemma {:induction false} TotalWithin(sleeps: seq<real>, cap: real)
    requires forall k :: 0 <= k < |sleeps| ==> sleeps[k] <= cap
    ensures Total(sleeps) <= |sleeps| as real * cap
  {
    if sleeps != [] {
      TotalWithin(sleeps[..|sleeps| - 1], cap);
      assert (|sleeps| - 1) as real * cap + cap == |sleeps| as real * cap;
    }
  }

  /** A run sleeps for at most max_retries times the cap in all, if the initial delay is within it. */
  lemma TotalSleep<T>(c: RetryConfig, operation: nat -> Outcome<T>, calls: nat, sleeps: seq<real>)
    requires Valid(c) && c.initialDelay <= c.maxDelay
    requires Calls(c, operation, calls) && Sleeps(c, calls, sleeps)
    ensures Total(sleeps) <= c.maxRetries as real * c.maxDelay
  {
    forall k | 0 <= k < |sleeps|
      ensures sleeps[k] <= c.maxDelay
    {
      DelayWithinCap(c, k);
    }
    TotalWithin(sleeps, c.maxDelay);
    assert |sleeps| <= c.maxRetries;
    var rest := Product((c.maxRetries - |sleeps|) as real, c.maxDelay);
  }
}
