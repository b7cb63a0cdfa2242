/** Retry helpers for Airtable conflicts (functions/src/services/concurrencyUtils.ts):
    a capped exponential backoff with jitter, a retry loop driven by a
    predicate, and the classifier of conflict errors. `Math.random` is a
    parameter and sleeping is left to the caller, which sees the delays. */
module ConcurrencyUtils {

  import opened JsValues
  import opened Text
  import opened ApiTypes

  // RETRY_CONFIG
  const MaxRetries: nat := 3
  const InitialDelayMs: real := 200.0
  const MaxDelayMs: real := 1000.0

  /** b to the power n. */
  function Pow(b: real, n: nat): (r: real)
    ensures b > 0.0 ==> r > 0.0
    decreases n
  {
    if n == 0 then 1.0 else b * Pow(b, n - 1)
  }

  /** `Math.pow(b, e)` for a positive base and an integer exponent. */
  function PowInt(b: real, e: int): real
    requires b > 0.0
  {
    if e >= 0 then Pow(b, e) else 1.0 / Pow(b, -e)
  }

  lemma {:induction false} PowAtLeastOne(b: real, n: nat)
    requires b >= 1.0
    ensures Pow(b, n) >= 1.0
    decreases n
  {
    if n > 0 {
      PowAtLeastOne(b, n - 1);
    }
  }

  lemma {:induction false} PowGrows(b: real, m: nat, n: nat)
    requires b >= 1.0 && m <= n
    ensures Pow(b, m) <= Pow(b, n)
    decreases n - m
  {
    if m < n {
      PowGrows(b, m, n - 1);
      PowAtLeastOne(b, n - 1);
      assert Pow(b, n) == b * Pow(b, n - 1) >= Pow(b, n - 1);
    }
  }

  lemma ReciprocalShrinks(x: real, y: real)
    requires 0.0 < y <= x
    ensures 1.0 / x <= 1.0 / y
  {
    assert 1.0 / y - 1.0 / x == (x - y) / (x * y);
    assert x * y > 0.0;
  }

  /** For a base of at least 1 the power grows with the exponent, negative
      exponents included. */
  lemma PowIntGrows(b: real, d: int, e: int)
    requires b >= 1.0 && d <= e
    ensures 0.0 < PowInt(b, d) <= PowInt(b, e)
  {
    if d >= 0 {
      PowGrows(b, d, e);
      PowAtLeastOne(b, d);
    } else {
      PowAtLeastOne(b, -d);
      var x := Pow(b, -d);
      assert 0.0 < 1.0 / x <= 1.0;
      if e >= 0 {
        PowAtLeastOne(b, e);
      } else {
        PowGrows(b, -e, -d);
        PowAtLeastOne(b, -e);
        var y := Pow(b, -e);
        assert 1.0 <= y <= x;
        ReciprocalShrinks(x, y);
      }
    }
  }

  function Min(a: real, b: real): real {
    if a <= b then a else b
  }

  /** The delay before jitter: `min(maxDelayMs, initialDelayMs · 1.5^(attempt-1))`. */
  function BackoffBase(attempt: int): real {
    Min(MaxDelayMs, InitialDelayMs * PowInt(1.5, attempt - 1))
  }

  /** The base never exceeds the cap, is positive, and is at least the
      initial delay from the first attempt on. */
  lemma BackoffBaseBounds(attempt: int)
    ensures 0.0 < BackoffBase(attempt) <= MaxDelayMs
    ensures attempt >= 1 ==> BackoffBase(attempt) >= InitialDelayMs
  {
    PowIntGrows(1.5, attempt - 1, attempt - 1);
    if attempt >= 1 {
      PowIntGrows(1.5, 0, attempt - 1);
    }
  }

  /** The base delay never shrinks from one attempt to the next. */
  lemma BackoffBaseMonotone(a: int, b: int)
    requires a <= b
    ensures BackoffBase(a) <= BackoffBase(b)
  {
    PowIntGrows(1.5, a - 1, b - 1);
  }

  /** The first bases of the schedule, and the cap from the fifth attempt on. */
  lemma BackoffBaseSchedule(attempt: int)
    ensures BackoffBase(1) == 200.0 && BackoffBase(2) == 300.0
    ensures BackoffBase(3) == 450.0 && BackoffBase(4) == 675.0
    ensures attempt >= 5 ==> BackoffBase(attempt) == MaxDelayMs
  {
    assert Pow(1.5, 4) == 5.0625;
    if attempt >= 5 {
      PowIntGrows(1.5, 4, attempt - 1);
    }
  }

  /** The jitter `random · 0.3 · base`: a fraction of 30% of the base. */
  function Jitter(random: real, base: real): (j: real)
    requires 0.0 <= random < 1.0 && base > 0.0
    ensures 0.0 <= j < 0.3 * base
  {
    var c := 0.3 * base;
    assert 0.0 <= random * c < c by {
      assert (1.0 - random) * c > 0.0;
    }
    random * c
  }

  /** `Math.round`: the nearest integer, halves rounded up. */
  function Round(x: real): (n: int)
    ensures x - 0.5 < n as real <= x + 0.5
  {
    (x + 0.5).Floor
  }

  /** `calculateBackoff(attempt)`, with `random` the value of `Math.random()`. */
  function CalculateBackoff(attempt: int, random: real): (ms: int)
    requires 0.0 <= random < 1.0
    ensures BackoffBase(attempt) - 0.5 < ms as real < 1.3 * BackoffBase(attempt) + 0.5
    ensures 0 <= ms <= 1300
    ensures attempt >= 1 ==> ms >= 200
  {
    var base := BackoffBase(attempt);
    BackoffBaseBounds(attempt);
    Round(base + Jitter(random, base))
  }

  /** `retryWithBackoff`: call the operation until `shouldRetry` rejects its
      result or `maxRetries` calls have been made. `operation(i)` is the
      outcome of the (i+1)-th call, and a rejected call (`Throw`) ends the
      loop at once; `random(i)` is the jitter drawn after it; the delays
      slept between calls are returned in order. */
  method RetryWithBackoff<T>(operation: nat -> Completion<T>, shouldRetry: T -> bool, random: nat -> real)
    returns (result: Completion<T>, calls: nat, delays: seq<int>)
    requires forall i :: 0.0 <= random(i) < 1.0
    ensures 1 <= calls <= MaxRetries
    ensures result == operation(calls - 1)
    ensures forall i :: 0 <= i < calls - 1 ==> operation(i).Normal? && shouldRetry(operation(i).value)
    ensures calls < MaxRetries && result.Normal? ==> !shouldRetry(result.value)
    ensures |delays| == calls - 1
    ensures forall i :: 0 <= i < |delays| ==> delays[i] == CalculateBackoff(i + 1, random(i))
  {
    var attempt: nat := 1;
    delays := [];
    while true
      invariant 1 <= attempt <= MaxRetries
      invariant |delays| == attempt - 1
      invariant forall i :: 0 <= i < attempt - 1 ==> operation(i).Normal? && shouldRetry(operation(i).value)
      invariant forall i :: 0 <= i < |delays| ==> delays[i] == CalculateBackoff(i + 1, random(i))
      decreases MaxRetries - attempt
    {
      var r := operation(attempt - 1);
      if r.Throw? || !shouldRetry(r.value) || attempt >= MaxRetries {
        return r, attempt, delays;
      }
      delays := delays + [CalculateBackoff(attempt, random(attempt - 1))];
      attempt := attempt + 1;
    }
  }

  /** `isConcurrencyError`: a non-empty error whose lower-cased text names a
      modification conflict, or a 409 that says "already", or any 412. */
  predicate IsConcurrencyError<T>(response: ApiResponse<T>) {
    if !PresentText(response.error) then false
    else
      var text := ToLower(response.error.value);
      Contains(text, "record modified") || Contains(text, "conflict") || Contains(text, "concurrent")
      || (response.status == 409 && Contains(text, "already"))
      || response.status == 412
  }

  /** No error text, no conflict, whatever the status. */
  lemma NoErrorIsNoConflict<T>(response: ApiResponse<T>)
    requires response.error.None? || response.error == Some("")
    ensures !IsConcurrencyError(response)
  {
  }

  /** The classification ignores the case of the error text. */
  lemma ConflictIgnoresCase<T>(data: Option<T>, error: string, status: int)
    ensures IsConcurrencyError(ApiResponse(data, Some(error), status))
        == IsConcurrencyError(ApiResponse(data, Some(ToLower(error)), status))
  {
    ToLowerIdempotent(error);
  }

  /** A status of 409 classifies as a conflict only together with the word
      "already" or one of the conflict phrases; 412 always does, with any
      non-empty error. */
  lemma ConflictStatusRules<T>(data: Option<T>, error: string)
    requires error != ""
    ensures IsConcurrencyError(ApiResponse(data, Some(error), 412))
    ensures IsConcurrencyError(ApiResponse(data, Some(error), 409)) <==>
      var text := ToLower(error);
      Contains(text, "record modified") || Contains(text, "conflict") || Contains(text, "concurrent")
      || Contains(text, "already")
  {
  }

  /** "record modified", "conflict" and "concurrent" count in any case and
      under any status. */
  lemma ConflictPhrases<T>(data: Option<T>, prefix: string, phrase: string, suffix: string, status: int)
    requires phrase in {"record modified", "conflict", "concurrent"}
    ensures IsConcurrencyError(ApiResponse(data, Some(prefix + phrase + suffix), status))
  {
    var s := prefix + phrase + suffix;
    ToLowerNoUpper(phrase);
    assert OccursAt(ToLower(s), phrase, |prefix|) by {
      assert ToLower(s)[|prefix|..|prefix| + |phrase|] == ToLower(phrase);
    }
  }
}
