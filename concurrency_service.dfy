/** Signing under optimistic concurrency control
    (functions/src/services/concurrencyService.ts): up to three attempts, each
    re-reading the offer and signing it, retried only when signing answers
    409 or 412. The Airtable service is scripted: `getOffer(i)` and
    `signOffer(i)` are the answers to the (i+1)-th call; `random(i)` is the
    jitter drawn after the (i+1)-th attempt, and the delays slept are
    returned instead of being waited for. */
module ConcurrencyService {

  import opened JsValues
  import opened Text
  import opened ApiTypes
  import opened FunctionsAirtable
  import ConcurrencyUtils

  // CONCURRENCY_CONFIG
  const MaxRetries: nat := 3
  const BaseDelayMs: nat := 200
  const MaxDelayMs: nat := 1000

  const AlreadySignedMessage := "This offer has already been signed"
  const ExhaustedMessage := "Failed to sign offer after 3 attempts due to concurrent modifications"

  function Pow2(n: nat): (r: nat)
    ensures r >= 1
  {
    if n == 0 then 1 else 2 * Pow2(n - 1)
  }

  /** `min(maxDelayMs, baseDelayMs · 2^(attempt-1))` */
  function SignBaseDelay(attempt: nat): (d: nat)
    requires attempt >= 1
    ensures BaseDelayMs <= d <= MaxDelayMs
  {
    if BaseDelayMs * Pow2(attempt - 1) <= MaxDelayMs then BaseDelayMs * Pow2(attempt - 1) else MaxDelayMs
  }

  /** `Math.floor(baseDelay + Math.random() · 0.3 · baseDelay)` */
  function SignDelay(attempt: nat, random: real): (ms: int)
    requires attempt >= 1 && 0.0 <= random < 1.0
    ensures SignBaseDelay(attempt) <= ms
    ensures ms as real <= 1.3 * SignBaseDelay(attempt) as real
  {
    var base := SignBaseDelay(attempt) as real;
    (base + ConcurrencyUtils.Jitter(random, base)).Floor
  }

  /** The two delays the loop can sleep: after the first and after the
      second attempt. */
  lemma SignDelaySchedule(random: real)
    requires 0.0 <= random < 1.0
    ensures SignBaseDelay(1) == 200 && SignBaseDelay(2) == 400
    ensures 200 <= SignDelay(1, random) <= 260
    ensures 400 <= SignDelay(2, random) <= 520
  {
    assert Pow2(1) == 2;
  }

  /** The statuses the loop treats as a lost race. */
  predicate ConflictStatus(status: int) {
    status == 409 || status == 412
  }

  /** One attempt conflicted: the read succeeded on an unsigned offer and the
      sign answered 409 or 412. */
  predicate Conflicted(read: ApiResponse<Offer>, sign: ApiResponse<Offer>) {
    !Failed(read) && !read.data.value.isSigned && ConflictStatus(sign.status)
  }

  /** `signOfferWithConcurrencyControl`. Returns the response, the number of
      reads and signs made, and the delays slept. */
  method SignOfferWithConcurrencyControl(
    getOffer: nat -> ApiResponse<Offer>, signOffer: nat -> ApiResponse<Offer>, random: nat -> real)
    returns (response: ApiResponse<Offer>, readCalls: nat, signCalls: nat, delays: seq<int>)
    requires forall i :: 0.0 <= random(i) < 1.0
    ensures 1 <= readCalls <= MaxRetries
    ensures signCalls == readCalls || signCalls == readCalls - 1
    ensures forall i :: 0 <= i < readCalls - 1 ==> Conflicted(getOffer(i), signOffer(i))
    ensures |delays| == readCalls - 1
    ensures forall i :: 0 <= i < |delays| ==> delays[i] == SignDelay(i + 1, random(i))
    // a failed read is returned unchanged, and nothing is signed in that attempt
    ensures Failed(getOffer(readCalls - 1)) ==> signCalls == readCalls - 1 && response == getOffer(readCalls - 1)
    // an offer found signed is never signed again
    ensures !Failed(getOffer(readCalls - 1)) && getOffer(readCalls - 1).data.value.isSigned ==>
      signCalls == readCalls - 1 && response == ErrorResponse(AlreadySignedMessage, 409)
    // any other answer of the sign ends the loop and is returned as it is
    ensures !Failed(getOffer(readCalls - 1)) && !getOffer(readCalls - 1).data.value.isSigned ==> signCalls == readCalls
    ensures signCalls == readCalls && !ConflictStatus(signOffer(readCalls - 1).status) ==> response == signOffer(readCalls - 1)
    // three conflicts exhaust the attempts
    ensures signCalls == readCalls && ConflictStatus(signOffer(readCalls - 1).status) ==>
      readCalls == MaxRetries && response == ErrorResponse(ExhaustedMessage, 409)
  {
    var attempt: nat := 0;
    readCalls, signCalls, delays := 0, 0, [];
    while attempt < MaxRetries
      invariant attempt <= MaxRetries
      invariant readCalls == signCalls == attempt
      invariant forall i :: 0 <= i < attempt ==> Conflicted(getOffer(i), signOffer(i))
      invariant |delays| == if attempt < MaxRetries then attempt else MaxRetries - 1
      invariant forall i :: 0 <= i < |delays| ==> delays[i] == SignDelay(i + 1, random(i))
    {
      attempt := attempt + 1;
      var offerResponse := getOffer(attempt - 1);
      readCalls := readCalls + 1;
      if PresentText(offerResponse.error) || offerResponse.data.None? {
        return offerResponse, readCalls, signCalls, delays;
      }
      if offerResponse.data.value.isSigned {
        return ErrorResponse(AlreadySignedMessage, 409), readCalls, signCalls, delays;
      }
      var signResponse := signOffer(attempt - 1);
      signCalls := signCalls + 1;
      if signResponse.status == 200 || (signResponse.status != 409 && signResponse.status != 412) {
        return signResponse, readCalls, signCalls, delays;
      }
      if attempt < MaxRetries {
        delays := delays + [SignDelay(attempt, random(attempt - 1))];
      }
    }
    response := ErrorResponse(ExhaustedMessage, 409);
  }

  /** The loop and the back end's conflict classifier disagree: a 409 is
      retried whatever its text, while `isConcurrencyError` demands one of its
      phrases or the word "already". */
  lemma RetriedButNotClassified(data: Option<Offer>, error: string)
    requires error != ""
    requires !Contains(ToLower(error), "record modified") && !Contains(ToLower(error), "conflict")
    requires !Contains(ToLower(error), "concurrent") && !Contains(ToLower(error), "already")
    ensures ConflictStatus(ApiResponse(data, Some(error), 409).status)
    ensures !ConcurrencyUtils.IsConcurrencyError(ApiResponse(data, Some(error), 409))
  {
  }

  // ---- the scenarios of functions/tests/concurrencyService.test.ts ----

  const UnsignedOffer := Offer(Str("test-offer"), Str("Test Customer"), Str(""), 0.0, "", "",
                               false, None, Str(""), Str(""))
  const SignedOffer := Offer(Str("test-offer"), Str("Test Customer"), Str(""), 0.0, "", "",
                             true, Some(Str("2025-06-16")), Str(""), Str(""))
  const ConflictResponse: ApiResponse<Offer> := ErrorResponse("Concurrent modification detected", 409)

  /** An unsigned offer signed at the first try: one read, one sign, 200. */
  method SignsAtFirstAttempt() returns (response: ApiResponse<Offer>, readCalls: nat, signCalls: nat)
    ensures response.status == 200 && response.data.Some? && response.data.value.isSigned
    ensures readCalls == 1 && signCalls == 1
  {
    var get := (i: nat) => DataResponse(UnsignedOffer, 200);
    var sign := (i: nat) => DataResponse(SignedOffer, 200);
    var delays;
    response, readCalls, signCalls, delays := SignOfferWithConcurrencyControl(get, sign, (i: nat) => 0.0);
    assert !Conflicted(get(0), sign(0));
  }

  /** An offer read as signed: 409 and no sign at all. */
  method RefusesSignedOffer() returns (response: ApiResponse<Offer>, readCalls: nat, signCalls: nat)
    ensures response == ErrorResponse(AlreadySignedMessage, 409)
    ensures readCalls == 1 && signCalls == 0
  {
    var get := (i: nat) => DataResponse(SignedOffer, 200);
    var sign := (i: nat) => DataResponse(SignedOffer, 200);
    var delays;
    response, readCalls, signCalls, delays := SignOfferWithConcurrencyControl(get, sign, (i: nat) => 0.0);
    assert !Conflicted(get(0), sign(0));
  }

  /** One conflict, then success: two reads, two signs, 200. */
  method RetriesAfterConflict() returns (response: ApiResponse<Offer>, readCalls: nat, signCalls: nat)
    ensures response.status == 200 && response.data.Some? && response.data.value.isSigned
    ensures readCalls == 2 && signCalls == 2
  {
    var get := (i: nat) => DataResponse(UnsignedOffer, 200);
    var sign := (i: nat) => if i == 0 then ConflictResponse else DataResponse(SignedOffer, 200);
    var delays;
    response, readCalls, signCalls, delays := SignOfferWithConcurrencyControl(get, sign, (i: nat) => 0.0);
    assert sign(0) == ConflictResponse && ConflictResponse.status == 409;
    assert sign(1) == DataResponse(SignedOffer, 200);
    assert Conflicted(get(0), sign(0));
    assert !Conflicted(get(1), sign(1));
  }

  /** Conflicts every time: three reads, three signs, and the exhausted 409. */
  method GivesUpAfterThreeConflicts() returns (response: ApiResponse<Offer>, readCalls: nat, signCalls: nat)
    ensures response == ErrorResponse(ExhaustedMessage, 409)
    ensures readCalls == 3 && signCalls == 3
  {
    var get := (i: nat) => DataResponse(UnsignedOffer, 200);
    var sign := (i: nat) => ConflictResponse;
    var delays;
    response, readCalls, signCalls, delays := SignOfferWithConcurrencyControl(get, sign, (i: nat) => 0.0);
    assert Conflicted(get(readCalls - 1), sign(readCalls - 1));
  }
}
