/** Sending with bounded retries and exponential pauses (src/matrix_send.py). */
module MatrixSend {
  import opened Wrappers

  /** What the client gives back for one call: a response or an exception. An
      absent event id is "". */
  datatype Answer =
    | Response(eventId: string, isSendError: bool, statusCode: Option<int>)
    | Raised(error: string)

  datatype Failure = FromAnswer(answer: Answer) | NothingTried

  datatype Outcome = Delivered(answer: Answer) | Failed(failure: Failure)

  /** A response counts as success if it names an event, or if nothing in it speaks of an error. */
  predicate Accepted(a: Answer) {
    a.Response? && (a.eventId != "" || (!a.isSendError && a.statusCode.None?))
  }

  /** The first accepted answer among the first `n`. */
  function FirstAccepted(answers: nat -> Answer, n: nat): (k: Option<nat>)
    ensures k.Some? ==> k.value < n && Accepted(answers(k.value))
    ensures forall j: nat | j < (if k.Some? then k.value else n) :: !Accepted(answers(j))
  {
    if n == 0 then None
    else
      var earlier := FirstAccepted(answers, n - 1);
      if earlier.Some? then earlier
      else if Accepted(answers(n - 1)) then Some(n - 1) else None
  }

  /** The first accepted answer, or the last error. */
  function OutcomeOf(answers: nat -> Answer, n: int): Outcome {
    if n < 1 then Failed(NothingTried) else
    var k := FirstAccepted(answers, n);
    if k.Some? then Delivered(answers(k.value)) else Failed(FromAnswer(answers(n - 1)))
  }

  function Pow2(n: nat): (r: nat)
    ensures r >= 1
  {
    if n == 0 then 1 else 2 * Pow2(n - 1)
  }

  /** The number of calls made: up to the first accepted answer, at most `n`. */
  function Calls(answers: nat -> Answer, n: nat): (c: nat)
    ensures c <= n
  {
    var k := FirstAccepted(answers, n);
    if k.Some? then k.value + 1 else n
  }

  /** The pause after failure number `k + 1`. */
  function Pause(base: real, k: nat): real {
    base * Pow2(k) as real
  }

  /** The pauses after the first `n` failures. */
  function Pauses(base: real, n: nat): real {
    if n == 0 then 0.0 else Pauses(base, n - 1) + Pause(base, n - 1)
  }

  /** Everything waited before call number `calls`. */
  function Patience(base: real, calls: nat): real
    requires calls >= 1
  {
    base * (Pow2(calls - 1) - 1) as real
  }

  lemma {:induction false} PausesClosed(base: real, n: nat)
    ensures Pauses(base, n) == Patience(base, n + 1)
  {
    if n > 0 {
      PausesClosed(base, n - 1);
      var p := Pow2(n - 1) as real;
      assert (Pow2(n) - 1) as real == (p - 1.0) + p;
      assert base * ((p - 1.0) + p) == base * (p - 1.0) + base * p;
    }
  }

  /** `answers(k)` is what the client would give for call number k + 1. For
      `maxRetries` of at least one: the loop stops at the first accepted answer,
      fails exactly when there is none and then with the last error, and pauses
      for `base` times 2^(calls - 1) - 1 in all. Otherwise nothing is sent. */
  method RoomSendWithRetry(answers: nat -> Answer, maxRetries: int, base: real)
    returns (outcome: Outcome, calls: nat, slept: real)
    ensures maxRetries >= 1 ==>
      && calls == Calls(answers, maxRetries)
      && calls >= 1
      && slept == Patience(base, calls)
    ensures maxRetries < 1 ==> calls == 0 && slept == 0.0
    ensures outcome == OutcomeOf(answers, maxRetries)
  {
    hide Accepted, Patience, Pow2;
    calls, slept := 0, 0.0;
    var lastError := NothingTried;
    var attempt := 1;
    while attempt <= maxRetries
      invariant attempt >= 1 && calls == attempt - 1
      invariant attempt <= maxRetries || attempt == 1
      invariant FirstAccepted(answers, calls).None?
      invariant slept == Pauses(base, calls)
      invariant calls == 0 ==> lastError == NothingTried
      decreases maxRetries - attempt
    {
      var answer := answers(calls);
      calls := calls + 1;
      if Accepted(answer) {
        AcceptedStays(answers, calls - 1, maxRetries);
        PausesClosed(base, calls - 1);
        return Delivered(answer), calls, slept;
      }
      lastError := FromAnswer(answer);
      if attempt >= maxRetries {
        PausesClosed(base, calls - 1);
        break;
      }
      var delay := Pause(base, attempt - 1);
      slept := slept + delay;
      attempt := attempt + 1;
    }
    outcome := Failed(lastError);
  }

  lemma {:induction false} AcceptedStays(answers: nat -> Answer, k: nat, n: nat)
    requires FirstAccepted(answers, k).None? && Accepted(answers(k)) && k < n
    ensures FirstAccepted(answers, n) == Some(k)
  {
    if k < n - 1 {
      AcceptedStays(answers, k, n - 1);
    }
  }

  /** No accepted answer is passed over: more patience changes the outcome only
      when the first `n` calls all fail. */
  lemma {:induction false} PatienceOnlyHelpsFailures(answers: nat -> Answer, n: nat, m: nat)
    requires n <= m
    ensures FirstAccepted(answers, n).Some? ==> FirstAccepted(answers, m) == FirstAccepted(answers, n)
    ensures Calls(answers, n) <= Calls(answers, m)
  {
    if n < m {
      PatienceOnlyHelpsFailures(answers, n, m - 1);
    }
  }

  // ---- which answers are failures ----

  /** An exception, a send error, or a status code; an event id makes up for the last two. */
  predicate Fails(a: Answer) {
    match a
    case Raised(_) => true
    case Response(eventId, isSendError, statusCode) => eventId == "" && (isSendError || statusCode.Some?)
  }

  lemma AcceptedExactly(a: Answer)
    ensures Accepted(a) <==> !Fails(a)
  {
  }

  /** Whatever the client answers: the first answer that is no failure is returned, and
      no call is made after it; if all `n` fail, the last failure is raised after `n` calls. */
  lemma {:induction false} FirstSuccessIsReturned(answers: nat -> Answer, n: nat, k: nat)
    requires 1 <= n && k <= n && (forall j: nat | j < k :: Fails(answers(j))) && (k < n ==> !Fails(answers(k)))
    ensures OutcomeOf(answers, n) == if k < n then Delivered(answers(k)) else Failed(FromAnswer(answers(n - 1)))
    ensures Calls(answers, n) == if k < n then k + 1 else n
  {
    hide Accepted, Fails;
    var f := FirstAccepted(answers, n);
    forall j: nat | j <= k
      ensures Accepted(answers(j)) <==> !Fails(answers(j))
    {
      AcceptedExactly(answers(j));
    }
    assert f == if k < n then Some(k) else None;
  }
}
