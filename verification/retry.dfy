/** The retry policy of the upload engine: a classifier that decides from an
    error's text whether the failure is transient, and a bounded retry loop
    around an arbitrary operation. */
module RetryPolicy {
  import opened Wrappers
  import opened Strings

  /** A value thrown by an operation. */
  datatype Thrown =
    | ErrorObject(name: string, message: string)  // an `Error` instance (`TypeError`, ...)
    | OtherValue(text: string)                    // any other truthy value; `text` is `String(value)`

  /** The outcome of one call of an operation: it returned a value or threw. */
  datatype Attempt<T> = Done(value: T) | Threw(error: Thrown)

  /** The text the classifier inspects: the message of an `Error`, otherwise
      the value converted to a string. */
  function ClassifierText(e: Thrown): string
  {
    match e
    case ErrorObject(_, message) => message
    case OtherValue(text) => text
  }

  /** The fixed table of substrings that mark an error as transient. */
  const TransientMarkers: seq<string> := [
    "timeout",
    "too many scripts running simultaneously",
    "service invoked too many times",
    "rate",
    "exceeded",
    "503",
    "429"
  ]

  /** `shouldRetry`: the lower-cased error text contains one of the markers. */
  predicate ShouldRetry(e: Thrown)
  {
    var msg := Lower(ClassifierText(e));
    Contains(msg, "timeout")
    || Contains(msg, "too many scripts running simultaneously")
    || Contains(msg, "service invoked too many times")
    || Contains(msg, "rate")
    || Contains(msg, "exceeded")
    || Contains(msg, "503")
    || Contains(msg, "429")
  }

  /** The classifier is exactly the marker table: an error is retried iff its
      lower-cased text contains one of the seven markers. */
  lemma ShouldRetryMatchesTable(e: Thrown)
    ensures ShouldRetry(e) <==> exists j :: 0 <= j < |TransientMarkers| && Contains(Lower(ClassifierText(e)), TransientMarkers[j])
  {
    var msg := Lower(ClassifierText(e));
    assert TransientMarkers[0] == "timeout" && TransientMarkers[1] == "too many scripts running simultaneously";
    assert TransientMarkers[2] == "service invoked too many times" && TransientMarkers[3] == "rate";
    assert TransientMarkers[4] == "exceeded" && TransientMarkers[5] == "503" && TransientMarkers[6] == "429";
  }

  /** The classifier ignores letter case: two errors whose texts differ only
      in case are classified alike. */
  lemma ShouldRetryIgnoresCase(a: Thrown, b: Thrown)
    requires EqualIgnoringCase(ClassifierText(a), ClassifierText(b))
    ensures ShouldRetry(a) == ShouldRetry(b)
  {
    EqualIgnoringCaseLower(ClassifierText(a), ClassifierText(b));
  }

  /** A marker anywhere in the text, in any letter case, makes the error transient. */
  lemma ShouldRetryOnMarker(e: Thrown, j: nat, i: nat)
    requires j < |TransientMarkers|
    requires OccursAt(Lower(ClassifierText(e)), TransientMarkers[j], i)
    ensures ShouldRetry(e)
  {
    ContainsAt(Lower(ClassifierText(e)), TransientMarkers[j], i);
  }

  /** The record of one run of the retry loop: what it returned or threw,
      and how many times it called the operation. */
  datatype RetryRun<T> = RetryRun(outcome: Attempt<T>, calls: nat)

  /** The retry loop entered at attempt number `attempt`, where `call(k)` is
      the outcome of the operation's call number k (counting from 0). */
  function RetryFrom<T>(call: nat -> Attempt<T>, max: nat, attempt: nat): (run: RetryRun<T>)
    requires attempt <= max
    decreases max - attempt
  {
    match call(attempt)
    case Done(v) => RetryRun(Done(v), attempt + 1)
    case Threw(e) =>
      if attempt == max || !ShouldRetry(e) then RetryRun(Threw(e), attempt + 1)
      else RetryFrom(call, max, attempt + 1)
  }

  /** A run from attempt `attempt` makes at most `max + 1` calls in all, ends
      with the result of its last call, passes only transient errors on the
      way, and ends in an error only when it is permanent or the attempts are
      used up. */
  lemma {:induction false} RetryFromSpec<T>(call: nat -> Attempt<T>, max: nat, attempt: nat)
    requires attempt <= max
    ensures attempt < RetryFrom(call, max, attempt).calls <= max + 1
    ensures RetryFrom(call, max, attempt).outcome == call(RetryFrom(call, max, attempt).calls - 1)
    ensures forall k :: attempt <= k < RetryFrom(call, max, attempt).calls - 1 ==>
      call(k).Threw? && ShouldRetry(call(k).error)
    ensures RetryFrom(call, max, attempt).outcome.Threw? ==>
      RetryFrom(call, max, attempt).calls == max + 1 || !ShouldRetry(RetryFrom(call, max, attempt).outcome.error)
    decreases max - attempt
  {
    match call(attempt)
    case Done(_) =>
    case Threw(e) =>
      if attempt < max && ShouldRetry(e) {
        RetryFromSpec(call, max, attempt + 1);
      }
  }

  /** `retry(fn, max)`: the whole run, from the first attempt. */
  function RetryResult<T>(call: nat -> Attempt<T>, max: nat): RetryRun<T>
  {
    RetryFrom(call, max, 0)
  }

  /** What the source promises of a run, stated without the loop: at most
      `max + 1` calls, the result is that of the last call, every earlier
      call threw a transient error, and a final error is either permanent or
      the last allowed attempt. */
  ghost predicate IsRetryRun<T>(call: nat -> Attempt<T>, max: nat, run: RetryRun<T>)
  {
    && 0 < run.calls <= max + 1
    && run.outcome == call(run.calls - 1)
    && (forall k :: 0 <= k < run.calls - 1 ==> call(k).Threw? && ShouldRetry(call(k).error))
    && (run.outcome.Threw? ==> run.calls == max + 1 || !ShouldRetry(run.outcome.error))
  }

  /** The description above pins the run down completely: the retry loop's
      run is the only one that satisfies it. */
  lemma RetryRunUnique<T>(call: nat -> Attempt<T>, max: nat, run: RetryRun<T>)
    ensures IsRetryRun(call, max, RetryResult(call, max))
    ensures IsRetryRun(call, max, run) ==> run == RetryResult(call, max)
  {
    RetryFromSpec(call, max, 0);
  }

  /** A permanent error on the first call is rethrown at once, after that one call. */
  lemma RetryStopsOnPermanentError<T>(call: nat -> Attempt<T>, max: nat, e: Thrown)
    requires call(0) == Threw(e) && !ShouldRetry(e)
    ensures RetryResult(call, max) == RetryRun(Threw(e), 1)
  {
  }

  /** When every allowed attempt fails transiently, the run makes `max + 1`
      calls and throws the error of the last one. */
  lemma RetryExhausted<T>(call: nat -> Attempt<T>, max: nat)
    requires forall k :: 0 <= k <= max ==> call(k).Threw? && ShouldRetry(call(k).error)
    ensures RetryResult(call, max) == RetryRun(call(max), max + 1)
  {
    RetryFromSpec(call, max, 0);
    var r := RetryResult(call, max);
    assert call(r.calls - 1).Threw?;
  }

  /** With three retries, three transient failures followed by a success
      return the value of the fourth call. */
  lemma RetryThreeTransientThenSuccess<T>(call: nat -> Attempt<T>, v: T)
    requires forall k :: 0 <= k < 3 ==> call(k).Threw? && ShouldRetry(call(k).error)
    requires call(3) == Done(v)
    ensures RetryResult(call, 3) == RetryRun(Done(v), 4)
  {
    RetryFromSpec(call, 3, 0);
    var r := RetryResult(call, 3);
    assert call(r.calls - 1).Done?;
  }

  /** `retry`: calls the operation until it succeeds, throws a permanent
      error, or the attempt limit is reached; then returns the value or
      rethrows the last error caught. The back-off wait between attempts is
      not modelled. */
  method Retry<T>(call: nat -> Attempt<T>, max: nat) returns (outcome: Attempt<T>, calls: nat)
    ensures RetryRun(outcome, calls) == RetryResult(call, max)
  {
    var attempt: nat := 0;
    var lastErr: Option<Thrown> := None;
    calls := 0;
    while attempt <= max
      invariant attempt <= max && calls == attempt
      invariant RetryFrom(call, max, attempt) == RetryResult(call, max)
      decreases max - attempt
    {
      calls := calls + 1;
      match call(attempt) {
        case Done(v) =>
          outcome := Done(v);
          return;
        case Threw(e) =>
          lastErr := Some(e);
          if attempt == max || !ShouldRetry(e) {
            break;
          }
          attempt := attempt + 1;
      }
    }
    outcome := Threw(lastErr.value);
  }
}
