/** One upload call against the remote script endpoint, reduced to the
    classification of what comes back. Reading the file, base64 encoding and
    `fetch` itself are outside the model: their outcome is the `Transport`
    value handed in. */
module UploadClient {
  import opened Strings
  import opened RetryPolicy

  /** The decoded JSON body of a response. An absent `directUrl` or `error`
      is represented by the empty string, which the source treats alike. */
  datatype JsonBody =
    | Parsed(success: bool, directUrl: string, error: string)
    | Malformed(parserMessage: string)  // `response.json()` threw a SyntaxError

  datatype HttpResponse = HttpResponse(status: nat, statusText: string, body: JsonBody)
  {
    /** `response.ok`: the status is in the range 200-299. */
    predicate Ok()
    {
      200 <= status <= 299
    }
  }

  /** What one attempt to reach the endpoint produced. */
  datatype Transport =
    | ReadFailed                               // the FileReader rejected with its error event
    | NetworkError(name: string, message: string)  // `fetch` threw
    | Received(response: HttpResponse)

  /** The message used when the script reports failure without saying why. */
  const DefaultRejection: string := "Apps Script upload failed"

  /** The message thrown for a non-ok HTTP response. */
  function HttpErrorMessage(status: nat, statusText: string): string
  {
    "HTTP " + Decimal(status) + ": " + statusText
  }

  /** `uploadToAppsScript`: one attempt yields the `directUrl` of a
      successful response, and otherwise the error it throws. */
  function UploadAttempt(t: Transport): (a: Attempt<string>)
    ensures a.Done? <==> t.Received? && t.response.Ok() && t.response.body.Parsed? && t.response.body.success
    ensures a.Done? ==> a.value == t.response.body.directUrl
    ensures t.Received? && !t.response.Ok() ==>
      a == Threw(ErrorObject("Error", HttpErrorMessage(t.response.status, t.response.statusText)))
    ensures t.Received? && t.response.Ok() && t.response.body.Parsed? && !t.response.body.success ==>
      a == Threw(ErrorObject("Error", if t.response.body.error != "" then t.response.body.error else DefaultRejection))
  {
    match t
    case ReadFailed => Threw(OtherValue("[object ProgressEvent]"))
    case NetworkError(name, message) => Threw(ErrorObject(name, message))
    case Received(response) =>
      if !response.Ok() then
        Threw(ErrorObject("Error", HttpErrorMessage(response.status, response.statusText)))
      else
        match response.body
        case Malformed(m) => Threw(ErrorObject("SyntaxError", m))
        case Parsed(success, url, err) =>
          if !success then Threw(ErrorObject("Error", if err != "" then err else DefaultRejection))
          else Done(url)
  }

  /** A 503 or 429 response is always classified as transient, whatever its
      status text says. */
  lemma OverloadStatusIsRetried(status: nat, statusText: string, body: JsonBody)
    requires status == 503 || status == 429
    ensures ShouldRetry(UploadAttempt(Received(HttpResponse(status, statusText, body))).error)
  {
    var msg := HttpErrorMessage(status, statusText);
    var code := Decimal(status);
    assert code == Decimal(status / 10) + [DigitChar(status % 10)];
    assert Decimal(status / 10) == Decimal(status / 100) + [DigitChar(status / 10 % 10)];
    assert |code| == 3;
    assert msg[5..8] == code;
    var low := Lower(msg);
    assert low[5..8] == code;
    var j := if status == 503 then 5 else 6;
    assert TransientMarkers[j] == code;
    ShouldRetryOnMarker(ErrorObject("Error", msg), j, 5);
  }

  /** A message is permanent (not retried) when, in either case, it lacks
      'm', 'v', 'x', '5' and '4' and never has an 'a' right after an 'r'. */
  lemma PermanentWithoutMarkerLetters(e: Thrown)
    requires 'm' !in ClassifierText(e) && 'M' !in ClassifierText(e)
    requires 'v' !in ClassifierText(e) && 'V' !in ClassifierText(e)
    requires 'x' !in ClassifierText(e) && 'X' !in ClassifierText(e)
    requires '5' !in ClassifierText(e) && '4' !in ClassifierText(e)
    requires forall i :: 0 <= i < |ClassifierText(e)| - 1 && LowerChar(ClassifierText(e)[i]) == 'r' ==>
      LowerChar(ClassifierText(e)[i + 1]) != 'a'
    ensures !ShouldRetry(e)
  {
    var d := ClassifierText(e);
    var low := Lower(d);
    LowerLacks(d, 'm');
    LowerLacks(d, 'v');
    LowerLacks(d, 'x');
    LowerLacks(d, '5');
    LowerLacks(d, '4');
    MissingCharNotContained(low, "timeout", 'm');
    MissingCharNotContained(low, "too many scripts running simultaneously", 'm');
    MissingCharNotContained(low, "service invoked too many times", 'v');
    MissingCharNotContained(low, "exceeded", 'x');
    MissingCharNotContained(low, "503", '5');
    MissingCharNotContained(low, "429", '4');
    MissingPairNotContained(low, "rate");
  }

  /** The letters of the default rejection message that matter to the
      classifier (stated in parts to keep each proof small). */
  lemma DefaultRejectionLacksM()
    ensures 'm' !in DefaultRejection && 'M' !in DefaultRejection
  {
  }

  lemma DefaultRejectionLacksV()
    ensures 'v' !in DefaultRejection && 'V' !in DefaultRejection
  {
  }

  lemma DefaultRejectionLacksX()
    ensures 'x' !in DefaultRejection && 'X' !in DefaultRejection
  {
  }

  lemma DefaultRejectionLacksDigits()
    ensures '5' !in DefaultRejection && '4' !in DefaultRejection
  {
  }

  lemma DefaultRejectionLacksRa()
    ensures forall i :: 0 <= i < |DefaultRejection| - 1 && LowerChar(DefaultRejection[i]) == 'r' ==>
      LowerChar(DefaultRejection[i + 1]) != 'a'
  {
  }

  /** A script rejection that gives no reason is permanent: its default
      message contains none of the transient markers, so it is not retried. */
  lemma SilentRejectionIsPermanent(status: nat, statusText: string, directUrl: string)
    requires 200 <= status <= 299
    ensures !ShouldRetry(UploadAttempt(Received(HttpResponse(status, statusText, Parsed(false, directUrl, "")))).error)
  {
    var e := UploadAttempt(Received(HttpResponse(status, statusText, Parsed(false, directUrl, "")))).error;
    assert ClassifierText(e) == DefaultRejection;
    DefaultRejectionLacksM();
    DefaultRejectionLacksV();
    DefaultRejectionLacksX();
    DefaultRejectionLacksDigits();
    DefaultRejectionLacksRa();
    PermanentWithoutMarkerLetters(e);
  }
}
