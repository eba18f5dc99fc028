/** The transport layer of the Azure DevOps client (core/ado.py): the
    connection settings and their Basic auth header, and the retry policy of
    `_api_request`, as a state machine driven by the outcome of each attempt.

    The network is a parameter: `respond(k)` is what the k-th attempt (from 0)
    of the request produced. The fixed courtesy sleep before every attempt is
    not recorded; `backoffs` lists the extra seconds slept before retrying. */
module Transport {
  import opened Wrappers
  import opened Strings
  import Utf8
  import Base64

  /** `retries` in `_api_request`: the number of attempts. */
  const MaxAttempts: nat := 3
  /** How much of an error response body is kept in the error message. */
  const ExcerptLimit: nat := 500

  /** A decoded JSON document. */
  datatype Json =
    | JNull
    | JBool(b: bool)
    | JNum(n: int)
    | JStr(s: string)
    | JArr(items: seq<Json>)
    | JObj(members: map<string, Json>)

  /** What one attempt of the HTTP exchange produced. */
  datatype Response =
      /** A success status; `body` is `None` when the body was empty. */
    | Ok(body: Option<Json>)
      /** An HTTP error status with its reason phrase and response body. */
    | HttpError(code: int, reason: string, text: string)
      /** Any other exception (connection failure, undecodable body): it is
          not caught by the retry loop. */
    | Raised(message: string)

  /** Why a request failed. */
  datatype ApiError =
      /** "ADO API error {code}: {reason}" with at most 500 characters of the body. */
    | StatusError(code: int, reason: string, url: string, excerpt: string)
      /** "ADO API request failed after 3 retries" */
    | RetriesExhausted(url: string)
      /** An exception the loop does not handle, propagated as is. */
    | Unhandled(message: string)

  /** One logical API call: how many attempts it made, the back-off delays
      (seconds) it slept between them, and its outcome. */
  datatype Trace = Trace(attempts: nat, backoffs: seq<nat>, result: Result<Json, ApiError>)

  function Pow2(n: nat): (r: nat)
    ensures r >= 1
  {
    if n == 0 then 1 else 2 * Pow2(n - 1)
  }

  /** The retry rule: a 429 is always retried; a server error (5xx and
      above) is retried unless it came on the last attempt. */
  predicate ShouldRetry(r: Response, attempt: nat) {
    r.HttpError? && (r.code == 429 || (r.code >= 500 && attempt < MaxAttempts - 1))
  }

  /** Seconds slept before retrying after `r` on `attempt`: 2^(attempt+1)
      for a 429, 2^attempt for a server error. */
  function Backoff(r: Response, attempt: nat): nat
    requires r.HttpError?
  {
    if r.code == 429 then Pow2(attempt + 1) else Pow2(attempt)
  }

  /** The attempts before `attempt` were all retried, with their delays. */
  ghost predicate RetriedSoFar(respond: nat -> Response, attempt: nat, backoffs: seq<nat>) {
    && |backoffs| == attempt
    && (forall k :: 0 <= k < attempt ==> ShouldRetry(respond(k), k))
    && (forall k :: 0 <= k < attempt ==> backoffs[k] == Backoff(respond(k), k))
  }

  /** The loop of `_api_request` from `attempt` on. */
  function Attempt(url: string, respond: nat -> Response, attempt: nat, backoffs: seq<nat>): (t: Trace)
    requires attempt < MaxAttempts
    requires RetriedSoFar(respond, attempt, backoffs)
    ensures attempt < t.attempts <= MaxAttempts
    ensures forall k :: 0 <= k < t.attempts - 1 ==> ShouldRetry(respond(k), k)
    ensures t.result == Failure(RetriesExhausted(url))
            <==> forall k :: 0 <= k < MaxAttempts ==> ShouldRetry(respond(k), k)
    ensures t.result == Failure(RetriesExhausted(url)) ==> t.attempts == MaxAttempts
    ensures t.result != Failure(RetriesExhausted(url)) ==> !ShouldRetry(respond(t.attempts - 1), t.attempts - 1)
    ensures |t.backoffs| == if t.result == Failure(RetriesExhausted(url)) then t.attempts else t.attempts - 1
    ensures forall k :: 0 <= k < |t.backoffs| ==> t.backoffs[k] == Backoff(respond(k), k)
    decreases MaxAttempts - attempt
  {
    var r := respond(attempt);
    match r
    case Ok(body) => Trace(attempt + 1, backoffs, Success(body.GetOr(JObj(map[]))))
    case Raised(message) => Trace(attempt + 1, backoffs, Failure(Unhandled(message)))
    case HttpError(code, reason, text) =>
      if ShouldRetry(r, attempt) then
        var delays := backoffs + [Backoff(r, attempt)];
        if attempt + 1 < MaxAttempts then Attempt(url, respond, attempt + 1, delays)
        else Trace(MaxAttempts, delays, Failure(RetriesExhausted(url)))
      else
        var excerpt := if |text| <= ExcerptLimit then text else text[..ExcerptLimit];
        Trace(attempt + 1, backoffs, Failure(StatusError(code, reason, url, excerpt)))
  }

  /** `_api_request(config, url, ...)`: at most three attempts; a success
      ends the call with its body (an empty body reads as `{}`); 429 and
      early server errors are retried after a back-off; any other HTTP error
      fails at once with a bounded excerpt of its body. */
  function ApiRequest(url: string, respond: nat -> Response): (t: Trace)
    ensures 1 <= t.attempts <= MaxAttempts
    ensures forall k :: 0 <= k < t.attempts - 1 ==> ShouldRetry(respond(k), k)
    ensures t.result == Failure(RetriesExhausted(url))
            <==> forall k :: 0 <= k < MaxAttempts ==> ShouldRetry(respond(k), k)
    ensures t.result == Failure(RetriesExhausted(url)) ==> t.attempts == MaxAttempts
    ensures t.result != Failure(RetriesExhausted(url)) ==> !ShouldRetry(respond(t.attempts - 1), t.attempts - 1)
    ensures |t.backoffs| == if t.result == Failure(RetriesExhausted(url)) then t.attempts else t.attempts - 1
    ensures forall k :: 0 <= k < |t.backoffs| ==> t.backoffs[k] == Backoff(respond(k), k)
  {
    Attempt(url, respond, 0, [])
  }

  /** How the final attempt decides the outcome of a call that did not run
      out of retries. */
  lemma {:induction false} FinalAttemptDecides(url: string, respond: nat -> Response)
    ensures var t := ApiRequest(url, respond);
      var last := respond(t.attempts - 1);
      && (t.result.Success? <==> last.Ok?)
      && (last.Ok? ==> t.result == Success(last.body.GetOr(JObj(map[]))))
      && (last.Raised? ==> t.result == Failure(Unhandled(last.message)))
      && (last.HttpError? && !ShouldRetry(last, t.attempts - 1) ==>
            && t.result.Failure? && t.result.error.StatusError?
            && t.result.error.code == last.code
            && |t.result.error.excerpt| <= ExcerptLimit
            && StartsWith(last.text, t.result.error.excerpt))
  {
    FinalAttemptFrom(url, respond, 0, []);
  }

  lemma {:induction false} FinalAttemptFrom(url: string, respond: nat -> Response, attempt: nat, backoffs: seq<nat>)
    requires attempt < MaxAttempts
    requires RetriedSoFar(respond, attempt, backoffs)
    ensures var t := Attempt(url, respond, attempt, backoffs);
      var last := respond(t.attempts - 1);
      && (t.result.Success? <==> last.Ok?)
      && (last.Ok? ==> t.result == Success(last.body.GetOr(JObj(map[]))))
      && (last.Raised? ==> t.result == Failure(Unhandled(last.message)))
      && (last.HttpError? && !ShouldRetry(last, t.attempts - 1) ==>
            && t.result.Failure? && t.result.error.StatusError?
            && t.result.error.code == last.code
            && |t.result.error.excerpt| <= ExcerptLimit
            && StartsWith(last.text, t.result.error.excerpt))
    decreases MaxAttempts - attempt
  {
    var r := respond(attempt);
    if ShouldRetry(r, attempt) && attempt + 1 < MaxAttempts {
      var delays := backoffs + [Backoff(r, attempt)];
      assert RetriedSoFar(respond, attempt + 1, delays);
      FinalAttemptFrom(url, respond, attempt + 1, delays);
    }
  }

  /** An endpoint that always answers 429 is tried exactly three times,
      sleeping 2, 4 and 8 seconds, and the call fails as exhausted. */
  lemma AlwaysRateLimited(url: string, respond: nat -> Response)
    requires forall k :: 0 <= k < MaxAttempts ==> respond(k).HttpError? && respond(k).code == 429
    ensures ApiRequest(url, respond) == Trace(3, [2, 4, 8], Failure(RetriesExhausted(url)))
  {
    var t := ApiRequest(url, respond);
    assert t.result == Failure(RetriesExhausted(url));
    assert t.backoffs[0] == Backoff(respond(0), 0) == 2;
    assert t.backoffs[1] == Backoff(respond(1), 1) == 4;
    assert t.backoffs[2] == Backoff(respond(2), 2) == 8;
  }

  /** One 429 followed by a success succeeds on the second attempt after a
      2-second back-off. */
  lemma RateLimitedOnceThenOk(url: string, respond: nat -> Response, doc: Json)
    requires respond(0).HttpError? && respond(0).code == 429
    requires respond(1) == Ok(Some(doc))
    ensures ApiRequest(url, respond) == Trace(2, [2], Success(doc))
  {
    var t := ApiRequest(url, respond);
    FinalAttemptDecides(url, respond);
    assert !ShouldRetry(respond(1), 1);
    assert t.attempts == 2;
    assert t.backoffs[0] == Backoff(respond(0), 0) == 2;
  }

  /** Server errors are retried after 1 and 2 seconds; the third one is
      raised with its own status code. */
  lemma ServerErrorEveryTime(url: string, respond: nat -> Response)
    requires forall k :: 0 <= k < MaxAttempts ==> respond(k).HttpError? && respond(k).code >= 500
    ensures var t := ApiRequest(url, respond);
      && t.attempts == 3 && t.backoffs == [1, 2]
      && t.result.Failure? && t.result.error.StatusError? && t.result.error.code == respond(2).code
  {
    var t := ApiRequest(url, respond);
    FinalAttemptDecides(url, respond);
    assert !ShouldRetry(respond(2), 2);
    assert t.attempts == 3;
    assert t.backoffs[0] == Backoff(respond(0), 0) == 1;
    assert t.backoffs[1] == Backoff(respond(1), 1) == 2;
  }

  /** Any other HTTP error fails on its first occurrence, without a back-off. */
  lemma ClientErrorFailsFast(url: string, respond: nat -> Response)
    requires respond(0).HttpError? && respond(0).code != 429 && respond(0).code < 500
    ensures var t := ApiRequest(url, respond);
      && t.attempts == 1 && t.backoffs == []
      && t.result.Failure? && t.result.error.StatusError? && t.result.error.code == respond(0).code
  {
    FinalAttemptDecides(url, respond);
  }

  // ---------------------------------------------------------------------
  // Connection settings

  /** `AdoConfig`: organisation, project and personal access token. */
  datatype AdoConfig = AdoConfig(organization: string, project: string, pat: string)

  /** `from_project`: the settings, or `None` (the `ValueError`) when any of
      the three values is missing or empty. */
  function FromProject(organization: string, project: string, pat: string): (r: Option<AdoConfig>)
    ensures r.Some? <==> organization != "" && project != "" && pat != ""
    ensures r.Some? ==> r.value == AdoConfig(organization, project, pat)
  {
    if organization != "" && project != "" && pat != "" then Some(AdoConfig(organization, project, pat))
    else None
  }

  const BasicPrefix: string := "Basic "

  /** `AdoConfig.auth_header`: RFC 7617 Basic credentials with an empty user
      name, "Basic " followed by the base 64 of the UTF-8 bytes of ":" + pat. */
  function AuthHeader(config: AdoConfig): (r: string)
    ensures StartsWith(r, BasicPrefix)
    ensures Base64.Decode(r[|BasicPrefix|..]).Some?
    ensures Utf8.Decode(Base64.Decode(r[|BasicPrefix|..]).value) == Some(":" + config.pat)
  {
    var token := Base64.Encode(Utf8.Encode(":" + config.pat));
    Base64.DecodeEncode(Utf8.Encode(":" + config.pat));
    Utf8.DecodeEncode(":" + config.pat);
    assert (BasicPrefix + token)[|BasicPrefix|..] == token;
    BasicPrefix + token
  }

  /** Python's `needle in haystack` for strings: a substring test. */
  predicate Contains(haystack: string, needle: string) {
    exists i :: 0 <= i <= |haystack| && StartsWith(haystack[i..], needle)
  }

  /** `test_connection`: true exactly when the project-info request
      succeeded and its result contains "id" (a key of an object, an element
      of an array, a substring of a string); every failure reads as false. */
  function TestConnection(r: Result<Json, ApiError>): (ok: bool)
    ensures ok ==> r.Success?
    ensures r.Success? && r.value.JObj? ==> (ok <==> "id" in r.value.members)
    ensures r.Success? && r.value.JArr? ==>
      (ok <==> exists i :: 0 <= i < |r.value.items| && r.value.items[i] == JStr("id"))
    ensures r.Success? && r.value.JStr? ==>
      (ok <==> exists i :: 0 <= i < |r.value.s| - 1 && r.value.s[i] == 'i' && r.value.s[i + 1] == 'd')
    ensures r.Success? && (r.value.JNum? || r.value.JBool? || r.value.JNull?) ==> !ok
  {
    match r
    case Failure(_) => false
    case Success(doc) =>
      match doc
      case JObj(members) => "id" in members
      case JArr(items) => JStr("id") in items
      case JStr(s) => ContainsId(s); Contains(s, "id")
      case _ => false
  }

  /** "id" occurs in `s` exactly when some character 'i' is followed by 'd'. */
  lemma ContainsId(s: string)
    ensures Contains(s, "id") <==> exists i :: 0 <= i < |s| - 1 && s[i] == 'i' && s[i + 1] == 'd'
  {
    if Contains(s, "id") {
      var i :| 0 <= i <= |s| && StartsWith(s[i..], "id");
      assert s[i..][0] == s[i] && s[i..][1] == s[i + 1];
    }
    if exists i :: 0 <= i < |s| - 1 && s[i] == 'i' && s[i + 1] == 'd' {
      var i :| 0 <= i < |s| - 1 && s[i] == 'i' && s[i + 1] == 'd';
      assert s[i..][..2] == "id";
    }
  }
}
