/** The `POST /api/form-submission` route and `GET /api/form-submissions`.
    The rate limiter runs first; an allowed request has its body normalised
    in place, then parsed by the schema, and only a body the schema accepts
    reaches the store. A throw while normalising answers 500, a failed parse
    400, a blocked request 429.

    The HTTP layer is reduced to its inputs: the client key the limiter uses
    and the address and user agent the store records are computed from
    `req.ip`, the socket's remote address and the `User-Agent` header, passed
    in as optional strings. One clock reading `now` serves the limiter and
    the store's timestamp. */
module Routes {
  import opened Wrappers
  import opened Json
  import opened JsString
  import opened Schema
  import opened RateLimit
  import opened Storage
  import opened Sanitize

  datatype Response =
    | Submitted(submissionId: int, sanitizedData: InsertFormSubmission)
    | ValidationFailed(errors: seq<Issue>)
    | TooManyRequests(retryAfter: int)
    | InternalError

  /** The HTTP status each response is sent with. */
  function Status(r: Response): int {
    match r
    case Submitted(_, _) => 200
    case ValidationFailed(_) => 400
    case TooManyRequests(_) => 429
    case InternalError => 500
  }

  /** `a || b` on two optional strings: the first that is present and not
      empty, if any. */
  function FirstTruthy(a: Option<string>, b: Option<string>): (r: Option<string>)
    ensures r.Some? <==> (a.Some? && a.value != "") || (b.Some? && b.value != "")
    ensures r.Some? ==> r == (if a.Some? && a.value != "" then a else b)
  {
    if a.Some? && a.value != "" then a
    else if b.Some? && b.value != "" then b
    else None
  }

  /** The limiter's key: the request's address, else the socket's remote
      address, else the loopback address. */
  function ClientKey(ip: Option<string>, remoteAddress: Option<string>): (r: string)
    ensures r != ""
    ensures ip.Some? && ip.value != "" ==> r == ip.value
    ensures !(ip.Some? && ip.value != "") && remoteAddress.Some? && remoteAddress.value != "" ==>
      r == remoteAddress.value
    ensures FirstTruthy(ip, remoteAddress).None? ==> r == "127.0.0.1"
  {
    match FirstTruthy(ip, remoteAddress)
    case Some(k) => k
    case None => "127.0.0.1"
  }

  /** The limiter and the store see the same client: when an address is
      recorded it is the limiter's key, and when none is recorded every such
      client shares the loopback key. */
  lemma ClientKeyMatchesRecordedAddress(ip: Option<string>, remoteAddress: Option<string>)
    ensures OrNull(FirstTruthy(ip, remoteAddress)) == FirstTruthy(ip, remoteAddress)
    ensures match FirstTruthy(ip, remoteAddress)
      case Some(k) => ClientKey(ip, remoteAddress) == k && k != ""
      case None => ClientKey(ip, remoteAddress) == "127.0.0.1"
  {
  }

  /** The answer to one request, given the limiter's decision, the body as
      received and the store's next submission id. */
  function Respond(d: Decision, body: Input, nextId: int,
                   purify: string -> string, isEmail: string -> bool): (r: Response)
    ensures r.TooManyRequests? <==> d.Block?
    ensures d.Block? ==> r == TooManyRequests(d.retryAfter)
    ensures r.Submitted? ==>
      d == Allow && Accepts(SanitizeSubmission(body, purify).body, isEmail) && r.submissionId == nextId
  {
    match d
    case Block(retryAfter) => TooManyRequests(retryAfter)
    case Allow =>
      var s := SanitizeSubmission(body, purify);
      if s.threw then InternalError
      else
        match SafeParse(s.body, isEmail)
        case Failure(errors) => ValidationFailed(errors)
        case Success(data) => Submitted(nextId, data)
  }

  /** Each status has exactly one cause: 429 when the limiter blocks, 500
      when the allowed body holds a truthy non-string field, 400 when the
      normalised body breaks a schema rule, and 200 otherwise. */
  lemma StatusCauses(d: Decision, body: Input, nextId: int,
                     purify: string -> string, isEmail: string -> bool)
    ensures var r := Respond(d, body, nextId, purify, isEmail);
      var s := SanitizeSubmission(body, purify);
      && (Status(r) == 429 <==> d.Block?)
      && (Status(r) == 500 <==> d.Allow? && s.threw)
      && (Status(r) == 400 <==> d.Allow? && !s.threw && !Accepts(s.body, isEmail))
      && (Status(r) == 200 <==> d.Allow? && !s.threw && Accepts(s.body, isEmail))
  {
  }

  /** A 500 is exactly a body with a truthy field that is not a string. */
  lemma InternalErrorIff(body: Input, nextId: int, purify: string -> string, isEmail: string -> bool)
    ensures Respond(Allow, body, nextId, purify, isEmail).InternalError? <==>
      Throws(body.fullName) || Throws(body.email) || Throws(body.phone) || Throws(body.message)
  {
  }

  /** A 400 lists at least one issue, and names exactly the fields of the
      normalised body whose rules fail. */
  lemma ValidationFailureNamesFields(d: Decision, body: Input, nextId: int,
                                     purify: string -> string, isEmail: string -> bool)
    requires Respond(d, body, nextId, purify, isEmail).ValidationFailed?
    ensures var errors := Respond(d, body, nextId, purify, isEmail).errors;
      var s := SanitizeSubmission(body, purify).body;
      errors != [] && forall f :: Reports(errors, f) <==> !FieldValid(s, f, isEmail)
  {
  }

  /** A request refused with 400 or 500 has still been counted: the limiter
      ran first and let it through, so the caller's entry grew by one, or a
      new window was opened for it. */
  lemma RefusedRequestUsesSlot(m: map<string, Entry>, key: string, now: int, body: Input, nextId: int,
                               purify: string -> string, isEmail: string -> bool)
    requires var r := Respond(Step(m, key, now).decision, body, nextId, purify, isEmail);
      r.ValidationFailed? || r.InternalError?
    ensures var e := Step(m, key, now).entries;
      && key in e
      && e[key] == (if key in m && !Expired(m[key], now)
                    then Entry(m[key].count + 1, m[key].resetTime)
                    else Entry(1, now + WindowMs))
  {
    AllowTouchesOnlyCaller(m, key, now);
  }

  /** A 200 is an allowed request whose normalised body the schema accepts,
      answered with the next id and the parsed body. */
  lemma SubmittedOnlyIfAccepted(d: Decision, body: Input, nextId: int,
                                purify: string -> string, isEmail: string -> bool)
    requires Respond(d, body, nextId, purify, isEmail).Submitted?
    ensures var r := Respond(d, body, nextId, purify, isEmail);
      var s := SanitizeSubmission(body, purify);
      && d == Allow && !s.threw && Accepts(s.body, isEmail)
      && r.submissionId == nextId
      && r.sanitizedData == SafeParse(s.body, isEmail).value
  {
  }

  /** A 200 carries the sanitized form of what the client sent: the
      trimmed name and message and the trimmed and lowercased email, each
      passed through the sanitizer. An email sent as `""` is falsy, skips the
      normaliser and is carried as `""`. */
  lemma SubmittedDataIsSanitized(d: Decision, body: Input, nextId: int,
                                 purify: string -> string, isEmail: string -> bool)
    requires Respond(d, body, nextId, purify, isEmail).Submitted?
    ensures var data := Respond(d, body, nextId, purify, isEmail).sanitizedData;
      && body.fullName.Str? && body.email.Str? && body.message.Str?
      && data.fullName == purify(Trim(body.fullName.s))
      && data.email == (if body.email.s == "" then "" else purify(ToLowerCase(Trim(body.email.s))))
      && data.message == purify(Trim(body.message.s))
  {
    SubmittedOnlyIfAccepted(d, body, nextId, purify, isEmail);
    var s := SanitizeSubmission(body, purify);
    var data := SafeParse(s.body, isEmail).value;
    NoThrowBody(body, purify);
    assert FullNameValid(s.body.fullName) && EmailValid(s.body.email, isEmail) && MessageValid(s.body.message);
    assert data.fullName == s.body.fullName.s && data.email == s.body.email.s && data.message == s.body.message.s;
  }

  /** The phone a 200 carries, when there is one, is the trimmed and
      filtered phone the client sent, passed through the sanitizer; a phone
      sent as `""` is carried as `""`. */
  lemma SubmittedPhoneIsSanitized(d: Decision, body: Input, nextId: int,
                                  purify: string -> string, isEmail: string -> bool)
    requires Respond(d, body, nextId, purify, isEmail).Submitted?
    ensures var data := Respond(d, body, nextId, purify, isEmail).sanitizedData;
      data.phone.Some? ==>
        && body.phone.Str?
        && data.phone.value == (if body.phone.s == "" then "" else purify(KeepPhoneChars(Trim(body.phone.s))))
  {
    SubmittedOnlyIfAccepted(d, body, nextId, purify, isEmail);
    var s := SanitizeSubmission(body, purify);
    var data := SafeParse(s.body, isEmail).value;
    NoThrowBody(body, purify);
    assert data.phone.Some? ==> data.phone.value == s.body.phone.s;
  }

  /** What a 200 carries obeys the schema's bounds, whatever the sanitizer
      does: a name of 2 to 50 characters, an email of at most 100, a message
      of 10 to 500 and, when there is one, a phone of at most 20. */
  lemma SubmittedDataWithinBounds(d: Decision, body: Input, nextId: int,
                                  purify: string -> string, isEmail: string -> bool)
    requires Respond(d, body, nextId, purify, isEmail).Submitted?
    ensures var data := Respond(d, body, nextId, purify, isEmail).sanitizedData;
      && FullNameMin <= |data.fullName| <= FullNameMax
      && |data.email| <= EmailMax
      && MessageMin <= |data.message| <= MessageMax
      && (data.phone.Some? ==> |data.phone.value| <= PhoneMax)
  {
    SubmittedOnlyIfAccepted(d, body, nextId, purify, isEmail);
    var s := SanitizeSubmission(body, purify);
    var data := SafeParse(s.body, isEmail).value;
    assert FieldValid(s.body, FullName, isEmail) && FieldValid(s.body, Email, isEmail);
    assert FieldValid(s.body, Message, isEmail) && FieldValid(s.body, Phone, isEmail);
    assert data.phone.Some? ==> data.phone.value == s.body.phone.s;
  }

  /** The route: rate limit, normalise in place, parse, then store. The
      limiter's map always moves as `Step` says, so a request that is refused
      later still used up its slot. Only a 200 changes the store, adding the
      parsed body under the old counter; a blocked request leaves the body
      untouched and an allowed one leaves it normalised. */
  method HandleFormSubmission(limiter: RateLimiter, storage: MemStorage, body: RequestBody,
                              ip: Option<string>, remoteAddress: Option<string>,
                              userAgent: Option<string>, now: int,
                              purify: string -> string, isEmail: string -> bool)
    returns (response: Response)
    requires storage.Valid()
    modifies limiter, storage, body
    ensures storage.Valid()
    ensures var step := Step(old(limiter.entries), ClientKey(ip, remoteAddress), now);
      && limiter.entries == step.entries
      && response == Respond(step.decision, old(body.Fields()), old(storage.currentSubmissionId), purify, isEmail)
      && (step.decision.Block? ==> body.Fields() == old(body.Fields()))
      && (step.decision.Allow? ==> body.Fields() == SanitizeSubmission(old(body.Fields()), purify).body)
    ensures storage.users == old(storage.users) && storage.currentUserId == old(storage.currentUserId)
    ensures !response.Submitted? ==>
      storage.submissions == old(storage.submissions)
      && storage.currentSubmissionId == old(storage.currentSubmissionId)
    ensures response.Submitted? ==>
      var data := response.sanitizedData;
      && storage.currentSubmissionId == old(storage.currentSubmissionId) + 1
      && storage.submissions == old(storage.submissions)[response.submissionId :=
           FormSubmission(response.submissionId, data.fullName, data.email, data.phone, data.message,
                          data.securityPreferences, now,
                          OrNull(FirstTruthy(ip, remoteAddress)), OrNull(userAgent))]
  {
    var decision := limiter.RateLimitRequest(ClientKey(ip, remoteAddress), now);
    if decision.Block? {
      return TooManyRequests(decision.retryAfter);
    }
    var threw := ValidateAndSanitizeSubmission(body, purify);
    if threw {
      return InternalError;
    }
    var validationResult := SafeParse(body.Fields(), isEmail);
    if validationResult.Failure? {
      return ValidationFailed(validationResult.error);
    }
    var submission := storage.CreateFormSubmission(
      validationResult.value, FirstTruthy(ip, remoteAddress), userAgent, now);
    response := Submitted(submission.id, InsertFormSubmission(
      submission.fullName, submission.email, submission.phone,
      submission.message, submission.securityPreferences));
  }

  /** `GET /api/form-submissions`: every stored submission exactly once,
      newest first, submissions with the same time in insertion order. */
  function ListSubmissions(storage: MemStorage): (r: seq<FormSubmission>)
    reads storage
    requires storage.Valid()
    ensures NewestFirst(r)
    ensures multiset(r) == multiset(InsertionOrder(storage.submissions, storage.currentSubmissionId))
    ensures forall t :: StampedAt(r, t) == StampedAt(InsertionOrder(storage.submissions, storage.currentSubmissionId), t)
    ensures forall id :: id in storage.submissions ==> storage.submissions[id] in r
    ensures forall x :: x in r ==> x.id in storage.submissions && storage.submissions[x.id] == x
  {
    storage.GetFormSubmissions()
  }
}
