/** `convert_html_to_pdf`, the `POST /convert` route: the API-key check, the
    validation of the request's two sources, and the mapping of the outcome of
    its `try` block to a `ConvertResponse`. The network call is not made here:
    what the `try` block ends with is an input. */
module Convert {
  import opened Wrappers
  import opened Text
  import opened Responses
  import opened ApiKey

  /** The `ConvertRequest` model; `options` is accepted and never read. */
  datatype ConvertRequest = ConvertRequest(
    html: Option<string>,
    url: Option<string>,
    options: Option<map<string, Json>>)

  /** Python truthiness of an optional string: None and "" are both false. */
  predicate Truthy(o: Option<string>) {
    o.Some? && o.value != ""
  }

  const NoSourceError := "Either 'html' or 'url' is required"
  const BothSourcesError := "Provide either 'html' or 'url', not both"

  datatype Validation = Valid | Rejected(message: string)

  /** The validation branch: "neither" is checked before "both", so a request
      passes exactly when one of `html` and `url` is truthy. */
  function Validate(req: ConvertRequest): (v: Validation)
    ensures v.Valid? <==> (Truthy(req.html) != Truthy(req.url))
    ensures v == Rejected(NoSourceError) <==> !Truthy(req.html) && !Truthy(req.url)
    ensures v == Rejected(BothSourcesError) <==> Truthy(req.html) && Truthy(req.url)
  {
    if !Truthy(req.html) && !Truthy(req.url) then
      Rejected(NoSourceError)
    else if Truthy(req.html) && Truthy(req.url) then
      Rejected(BothSourcesError)
    else
      Valid
  }

  /** An exception raised inside the `try` block: an `httpx.TimeoutException`
      or any other exception, carrying its `str(e)`. */
  datatype RaisedException = TimeoutException | OtherException(text: string)

  /** How the `try` block ends: by returning, or by raising. */
  datatype TryOutcome = Completed | Raised(exception: RaisedException)

  /** The `try` block as written returns its placeholder response and never raises. */
  const StubOutcome: TryOutcome := Completed

  const TimeoutError := "PDF generation timed out. " + "Try reducing HTML complexity."
  const InternalErrorPrefix := "Internal error: "

  /** The `try`/`except` mapping: success exactly when the block completed;
      a timeout gets its own message, checked before the catch-all, and any
      other exception is reported as "Internal error: " followed by its text. */
  function TryResponse(outcome: TryOutcome): (r: ConvertResponse)
    ensures r.success <==> outcome.Completed?
    ensures r.success ==> r.error.None? && r.url.None? && r.pdfBase64.None? && r.pages.None?
    ensures !r.success ==> r.error.Some?
    ensures outcome == Raised(TimeoutException) ==> r.error == Some(TimeoutError)
    ensures outcome.Raised? && outcome.exception.OtherException? ==>
      StartsWith(r.error.value, InternalErrorPrefix) && r.error.value[|InternalErrorPrefix|..] == outcome.exception.text
  {
    match outcome
    case Completed => Succeeded()
    case Raised(TimeoutException) => Failed(TimeoutError)
    case Raised(OtherException(text)) => Failed(InternalErrorPrefix + text)
  }

  /** The timeout message is never mistaken for a catch-all error. */
  lemma TimeoutDistinguishable(text: string)
    ensures TryResponse(Raised(TimeoutException)).error != TryResponse(Raised(OtherException(text))).error
  {
    assert TryResponse(Raised(TimeoutException)).error == Some(TimeoutError);
    assert TimeoutError[..|InternalErrorPrefix|][0] != InternalErrorPrefix[0];
  }

  /** The whole route: the key check runs first and its `HTTPException` goes
      to the exception handler; then validation; then the `try` block. */
  function HandleConvert(apiKey: string, authorization: Option<string>, req: ConvertRequest, outcome: TryOutcome): (resp: HttpResponse)
    ensures resp.statusCode == StatusOk || resp.statusCode == StatusUnauthorized
  {
    match VerifyApiKey(authorization, apiKey)
    case Failure(e) => HttpExceptionResponse(e)
    case Success(_) =>
      match Validate(req)
      case Rejected(message) => RouteResponse(Failed(message))
      case Valid => RouteResponse(TryResponse(outcome))
  }

  /** A request that fails the key check gets 401 and `success: false`,
      whatever its body and whatever the backend would have done. */
  lemma UnauthenticatedGets401(apiKey: string, authorization: Option<string>, req: ConvertRequest, outcome: TryOutcome)
    requires VerifyApiKey(authorization, apiKey).Failure?
    ensures HandleConvert(apiKey, authorization, req, outcome).statusCode == 401
    ensures Member(HandleConvert(apiKey, authorization, req, outcome).body, "success") == Some(JBool(false))
  {
  }

  /** Without an `Authorization` header every request gets 401 and the
      "missing" detail. */
  lemma NoHeaderGets401(apiKey: string, req: ConvertRequest, outcome: TryOutcome)
    ensures HandleConvert(apiKey, None, req, outcome) == HttpExceptionResponse(HttpException(401, MissingDetail))
  {
  }

  /** The status code is 401 exactly when the key check fails. */
  lemma StatusReflectsAuthentication(apiKey: string, authorization: Option<string>, req: ConvertRequest, outcome: TryOutcome)
    ensures HandleConvert(apiKey, authorization, req, outcome).statusCode == 401 <==> VerifyApiKey(authorization, apiKey).Failure?
  {
  }

  // The three lemmas below put the case they are about on the left of their
  // `ensures`, so that each one is stated over every request and header.

  /** An authenticated request with neither source truthy (None or "") gets
      200 with the "required" message, even if the other check would fail. */
  lemma NeitherSourceRejected(apiKey: string, authorization: Option<string>, req: ConvertRequest, outcome: TryOutcome)
    ensures VerifyApiKey(authorization, apiKey).Success? && !Truthy(req.html) && !Truthy(req.url) ==>
      HandleConvert(apiKey, authorization, req, outcome) == RouteResponse(Failed(NoSourceError))
  {
  }

  /** An authenticated request with both sources truthy gets 200 with the "not both" message. */
  lemma BothSourcesRejected(apiKey: string, authorization: Option<string>, req: ConvertRequest, outcome: TryOutcome)
    ensures VerifyApiKey(authorization, apiKey).Success? && Truthy(req.html) && Truthy(req.url) ==>
      HandleConvert(apiKey, authorization, req, outcome) == RouteResponse(Failed(BothSourcesError))
  {
  }

  /** An authenticated request with exactly one truthy source reaches the
      `try` block, even if the other source is present as "". With the block
      as written the response is a success. */
  lemma OneSourceReachesBackend(apiKey: string, authorization: Option<string>, req: ConvertRequest, outcome: TryOutcome)
    ensures VerifyApiKey(authorization, apiKey).Success? && Truthy(req.html) != Truthy(req.url) ==>
      && HandleConvert(apiKey, authorization, req, outcome) == RouteResponse(TryResponse(outcome))
      && Member(HandleConvert(apiKey, authorization, req, StubOutcome).body, "success") == Some(JBool(true))
  {
  }

  /** Every response says whether it succeeded, and every failure carries an
      error message, whichever of the four failure paths produced it. */
  lemma FailuresCarryMessage(apiKey: string, authorization: Option<string>, req: ConvertRequest, outcome: TryOutcome)
    ensures var body := HandleConvert(apiKey, authorization, req, outcome).body;
      && (Member(body, "success") == Some(JBool(true)) || Member(body, "success") == Some(JBool(false)))
      && (Member(body, "success") == Some(JBool(false)) ==> exists m :: Member(body, "error") == Some(JString(m)))
  {
    var resp := HandleConvert(apiKey, authorization, req, outcome);
    match VerifyApiKey(authorization, apiKey)
    case Failure(e) =>
      assert Member(resp.body, "error") == Some(JString(e.detail));
    case Success(_) =>
      match Validate(req)
      case Rejected(message) =>
        assert Member(resp.body, "error") == Some(JString(message));
      case Valid =>
        var r := TryResponse(outcome);
        assert Member(resp.body, "error") == Some(OptionalString(r.error));
        if !r.success {
          assert Member(resp.body, "error") == Some(JString(r.error.value));
        }
  }

  /** The route never reads `options`. */
  lemma OptionsIgnored(apiKey: string, authorization: Option<string>, req: ConvertRequest, outcome: TryOutcome, options: Option<map<string, Json>>)
    ensures HandleConvert(apiKey, authorization, req.(options := options), outcome) == HandleConvert(apiKey, authorization, req, outcome)
  {
  }

  /** With the default configuration, the headers the test suite sends
      (`Bearer <API_KEY>`) get the responses it expects: an empty body is
      told a source is required, both sources are refused, and either
      source alone reaches the `try` block. */
  lemma DefaultConfigurationScenarios(html: string, url: string, outcome: TryOutcome)
    requires html != "" && url != ""
    ensures var auth := Some(Scheme + DevSentinel);
      && HandleConvert(DevSentinel, auth, ConvertRequest(None, None, None), outcome) == RouteResponse(Failed(NoSourceError))
      && HandleConvert(DevSentinel, auth, ConvertRequest(Some(html), Some(url), None), outcome) == RouteResponse(Failed(BothSourcesError))
      && HandleConvert(DevSentinel, auth, ConvertRequest(Some(html), None, None), outcome) == RouteResponse(TryResponse(outcome))
      && HandleConvert(DevSentinel, auth, ConvertRequest(None, Some(url), None), outcome) == RouteResponse(TryResponse(outcome))
  {
    var auth := Some(Scheme + DevSentinel);
    DefaultKeyHeaderAccepted();
    assert VerifyApiKey(auth, DevSentinel).Success?;
    NeitherSourceRejected(DevSentinel, auth, ConvertRequest(None, None, None), outcome);
    BothSourcesRejected(DevSentinel, auth, ConvertRequest(Some(html), Some(url), None), outcome);
    OneSourceReachesBackend(DevSentinel, auth, ConvertRequest(Some(html), None, None), outcome);
    OneSourceReachesBackend(DevSentinel, auth, ConvertRequest(None, Some(url), None), outcome);
  }
}
