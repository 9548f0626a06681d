/**
 The contact-form request handler as a pure decision procedure. The
 environment lookup, the JSON parse of the request body, and the call to the
 e-mail provider are inputs: the handler is given their outcomes and returns
 the HTTP response together with the request it would send to the provider,
 if any.
 */
module Handler {
  import opened Optional
  import opened Email

  /** An incoming request: its method and the outcome of parsing its body as
      JSON (`None` when the parse throws). */
  datatype Request = Request(httpMethod: string, body: Option<ContactForm>)

  /** The parsed JSON body of a provider reply. `error` is present when the
      reply carries a truthy `error` value; its text is the serialised
      value. */
  datatype ReplyBody = ReplyBody(id: Option<string>, error: Option<string>)

  /** What the provider call yields: either the request or the read of its
      reply throws, or it answers with the `ok` flag of its HTTP status and
      a body that may not parse as a JSON object (`None`, which also stands
      for a reply of `null`). */
  datatype ProviderOutcome =
    | TransportFailure
    | Reply(ok: bool, body: Option<ReplyBody>)

  /** Everything one invocation depends on. `apiKey` is the value of the
      `RESEND_API_KEY` environment variable; `provider` is what the provider
      call yields if it is made. */
  datatype Invocation = Invocation(request: Request, apiKey: Option<string>, provider: ProviderOutcome)

  /** The provider request: its bearer authorization and its JSON payload. */
  datatype Dispatch = Dispatch(authorization: string, payload: Payload)

  /** Why a request failed; one kind per error the handler reports. */
  datatype ErrorKind =
    | MissingApiKey
    | InvalidRequestFormat
    | MissingRequiredFields
    | ProviderUnreachable
    | ProviderHttpError
    | ProviderApiError

  /** The JSON response body: `{success: false, error}` or
      `{success: true, message, id}`. */
  datatype Body =
    | Failed(kind: ErrorKind)
    | Sent(id: Option<string>)
  {
    /** The `success` flag of the JSON body. */
    predicate Success()
    {
      Sent?
    }

    /** The `error` text of a failure, or the `message` of a success. */
    function Text(): string
    {
      match this
      case Failed(kind) => ErrorText(kind)
      case Sent(_) => SuccessMessage
    }
  }

  /** An HTTP response: status, headers, and JSON body (`None` for the empty
      pre-flight response). */
  datatype Response = Response(status: int, headers: seq<(string, string)>, body: Option<Body>)

  /** The response and the provider request the handler issued, if any. */
  datatype Exchange = Exchange(response: Response, dispatched: Option<Dispatch>)

  const CorsHeaders: seq<(string, string)> := [
    ("Access-Control-Allow-Origin", "*"),
    ("Access-Control-Allow-Headers", "authorization, x-client-info, apikey, content-type"),
    ("Content-Type", "application/json")
  ]

  const SuccessMessage: string := "Email sent successfully"

  /** The `error` text of a failure body. The three provider failures share
      the prefix shown; the cause appended to it is not modelled. */
  function ErrorText(kind: ErrorKind): string
  {
    match kind
    case MissingApiKey => "Email service configuration error. Missing API key."
    case InvalidRequestFormat => "Invalid request format"
    case MissingRequiredFields => "Missing required fields: name, email, and message are required"
    case ProviderUnreachable => "Failed to send email: "
    case ProviderHttpError => "Failed to send email: Resend API HTTP error: "
    case ProviderApiError => "Failed to send email: Resend API error: "
  }

  /** A JSON failure response. */
  function Fail(status: int, kind: ErrorKind): Response
  {
    Response(status, CorsHeaders, Some(Failed(kind)))
  }

  const Preflight: Response := Response(204, CorsHeaders, None)

  /** Whether a parsed provider reply reports an error in-band. */
  predicate InBandError(body: Option<ReplyBody>)
  {
    body.Some? && body.value.error.Some?
  }

  /** The `id` of a parsed provider reply (`responseData?.id`). */
  function ReplyId(body: Option<ReplyBody>): Option<string>
  {
    if body.Some? then body.value.id else None
  }

  /** The response for a provider outcome. The submission succeeds exactly
      when the provider answered with an ok status and reported no error
      in-band; an unparsable ok reply counts as success with no id. The HTTP
      status is checked before the in-band error. */
  function InterpretReply(p: ProviderOutcome): (r: Response)
    ensures r.status == 200 || r.status == 500
    ensures r.status == 200 <==> p.Reply? && p.ok && !InBandError(p.body)
    ensures r.headers == CorsHeaders && r.body.Some?
    ensures r.body.value.Success() <==> r.status == 200
    ensures r.status == 200 ==> r.body.value == Sent(ReplyId(p.body))
    ensures r.status == 200 ==> r.body.value.Text() == "Email sent successfully"
    ensures p.TransportFailure? ==> r.body.value == Failed(ProviderUnreachable)
    ensures p.Reply? && !p.ok ==> r.body.value == Failed(ProviderHttpError)
    ensures p.Reply? && p.ok && InBandError(p.body) ==> r.body.value == Failed(ProviderApiError)
  {
    match p
    case TransportFailure => Fail(500, ProviderUnreachable)
    case Reply(ok, body) =>
      if !ok then Fail(500, ProviderHttpError)
      else if body.Some? && body.value.error.Some? then Fail(500, ProviderApiError)
      else Response(200, CorsHeaders, Some(Sent(ReplyId(body))))
  }

  /** Parse and validation of the request body. A body that did not parse is
      an invalid request; a parsed body must carry a truthy name, email and
      message. */
  function CheckForm(body: Option<ContactForm>): (r: Result<ContactForm, ErrorKind>)
    ensures r.Success? <==> body.Some? && HasRequiredFields(body.value)
    ensures r.Success? ==> r.value == body.value
    ensures r.Failure? ==> r.error == (if body.None? then InvalidRequestFormat else MissingRequiredFields)
  {
    match body
    case None => Failure(InvalidRequestFormat)
    case Some(f) =>
      if !Truthy(f.name) || !Truthy(f.email) || !Truthy(f.message) then Failure(MissingRequiredFields)
      else Success(f)
  }

  /** Whether the handler gets as far as calling the provider. */
  predicate Sends(inv: Invocation)
  {
    && inv.request.httpMethod != "OPTIONS"
    && Truthy(inv.apiKey)
    && inv.request.body.Some?
    && HasRequiredFields(inv.request.body.value)
  }

  /** One invocation of the handler. The checks run in a fixed order:
      pre-flight, API key, body parse, required fields, and only then the
      provider call, whose outcome decides the response. */
  function Handle(inv: Invocation): (x: Exchange)
    ensures x.response.headers == CorsHeaders
    ensures x.response.status in {200, 204, 400, 500}
    ensures x.response.status == 204 <==> inv.request.httpMethod == "OPTIONS"
    ensures x.response.body.None? <==> x.response.status == 204
    ensures x.response.body.Some? ==> (x.response.body.value.Success() <==> x.response.status == 200)
    ensures inv.request.httpMethod == "OPTIONS" ==> x == Exchange(Preflight, None)
    ensures inv.request.httpMethod != "OPTIONS" && !Truthy(inv.apiKey) ==> x == Exchange(Fail(500, MissingApiKey), None)
    ensures inv.request.httpMethod != "OPTIONS" && Truthy(inv.apiKey) && inv.request.body.None?
            ==> x == Exchange(Fail(400, InvalidRequestFormat), None)
    ensures inv.request.httpMethod != "OPTIONS" && Truthy(inv.apiKey) && inv.request.body.Some?
            && !HasRequiredFields(inv.request.body.value)
            ==> x == Exchange(Fail(400, MissingRequiredFields), None)
    ensures x.dispatched.Some? <==> Sends(inv)
    ensures Sends(inv) ==> x.dispatched.value.authorization == "Bearer " + inv.apiKey.value
    ensures Sends(inv) ==> x.dispatched.value.payload == BuildPayload(inv.request.body.value)
    ensures Sends(inv) ==> x.response == InterpretReply(inv.provider)
  {
    if inv.request.httpMethod == "OPTIONS" then Exchange(Preflight, None)
    else if !Truthy(inv.apiKey) then Exchange(Fail(500, MissingApiKey), None)
    else
      match CheckForm(inv.request.body)
      case Failure(kind) => Exchange(Fail(400, kind), None)
      case Success(f) =>
        var dispatch := Dispatch("Bearer " + inv.apiKey.value, BuildPayload(f));
        Exchange(InterpretReply(inv.provider), Some(dispatch))
  }

  /** A pre-flight request gets the same empty 204 response whatever the
      configuration, body or provider. */
  lemma PreflightIgnoresEverything(inv: Invocation, inv': Invocation)
    requires inv.request.httpMethod == "OPTIONS" && inv'.request.httpMethod == "OPTIONS"
    ensures Handle(inv) == Handle(inv') == Exchange(Preflight, None)
  {
  }

  /** Without an API key the body is never consulted: any two non-pre-flight
      requests get the same configuration error, and nothing is sent. */
  lemma MissingKeyIgnoresBody(inv: Invocation, inv': Invocation)
    requires inv.request.httpMethod != "OPTIONS" && inv'.request.httpMethod != "OPTIONS"
    requires !Truthy(inv.apiKey) && !Truthy(inv'.apiKey)
    ensures Handle(inv) == Handle(inv')
    ensures Handle(inv).response.status == 500 && Handle(inv).dispatched.None?
    ensures Handle(inv).response.body.value.Text() == "Email service configuration error. Missing API key."
  {
  }

  /** The provider outcome matters only when a request was actually sent: if
      nothing was dispatched, any other provider behaviour gives the same
      exchange. */
  lemma ProviderOnlyConsultedWhenSent(inv: Invocation, p: ProviderOutcome)
    requires Handle(inv).dispatched.None?
    ensures Handle(inv.(provider := p)) == Handle(inv)
  {
  }

  /** A body lacking any of name, email or message is rejected with 400 and
      never reaches the provider, whichever of them is missing. */
  lemma MissingFieldRejected(inv: Invocation)
    requires inv.request.httpMethod != "OPTIONS" && Truthy(inv.apiKey)
    requires inv.request.body.Some?
    requires !Truthy(inv.request.body.value.name) || !Truthy(inv.request.body.value.email)
             || !Truthy(inv.request.body.value.message)
    ensures Handle(inv).response == Fail(400, MissingRequiredFields)
    ensures !Handle(inv).response.body.value.Success()
    ensures Handle(inv).response.body.value.Text()
            == "Missing required fields: name, email, and message are required"
    ensures Handle(inv).dispatched.None?
  {
  }
}
