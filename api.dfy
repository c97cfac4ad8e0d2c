/**
 * The HTTP boundary, app/main.py: request validation, the translation of
 * exceptions into status codes and messages, and the health endpoint.
 */
module Api {
  import opened Wrappers
  import opened JsonValues
  import opened Exceptions
  import opened Models
  import PyStr
  import Extractor
  import Gateway
  import Grammar

  /** The longest text POST /check accepts. */
  const MaxLength: nat := 5000

  const EmptyMessage: string := "Text cannot be empty"
  const TooLongMessage: string := "Text too long (max 5000 characters)"
  const UnavailableDetail: string := "Grammar service unavailable - Ollama not connected. Please ensure Ollama is running."
  const TimeoutDetail: string := "Grammar service timeout. The model is taking longer than expected. Please try again."
  const InvalidResponseDetail: string := "Invalid response from grammar service"
  const InternalDetail: string := "Internal server error. Please check the server logs for more details."

  /** What POST /check answers: 200 with the issues, or an HTTPException. */
  datatype CheckReply = Answered(body: GrammarCheckResponse) | HttpError(status: int, detail: string)

  /** The guards at the top of `grammar_check`: the exception they raise, if any. */
  function Validate(text: string): Option<Exception> {
    if PyStr.IsBlank(text) then Some(Domain(InvalidInput, EmptyMessage))
    else if |text| > MaxLength then Some(Domain(TextTooLong, TooLongMessage))
    else None
  }

  /** The except arms of `grammar_check`, tried in order. */
  function ToHttp(e: Exception): CheckReply {
    if IsInstance(e, InvalidInput) then HttpError(400, e.message)
    else if IsInstance(e, TextTooLong) then HttpError(400, e.message)
    else if IsInstance(e, OllamaConnection) then HttpError(503, UnavailableDetail)
    else if IsInstance(e, OllamaTimeout) then HttpError(504, TimeoutDetail)
    else if IsInstance(e, OllamaResponse) then HttpError(502, "Ollama service error: " + e.message)
    else if IsInstance(e, InvalidResponse) then HttpError(502, InvalidResponseDetail)
    else if IsInstance(e, ErrorKind.GrammarCheck) then HttpError(500, "Grammar check failed: " + e.message)
    else HttpError(500, InternalDetail)
  }

  /** POST /check: validate, run check_grammar, and answer or translate what it raised. */
  function GrammarCheck(text: string, send: Gateway.Service, loads: JsonLoads): CheckReply {
    match Validate(text)
    case Some(e) => ToHttp(e)
    case None =>
      match Grammar.Check(text, send, loads)
      case Ok(issues) => Answered(GrammarCheckResponse(issues))
      case Err(e) => ToHttp(e)
  }

  /** GET /health, given whether the listing call answered and with which status. */
  function HealthCheck(probe: Gateway.Probe): (h: HealthResponse)
    ensures h.ollamaConnected <==> probe.ProbeReplied? && probe.status == 200
  {
    var ollamaConnected := probe.ProbeReplied? && probe.status == 200;
    HealthResponse(if ollamaConnected then "healthy" else "degraded", ollamaConnected)
  }

  // ---- Properties of the boundary ----

  /** The status each domain error kind is answered with, as a table. */
  function StatusOf(k: ErrorKind): int {
    match k
    case InvalidInput => 400
    case TextTooLong => 400
    case OllamaConnection => 503
    case OllamaTimeout => 504
    case OllamaResponse => 502
    case InvalidResponse => 502
    case GrammarCheck => 500
    case ModelNotAvailable => 500
  }

  /** Each domain error gets its kind's status from the table; validation kinds keep their message. */
  lemma ErrorMapping(k: ErrorKind, message: string)
    ensures ToHttp(Domain(k, message)).HttpError?
    ensures ToHttp(Domain(k, message)).status == StatusOf(k)
    ensures k in {InvalidInput, TextTooLong} ==> ToHttp(Domain(k, message)).detail == message
    ensures k == OllamaResponse ==> ToHttp(Domain(k, message)).detail == "Ollama service error: " + message
    ensures k in {ErrorKind.GrammarCheck, ModelNotAvailable} ==> ToHttp(Domain(k, message)).detail == "Grammar check failed: " + message
  {
  }

  /** Connection, timeout and invalid-response failures answer with fixed texts that ignore the exception's message. */
  lemma FixedDetails(message: string, other: string)
    ensures ToHttp(Domain(OllamaConnection, message)) == ToHttp(Domain(OllamaConnection, other)) == HttpError(503, UnavailableDetail)
    ensures ToHttp(Domain(OllamaTimeout, message)) == ToHttp(Domain(OllamaTimeout, other)) == HttpError(504, TimeoutDetail)
    ensures ToHttp(Domain(InvalidResponse, message)) == ToHttp(Domain(InvalidResponse, other)) == HttpError(502, InvalidResponseDetail)
  {
  }

  /** A non-domain exception answers 500 with one generic text, the same whatever the exception says. */
  lemma ForeignIsGeneric(e: Exception, other: Exception)
    requires !e.Domain? && !other.Domain?
    ensures ToHttp(e) == ToHttp(other) == HttpError(500, InternalDetail)
  {
  }

  /**
   * Blank text is refused as empty before its length is looked at, and the
   * service plays no part in the answer.
   */
  lemma BlankRejectedFirst(text: string, send: Gateway.Service, loads: JsonLoads)
    requires PyStr.IsBlank(text)
    ensures GrammarCheck(text, send, loads) == HttpError(400, EmptyMessage)
  {
  }

  /** Non-blank text longer than 5000 characters is refused as too long without a call; 5000 passes. */
  lemma LengthBoundary(text: string, send: Gateway.Service, loads: JsonLoads)
    requires !PyStr.IsBlank(text)
    ensures |text| > MaxLength ==> GrammarCheck(text, send, loads) == HttpError(400, TooLongMessage)
    ensures |text| <= MaxLength <==> Validate(text).None?
  {
  }

  /** A valid request answers 200 with exactly check_grammar's issues, in order, or translates its error. */
  lemma SuccessCarriesIssues(text: string, send: Gateway.Service, loads: JsonLoads)
    requires Validate(text).None?
    ensures Grammar.Check(text, send, loads).Ok? ==>
      GrammarCheck(text, send, loads) == Answered(GrammarCheckResponse(Grammar.Check(text, send, loads).value))
    ensures Grammar.Check(text, send, loads).Err? ==>
      GrammarCheck(text, send, loads) == ToHttp(Grammar.Check(text, send, loads).error)
  {
  }

  /**
   * On the request path a reply whose JSON span does not decode is answered
   * 500, not 502: the gateway re-wraps the InvalidResponseError as a plain
   * GrammarCheckError before the boundary sees it.
   */
  lemma UndecodableReplyIs500(text: string, send: Gateway.Service, loads: JsonLoads, fields: map<string, Json>)
    requires Validate(text).None?
    requires send(Gateway.Truncated(text)) == Gateway.Replied(200, Parsed(JObject(fields)))
    requires Extractor.Extract(Get(fields, "response", JString("")), loads).Err?
    ensures GrammarCheck(text, send, loads).HttpError?
    ensures GrammarCheck(text, send, loads).status == 500
  {
    Gateway.ExtractorErrorsRewrapped(fields, loads);
  }

  /** The statuses POST /check can answer with. */
  lemma StatusesAnswered(text: string, send: Gateway.Service, loads: JsonLoads)
    ensures var reply := GrammarCheck(text, send, loads);
      reply.HttpError? ==> reply.status in {400, 500, 502, 503, 504}
  {
    match Validate(text)
    case Some(e) =>
    case None =>
      if Grammar.Check(text, send, loads).Err? {
        Grammar.CheckErrorsAreGatewayErrors(text, send, loads);
        Gateway.QueryErrorKinds(text, send, loads);
      }
  }

  /** The health status is "healthy" exactly when Ollama is connected and "degraded" otherwise. */
  lemma HealthStatus(probe: Gateway.Probe)
    ensures HealthCheck(probe).status == "healthy" <==> HealthCheck(probe).ollamaConnected
    ensures HealthCheck(probe).status == "degraded" <==> !HealthCheck(probe).ollamaConnected
  {
  }
}
