/**
 * The inference gateway, `query_ollama` and `check_ollama_health` in
 * app/ollama_client.py. The outbound HTTP calls are a parameter: `send` maps the
 * (possibly truncated) text embedded in the prompt to what the call produced.
 */
module Gateway {
  import opened Wrappers
  import opened JsonValues
  import opened Exceptions
  import PyStr
  import Extractor

  /** The longest text the gateway embeds in a prompt. */
  const MaxChars: nat := 5000

  const ConnectMessage: string := "Cannot connect to Ollama. Make sure it's running on localhost:11434"
  const TimeoutMessage: string := "Request to Ollama timed out after 120 seconds"
  const UnexpectedPrefix: string := "Unexpected error during grammar check: "

  /** The model whose presence the stricter health probe looks for. */
  const ModelName: string := "gemma3:1b"

  /** What the POST to /api/generate produced. */
  datatype Reply =
    | Replied(status: int, body: Decoded)   // a response; body is what `response.json()` gives
    | ConnectFailed(message: string)        // httpx.ConnectError
    | TimedOut(message: string)             // httpx.TimeoutException
    | Crashed(message: string)              // any other exception raised by the client

  /** The inference service, seen through the text the prompt embeds. */
  type Service = string -> Reply

  /** The message of the OllamaResponseError raised for a non-200 reply. */
  function StatusMessage(status: int): string {
    "Ollama request failed with status " + PyStr.IntToString(status)
  }

  /** The text embedded in the prompt: its first 5000 characters. */
  function Truncated(text: string): (t: string)
    ensures |t| == if |text| <= MaxChars then |text| else MaxChars
    ensures t == text[..|t|]
  {
    if |text| > MaxChars then PyStr.Slice(text, 0, MaxChars) else text
  }

  /** The try block of `query_ollama`: the extracted records, or what it raises. */
  function Attempt(reply: Reply, loads: JsonLoads): Result<seq<Extractor.Record>, Exception> {
    match reply
    case ConnectFailed(m) => Err(ConnectError(m))
    case TimedOut(m) => Err(Timeout(m))
    case Crashed(m) => Err(Builtin(m))
    case Replied(status, body) =>
      if status != 200 then
        Err(Domain(OllamaResponse, StatusMessage(status)))
      else
        match body
        case Malformed(reason) => Err(Builtin(reason))
        case Parsed(JObject(fields)) => Extractor.Extract(Get(fields, "response", JString("")), loads)
        case Parsed(v) => Err(Builtin(NoAttribute(v, "get")))
  }

  /** The except arms of `query_ollama`, tried in order. */
  function Reraise(e: Exception): Exception {
    if e.ConnectError? then Domain(OllamaConnection, ConnectMessage)
    else if e.Timeout? then Domain(OllamaTimeout, TimeoutMessage)
    else if IsInstance(e, OllamaResponse) then e
    else Domain(GrammarCheck, UnexpectedPrefix + e.message)
  }

  /** What one call to the service amounts to, after the except arms. */
  function Outcome(reply: Reply, loads: JsonLoads): Result<seq<Extractor.Record>, Exception> {
    match Attempt(reply, loads)
    case Ok(records) => Ok(records)
    case Err(e) => Err(Reraise(e))
  }

  /** What `query_ollama(text)` returns or raises. */
  function Query(text: string, send: Service, loads: JsonLoads): Result<seq<Extractor.Record>, Exception> {
    if PyStr.IsBlank(text) then Ok([]) else Outcome(send(Truncated(text)), loads)
  }

  /**
   * `query_ollama`. `sent` is the text the outbound call embedded in its prompt,
   * None when no call was made.
   */
  method QueryOllama(text: string, send: Service, loads: JsonLoads)
    returns (sent: Option<string>, r: Result<seq<Extractor.Record>, Exception>)
    ensures sent.None? <==> PyStr.IsBlank(text)
    ensures sent.Some? ==> |sent.value| <= MaxChars && sent.value <= text
    ensures sent.Some? && |text| <= MaxChars ==> sent.value == text
    ensures sent.Some? ==> sent.value == Truncated(text)
    ensures r == Query(text, send, loads)
  {
    if PyStr.IsBlank(text) {
      return None, Ok([]);
    }
    var t := text;
    if |t| > MaxChars {
      t := PyStr.Slice(t, 0, MaxChars);
    }
    sent := Some(t);
    var attempt: Result<seq<Extractor.Record>, Exception>;
    match send(t) {
      case ConnectFailed(m) =>
        attempt := Err(ConnectError(m));
      case TimedOut(m) =>
        attempt := Err(Timeout(m));
      case Crashed(m) =>
        attempt := Err(Builtin(m));
      case Replied(status, body) =>
        if status != 200 {
          attempt := Err(Domain(OllamaResponse, StatusMessage(status)));
        } else if body.Malformed? {
          attempt := Err(Builtin(body.reason));
        } else if !body.value.JObject? {
          attempt := Err(Builtin(NoAttribute(body.value, "get")));
        } else {
          var generatedText := Get(body.value.fields, "response", JString(""));
          attempt := Extractor.ParseResponse(generatedText, loads);
        }
    }
    r := if attempt.Err? then Err(Reraise(attempt.error)) else attempt;
  }

  // ---- Properties of the gateway ----

  /** Blank text returns the empty list and does not depend on the service at all. */
  lemma BlankSendsNothing(text: string, send: Service, other: Service, loads: JsonLoads)
    requires PyStr.IsBlank(text)
    ensures Query(text, send, loads) == Query(text, other, loads) == Ok([])
  {
  }

  /**
   * Text over the limit that is not blank as a whole is cut to its first 5000
   * characters, and only those reach the service.
   */
  lemma LongTextTruncatedBeforeSending(text: string, send: Service, loads: JsonLoads)
    requires |text| > MaxChars && !PyStr.IsBlank(text)
    ensures Query(text, send, loads) == Outcome(send(text[..MaxChars]), loads)
  {
  }

  /**
   * Blankness is judged on the whole text before truncating: a blank
   * 5000-character text makes no call, but with a non-blank tail appended the
   * same blank 5000 characters are sent.
   */
  lemma BlankPrefixSentWhenTailIsNot(text: string, tail: string, send: Service, loads: JsonLoads)
    requires |text| == MaxChars && PyStr.IsBlank(text) && !PyStr.IsBlank(tail)
    ensures Query(text, send, loads) == Ok([])
    ensures Query(text + tail, send, loads) == Outcome(send(text), loads)
  {
    var long := text + tail;
    PyStr.BlankIffAllSpace(tail);
    PyStr.BlankIffAllSpace(long);
    assert !PyStr.IsBlank(long) by {
      var i :| 0 <= i < |tail| && !PyStr.IsSpace(tail[i]);
      assert long[|text| + i] == tail[i];
    }
    assert |tail| > 0;
    assert long[..MaxChars] == text;
  }

  /**
   * How each kind of transport outcome is reported: a 200 reply whose body does
   * not decode, or decodes to something other than a dict (so `data.get` raises
   * AttributeError), is re-raised as a plain GrammarCheckError.
   */
  lemma ReplyClassification(reply: Reply, loads: JsonLoads)
    ensures reply.Replied? && reply.status != 200 ==>
      Outcome(reply, loads) == Err(Domain(OllamaResponse, StatusMessage(reply.status)))
    ensures reply.ConnectFailed? ==> Outcome(reply, loads) == Err(Domain(OllamaConnection, ConnectMessage))
    ensures reply.TimedOut? ==> Outcome(reply, loads) == Err(Domain(OllamaTimeout, TimeoutMessage))
    ensures reply.Crashed? ==> Outcome(reply, loads) == Err(Domain(GrammarCheck, UnexpectedPrefix + reply.message))
    ensures reply.Replied? && reply.status == 200 && reply.body.Malformed? ==>
      Outcome(reply, loads) == Err(Domain(GrammarCheck, UnexpectedPrefix + reply.body.reason))
    ensures reply.Replied? && reply.status == 200 && reply.body.Parsed? && !reply.body.value.JObject? ==>
      Outcome(reply, loads) == Err(Domain(GrammarCheck, UnexpectedPrefix + NoAttribute(reply.body.value, "get")))
  {
  }

  /**
   * A 200 reply whose body is a dict hands its `response` field to the extractor;
   * the records come back unchanged, but an InvalidResponseError it raises is
   * caught by the generic arm and re-raised as a plain GrammarCheckError.
   */
  lemma ExtractorErrorsRewrapped(fields: map<string, Json>, loads: JsonLoads)
    ensures var reply := Replied(200, Parsed(JObject(fields)));
      var extracted := Extractor.Extract(Get(fields, "response", JString("")), loads);
      && (extracted.Ok? ==> Outcome(reply, loads) == extracted)
      && (extracted.Err? ==> Outcome(reply, loads) == Err(Domain(GrammarCheck, UnexpectedPrefix + extracted.error.message)))
  {
    var extracted := Extractor.Extract(Get(fields, "response", JString("")), loads);
    Extractor.ExtractFailsIff(Get(fields, "response", JString("")), loads);
  }

  /**
   * `query_ollama` raises only connection, timeout, response and generic errors:
   * never an InvalidResponseError, and never a foreign exception.
   */
  lemma QueryErrorKinds(text: string, send: Service, loads: JsonLoads)
    ensures var r := Query(text, send, loads);
      r.Err? ==> r.error.Domain? && r.error.kind in {GrammarCheck, OllamaConnection, OllamaTimeout, OllamaResponse}
  {
  }

  /** The records `query_ollama` returns are grounded dicts with the three keys. */
  lemma QueryRecordsGrounded(text: string, send: Service, loads: JsonLoads)
    requires Query(text, send, loads).Ok?
    ensures forall r :: r in Query(text, send, loads).value ==>
      Extractor.Grounded(r) && r.Keys == {"wrong", "corrected", "error_type"}
  {
    if !PyStr.IsBlank(text) {
      var reply := send(Truncated(text));
      if reply.Replied? && reply.status == 200 && reply.body.Parsed? && reply.body.value.JObject? {
        Extractor.ExtractedAreGrounded(Get(reply.body.value.fields, "response", JString("")), loads);
      }
    }
  }

  // ---- check_ollama_health ----

  /** What the GET to /api/tags produced. */
  datatype Probe = ProbeReplied(status: int, body: Decoded) | ProbeFailed

  /** `[model['name'] for model in items]`, None when some element raises. */
  function NamesOf(items: seq<Json>): Option<seq<Json>> {
    if items == [] then Some([])
    else if items[0].JObject? && "name" in items[0].fields then
      match NamesOf(items[1..])
      case Some(rest) => Some([items[0].fields["name"]] + rest)
      case None => None
    else None
  }

  /**
   * The comprehension over `models.get('models', [])`: a list gives its elements'
   * names; an empty str or dict gives none; any other value raises.
   */
  function ModelNames(models: Json): Option<seq<Json>> {
    match models
    case JArray(items) => NamesOf(items)
    case JString(s) => if s == "" then Some([]) else None
    case JObject(m) => if m == map[] then Some([]) else None
    case _ => None
  }

  /** `check_ollama_health`: any exception counts as "not available". */
  function CheckOllamaHealth(probe: Probe): bool {
    match probe
    case ProbeFailed => false
    case ProbeReplied(status, body) =>
      status == 200 && body.Parsed? && body.value.JObject?
      && var names := ModelNames(Get(body.value.fields, "models", JArray([])));
      names.Some? && JString(ModelName) in names.value
  }

  /** Names are collected only when every element is a dict with a name, and then in order. */
  lemma {:induction false} NamesOfSpec(items: seq<Json>)
    ensures NamesOf(items).Some? <==> forall m :: m in items ==> m.JObject? && "name" in m.fields
    ensures NamesOf(items).Some? ==>
      |NamesOf(items).value| == |items| &&
      forall k :: 0 <= k < |items| ==> NamesOf(items).value[k] == items[k].fields["name"]
  {
    if items != [] {
      NamesOfSpec(items[1..]);
      assert forall m :: m in items <==> m == items[0] || m in items[1..];
    }
  }

  /**
   * The model is reported available exactly when the listing is a 200 reply
   * with a dict body whose `models` is a list of dicts that all carry a name,
   * one of them "gemma3:1b".
   */
  lemma HealthIff(probe: Probe)
    ensures CheckOllamaHealth(probe) <==>
      && probe.ProbeReplied? && probe.status == 200 && probe.body.Parsed?
      && probe.body.value.JObject? && "models" in probe.body.value.fields
      && probe.body.value.fields["models"].JArray?
      && (forall m :: m in probe.body.value.fields["models"].items ==> m.JObject? && "name" in m.fields)
      && (exists m :: m in probe.body.value.fields["models"].items && m.fields["name"] == JString(ModelName))
  {
    if probe.ProbeReplied? && probe.status == 200 && probe.body.Parsed? && probe.body.value.JObject? {
      var fields := probe.body.value.fields;
      var models := Get(fields, "models", JArray([]));
      if models.JArray? {
        NamesOfSpec(models.items);
      }
    }
  }
}
