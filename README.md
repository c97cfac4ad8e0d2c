# Grammar Check API — a Dafny model of its response pipeline

The service takes a block of text, asks a locally hosted Ollama model for
grammar corrections, and turns the model's free-form reply into a list of
`{wrong, corrected, error_type}` issues. Failures along the way become a fixed
set of HTTP status codes. This project models that pipeline layer by layer and
proves what each layer promises:

- `Extractor` (`parse_response`): it finds the first `[` and the last `]` of
  the reply, decodes that span, keeps the dict elements of a decoded list,
  normalises each one with `dict.get` defaults, and drops records whose `wrong`
  is falsy or equals the placeholder `"incorrect text"`. The loop is a method
  proved equal to the function `Extract`.
- `Gateway` (`query_ollama`, `check_ollama_health`): it short-circuits blank
  text, cuts the text to 5000 characters, and classifies what the outbound
  call produced. Its try block (`Attempt`) and its `except` arms in order
  (`Reraise`) are separate functions; the arms keep the source's order.
- `Grammar` (`check_grammar`): it short-circuits blank text, builds a
  `GrammarIssue` from each gateway dict (skipping those that fail
  validation), and either propagates or wraps exceptions.
- `Api` (`grammar_check`, `health_check`): validation order, the
  exception-to-status mapping, and the health status.
- `Scenarios`: end-to-end statements about POST /check for given service
  behaviours, including the worked example of two corrections wrapped in prose.

Support modules:

- `JsonValues`: Python values as `json.loads` returns them, with truthiness,
  `dict.get` and AttributeError texts.
- `PyStr`: `str.strip`, `find`, `rfind`, slicing and `str(int)`.
- `Exceptions`: the exception hierarchy of app/exceptions.py. Every domain kind
  is a subclass of the root `GrammarCheckError`. Foreign exceptions are
  httpx's `ConnectError` and `TimeoutException` plus any other Python exception.
- `Models`: the pydantic records.
- `Seqs`: the order-preserving selection that both conversion loops perform.

Foreign calls are parameters:

- `loads: string -> Decoded` stands for `json.loads` on the bracketed span.
  The result of `Response.json()` is not drawn from `loads`: it is carried,
  already decoded, in the reply's `body` (`Replied.body`, `ProbeReplied.body`).
- `send: string -> Reply` stands for the POST to `/api/generate`. It is applied
  to the (possibly truncated) text that the prompt embeds.
- A `Probe` value stands for the GET to `/api/tags`.

"No call is made" is stated as independence from `send`. `QueryOllama` also
returns the text it sent, or None when it sent nothing.

## Behaviour worth knowing

- A span that decodes to something other than a list yields `[]`, not an
  error (app/ollama_client.py:92, 106-107; `NonListYieldsEmpty`).
- `wrong`, `corrected` and `error_type` are read with `dict.get`, so a default
  applies only when the key is absent. A present empty `error_type` stays
  empty (app/ollama_client.py:96-100; `ErrorTypeDefault`).
- Records are dropped by Python falsiness of `wrong`, so `0`, `false`, `null`
  and `[]` are dropped as well (app/ollama_client.py:101). A truthy non-string
  `wrong` passes the extractor and is dropped later, when `GrammarIssue`
  validation rejects it (app/grammar.py:21-30).
- An InvalidResponseError raised by `parse_response` is caught by
  `query_ollama`'s generic `except Exception` arm and re-raised as a plain
  GrammarCheckError (app/ollama_client.py:69, 79-81). On the request path an
  undecodable reply is therefore answered 500, not 502 (app/main.py:84-89;
  `ExtractorErrorsRewrapped`, `QueryErrorKinds`, `UndecodableReplyIs500`).
  The 502 "Invalid response" arm of `grammar_check` is reachable only for an
  InvalidResponseError raised some other way.
- `query_ollama` tests the whole text for blankness before it truncates
  (app/ollama_client.py:34-40). A text whose first 5000 characters are all
  whitespace is still sent, as those 5000 blank characters, whenever a later
  character is not whitespace (`BlankPrefixSentWhenTailIsNot`).

## Model

| member | source | states |
|---|---|---|
| PyStr.Find | app/ollama_client.py:85 | `find` gives -1 exactly when the character is absent, otherwise an index holding it with no earlier occurrence |
| PyStr.RFind | app/ollama_client.py:86 | `rfind` gives -1 exactly when the character is absent, otherwise an index holding it with no later occurrence |
| PyStr.Slice | app/ollama_client.py:89 | a slice has the clamped length and the characters from the start index on |
| PyStr.BlankIffAllSpace | app/ollama_client.py:34 | `not s or not s.strip()` holds exactly when every character is whitespace |
| Models.NewGrammarIssue | app/models.py:4-7 | a GrammarIssue is built exactly when all three values are strings, and then carries them |
| Extractor.CleanItem | app/ollama_client.py:96-100 | a cleaned item has exactly the three keys, each the item's value or its default |
| Extractor.ParseResponse | app/ollama_client.py:83-114 | the loop building `cleaned_results` returns or raises exactly what `Extract` specifies |
| Extractor.NoBracketsYieldsEmpty | app/ollama_client.py:85-107 | a reply lacking `[` or `]` yields the empty list whatever the parser |
| Extractor.Candidate | app/ollama_client.py:85-89 | the span handed to the parser: `find("[")`, `rfind("]")`, the test that both are found, and the slice `text[start:end + 1]`; no ensures of its own, stated by `CandidateIsOutermostSpan` and `CandidateSkipsProse` |
| Extractor.CandidateIsOutermostSpan | app/ollama_client.py:85-89 | the decoded text runs from the first `[` to the last `]` inclusive, and is empty when they are inverted |
| Extractor.CandidateSkipsProse | app/ollama_client.py:85-89 | bracket-free prose before and after an array leaves the array as the decoded text |
| Extractor.InvertedBracketsFail | app/ollama_client.py:88-111 | given a parser that rejects the empty text, a reply whose last `]` precedes its first `[` raises InvalidResponseError with the parser's reason |
| Extractor.NonListYieldsEmpty | app/ollama_client.py:92-107 | a span that decodes to a non-list yields the empty list, not an error |
| Extractor.ExtractFailsIff | app/ollama_client.py:83-114 | parsing raises exactly when the reply is not a string or the span does not decode, and only InvalidResponseError |
| Extractor.Grounded | app/ollama_client.py:101 | the keep test: `wrong` is truthy and not "incorrect text"; no ensures of its own, stated by `CleanedAreGrounded` |
| Extractor.CleanedAreGrounded | app/ollama_client.py:101-102 | every kept record has a truthy `wrong` that is not "incorrect text" |
| Extractor.CleanedIsSubsequence | app/ollama_client.py:93-104 | the output is an order-preserving subsequence of the dict elements, no longer than the list, with every grounded dict present |
| Extractor.ExtractedAreGrounded | app/ollama_client.py:83-104 | anything `parse_response` returns consists of grounded records with the three keys |
| Extractor.ErrorTypeDefault | app/ollama_client.py:96-100 | `error_type` is "unknown" only for an absent key, and a present value, even empty, is kept |
| Extractor.SentinelDropped | app/ollama_client.py:101 | an array holding only the placeholder record yields nothing |
| Seqs.SelectIsSubsequence | app/grammar.py:19-32 | selection keeps accepted elements in order and skips exactly the rejected ones |
| Gateway.Truncated | app/ollama_client.py:38-40 | the embedded text is the first min(length, 5000) characters of the input |
| Gateway.QueryOllama | app/ollama_client.py:33-81 | sends nothing for blank text, otherwise sends exactly the first min(length, 5000) characters, and returns what `Query` specifies |
| Gateway.BlankSendsNothing | app/ollama_client.py:34-36 | blank text yields `[]` and the result does not depend on the service |
| Gateway.LongTextTruncatedBeforeSending | app/ollama_client.py:38-42 | non-blank text over 5000 characters is answered from the service's reply to its first 5000 characters |
| Gateway.BlankPrefixSentWhenTailIsNot | app/ollama_client.py:34-40 | blankness is judged before truncating: 5000 blank characters alone make no call, but with a non-blank tail they are sent |
| Gateway.Attempt | app/ollama_client.py:50-69 | the try block: a non-200 reply raises OllamaResponseError, a 200 dict body hands its `response` field (default "") to `parse_response`, and anything else lets the raised exception through; no ensures of its own, its properties are stated by `ReplyClassification`, `ExtractorErrorsRewrapped` and `QueryErrorKinds` |
| Gateway.Reraise | app/ollama_client.py:71-81 | the except arms in order: ConnectError and TimeoutException become their domain errors with fixed texts, OllamaResponseError passes, anything else is wrapped with the "Unexpected error" prefix; no ensures of its own, stated by `ReplyClassification` and `QueryErrorKinds` |
| Gateway.Outcome | app/ollama_client.py:50-81 | the try block followed by its except arms; no ensures of its own, stated by `ReplyClassification` and `ExtractorErrorsRewrapped` |
| Gateway.ReplyClassification | app/ollama_client.py:60-81 | non-200 gives OllamaResponseError, connect gives OllamaConnectionError, timeout gives OllamaTimeoutError; a client crash, an undecodable 200 body, or a 200 body that is not a dict (AttributeError from `data.get`) gives GrammarCheckError with the "Unexpected error" prefix |
| Gateway.ExtractorErrorsRewrapped | app/ollama_client.py:64-81 | records from a dict body pass through unchanged, but a parse error is re-raised as a plain GrammarCheckError |
| Gateway.QueryErrorKinds | app/ollama_client.py:71-81 | `query_ollama` raises only connection, timeout, response or generic domain errors, never InvalidResponseError |
| Gateway.QueryRecordsGrounded | app/ollama_client.py:64-69 | the records returned are grounded three-key dicts |
| Gateway.NamesOf | app/ollama_client.py:122 | `[model['name'] for model in ...]` over a list, None when an entry raises; no ensures of its own, stated by `NamesOfSpec` |
| Gateway.ModelNames | app/ollama_client.py:122 | the comprehension over `models.get('models', [])` for each kind of value it may iterate; no ensures of its own, stated by `HealthIff` |
| Gateway.NamesOfSpec | app/ollama_client.py:122 | names are collected, in order, exactly when every model entry is a dict with a name |
| Gateway.CheckOllamaHealth | app/ollama_client.py:116-126 | `check_ollama_health`: any failure of the listing call counts as not available; no ensures of its own, its meaning is stated by `HealthIff` and `NamesOfSpec` |
| Gateway.HealthIff | app/ollama_client.py:116-126 | the model counts as available exactly for a 200 listing whose `models` list of named dicts contains "gemma3:1b" |
| Grammar.CheckGrammar | app/grammar.py:9-37 | the issue-building loop returns or raises exactly what `Check` specifies |
| Grammar.BlankNeverQueries | app/grammar.py:10-11 | blank text yields `[]` without consulting the gateway |
| Grammar.EmptyGatewayYieldsEmpty | app/grammar.py:16-17 | an empty gateway result yields `[]` |
| Grammar.IssuesIsSubsequence | app/grammar.py:19-32 | issues keep the gateway's order, are no more than its dicts, and skip exactly the dicts that fail construction |
| Grammar.ToIssue | app/grammar.py:22-26 | `GrammarIssue(...)` from a gateway dict, with `.get` defaults, None when validation fails; no ensures of its own, stated by `IssueDefaults` |
| Grammar.IssueDefaults | app/grammar.py:22-26 | absent keys default to "", "" and "unknown", and a dict constructs exactly when its present values are strings |
| Grammar.Propagate | app/grammar.py:34-37 | the except arms of `check_grammar`: a GrammarCheckError propagates, anything else is wrapped as "Grammar check failed: ..."; no ensures of its own, stated by `PropagationPolicy` |
| Grammar.PropagationPolicy | app/grammar.py:34-37 | a domain error propagates unchanged, and any other exception becomes "Grammar check failed: ..." |
| Grammar.CheckErrorsAreGatewayErrors | app/grammar.py:34-37 | every error `check_grammar` raises is the gateway's own error, unchanged |
| Grammar.CheckedIssuesGrounded | app/grammar.py:19-32 | every reported issue's `wrong` is non-empty and not "incorrect text" |
| Api.HealthCheck | app/main.py:34-45 | connected exactly when the listing call answered 200 |
| Api.HealthStatus | app/main.py:42-45 | status is "healthy" if and only if connected, and "degraded" otherwise |
| Api.Validate | app/main.py:50-54 | the request guards: blank text is rejected before the length test, and over 5000 characters is too long; no ensures of its own, stated by `BlankRejectedFirst` and `LengthBoundary` |
| Api.ToHttp | app/main.py:63-95 | the except chain of `grammar_check`, in source order; no ensures of its own, stated by `ErrorMapping` against the separate `StatusOf` table, `FixedDetails` and `ForeignIsGeneric` |
| Api.GrammarCheck | app/main.py:47-95 | POST /check: validation, then `check_grammar`, with errors translated by the except chain; no ensures of its own, stated by `BlankRejectedFirst`, `LengthBoundary`, `SuccessCarriesIssues`, `UndecodableReplyIs500` and `StatusesAnswered` |
| Api.ErrorMapping | app/main.py:63-95 | each error kind gets its status (400, 400, 503, 504, 502, 502, 500, 500), with the listed detail texts |
| Api.FixedDetails | app/main.py:69-86 | connection, timeout and invalid-response errors answer fixed texts whatever their message |
| Api.ForeignIsGeneric | app/main.py:90-95 | a non-domain exception answers 500 with one generic text, independent of the exception |
| Api.BlankRejectedFirst | app/main.py:50-54 | blank text of any length answers 400 "Text cannot be empty" |
| Api.LengthBoundary | app/main.py:53-54 | non-blank text over 5000 characters answers 400 too-long, and exactly 5000 passes validation |
| Api.SuccessCarriesIssues | app/main.py:58-61 | a valid request answers exactly `check_grammar`'s issues in order, or translates its error |
| Api.UndecodableReplyIs500 | app/main.py:84-89 | a 200 reply whose span does not decode answers 500 on the request path |
| Api.StatusesAnswered | app/main.py:63-95 | every error `grammar_check` itself answers has status 400, 500, 502, 503 or 504 (request-body validation before it runs is framework wiring) |
| Scenarios.ConnectionRefusedIs503 | app/main.py:69-74 | a refused connection answers 503 with the "ensure Ollama is running" text |
| Scenarios.TimeoutIs504 | app/main.py:75-80 | a timed-out call answers 504 |
| Scenarios.ErrorStatusIs502 | app/main.py:81-83 | a non-200 reply answers 502 naming the status |
| Scenarios.WorkedExample | app/main.py:48-61 | two corrections wrapped in prose come back as two issues in the model's order |

## Left out

- Network I/O: the HTTP calls, their 120 s and 5 s timeouts, and async scheduling. The calls are parameters (`send`, `Probe`) and their outcomes are a datatype.
- The internals of `json.loads` and `Response.json()`. The parser is a parameter. Its RecursionError on deep nesting and its NaN/Infinity literals are not modelled.
- JSON floats are modelled as mathematical reals. The only use of numbers here is truthiness.
- The prompt template (`PROMPT_TEMPLATE.format`). The service is seen through the text the prompt embeds, not through the full prompt.
- FastAPI app construction, CORS middleware, logging calls and the `GET /` liveness message. These are framework wiring with no decisions.
- pydantic validation is reduced to "all three fields are JSON strings". This matches pydantic's default refusal to coerce numbers to `str`.
- Python strings may hold lone surrogates. Dafny's `char` covers Unicode scalar values only.
- ModelNotAvailableError is never raised by this code. It appears only in the exception-to-status mapping.
- Two calls of the extractor on the same text give the same result. This follows from `ParseResponse`'s contract (its result is a function of its inputs), so there is no separate lemma.
