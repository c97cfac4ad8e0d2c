/** End-to-end behaviour of POST /check for particular service behaviours. */
module Scenarios {
  import opened Wrappers
  import opened JsonValues
  import opened Models
  import PyStr
  import Seqs
  import Extractor
  import Gateway
  import Grammar
  import Api

  /** A refused connection answers 503, telling the caller to start the service. */
  lemma ConnectionRefusedIs503(text: string, send: Gateway.Service, loads: JsonLoads)
    requires Api.Validate(text).None?
    requires send(Gateway.Truncated(text)).ConnectFailed?
    ensures Api.GrammarCheck(text, send, loads) == Api.HttpError(503, Api.UnavailableDetail)
  {
  }

  /** A timed-out call answers 504. */
  lemma TimeoutIs504(text: string, send: Gateway.Service, loads: JsonLoads)
    requires Api.Validate(text).None?
    requires send(Gateway.Truncated(text)).TimedOut?
    ensures Api.GrammarCheck(text, send, loads) == Api.HttpError(504, Api.TimeoutDetail)
  {
  }

  /** A non-200 reply answers 502 and names the status. */
  lemma ErrorStatusIs502(text: string, send: Gateway.Service, loads: JsonLoads, status: int)
    requires Api.Validate(text).None?
    requires send(Gateway.Truncated(text)).Replied? && send(Gateway.Truncated(text)).status == status != 200
    ensures Api.GrammarCheck(text, send, loads)
      == Api.HttpError(502, "Ollama service error: " + Gateway.StatusMessage(status))
  {
  }

  const SampleText: string := "I goes to the store yesterday." + " She have a apple."
  const Preamble: string := "Here are the errors: "
  const Closing: string := " Hope this helps."

  /** The dict `json.loads` builds for one correction object. */
  function Correction(wrong: string, corrected: string, errorType: string): Json {
    JObject(map["wrong" := JString(wrong), "corrected" := JString(corrected), "error_type" := JString(errorType)])
  }

  /** A well-formed correction passes both layers unchanged. */
  lemma CorrectionPasses(wrong: string, corrected: string, errorType: string)
    requires wrong != "" && wrong != Extractor.Sentinel
    ensures Extractor.Kept(Correction(wrong, corrected, errorType))
    ensures Extractor.ItemRecord(Correction(wrong, corrected, errorType)) == Correction(wrong, corrected, errorType).fields
    ensures Grammar.ToIssue(Correction(wrong, corrected, errorType).fields) == Some(GrammarIssue(wrong, corrected, errorType))
  {
    var m := Correction(wrong, corrected, errorType).fields;
    assert Extractor.CleanItem(m) == m;
  }

  /** The example reply's prose holds no brackets, so the array is the candidate. */
  lemma ExampleCandidate(span: string)
    requires |span| >= 2 && span[0] == '[' && span[|span| - 1] == ']'
    ensures Extractor.Candidate(Preamble + span + Closing) == Some(span)
  {
    Extractor.CandidateSkipsProse(Preamble, span, Closing);
  }

  /** Both example corrections are kept, in order. */
  lemma ExampleCleaned()
    ensures Extractor.Cleaned([
      Correction("I goes", "I went", "verb tense"),
      Correction("She have", "She has", "subject-verb agreement")]) == [
      Correction("I goes", "I went", "verb tense").fields,
      Correction("She have", "She has", "subject-verb agreement").fields]
  {
    var a := Correction("I goes", "I went", "verb tense");
    var b := Correction("She have", "She has", "subject-verb agreement");
    CorrectionPasses("I goes", "I went", "verb tense");
    CorrectionPasses("She have", "She has", "subject-verb agreement");
    Seqs.SelectPair(a, b, Extractor.Kept, Extractor.ItemRecord);
  }

  /** The two records the extractor keeps from the example's reply. */
  lemma ExampleExtracted(span: string, loads: JsonLoads)
    requires |span| >= 2 && span[0] == '[' && span[|span| - 1] == ']'
    requires loads(span) == Parsed(JArray([
      Correction("I goes", "I went", "verb tense"),
      Correction("She have", "She has", "subject-verb agreement")]))
    ensures Extractor.Extract(JString(Preamble + span + Closing), loads) == Ok([
      Correction("I goes", "I went", "verb tense").fields,
      Correction("She have", "She has", "subject-verb agreement").fields])
  {
    ExampleCandidate(span);
    ExampleCleaned();
  }

  /** The two issues check_grammar builds from those records. */
  lemma ExampleIssues()
    ensures Grammar.Issues([
      Correction("I goes", "I went", "verb tense").fields,
      Correction("She have", "She has", "subject-verb agreement").fields]) == [
      GrammarIssue("I goes", "I went", "verb tense"),
      GrammarIssue("She have", "She has", "subject-verb agreement")]
  {
    var a := Correction("I goes", "I went", "verb tense").fields;
    var b := Correction("She have", "She has", "subject-verb agreement").fields;
    CorrectionPasses("I goes", "I went", "verb tense");
    CorrectionPasses("She have", "She has", "subject-verb agreement");
    Seqs.SelectPair(a, b, Grammar.Constructs, Grammar.IssueOf);
  }

  /** The example text passes validation and reaches the service whole. */
  lemma SampleTextAccepted()
    ensures !PyStr.IsBlank(SampleText) && Api.Validate(SampleText).None?
    ensures Gateway.Truncated(SampleText) == SampleText
  {
    assert SampleText[0] == 'I';
  }

  /** The gateway returns the two example records. */
  lemma ExampleQueried(span: string, send: Gateway.Service, loads: JsonLoads)
    requires |span| >= 2 && span[0] == '[' && span[|span| - 1] == ']'
    requires loads(span) == Parsed(JArray([
      Correction("I goes", "I went", "verb tense"),
      Correction("She have", "She has", "subject-verb agreement")]))
    requires send(SampleText) == Gateway.Replied(200, Parsed(JObject(map["response" := JString(Preamble + span + Closing)])))
    ensures Gateway.Query(SampleText, send, loads) == Ok([
      Correction("I goes", "I went", "verb tense").fields,
      Correction("She have", "She has", "subject-verb agreement").fields])
  {
    SampleTextAccepted();
    ExampleExtracted(span, loads);
    var fields := map["response" := JString(Preamble + span + Closing)];
    assert Get(fields, "response", JString("")) == JString(Preamble + span + Closing);
  }

  /**
   * The worked example: the model wraps a JSON array of two corrections in
   * prose, `json.loads` decodes that array, and POST /check answers 200 with
   * both issues in the model's order.
   */
  lemma WorkedExample(span: string, send: Gateway.Service, loads: JsonLoads)
    requires |span| >= 2 && span[0] == '[' && span[|span| - 1] == ']'
    requires loads(span) == Parsed(JArray([
      Correction("I goes", "I went", "verb tense"),
      Correction("She have", "She has", "subject-verb agreement")]))
    requires send(SampleText) == Gateway.Replied(200, Parsed(JObject(map["response" := JString(Preamble + span + Closing)])))
    ensures Api.GrammarCheck(SampleText, send, loads) == Api.Answered(GrammarCheckResponse([
      GrammarIssue("I goes", "I went", "verb tense"),
      GrammarIssue("She have", "She has", "subject-verb agreement")]))
  {
    SampleTextAccepted();
    ExampleQueried(span, send, loads);
    ExampleIssues();
    var issues := [
      GrammarIssue("I goes", "I went", "verb tense"),
      GrammarIssue("She have", "She has", "subject-verb agreement")];
    assert Grammar.Check(SampleText, send, loads) == Ok(issues);
  }
}
