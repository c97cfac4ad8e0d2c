/** The records of app/models.py. */
module Models {
  import opened Wrappers
  import opened JsonValues

  /** One reported correction. */
  datatype GrammarIssue = GrammarIssue(wrong: string, corrected: string, errorType: string)

  /** The body of a successful POST /check. */
  datatype GrammarCheckResponse = GrammarCheckResponse(issues: seq<GrammarIssue>)

  /** The body of GET /health. */
  datatype HealthResponse = HealthResponse(status: string, ollamaConnected: bool)

  /**
   * `GrammarIssue(wrong=..., corrected=..., error_type=...)`: construction validates
   * that each field is a string and raises a validation error otherwise (None).
   */
  function NewGrammarIssue(wrong: Json, corrected: Json, errorType: Json): (r: Option<GrammarIssue>)
    ensures r.Some? <==> wrong.JString? && corrected.JString? && errorType.JString?
    ensures r.Some? ==> r.value.wrong == wrong.s && r.value.corrected == corrected.s && r.value.errorType == errorType.s
  {
    if wrong.JString? && corrected.JString? && errorType.JString? then
      Some(GrammarIssue(wrong.s, corrected.s, errorType.s))
    else
      None
  }
}
