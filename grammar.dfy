/**
 * The inner grammar-check layer, `check_grammar` in app/grammar.py: it asks the
 * gateway for correction dicts and turns each into a validated GrammarIssue.
 */
module Grammar {
  import opened Wrappers
  import opened JsonValues
  import opened Exceptions
  import opened Models
  import PyStr
  import Seqs
  import Extractor
  import Gateway

  const FailedPrefix: string := "Grammar check failed: "

  /** `GrammarIssue(wrong=d.get(...), corrected=d.get(...), error_type=d.get(...))`, None when it raises. */
  function ToIssue(d: Extractor.Record): Option<GrammarIssue> {
    NewGrammarIssue(Get(d, "wrong", JString("")), Get(d, "corrected", JString("")), Get(d, "error_type", JString("unknown")))
  }

  /** Whether a dict's issue constructs without raising. */
  predicate Constructs(d: Extractor.Record) {
    ToIssue(d).Some?
  }

  /** The issue a dict constructs (a blank issue for one that does not). */
  function IssueOf(d: Extractor.Record): GrammarIssue {
    match ToIssue(d)
    case Some(issue) => issue
    case None => GrammarIssue("", "", "")
  }

  /** The issues the loop collects, skipping dicts that fail validation. */
  function Issues(dicts: seq<Extractor.Record>): seq<GrammarIssue> {
    Seqs.Select(dicts, Constructs, IssueOf)
  }

  /** The except arms of `check_grammar`: domain errors pass, anything else is wrapped. */
  function Propagate(e: Exception): Exception {
    if IsInstance(e, GrammarCheck) then e else Domain(GrammarCheck, FailedPrefix + e.message)
  }

  /** What `check_grammar(text)` returns or raises. */
  function Check(text: string, send: Gateway.Service, loads: JsonLoads): Result<seq<GrammarIssue>, Exception> {
    if PyStr.IsBlank(text) then Ok([])
    else
      match Gateway.Query(text, send, loads)
      case Err(e) => Err(Propagate(e))
      case Ok(dicts) => if dicts == [] then Ok([]) else Ok(Issues(dicts))
  }

  /** `check_grammar`, appending to `issues` in a loop over the gateway's dicts. */
  method CheckGrammar(text: string, send: Gateway.Service, loads: JsonLoads) returns (r: Result<seq<GrammarIssue>, Exception>)
    ensures r == Check(text, send, loads)
  {
    if PyStr.IsBlank(text) {
      return Ok([]);
    }
    var sent, queried := Gateway.QueryOllama(text, send, loads);
    if queried.Err? {
      return Err(Propagate(queried.error));
    }
    var issuesData := queried.value;
    if issuesData == [] {
      return Ok([]);
    }
    var issues: seq<GrammarIssue> := [];
    for i := 0 to |issuesData|
      invariant issues == Issues(issuesData[..i])
    {
      var issue := issuesData[i];
      assert issuesData[..i + 1] == issuesData[..i] + [issue];
      Seqs.SelectSnoc(issuesData[..i], issue, Constructs, IssueOf);
      var grammarIssue := NewGrammarIssue(
        Get(issue, "wrong", JString("")), Get(issue, "corrected", JString("")), Get(issue, "error_type", JString("unknown")));
      if grammarIssue.Some? {
        issues := issues + [grammarIssue.value];
      }
    }
    assert issuesData[..|issuesData|] == issuesData;
    return Ok(issues);
  }

  // ---- Properties of check_grammar ----

  /** Blank text returns no issues without consulting the gateway. */
  lemma BlankNeverQueries(text: string, send: Gateway.Service, other: Gateway.Service, loads: JsonLoads)
    requires PyStr.IsBlank(text)
    ensures Check(text, send, loads) == Check(text, other, loads) == Ok([])
  {
  }

  /** An empty gateway result yields no issues. */
  lemma EmptyGatewayYieldsEmpty(text: string, send: Gateway.Service, loads: JsonLoads)
    requires Gateway.Query(text, send, loads) == Ok([])
    ensures Check(text, send, loads) == Ok([])
  {
  }

  /**
   * The issues keep the gateway's order and are at most as many as its dicts:
   * each comes from a dict that constructs, and no such dict is skipped.
   */
  lemma IssuesIsSubsequence(dicts: seq<Extractor.Record>) returns (idx: seq<nat>)
    ensures |idx| == |Issues(dicts)| <= |dicts|
    ensures forall k :: 0 <= k < |idx| ==> idx[k] < |dicts| && ToIssue(dicts[idx[k]]) == Some(Issues(dicts)[k])
    ensures forall k, l :: 0 <= k < l < |idx| ==> idx[k] < idx[l]
    ensures forall i :: 0 <= i < |dicts| && ToIssue(dicts[i]).Some? ==> i in idx
  {
    idx := Seqs.SelectIsSubsequence(dicts, Constructs, IssueOf);
  }

  /** Absent keys default to "", "" and "unknown"; a dict constructs exactly when every value it has is a string. */
  lemma IssueDefaults(d: Extractor.Record)
    ensures ToIssue(d).Some? <==>
      (forall key :: key in {"wrong", "corrected", "error_type"} && key in d ==> d[key].JString?)
    ensures ToIssue(map[]) == Some(GrammarIssue("", "", "unknown"))
    ensures ToIssue(d).Some? && "error_type" !in d ==> ToIssue(d).value.errorType == "unknown"
    ensures ToIssue(d).Some? && "wrong" !in d ==> ToIssue(d).value.wrong == ""
    ensures ToIssue(d).Some? && "corrected" !in d ==> ToIssue(d).value.corrected == ""
  {
    if ToIssue(d).None? {
      if "wrong" in d && !d["wrong"].JString? {
      } else if "corrected" in d && !d["corrected"].JString? {
        assert "corrected" in {"wrong", "corrected", "error_type"};
      } else {
        assert "error_type" in {"wrong", "corrected", "error_type"};
      }
    }
  }

  /** Domain errors propagate unchanged and nothing else does; anything else becomes a GrammarCheckError. */
  lemma PropagationPolicy(e: Exception)
    ensures Propagate(e) == e <==> e.Domain?
    ensures Propagate(e).Domain?
    ensures !e.Domain? ==> Propagate(e) == Domain(GrammarCheck, FailedPrefix + e.message)
  {
    RootCatchesDomain(e);
  }

  /** Every error `check_grammar` raises is exactly the one the gateway raised. */
  lemma CheckErrorsAreGatewayErrors(text: string, send: Gateway.Service, loads: JsonLoads)
    requires Check(text, send, loads).Err?
    ensures Gateway.Query(text, send, loads).Err?
    ensures Check(text, send, loads).error == Gateway.Query(text, send, loads).error
  {
    Gateway.QueryErrorKinds(text, send, loads);
  }

  /** Every reported issue quotes a non-empty phrase that is not the sentinel. */
  lemma CheckedIssuesGrounded(text: string, send: Gateway.Service, loads: JsonLoads)
    requires Check(text, send, loads).Ok?
    ensures forall issue :: issue in Check(text, send, loads).value ==>
      issue.wrong != "" && issue.wrong != Extractor.Sentinel
  {
    if !PyStr.IsBlank(text) && Gateway.Query(text, send, loads).Ok? {
      var dicts := Gateway.Query(text, send, loads).value;
      Gateway.QueryRecordsGrounded(text, send, loads);
      var idx := Seqs.SelectIsSubsequence(dicts, Constructs, IssueOf);
      forall issue | issue in Issues(dicts)
        ensures issue.wrong != "" && issue.wrong != Extractor.Sentinel
      {
        var k :| 0 <= k < |Issues(dicts)| && Issues(dicts)[k] == issue;
        var d := dicts[idx[k]];
        assert d in dicts;
        assert Extractor.Grounded(d) && ToIssue(d).Some?;
      }
    }
  }
}
