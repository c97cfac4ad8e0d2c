/**
 * The response extractor, `parse_response` in app/ollama_client.py: it cuts the
 * outermost bracketed span out of the model's reply, decodes it, and turns each
 * dict of the decoded list into a normalised record, dropping ungrounded ones.
 */
module Extractor {
  import opened Wrappers
  import opened JsonValues
  import opened Exceptions
  import PyStr
  import Seqs

  /** The placeholder the model emits when it fails to quote the input. */
  const Sentinel: string := "incorrect text"

  /** A cleaned item: a dict with the keys wrong, corrected and error_type. */
  type Record = map<string, Json>

  /** The dict built from one dict item of the decoded list. */
  function CleanItem(item: map<string, Json>): (r: Record)
    ensures r.Keys == {"wrong", "corrected", "error_type"}
    ensures r["wrong"] == Get(item, "wrong", JString(""))
    ensures r["corrected"] == Get(item, "corrected", JString(""))
    ensures r["error_type"] == Get(item, "error_type", JString("unknown"))
  {
    map["wrong" := Get(item, "wrong", JString("")),
        "corrected" := Get(item, "corrected", JString("")),
        "error_type" := Get(item, "error_type", JString("unknown"))]
  }

  /** A cleaned item survives when its `wrong` is truthy and not the sentinel. */
  predicate Grounded(r: Record) {
    "wrong" in r && Truthy(r["wrong"]) && r["wrong"] != JString(Sentinel)
  }

  /** Whether the loop keeps a decoded list element: a dict whose cleaned form is grounded. */
  predicate Kept(item: Json) {
    item.JObject? && Grounded(CleanItem(item.fields))
  }

  /** The record the loop builds from a dict element (other elements build nothing). */
  function ItemRecord(item: Json): Record {
    if item.JObject? then CleanItem(item.fields) else map[]
  }

  /** The records the loop keeps from a decoded list, in order. */
  function Cleaned(items: seq<Json>): seq<Record> {
    Seqs.Select(items, Kept, ItemRecord)
  }

  /** The text handed to `json.loads`: None when the reply lacks a `[` or a `]`. */
  function Candidate(text: string): Option<string> {
    var start := PyStr.Find(text, '[');
    var end := PyStr.RFind(text, ']');
    if start != -1 && end != -1 then Some(PyStr.Slice(text, start, end + 1)) else None
  }

  /** What `parse_response(text)` returns or raises, for any Python value `text`. */
  function Extract(text: Json, loads: JsonLoads): Result<seq<Record>, Exception> {
    if !text.JString? then
      Err(Domain(InvalidResponse, "Error parsing Ollama response: " + NoAttribute(text, "find")))
    else
      match Candidate(text.s)
      case None => Ok([])
      case Some(slice) =>
        match loads(slice)
        case Malformed(reason) => Err(Domain(InvalidResponse, "Failed to parse JSON from Ollama response: " + reason))
        case Parsed(JArray(items)) => Ok(Cleaned(items))
        case Parsed(_) => Ok([])
  }

  /** `parse_response`, building `cleaned_results` in a loop over the decoded list. */
  method ParseResponse(text: Json, loads: JsonLoads) returns (r: Result<seq<Record>, Exception>)
    ensures r == Extract(text, loads)
  {
    if !text.JString? {
      return Err(Domain(InvalidResponse, "Error parsing Ollama response: " + NoAttribute(text, "find")));
    }
    var s := text.s;
    var start := PyStr.Find(s, '[');
    var end := PyStr.RFind(s, ']');
    if start != -1 && end != -1 {
      var jsonStr := PyStr.Slice(s, start, end + 1);
      var result := loads(jsonStr);
      if result.Malformed? {
        return Err(Domain(InvalidResponse, "Failed to parse JSON from Ollama response: " + result.reason));
      }
      if result.value.JArray? {
        var items := result.value.items;
        var cleanedResults: seq<Record> := [];
        for i := 0 to |items|
          invariant cleanedResults == Cleaned(items[..i])
        {
          var item := items[i];
          assert items[..i + 1] == items[..i] + [item];
          Seqs.SelectSnoc(items[..i], item, Kept, ItemRecord);
          if item.JObject? {
            var cleanedItem := CleanItem(item.fields);
            if Grounded(cleanedItem) {
              cleanedResults := cleanedResults + [cleanedItem];
            }
          }
        }
        assert items[..|items|] == items;
        return Ok(cleanedResults);
      }
    }
    return Ok([]);
  }

  // ---- Properties of the extractor ----

  /** A reply with no `[` or no `]` yields the empty list, whatever the parser. */
  lemma NoBracketsYieldsEmpty(text: string, loads: JsonLoads)
    requires '[' !in text || ']' !in text
    ensures Extract(JString(text), loads) == Ok([])
  {
  }

  /**
   * The candidate is exactly the span from the first `[` to the last `]`, both
   * included; when the last `]` precedes the first `[` it is the empty string.
   */
  lemma CandidateIsOutermostSpan(text: string)
    requires '[' in text && ']' in text
    ensures var c := Candidate(text).value;
      var start := PyStr.Find(text, '[');
      var end := PyStr.RFind(text, ']');
      && 0 <= start < |text| && 0 <= end < |text|
      && '[' !in text[..start]
      && (forall j :: end < j < |text| ==> text[j] != ']')
      && (start <= end ==> c == text[start..end + 1] && c[0] == '[' && c[|c| - 1] == ']')
      && (end < start ==> c == "")
  {
  }

  /** The first `c` of a text whose leading part lacks `c` is where the rest begins. */
  lemma FindAfter(prefix: string, rest: string, c: char)
    requires c !in prefix && rest != [] && rest[0] == c
    ensures PyStr.Find(prefix + rest, c) == |prefix|
  {
    var text := prefix + rest;
    var r := PyStr.Find(text, c);
    assert text[|prefix|] == c;
    assert forall j :: 0 <= j < |prefix| ==> text[j] == prefix[j];
    assert forall j :: |prefix| < j <= |text| ==> text[..j][|prefix|] == c;
  }

  /** The last `c` of a text whose trailing part lacks `c` is where the leading part ends. */
  lemma RFindBefore(body: string, suffix: string, c: char)
    requires c !in suffix && body != [] && body[|body| - 1] == c
    ensures PyStr.RFind(body + suffix, c) == |body| - 1
  {
    var text := body + suffix;
    var r := PyStr.RFind(text, c);
    assert text[|body| - 1] == c;
    assert forall j :: |body| <= j < |text| ==> text[j] == suffix[j - |body|];
  }

  /**
   * Prose around an array does not disturb it: if neither the leading nor the
   * trailing text holds a bracket, the candidate is the bracketed text itself.
   */
  lemma CandidateSkipsProse(prefix: string, body: string, suffix: string)
    requires '[' !in prefix && ']' !in prefix && '[' !in suffix && ']' !in suffix
    requires |body| >= 1 && body[0] == '[' && body[|body| - 1] == ']'
    ensures Candidate(prefix + body + suffix) == Some(body)
  {
    var text := prefix + body + suffix;
    assert text == prefix + (body + suffix);
    FindAfter(prefix, body + suffix, '[');
    assert text == (prefix + body) + suffix;
    RFindBefore(prefix + body, suffix, ']');
    assert text[|prefix|..|prefix| + |body|] == body;
  }

  /** Brackets in the wrong order give an empty candidate, which json.loads rejects. */
  lemma InvertedBracketsFail(text: string, loads: JsonLoads)
    requires '[' in text && ']' in text
    requires PyStr.RFind(text, ']') < PyStr.Find(text, '[')
    requires loads("").Malformed?
    ensures Extract(JString(text), loads) == Err(Domain(InvalidResponse, "Failed to parse JSON from Ollama response: " + loads("").reason))
  {
    CandidateIsOutermostSpan(text);
  }

  /** A candidate that decodes to something other than a list yields the empty list, not an error. */
  lemma NonListYieldsEmpty(text: string, loads: JsonLoads)
    requires Candidate(text).Some?
    requires loads(Candidate(text).value).Parsed? && !loads(Candidate(text).value).value.JArray?
    ensures Extract(JString(text), loads) == Ok([])
  {
  }

  /**
   * Exactly two situations raise: the reply is not a string, or the candidate
   * does not decode; and every error raised is an InvalidResponseError.
   */
  lemma ExtractFailsIff(text: Json, loads: JsonLoads)
    ensures Extract(text, loads).Err? <==>
      (!text.JString? || (Candidate(text.s).Some? && loads(Candidate(text.s).value).Malformed?))
    ensures Extract(text, loads).Err? ==> Extract(text, loads).error.Domain? && Extract(text, loads).error.kind == InvalidResponse
  {
  }

  /** Every kept record is grounded and has exactly the three keys. */
  lemma CleanedAreGrounded(items: seq<Json>)
    ensures forall r :: r in Cleaned(items) ==> Grounded(r) && r.Keys == {"wrong", "corrected", "error_type"}
  {
    var idx := Seqs.SelectIsSubsequence(items, Kept, ItemRecord);
    forall r | r in Cleaned(items)
      ensures Grounded(r) && r.Keys == {"wrong", "corrected", "error_type"}
    {
      var k :| 0 <= k < |Cleaned(items)| && Cleaned(items)[k] == r;
      assert Kept(items[idx[k]]);
    }
  }

  /**
   * The kept records are an order-preserving subsequence of the dict elements:
   * `idx` lists, increasingly, the positions of the elements they come from, each
   * a dict whose cleaned form is the record, and every grounded dict is among them.
   */
  lemma CleanedIsSubsequence(items: seq<Json>) returns (idx: seq<nat>)
    ensures |idx| == |Cleaned(items)| <= |items|
    ensures forall k :: 0 <= k < |idx| ==>
      idx[k] < |items| && items[idx[k]].JObject? && Cleaned(items)[k] == CleanItem(items[idx[k]].fields)
    ensures forall k, l :: 0 <= k < l < |idx| ==> idx[k] < idx[l]
    ensures forall i :: 0 <= i < |items| && items[i].JObject? && Grounded(CleanItem(items[i].fields)) ==> i in idx
  {
    idx := Seqs.SelectIsSubsequence(items, Kept, ItemRecord);
  }

  /** Whatever `parse_response` returns is a list of grounded three-key records. */
  lemma ExtractedAreGrounded(text: Json, loads: JsonLoads)
    requires Extract(text, loads).Ok?
    ensures forall r :: r in Extract(text, loads).value ==>
      Grounded(r) && r.Keys == {"wrong", "corrected", "error_type"}
  {
    if text.JString? && Candidate(text.s).Some? {
      var d := loads(Candidate(text.s).value);
      if d.Parsed? && d.value.JArray? {
        CleanedAreGrounded(d.value.items);
      }
    }
  }

  /** error_type becomes "unknown" only when the key is absent and is kept as given otherwise, even when empty. */
  lemma ErrorTypeDefault(item: map<string, Json>)
    ensures "error_type" !in item ==> CleanItem(item)["error_type"] == JString("unknown")
    ensures "error_type" in item ==> CleanItem(item)["error_type"] == item["error_type"]
    ensures CleanItem(item)["wrong"] == JString("") <==> ("wrong" !in item || item["wrong"] == JString(""))
  {
  }

  /** The sentinel record of the worked example is dropped. */
  lemma SentinelDropped(corrected: Json, errorType: Json)
    ensures Cleaned([JObject(map["wrong" := JString(Sentinel), "corrected" := corrected, "error_type" := errorType])]) == []
  {
    var items := [JObject(map["wrong" := JString(Sentinel), "corrected" := corrected, "error_type" := errorType])];
    Seqs.SelectSnoc([], items[0], Kept, ItemRecord);
    assert [] + [items[0]] == items;
  }
}
