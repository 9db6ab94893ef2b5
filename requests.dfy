/**
  The records the analyser works on: captured requests, API endpoints and their
  dictionary form, and the library calls (regular expressions, JSON, URL
  parsing) that the analyser uses but does not define.
*/
module Requests {
  import opened Wrappers
  import opened Text

  /** One captured request as the capture step records it. `response` is the
      response text, absent when there was no response or its status was not 200;
      `headers` are the request's headers. */
  datatype Request = Request(
    url: string,
    httpMethod: string,
    resourceType: string,
    response: Option<string>,
    headers: map<string, string>,
    status: Option<int>)

  /** A candidate API endpoint. */
  datatype ApiEndpoint = ApiEndpoint(
    url: string,
    httpMethod: string,
    contentType: string,
    matchedKeywords: seq<string>,
    priorityLevel: int,
    sampleResponse: string)

  /** A decoded JSON value; the analyser only parses and re-serialises it. */
  datatype Json =
    | JNull
    | JBool(b: bool)
    | JNumber(literal: string)
    | JString(s: string)
    | JArray(items: seq<Json>)
    | JObject(members: seq<(string, Json)>)

  /** The regular expressions the analyser searches with. */
  datatype Pattern =
    | NextDataScript       // body of a script tag with id __NEXT_DATA__
    | JsonScriptTag        // body of a script tag whose type is application/json
    | WindowDataAssignment // the object literal assigned to window.__DATA__
    | JsonParseQuoted      // an object literal in quotes passed to JSON.parse
    | JsonParseBacktick    // an object literal in backticks passed to JSON.parse
    | AnchorHref           // the href of an anchor tag, ignoring case

  /** The library behaviour the analyser relies on, as given functions:
      `findAll(p, s)` is `re.findall` of pattern `p` on `s` (the captured group of
      each match, in order), `loads` is `json.loads` (None when it raises
      `JSONDecodeError`), `dumps` is `json.dumps(v, indent=2)`, `urljoin` and
      `netloc` are those of `urllib.parse`. */
  datatype Library = Library(
    findAll: (Pattern, string) -> seq<string>,
    loads: string -> Option<Json>,
    dumps: Json -> string,
    urljoin: (string, string) -> string,
    netloc: string -> string)

  /** The patterns searched for embedded JSON in HTML documents, in order. */
  const HtmlJsonPatterns: seq<Pattern> := [NextDataScript, JsonScriptTag, WindowDataAssignment]

  /** The patterns searched for stringified JSON in scripts, in order. */
  const ScriptJsonPatterns: seq<Pattern> := [JsonParseQuoted, JsonParseBacktick]

  /** The longest sample kept from a response. */
  const SampleLimit: nat := 500

  const JsonContentType: string := "application/json"

  /** Python truthiness of the `response` entry: present and non-empty. */
  predicate HasBody(req: Request)
  {
    req.response.Some? && req.response.value != []
  }

  /** The content type `_is_json_response` consults: `content-type`, else
      `Content-Type`, else empty. */
  function DeclaredContentType(headers: map<string, string>): string
  {
    if "content-type" in headers then headers["content-type"]
    else if "Content-Type" in headers then headers["Content-Type"]
    else ""
  }

  /** Whether the request declares a JSON content type, ignoring case. */
  predicate IsJsonResponse(req: Request)
  {
    Contains(Lower(DeclaredContentType(req.headers)), JsonContentType)
  }

  /** `content-type` takes precedence over `Content-Type`, which is consulted only
      when `content-type` is absent; with neither the request is not JSON. */
  lemma IsJsonResponseCases(req: Request)
    ensures "content-type" in req.headers ==>
      (IsJsonResponse(req) <==> exists i :: OccursAt(Lower(req.headers["content-type"]), JsonContentType, i))
    ensures "content-type" !in req.headers && "Content-Type" in req.headers ==>
      (IsJsonResponse(req) <==> exists i :: OccursAt(Lower(req.headers["Content-Type"]), JsonContentType, i))
    ensures "content-type" !in req.headers && "Content-Type" !in req.headers ==> !IsJsonResponse(req)
  {
    ContainsIff(Lower(DeclaredContentType(req.headers)), JsonContentType);
  }

  /** The content type recorded for a plain-text endpoint: the `content-type`
      header, or `text/plain` without one. */
  function TextContentType(headers: map<string, string>): string
  {
    if "content-type" in headers then headers["content-type"] else "text/plain"
  }

  /** The priority tier a resource type belongs to. */
  function Tier(resourceType: string): (t: int)
    ensures 1 <= t <= 4
    ensures t == 1 <==> resourceType == "document"
    ensures t == 2 <==> resourceType in {"xhr", "fetch"}
    ensures t == 3 <==> resourceType == "script"
  {
    if resourceType == "document" then 1
    else if resourceType == "xhr" || resourceType == "fetch" then 2
    else if resourceType == "script" then 3
    else 4
  }

  // ---------------------------------------------------------------------------
  // Dictionary form of an endpoint

  datatype DictValue = Str(s: string) | StrList(items: seq<string>) | Int(i: int)

  const ApiDictKeys: set<string> :=
    {"url", "method", "content_type", "matched_keywords", "priority_level", "sample_response"}

  /** `_api_to_dict`: one entry per field, under the field's name. */
  function ApiToDict(api: ApiEndpoint): (d: map<string, DictValue>)
    ensures d.Keys == ApiDictKeys
  {
    map[
      "url" := Str(api.url),
      "method" := Str(api.httpMethod),
      "content_type" := Str(api.contentType),
      "matched_keywords" := StrList(api.matchedKeywords),
      "priority_level" := Int(api.priorityLevel),
      "sample_response" := Str(api.sampleResponse)]
  }

  /** Reads an endpoint back from its dictionary form. */
  function DictToApi(d: map<string, DictValue>): Option<ApiEndpoint>
  {
    if ApiDictKeys <= d.Keys
       && d["url"].Str? && d["method"].Str? && d["content_type"].Str?
       && d["matched_keywords"].StrList? && d["priority_level"].Int?
       && d["sample_response"].Str?
    then Some(ApiEndpoint(d["url"].s, d["method"].s, d["content_type"].s,
                          d["matched_keywords"].items, d["priority_level"].i,
                          d["sample_response"].s))
    else None
  }

  /** The dictionary form loses nothing: the endpoint can be read back from it. */
  lemma ApiToDictRoundTrip(api: ApiEndpoint)
    ensures DictToApi(ApiToDict(api)) == Some(api)
  {
  }

  /** The dictionary forms of a list of endpoints, in order. */
  function ApisToDicts(apis: seq<ApiEndpoint>): (ds: seq<map<string, DictValue>>)
    ensures |ds| == |apis|
    ensures forall i :: 0 <= i < |ds| ==> DictToApi(ds[i]) == Some(apis[i])
  {
    seq(|apis|, i requires 0 <= i < |apis| => ApiToDict(apis[i]))
  }
}
