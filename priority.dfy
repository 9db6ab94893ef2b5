/**
  The prioritised request analyser: requests are taken in four tiers by resource
  type (documents, then xhr/fetch, then scripts, then everything else), each tier
  has its own extractor, and the endpoints found are concatenated in tier order.
*/
module Priority {
  import opened Wrappers
  import opened Text
  import opened Keywords
  import opened Requests

  /** Raised by the analyser; the only case is a document request without a
      response, on which the regular-expression search fails with a TypeError. */
  datatype AnalysisError = DocumentWithoutResponse(url: string)

  /** An endpoint as every extractor emits it: it names its request, carries its
      tier, has matched at least one keyword (in keyword order) and holds a
      sample of at most `SampleLimit` characters. */
  ghost predicate Emitted(e: ApiEndpoint, req: Request, keywords: seq<string>, level: int)
  {
    && e.url == req.url
    && e.httpMethod == req.httpMethod
    && e.priorityLevel == level
    && |e.matchedKeywords| > 0
    && |e.sampleResponse| <= SampleLimit
    && IsSubsequence(e.matchedKeywords, keywords)
  }

  // ---------------------------------------------------------------------------
  // Tiers 1 and 3: JSON found by regular expressions, parsed and re-serialised

  /** The two extractors that search a body for JSON text. */
  datatype Rule = EmbeddedInHtml | StringifiedInScript

  function Level(rule: Rule): int
  {
    match rule
    case EmbeddedInHtml => 1
    case StringifiedInScript => 3
  }

  function RulePatterns(rule: Rule): seq<Pattern>
  {
    match rule
    case EmbeddedInHtml => HtmlJsonPatterns
    case StringifiedInScript => ScriptJsonPatterns
  }

  /** The clean-up of an embedded match: strip white space, then, if what is left
      starts with `/*` and ends with `*/`, drop those two pairs and strip again. */
  function CleanEmbedded(m: string): string
  {
    var c := Strip(m);
    if StartsWith(c, "/*") && EndsWith(c, "*/") then Strip(Inner(c)) else c
  }

  /** A block comment around embedded JSON is removed. */
  lemma CleanEmbeddedUncomments(x: string)
    ensures CleanEmbedded("/*" + x + "*/") == Strip(x)
  {
    var c := "/*" + x + "*/";
    StripUnchanged(c);
    assert StartsWith(c, "/*") && EndsWith(c, "*/");
    assert Inner(c) == x;
  }

  function Cleaned(rule: Rule, m: string): string
  {
    match rule
    case EmbeddedInHtml => CleanEmbedded(m)
    case StringifiedInScript => Strip(m)
  }

  /** The sample a match yields when it parses: the first `SampleLimit`
      characters of its re-serialised form. */
  ghost predicate SampledFrom(lib: Library, rule: Rule, m: string, e: ApiEndpoint)
  {
    && lib.loads(Cleaned(rule, m)).Some?
    && e.sampleResponse == Prefix(lib.dumps(lib.loads(Cleaned(rule, m)).value), SampleLimit)
  }

  /** An endpoint of tier 1 or 3: a JSON endpoint whose matched keywords are those
      its sample mentions. */
  ghost predicate JsonSampleEndpoint(e: ApiEndpoint, keywords: seq<string>)
  {
    e.contentType == JsonContentType && e.matchedKeywords == KeywordMatches(e.sampleResponse, keywords)
  }

  /** What one match contributes: nothing when it does not parse; otherwise the
      first `SampleLimit` characters of its re-serialised form, as an endpoint when
      that sample mentions a keyword. */
  function MatchEndpoints(lib: Library, rule: Rule, req: Request, keywords: seq<string>, m: string)
    : (es: seq<ApiEndpoint>)
    ensures |es| <= 1
    ensures lib.loads(Cleaned(rule, m)).None? ==> es == []
  {
    match lib.loads(Cleaned(rule, m))
    case None => []
    case Some(v) =>
      var jsonStr := Prefix(lib.dumps(v), SampleLimit);
      var matched := KeywordMatches(jsonStr, keywords);
      if matched == [] then []
      else [ApiEndpoint(req.url, req.httpMethod, JsonContentType, matched, Level(rule), jsonStr)]
  }

  /** A match that parses yields an endpoint exactly when the first `SampleLimit`
      characters of its re-serialised form mention a keyword; the endpoint then
      samples that prefix, lists the keywords it mentions and carries the tier. */
  lemma MatchEndpointsCharacterised(lib: Library, rule: Rule, req: Request, keywords: seq<string>, m: string)
    ensures lib.loads(Cleaned(rule, m)).Some? ==>
      (MatchEndpoints(lib, rule, req, keywords, m) != [] <==> exists kw | kw in keywords ::
         Mentions(Prefix(lib.dumps(lib.loads(Cleaned(rule, m)).value), SampleLimit), kw))
    ensures forall e | e in MatchEndpoints(lib, rule, req, keywords, m) ::
      && Emitted(e, req, keywords, Level(rule))
      && JsonSampleEndpoint(e, keywords)
      && SampledFrom(lib, rule, m, e)
  {
    if lib.loads(Cleaned(rule, m)).Some? {
      var jsonStr := Prefix(lib.dumps(lib.loads(Cleaned(rule, m)).value), SampleLimit);
      KeywordMatchesSubsequence(jsonStr, keywords);
      KeywordMatchesEmpty(jsonStr, keywords);
    }
  }

  /** What a list of matches contributes, in match order. */
  function MatchesEndpoints(lib: Library, rule: Rule, req: Request, keywords: seq<string>, ms: seq<string>)
    : seq<ApiEndpoint>
    decreases |ms|
  {
    if ms == [] then []
    else
      MatchesEndpoints(lib, rule, req, keywords, ms[..|ms| - 1])
        + MatchEndpoints(lib, rule, req, keywords, ms[|ms| - 1])
  }

  /** What the matches of a list of patterns contribute, in pattern order. */
  function PatternsEndpoints(lib: Library, rule: Rule, req: Request, keywords: seq<string>,
                             body: string, ps: seq<Pattern>): seq<ApiEndpoint>
    decreases |ps|
  {
    if ps == [] then []
    else
      PatternsEndpoints(lib, rule, req, keywords, body, ps[..|ps| - 1])
        + MatchesEndpoints(lib, rule, req, keywords, lib.findAll(ps[|ps| - 1], body))
  }

  /** What an extractor of tier 1 or 3 finds in a request's response. */
  function RuleEndpoints(lib: Library, rule: Rule, req: Request, keywords: seq<string>): seq<ApiEndpoint>
    requires req.response.Some?
  {
    PatternsEndpoints(lib, rule, req, keywords, req.response.value, RulePatterns(rule))
  }

  lemma {:induction false} MatchesEndpointsEmitted(lib: Library, rule: Rule, req: Request,
                                                   keywords: seq<string>, ms: seq<string>)
    ensures forall e | e in MatchesEndpoints(lib, rule, req, keywords, ms) ::
      && Emitted(e, req, keywords, Level(rule))
      && JsonSampleEndpoint(e, keywords)
      && exists m | m in ms :: SampledFrom(lib, rule, m, e)
    decreases |ms|
  {
    if ms != [] {
      var init, last := ms[..|ms| - 1], ms[|ms| - 1];
      MatchesEndpointsEmitted(lib, rule, req, keywords, init);
      MatchEndpointsCharacterised(lib, rule, req, keywords, last);
      assert forall m | m in init :: m in ms;
      assert last in ms;
    }
  }

  lemma {:induction false} PatternsEndpointsEmitted(lib: Library, rule: Rule, req: Request,
                                                    keywords: seq<string>, body: string, ps: seq<Pattern>)
    ensures forall e | e in PatternsEndpoints(lib, rule, req, keywords, body, ps) ::
      && Emitted(e, req, keywords, Level(rule))
      && JsonSampleEndpoint(e, keywords)
      && exists p, m | p in ps && m in lib.findAll(p, body) :: SampledFrom(lib, rule, m, e)
    decreases |ps|
  {
    if ps != [] {
      var init, last := ps[..|ps| - 1], ps[|ps| - 1];
      PatternsEndpointsEmitted(lib, rule, req, keywords, body, init);
      MatchesEndpointsEmitted(lib, rule, req, keywords, lib.findAll(last, body));
      assert forall p | p in init :: p in ps;
      assert last in ps;
    }
  }

  /** Every endpoint an extractor of tier 1 or 3 finds names its request, carries
      the extractor's tier, has matched a keyword and holds a bounded sample; the
      sample is the re-serialised start of some match of the extractor's patterns
      that parses, and the matched keywords are exactly those the sample mentions. */
  lemma RuleEndpointsEmitted(lib: Library, rule: Rule, req: Request, keywords: seq<string>)
    requires req.response.Some?
    ensures forall e | e in RuleEndpoints(lib, rule, req, keywords) ::
      && Emitted(e, req, keywords, Level(rule))
      && JsonSampleEndpoint(e, keywords)
      && exists p, m | p in RulePatterns(rule) && m in lib.findAll(p, req.response.value) ::
           SampledFrom(lib, rule, m, e)
  {
    PatternsEndpointsEmitted(lib, rule, req, keywords, req.response.value, RulePatterns(rule));
  }

  lemma {:induction false} MatchesEndpointsAppend(lib: Library, rule: Rule, req: Request,
                                                  keywords: seq<string>, a: seq<string>, b: seq<string>)
    ensures MatchesEndpoints(lib, rule, req, keywords, a + b)
         == MatchesEndpoints(lib, rule, req, keywords, a) + MatchesEndpoints(lib, rule, req, keywords, b)
    decreases |b|
  {
    if b != [] {
      var b' := b[..|b| - 1];
      MatchesEndpointsAppend(lib, rule, req, keywords, a, b');
      assert (a + b)[..|a + b| - 1] == a + b';
      assert (a + b)[|a + b| - 1] == b[|b| - 1];
    } else {
      assert a + b == a;
    }
  }

  lemma MatchesEndpointsStep(lib: Library, rule: Rule, req: Request, keywords: seq<string>,
                             ms: seq<string>, k: nat)
    requires k < |ms|
    ensures MatchesEndpoints(lib, rule, req, keywords, ms[..k + 1])
         == MatchesEndpoints(lib, rule, req, keywords, ms[..k]) + MatchEndpoints(lib, rule, req, keywords, ms[k])
  {
    assert ms[..k + 1][..k] == ms[..k];
  }

  lemma PatternsEndpointsStep(lib: Library, rule: Rule, req: Request, keywords: seq<string>,
                              body: string, ps: seq<Pattern>, k: nat)
    requires k < |ps|
    ensures PatternsEndpoints(lib, rule, req, keywords, body, ps[..k + 1])
         == PatternsEndpoints(lib, rule, req, keywords, body, ps[..k])
            + MatchesEndpoints(lib, rule, req, keywords, lib.findAll(ps[k], body))
  {
    assert ps[..k + 1][..k] == ps[..k];
  }

  /** A match that does not parse contributes nothing and does not stop the
      matches after it from being examined. */
  lemma ParseFailureSkipped(lib: Library, rule: Rule, req: Request, keywords: seq<string>,
                            before: seq<string>, m: string, after: seq<string>)
    requires lib.loads(Cleaned(rule, m)).None?
    ensures MatchesEndpoints(lib, rule, req, keywords, before + [m] + after)
         == MatchesEndpoints(lib, rule, req, keywords, before) + MatchesEndpoints(lib, rule, req, keywords, after)
  {
    var front := before + [m];
    MatchesEndpointsAppend(lib, rule, req, keywords, before, [m]);
    MatchesEndpointsAppend(lib, rule, req, keywords, front, after);
    UnparsableMatchGivesNothing(lib, rule, req, keywords, m);
  }

  lemma UnparsableMatchGivesNothing(lib: Library, rule: Rule, req: Request, keywords: seq<string>, m: string)
    requires lib.loads(Cleaned(rule, m)).None?
    ensures MatchesEndpoints(lib, rule, req, keywords, [m]) == []
  {
    assert [m][..0] == [];
  }

  ghost predicate NothingParses(lib: Library, rule: Rule, body: string)
  {
    forall p, m | p in RulePatterns(rule) && m in lib.findAll(p, body) :: lib.loads(Cleaned(rule, m)).None?
  }

  lemma {:induction false} UnparsableMatchesGiveNothing(lib: Library, rule: Rule, req: Request,
                                                       keywords: seq<string>, ms: seq<string>)
    requires forall m | m in ms :: lib.loads(Cleaned(rule, m)).None?
    ensures MatchesEndpoints(lib, rule, req, keywords, ms) == []
    decreases |ms|
  {
    if ms != [] {
      assert ms[|ms| - 1] in ms;
      UnparsableMatchesGiveNothing(lib, rule, req, keywords, ms[..|ms| - 1]);
    }
  }

  lemma {:induction false} UnparsablePatternsGiveNothing(lib: Library, rule: Rule, req: Request,
                                                        keywords: seq<string>, body: string, ps: seq<Pattern>)
    requires forall p, m | p in ps && m in lib.findAll(p, body) :: lib.loads(Cleaned(rule, m)).None?
    ensures PatternsEndpoints(lib, rule, req, keywords, body, ps) == []
    decreases |ps|
  {
    if ps != [] {
      var p := ps[|ps| - 1];
      assert p in ps;
      UnparsableMatchesGiveNothing(lib, rule, req, keywords, lib.findAll(p, body));
      UnparsablePatternsGiveNothing(lib, rule, req, keywords, body, ps[..|ps| - 1]);
    }
  }

  /** A body none of whose matches parses as JSON yields no endpoint. */
  lemma UnparsableBodyGivesNothing(lib: Library, rule: Rule, req: Request, keywords: seq<string>)
    requires req.response.Some? && NothingParses(lib, rule, req.response.value)
    ensures RuleEndpoints(lib, rule, req, keywords) == []
  {
    UnparsablePatternsGiveNothing(lib, rule, req, keywords, req.response.value, RulePatterns(rule));
  }

  /** Tier 1: embedded JSON in an HTML document. */
  method FindEmbeddedJsonInHtml(lib: Library, req: Request, keywords: seq<string>)
    returns (endpoints: seq<ApiEndpoint>)
    requires req.response.Some?
    ensures endpoints == RuleEndpoints(lib, EmbeddedInHtml, req, keywords)
  {
    var responseText := req.response.value;
    var patterns := HtmlJsonPatterns;
    endpoints := [];
    for p := 0 to |patterns|
      invariant endpoints == PatternsEndpoints(lib, EmbeddedInHtml, req, keywords, responseText, patterns[..p])
    {
      var matches := lib.findAll(patterns[p], responseText);
      ghost var before := endpoints;
      for k := 0 to |matches|
        invariant endpoints == before + MatchesEndpoints(lib, EmbeddedInHtml, req, keywords, matches[..k])
      {
        var cleanMatch := CleanEmbedded(matches[k]);
        var parsed := lib.loads(cleanMatch);
        if parsed.Some? {
          var jsonStr := Prefix(lib.dumps(parsed.value), SampleLimit);
          var matchResult := CheckKeywordsInContent(jsonStr, keywords);
          if matchResult != [] {
            endpoints := endpoints + [ApiEndpoint(req.url, req.httpMethod, JsonContentType, matchResult, 1, jsonStr)];
          }
        }
        MatchesEndpointsStep(lib, EmbeddedInHtml, req, keywords, matches, k);
      }
      assert matches[..|matches|] == matches;
      PatternsEndpointsStep(lib, EmbeddedInHtml, req, keywords, responseText, patterns, p);
    }
    assert patterns[..|patterns|] == patterns;
  }

  /** Tier 3: JSON text passed to `JSON.parse` in a script. */
  method AnalyzeJsForJson(lib: Library, req: Request, keywords: seq<string>)
    returns (endpoints: seq<ApiEndpoint>)
    requires req.response.Some?
    ensures endpoints == RuleEndpoints(lib, StringifiedInScript, req, keywords)
  {
    var responseText := req.response.value;
    var patterns := ScriptJsonPatterns;
    endpoints := [];
    for p := 0 to |patterns|
      invariant endpoints == PatternsEndpoints(lib, StringifiedInScript, req, keywords, responseText, patterns[..p])
    {
      var matches := lib.findAll(patterns[p], responseText);
      ghost var before := endpoints;
      for k := 0 to |matches|
        invariant endpoints == before + MatchesEndpoints(lib, StringifiedInScript, req, keywords, matches[..k])
      {
        var cleanMatch := Strip(matches[k]);
        var parsed := lib.loads(cleanMatch);
        if parsed.Some? {
          var jsonStr := Prefix(lib.dumps(parsed.value), SampleLimit);
          var matchResult := CheckKeywordsInContent(jsonStr, keywords);
          if matchResult != [] {
            endpoints := endpoints + [ApiEndpoint(req.url, req.httpMethod, JsonContentType, matchResult, 3, jsonStr)];
          }
        }
        MatchesEndpointsStep(lib, StringifiedInScript, req, keywords, matches, k);
      }
      assert matches[..|matches|] == matches;
      PatternsEndpointsStep(lib, StringifiedInScript, req, keywords, responseText, patterns, p);
    }
    assert patterns[..|patterns|] == patterns;
  }

  // ---------------------------------------------------------------------------
  // Tiers 2 and 4: the raw response text

  /** What an extractor of tier 2 or 4 finds: one endpoint, sampling the first
      `SampleLimit` characters, when the whole response mentions a keyword. */
  function TextEndpoints(req: Request, keywords: seq<string>, contentType: string, level: int)
    : (es: seq<ApiEndpoint>)
    requires req.response.Some?
    ensures |es| <= 1
    ensures es == [] <==> forall kw | kw in keywords :: !Mentions(req.response.value, kw)
    ensures forall e | e in es ::
      && Emitted(e, req, keywords, level)
      && e.contentType == contentType
      && e.matchedKeywords == KeywordMatches(req.response.value, keywords)
      && e.sampleResponse == Prefix(req.response.value, SampleLimit)
  {
    var responseText := req.response.value;
    var matched := KeywordMatches(responseText, keywords);
    KeywordMatchesSubsequence(responseText, keywords);
    KeywordMatchesEmpty(responseText, keywords);
    if matched == [] then []
    else [ApiEndpoint(req.url, req.httpMethod, contentType, matched, level, Prefix(responseText, SampleLimit))]
  }

  /** Tier 2: a JSON response from an xhr or fetch request. */
  method AnalyzeJsonResponse(req: Request, keywords: seq<string>) returns (endpoints: seq<ApiEndpoint>)
    requires req.response.Some?
    ensures endpoints == TextEndpoints(req, keywords, JsonContentType, 2)
  {
    endpoints := [];
    var responseText := req.response.value;
    var matchResult := CheckKeywordsInContent(responseText, keywords);
    if matchResult != [] {
      var endpoint := ApiEndpoint(req.url, req.httpMethod, JsonContentType, matchResult, 2,
                                  Prefix(responseText, SampleLimit));
      endpoints := endpoints + [endpoint];
    }
  }

  /** Tier 4: any other text response. */
  method AnalyzeTextResponse(req: Request, keywords: seq<string>) returns (endpoints: seq<ApiEndpoint>)
    requires req.response.Some?
    ensures endpoints == TextEndpoints(req, keywords, TextContentType(req.headers), 4)
  {
    endpoints := [];
    var responseText := req.response.value;
    var matchResult := CheckKeywordsInContent(responseText, keywords);
    if matchResult != [] {
      var contentType := TextContentType(req.headers);
      var endpoint := ApiEndpoint(req.url, req.httpMethod, contentType, matchResult, 4,
                                  Prefix(responseText, SampleLimit));
      endpoints := endpoints + [endpoint];
    }
  }

  // ---------------------------------------------------------------------------
  // The four tiers together

  /** Whether a request is examined by the extractor of the given tier. */
  predicate Selected(req: Request, tier: int)
  {
    match tier
    case 1 => req.resourceType == "document"
    case 2 => req.resourceType in {"xhr", "fetch"} && HasBody(req) && IsJsonResponse(req)
    case 3 => req.resourceType == "script" && HasBody(req)
    case 4 => Tier(req.resourceType) == 4 && HasBody(req)
    case _ => false
  }

  /** Every document request carries a response (possibly empty). */
  ghost predicate DocumentsHaveBodies(reqs: seq<Request>)
  {
    forall i :: 0 <= i < |reqs| && reqs[i].resourceType == "document" ==> reqs[i].response.Some?
  }

  /** What the extractor of a tier finds in one selected request. */
  function RequestEndpoints(lib: Library, req: Request, keywords: seq<string>, tier: int): seq<ApiEndpoint>
    requires Selected(req, tier) && (tier == 1 ==> req.response.Some?)
  {
    match tier
    case 1 => RuleEndpoints(lib, EmbeddedInHtml, req, keywords)
    case 2 => TextEndpoints(req, keywords, JsonContentType, 2)
    case 3 => RuleEndpoints(lib, StringifiedInScript, req, keywords)
    case 4 => TextEndpoints(req, keywords, TextContentType(req.headers), 4)
  }

  /** What one tier contributes, in request order. Every endpoint comes from a
      request of that tier. */
  function TierEndpoints(lib: Library, reqs: seq<Request>, keywords: seq<string>, tier: int)
    : seq<ApiEndpoint>
    requires tier == 1 ==> DocumentsHaveBodies(reqs)
    decreases |reqs|
  {
    if reqs == [] then []
    else
      var init, last := reqs[..|reqs| - 1], reqs[|reqs| - 1];
      TierEndpoints(lib, init, keywords, tier)
        + (if Selected(last, tier) then RequestEndpoints(lib, last, keywords, tier) else [])
  }

  lemma RequestEndpointsEmitted(lib: Library, req: Request, keywords: seq<string>, tier: int)
    requires Selected(req, tier) && (tier == 1 ==> req.response.Some?)
    ensures Tier(req.resourceType) == tier
    ensures forall e | e in RequestEndpoints(lib, req, keywords, tier) :: Emitted(e, req, keywords, tier)
  {
    if tier == 1 {
      RuleEndpointsEmitted(lib, EmbeddedInHtml, req, keywords);
    } else if tier == 3 {
      RuleEndpointsEmitted(lib, StringifiedInScript, req, keywords);
    }
  }

  /** Every endpoint a tier contributes comes from a request of that tier. */
  lemma {:induction false} TierEndpointsEmitted(lib: Library, reqs: seq<Request>, keywords: seq<string>, tier: int)
    requires tier == 1 ==> DocumentsHaveBodies(reqs)
    ensures forall e | e in TierEndpoints(lib, reqs, keywords, tier) :: exists req | req in reqs ::
      Emitted(e, req, keywords, tier) && Tier(req.resourceType) == tier
    decreases |reqs|
  {
    if reqs != [] {
      var init, last := reqs[..|reqs| - 1], reqs[|reqs| - 1];
      TierEndpointsEmitted(lib, init, keywords, tier);
      assert forall req | req in init :: req in reqs;
      assert last in reqs;
      if Selected(last, tier) {
        RequestEndpointsEmitted(lib, last, keywords, tier);
      }
    }
  }

  lemma TierEndpointsStep(lib: Library, reqs: seq<Request>, keywords: seq<string>, tier: int, i: nat)
    requires i < |reqs| && (tier == 1 ==> DocumentsHaveBodies(reqs[..i + 1]))
    ensures tier == 1 ==> DocumentsHaveBodies(reqs[..i])
    ensures TierEndpoints(lib, reqs[..i + 1], keywords, tier)
         == TierEndpoints(lib, reqs[..i], keywords, tier)
            + (if Selected(reqs[i], tier) then RequestEndpoints(lib, reqs[i], keywords, tier) else [])
  {
    assert reqs[..i + 1][..i] == reqs[..i];
  }

  /** The URL of the first document request without a response, if any. */
  function FirstDocumentWithoutResponse(reqs: seq<Request>): (r: Option<string>)
    ensures r.None? <==> DocumentsHaveBodies(reqs)
    ensures r.Some? ==> exists i :: 0 <= i < |reqs| && reqs[i].resourceType == "document"
                                    && reqs[i].response.None? && reqs[i].url == r.value
  {
    if reqs == [] then None
    else if reqs[0].resourceType == "document" && reqs[0].response.None? then Some(reqs[0].url)
    else
      var r := FirstDocumentWithoutResponse(reqs[1..]);
      assert forall i :: 0 < i < |reqs| ==> reqs[i] == reqs[1..][i - 1];
      r
  }

  /** The analyser's result: the failure the first document without a response
      causes, or else the four tiers' endpoints concatenated in tier order. */
  function PrioritizedEndpoints(lib: Library, reqs: seq<Request>, keywords: seq<string>)
    : Result<seq<ApiEndpoint>, AnalysisError>
  {
    match FirstDocumentWithoutResponse(reqs)
    case Some(url) => Failure(DocumentWithoutResponse(url))
    case None =>
      Success(TierEndpoints(lib, reqs, keywords, 1) + TierEndpoints(lib, reqs, keywords, 2)
              + TierEndpoints(lib, reqs, keywords, 3) + TierEndpoints(lib, reqs, keywords, 4))
  }

  /** The first tier of `_analyze_requests_by_priority`: the embedded JSON of
      every document, in request order, failing at the first document without a
      response. */
  method AnalyzeDocuments(lib: Library, requests: seq<Request>, keywords: seq<string>)
    returns (r: Result<seq<ApiEndpoint>, AnalysisError>)
    ensures match FirstDocumentWithoutResponse(requests)
            case Some(url) => r == Failure(DocumentWithoutResponse(url))
            case None => r == Success(TierEndpoints(lib, requests, keywords, 1))
  {
    var apiEndpoints: seq<ApiEndpoint> := [];
    for i := 0 to |requests|
      invariant FirstDocumentWithoutResponse(requests[..i]).None?
      invariant apiEndpoints == TierEndpoints(lib, requests[..i], keywords, 1)
    {
      var req := requests[i];
      if req.resourceType == "document" {
        if req.response.None? {
          FirstMissingExtends(requests, i);
          return Failure(DocumentWithoutResponse(req.url));
        }
        var endpoints := FindEmbeddedJsonInHtml(lib, req, keywords);
        apiEndpoints := apiEndpoints + endpoints;
      }
      FirstMissingPrefix(requests, i);
      TierEndpointsStep(lib, requests, keywords, 1, i);
    }
    assert requests[..|requests|] == requests;
    return Success(apiEndpoints);
  }

  /** The second tier: the JSON responses of xhr and fetch requests, in request
      order. */
  method AnalyzeApiResponses(lib: Library, requests: seq<Request>, keywords: seq<string>)
    returns (found: seq<ApiEndpoint>)
    ensures found == TierEndpoints(lib, requests, keywords, 2)
  {
    found := [];
    for i := 0 to |requests|
      invariant found == TierEndpoints(lib, requests[..i], keywords, 2)
    {
      var req := requests[i];
      if (req.resourceType == "xhr" || req.resourceType == "fetch") && HasBody(req) {
        if HasBody(req) && IsJsonResponse(req) {
          var endpoints := AnalyzeJsonResponse(req, keywords);
          found := found + endpoints;
        }
      }
      TierEndpointsStep(lib, requests, keywords, 2, i);
    }
    assert requests[..|requests|] == requests;
  }

  /** The third tier: the stringified JSON of scripts, in request order. */
  method AnalyzeScripts(lib: Library, requests: seq<Request>, keywords: seq<string>)
    returns (found: seq<ApiEndpoint>)
    ensures found == TierEndpoints(lib, requests, keywords, 3)
  {
    found := [];
    for i := 0 to |requests|
      invariant found == TierEndpoints(lib, requests[..i], keywords, 3)
    {
      var req := requests[i];
      if req.resourceType == "script" && HasBody(req) {
        var endpoints := AnalyzeJsForJson(lib, req, keywords);
        found := found + endpoints;
      }
      TierEndpointsStep(lib, requests, keywords, 3, i);
    }
    assert requests[..|requests|] == requests;
  }

  /** The fourth tier: the text of every other resource type, in request order. */
  method AnalyzeOtherResources(lib: Library, requests: seq<Request>, keywords: seq<string>)
    returns (found: seq<ApiEndpoint>)
    ensures found == TierEndpoints(lib, requests, keywords, 4)
  {
    found := [];
    for i := 0 to |requests|
      invariant found == TierEndpoints(lib, requests[..i], keywords, 4)
    {
      var req := requests[i];
      if req.resourceType !in ["document", "xhr", "fetch", "script"] && HasBody(req) {
        var endpoints := AnalyzeTextResponse(req, keywords);
        found := found + endpoints;
      }
      TierEndpointsStep(lib, requests, keywords, 4, i);
    }
    assert requests[..|requests|] == requests;
  }

  /** `_analyze_requests_by_priority`: each tier's requests in request order, the
      tiers in priority order; a document without a response stops the analysis. */
  method AnalyzeRequestsByPriority(lib: Library, requests: seq<Request>, keywords: seq<string>)
    returns (r: Result<seq<ApiEndpoint>, AnalysisError>)
    ensures r == PrioritizedEndpoints(lib, requests, keywords)
  {
    var documents := AnalyzeDocuments(lib, requests, keywords);
    if documents.Failure? {
      return Failure(documents.error);
    }
    var apiEndpoints := documents.value;
    var apiResponses := AnalyzeApiResponses(lib, requests, keywords);
    apiEndpoints := apiEndpoints + apiResponses;
    var scripts := AnalyzeScripts(lib, requests, keywords);
    apiEndpoints := apiEndpoints + scripts;
    var others := AnalyzeOtherResources(lib, requests, keywords);
    apiEndpoints := apiEndpoints + others;
    return Success(apiEndpoints);
  }

  lemma FirstMissingPrefix(reqs: seq<Request>, i: nat)
    requires i < |reqs| && FirstDocumentWithoutResponse(reqs[..i]).None?
    requires reqs[i].resourceType == "document" ==> reqs[i].response.Some?
    ensures FirstDocumentWithoutResponse(reqs[..i + 1]).None?
  {
    assert forall j :: 0 <= j < i ==> reqs[..i + 1][j] == reqs[..i][j];
  }

  lemma FirstMissingExtends(reqs: seq<Request>, i: nat)
    requires i < |reqs| && reqs[i].resourceType == "document" && reqs[i].response.None?
    requires FirstDocumentWithoutResponse(reqs[..i]).None?
    ensures FirstDocumentWithoutResponse(reqs) == Some(reqs[i].url)
  {
    if i > 0 {
      assert reqs[1..][..i - 1] == reqs[..i][1..];
      assert reqs[..i][0] == reqs[0];
      FirstMissingExtends(reqs[1..], i - 1);
    }
  }

  // ---------------------------------------------------------------------------
  // Properties of the analyser's result

  lemma {:induction false} TierLevels(lib: Library, reqs: seq<Request>, keywords: seq<string>, tier: int)
    requires tier == 1 ==> DocumentsHaveBodies(reqs)
    ensures forall e | e in TierEndpoints(lib, reqs, keywords, tier) :: e.priorityLevel == tier
  {
    TierEndpointsEmitted(lib, reqs, keywords, tier);
    forall e | e in TierEndpoints(lib, reqs, keywords, tier) ensures e.priorityLevel == tier {
      var req :| req in reqs && Emitted(e, req, keywords, tier) && Tier(req.resourceType) == tier;
    }
  }

  /** The priority levels of the analyser's endpoints lie in 1..4 and never
      decrease: the endpoints come in tier order. */
  lemma PriorityLevelsOrdered(lib: Library, reqs: seq<Request>, keywords: seq<string>)
    requires PrioritizedEndpoints(lib, reqs, keywords).Success?
    ensures var es := PrioritizedEndpoints(lib, reqs, keywords).value;
      forall i, j :: 0 <= i <= j < |es| ==> 1 <= es[i].priorityLevel <= es[j].priorityLevel <= 4
  {
    var t1, t2 := TierEndpoints(lib, reqs, keywords, 1), TierEndpoints(lib, reqs, keywords, 2);
    var t3, t4 := TierEndpoints(lib, reqs, keywords, 3), TierEndpoints(lib, reqs, keywords, 4);
    TierLevels(lib, reqs, keywords, 1);
    TierLevels(lib, reqs, keywords, 2);
    TierLevels(lib, reqs, keywords, 3);
    TierLevels(lib, reqs, keywords, 4);
    assert PrioritizedEndpoints(lib, reqs, keywords).value == t1 + t2 + t3 + t4;
    ConcatenatedLevelsOrdered(t1, t2, t3, t4);
  }

  /** Four lists whose endpoints carry the levels 1, 2, 3 and 4 concatenate to a
      list whose levels never decrease. */
  lemma ConcatenatedLevelsOrdered(t1: seq<ApiEndpoint>, t2: seq<ApiEndpoint>,
                                  t3: seq<ApiEndpoint>, t4: seq<ApiEndpoint>)
    requires forall e | e in t1 :: e.priorityLevel == 1
    requires forall e | e in t2 :: e.priorityLevel == 2
    requires forall e | e in t3 :: e.priorityLevel == 3
    requires forall e | e in t4 :: e.priorityLevel == 4
    ensures var es := t1 + t2 + t3 + t4;
      forall i, j :: 0 <= i <= j < |es| ==> 1 <= es[i].priorityLevel <= es[j].priorityLevel <= 4
  {
    var es := t1 + t2 + t3 + t4;
    forall i | 0 <= i < |es|
      ensures es[i].priorityLevel == if i < |t1| then 1 else if i < |t1| + |t2| then 2
                                     else if i < |t1| + |t2| + |t3| then 3 else 4
    {
      if i < |t1| { assert es[i] == t1[i]; }
      else if i < |t1| + |t2| { assert es[i] == t2[i - |t1|]; }
      else if i < |t1| + |t2| + |t3| { assert es[i] == t3[i - |t1| - |t2|]; }
      else { assert es[i] == t4[i - |t1| - |t2| - |t3|]; }
    }
  }

  /** Every endpoint of the analyser names a captured request whose tier is the
      endpoint's priority level, has matched at least one keyword (a subsequence
      of the keywords) and holds a sample of at most `SampleLimit` characters. */
  lemma EndpointsComeFromTheirTier(lib: Library, reqs: seq<Request>, keywords: seq<string>)
    requires PrioritizedEndpoints(lib, reqs, keywords).Success?
    ensures forall e | e in PrioritizedEndpoints(lib, reqs, keywords).value ::
      exists req | req in reqs :: Emitted(e, req, keywords, Tier(req.resourceType))
  {
    var t1, t2 := TierEndpoints(lib, reqs, keywords, 1), TierEndpoints(lib, reqs, keywords, 2);
    var t3, t4 := TierEndpoints(lib, reqs, keywords, 3), TierEndpoints(lib, reqs, keywords, 4);
    TierEndpointsEmitted(lib, reqs, keywords, 1);
    TierEndpointsEmitted(lib, reqs, keywords, 2);
    TierEndpointsEmitted(lib, reqs, keywords, 3);
    TierEndpointsEmitted(lib, reqs, keywords, 4);
    assert PrioritizedEndpoints(lib, reqs, keywords).value == t1 + t2 + t3 + t4;
  }
}
