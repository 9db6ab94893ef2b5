# WebAPI crawler analyzer: prioritised analysis and crawl guard

This project models the core of `WebAPICrawlerAnalyzer` in
`skills/webapi_crawler_analyzer/scripts/webapi_analyzer.py`. The analyzer loads
a page in a browser and records every request the page makes. It then searches
the responses for API endpoints whose data mentions keywords taken from a data
description. The model covers the logic in between and proves properties of it:

- Keyword extraction and the case-insensitive keyword matcher (module `Keywords`).
- The JSON content-type test, the endpoint record and its dictionary form
  (module `Requests`).
- The four-tier analyser (module `Priority`). Requests are taken by resource
  type: documents, then xhr/fetch, then scripts, then the rest. Each tier has its
  own extractor, and the endpoints found are concatenated in tier order.
- The crawl guard (module `Crawl`). An `Analyzer` class holds the set of crawled
  URLs. A page beyond the depth bound or already crawled is skipped; otherwise it
  is analysed and its same-domain links are collected for the next depth.
- The Python string operations the code relies on (module `Text`): `lower`,
  `\w`, `in` on strings, `strip`, the slices `s[:n]` and `s[2:-2]`, and decimal
  rendering of integers.

Library behaviour is given, not defined. The datatype `Requests.Library` has
one function field for each of these:

- `re.findall` for each of the six patterns the code uses;
- `json.loads`, which may fail, and `json.dumps(v, indent=2)`;
- `urljoin` and the `netloc` of `urlparse`.

The browser capture is a function parameter `capture` from a URL to the
captured request records.

Where the code differs from the tool's design description, the model follows
the code:

- There is no relevance score and no `{`/`}` bonus. The endpoints are not sorted
  by score; they stay in tier order.
- There is no pagination detection and no exclusion of login/admin/auth links.
- The xhr/fetch tier does not parse the body as JSON. It only checks the raw text
  for keywords, after the content-type test.
- The headers consulted are the request's headers (`request.all_headers()`).
- Tiers 1 and 3 match keywords against the first 500 characters of the
  re-serialised JSON, not against the whole fragment.
- `_crawl_and_analyze` does not recurse into the links it finds.

A document request without a response (status not 200, or no response) is not
filtered out of tier 1. `re.findall` then raises a `TypeError`, which only
`JSONDecodeError` handlers surround. The model makes this an explicit error
outcome, `Priority.DocumentWithoutResponse`. The URL has already been added to
the crawled set when it happens.

## Model

| member | source | states |
|---|---|---|
| Text.Lower | skills/webapi_crawler_analyzer/scripts/webapi_analyzer.py:53 | lower-casing keeps the length, turns every upper-case letter into its lower-case partner and changes no other character |
| Text.TokensAreWords | skills/webapi_crawler_analyzer/scripts/webapi_analyzer.py:53 | every token `\b\w+\b` finds is a non-empty string of word characters, each of which occurs in the text |
| Text.TokensOccur | skills/webapi_crawler_analyzer/scripts/webapi_analyzer.py:53 | every token occurs as a contiguous piece of the text with no word character just before or just after it |
| Text.TokensOfSpaced | skills/webapi_crawler_analyzer/scripts/webapi_analyzer.py:53 | words separated by spaces tokenise back to exactly those words, in order, repeats kept |
| Text.ContainsIff | skills/webapi_crawler_analyzer/scripts/webapi_analyzer.py:328 | `needle in hay` holds exactly when the needle occurs at some position of the hay |
| Text.StripSlice | skills/webapi_crawler_analyzer/scripts/webapi_analyzer.py:209 | `strip()` returns a slice with only white space outside it, neither starting nor ending with white space |
| Text.StripUnchanged | skills/webapi_crawler_analyzer/scripts/webapi_analyzer.py:209 | a string that neither starts nor ends with white space is left alone by `strip()` |
| Text.Prefix | skills/webapi_crawler_analyzer/scripts/webapi_analyzer.py:215 | `s[:n]` is a prefix of `s` of length `min(n, len(s))` |
| Text.Inner | skills/webapi_crawler_analyzer/scripts/webapi_analyzer.py:211 | `s[2:-2]` is what lies between the first two and the last two characters, and is empty below four characters |
| Keywords.LongTokensSubsequence | skills/webapi_crawler_analyzer/scripts/webapi_analyzer.py:54 | the kept tokens are the tokens with some left out, in their order |
| Keywords.LongTokensCounts | skills/webapi_crawler_analyzer/scripts/webapi_analyzer.py:54 | a token longer than two characters is kept as many times as it occurs, a shorter one never |
| Keywords.ExtractKeywords | skills/webapi_crawler_analyzer/scripts/webapi_analyzer.py:47-54 | every keyword is longer than two characters and made of lower-case word characters; the keywords are the tokens of the lower-cased description in order, each long token kept as often as it occurs and no short one kept |
| Keywords.ExtractKeywordsOfSpaced | skills/webapi_crawler_analyzer/scripts/webapi_analyzer.py:53-54 | for a description of lower-case words, the keywords are exactly its words longer than two characters, in order with repeats |
| Keywords.CheckKeywordsInContent | skills/webapi_crawler_analyzer/scripts/webapi_analyzer.py:320-331 | the loop returns the keywords the content mentions, ignoring case, in keyword order |
| Keywords.KeywordMatchesIff | skills/webapi_crawler_analyzer/scripts/webapi_analyzer.py:324-329 | a keyword is matched exactly when it is in the list and its lower-case form occurs in the lower-case content |
| Keywords.KeywordMatchesEmpty | skills/webapi_crawler_analyzer/scripts/webapi_analyzer.py:327-331 | nothing is matched exactly when no keyword is mentioned, so no keywords give no matches |
| Keywords.KeywordMatchesSubsequence | skills/webapi_crawler_analyzer/scripts/webapi_analyzer.py:327-331 | the matches are a subsequence of the keywords: their order is kept |
| Keywords.KeywordMatchesCounts | skills/webapi_crawler_analyzer/scripts/webapi_analyzer.py:327-331 | a mentioned keyword is matched as many times as it is listed, any other keyword never |
| Requests.IsJsonResponseCases | skills/webapi_crawler_analyzer/scripts/webapi_analyzer.py:333-339 | JSON exactly when `application/json` occurs in the lower-cased `content-type`; `Content-Type` only when `content-type` is absent; neither means not JSON |
| Requests.Tier | skills/webapi_crawler_analyzer/scripts/webapi_analyzer.py:160-183 | each resource type falls into exactly one of the four tiers: document 1, xhr/fetch 2, script 3, anything else 4 |
| Requests.ApiToDict | skills/webapi_crawler_analyzer/scripts/webapi_analyzer.py:370-381 | the dictionary has exactly the six field keys |
| Requests.ApiToDictRoundTrip | skills/webapi_crawler_analyzer/scripts/webapi_analyzer.py:370-381 | the endpoint can be read back unchanged from its dictionary |
| Requests.ApisToDicts | skills/webapi_crawler_analyzer/scripts/webapi_analyzer.py:96 | one dictionary per endpoint, in order, each reading back to its endpoint |
| Priority.CleanEmbeddedUncomments | skills/webapi_crawler_analyzer/scripts/webapi_analyzer.py:209-211 | a `/* ... */` wrapper around embedded JSON is removed and the inside stripped |
| Priority.MatchEndpoints | skills/webapi_crawler_analyzer/scripts/webapi_analyzer.py:207-231 | one match gives at most one endpoint, and none when it does not parse |
| Priority.MatchEndpointsCharacterised | skills/webapi_crawler_analyzer/scripts/webapi_analyzer.py:214-228 | a match that parses gives an endpoint exactly when the first 500 characters of its re-serialised form mention a keyword; that prefix is the sample, the keywords it mentions are the matched keywords, and the endpoint is a JSON one of the tier |
| Priority.ParseFailureSkipped | skills/webapi_crawler_analyzer/scripts/webapi_analyzer.py:229-231 | a match that fails to parse contributes nothing and the matches around it are still examined |
| Priority.UnparsableBodyGivesNothing | skills/webapi_crawler_analyzer/scripts/webapi_analyzer.py:204-233 | a body no match of which parses yields no endpoint and no failure |
| Priority.RuleEndpointsEmitted | skills/webapi_crawler_analyzer/scripts/webapi_analyzer.py:204-228 | every tier 1 or 3 endpoint names its request and tier, is a JSON endpoint whose sample is the re-serialised start of a parsable match of the tier's patterns, and whose matched keywords are exactly those the sample mentions |
| Priority.FindEmbeddedJsonInHtml | skills/webapi_crawler_analyzer/scripts/webapi_analyzer.py:190-233 | the nested loops return, pattern by pattern and match by match, the endpoints of the parsable matches that mention a keyword |
| Priority.AnalyzeJsForJson | skills/webapi_crawler_analyzer/scripts/webapi_analyzer.py:257-295 | as the document extractor, with the two `JSON.parse` patterns, plain stripping and level 3 |
| Priority.TextEndpoints | skills/webapi_crawler_analyzer/scripts/webapi_analyzer.py:243-253 | at most one endpoint, exactly when the whole response mentions a keyword, with all matched keywords and the first 500 characters |
| Priority.AnalyzeJsonResponse | skills/webapi_crawler_analyzer/scripts/webapi_analyzer.py:235-255 | the tier 2 extractor yields the text endpoint with content type `application/json` and level 2 |
| Priority.AnalyzeTextResponse | skills/webapi_crawler_analyzer/scripts/webapi_analyzer.py:297-318 | the tier 4 extractor yields the text endpoint with the `content-type` header, else `text/plain`, and level 4 |
| Priority.FirstDocumentWithoutResponse | skills/webapi_crawler_analyzer/scripts/webapi_analyzer.py:160-162 | finds a URL exactly when some document request has no response, and that URL is such a document's |
| Priority.AnalyzeDocuments | skills/webapi_crawler_analyzer/scripts/webapi_analyzer.py:159-163 | tier 1 fails at the first document without a response, else returns every document's embedded-JSON endpoints in request order |
| Priority.AnalyzeApiResponses | skills/webapi_crawler_analyzer/scripts/webapi_analyzer.py:165-171 | tier 2 returns the endpoints of the xhr/fetch requests with a body and a JSON content type, in request order |
| Priority.AnalyzeScripts | skills/webapi_crawler_analyzer/scripts/webapi_analyzer.py:173-178 | tier 3 returns the endpoints of the scripts with a body, in request order |
| Priority.AnalyzeOtherResources | skills/webapi_crawler_analyzer/scripts/webapi_analyzer.py:180-186 | tier 4 returns the endpoints of every other request with a body, in request order |
| Priority.AnalyzeRequestsByPriority | skills/webapi_crawler_analyzer/scripts/webapi_analyzer.py:153-188 | the result is the document failure, or the four tiers' endpoints concatenated in tier order |
| Priority.TierEndpointsEmitted | skills/webapi_crawler_analyzer/scripts/webapi_analyzer.py:160-186 | every endpoint of a tier comes from a captured request of that tier and satisfies the emission conditions |
| Priority.PriorityLevelsOrdered | skills/webapi_crawler_analyzer/scripts/webapi_analyzer.py:160-188 | the priority levels of the result lie in 1..4 and never decrease |
| Priority.EndpointsComeFromTheirTier | skills/webapi_crawler_analyzer/scripts/webapi_analyzer.py:225-251 | every endpoint of the result names a captured request whose tier is its level, with at least one matched keyword and a sample of at most 500 characters |
| Crawl.SameDomainLinksIff | skills/webapi_crawler_analyzer/scripts/webapi_analyzer.py:359-366 | a link is kept exactly when it is an href resolved against the page URL and it lies on the base domain |
| Crawl.PageLinksIff | skills/webapi_crawler_analyzer/scripts/webapi_analyzer.py:349-366 | a link is found exactly when some document with a body yields it |
| Crawl.PageLinksAreSameDomain | skills/webapi_crawler_analyzer/scripts/webapi_analyzer.py:345-366 | every link has the base URL's netloc and is an href of a document resolved against its URL; every such href is found |
| Crawl.SetToSeq | skills/webapi_crawler_analyzer/scripts/webapi_analyzer.py:368 | `list(links)` holds every element of the set exactly once |
| Crawl.ExtractLinksForNextDepth | skills/webapi_crawler_analyzer/scripts/webapi_analyzer.py:341-368 | the nested loops return exactly the same-domain links of the documents, without duplicates |
| Crawl.SkippedResult | skills/webapi_crawler_analyzer/scripts/webapi_analyzer.py:60-66 | a skipped page has no endpoints, no links, no confirmation and the "Reached max depth" summary |
| Crawl.AnalysisSummary | skills/webapi_crawler_analyzer/scripts/webapi_analyzer.py:86-93 | the summary names the endpoint count and the link count when they are non-zero, joined by ". ", and is "No significant findings" exactly when both are zero |
| Crawl.ConfirmationAsWrittenIsTheLinkList | skills/webapi_crawler_analyzer/scripts/webapi_analyzer.py:80-84 | when all three conditions hold, `requires_confirmation` is the link list itself, not a boolean |
| Crawl.RequiresConfirmation | skills/webapi_crawler_analyzer/scripts/webapi_analyzer.py:80-84 | the flag is the truthiness of that value: confirmation per depth, more depth left and at least one link |
| Crawl.Analyzer.constructor | skills/webapi_crawler_analyzer/scripts/webapi_analyzer.py:29-32 | a new analyzer has the given depth bound and confirmation setting (defaults 1 and true) and has crawled nothing |
| Crawl.Analyzer.CrawlAndAnalyze | skills/webapi_crawler_analyzer/scripts/webapi_analyzer.py:56-102 | beyond the depth bound or for a crawled URL, the skipped result and no change; otherwise the URL is added, the tier failure is passed on, or the result holds the endpoints' dictionaries, the first ten links, the confirmation flag and the summary over all links |
| Crawl.RevisitIsSkipped | skills/webapi_crawler_analyzer/scripts/webapi_analyzer.py:60-68 | for any analyzer state, a page visited within the depth bound is added to the crawled set; a second visit at any depth is skipped and leaves that set unchanged |

## Left out

- `_capture_network_requests` (lines 104-151): it drives a browser through
  callbacks and timeouts. It is the `capture` parameter, one fixed list of
  request records per URL. The model does not capture that two captures of one
  URL may differ.
- `analyze`, `main` and `asyncio.run`: plumbing, and printing the result.
- The regular-expression engine, `json.loads`, `json.dumps` and `urllib.parse`.
  They are the fields of `Requests.Library`, so no property here depends on what
  they do. A `json.loads` failure other than `JSONDecodeError` is not modelled.
- The unused `visited_domains` field and the unused `nltk` import.
- Text.Lower: only ASCII letters are lower-cased, unlike Python's full Unicode
  `str.lower`.
- Text.IsWordChar: `\w` is the ASCII class; Python's `\w` also accepts other
  Unicode letters and digits.
- The filtering comprehensions of lines 160, 166, 174, 181 and 349: each tier's
  loop tests the comprehension's condition itself instead of first building the
  filtered list. The order and the result are the same.
- `analyzed_apis` is gathered tier by tier, by one method per tier that the
  top-level method calls in order. The source does it in one function with four
  loops.
- Crawl.ExtractLinksForNextDepth: the order of `list(links)` is left open, as
  Python leaves it.
- Crawl.RequiresConfirmation: the result holds the flag's truthiness, not the
  link list the source stores there (see Findings).

## Findings

| source | as written | input that shows it | evidently intended | confidence | as-written member | corrected member |
|---|---|---|---|---|---|---|
| skills/webapi_crawler_analyzer/scripts/webapi_analyzer.py:80-84 | `requires_user_confirmation` gets the whole link list when all three conditions hold, because Python's `and` returns its last operand | `confirm_each_depth=True`, `depth=0`, `max_depth=2`, one same-domain link: the entry is that one-element list | a boolean flag | medium, not executed | Crawl.ConfirmationAsWrittenIsTheLinkList | Crawl.RequiresConfirmation |
