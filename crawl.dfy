/**
  The crawl guard: the links a page offers for the next depth, the analyser
  object with its set of crawled URLs, and the result of analysing one page.
*/
module Crawl {
  import opened Wrappers
  import opened Text
  import opened Requests
  import opened Priority

  // ---------------------------------------------------------------------------
  // Links for the next depth

  /** The requests whose responses are searched for links: documents with a
      non-empty response. */
  predicate IsLinkSource(req: Request)
  {
    req.resourceType == "document" && HasBody(req)
  }

  /** The hrefs of a page resolved against the page's URL, kept when they lie on
      `domain`. */
  function SameDomainLinks(lib: Library, pageUrl: string, hrefs: seq<string>, domain: string): set<string>
    decreases |hrefs|
  {
    if hrefs == [] then {}
    else
      var fullUrl := lib.urljoin(pageUrl, hrefs[|hrefs| - 1]);
      SameDomainLinks(lib, pageUrl, hrefs[..|hrefs| - 1], domain)
        + (if lib.netloc(fullUrl) == domain then {fullUrl} else {})
  }

  /** The same-domain links of one request. */
  function RequestLinks(lib: Library, req: Request, domain: string): set<string>
    requires req.response.Some?
  {
    SameDomainLinks(lib, req.url, lib.findAll(AnchorHref, req.response.value), domain)
  }

  /** The same-domain links of all link sources among the requests. */
  function PageLinks(lib: Library, reqs: seq<Request>, domain: string): set<string>
    decreases |reqs|
  {
    if reqs == [] then {}
    else
      var last := reqs[|reqs| - 1];
      PageLinks(lib, reqs[..|reqs| - 1], domain)
        + (if IsLinkSource(last) then RequestLinks(lib, last, domain) else {})
  }

  /** A link is kept exactly when it is one of the hrefs resolved against the
      page's URL and it lies on the domain. */
  lemma {:induction false} SameDomainLinksIff(lib: Library, pageUrl: string, hrefs: seq<string>,
                                              domain: string, link: string)
    ensures link in SameDomainLinks(lib, pageUrl, hrefs, domain) <==>
      lib.netloc(link) == domain && exists k :: 0 <= k < |hrefs| && link == lib.urljoin(pageUrl, hrefs[k])
    decreases |hrefs|
  {
    if hrefs != [] {
      var init := hrefs[..|hrefs| - 1];
      SameDomainLinksIff(lib, pageUrl, init, domain, link);
      assert forall k :: 0 <= k < |init| ==> init[k] == hrefs[k];
      if lib.netloc(link) == domain && exists k :: 0 <= k < |hrefs| && link == lib.urljoin(pageUrl, hrefs[k]) {
        var k :| 0 <= k < |hrefs| && link == lib.urljoin(pageUrl, hrefs[k]);
        if k < |init| {
          assert link == lib.urljoin(pageUrl, init[k]);
        }
      }
    }
  }

  /** A link is found exactly when some link source among the requests yields it. */
  lemma {:induction false} PageLinksIff(lib: Library, reqs: seq<Request>, domain: string, link: string)
    ensures link in PageLinks(lib, reqs, domain) <==>
      exists i :: 0 <= i < |reqs| && IsLinkSource(reqs[i]) && link in RequestLinks(lib, reqs[i], domain)
    decreases |reqs|
  {
    if reqs != [] {
      var init := reqs[..|reqs| - 1];
      PageLinksIff(lib, init, domain, link);
      assert forall i :: 0 <= i < |init| ==> init[i] == reqs[i];
      if exists i :: 0 <= i < |reqs| && IsLinkSource(reqs[i]) && link in RequestLinks(lib, reqs[i], domain) {
        var i :| 0 <= i < |reqs| && IsLinkSource(reqs[i]) && link in RequestLinks(lib, reqs[i], domain);
        if i < |init| {
          assert IsLinkSource(init[i]) && link in RequestLinks(lib, init[i], domain);
        }
      }
    }
  }

  /** Every link found lies on the domain and is an href of some document
      resolved against that document's URL; conversely every such href is found. */
  lemma PageLinksAreSameDomain(lib: Library, reqs: seq<Request>, domain: string, link: string)
    ensures link in PageLinks(lib, reqs, domain) <==>
      && lib.netloc(link) == domain
      && exists i, k :: 0 <= i < |reqs| && IsLinkSource(reqs[i])
           && 0 <= k < |lib.findAll(AnchorHref, reqs[i].response.value)|
           && link == lib.urljoin(reqs[i].url, lib.findAll(AnchorHref, reqs[i].response.value)[k])
  {
    PageLinksIff(lib, reqs, domain, link);
    forall i | 0 <= i < |reqs| && IsLinkSource(reqs[i]) {
      SameDomainLinksIff(lib, reqs[i].url, lib.findAll(AnchorHref, reqs[i].response.value), domain, link);
    }
  }

  /** `list(s)`: the elements of a set, each once, in an order the set chooses. */
  method SetToSeq(s: set<string>) returns (xs: seq<string>)
    ensures forall x :: x in xs <==> x in s
    ensures forall i, j :: 0 <= i < j < |xs| ==> xs[i] != xs[j]
    ensures |xs| == |s|
  {
    xs := [];
    var rest := s;
    while rest != {}
      invariant rest <= s
      invariant forall x :: x in xs <==> x in s && x !in rest
      invariant forall i, j :: 0 <= i < j < |xs| ==> xs[i] != xs[j]
      invariant |xs| + |rest| == |s|
      decreases |rest|
    {
      var x :| x in rest;
      xs := xs + [x];
      rest := rest - {x};
    }
  }

  /** `_extract_links_for_next_depth`: the same-domain links of every document,
      each once. */
  method ExtractLinksForNextDepth(lib: Library, requestsData: seq<Request>, baseUrl: string)
    returns (result: seq<string>)
    ensures forall l :: l in result <==> l in PageLinks(lib, requestsData, lib.netloc(baseUrl))
    ensures forall i, j :: 0 <= i < j < |result| ==> result[i] != result[j]
    ensures |result| == |PageLinks(lib, requestsData, lib.netloc(baseUrl))|
  {
    var links: set<string> := {};
    var baseDomain := lib.netloc(baseUrl);
    for i := 0 to |requestsData|
      invariant links == PageLinks(lib, requestsData[..i], baseDomain)
    {
      var req := requestsData[i];
      assert requestsData[..i + 1][..i] == requestsData[..i];
      if req.resourceType == "document" && HasBody(req) {
        var responseText := req.response.value;
        var hrefMatches := lib.findAll(AnchorHref, responseText);
        ghost var before := links;
        for k := 0 to |hrefMatches|
          invariant links == before + SameDomainLinks(lib, req.url, hrefMatches[..k], baseDomain)
        {
          var href := hrefMatches[k];
          assert hrefMatches[..k + 1][..k] == hrefMatches[..k];
          var fullUrl := lib.urljoin(req.url, href);
          var linkDomain := lib.netloc(fullUrl);
          if linkDomain == baseDomain {
            links := links + {fullUrl};
          }
        }
        assert hrefMatches[..|hrefMatches|] == hrefMatches;
      }
    }
    assert requestsData[..|requestsData|] == requestsData;
    result := SetToSeq(links);
  }

  // ---------------------------------------------------------------------------
  // The result of one page

  /** The dictionary `_crawl_and_analyze` returns. */
  datatype CrawlResult = CrawlResult(
    analyzedApis: seq<map<string, DictValue>>,
    nextDepthLinks: seq<string>,
    requiresUserConfirmation: bool,
    analysisSummary: string)

  /** The number of links shown in a result. */
  const DisplayedLinks: nat := 10

  /** The result for a page that is not analysed. */
  function SkippedResult(maxDepth: int): (r: CrawlResult)
    ensures r.analyzedApis == [] && r.nextDepthLinks == [] && !r.requiresUserConfirmation
    ensures StartsWith(r.analysisSummary, "Reached max depth (")
  {
    CrawlResult([], [], false,
                "Reached max depth (" + IntToString(maxDepth) + ") or already crawled")
  }

  /** `sep.join(parts)`. */
  function Join(sep: string, parts: seq<string>): string
    decreases |parts|
  {
    if parts == [] then ""
    else if |parts| == 1 then parts[0]
    else parts[0] + sep + Join(sep, parts[1..])
  }

  function FoundPart(apiCount: nat): string
  {
    "Found " + NatToString(apiCount) + " API endpoints"
  }

  function DiscoveredPart(linkCount: nat): string
  {
    "Discovered " + NatToString(linkCount) + " links for next depth"
  }

  /** The summary sentence: the count of endpoints when there are any, the count
      of links when there are any, joined by ". ", or a fixed sentence when there
      is neither. */
  function AnalysisSummary(apiCount: nat, linkCount: nat): (s: string)
    ensures s == "No significant findings" <==> apiCount == 0 && linkCount == 0
    ensures apiCount > 0 && linkCount > 0 ==> s == FoundPart(apiCount) + ". " + DiscoveredPart(linkCount)
    ensures apiCount > 0 && linkCount == 0 ==> s == FoundPart(apiCount)
    ensures apiCount == 0 && linkCount > 0 ==> s == DiscoveredPart(linkCount)
  {
    var summaryParts :=
      (if apiCount > 0 then [FoundPart(apiCount)] else [])
      + (if linkCount > 0 then [DiscoveredPart(linkCount)] else []);
    var joined := Join(". ", summaryParts);
    assert apiCount > 0 && linkCount > 0 ==>
      && summaryParts == [FoundPart(apiCount), DiscoveredPart(linkCount)]
      && summaryParts[1..] == [DiscoveredPart(linkCount)]
      && Join(". ", summaryParts[1..]) == DiscoveredPart(linkCount)
      && joined == FoundPart(apiCount) + ". " + DiscoveredPart(linkCount);
    assert apiCount > 0 ==> joined[0] == 'F';
    assert apiCount == 0 && linkCount > 0 ==> joined[0] == 'D';
    if joined == "" then "No significant findings" else joined
  }

  /** The value of the `requires_user_confirmation` entry as a Python value. */
  datatype PyValue = PyBool(b: bool) | PyList(items: seq<string>)

  predicate Truthy(v: PyValue)
  {
    match v
    case PyBool(b) => b
    case PyList(items) => items != []
  }

  /** `confirm_each_depth and depth + 1 < max_depth and next_depth_links`, as
      Python evaluates it: the first falsy operand, else the last one. */
  function ConfirmationAsWritten(confirmEachDepth: bool, depth: int, maxDepth: int, links: seq<string>): PyValue
  {
    if !confirmEachDepth then PyBool(false)
    else if !(depth + 1 < maxDepth) then PyBool(false)
    else PyList(links)
  }

  /** When all three conditions hold, the entry holds the whole link list, not a
      flag. */
  lemma ConfirmationAsWrittenIsTheLinkList()
    ensures ConfirmationAsWritten(true, 0, 2, ["https://shop.example/a"]) == PyList(["https://shop.example/a"])
    ensures !ConfirmationAsWritten(true, 0, 2, ["https://shop.example/a"]).PyBool?
  {
  }

  /** Whether the user must confirm before the next depth: exactly when the value
      the source computes is truthy, which needs a non-empty link list. */
  function RequiresConfirmation(confirmEachDepth: bool, depth: int, maxDepth: int, links: seq<string>)
    : (b: bool)
    ensures b == Truthy(ConfirmationAsWritten(confirmEachDepth, depth, maxDepth, links))
    ensures b ==> confirmEachDepth && depth + 1 < maxDepth && links != []
  {
    confirmEachDepth && depth + 1 < maxDepth && |links| > 0
  }

  /** `found` lists the same-domain links of the requests captured for the page at
      `url`, each once. */
  ghost predicate ListsPageLinks(found: seq<string>, lib: Library, reqs: seq<Request>, url: string)
  {
    && (forall l :: l in found <==> l in PageLinks(lib, reqs, lib.netloc(url)))
    && (forall i, j :: 0 <= i < j < |found| ==> found[i] != found[j])
  }

  /** What the analysis of one page yields, given the endpoints and the links
      found on it. */
  ghost predicate AnalysedPage(r: CrawlResult, apis: seq<ApiEndpoint>, found: seq<string>,
                               depth: int, maxDepth: int, confirmEachDepth: bool)
  {
    && r.analyzedApis == ApisToDicts(apis)
    && r.nextDepthLinks == Prefix(found, DisplayedLinks)
    && r.requiresUserConfirmation == RequiresConfirmation(confirmEachDepth, depth, maxDepth, found)
    && r.analysisSummary == AnalysisSummary(|apis|, |found|)
  }

  /** The analyser, with the URLs it has crawled so far. */
  class Analyzer {
    const maxDepth: int
    const confirmEachDepth: bool
    var crawledUrls: set<string>

    constructor (maxDepth: int := 1, confirmEachDepth: bool := true)
      ensures this.maxDepth == maxDepth && this.confirmEachDepth == confirmEachDepth
      ensures crawledUrls == {}
    {
      this.maxDepth := maxDepth;
      this.confirmEachDepth := confirmEachDepth;
      crawledUrls := {};
    }

    /** Whether a page is analysed at this depth. */
    predicate Admits(url: string, depth: int)
      reads this
    {
      depth < maxDepth && url !in crawledUrls
    }

    /** `_crawl_and_analyze`: a page beyond the depth bound or already crawled is
        skipped and nothing changes; otherwise its URL is recorded as crawled, the
        captured requests are analysed by priority and the links for the next
        depth are collected. `capture` stands for the browser capture of a page. */
    method CrawlAndAnalyze(lib: Library, capture: string -> seq<Request>, url: string,
                           keywords: seq<string>, depth: int)
      returns (r: Result<CrawlResult, AnalysisError>)
      modifies this
      ensures !old(Admits(url, depth)) ==>
        crawledUrls == old(crawledUrls) && r == Success(SkippedResult(maxDepth))
      ensures old(Admits(url, depth)) ==> crawledUrls == old(crawledUrls) + {url}
      ensures old(Admits(url, depth)) ==>
        match PrioritizedEndpoints(lib, capture(url), keywords)
        case Failure(e) => r == Failure(e)
        case Success(apis) => r.Success? && exists found: seq<string> ::
          && ListsPageLinks(found, lib, capture(url), url)
          && AnalysedPage(r.value, apis, found, depth, maxDepth, confirmEachDepth)
    {
      if depth >= maxDepth || url in crawledUrls {
        return Success(SkippedResult(maxDepth));
      }
      crawledUrls := crawledUrls + {url};
      var requestsData := capture(url);
      var analyzed := AnalyzeRequestsByPriority(lib, requestsData, keywords);
      if analyzed.Failure? {
        return Failure(analyzed.error);
      }
      var analyzedApis := analyzed.value;
      var nextDepthLinks := ExtractLinksForNextDepth(lib, requestsData, url);
      var requiresConfirmation := RequiresConfirmation(confirmEachDepth, depth, maxDepth, nextDepthLinks);
      var analysisSummary := AnalysisSummary(|analyzedApis|, |nextDepthLinks|);
      r := Success(CrawlResult(ApisToDicts(analyzedApis), Prefix(nextDepthLinks, DisplayedLinks),
                               requiresConfirmation, analysisSummary));
      assert ListsPageLinks(nextDepthLinks, lib, requestsData, url);
      assert AnalysedPage(r.value, analyzedApis, nextDepthLinks, depth, maxDepth, confirmEachDepth);
    }
  }

  /** Whatever the analyzer has crawled before, a page analysed within the depth
      bound is recorded as crawled, and when it comes up again, at any depth, it
      is skipped and the crawled set stays as the first visit left it. */
  method RevisitIsSkipped(a: Analyzer, lib: Library, capture: string -> seq<Request>, url: string,
                          keywords: seq<string>, depth: int, laterDepth: int)
    returns (first: Result<CrawlResult, AnalysisError>, second: Result<CrawlResult, AnalysisError>,
             ghost crawledAfterFirst: set<string>)
    requires depth < a.maxDepth
    modifies a
    ensures crawledAfterFirst == old(a.crawledUrls) + {url}
    ensures a.crawledUrls == crawledAfterFirst
    ensures second == Success(SkippedResult(a.maxDepth))
  {
    first := a.CrawlAndAnalyze(lib, capture, url, keywords, depth);
    crawledAfterFirst := a.crawledUrls;
    second := a.CrawlAndAnalyze(lib, capture, url, keywords, laterDepth);
  }
}
