/**
 * The scraping tools of tools/service.py: per-URL pipelines that fetch a page, optionally narrow
 * it with a CSS selector, transform it, clean its metadata and record one metrics entry, never
 * letting an exception escape; and batch aggregators over lists of URLs.
 *
 * The provider (`provider.scrape(url, timeout=..., max_retries=...)` with the batch's timeout and
 * retry budget), the selector filter, the HTML converters and the parser are parameters.
 */
module ToolsService {
  import opened Common
  import opened Models
  import Utils
  import Metrics
  import RequestsProvider

  /** The ten keys a cleaned metadata dict may hold. */
  const CleanKeys: set<string> := {
    "headers", "elapsed_ms", "attempts", "retries", "from_cache", "proxy_used",
    "proxy_config", "css_selector_applied", "elements_matched", "page_metadata"}

  /** `clean_metadata`: keeps only the fields that say something. */
  function CleanMetadata(m: Metadata, cssSelector: Option<string>, elementsMatched: Option<int>): (r: Metadata)
    ensures r.elapsedMs == m.elapsedMs && r.headers == m.headers && r.pageMetadata == m.pageMetadata
    ensures r.attempts.Some? <==> m.attempts.Some? && m.attempts.value > 1
    ensures r.attempts.Some? ==> r.attempts == m.attempts
    ensures r.retries.Some? <==> m.retries.Some? && m.retries.value > 0
    ensures r.retries.Some? ==> r.retries == m.retries
    ensures r.fromCache.Some? <==> m.fromCache == Some(true)
    ensures r.fromCache.Some? ==> r.fromCache == Some(true)
    ensures r.proxyUsed.Some? <==> m.proxyUsed == Some(true)
    ensures r.proxyUsed.Some? ==> r.proxyUsed == Some(true)
    ensures r.proxyConfig.Some? <==> m.proxyUsed == Some(true) && m.proxyConfig.Some?
    ensures r.proxyConfig.Some? ==> r.proxyConfig == m.proxyConfig
    ensures r.cssSelectorApplied.Some? <==> Truthy(cssSelector)
    ensures r.cssSelectorApplied.Some? ==> r.cssSelectorApplied == cssSelector
    ensures r.elementsMatched.Some? <==> Truthy(cssSelector) && elementsMatched.Some?
    ensures r.elementsMatched.Some? ==> r.elementsMatched == elementsMatched
    ensures r.encoding.None? && r.cacheExpires.None?
  {
    var proxyUsed := m.proxyUsed == Some(true);
    EmptyMetadata.(
      elapsedMs := m.elapsedMs,
      attempts := if m.attempts.Some? && m.attempts.value > 1 then m.attempts else None,
      retries := if m.retries.Some? && m.retries.value > 0 then m.retries else None,
      fromCache := if m.fromCache == Some(true) then Some(true) else None,
      proxyUsed := if proxyUsed then Some(true) else None,
      proxyConfig := if proxyUsed then m.proxyConfig else None,
      cssSelectorApplied := if Truthy(cssSelector) then cssSelector else None,
      elementsMatched := if Truthy(cssSelector) then elementsMatched else None,
      pageMetadata := m.pageMetadata,
      headers := m.headers)
  }

  /** A cleaned dict only ever holds the ten keys: `encoding` and `cache_expires` are always dropped. */
  lemma CleanedKeysBounded(m: Metadata, cssSelector: Option<string>, elementsMatched: Option<int>)
    ensures Keys(CleanMetadata(m, cssSelector, elementsMatched)) <= CleanKeys
    ensures "encoding" !in Keys(CleanMetadata(m, cssSelector, elementsMatched))
    ensures "cache_expires" !in Keys(CleanMetadata(m, cssSelector, elementsMatched))
  {
    NoDroppedKeys(CleanMetadata(m, cssSelector, elementsMatched));
  }

  /** A dict without `encoding` and `cache_expires` holds only keys among the ten. */
  lemma NoDroppedKeys(r: Metadata)
    requires r.encoding.None? && r.cacheExpires.None?
    ensures Keys(r) <= CleanKeys && "encoding" !in Keys(r) && "cache_expires" !in Keys(r)
  {
    assert "encoding"[0] != "attempts"[0] && "cache_expires"[0] != "page_metadata"[0];
  }

  /** Cleaning a cleaned dict again with the same selector arguments changes nothing. */
  lemma CleanIdempotent(m: Metadata, cssSelector: Option<string>, elementsMatched: Option<int>)
    ensures var once := CleanMetadata(m, cssSelector, elementsMatched);
      CleanMetadata(once, cssSelector, elementsMatched) == once
  {
  }

  /**
   * On the provider's own metadata, `attempts` and `retries` survive exactly when the fetch
   * needed a retry, `from_cache` exactly when the response came from the cache, and the cache
   * expiry never does.
   */
  lemma CleanProviderMetadata(resp: RequestsProvider.Response, attempt: nat, cssSelector: Option<string>)
    ensures var c := CleanMetadata(RequestsProvider.BuildResult(resp, attempt).metadata, cssSelector, None);
      && (c.attempts.Some? <==> attempt > 0)
      && (c.retries.Some? <==> attempt > 0)
      && (c.fromCache.Some? <==> resp.fromCache == Some(true))
      && c.cacheExpires.None? && c.proxyUsed.None? && c.elementsMatched.None?
      && c.headers == Some(resp.headers)
  {
  }

  /** The dict without `"headers"` unless they were asked for. */
  function DropHeaders(m: Metadata, includeHeaders: bool): (r: Metadata)
    ensures r.headers.Some? <==> includeHeaders && m.headers.Some?
    ensures r.(headers := m.headers) == m
  {
    if includeHeaders then m else m.(headers := None)
  }

  /** `metadata.get("attempts", 1)`. */
  function AttemptsOr1(attempts: Option<int>): (n: int)
    ensures attempts.Some? ==> n == attempts.value
    ensures attempts.None? ==> n == 1
  {
    if attempts.Some? then attempts.value else 1
  }

  /** `f"{type(e).__name__}: {str(e)}"`. */
  function ErrorString(e: Exception): (s: string)
    ensures |s| == |e.name| + 2 + |e.message|
    ensures s[..|e.name|] == e.name && s[|e.name|..|e.name| + 2] == ": " && s[|e.name| + 2..] == e.message
  {
    e.name + ": " + e.message
  }

  /** The selector step: the content narrowed by `filter_html_by_selector` when a non-empty selector is given. */
  function ApplySelector(content: string, cssSelector: Option<string>,
                         filter: (string, string) -> Result<(string, nat), Exception>): (r: Result<(string, Option<int>), Exception>)
    ensures !Truthy(cssSelector) ==> r == Ok((content, None))
    ensures Truthy(cssSelector) ==> (r.Ok? <==> filter(content, cssSelector.value).Ok?)
    ensures Truthy(cssSelector) && r.Ok? ==>
      r.value == (filter(content, cssSelector.value).value.0, Some(filter(content, cssSelector.value).value.1))
    ensures r.Err? ==> Truthy(cssSelector) && r.error == filter(content, cssSelector.value).error
  {
    if Truthy(cssSelector) then
      match filter(content, cssSelector.value)
      case Ok((filtered, count)) => Ok((filtered, Some(count)))
      case Err(e) => Err(e)
    else Ok((content, None))
  }

  /** One URL's result item together with the metrics entry recorded for it. */
  datatype Handled<D> = Handled(item: ResultItem<D>, record: Metrics.RequestMetrics)

  /** What a successful URL reports to the metrics besides its URL. */
  datatype Recorded = Recorded(statusCode: int, elapsedMs: Option<int>, attempts: int)

  /**
   * The `try`/`except` of every per-URL function: a successful outcome becomes a successful
   * item, an exception becomes a failed item and a failure entry carrying the same error string.
   */
  function Safe<D>(url: string, outcome: Result<(D, Recorded), Exception>): (h: Handled<D>)
    ensures h.item.url == url
    ensures h.item.success <==> outcome.Ok?
    ensures h.item.success <==> h.item.data.Some?
    ensures h.item.success <==> h.item.error.None?
    ensures h.record.success == h.item.success && h.record.error == h.item.error
    ensures outcome.Ok? ==>
      h.item.data == Some(outcome.value.0) &&
      h.record == Metrics.RequestMetrics(url, true, Some(outcome.value.1.statusCode), outcome.value.1.elapsedMs,
                                         outcome.value.1.attempts, None)
    ensures outcome.Err? ==>
      h.item.error == Some(ErrorString(outcome.error)) &&
      h.record == Metrics.RequestMetrics(url, false, None, None, 1, Some(ErrorString(outcome.error)))
  {
    match outcome
    case Ok((data, rec)) =>
      Handled(ResultItem(url, true, Some(data), None),
              Metrics.RequestMetrics(url, true, Some(rec.statusCode), rec.elapsedMs, rec.attempts, None))
    case Err(e) =>
      var msg := ErrorString(e);
      Handled(ResultItem(url, false, None, Some(msg)), Metrics.RequestMetrics(url, false, None, None, 1, Some(msg)))
  }

  /** The body of `scrape_single_url_safe`'s `try`: filter, drop headers, clean. */
  function RawOutcome(url: string, fetched: Result<ScrapeResult, Exception>, cssSelector: Option<string>,
                      includeHeaders: bool, filter: (string, string) -> Result<(string, nat), Exception>)
    : Result<(ScrapeResponse, Recorded), Exception>
  {
    match fetched
    case Err(e) => Err(e)
    case Ok(result) =>
      match ApplySelector(result.content, cssSelector, filter)
      case Err(e) => Err(e)
      case Ok((content, matched)) =>
        var metadata := DropHeaders(result.metadata, includeHeaders);
        Ok((ScrapeResponse(content, result.statusCode, result.contentType, CleanMetadata(metadata, cssSelector, matched)),
            Recorded(result.statusCode, metadata.elapsedMs, AttemptsOr1(metadata.attempts))))
  }

  /** `scrape_single_url_safe` as a value: the item returned and the entry recorded. */
  function ScrapeItem(url: string, fetched: Result<ScrapeResult, Exception>,
                      filter: (string, string) -> Result<(string, nat), Exception>,
                      cssSelector: Option<string>, includeHeaders: bool): Handled<ScrapeResponse>
  {
    Safe(url, RawOutcome(url, fetched, cssSelector, includeHeaders, filter))
  }

  /**
   * The body of the markdown and text functions' `try`: filter, convert, add the page's
   * metadata to a copy of the provider's dict, drop headers, clean.
   */
  function ConvertedOutcome(url: string, fetched: Result<ScrapeResult, Exception>, cssSelector: Option<string>,
                            includeHeaders: bool, filter: (string, string) -> Result<(string, nat), Exception>,
                            transform: string -> Result<string, Exception>, parse: string -> Utils.ParsedPage)
    : Result<(ScrapeResponse, Recorded), Exception>
  {
    match fetched
    case Err(e) => Err(e)
    case Ok(result) =>
      match ApplySelector(result.content, cssSelector, filter)
      case Err(e) => Err(e)
      case Ok((content, matched)) =>
        match transform(content)
        case Err(e) => Err(e)
        case Ok(converted) =>
          var merged := result.metadata.(pageMetadata := Some(Utils.PageMetadata(parse(content))));
          var metadata := CleanMetadata(DropHeaders(merged, includeHeaders), cssSelector, matched);
          Ok((ScrapeResponse(converted, result.statusCode, result.contentType, metadata),
              Recorded(result.statusCode, metadata.elapsedMs, AttemptsOr1(metadata.attempts))))
  }

  /** `scrape_single_url_markdown_safe` as a value. */
  function MarkdownItem(url: string, fetched: Result<ScrapeResult, Exception>,
                        filter: (string, string) -> Result<(string, nat), Exception>,
                        stripTags: Option<seq<string>>, convert: (string, seq<string>) -> Result<string, Exception>,
                        parse: string -> Utils.ParsedPage, cssSelector: Option<string>, includeHeaders: bool)
    : Handled<ScrapeResponse>
  {
    Safe(url, ConvertedOutcome(url, fetched, cssSelector, includeHeaders, filter,
                               c => Utils.HtmlToMarkdown(c, stripTags, convert), parse))
  }

  /** `scrape_single_url_text_safe` as a value. */
  function TextItem(url: string, fetched: Result<ScrapeResult, Exception>,
                    filter: (string, string) -> Result<(string, nat), Exception>,
                    stripTags: Option<seq<string>>, getText: (string, seq<string>) -> Result<string, Exception>,
                    parse: string -> Utils.ParsedPage, cssSelector: Option<string>, includeHeaders: bool)
    : Handled<ScrapeResponse>
  {
    Safe(url, ConvertedOutcome(url, fetched, cssSelector, includeHeaders, filter,
                               c => Utils.HtmlToText(c, stripTags, getText), parse))
  }

  /** The body of `extract_links_single_safe`'s `try`: filter, then the links resolved against the final URL. */
  function LinksOutcome(url: string, fetched: Result<ScrapeResult, Exception>, cssSelector: Option<string>,
                        filter: (string, string) -> Result<(string, nat), Exception>,
                        parse: string -> Utils.ParsedPage, urljoin: (string, string) -> Result<string, Exception>)
    : Result<(LinksResponse, Recorded), Exception>
  {
    match fetched
    case Err(e) => Err(e)
    case Ok(result) =>
      match ApplySelector(result.content, cssSelector, filter)
      case Err(e) => Err(e)
      case Ok((content, _)) =>
        match Utils.Links(parse(content).anchors, Some(result.url), urljoin)
        case Err(e) => Err(e)
        case Ok(links) =>
          Ok((LinksResponse(links, |links|),
              Recorded(result.statusCode, result.metadata.elapsedMs, AttemptsOr1(result.metadata.attempts))))
  }

  /** `extract_links_single_safe` as a value. */
  function LinksItem(url: string, fetched: Result<ScrapeResult, Exception>,
                     filter: (string, string) -> Result<(string, nat), Exception>,
                     parse: string -> Utils.ParsedPage, urljoin: (string, string) -> Result<string, Exception>,
                     cssSelector: Option<string>): Handled<LinksResponse>
  {
    Safe(url, LinksOutcome(url, fetched, cssSelector, filter, parse, urljoin))
  }

  /** A raw scrape succeeds exactly when the fetch succeeds and, if a selector is given, the filter does. */
  lemma ScrapeSucceedsIff(url: string, fetched: Result<ScrapeResult, Exception>,
                          filter: (string, string) -> Result<(string, nat), Exception>,
                          cssSelector: Option<string>, includeHeaders: bool)
    ensures ScrapeItem(url, fetched, filter, cssSelector, includeHeaders).item.success <==>
      fetched.Ok? && (Truthy(cssSelector) ==> filter(fetched.value.content, cssSelector.value).Ok?)
    ensures fetched.Err? ==>
      ScrapeItem(url, fetched, filter, cssSelector, includeHeaders).item.error == Some(ErrorString(fetched.error))
  {
  }

  /**
   * A successful raw scrape carries the (filtered) content, the status and content type of the
   * fetch, the cleaned metadata, and headers only when asked for; its entry records the
   * provider's attempts (1 when absent).
   */
  lemma ScrapeSuccessData(url: string, fetched: Result<ScrapeResult, Exception>,
                          filter: (string, string) -> Result<(string, nat), Exception>,
                          cssSelector: Option<string>, includeHeaders: bool)
    requires ScrapeItem(url, fetched, filter, cssSelector, includeHeaders).item.success
    ensures var h := ScrapeItem(url, fetched, filter, cssSelector, includeHeaders);
      var result := fetched.value;
      var d := h.item.data.value;
      && d.statusCode == result.statusCode && d.contentType == result.contentType
      && (!Truthy(cssSelector) ==> d.content == result.content)
      && (d.metadata.headers.Some? <==> includeHeaders && result.metadata.headers.Some?)
      && (d.metadata.cssSelectorApplied.Some? <==> Truthy(cssSelector))
      && h.record.statusCode == Some(result.statusCode)
      && h.record.attempts == AttemptsOr1(result.metadata.attempts)
  {
  }

  /**
   * A successful markdown or text item carries the page metadata of the filtered content,
   * whatever the provider's dict held, and headers only when asked for.
   */
  lemma ConvertedSuccessData(url: string, fetched: Result<ScrapeResult, Exception>, cssSelector: Option<string>,
                             includeHeaders: bool, filter: (string, string) -> Result<(string, nat), Exception>,
                             transform: string -> Result<string, Exception>, parse: string -> Utils.ParsedPage)
    requires ConvertedOutcome(url, fetched, cssSelector, includeHeaders, filter, transform, parse).Ok?
    ensures var out := ConvertedOutcome(url, fetched, cssSelector, includeHeaders, filter, transform, parse).value;
      var content := ApplySelector(fetched.value.content, cssSelector, filter).value.0;
      && transform(content).Ok?
      && out.0.content == transform(content).value
      && out.0.metadata.pageMetadata == Some(Utils.PageMetadata(parse(content)))
      && (out.0.metadata.headers.Some? <==> includeHeaders && fetched.value.metadata.headers.Some?)
  {
  }

  /** A markdown item fails when the conversion raises, with that exception's error string. */
  lemma MarkdownConversionFailure(url: string, fetched: Result<ScrapeResult, Exception>,
                                  filter: (string, string) -> Result<(string, nat), Exception>,
                                  stripTags: Option<seq<string>>, convert: (string, seq<string>) -> Result<string, Exception>,
                                  parse: string -> Utils.ParsedPage, includeHeaders: bool)
    requires fetched.Ok?
    requires convert(fetched.value.content, Utils.MarkdownStripTags(stripTags)).Err?
    ensures var h := MarkdownItem(url, fetched, filter, stripTags, convert, parse, None, includeHeaders);
      !h.item.success &&
      h.item.error == Some(ErrorString(convert(fetched.value.content, Utils.MarkdownStripTags(stripTags)).error))
  {
  }

  /**
   * The raw path records the provider's `attempts`, the converting paths the cleaned dict's;
   * for any provider that reports at least one attempt the two agree.
   */
  lemma RecordedAttemptsAgree(url: string, fetched: Result<ScrapeResult, Exception>, cssSelector: Option<string>,
                              includeHeaders: bool, filter: (string, string) -> Result<(string, nat), Exception>,
                              transform: string -> Result<string, Exception>, parse: string -> Utils.ParsedPage)
    requires ConvertedOutcome(url, fetched, cssSelector, includeHeaders, filter, transform, parse).Ok?
    requires fetched.value.metadata.attempts.Some? ==> fetched.value.metadata.attempts.value >= 1
    ensures ConvertedOutcome(url, fetched, cssSelector, includeHeaders, filter, transform, parse).value.1 ==
      RawOutcome(url, fetched, cssSelector, includeHeaders, filter).value.1
  {
  }

  /** A successful links item counts its links: one per anchor with an `href` in the filtered content. */
  lemma LinksCountMatches(url: string, fetched: Result<ScrapeResult, Exception>,
                          filter: (string, string) -> Result<(string, nat), Exception>,
                          parse: string -> Utils.ParsedPage, urljoin: (string, string) -> Result<string, Exception>,
                          cssSelector: Option<string>)
    requires LinksItem(url, fetched, filter, parse, urljoin, cssSelector).item.success
    ensures var d := LinksItem(url, fetched, filter, parse, urljoin, cssSelector).item.data.value;
      var anchors := parse(ApplySelector(fetched.value.content, cssSelector, filter).value.0).anchors;
      d.count == |d.links| == |set i | 0 <= i < |anchors| && anchors[i].href.Some?|
  {
    var anchors := parse(ApplySelector(fetched.value.content, cssSelector, filter).value.0).anchors;
    Utils.WithHrefCount(anchors);
  }

  /**
   * A links item fails when resolving some link against the final URL raises, and then with the
   * error string of the first link whose resolution raises.
   */
  lemma LinksJoinFailure(url: string, fetched: Result<ScrapeResult, Exception>,
                         filter: (string, string) -> Result<(string, nat), Exception>,
                         parse: string -> Utils.ParsedPage, urljoin: (string, string) -> Result<string, Exception>,
                         cssSelector: Option<string>)
    requires fetched.Ok? && ApplySelector(fetched.value.content, cssSelector, filter).Ok?
    requires var kept := Utils.WithHref(parse(ApplySelector(fetched.value.content, cssSelector, filter).value.0).anchors);
      exists j :: 0 <= j < |kept| && Utils.LinkFor(kept[j], Some(fetched.value.url), urljoin).Err?
    ensures var h := LinksItem(url, fetched, filter, parse, urljoin, cssSelector);
      var kept := Utils.WithHref(parse(ApplySelector(fetched.value.content, cssSelector, filter).value.0).anchors);
      && !h.item.success
      && exists j, e :: Utils.FailsFirstAt(kept, j, Some(fetched.value.url), urljoin, e) && h.item.error == Some(ErrorString(e))
  {
    var anchors := parse(ApplySelector(fetched.value.content, cssSelector, filter).value.0).anchors;
    Utils.LinksFailAtFirst(anchors, Some(fetched.value.url), urljoin);
  }

  /** Whether an item reports success. */
  predicate Succeeded<D>(item: ResultItem<D>)
  {
    item.success
  }

  /** Whether an item reports failure. */
  predicate Failed<D>(item: ResultItem<D>)
  {
    !item.success
  }

  /** The batch response over the gathered items. */
  function Aggregate<D>(items: seq<ResultItem<D>>): (r: BatchResponse<D>)
    ensures r.results == items && r.total == |items|
    ensures r.successful == CountWhere(items, Succeeded)
    ensures r.failed == CountWhere(items, Failed)
    ensures r.total == r.successful + r.failed
  {
    CountComplement(items, Succeeded, Failed);
    BatchResponse(|items|, CountWhere(items, Succeeded), |items| - CountWhere(items, Succeeded), items)
  }

  /** A batch in which every URL succeeded reports no failure, and one in which all failed reports no success. */
  lemma {:induction false} AllOrNothing<D>(items: seq<ResultItem<D>>)
    ensures (forall i :: 0 <= i < |items| ==> items[i].success) ==> Aggregate(items).failed == 0
    ensures (forall i :: 0 <= i < |items| ==> !items[i].success) ==> Aggregate(items).successful == 0
  {
    if items != [] {
      AllOrNothing(items[..|items| - 1]);
    }
  }

  /** Records one call's entry and hands back its item. */
  method Record<D>(h: Handled<D>, metrics: Metrics.ServerMetrics) returns (item: ResultItem<D>)
    requires metrics.Valid()
    modifies metrics
    ensures metrics.Valid()
    ensures item == h.item
    ensures metrics.History == old(metrics.History) + [h.record]
  {
    var r := h.record;
    metrics.RecordRequest(r.url, r.success, r.statusCode, r.elapsedMs, r.attempts, r.error);
    item := h.item;
  }

  /** One per-URL call: its item is returned and its entry recorded, once. */
  method RunSafe<D>(url: string, process: string -> Handled<D>, metrics: Metrics.ServerMetrics)
    returns (item: ResultItem<D>)
    requires metrics.Valid()
    modifies metrics
    ensures metrics.Valid()
    ensures item == process(url).item
    ensures metrics.History == old(metrics.History) + [process(url).record]
  {
    item := Record(process(url), metrics);
  }

  /**
   * The loop of a batch: one call per entry, in list order. `process(i, url)` is the outcome of
   * the call made for entry `i`, so two entries naming the same URL are two separate calls and
   * may come out differently.
   */
  method RunEach<D>(urls: seq<string>, process: (nat, string) -> Handled<D>, metrics: Metrics.ServerMetrics)
    returns (results: seq<ResultItem<D>>)
    requires metrics.Valid()
    modifies metrics
    ensures metrics.Valid()
    ensures |results| == |urls|
    ensures forall i :: 0 <= i < |urls| ==> results[i] == process(i, urls[i]).item
    ensures |metrics.History| == |old(metrics.History)| + |urls|
    ensures forall i :: 0 <= i < |urls| ==> metrics.History[|old(metrics.History)| + i] == process(i, urls[i]).record
    ensures metrics.History[..|old(metrics.History)|] == old(metrics.History)
  {
    results := [];
    ghost var before := metrics.History;
    for n := 0 to |urls|
      invariant metrics.Valid()
      invariant |results| == n
      invariant forall i :: 0 <= i < n ==> results[i] == process(i, urls[i]).item
      invariant |metrics.History| == |before| + n
      invariant metrics.History[..|before|] == before
      invariant forall i :: 0 <= i < n ==> metrics.History[|before| + i] == process(i, urls[i]).record
    {
      var item := Record(process(n, urls[n]), metrics);
      results := results + [item];
    }
  }

  /** A batch: the loop over its entries, then the counts over the gathered items. */
  method RunBatch<D>(urls: seq<string>, process: (nat, string) -> Handled<D>, metrics: Metrics.ServerMetrics)
    returns (response: BatchResponse<D>)
    requires metrics.Valid()
    modifies metrics
    ensures metrics.Valid()
    ensures |response.results| == |urls|
    ensures forall i :: 0 <= i < |urls| ==> response.results[i] == process(i, urls[i]).item
    ensures response == Aggregate(response.results)
    ensures |metrics.History| == |old(metrics.History)| + |urls|
    ensures forall i :: 0 <= i < |urls| ==> metrics.History[|old(metrics.History)| + i] == process(i, urls[i]).record
    ensures metrics.History[..|old(metrics.History)|] == old(metrics.History)
  {
    var results := RunEach(urls, process, metrics);
    response := Aggregate(results);
  }

  /** `scrape_single_url_safe`. */
  method ScrapeSingleUrlSafe(url: string, fetch: string -> Result<ScrapeResult, Exception>,
                             filter: (string, string) -> Result<(string, nat), Exception>,
                             cssSelector: Option<string>, includeHeaders: bool, metrics: Metrics.ServerMetrics)
    returns (item: ResultItem<ScrapeResponse>)
    requires metrics.Valid()
    modifies metrics
    ensures metrics.Valid()
    ensures item == ScrapeItem(url, fetch(url), filter, cssSelector, includeHeaders).item
    ensures metrics.History == old(metrics.History) + [ScrapeItem(url, fetch(url), filter, cssSelector, includeHeaders).record]
  {
    item := RunSafe(url, u => ScrapeItem(u, fetch(u), filter, cssSelector, includeHeaders), metrics);
  }

  /** `batch_scrape_urls`; `fetch(i, url)` is what the provider returns or raises on entry `i`'s own call. */
  method BatchScrapeUrls(urls: seq<string>, fetch: (nat, string) -> Result<ScrapeResult, Exception>,
                         filter: (string, string) -> Result<(string, nat), Exception>,
                         cssSelector: Option<string>, includeHeaders: bool, metrics: Metrics.ServerMetrics)
    returns (response: BatchResponse<ScrapeResponse>)
    requires metrics.Valid()
    modifies metrics
    ensures metrics.Valid()
    ensures |response.results| == |urls|
    ensures forall i :: 0 <= i < |urls| ==>
      response.results[i] == ScrapeItem(urls[i], fetch(i, urls[i]), filter, cssSelector, includeHeaders).item
    ensures forall i :: 0 <= i < |urls| ==> response.results[i].url == urls[i]
    ensures response == Aggregate(response.results)
    ensures |metrics.History| == |old(metrics.History)| + |urls|
    ensures metrics.History[..|old(metrics.History)|] == old(metrics.History)
    ensures forall i :: 0 <= i < |urls| ==>
      metrics.History[|old(metrics.History)| + i] == ScrapeItem(urls[i], fetch(i, urls[i]), filter, cssSelector, includeHeaders).record
  {
    response := RunBatch(urls, (k, u) => ScrapeItem(u, fetch(k, u), filter, cssSelector, includeHeaders), metrics);
  }

  /** `scrape_single_url_markdown_safe`. */
  method ScrapeSingleUrlMarkdownSafe(url: string, fetch: string -> Result<ScrapeResult, Exception>,
                                     filter: (string, string) -> Result<(string, nat), Exception>,
                                     stripTags: Option<seq<string>>, convert: (string, seq<string>) -> Result<string, Exception>,
                                     parse: string -> Utils.ParsedPage, cssSelector: Option<string>, includeHeaders: bool,
                                     metrics: Metrics.ServerMetrics)
    returns (item: ResultItem<ScrapeResponse>)
    requires metrics.Valid()
    modifies metrics
    ensures metrics.Valid()
    ensures item == MarkdownItem(url, fetch(url), filter, stripTags, convert, parse, cssSelector, includeHeaders).item
    ensures metrics.History ==
      old(metrics.History) + [MarkdownItem(url, fetch(url), filter, stripTags, convert, parse, cssSelector, includeHeaders).record]
  {
    item := RunSafe(url, u => MarkdownItem(u, fetch(u), filter, stripTags, convert, parse, cssSelector, includeHeaders), metrics);
  }

  /** `batch_scrape_urls_markdown`; `fetch(i, url)` is what the provider returns or raises on entry `i`'s own call. */
  method BatchScrapeUrlsMarkdown(urls: seq<string>, fetch: (nat, string) -> Result<ScrapeResult, Exception>,
                                 filter: (string, string) -> Result<(string, nat), Exception>,
                                 stripTags: Option<seq<string>>, convert: (string, seq<string>) -> Result<string, Exception>,
                                 parse: string -> Utils.ParsedPage, cssSelector: Option<string>, includeHeaders: bool,
                                 metrics: Metrics.ServerMetrics)
    returns (response: BatchResponse<ScrapeResponse>)
    requires metrics.Valid()
    modifies metrics
    ensures metrics.Valid()
    ensures |response.results| == |urls|
    ensures forall i :: 0 <= i < |urls| ==>
      response.results[i] == MarkdownItem(urls[i], fetch(i, urls[i]), filter, stripTags, convert, parse, cssSelector, includeHeaders).item
    ensures forall i :: 0 <= i < |urls| ==> response.results[i].url == urls[i]
    ensures response == Aggregate(response.results)
    ensures |metrics.History| == |old(metrics.History)| + |urls|
    ensures metrics.History[..|old(metrics.History)|] == old(metrics.History)
    ensures forall i :: 0 <= i < |urls| ==>
      metrics.History[|old(metrics.History)| + i] == MarkdownItem(urls[i], fetch(i, urls[i]), filter, stripTags, convert, parse, cssSelector, includeHeaders).record
  {
    response := RunBatch(urls, (k, u) => MarkdownItem(u, fetch(k, u), filter, stripTags, convert, parse, cssSelector, includeHeaders), metrics);
  }

  /** `scrape_single_url_text_safe`. */
  method ScrapeSingleUrlTextSafe(url: string, fetch: string -> Result<ScrapeResult, Exception>,
                                 filter: (string, string) -> Result<(string, nat), Exception>,
                                 stripTags: Option<seq<string>>, getText: (string, seq<string>) -> Result<string, Exception>,
                                 parse: string -> Utils.ParsedPage, cssSelector: Option<string>, includeHeaders: bool,
                                 metrics: Metrics.ServerMetrics)
    returns (item: ResultItem<ScrapeResponse>)
    requires metrics.Valid()
    modifies metrics
    ensures metrics.Valid()
    ensures item == TextItem(url, fetch(url), filter, stripTags, getText, parse, cssSelector, includeHeaders).item
    ensures metrics.History ==
      old(metrics.History) + [TextItem(url, fetch(url), filter, stripTags, getText, parse, cssSelector, includeHeaders).record]
  {
    item := RunSafe(url, u => TextItem(u, fetch(u), filter, stripTags, getText, parse, cssSelector, includeHeaders), metrics);
  }

  /** `batch_scrape_urls_text`; `fetch(i, url)` is what the provider returns or raises on entry `i`'s own call. */
  method BatchScrapeUrlsText(urls: seq<string>, fetch: (nat, string) -> Result<ScrapeResult, Exception>,
                             filter: (string, string) -> Result<(string, nat), Exception>,
                             stripTags: Option<seq<string>>, getText: (string, seq<string>) -> Result<string, Exception>,
                             parse: string -> Utils.ParsedPage, cssSelector: Option<string>, includeHeaders: bool,
                             metrics: Metrics.ServerMetrics)
    returns (response: BatchResponse<ScrapeResponse>)
    requires metrics.Valid()
    modifies metrics
    ensures metrics.Valid()
    ensures |response.results| == |urls|
    ensures forall i :: 0 <= i < |urls| ==>
      response.results[i] == TextItem(urls[i], fetch(i, urls[i]), filter, stripTags, getText, parse, cssSelector, includeHeaders).item
    ensures forall i :: 0 <= i < |urls| ==> response.results[i].url == urls[i]
    ensures response == Aggregate(response.results)
    ensures |metrics.History| == |old(metrics.History)| + |urls|
    ensures metrics.History[..|old(metrics.History)|] == old(metrics.History)
    ensures forall i :: 0 <= i < |urls| ==>
      metrics.History[|old(metrics.History)| + i] == TextItem(urls[i], fetch(i, urls[i]), filter, stripTags, getText, parse, cssSelector, includeHeaders).record
  {
    response := RunBatch(urls, (k, u) => TextItem(u, fetch(k, u), filter, stripTags, getText, parse, cssSelector, includeHeaders), metrics);
  }

  /** `extract_links_single_safe` (its `include_headers` argument is unused). */
  method ExtractLinksSingleSafe(url: string, fetch: string -> Result<ScrapeResult, Exception>,
                                filter: (string, string) -> Result<(string, nat), Exception>,
                                parse: string -> Utils.ParsedPage, urljoin: (string, string) -> Result<string, Exception>,
                                cssSelector: Option<string>, metrics: Metrics.ServerMetrics)
    returns (item: ResultItem<LinksResponse>)
    requires metrics.Valid()
    modifies metrics
    ensures metrics.Valid()
    ensures item == LinksItem(url, fetch(url), filter, parse, urljoin, cssSelector).item
    ensures metrics.History == old(metrics.History) + [LinksItem(url, fetch(url), filter, parse, urljoin, cssSelector).record]
  {
    item := RunSafe(url, u => LinksItem(u, fetch(u), filter, parse, urljoin, cssSelector), metrics);
  }

  /** `batch_extract_links`; `fetch(i, url)` is what the provider returns or raises on entry `i`'s own call. */
  method BatchExtractLinks(urls: seq<string>, fetch: (nat, string) -> Result<ScrapeResult, Exception>,
                           filter: (string, string) -> Result<(string, nat), Exception>,
                           parse: string -> Utils.ParsedPage, urljoin: (string, string) -> Result<string, Exception>,
                           cssSelector: Option<string>, metrics: Metrics.ServerMetrics)
    returns (response: BatchResponse<LinksResponse>)
    requires metrics.Valid()
    modifies metrics
    ensures metrics.Valid()
    ensures |response.results| == |urls|
    ensures forall i :: 0 <= i < |urls| ==>
      response.results[i] == LinksItem(urls[i], fetch(i, urls[i]), filter, parse, urljoin, cssSelector).item
    ensures forall i :: 0 <= i < |urls| ==> response.results[i].url == urls[i]
    ensures response == Aggregate(response.results)
    ensures |metrics.History| == |old(metrics.History)| + |urls|
    ensures metrics.History[..|old(metrics.History)|] == old(metrics.History)
    ensures forall i :: 0 <= i < |urls| ==>
      metrics.History[|old(metrics.History)| + i] == LinksItem(urls[i], fetch(i, urls[i]), filter, parse, urljoin, cssSelector).record
  {
    response := RunBatch(urls, (k, u) => LinksItem(u, fetch(k, u), filter, parse, urljoin, cssSelector), metrics);
  }
}
