/**
 * The records the scraping core passes around: the provider's `ScrapeResult`
 * (providers/base.py) with its metadata dict, and the response models of
 * models/scrape.py and models/links.py.
 */
module Models {
  import opened Common
  import Utils

  /**
   * A metadata dict over the keys the core ever writes or reads; `None` is a missing key.
   * `encoding` is `Some(None)` when the key is present with the value `None`.
   */
  datatype Metadata = Metadata(
    headers: Option<map<string, string>>,
    encoding: Option<Option<string>>,
    elapsedMs: Option<int>,
    attempts: Option<int>,
    retries: Option<int>,
    fromCache: Option<bool>,
    cacheExpires: Option<string>,
    proxyUsed: Option<bool>,
    proxyConfig: Option<map<string, string>>,
    cssSelectorApplied: Option<string>,
    elementsMatched: Option<int>,
    pageMetadata: Option<map<string, string>>)

  /** The empty dict. */
  const EmptyMetadata := Metadata(None, None, None, None, None, None, None, None, None, None, None, None)

  /** The keys present in a metadata dict. */
  function Keys(m: Metadata): set<string>
  {
    (if m.headers.Some? then {"headers"} else {})
    + (if m.encoding.Some? then {"encoding"} else {})
    + (if m.elapsedMs.Some? then {"elapsed_ms"} else {})
    + (if m.attempts.Some? then {"attempts"} else {})
    + (if m.retries.Some? then {"retries"} else {})
    + (if m.fromCache.Some? then {"from_cache"} else {})
    + (if m.cacheExpires.Some? then {"cache_expires"} else {})
    + (if m.proxyUsed.Some? then {"proxy_used"} else {})
    + (if m.proxyConfig.Some? then {"proxy_config"} else {})
    + (if m.cssSelectorApplied.Some? then {"css_selector_applied"} else {})
    + (if m.elementsMatched.Some? then {"elements_matched"} else {})
    + (if m.pageMetadata.Some? then {"page_metadata"} else {})
  }

  /** `ScrapeResult` of providers/base.py. */
  datatype ScrapeResult = ScrapeResult(
    url: string,
    content: string,
    statusCode: int,
    contentType: Option<string>,
    metadata: Metadata)

  /** `ScrapeResponse` of models/scrape.py (the model has no `url` field, so none is kept). */
  datatype ScrapeResponse = ScrapeResponse(
    content: string,
    statusCode: int,
    contentType: Option<string>,
    metadata: Metadata)

  /** `LinksResponse` of models/links.py. */
  datatype LinksResponse = LinksResponse(links: seq<Utils.LinkRecord>, count: int)

  /** `ScrapeResultItem` / `LinkResultItem`: one URL's outcome in a batch. */
  datatype ResultItem<D> = ResultItem(url: string, success: bool, data: Option<D>, error: Option<string>)

  /** `BatchScrapeResponse` / `BatchLinksResponse`. */
  datatype BatchResponse<D> = BatchResponse(total: int, successful: int, failed: int, results: seq<ResultItem<D>>)
}
