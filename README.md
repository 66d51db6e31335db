# scraper-mcp core, modelled in Dafny

scraper-mcp is an MCP server that fetches web pages and returns them raw, as markdown or as
text, or returns their links. It also keeps request metrics, a runtime configuration and a
disk cache. This project models the logic the repository writes itself around the network
fetch and the HTML libraries, and proves what that logic promises:

- `common.dfy` (`Common`): `Option`, `Result`, a raised Python exception (class name and
  message), and Python truthiness of an optional string.
- `text.dfy` (`Text`): the Python string operations the core relies on: `strip`,
  `split("\n")` and `"\n".join`, ASCII `lower`, substring test, `str.startswith`, and `str(n)`
  for a natural number.
- `models.dfy` (`Models`): `ScrapeResult` (providers/base.py), its metadata dict as a record of
  optional fields, and the response records of models/scrape.py and models/links.py.
- `utils.py` → `utils.dfy` (`Utils`): the default strip list, the `html_to_text` line clean-up,
  the `html_to_markdown` trim, `extract_links` record building and `extract_metadata` key rule,
  over an abstract parsed page.
- `metrics.py` → `metrics.dfy` (`Metrics`): the `ServerMetrics` class with its counters and its
  two bounded windows (50 requests, 20 errors), the success rate, the average retries, the
  newest-first snapshots, and `_format_uptime`.
- `cache_manager.py` → `cache_manager.dfy` (`CacheLayer`): the TTL policy by URL, the canonical
  cache key, and the `CacheManager` class whose `get`/`set`/`delete`/`clear`/`expire` never
  raise, plus the hit rate.
- `providers/requests_provider.py` → `requests_provider.dfy` (`RequestsProvider`): the retry
  loop of `scrape` with its error classification and exponential backoff, the result metadata,
  the default `User-Agent`, and `supports_url`.
- `admin/service.py` → `admin_service.dfy` (`AdminService`): the runtime configuration, its proxy
  seeding from the environment, the validated `update_config` loop, and `get_config`.
- `tools/service.py` → `tools_service.dfy` (`ToolsService`): `clean_metadata`, the four per-URL
  pipelines (raw, markdown, text, links) that turn every exception into a failed item and record
  one metrics entry, and the four batch aggregators.

server.py holds an older copy of the same code. The members below model both copies:
`clean_metadata` (src/scraper_mcp/server.py:157-208), the per-URL and batch functions
(src/scraper_mcp/server.py:231-731), the
configuration defaults and proxy seeding (src/scraper_mcp/server.py:107-133), `get_config`
(src/scraper_mcp/server.py:144-154) and the validation in `api_config_update`
(src/scraper_mcp/server.py:956-1006).

Collaborators the repository does not define are parameters:

- the provider's `scrape`: a per-URL call's outcome, and in a batch the outcome of entry `i`'s own call, so two entries naming the same URL may come out differently;
- `session.get` as a function from the call index to a response or a raised exception;
- `filter_html_by_selector`, `markdownify`, BeautifulSoup's `get_text` and its parse tree;
- `urljoin`, as a function from a base and a link to the joined URL or the exception it raises, and whether `urlparse` raises.

## Model

| member | source | states |
|---|---|---|
| Text.SpaceRunEnd | src/scraper_mcp/utils.py:58 | the index where the run of whitespace starting at `i` ends: all whitespace before it, none at it |
| Text.SpaceRunStart | src/scraper_mcp/utils.py:58 | the index where the run of whitespace ending at `j` starts: all whitespace from it, none just before it |
| Text.Strip | src/scraper_mcp/utils.py:58 | the result is the slice of the input left after cutting a whitespace prefix and a whitespace suffix, and has no whitespace at either end |
| Text.StripFixed | src/scraper_mcp/utils.py:58 | stripping an already stripped string changes nothing |
| Text.SplitJoin | src/scraper_mcp/utils.py:58-59 | splitting on `"\n"` after joining newline-free lines with `"\n"` gives the lines back |
| Text.Lower | src/scraper_mcp/cache_manager.py:133 | the result has the input's length and each character is the lower-cased character at the same index |
| Text.LowerIdempotent | src/scraper_mcp/cache_manager.py:133 | lower-casing twice is the same as once |
| Text.Contains | src/scraper_mcp/cache_manager.py:136 | `pat in s` holds exactly when `pat` occurs at some index of `s` |
| Text.NatToString | src/scraper_mcp/admin/service.py:156 | the decimal text of a count is non-empty, all digits, and has no leading zero |
| Text.NatToStringRoundTrip | src/scraper_mcp/admin/service.py:156 | reading the digits back gives the number |
| Text.NatToStringInjective | src/scraper_mcp/admin/service.py:156 | different numbers have different decimal texts |
| Utils.StripTagDefaults | src/scraper_mcp/utils.py:23-48 | text extraction strips script/style/meta/link/noscript only when no list is given, a given list (even empty) replaces it, and markdown strips nothing unless given a list |
| Utils.TextStripTags | src/scraper_mcp/utils.py:47-48 | the tags `html_to_text` removes: the five default tags when no list is passed (`None`), the given list otherwise |
| Utils.MarkdownStripTags | src/scraper_mcp/utils.py:23-24 | the tags `html_to_markdown` removes: none for `None`, the given list otherwise (an empty list removes none) |
| Utils.NonBlankStripped | src/scraper_mcp/utils.py:58 | every kept line is non-empty and stripped, and at most as many lines are kept as there were |
| Utils.NonBlankStrippedFixed | src/scraper_mcp/utils.py:58 | a list of non-empty stripped lines is kept as it is |
| Utils.CleanLines | src/scraper_mcp/utils.py:55-59 | the text has no empty line and no line with surrounding whitespace, and splitting it on newlines gives exactly the kept lines |
| Utils.CleanLinesIdempotent | src/scraper_mcp/utils.py:58-59 | cleaning already cleaned text changes nothing |
| Utils.HtmlToText | src/scraper_mcp/utils.py:33-59 | text extraction fails exactly when the library raises, with its exception, and otherwise returns clean text |
| Utils.HtmlToMarkdown | src/scraper_mcp/utils.py:9-30 | conversion fails exactly when the library raises, with its exception, and otherwise returns the library's markdown with surrounding whitespace stripped |
| Utils.LinkFor | src/scraper_mcp/utils.py:78-85 | a link raises exactly when a non-empty base is given and `urljoin(base, href)` raises, with that exception; otherwise its url is the joined URL (or the raw href without a base), its text is the anchor's text and its title is `""` when absent |
| Utils.WithHref | src/scraper_mcp/utils.py:77 | only anchors that have an `href` are kept, taken from the page |
| Utils.WithHrefCount | src/scraper_mcp/utils.py:77 | exactly one anchor is kept per anchor with an `href` |
| Utils.Links | src/scraper_mcp/utils.py:62-87 | what `extract_links` returns or raises: when it returns, one record per anchor with an `href`, in document order, each the one `LinkFor` builds |
| Utils.LinksFailAtFirst | src/scraper_mcp/utils.py:77-85 | `extract_links` raises exactly when some kept anchor's link raises, and then raises the exception of the first such anchor, every earlier one having succeeded |
| Utils.LinksFailurePersists | src/scraper_mcp/utils.py:77-85 | once the anchors up to some point raise, the whole call raises that same exception |
| Utils.ExtractLinks | src/scraper_mcp/utils.py:62-87 | the loop returns or raises exactly what `Links` states: one record per anchor with an `href` in document order, or the first exception `urljoin` raises |
| Utils.LastDefinition | src/scraper_mcp/utils.py:107-112 | a key has a last definition exactly when some meta tag defines it with non-empty key and content |
| Utils.MetaFold | src/scraper_mcp/utils.py:107-112 | the dict after the loop over the meta tags: each tag with a non-empty key and content assigns its content to that key, later tags overwriting earlier ones |
| Utils.PageMetadata | src/scraper_mcp/utils.py:90-114 | the dict `extract_metadata` returns: the title entry, then the meta tags folded in document order |
| Utils.MetaFoldAt | src/scraper_mcp/utils.py:107-112 | after the meta tags, a key holds the content of its last defining tag, or its earlier value when no tag defines it |
| Utils.PageMetadataAt | src/scraper_mcp/utils.py:99-114 | a key is present exactly for the title of a page with `<title>` or for a defined meta key; later tags overwrite earlier ones, and the title is `""` when it has no string |
| Utils.ExtractMetadata | src/scraper_mcp/utils.py:90-114 | the loop builds the same dict as the title entry followed by the meta tags in order |
| Metrics.Last | src/scraper_mcp/metrics.py:34-35 | the window keeps the last `min(n, cap)` items in arrival order |
| Metrics.BoundedAppend | src/scraper_mcp/metrics.py:79 | appending to a bounded deque never exceeds its capacity |
| Metrics.BoundedAppendLast | src/scraper_mcp/metrics.py:79 | appending to the window of a history gives the window of the extended history, so the oldest item is evicted first |
| Metrics.Failures | src/scraper_mcp/metrics.py:82-83 | the error window's source holds only failed records from the history |
| Metrics.TotalRetries | src/scraper_mcp/metrics.py:63-65 | the retries of a history: the sum over its records of `attempts - 1` for each record with more than one attempt |
| Metrics.SuccessesPlusFailures | src/scraper_mcp/metrics.py:56-61 | every record is counted as exactly one of success or failure |
| Metrics.Reverse | src/scraper_mcp/metrics.py:130 | `[::-1]` puts the last element first |
| Metrics.NewestFirst | src/scraper_mcp/metrics.py:130 | the snapshot holds at most the last n entries, newest first |
| Metrics.HistoryStep | src/scraper_mcp/metrics.py:56-83 | one recorded request extends each counter and each window of the history by exactly that request |
| Metrics.ServerMetrics.constructor | src/scraper_mcp/metrics.py:26-35 | all counters are zero and both windows are empty |
| Metrics.ServerMetrics.RecordRequest | src/scraper_mcp/metrics.py:37-83 | total grows by one and exactly one of successful/failed by one, retries grow by `attempts - 1` when above one, and the counters and windows stay consistent with the history |
| Metrics.ServerMetrics.Valid | src/scraper_mcp/metrics.py:26-35 | the counters summarise every request recorded so far (total, successes, failures, retries), the request window is the last 50 of them and the error window the last 20 failures |
| Metrics.ServerMetrics.RecentRequestsSnapshot | src/scraper_mcp/metrics.py:130 | `list(recent_requests)[-10:][::-1]`: at most the 10 newest entries of the request window, newest first |
| Metrics.ServerMetrics.RecentErrorsSnapshot | src/scraper_mcp/metrics.py:140 | `list(recent_errors)[-10:][::-1]`: at most the 10 newest entries of the error window, newest first |
| Metrics.ServerMetrics.SuccessRate | src/scraper_mcp/metrics.py:89-93 | the rate is 0 without requests, otherwise `successful * 100 / total`, and lies in [0, 100] |
| Metrics.ServerMetrics.AverageRetries | src/scraper_mcp/metrics.py:114-118 | the average is 0 without requests, otherwise `total_retries / total`, and never negative |
| Metrics.CountersAddUp | src/scraper_mcp/metrics.py:56-61 | total requests always equal successful plus failed |
| Metrics.WindowsAreSuffixes | src/scraper_mcp/metrics.py:34-35 | the request window is the last `min(n, 50)` records in arrival order, and the error window is the last `min(f, 20)` of the `f` failed records in arrival order |
| Metrics.WindowOfLast | src/scraper_mcp/metrics.py:34-35 | a window of the last `cap` items has `min(n, cap)` entries, entry `i` being item `n - |window| + i` |
| Metrics.ErrorWindow | src/scraper_mcp/metrics.py:82-83 | the error window of a history holds only failed requests of it: the last `min(f, 20)` of its `f` failures, in arrival order |
| Metrics.NewestOfWindow | src/scraper_mcp/metrics.py:120-131 | the newest `n <= cap` entries of a window of the last `cap` items are the newest entries of the whole history |
| Metrics.RequestSnapshotIsNewest | src/scraper_mcp/metrics.py:120-131 | the snapshot lists at most 10 requests and its i-th entry is the i-th newest request |
| Metrics.UptimeParts | src/scraper_mcp/metrics.py:145-160 | the unit pair is chosen by the 60 / 3600 / 86400 thresholds, and its parts are in range and describe the seconds to the precision shown |
| Metrics.RenderUptime | src/scraper_mcp/metrics.py:147-160 | the f-strings of `_format_uptime`: each band's two numbers with their unit letters, `s`, `m s`, `h m` or `d h` |
| Metrics.FormatUptime | src/scraper_mcp/metrics.py:145-160 | below a minute `<s>s`; below an hour `<s/60>m <s%60>s`; below a day `<s/3600>h <(s%3600)/60>m`; otherwise `<s/86400>d <(s%86400)/3600>h`; the text starts with a digit and has no space exactly below a minute |
| Metrics.FormatUptimeExamples | src/scraper_mcp/metrics.py:147-160 | 59 → `59s`, 60 → `1m 0s`, 3661 → `1h 1m`, 90061 → `1d 1h` |
| CacheLayer.AnyIn | src/scraper_mcp/cache_manager.py:136 | `any(p in text for p in patterns)` holds exactly when some pattern occurs in the text |
| CacheLayer.TtlForUrl | src/scraper_mcp/cache_manager.py:124-144 | the TTL is one of 86400, 300 and 3600; it is 86400 exactly when the lower-cased URL contains a static pattern, 300 exactly when it contains no static but a real-time pattern |
| CacheLayer.TtlIgnoresCase | src/scraper_mcp/cache_manager.py:133 | the TTL does not depend on letter case |
| CacheLayer.StaticSignalWins | src/scraper_mcp/cache_manager.py:136-141 | a URL with both a static and a real-time pattern gets the static TTL |
| CacheLayer.StaticSignalAt | src/scraper_mcp/cache_manager.py:133-137 | a lower-case URL holding `static`, `cdn` or `cloudfront` at some index gets 86400 |
| CacheLayer.CdnUrlIsStatic | src/scraper_mcp/cache_manager.py:136-137 | `https://cdn.example.com/style.css` gets 86400 |
| CacheLayer.StrLessTransitive | src/scraper_mcp/cache_manager.py:121 | the key order used by `sort_keys` is transitive |
| CacheLayer.StrLessTotal | src/scraper_mcp/cache_manager.py:121 | any two different keys are ordered one way or the other |
| CacheLayer.Insert | src/scraper_mcp/cache_manager.py:121 | inserting a pair into a key-sorted list keeps it sorted and adds exactly that pair |
| CacheLayer.SortByKey | src/scraper_mcp/cache_manager.py:121 | sorting yields a key-sorted permutation of the pairs |
| CacheLayer.SortedUnique | src/scraper_mcp/cache_manager.py:121 | two key-sorted lists with the same pairs are equal, so the serialisation does not depend on insertion order |
| CacheLayer.CacheKey | src/scraper_mcp/cache_manager.py:104-122 | the key is the key-sorted list of the URL entry and the extra parameters |
| CacheLayer.CacheKeyIdentifiesRequest | src/scraper_mcp/cache_manager.py:104-122 | two requests get the same key exactly when their URLs are equal and their parameters are the same whatever their order |
| CacheLayer.KeyTellsNumberFromText | src/scraper_mcp/cache_manager.py:116-121 | `timeout=30` and `timeout="30"` give different keys, as their JSON texts differ |
| CacheLayer.Lookup | src/scraper_mcp/cache_manager.py:157 | what diskcache's `get` finds at `now`: the stored value of a present entry that has not expired, otherwise nothing |
| CacheLayer.Stored | src/scraper_mcp/cache_manager.py:186 | the store after diskcache's `set`: the key holds the value, expiring at `now + expire` or never |
| CacheLayer.Deleted | src/scraper_mcp/cache_manager.py:201 | the store after diskcache's `delete`: a live entry under the key is removed, anything else is left |
| CacheLayer.Culled | src/scraper_mcp/cache_manager.py:223 | the store after diskcache's `expire`: entries whose expiry instant has passed are removed, all others kept |
| CacheLayer.SetThenGet | src/scraper_mcp/cache_manager.py:186 | a value set is returned by a get before it expires |
| CacheLayer.SetLeavesOtherKeys | src/scraper_mcp/cache_manager.py:186 | setting one key does not change what another key returns |
| CacheLayer.DeleteThenGet | src/scraper_mcp/cache_manager.py:201 | after a delete, get finds nothing |
| CacheLayer.CullingIsInvisible | src/scraper_mcp/cache_manager.py:223 | removing expired entries changes no later lookup |
| CacheLayer.CacheManager.constructor | src/scraper_mcp/cache_manager.py:39-80 | the store and its statistics start as given |
| CacheLayer.CacheManager.Get | src/scraper_mcp/cache_manager.py:146-165 | a live entry is returned and counted as a hit, a missing one gives the default and a miss, and a store error gives the default without raising |
| CacheLayer.CacheManager.Set | src/scraper_mcp/cache_manager.py:167-189 | returns True and stores the value, or returns False and changes nothing on a store error |
| CacheLayer.CacheManager.Delete | src/scraper_mcp/cache_manager.py:191-204 | returns True exactly when a live entry was removed, and False on a store error |
| CacheLayer.CacheManager.Clear | src/scraper_mcp/cache_manager.py:206-214 | entries are gone unless the store's `clear` raised; hits and misses are zeroed only when both store calls succeeded, and otherwise kept |
| CacheLayer.CacheManager.Expire | src/scraper_mcp/cache_manager.py:216-228 | removes exactly the expired entries and returns how many, or returns 0 on a store error |
| CacheLayer.CacheManager.HitRate | src/scraper_mcp/cache_manager.py:244-245 | the rate is `hits / (hits + misses)`, 0 without lookups, and lies in [0, 1] |
| RequestsProvider.HttpErrorFor | src/scraper_mcp/providers/requests_provider.py:113 | `raise_for_status` raises an `HTTPError` exactly for a 4xx or 5xx status, its message starting with the code |
| RequestsProvider.Classify | src/scraper_mcp/providers/requests_provider.py:104-155 | a pass succeeds exactly on a non-error response, is retried exactly on an error status, a timeout or a connection error, and otherwise raises the exception at once |
| RequestsProvider.NotFoundIsRetried | src/scraper_mcp/providers/requests_provider.py:113 | a 404 is retried as an `HTTPError` |
| RequestsProvider.BuildResult | src/scraper_mcp/providers/requests_provider.py:115-143 | url, content and status come from the response, the content type from its `Content-Type` header or none; the metadata holds the headers, encoding and elapsed time, `attempts = k+1` and `retries = k` on pass k, `from_cache` false unless the response says so, and `cache_expires` (the response's expiry) only for a cached response with one |
| RequestsProvider.WithDefaultUserAgent | src/scraper_mcp/providers/requests_provider.py:93-97 | the provider's `User-Agent` is added only when the caller gave none, and the caller's headers are kept as they are |
| RequestsProvider.DelayAt | src/scraper_mcp/providers/requests_provider.py:158 | the delay before retry n is `retry_delay * 2^(n-1)` |
| RequestsProvider.DelaysDouble | src/scraper_mcp/providers/requests_provider.py:158 | the first delay is `retry_delay` and each later one doubles the one before |
| RequestsProvider.Delays | src/scraper_mcp/providers/requests_provider.py:157-166 | the sleeps before the first `n` retries, `retry_delay * 2 ** (k - 1)` before retry `k` |
| RequestsProvider.StopIndex | src/scraper_mcp/providers/requests_provider.py:103-155 | the loop stops at the first pass that is not retried, or at the last pass the budget allows |
| RequestsProvider.StopIndexAt | src/scraper_mcp/providers/requests_provider.py:103-155 | the stopping pass is determined by the outcomes before it |
| RequestsProvider.CallCount | src/scraper_mcp/providers/requests_provider.py:103-171 | how many times the loop calls `session.get`: none with a negative budget, otherwise one more than the index of the pass that ends the loop |
| RequestsProvider.ScrapeOutcome | src/scraper_mcp/providers/requests_provider.py:103-171 | what the loop returns or raises: the `RuntimeError` for a negative budget, otherwise the result built from the ending pass's response, or that pass's exception |
| RequestsProvider.CallBounds | src/scraper_mcp/providers/requests_provider.py:103 | `session.get` is called between 1 and `max_retries + 1` times, and once when `max_retries` is 0 |
| RequestsProvider.SuccessRecordsAttempts | src/scraper_mcp/providers/requests_provider.py:124-131 | a returned result records the number of calls as `attempts` and one less as `retries`, after only retried failures |
| RequestsProvider.SuccessAfterFailures | src/scraper_mcp/providers/requests_provider.py:124-131 | success after k retried failures takes k+1 calls and yields `attempts = k+1`, `retries = k` |
| RequestsProvider.ExhaustedRetriesRaiseLast | src/scraper_mcp/providers/requests_provider.py:150-155 | when every pass is retried, all `max_retries + 1` calls are made and the last exception is raised |
| RequestsProvider.OtherErrorEscapesAtOnce | src/scraper_mcp/providers/requests_provider.py:145-149 | an exception that is not retried escapes on the call that raised it |
| RequestsProvider.NegativeBudgetNeverCalls | src/scraper_mcp/providers/requests_provider.py:168-171 | a negative budget makes no call and raises the loop's `RuntimeError` |
| RequestsProvider.RequestsProvider.constructor | src/scraper_mcp/providers/requests_provider.py:24-47 | the provider keeps its timeout, retry budget, delay, user agent and cache flag |
| RequestsProvider.RequestsProvider.RetryLoop | src/scraper_mcp/providers/requests_provider.py:99-171 | the loop returns or raises what the retry specification says, after that many calls, having slept the doubling delays between them |
| RequestsProvider.RequestsProvider.Scrape | src/scraper_mcp/providers/requests_provider.py:74-171 | `scrape` uses the per-call budget or the provider's, sends the caller's headers plus the default `User-Agent`, and returns or raises what the retry loop does |
| RequestsProvider.FindChar | src/scraper_mcp/providers/requests_provider.py:69 | finds the first index of a character, or -1 when it is absent |
| RequestsProvider.CleanUrl | src/scraper_mcp/providers/requests_provider.py:69 | `urlsplit`'s clean-up of leading controls and of tabs and line breaks |
| RequestsProvider.UrlScheme | src/scraper_mcp/providers/requests_provider.py:69 | the scheme holds only scheme characters and no upper-case letter |
| RequestsProvider.UrlSchemeRule | src/scraper_mcp/providers/requests_provider.py:69 | when the cleaned URL's text before its first ':' is non-empty, starts with an ASCII letter and holds only scheme characters, the scheme is that text lower-cased; a non-empty scheme only ever arises that way |
| RequestsProvider.SchemePrefixFromText | src/scraper_mcp/providers/requests_provider.py:69-70 | a URL whose lower-cased text starts with a lower-case name and ':' has that name as its scheme prefix |
| RequestsProvider.TextFromSchemePrefix | src/scraper_mcp/providers/requests_provider.py:69-70 | a scheme ending at the first ':' shows in the lower-cased text as the scheme and ':' |
| RequestsProvider.SchemeIs | src/scraper_mcp/providers/requests_provider.py:69-70 | the scheme is a given lower-case name exactly when the lower-cased cleaned URL starts with that name and ':' |
| RequestsProvider.SupportsUrl | src/scraper_mcp/providers/requests_provider.py:59-72 | True exactly when `urlparse` does not raise and the lower-cased cleaned URL starts with `http:` or `https:` |
| RequestsProvider.StripLeadingIgnoresCase | src/scraper_mcp/providers/requests_provider.py:69 | dropping leading controls and spaces commutes with lower-casing |
| RequestsProvider.RemoveUnsafeIgnoresCase | src/scraper_mcp/providers/requests_provider.py:69 | removing tabs and line breaks commutes with lower-casing |
| RequestsProvider.CleanUrlIgnoresCase | src/scraper_mcp/providers/requests_provider.py:69 | cleaning a lower-cased URL gives the lower-cased cleaned URL |
| RequestsProvider.SchemeIgnoresCase | src/scraper_mcp/providers/requests_provider.py:69-70 | for every URL, the scheme does not depend on the URL's letter case |
| RequestsProvider.HttpUrlSupported | src/scraper_mcp/providers/requests_provider.py:70 | `http://example.com` is supported |
| RequestsProvider.HttpsUrlSupported | src/scraper_mcp/providers/requests_provider.py:70 | `https://example.com` is supported |
| RequestsProvider.FtpUrlRejected | src/scraper_mcp/providers/requests_provider.py:70 | `ftp://example.com` is rejected |
| RequestsProvider.JavascriptUrlRejected | src/scraper_mcp/providers/requests_provider.py:70 | a `javascript:` URL is rejected |
| RequestsProvider.FileUrlRejected | src/scraper_mcp/providers/requests_provider.py:70 | `file:///path/to/file` is rejected |
| RequestsProvider.DataUrlRejected | src/scraper_mcp/providers/requests_provider.py:70 | a `data:` URL is rejected |
| RequestsProvider.NotHttpByHead | src/scraper_mcp/providers/requests_provider.py:69-70 | a URL whose first character is printable and not `h` or `H` is rejected |
| RequestsProvider.NoColonNoScheme | src/scraper_mcp/providers/requests_provider.py:69-70 | a URL without a ':' has no scheme and is rejected |
| RequestsProvider.TextWithoutColonRejected | src/scraper_mcp/providers/requests_provider.py:69-70 | `not a url` has no scheme and is rejected |
| RequestsProvider.EmptyUrlRejected | src/scraper_mcp/providers/requests_provider.py:69-70 | the empty string has no scheme and is rejected |
| RequestsProvider.LeadingColonRejected | src/scraper_mcp/providers/requests_provider.py:69-70 | `://invalid` has no scheme and is rejected |
| AdminService.CacheTtlPrefix | src/scraper_mcp/admin/service.py:144 | among the eleven keys, exactly the three TTL keys start with `cache_ttl_` |
| AdminService.Accepts | src/scraper_mcp/admin/service.py:136-152 | the `if`/`elif` chain of `update_config` for one pair: a valid key and a value that passes that key's type and range test |
| AdminService.AcceptsIffWellTyped | src/scraper_mcp/admin/service.py:136-152 | a pair is applied exactly when its key is one of the eleven and its value is of that key's kind and range |
| AdminService.BoolPassesAsInt | src/scraper_mcp/admin/service.py:138-147 | `concurrency = True` and `cache_ttl_default = False` are accepted because a bool is an int, while `concurrency = False`, `concurrency = 51` and `proxy_enabled = 1` are rejected |
| AdminService.AppliedKeys | src/scraper_mcp/admin/service.py:134-152 | `updated` names exactly the keys of the accepted pairs, no more entries than there were pairs |
| AdminService.ApplyUpdates | src/scraper_mcp/admin/service.py:134-152 | the configuration after the loop: the accepted pairs written in input order, the rejected ones skipped |
| AdminService.LastAccepted | src/scraper_mcp/admin/service.py:135-152 | a key has a last accepted value exactly when some pair for it was accepted |
| AdminService.ApplyUpdatesAt | src/scraper_mcp/admin/service.py:135-152 | after an update a key holds its last accepted value, or keeps what it held when no pair for it was accepted |
| AdminService.UnknownKeysIgnored | src/scraper_mcp/admin/service.py:120-136 | keys outside the eleven are neither added nor changed |
| AdminService.UpdatesKeepSane | src/scraper_mcp/admin/service.py:135-152 | an update keeps exactly the eleven keys, each holding a value of its kind and range |
| AdminService.DefaultsSane | src/scraper_mcp/admin/service.py:15-27 | the defaults hold the eleven keys with values of their kinds |
| AdminService.UpdateMessage | src/scraper_mcp/admin/service.py:156 | the message starts with `Updated ` |
| AdminService.UpdateMessageDeterminesCount | src/scraper_mcp/admin/service.py:156 | the message tells the number of applied keys: equal messages mean equal counts |
| AdminService.OrElse | src/scraper_mcp/admin/service.py:30-32 | `a or b` is truthy exactly when one of them is, and is `a` when `a` is truthy |
| AdminService.Seeded | src/scraper_mcp/admin/service.py:30-41 | the proxy seeding of the constructor: with an HTTP or HTTPS proxy variable set, `proxy_enabled` becomes True and each set proxy and `no_proxy` is copied; otherwise nothing changes |
| AdminService.ProxyEnabledFromEnvironment | src/scraper_mcp/admin/service.py:30-35 | `proxy_enabled` is True exactly when an HTTP or HTTPS proxy variable is non-empty in either spelling |
| AdminService.NoProxyOnlyWithProxy | src/scraper_mcp/admin/service.py:32-41 | `no_proxy` is copied only together with an HTTP or HTTPS proxy, the upper-case variable winning |
| AdminService.SetKeepsSane | src/scraper_mcp/admin/service.py:34-41 | storing a value of its kind under one of the eleven keys keeps the configuration well shaped |
| AdminService.SeedingKeepsSane | src/scraper_mcp/admin/service.py:29-41 | the proxy seeding keeps the configuration well shaped |
| AdminService.RuntimeConfig.constructor | src/scraper_mcp/admin/service.py:15-41 | the configuration is the defaults followed by the proxy seeding |
| AdminService.RuntimeConfig.GetConfig | src/scraper_mcp/admin/service.py:52-62 | the stored value for a present key, otherwise the supplied default |
| AdminService.RuntimeConfig.UpdateConfig | src/scraper_mcp/admin/service.py:108-159 | the loop writes exactly the accepted pairs in order, returns the applied keys in input order, and reports their number |
| ToolsService.CleanMetadata | src/scraper_mcp/tools/service.py:27-78 | `elapsed_ms`, `headers` and `page_metadata` are kept when present; `attempts` only above 1, `retries` only above 0; `from_cache` and `proxy_used` only as True when truthy; `proxy_config` only with `proxy_used`; selector info only for a non-empty selector; `encoding` and `cache_expires` never |
| ToolsService.CleanedKeysBounded | src/scraper_mcp/tools/service.py:38-78 | a cleaned dict holds only the ten named keys |
| ToolsService.NoDroppedKeys | src/scraper_mcp/tools/service.py:38-78 | a dict without `encoding` and `cache_expires` holds only keys among the ten that `clean_metadata` may write |
| ToolsService.CleanIdempotent | src/scraper_mcp/tools/service.py:38-78 | cleaning a cleaned dict again with the same selector arguments changes nothing |
| ToolsService.CleanProviderMetadata | src/scraper_mcp/tools/service.py:44-53 | on the provider's metadata, `attempts` and `retries` survive exactly when a retry happened, `from_cache` exactly for a cached response, and the cache expiry never |
| ToolsService.DropHeaders | src/scraper_mcp/tools/service.py:114-116 | headers remain exactly when asked for and present, and nothing else changes |
| ToolsService.AttemptsOr1 | src/scraper_mcp/tools/service.py:127 | `get("attempts", 1)` is the stored value or 1 |
| ToolsService.ErrorString | src/scraper_mcp/tools/service.py:143 | the error text is the exception's class name, `": "`, then its message |
| ToolsService.ApplySelector | src/scraper_mcp/tools/service.py:109-112 | without a non-empty selector the content passes unchanged with no count; with one, the filter's result or its exception |
| ToolsService.RawOutcome | src/scraper_mcp/tools/service.py:105-140 | the `try` body of `scrape_single_url_safe`: the fetch, the selector filter, headers dropped unless asked for, the metadata cleaned, and the entry to record; the first exception raised ends it |
| ToolsService.ScrapeItem | src/scraper_mcp/tools/service.py:81-155 | `scrape_single_url_safe`: `RawOutcome` passed through the `try`/`except` of `Safe` |
| ToolsService.ConvertedOutcome | src/scraper_mcp/tools/service.py:229-272 | the `try` body of the markdown and text functions: fetch, filter, convert, the page metadata of the filtered content added to the provider's dict, headers dropped, cleaned; the first exception raised ends it |
| ToolsService.MarkdownItem | src/scraper_mcp/tools/service.py:203-287 | `scrape_single_url_markdown_safe`: `ConvertedOutcome` with `html_to_markdown` as the conversion, passed through `Safe` |
| ToolsService.TextItem | src/scraper_mcp/tools/service.py:336-420 | `scrape_single_url_text_safe`: `ConvertedOutcome` with `html_to_text` as the conversion (its `try` body at lines 362-405), passed through `Safe` |
| ToolsService.LinksOutcome | src/scraper_mcp/tools/service.py:493-522 | the `try` body of `extract_links_single_safe`: fetch, filter, the links of the filtered content resolved against the final URL, and their count, or the first exception a resolution raises |
| ToolsService.LinksItem | src/scraper_mcp/tools/service.py:469-537 | `extract_links_single_safe`: `LinksOutcome` passed through `Safe` |
| ToolsService.Safe | src/scraper_mcp/tools/service.py:105-155 | an item succeeds exactly when no exception was raised; success has data and no error, failure has no data and `"<Type>: <message>"`; the metrics entry carries the same success and error |
| ToolsService.ScrapeSucceedsIff | src/scraper_mcp/tools/service.py:105-141 | a raw scrape succeeds exactly when the fetch and, with a selector, the filter succeed; a failed fetch gives its own error text |
| ToolsService.ScrapeSuccessData | src/scraper_mcp/tools/service.py:106-140 | a raw success carries the fetch's status and content type, the unfiltered content without a selector, headers only when asked for, and records the status and the provider's attempts (1 when absent) |
| ToolsService.ConvertedSuccessData | src/scraper_mcp/tools/service.py:233-271 | a markdown or text success carries the converted filtered content, the page metadata of the filtered content, and headers only when asked for |
| ToolsService.MarkdownConversionFailure | src/scraper_mcp/tools/service.py:239-287 | an exception from the markdown conversion yields a failed item with that exception's error text |
| ToolsService.RecordedAttemptsAgree | src/scraper_mcp/tools/service.py:122-128 | the raw and converting paths record the same metrics entry whenever the provider reports at least one attempt |
| ToolsService.LinksCountMatches | src/scraper_mcp/tools/service.py:502-520 | `count` is the number of links, one per anchor with an `href` in the filtered content |
| ToolsService.LinksJoinFailure | src/scraper_mcp/tools/service.py:502-537 | when resolving some link against the final URL raises, the item fails with the error string of the first link whose resolution raises |
| Common.CountWhere | src/scraper_mcp/tools/service.py:193-194 | `sum(1 for r in results if ...)`: the count of the elements passing a test is at most the number of elements |
| Common.CountComplement | src/scraper_mcp/tools/service.py:193-194 | counting by a test and by its negation counts every element exactly once |
| ToolsService.Aggregate | src/scraper_mcp/tools/service.py:193-200 | `total` is the number of results, `successful` counts successes, `failed` counts failures, and `total = successful + failed` |
| ToolsService.AllOrNothing | src/scraper_mcp/tools/service.py:193-200 | an all-success batch reports no failure and an all-failure batch no success |
| ToolsService.RunSafe | src/scraper_mcp/tools/service.py:104-155 | one per-URL call returns its item and records exactly one metrics entry |
| ToolsService.Record | src/scraper_mcp/tools/service.py:119-154 | recording one call's entry returns its item and appends exactly that entry to the metrics history |
| ToolsService.RunEach | src/scraper_mcp/tools/service.py:183-189 | `results[i]` is the item of entry `i`'s own call, in input order; the earlier metrics history is kept and one entry per URL is recorded after it, in order |
| ToolsService.RunBatch | src/scraper_mcp/tools/service.py:176-200 | the loop over the entries followed by the counts over the gathered items: `results[i]` is entry `i`'s own item and the response is the aggregate of the results |
| ToolsService.ScrapeSingleUrlSafe | src/scraper_mcp/tools/service.py:81-155 | returns the raw item and records its entry once |
| ToolsService.BatchScrapeUrls | src/scraper_mcp/tools/service.py:158-200 | `results[i]` is the raw item of `urls[i]` built from entry `i`'s own provider call, with the counts over them; the earlier metrics history is kept and entry `i` after it is the record of that call |
| ToolsService.ScrapeSingleUrlMarkdownSafe | src/scraper_mcp/tools/service.py:203-287 | returns the markdown item and records its entry once |
| ToolsService.BatchScrapeUrlsMarkdown | src/scraper_mcp/tools/service.py:290-333 | `results[i]` is the markdown item of `urls[i]` built from entry `i`'s own provider call, with the counts over them; the earlier metrics history is kept and entry `i` after it is the record of that call |
| ToolsService.ScrapeSingleUrlTextSafe | src/scraper_mcp/tools/service.py:336-420 | returns the text item and records its entry once |
| ToolsService.BatchScrapeUrlsText | src/scraper_mcp/tools/service.py:423-466 | `results[i]` is the text item of `urls[i]` built from entry `i`'s own provider call, with the counts over them; the earlier metrics history is kept and entry `i` after it is the record of that call |
| ToolsService.ExtractLinksSingleSafe | src/scraper_mcp/tools/service.py:469-537 | returns the links item and records its entry once |
| ToolsService.BatchExtractLinks | src/scraper_mcp/tools/service.py:540-579 | `results[i]` is the links item of `urls[i]` built from entry `i`'s own provider call, with the counts over them; the earlier metrics history is kept and entry `i` after it is the record of that call |

## Left out

- Concurrency: `asyncio.Semaphore`, `asyncio.gather` and `run_in_executor` are not modelled. A batch runs its URLs one after another in list order. The results keep input order either way, but the order of the metrics entries is fixed here and is not under `gather`.
- `asyncio.sleep` in the retry loop is not modelled as waiting. The loop returns the delays it would sleep.
- HTML libraries: BeautifulSoup/lxml parsing, `markdownify`, `get_text` and CSS selector matching are function parameters. So are the tag decomposition loops in `html_to_markdown`/`html_to_text`. `filter_html_by_selector` is not defined in the repository's `utils.py` and is a parameter returning the filtered HTML and a count, or an exception.
- `urljoin` is a parameter that returns the joined URL or raises; which inputs make it raise is not modelled. `urlparse`'s own checks that raise (for example on a malformed IPv6 netloc) are the `parseRaises` argument of `RequestsProvider.SupportsUrl`. The scheme rule is modelled.
- The `timeout` argument of `scrape` is not modelled: it only reaches `session.get`, which is the `session` parameter.
- `requests` response headers are case-insensitive; the model's headers are a plain map.
- `scrape` inserts `User-Agent` into the caller's own `headers` dict. The model returns the headers sent instead of changing a caller's object.
- The HTTP cache session of requests-cache (cache.py) is not modelled. A cached response is the `fromCache`/`expires` fields of a response.
- diskcache internals are not modelled: SQLite, LRU culling, size limits, size warnings, directory fallback, `get_stats`, `check_size`, `close`. The store is a map of entries with optional expiry times, and a failing store is the `storeFails` argument (for `clear`, one flag per store call: `clearFails` and `resetFails`). A failing store call is taken to have changed nothing: diskcache's `clear` and `expire` delete in batches, one transaction each, so a call that raises part-way may in fact leave some entries removed, which the model does not capture.
- The `enable_statistics` constructor argument (cache_manager.py:44, 69) is not modelled: the manager always counts hits and misses, as it does with the default `True` that every caller uses.
- CacheLayer.CacheKey: SHA-256 and `json.dumps` are replaced by the canonical key-sorted list itself. Extra parameters cannot be named `url` (Python raises a `TypeError` for a duplicate keyword). Keyword values are null, booleans, integers, strings and lists of these; floats and nested dicts (whose own keys `sort_keys` also orders) are not modelled.
- CacheLayer.TtlForUrl: letter case is folded for ASCII letters only (Python's `lower` folds all of Unicode).
- Floating point: `retry_delay` is a real, `elapsed_ms` an integer, and uptime whole seconds; rounding in `to_dict` and `get_stats` is not modelled.
- Clocks: `datetime.now`, the start time and the per-record timestamps are not modelled. Uptime is formatted from a given number of seconds.
- `to_dict` is modelled only for its counters, rates and window snapshots, not its JSON layout.
- Routes and plumbing are not modelled: MCP tool registration, the Starlette routes and dashboard of admin/router.py and server.py, `__main__`, `get_stats`, `get_current_config`, `clear_cache`, and `core/providers.py:get_provider`, which the batch path does not call.
- Environment reading is a map passed in; the module-level seeding of the configuration is the `RuntimeConfig` constructor.
- `update_config` takes a dict, so its keys are distinct; the model takes any sequence of pairs, which includes that case.
- The `url=` argument passed to `ScrapeResponse` and `LinksResponse` is not kept, because those models declare no `url` field and pydantic ignores it.
- The metadata dict is a record of the twelve keys the core reads or writes, each typed by what the provider stores there. A foreign key or a value of another type (for example a string `attempts`) is not modelled.
