/**
 * `RequestsProvider` of providers/requests_provider.py: the URL-scheme gate and the fetch
 * with its retry loop. The HTTP session is a function from the call index to what that call of
 * `session.get` did (returned a response or raised), so a run of the loop is determined by it.
 */
module RequestsProvider {
  import opened Common
  import opened Text
  import opened Models

  /** The exception classes the loop tells apart; `ConnectTimeout` and the like are counted under the class the loop catches them as. */
  datatype ErrorClass = Timeout | ConnectionError | HTTPError | NotRetried

  /** An exception raised during a call, with the class the `except` clause sees. */
  datatype Failure = Failure(cls: ErrorClass, exception: Exception)

  /** The part of a `requests` response the provider reads. `fromCache` and `expires` are `None` when the attribute is missing. */
  datatype Response = Response(
    url: string,
    text: string,
    statusCode: nat,
    reason: string,
    headers: map<string, string>,
    encoding: Option<string>,
    elapsedMs: int,
    fromCache: Option<bool>,
    expires: Option<string>)

  /** What one `session.get` call did. */
  datatype GetOutcome = Returned(response: Response) | Raised(failure: Failure)

  /** How one pass of the loop body ends. */
  datatype Attempt = Succeeded(response: Response) | Retryable(failure: Failure) | Fatal(failure: Failure)

  /** The exception raised when the loop is never entered (a negative retry budget). */
  const UnexpectedLoopExit := Failure(NotRetried, Exception("RuntimeError", "Unexpected error in retry loop"))

  /** `response.raise_for_status()`: an `HTTPError` exactly for a 4xx or 5xx status. */
  function HttpErrorFor(r: Response): (e: Option<Exception>)
    ensures e.Some? <==> 400 <= r.statusCode < 600
    ensures e.Some? ==> e.value.name == "HTTPError" && StartsWith(e.value.message, NatToString(r.statusCode))
  {
    var prefix := NatToString(r.statusCode);
    if 400 <= r.statusCode < 500 then
      assert StartsWith(prefix + " Client Error: " + r.reason + " for url: " + r.url, prefix);
      Some(Exception("HTTPError", prefix + " Client Error: " + r.reason + " for url: " + r.url))
    else if 500 <= r.statusCode < 600 then
      assert StartsWith(prefix + " Server Error: " + r.reason + " for url: " + r.url, prefix);
      Some(Exception("HTTPError", prefix + " Server Error: " + r.reason + " for url: " + r.url))
    else None
  }

  /**
   * The `try`/`except` of one pass: a response passing `raise_for_status` succeeds; `Timeout`,
   * `ConnectionError` and `HTTPError` (so every 4xx and 5xx status) are retried; anything else escapes.
   */
  function Classify(o: GetOutcome): (a: Attempt)
    ensures a.Succeeded? <==> o.Returned? && !(400 <= o.response.statusCode < 600)
    ensures a.Succeeded? ==> a.response == o.response
    ensures a.Retryable? <==> (o.Returned? && 400 <= o.response.statusCode < 600) || (o.Raised? && o.failure.cls != NotRetried)
    ensures a.Fatal? ==> a.failure == o.failure
    ensures o.Raised? && !a.Fatal? ==> a.failure == o.failure
    ensures o.Returned? && a.Retryable? ==> a.failure.cls == HTTPError
  {
    match o
    case Returned(r) =>
      var e := HttpErrorFor(r);
      if e.None? then Succeeded(r) else Retryable(Failure(HTTPError, e.value))
    case Raised(f) =>
      if f.cls == NotRetried then Fatal(f) else Retryable(f)
  }

  /** A 404 is retried like a timeout: `raise_for_status` turns it into an `HTTPError`. */
  lemma NotFoundIsRetried(r: Response)
    requires r.statusCode == 404
    ensures Classify(Returned(r)).Retryable?
    ensures Classify(Returned(r)).failure.exception.name == "HTTPError"
  {
  }

  /** The result built from a response that passed on the pass with index `attempt` (zero-based). */
  function BuildResult(r: Response, attempt: nat): (res: ScrapeResult)
    ensures res.url == r.url && res.content == r.text && res.statusCode == r.statusCode
    ensures res.contentType == if "Content-Type" in r.headers then Some(r.headers["Content-Type"]) else None
    ensures res.metadata.headers == Some(r.headers) && res.metadata.encoding == Some(r.encoding)
    ensures res.metadata.elapsedMs == Some(r.elapsedMs)
    ensures res.metadata.attempts == Some(attempt + 1) && res.metadata.retries == Some(attempt)
    ensures res.metadata.fromCache == Some(r.fromCache == Some(true))
    ensures res.metadata.cacheExpires.Some? <==> r.fromCache == Some(true) && r.expires.Some?
    ensures res.metadata.cacheExpires.Some? ==> res.metadata.cacheExpires == r.expires
    ensures Keys(res.metadata) <= {"headers", "encoding", "elapsed_ms", "attempts", "retries", "from_cache", "cache_expires"}
  {
    var fromCache := r.fromCache == Some(true);
    var metadata := EmptyMetadata.(
      headers := Some(r.headers),
      encoding := Some(r.encoding),
      elapsedMs := Some(r.elapsedMs),
      attempts := Some(attempt + 1),
      retries := Some(attempt),
      fromCache := Some(fromCache),
      cacheExpires := if fromCache && r.expires.Some? then Some(r.expires.value) else None);
    ScrapeResult(
      r.url,
      r.text,
      r.statusCode,
      if "Content-Type" in r.headers then Some(r.headers["Content-Type"]) else None,
      metadata)
  }

  /** The headers sent: the caller's, plus the provider's `User-Agent` only when the caller gave none. */
  function WithDefaultUserAgent(headers: map<string, string>, userAgent: string): (sent: map<string, string>)
    ensures sent.Keys == headers.Keys + {"User-Agent"}
    ensures forall k :: k in headers ==> sent[k] == headers[k]
    ensures "User-Agent" !in headers ==> sent["User-Agent"] == userAgent
  {
    if "User-Agent" in headers then headers else headers["User-Agent" := userAgent]
  }

  function Pow2(n: nat): (p: nat)
    ensures p >= 1
  {
    if n == 0 then 1 else 2 * Pow2(n - 1)
  }

  /** The sleeps before the first `n` retries: `retry_delay * 2 ** (k - 1)` before retry `k`. */
  function Delays(retryDelay: real, n: nat): (s: seq<real>)
    ensures |s| == n
  {
    if n == 0 then [] else Delays(retryDelay, n - 1) + [retryDelay * Pow2(n - 1) as real]
  }

  /** The sleep before retry `k + 1` is `retry_delay * 2 ** k`. */
  lemma {:induction false} DelayAt(retryDelay: real, n: nat, k: nat)
    requires k < n
    ensures Delays(retryDelay, n)[k] == retryDelay * Pow2(k) as real
  {
    if k < n - 1 {
      DelayAt(retryDelay, n - 1, k);
    }
  }

  /** The backoff starts at `retry_delay` and doubles before every further retry. */
  lemma DelaysDouble(retryDelay: real, n: nat)
    ensures n > 0 ==> Delays(retryDelay, n)[0] == retryDelay
    ensures forall k :: 0 < k < n ==> Delays(retryDelay, n)[k] == 2.0 * Delays(retryDelay, n)[k - 1]
  {
    if n > 0 {
      DelayAt(retryDelay, n, 0);
    }
    forall k | 0 < k < n
      ensures Delays(retryDelay, n)[k] == 2.0 * Delays(retryDelay, n)[k - 1]
    {
      DelayAt(retryDelay, n, k);
      DelayAt(retryDelay, n, k - 1);
      var p := Pow2(k - 1) as real;
      assert Pow2(k) as real == 2.0 * p;
      assert retryDelay * (2.0 * p) == 2.0 * (retryDelay * p);
    }
  }

  /**
   * The index of the pass that ends the loop when it starts at `from`: the first pass that does not
   * fail retryably, or the last one the budget allows.
   */
  function StopIndex(session: nat -> GetOutcome, maxRetries: int, from: nat): (j: nat)
    requires from <= maxRetries
    ensures from <= j <= maxRetries
    ensures forall i :: from <= i < j ==> Classify(session(i)).Retryable?
    ensures j < maxRetries ==> !Classify(session(j)).Retryable?
    decreases maxRetries - from
  {
    if from == maxRetries || !Classify(session(from)).Retryable? then from
    else StopIndex(session, maxRetries, from + 1)
  }

  /** The index where the loop stops is pinned down by the passes before it and the one at it. */
  lemma StopIndexAt(session: nat -> GetOutcome, maxRetries: int, k: nat)
    requires k <= maxRetries
    requires forall i :: 0 <= i < k ==> Classify(session(i)).Retryable?
    requires k == maxRetries || !Classify(session(k)).Retryable?
    ensures StopIndex(session, maxRetries, 0) == k
  {
  }

  /** How many times `session.get` is called when the budget is `maxRetries` retries. */
  function CallCount(session: nat -> GetOutcome, maxRetries: int): nat
  {
    if maxRetries < 0 then 0 else StopIndex(session, maxRetries, 0) + 1
  }

  /** What `scrape` returns or raises when the budget is `maxRetries` retries. */
  function ScrapeOutcome(session: nat -> GetOutcome, maxRetries: int): Result<ScrapeResult, Failure>
  {
    if maxRetries < 0 then Err(UnexpectedLoopExit)
    else
      var j := StopIndex(session, maxRetries, 0);
      match Classify(session(j))
      case Succeeded(r) => Ok(BuildResult(r, j))
      case Retryable(f) => Err(f)
      case Fatal(f) => Err(f)
  }

  /** `session.get` is called at least once and at most `max_retries + 1` times; a zero budget means one call. */
  lemma CallBounds(session: nat -> GetOutcome, maxRetries: int)
    requires maxRetries >= 0
    ensures 1 <= CallCount(session, maxRetries) <= maxRetries + 1
    ensures maxRetries == 0 ==> CallCount(session, maxRetries) == 1
  {
  }

  /** A returned result records the number of calls as `attempts` and one less as `retries`, and only the last call passed. */
  lemma SuccessRecordsAttempts(session: nat -> GetOutcome, maxRetries: int, res: ScrapeResult)
    requires ScrapeOutcome(session, maxRetries) == Ok(res)
    ensures maxRetries >= 0
    ensures res.metadata.attempts == Some(CallCount(session, maxRetries))
    ensures res.metadata.retries == Some(CallCount(session, maxRetries) - 1)
    ensures forall i :: 0 <= i < CallCount(session, maxRetries) - 1 ==> Classify(session(i)).Retryable?
    ensures Classify(session(CallCount(session, maxRetries) - 1)).Succeeded?
  {
  }

  /** Success after `k` retryable failures, within the budget, yields `attempts = k + 1` and `retries = k` after `k + 1` calls. */
  lemma SuccessAfterFailures(session: nat -> GetOutcome, maxRetries: int, k: nat)
    requires k <= maxRetries
    requires forall i :: 0 <= i < k ==> Classify(session(i)).Retryable?
    requires Classify(session(k)).Succeeded?
    ensures CallCount(session, maxRetries) == k + 1
    ensures ScrapeOutcome(session, maxRetries) == Ok(BuildResult(session(k).response, k))
    ensures ScrapeOutcome(session, maxRetries).value.metadata.attempts == Some(k + 1)
    ensures ScrapeOutcome(session, maxRetries).value.metadata.retries == Some(k)
  {
    StopIndexAt(session, maxRetries, k);
  }

  /** When every allowed call fails retryably, the last call's exception is raised after `max_retries + 1` calls. */
  lemma ExhaustedRetriesRaiseLast(session: nat -> GetOutcome, maxRetries: int)
    requires maxRetries >= 0
    requires forall i :: 0 <= i <= maxRetries ==> Classify(session(i)).Retryable?
    ensures CallCount(session, maxRetries) == maxRetries + 1
    ensures ScrapeOutcome(session, maxRetries) == Err(Classify(session(maxRetries)).failure)
  {
    StopIndexAt(session, maxRetries, maxRetries);
  }

  /** An exception of any other class escapes on its first occurrence, ending the calls there. */
  lemma OtherErrorEscapesAtOnce(session: nat -> GetOutcome, maxRetries: int, k: nat)
    requires k <= maxRetries
    requires forall i :: 0 <= i < k ==> Classify(session(i)).Retryable?
    requires session(k).Raised? && session(k).failure.cls == NotRetried
    ensures CallCount(session, maxRetries) == k + 1
    ensures ScrapeOutcome(session, maxRetries) == Err(session(k).failure)
  {
    StopIndexAt(session, maxRetries, k);
  }

  /** With a negative budget the loop never runs: no call is made and the fallback `RuntimeError` is raised. */
  lemma NegativeBudgetNeverCalls(session: nat -> GetOutcome, maxRetries: int)
    requires maxRetries < 0
    ensures CallCount(session, maxRetries) == 0
    ensures ScrapeOutcome(session, maxRetries) == Err(UnexpectedLoopExit)
  {
  }

  class RequestsProvider {
    var timeout: int
    var maxRetries: int
    var retryDelay: real
    var userAgent: string
    var cacheEnabled: bool

    /** `__init__`: the settings are kept as given (the session itself is the `session` argument of `Scrape`). */
    constructor (timeout: int, maxRetries: int, retryDelay: real, userAgent: string, cacheEnabled: bool)
      ensures this.timeout == timeout && this.maxRetries == maxRetries && this.retryDelay == retryDelay
      ensures this.userAgent == userAgent && this.cacheEnabled == cacheEnabled
    {
      this.timeout := timeout;
      this.maxRetries := maxRetries;
      this.retryDelay := retryDelay;
      this.userAgent := userAgent;
      this.cacheEnabled := cacheEnabled;
    }

    /**
     * `scrape`: the call-level options fall back to the provider's settings, the default
     * `User-Agent` is filled in, and the loop runs. Returns the outcome, the headers sent, the
     * number of `session.get` calls and the backoff sleeps taken, in order.
     */
    method Scrape(maxRetriesOption: Option<int>, headersOption: Option<map<string, string>>,
                  session: nat -> GetOutcome)
      returns (r: Result<ScrapeResult, Failure>, sentHeaders: map<string, string>, calls: nat, sleeps: seq<real>)
      ensures var budget := if maxRetriesOption.Some? then maxRetriesOption.value else maxRetries;
        && r == ScrapeOutcome(session, budget)
        && calls == CallCount(session, budget)
      ensures sleeps == Delays(retryDelay, if calls == 0 then 0 else calls - 1)
      ensures sentHeaders == WithDefaultUserAgent(if headersOption.Some? then headersOption.value else map[], userAgent)
    {
      var maxRetries := if maxRetriesOption.Some? then maxRetriesOption.value else this.maxRetries;
      var headers := if headersOption.Some? then headersOption.value else map[];
      if "User-Agent" !in headers {
        headers := headers["User-Agent" := userAgent];
      }
      sentHeaders := headers;
      r, calls, sleeps := RetryLoop(maxRetries, session);
    }

    /**
     * The `while attempt <= max_retries` loop of `scrape`: calls `session.get` until a call passes,
     * raises an exception that is not retried, or the budget is spent, sleeping between retries.
     */
    method RetryLoop(maxRetries: int, session: nat -> GetOutcome)
      returns (r: Result<ScrapeResult, Failure>, calls: nat, sleeps: seq<real>)
      ensures r == ScrapeOutcome(session, maxRetries)
      ensures calls == CallCount(session, maxRetries)
      ensures sleeps == Delays(retryDelay, if calls == 0 then 0 else calls - 1)
    {
      var lastException: Option<Failure> := None;
      var attempt: nat := 0;
      calls, sleeps := 0, [];
      while attempt <= maxRetries
        invariant calls == attempt
        invariant maxRetries < 0 ==> attempt == 0
        invariant maxRetries >= 0 ==> attempt <= StopIndex(session, maxRetries, 0)
        invariant forall i :: 0 <= i < attempt ==> Classify(session(i)).Retryable?
        invariant attempt == 0 ==> lastException.None?
        invariant sleeps == Delays(retryDelay, attempt)
        decreases maxRetries - attempt
      {
        var outcome := session(attempt);
        calls := calls + 1;
        var failure: Failure;
        match outcome {
          case Returned(response) =>
            var httpError := HttpErrorFor(response);
            if httpError.None? {
              StopIndexAt(session, maxRetries, attempt);
              r := Ok(BuildResult(response, attempt));
              return;
            }
            failure := Failure(HTTPError, httpError.value);
          case Raised(f) =>
            failure := f;
        }
        if failure.cls == NotRetried {
          StopIndexAt(session, maxRetries, attempt);
          r := Err(failure);
          return;
        }
        lastException := Some(failure);
        attempt := attempt + 1;
        if attempt > maxRetries {
          StopIndexAt(session, maxRetries, attempt - 1);
          r := Err(failure);
          return;
        }
        sleeps := sleeps + [retryDelay * Pow2(attempt - 1) as real];
      }
      // The loop is left only through a `return` unless it never ran, so no exception is pending.
      assert lastException.None?;
      r := Err(UnexpectedLoopExit);
    }
  }

  /** The characters `urlsplit` allows in a scheme. */
  predicate IsSchemeChar(c: char)
  {
    ('a' <= c <= 'z') || ('A' <= c <= 'Z') || ('0' <= c <= '9') || c == '+' || c == '-' || c == '.'
  }

  /** `u[:i]` qualifies as a scheme: non-empty, an ASCII letter first, scheme characters only. */
  predicate IsSchemePrefix(u: string, i: int)
  {
    0 < i <= |u| && (('a' <= u[0] <= 'z') || ('A' <= u[0] <= 'Z')) && forall k :: 0 <= k < i ==> IsSchemeChar(u[k])
  }

  /** `s.find(c)`: the first index of `c`, or -1. */
  function FindChar(s: string, c: char): (i: int)
    ensures -1 <= i < |s|
    ensures i >= 0 ==> s[i] == c
    ensures forall k :: 0 <= k < |s| && (i < 0 || k < i) ==> s[k] != c
  {
    if s == [] then -1
    else if s[0] == c then 0
    else
      var j := FindChar(s[1..], c);
      if j < 0 then -1 else j + 1
  }

  /** `lstrip` of the C0 controls and space that `urlsplit` applies first. */
  function StripLeadingControls(s: string): (r: string)
    ensures r == [] || r[0] > ' '
    decreases |s|
  {
    if s != [] && s[0] <= ' ' then StripLeadingControls(s[1..]) else s
  }

  /** The removal of tab, carriage return and line feed that `urlsplit` applies next. */
  function RemoveUnsafeBytes(s: string): (r: string)
    ensures |r| <= |s|
  {
    if s == [] then []
    else
      var rest := RemoveUnsafeBytes(s[1..]);
      if s[0] == '\t' || s[0] == '\r' || s[0] == '\n' then rest else [s[0]] + rest
  }

  /** The URL after `urlsplit`'s clean-up: leading controls and spaces dropped, then tabs and line breaks removed. */
  function CleanUrl(url: string): string
  {
    RemoveUnsafeBytes(StripLeadingControls(url))
  }

  /** `u[i]` is the first ':' of `u`. */
  predicate FirstColon(u: string, i: int)
  {
    0 <= i < |u| && u[i] == ':' && forall k :: 0 <= k < i ==> u[k] != ':'
  }

  /**
   * The scheme `urlparse` reports: when the cleaned URL has a ':' and the text before the first
   * one is non-empty, starts with an ASCII letter and holds only scheme characters, that text
   * lower-cased; otherwise "".
   */
  function UrlScheme(url: string): (scheme: string)
    ensures forall i :: 0 <= i < |scheme| ==> IsSchemeChar(scheme[i]) && !('A' <= scheme[i] <= 'Z')
  {
    var u := CleanUrl(url);
    var i := FindChar(u, ':');
    if IsSchemePrefix(u, i) then Lower(u[..i]) else ""
  }

  /**
   * `urlsplit`'s scheme rule: when the text before the first ':' of the cleaned URL qualifies
   * as a scheme, the scheme is that text lower-cased, and a non-empty scheme always arises so.
   */
  lemma UrlSchemeRule(url: string)
    ensures forall i :: FirstColon(CleanUrl(url), i) && IsSchemePrefix(CleanUrl(url), i) ==>
      UrlScheme(url) == Lower(CleanUrl(url)[..i])
    ensures UrlScheme(url) != "" ==>
      exists i :: FirstColon(CleanUrl(url), i) && IsSchemePrefix(CleanUrl(url), i) && UrlScheme(url) == Lower(CleanUrl(url)[..i])
  {
    var u := CleanUrl(url);
    var i := FindChar(u, ':');
    forall j | FirstColon(u, j)
      ensures j == i
    {
    }
    if IsSchemePrefix(u, i) {
      assert FirstColon(u, i);
    }
  }

  /** A URL whose lower-cased text starts with `name` and a ':' has the scheme `name`, ending at index `|name|`. */
  lemma SchemePrefixFromText(u: string, name: string)
    requires |name| > 0 && forall k :: 0 <= k < |name| ==> 'a' <= name[k] <= 'z'
    requires StartsWith(Lower(u), name + ":")
    ensures FirstColon(u, |name|) && IsSchemePrefix(u, |name|) && Lower(u[..|name|]) == name
  {
    var n := |name|;
    assert Lower(u)[n] == (name + ":")[n] == ':';
    forall k | 0 <= k < n
      ensures IsSchemeChar(u[k]) && u[k] != ':'
    {
      assert LowerChar(u[k]) == Lower(u)[k] == (name + ":")[k] == name[k];
    }
    forall k | 0 <= k < n
      ensures Lower(u[..n])[k] == name[k]
    {
      assert Lower(u[..n])[k] == LowerChar(u[k]) == Lower(u)[k] == (name + ":")[k];
    }
  }

  /** A scheme `name` that ends at the first ':' shows in the lower-cased text as `name` and a ':'. */
  lemma TextFromSchemePrefix(u: string, name: string, i: int)
    requires FirstColon(u, i) && IsSchemePrefix(u, i) && name == Lower(u[..i])
    ensures StartsWith(Lower(u), name + ":")
  {
    forall k | 0 <= k <= i
      ensures Lower(u)[k] == (name + ":")[k]
    {
      if k < i {
        assert Lower(u[..i])[k] == LowerChar(u[k]);
      }
    }
  }

  /** The scheme is `name` exactly when the lower-cased cleaned URL starts with `name` and a ':'. */
  lemma SchemeIs(url: string, name: string)
    requires |name| > 0 && forall k :: 0 <= k < |name| ==> 'a' <= name[k] <= 'z'
    ensures UrlScheme(url) == name <==> StartsWith(Lower(CleanUrl(url)), name + ":")
  {
    var u := CleanUrl(url);
    UrlSchemeRule(url);
    if StartsWith(Lower(u), name + ":") {
      SchemePrefixFromText(u, name);
    }
    if UrlScheme(url) == name {
      var i :| FirstColon(u, i) && IsSchemePrefix(u, i) && name == Lower(u[..i]);
      TextFromSchemePrefix(u, name, i);
    }
  }

  /**
   * `supports_url`: True exactly for the schemes http and https. `parseRaises` says whether
   * `urlparse` raised `ValueError` on the URL (its network-location checks are not modelled),
   * in which case the answer is False.
   */
  function SupportsUrl(url: string, parseRaises: bool): (b: bool)
    ensures b <==> (!parseRaises &&
                    (StartsWith(Lower(CleanUrl(url)), "http:") || StartsWith(Lower(CleanUrl(url)), "https:")))
  {
    SchemeIs(url, "http");
    SchemeIs(url, "https");
    !parseRaises && (UrlScheme(url) == "http" || UrlScheme(url) == "https")
  }

  /** Lower-casing moves no ':'. */
  lemma {:induction false} FindColonIgnoresCase(s: string)
    ensures FindChar(Lower(s), ':') == FindChar(s, ':')
  {
    if s != [] {
      FindColonIgnoresCase(s[1..]);
      assert Lower(s)[1..] == Lower(s[1..]);
    }
  }

  /** On a URL that starts with no control or space and holds no tab or line break, `urlsplit`'s clean-up changes nothing. */
  lemma SchemeOfPlainUrl(url: string)
    requires url == [] || url[0] > ' '
    requires forall i :: 0 <= i < |url| ==> url[i] != '\t' && url[i] != '\r' && url[i] != '\n'
    ensures UrlScheme(url) == var i := FindChar(url, ':'); if IsSchemePrefix(url, i) then Lower(url[..i]) else ""
  {
    StripLeadingNoop(url);
    RemoveUnsafeNoop(url);
  }

  /** The scheme of a plain URL whose first ':' is at index `i`. */
  lemma SchemeAt(url: string, i: nat)
    requires i < |url| && url[0] > ' '
    requires forall k :: 0 <= k < |url| ==> url[k] != '\t' && url[k] != '\r' && url[k] != '\n'
    requires url[i] == ':' && forall k :: 0 <= k < i ==> url[k] != ':'
    ensures UrlScheme(url) == if IsSchemePrefix(url, i) then Lower(url[..i]) else ""
  {
    SchemeOfPlainUrl(url);
  }

  /** The clean-up keeps a first character that is neither a control nor a space. */
  lemma CleanUrlHead(url: string)
    requires |url| > 0 && url[0] > ' '
    ensures |CleanUrl(url)| > 0 && CleanUrl(url)[0] == url[0]
  {
    StripLeadingNoop(url);
  }

  /** A URL whose first character is neither a control, a space nor an `h` in any case is not supported. */
  lemma NotHttpByHead(url: string)
    requires |url| > 0 && url[0] > ' ' && url[0] != 'h' && url[0] != 'H'
    ensures !SupportsUrl(url, false)
  {
    CleanUrlHead(url);
    var l := Lower(CleanUrl(url));
    assert l[0] != 'h';
    assert |l| < 5 || l[..5][0] != "http:"[0];
    assert |l| < 6 || l[..6][0] != "https:"[0];
  }

  // The examples are stated about a parameter equal to the literal, which keeps the verifier
  // from unfolding the scheme functions over the whole literal.

  lemma HttpUrlSupported(url: string)
    requires url == "http://example.com"
    ensures SupportsUrl(url, false)
  {
    SchemeAt(url, 4);
    assert url[..4] == "http";
  }

  lemma HttpsUrlSupported(url: string)
    requires url == "https://example.com"
    ensures SupportsUrl(url, false)
  {
    SchemeAt(url, 5);
    assert url[..5] == "https";
  }

  lemma FtpUrlRejected(url: string)
    requires url == "ftp://example.com"
    ensures !SupportsUrl(url, false)
  {
    NotHttpByHead(url);
  }

  lemma JavascriptUrlRejected(url: string)
    requires url == "javascript:alert('test')"
    ensures !SupportsUrl(url, false)
  {
    NotHttpByHead(url);
  }

  lemma FileUrlRejected(url: string)
    requires url == "file:///path/to/file"
    ensures !SupportsUrl(url, false)
  {
    NotHttpByHead(url);
  }

  lemma DataUrlRejected(url: string)
    requires url == "data:text/html,<h1>Test</h1>"
    ensures !SupportsUrl(url, false)
  {
    NotHttpByHead(url);
  }

  lemma {:induction false} StripLeadingKeepsChars(s: string)
    ensures forall c :: c in StripLeadingControls(s) ==> c in s
    decreases |s|
  {
    if s != [] && s[0] <= ' ' {
      StripLeadingKeepsChars(s[1..]);
      assert forall c :: c in s[1..] ==> c in s;
    }
  }

  lemma {:induction false} RemoveUnsafeKeepsChars(s: string)
    ensures forall c :: c in RemoveUnsafeBytes(s) ==> c in s
  {
    if s != [] {
      RemoveUnsafeKeepsChars(s[1..]);
      assert forall c :: c in s[1..] ==> c in s;
    }
  }

  /** A URL without a ':' has no scheme, so it is rejected. */
  lemma NoColonNoScheme(url: string)
    requires ':' !in url
    ensures UrlScheme(url) == "" && !SupportsUrl(url, false)
  {
    StripLeadingKeepsChars(url);
    RemoveUnsafeKeepsChars(StripLeadingControls(url));
    UrlSchemeRule(url);
  }

  lemma TextWithoutColonRejected(url: string)
    requires url == "not a url"
    ensures UrlScheme(url) == "" && !SupportsUrl(url, false)
  {
    NoColonNoScheme(url);
  }

  lemma EmptyUrlRejected(url: string)
    requires url == ""
    ensures UrlScheme(url) == "" && !SupportsUrl(url, false)
  {
    NoColonNoScheme(url);
  }

  /** A URL that starts with ':' has an empty text before its first ':', so no scheme. */
  lemma LeadingColonRejected(url: string)
    requires url == "://invalid"
    ensures UrlScheme(url) == "" && !SupportsUrl(url, false)
  {
    CleanUrlHead(url);
    UrlSchemeRule(url);
    var u := CleanUrl(url);
    assert forall i :: FirstColon(u, i) ==> i == 0;
  }

  /** Lower-casing a character keeps it a scheme character, a letter, a non-space, or not. */
  lemma LowerCharKeepsClass(c: char)
    ensures IsSchemeChar(LowerChar(c)) == IsSchemeChar(c)
    ensures (('a' <= LowerChar(c) <= 'z') || ('A' <= LowerChar(c) <= 'Z')) == (('a' <= c <= 'z') || ('A' <= c <= 'Z'))
    ensures (LowerChar(c) > ' ') == (c > ' ')
  {
  }

  /** Lower-casing commutes with dropping the leading controls and spaces. */
  lemma {:induction false} StripLeadingIgnoresCase(s: string)
    ensures StripLeadingControls(Lower(s)) == Lower(StripLeadingControls(s))
    decreases |s|
  {
    if s != [] {
      LowerCharKeepsClass(s[0]);
      assert Lower(s)[1..] == Lower(s[1..]);
      StripLeadingIgnoresCase(s[1..]);
    }
  }

  /** Lower-casing commutes with removing tabs and line breaks. */
  lemma {:induction false} RemoveUnsafeIgnoresCase(s: string)
    ensures RemoveUnsafeBytes(Lower(s)) == Lower(RemoveUnsafeBytes(s))
  {
    if s != [] {
      assert Lower(s)[1..] == Lower(s[1..]);
      RemoveUnsafeIgnoresCase(s[1..]);
      var rest := RemoveUnsafeBytes(s[1..]);
      assert Lower([s[0]] + rest) == [LowerChar(s[0])] + Lower(rest);
    }
  }

  /** Cleaning a lower-cased URL gives the lower-cased cleaned URL. */
  lemma CleanUrlIgnoresCase(url: string)
    ensures CleanUrl(Lower(url)) == Lower(CleanUrl(url))
  {
    StripLeadingIgnoresCase(url);
    RemoveUnsafeIgnoresCase(StripLeadingControls(url));
  }

  /** Lower-casing leaves a scheme prefix a scheme prefix, and a non-prefix a non-prefix. */
  lemma SchemePrefixIgnoresCase(url: string, i: int)
    ensures IsSchemePrefix(Lower(url), i) == IsSchemePrefix(url, i)
  {
    var v := Lower(url);
    forall k | 0 <= k < |url|
      ensures IsSchemeChar(v[k]) == IsSchemeChar(url[k])
      ensures (('a' <= v[k] <= 'z') || ('A' <= v[k] <= 'Z')) == (('a' <= url[k] <= 'z') || ('A' <= url[k] <= 'Z'))
    {
      LowerCharKeepsClass(url[k]);
    }
  }

  /** The scheme test ignores letter case: `HTTP://` is read like `http://`. */
  lemma SchemeIgnoresCase(url: string)
    ensures UrlScheme(Lower(url)) == UrlScheme(url)
  {
    var u := CleanUrl(url);
    CleanUrlIgnoresCase(url);
    FindColonIgnoresCase(u);
    var i := FindChar(u, ':');
    SchemePrefixIgnoresCase(u, i);
    if IsSchemePrefix(u, i) {
      assert Lower(Lower(u)[..i]) == Lower(u[..i]) by {
        assert Lower(u)[..i] == Lower(u[..i]);
        LowerIdempotent(u[..i]);
      }
    }
  }

  lemma StripLeadingNoop(s: string)
    requires s == [] || s[0] > ' '
    ensures StripLeadingControls(s) == s
  {
  }

  lemma {:induction false} RemoveUnsafeNoop(s: string)
    requires forall i :: 0 <= i < |s| ==> s[i] != '\t' && s[i] != '\r' && s[i] != '\n'
    ensures RemoveUnsafeBytes(s) == s
  {
    if s != [] {
      RemoveUnsafeNoop(s[1..]);
      assert s == [s[0]] + s[1..];
    }
  }
}
