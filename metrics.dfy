/**
 * `metrics.py`: the process-wide request counters, the two bounded windows of recent
 * requests and recent errors, the figures derived from them, and the uptime string.
 * Timestamps (`datetime.now`) are not modelled; uptime is given in whole seconds.
 */
module Metrics {
  import opened Common
  import opened Text

  /** `deque(maxlen=50)` for recent requests and `deque(maxlen=20)` for recent errors (metrics.py:34-35). */
  const RecentRequestsCapacity: nat := 50
  const RecentErrorsCapacity: nat := 20
  /** `[-10:]` in `to_dict` (metrics.py:130, 140). */
  const SnapshotLength: nat := 10

  /** One `RequestMetrics` record, without its timestamp. */
  datatype RequestMetrics = RequestMetrics(
    url: string,
    success: bool,
    statusCode: Option<int>,
    elapsedMs: Option<int>,
    attempts: int,
    error: Option<string>)

  /** The last `min(|s|, n)` elements of `s`, in their original order. */
  function Last<T>(s: seq<T>, n: nat): (r: seq<T>)
    ensures |r| == if |s| < n then |s| else n
    ensures r == s[|s| - |r|..]
  {
    if |s| <= n then s else s[|s| - n..]
  }

  /** `deque(maxlen=cap).append(x)`: append at the right, evicting the oldest element once the deque is full. */
  function BoundedAppend<T>(window: seq<T>, x: T, cap: nat): (r: seq<T>)
    requires |window| <= cap
    ensures |r| <= cap
  {
    if |window| < cap then window + [x] else (window + [x])[|window| + 1 - cap..]
  }

  /** Appending to the window of the last `cap` items gives the window of the last `cap` items of the longer history. */
  lemma BoundedAppendLast<T>(history: seq<T>, x: T, cap: nat)
    ensures BoundedAppend(Last(history, cap), x, cap) == Last(history + [x], cap)
  {
    var h' := history + [x];
    if |history| >= cap {
      assert (Last(history, cap) + [x])[cap + 1 - cap..] == h'[|h'| - cap..];
    }
  }

  /** The failed records of a history, in arrival order. */
  function Failures(history: seq<RequestMetrics>): (r: seq<RequestMetrics>)
    ensures |r| <= |history|
    ensures forall i :: 0 <= i < |r| ==> !r[i].success && r[i] in history
  {
    if history == [] then []
    else
      var last := history[|history| - 1];
      Failures(history[..|history| - 1]) + (if last.success then [] else [last])
  }

  /** Whether a record is of a successful request. */
  predicate Succeeded(r: RequestMetrics)
  {
    r.success
  }

  /** The number of successful records of a history. */
  function SuccessCount(history: seq<RequestMetrics>): (n: nat)
    ensures n <= |history|
  {
    CountWhere(history, Succeeded)
  }

  /** Every record is either a success or a failure: the two counts add up to the history's length. */
  lemma {:induction false} SuccessesPlusFailures(history: seq<RequestMetrics>)
    ensures SuccessCount(history) + |Failures(history)| == |history|
    decreases |history|
  {
    if history != [] {
      SuccessesPlusFailures(history[..|history| - 1]);
      assert SuccessCount(history) == SuccessCount(history[..|history| - 1]) + (if history[|history| - 1].success then 1 else 0);
    }
  }

  /** The retries a record contributes: `attempts - 1` when `attempts > 1`, otherwise none. */
  function RetriesOf(r: RequestMetrics): nat
  {
    if r.attempts > 1 then r.attempts - 1 else 0
  }

  /** The sum of the retries of a history. */
  function TotalRetries(history: seq<RequestMetrics>): nat
  {
    if history == [] then 0
    else TotalRetries(history[..|history| - 1]) + RetriesOf(history[|history| - 1])
  }

  /** The reverse of a sequence. */
  function Reverse<T>(s: seq<T>): (r: seq<T>)
    ensures |r| == |s|
    ensures forall i :: 0 <= i < |s| ==> r[i] == s[|s| - 1 - i]
  {
    seq(|s|, i requires 0 <= i < |s| => s[|s| - 1 - i])
  }

  /** `list(window)[-n:][::-1]`: the newest `min(|window|, n)` entries, newest first. */
  function NewestFirst<T>(window: seq<T>, n: nat): (r: seq<T>)
    ensures |r| == if |window| < n then |window| else n
    ensures forall i :: 0 <= i < |r| ==> r[i] == window[|window| - 1 - i]
  {
    var newest := Last(window, n);
    var r := Reverse(newest);
    assert forall i :: 0 <= i < |r| ==> r[i] == newest[|newest| - 1 - i] == window[|window| - 1 - i];
    r
  }

  /** How each summary of a history changes when one record arrives. */
  lemma HistoryStep(history: seq<RequestMetrics>, r: RequestMetrics)
    ensures SuccessCount(history + [r]) == SuccessCount(history) + (if r.success then 1 else 0)
    ensures Failures(history + [r]) == Failures(history) + (if r.success then [] else [r])
    ensures TotalRetries(history + [r]) == TotalRetries(history) + RetriesOf(r)
    ensures BoundedAppend(Last(history, RecentRequestsCapacity), r, RecentRequestsCapacity)
      == Last(history + [r], RecentRequestsCapacity)
    ensures !r.success ==>
      BoundedAppend(Last(Failures(history), RecentErrorsCapacity), r, RecentErrorsCapacity)
        == Last(Failures(history + [r]), RecentErrorsCapacity)
  {
    assert (history + [r])[..|history|] == history;
    BoundedAppendLast(history, r, RecentRequestsCapacity);
    BoundedAppendLast(Failures(history), r, RecentErrorsCapacity);
  }

  /** A share of a positive whole lies in [0, 1] and scales back to the part. */
  lemma RatioBounds(part: real, whole: real)
    requires 0.0 <= part <= whole && whole > 0.0
    ensures 0.0 <= part / whole <= 1.0
    ensures (part / whole) * whole == part
  {
  }

  class ServerMetrics {
    var totalRequests: nat
    var successfulRequests: nat
    var failedRequests: nat
    var totalRetries: nat
    var recentRequests: seq<RequestMetrics>
    var recentErrors: seq<RequestMetrics>
    /** Every record ever passed to `RecordRequest`, in arrival order. */
    ghost var History: seq<RequestMetrics>

    /** The counters summarise the history, and each window is the suffix of the history it keeps. */
    ghost predicate Valid()
      reads this
    {
      && totalRequests == |History|
      && successfulRequests == SuccessCount(History)
      && failedRequests == |Failures(History)|
      && totalRetries == TotalRetries(History)
      && recentRequests == Last(History, RecentRequestsCapacity)
      && recentErrors == Last(Failures(History), RecentErrorsCapacity)
    }

    /** A fresh `ServerMetrics()`: zero counters and empty windows. */
    constructor ()
      ensures Valid() && History == []
      ensures totalRequests == 0 && successfulRequests == 0 && failedRequests == 0 && totalRetries == 0
      ensures recentRequests == [] && recentErrors == []
    {
      totalRequests, successfulRequests, failedRequests, totalRetries := 0, 0, 0, 0;
      recentRequests, recentErrors := [], [];
      History := [];
    }

    /** `record_request`: count the request, add its retries, and push it into the windows. */
    method RecordRequest(url: string, success: bool, statusCode: Option<int>, elapsedMs: Option<int>,
                         attempts: int, error: Option<string>)
      requires Valid()
      modifies this
      ensures Valid()
      ensures History == old(History) + [RequestMetrics(url, success, statusCode, elapsedMs, attempts, error)]
      ensures totalRequests == old(totalRequests) + 1
      ensures successfulRequests == old(successfulRequests) + (if success then 1 else 0)
      ensures failedRequests == old(failedRequests) + (if success then 0 else 1)
      ensures totalRetries == old(totalRetries) + (if attempts > 1 then attempts - 1 else 0)
    {
      var metrics := RequestMetrics(url, success, statusCode, elapsedMs, attempts, error);
      ghost var h := History;
      HistoryStep(h, metrics);
      var requests := BoundedAppend(recentRequests, metrics, RecentRequestsCapacity);
      var errors := if success then recentErrors else BoundedAppend(recentErrors, metrics, RecentErrorsCapacity);
      var retries := if attempts > 1 then totalRetries + (attempts - 1) else totalRetries;
      totalRequests := totalRequests + 1;
      if success {
        successfulRequests := successfulRequests + 1;
      } else {
        failedRequests := failedRequests + 1;
      }
      totalRetries := retries;
      recentRequests, recentErrors := requests, errors;
      History := h + [metrics];
    }

    /** `get_success_rate`: 0 with no requests, otherwise the share of successes as a percentage. */
    function SuccessRate(): (rate: real)
      reads this
      requires Valid()
      ensures 0.0 <= rate <= 100.0
      ensures totalRequests == 0 ==> rate == 0.0
      ensures totalRequests > 0 ==> rate * totalRequests as real == successfulRequests as real * 100.0
    {
      if totalRequests == 0 then 0.0
      else
        RatioBounds(successfulRequests as real, totalRequests as real);
        (successfulRequests as real / totalRequests as real) * 100.0
    }

    /** The unrounded `average_per_request` of `to_dict`: 0 with no requests, otherwise retries per request. */
    function AverageRetries(): (avg: real)
      reads this
      ensures avg >= 0.0
      ensures totalRequests == 0 ==> avg == 0.0
      ensures totalRequests > 0 ==> avg * totalRequests as real == totalRetries as real
    {
      if totalRequests > 0 then totalRetries as real / totalRequests as real else 0.0
    }

    /** The `recent_requests` list of `to_dict`: at most the 10 newest requests, newest first. */
    function RecentRequestsSnapshot(): seq<RequestMetrics>
      reads this
    {
      NewestFirst(recentRequests, SnapshotLength)
    }

    /** The `recent_errors` list of `to_dict`: at most the 10 newest failures, newest first. */
    function RecentErrorsSnapshot(): seq<RequestMetrics>
      reads this
    {
      NewestFirst(recentErrors, SnapshotLength)
    }
  }

  /** Every request is counted as exactly one of successful or failed. */
  lemma CountersAddUp(m: ServerMetrics)
    requires m.Valid()
    ensures m.totalRequests == m.successfulRequests + m.failedRequests
  {
    SuccessesPlusFailures(m.History);
  }

  /** A window of the last `cap` items of `s` is as long as it may be, and entry `i` is item `|s| - |w| + i`. */
  lemma WindowOfLast<T>(s: seq<T>, w: seq<T>, cap: nat)
    requires w == Last(s, cap)
    ensures |w| == if |s| < cap then |s| else cap
    ensures forall i :: 0 <= i < |w| ==> w[i] == s[|s| - |w| + i]
  {
    var k := |s| - |w|;
    forall i | 0 <= i < |w|
      ensures w[i] == s[k + i]
    {
      assert w[i] == s[k..][i];
    }
  }

  /** The error window holds failed requests of the history only, the last `min(f, 20)` of them. */
  lemma ErrorWindow(h: seq<RequestMetrics>, e: seq<RequestMetrics>)
    requires e == Last(Failures(h), RecentErrorsCapacity)
    ensures |e| <= 20
    ensures forall i :: 0 <= i < |e| ==> !e[i].success && e[i] in h
    ensures var f := Failures(h);
      && |e| == (if |f| < 20 then |f| else 20)
      && forall i :: 0 <= i < |e| ==> e[i] == f[|f| - |e| + i]
  {
    var f := Failures(h);
    WindowOfLast(f, e, RecentErrorsCapacity);
    forall i | 0 <= i < |e|
      ensures !e[i].success && e[i] in h
    {
      assert e[i] == f[|f| - |e| + i];
    }
  }

  /**
   * The windows hold what the source promises: the last min(n, 50) requests in arrival order,
   * and the last min(f, 20) of the history's f failed requests (`ErrorWindow` spells that out).
   */
  lemma WindowsAreSuffixes(m: ServerMetrics)
    requires m.Valid()
    ensures |m.recentRequests| == if |m.History| < 50 then |m.History| else 50
    ensures forall i :: 0 <= i < |m.recentRequests| ==>
      m.recentRequests[i] == m.History[|m.History| - |m.recentRequests| + i]
    ensures |m.recentErrors| <= 20
    ensures forall i :: 0 <= i < |m.recentErrors| ==> !m.recentErrors[i].success && m.recentErrors[i] in m.History
    ensures m.recentErrors == Last(Failures(m.History), RecentErrorsCapacity)
  {
  }

  /** Reading the newest `n` of a window of the last `cap` items reads the newest items of the whole history. */
  lemma NewestOfWindow<T>(h: seq<T>, cap: nat, n: nat, i: nat)
    requires n <= cap
    requires i < |NewestFirst(Last(h, cap), n)|
    ensures i < |h| && NewestFirst(Last(h, cap), n)[i] == h[|h| - 1 - i]
  {
    var w := Last(h, cap);
    var k := |w| - 1 - i;
    assert NewestFirst(w, n)[i] == w[k];
    assert w[k] == h[|h| - |w| + k];
  }

  /** The `i`-th entry of the request snapshot is the `i`-th newest request ever recorded. */
  lemma RequestSnapshotIsNewest(m: ServerMetrics, i: nat)
    requires m.Valid()
    requires i < |m.RecentRequestsSnapshot()|
    ensures |m.RecentRequestsSnapshot()| <= SnapshotLength && i < |m.History|
    ensures m.RecentRequestsSnapshot()[i] == m.History[|m.History| - 1 - i]
  {
    NewestOfWindow(m.History, RecentRequestsCapacity, SnapshotLength, i);
  }

  /** The parts `_format_uptime` prints, by band. */
  datatype Uptime =
    | Seconds(secs: nat)
    | MinutesSeconds(minutes: nat, secs: nat)
    | HoursMinutes(hours: nat, minutes: nat)
    | DaysHours(days: nat, hours: nat)

  /**
   * The band and the truncated components of an uptime of `seconds` whole seconds. Python's
   * `int()` truncation of a non-negative float gives the same components as whole seconds do.
   */
  function UptimeParts(seconds: nat): (u: Uptime)
    ensures u.Seconds? <==> seconds < 60
    ensures u.MinutesSeconds? <==> 60 <= seconds < 3600
    ensures u.HoursMinutes? <==> 3600 <= seconds < 86400
    ensures u.DaysHours? <==> 86400 <= seconds
    ensures u.Seconds? ==> u.secs == seconds
    ensures u.MinutesSeconds? ==> 1 <= u.minutes < 60 && u.secs < 60 && u.minutes * 60 + u.secs == seconds
    ensures u.HoursMinutes? ==>
      1 <= u.hours < 24 && u.minutes < 60 &&
      u.hours * 3600 + u.minutes * 60 <= seconds < u.hours * 3600 + u.minutes * 60 + 60
    ensures u.DaysHours? ==>
      1 <= u.days && u.hours < 24 &&
      u.days * 86400 + u.hours * 3600 <= seconds < u.days * 86400 + u.hours * 3600 + 3600
  {
    if seconds < 60 then Seconds(seconds)
    else if seconds < 3600 then MinutesSeconds(seconds / 60, seconds % 60)
    else if seconds < 86400 then
      var rest := seconds % 3600;
      assert seconds == (seconds / 3600) * 3600 + rest;
      assert rest == (rest / 60) * 60 + rest % 60;
      HoursMinutes(seconds / 3600, rest / 60)
    else
      var rest := seconds % 86400;
      assert seconds == (seconds / 86400) * 86400 + rest;
      assert rest == (rest / 3600) * 3600 + rest % 3600;
      DaysHours(seconds / 86400, rest / 3600)
  }

  /** The string `_format_uptime` builds from the parts. */
  function RenderUptime(u: Uptime): string
  {
    match u
    case Seconds(s) => NatToString(s) + "s"
    case MinutesSeconds(m, s) => NatToString(m) + "m " + NatToString(s) + "s"
    case HoursMinutes(h, m) => NatToString(h) + "h " + NatToString(m) + "m"
    case DaysHours(d, h) => NatToString(d) + "d " + NatToString(h) + "h"
  }

  /** `_format_uptime`: "Ns", "Mm Ss", "Hh Mm" or "Dd Hh" by band; the last unit letter names the band. */
  function FormatUptime(seconds: nat): (r: string)
    ensures seconds < 60 ==> r == NatToString(seconds) + "s"
    ensures 60 <= seconds < 3600 ==> r == NatToString(seconds / 60) + "m " + NatToString(seconds % 60) + "s"
    ensures 3600 <= seconds < 86400 ==>
      r == NatToString(seconds / 3600) + "h " + NatToString(seconds % 3600 / 60) + "m"
    ensures 86400 <= seconds ==>
      r == NatToString(seconds / 86400) + "d " + NatToString(seconds % 86400 / 3600) + "h"
    ensures |r| >= 2 && IsDigit(r[0])
    ensures r[|r| - 1] == if seconds < 3600 then 's' else if seconds < 86400 then 'm' else 'h'
    ensures (seconds < 60) <==> ' ' !in r
  {
    var u := UptimeParts(seconds);
    var r := RenderUptime(u);
    match u
    case Seconds(s) =>
      assert ' ' !in NatToString(s) by {
        forall c | c in NatToString(s) ensures c != ' ' {
          var i :| 0 <= i < |NatToString(s)| && NatToString(s)[i] == c;
        }
      }
      r
    case MinutesSeconds(m, s) => assert r[|NatToString(m)| + 1] == ' '; r
    case HoursMinutes(h, m) => assert r[|NatToString(h)| + 1] == ' '; r
    case DaysHours(d, h) => assert r[|NatToString(d)| + 1] == ' '; r
  }

  /** The bands at their edges, as `_format_uptime` prints them. */
  lemma FormatUptimeExamples()
    ensures FormatUptime(59) == "59s"
    ensures FormatUptime(60) == "1m 0s"
    ensures FormatUptime(3661) == "1h 1m"
    ensures FormatUptime(90061) == "1d 1h"
  {
    assert NatToString(59) == "59" by { assert NatToString(5) == "5"; }
    assert NatToString(1) == "1" && NatToString(0) == "0";
    assert 60 / 60 == 1 && 60 % 60 == 0;
    assert 3661 / 3600 == 1 && 3661 % 3600 / 60 == 1;
    assert 90061 / 86400 == 1 && 90061 % 86400 / 3600 == 1;
  }
}
