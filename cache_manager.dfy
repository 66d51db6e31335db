/**
 * `cache_manager.py`: the URL-pattern TTL policy, the canonical cache key, and the
 * `CacheManager` wrapper that turns every failure of the underlying disk store into a
 * harmless return value. The store is a map from keys to entries with an optional expiry
 * instant; whether a store call raises is a parameter (`storeFails`).
 */
module CacheLayer {
  import opened Common
  import opened Text

  /** TTLs in seconds (cache_manager.py:23-25). */
  const DefaultTtl: nat := 3600
  const StaticAssetTtl: nat := 86400
  const RealtimeDataTtl: nat := 300

  const StaticPatterns: seq<string> := ["static", "cdn", "cloudfront"]
  const RealtimePatterns: seq<string> := ["api", "realtime", "live"]

  /** `any(pattern in text for pattern in patterns)`. */
  function AnyIn(text: string, patterns: seq<string>): (b: bool)
    ensures b <==> exists i :: 0 <= i < |patterns| && Contains(text, patterns[i])
  {
    if patterns == [] then false
    else
      var rest := AnyIn(text, patterns[1..]);
      assert forall i :: 1 <= i < |patterns| ==> patterns[1..][i - 1] == patterns[i];
      Contains(text, patterns[0]) || rest
  }

  /** `get_ttl_for_url`: the static-asset signals are checked first, then the real-time ones, on the lower-cased URL. */
  function TtlForUrl(url: string): (ttl: nat)
    ensures ttl == StaticAssetTtl || ttl == RealtimeDataTtl || ttl == DefaultTtl
    ensures ttl == StaticAssetTtl <==> AnyIn(Lower(url), StaticPatterns)
    ensures ttl == RealtimeDataTtl <==> !AnyIn(Lower(url), StaticPatterns) && AnyIn(Lower(url), RealtimePatterns)
  {
    var urlLower := Lower(url);
    if AnyIn(urlLower, StaticPatterns) then StaticAssetTtl
    else if AnyIn(urlLower, RealtimePatterns) then RealtimeDataTtl
    else DefaultTtl
  }

  /** The policy ignores letter case: a URL and its lower-cased form get the same TTL. */
  lemma TtlIgnoresCase(url: string)
    ensures TtlForUrl(Lower(url)) == TtlForUrl(url)
  {
    LowerIdempotent(url);
  }

  /** A static-asset signal wins over a real-time signal in the same URL. */
  lemma StaticSignalWins(url: string, i: nat, j: nat)
    requires i < |StaticPatterns| && j < |RealtimePatterns|
    requires Contains(Lower(url), StaticPatterns[i]) && Contains(Lower(url), RealtimePatterns[j])
    ensures TtlForUrl(url) == StaticAssetTtl
  {
  }

  /** `pat` occurs in `s` at index `i` when the characters agree one by one. */
  lemma OccursAtChars(s: string, pat: string, i: nat)
    requires i + |pat| <= |s|
    requires forall k :: 0 <= k < |pat| ==> s[i + k] == pat[k]
    ensures Contains(s, pat)
  {
    assert s[i..i + |pat|] == pat;
    assert OccursAt(s, pat, i);
  }

  /** `AnyIn` over a three-element list, unfolded. */
  lemma AnyInThree(t: string, a: string, b: string, c: string)
    ensures AnyIn(t, [a, b, c]) == (Contains(t, a) || Contains(t, b) || Contains(t, c))
  {
    assert [a, b, c][1..] == [b, c];
    assert [b, c][1..] == [c];
    assert [c][1..] == [];
    assert AnyIn(t, [c]) == Contains(t, c);
    assert AnyIn(t, [b, c]) == (Contains(t, b) || AnyIn(t, [c]));
  }

  /** A URL without upper-case ASCII letters is its own lower-cased form. */
  lemma LowerOfLowerCase(url: string)
    requires forall i :: 0 <= i < |url| ==> !('A' <= url[i] <= 'Z')
    ensures Lower(url) == url
  {
  }

  /** A lower-case URL that holds a static-asset signal at index `i` is cached for a day. */
  lemma StaticSignalAt(url: string, signal: string, i: nat)
    requires forall k :: 0 <= k < |url| ==> !('A' <= url[k] <= 'Z')
    requires signal in StaticPatterns
    requires i + |signal| <= |url| && forall k :: 0 <= k < |signal| ==> url[i + k] == signal[k]
    ensures TtlForUrl(url) == StaticAssetTtl
  {
    LowerOfLowerCase(url);
    OccursAtChars(url, signal, i);
    AnyInThree(url, "static", "cdn", "cloudfront");
  }

  // The examples are stated about parameters equal to the literals, which keeps the verifier
  // from unfolding `Contains` over the whole literals.

  /** The CDN URL the repository's tests name is cached for a day. */
  lemma CdnUrlIsStatic(url: string)
    requires url == "https://cdn.example.com/style.css"
    ensures TtlForUrl(url) == StaticAssetTtl
  {
    StaticSignalAt(url, "cdn", 8);
  }

  /** Python's `<` on strings: lexicographic by code point, a proper prefix first. */
  predicate StrLess(a: string, b: string)
    decreases |a|
  {
    if a == [] then b != []
    else b != [] && (a[0] < b[0] || (a[0] == b[0] && StrLess(a[1..], b[1..])))
  }

  lemma {:induction false} StrLessIrreflexive(a: string)
    ensures !StrLess(a, a)
    decreases |a|
  {
    if a != [] {
      StrLessIrreflexive(a[1..]);
    }
  }

  lemma {:induction false} StrLessAsymmetric(a: string, b: string)
    ensures StrLess(a, b) ==> !StrLess(b, a)
    decreases |a|
  {
    if a != [] && b != [] {
      StrLessAsymmetric(a[1..], b[1..]);
    }
  }

  lemma {:induction false} StrLessTransitive(a: string, b: string, c: string)
    requires StrLess(a, b) && StrLess(b, c)
    ensures StrLess(a, c)
    decreases |a|
  {
    if a != [] && a[0] == b[0] && b[0] == c[0] {
      StrLessTransitive(a[1..], b[1..], c[1..]);
    }
  }

  lemma {:induction false} StrLessTotal(a: string, b: string)
    requires a != b
    ensures StrLess(a, b) || StrLess(b, a)
    decreases |a|
  {
    if a != [] && b != [] && a[0] == b[0] {
      assert a == [a[0]] + a[1..] && b == [b[0]] + b[1..];
      StrLessTotal(a[1..], b[1..]);
    }
  }

  /**
   * A JSON-serialisable keyword value: `json.dumps` writes `30` and `"30"` differently, and so
   * does this type. Floats and nested dicts are not modelled.
   */
  datatype JsonValue = JsonNull | JsonBool(b: bool) | JsonInt(i: int) | JsonString(s: string) | JsonList(items: seq<JsonValue>)

  /** One `key=value` pair of `generate_cache_key`'s keyword arguments. */
  type Param = (string, JsonValue)

  /** No two pairs share a key, as in a Python dict. */
  predicate DistinctKeys(ps: seq<Param>)
  {
    forall i, j :: 0 <= i < j < |ps| ==> ps[i].0 != ps[j].0
  }

  /** Strictly increasing keys: the order `json.dumps(..., sort_keys=True)` writes a dict in. */
  predicate SortedByKey(ps: seq<Param>)
  {
    forall i, j :: 0 <= i < j < |ps| ==> StrLess(ps[i].0, ps[j].0)
  }

  /** Inserts a pair whose key is new into a key-sorted list. */
  function Insert(x: Param, s: seq<Param>): (r: seq<Param>)
    requires SortedByKey(s)
    requires forall y :: y in s ==> y.0 != x.0
    ensures SortedByKey(r)
    ensures multiset(r) == multiset(s) + multiset{x}
    ensures forall y :: y in r ==> y == x || y in s
  {
    if s == [] then [x]
    else if StrLess(x.0, s[0].0) then
      forall j | 0 < j < |s| ensures StrLess(x.0, s[j].0) {
        StrLessTransitive(x.0, s[0].0, s[j].0);
      }
      [x] + s
    else
      StrLessTotal(x.0, s[0].0);
      var tail := s[1..];
      var rest := Insert(x, tail);
      forall i | 0 <= i < |rest| ensures StrLess(s[0].0, rest[i].0) {
        if rest[i] != x {
          assert rest[i] in tail;
          var j :| 0 <= j < |tail| && tail[j] == rest[i];
          assert s[j + 1] == rest[i];
        }
      }
      assert s == [s[0]] + tail;
      var r := [s[0]] + rest;
      assert forall i :: 0 < i < |r| ==> r[i] == rest[i - 1];
      r
  }

  /** The pairs in increasing key order. */
  function SortByKey(ps: seq<Param>): (r: seq<Param>)
    requires DistinctKeys(ps)
    ensures SortedByKey(r)
    ensures multiset(r) == multiset(ps)
  {
    if ps == [] then []
    else
      var init := ps[..|ps| - 1];
      var last := ps[|ps| - 1];
      var sorted := SortByKey(init);
      forall y | y in sorted ensures y.0 != last.0 {
        assert y in multiset(init);
      }
      assert ps == init + [last];
      Insert(last, sorted)
  }

  /** The head of a key-sorted list has the least key of all its pairs. */
  lemma SortedHeadLeast(a: seq<Param>, y: Param)
    requires SortedByKey(a) && y in a && y != a[0]
    ensures StrLess(a[0].0, y.0)
  {
    var j :| 0 <= j < |a| && a[j] == y;
  }

  lemma MultisetOfTail<T>(a: seq<T>)
    requires a != []
    ensures multiset(a[1..]) == multiset(a) - multiset{a[0]}
  {
    assert a == [a[0]] + a[1..];
  }

  /** Two key-sorted lists holding the same pairs are the same list. */
  lemma {:induction false} SortedUnique(a: seq<Param>, b: seq<Param>)
    requires SortedByKey(a) && SortedByKey(b)
    requires multiset(a) == multiset(b)
    ensures a == b
    decreases |a|
  {
    assert |b| == |a| by {
      assert |multiset(a)| == |multiset(b)|;
    }
    if a != [] {
      assert a[0] in multiset(b) && b[0] in multiset(a);
      if a[0] != b[0] {
        SortedHeadLeast(a, b[0]);
        SortedHeadLeast(b, a[0]);
        StrLessAsymmetric(a[0].0, b[0].0);
        assert false;
      }
      MultisetOfTail(a);
      MultisetOfTail(b);
      SortedUnique(a[1..], b[1..]);
      assert a == [a[0]] + a[1..] && b == [b[0]] + b[1..];
    }
  }

  /** The caller's keyword arguments as `generate_cache_key` may receive them: a dict without a `url` key. */
  predicate WellFormedParams(params: seq<Param>)
  {
    DistinctKeys(params) && forall p :: p in params ==> p.0 != "url"
  }

  /**
   * `generate_cache_key`: `{"url": url, **kwargs}` serialised with sorted keys. The SHA-256 digest
   * of the serialisation is modelled by the key-sorted list of pairs itself, an injective stand-in.
   */
  function CacheKey(url: string, params: seq<Param>): (key: seq<Param>)
    requires WellFormedParams(params)
    ensures SortedByKey(key)
    ensures multiset(key) == multiset(params) + multiset{("url", JsonString(url))}
  {
    var data := [("url", JsonString(url))] + params;
    assert DistinctKeys(data) by {
      forall i, j | 0 <= i < j < |data| ensures data[i].0 != data[j].0 {
        if i > 0 {
          assert data[i] == params[i - 1] && data[j] == params[j - 1];
        } else {
          assert data[j] in params;
        }
      }
    }
    assert multiset(data) == multiset(params) + multiset{("url", JsonString(url))};
    SortByKey(data)
  }

  /**
   * The key identifies the request: two requests share a key exactly when they have the same URL
   * and the same keyword arguments, whatever order the arguments were given in.
   */
  lemma CacheKeyIdentifiesRequest(url1: string, params1: seq<Param>, url2: string, params2: seq<Param>)
    requires WellFormedParams(params1) && WellFormedParams(params2)
    ensures CacheKey(url1, params1) == CacheKey(url2, params2) <==>
      url1 == url2 && multiset(params1) == multiset(params2)
  {
    var k1, k2 := CacheKey(url1, params1), CacheKey(url2, params2);
    if url1 == url2 && multiset(params1) == multiset(params2) {
      SortedUnique(k1, k2);
    }
    if k1 == k2 {
      assert ("url", JsonString(url1)) in multiset(k2);
      assert ("url", JsonString(url1)) !in multiset(params2);
      assert url1 == url2;
      assert multiset(params1) == multiset(k1) - multiset{("url", JsonString(url1))};
    }
  }

  /** The key tells a number from its text, as `json.dumps` does: `timeout=30` and `timeout="30"` differ. */
  lemma KeyTellsNumberFromText(url: string)
    ensures CacheKey(url, [("timeout", JsonInt(30))]) != CacheKey(url, [("timeout", JsonString("30"))])
  {
    var p1, p2 := [("timeout", JsonInt(30))], [("timeout", JsonString("30"))];
    CacheKeyIdentifiesRequest(url, p1, url, p2);
    assert p1[0] in multiset(p1) && p1[0] !in multiset(p2);
  }

  /** A stored value with the instant it expires at, if it has one. */
  datatype Entry<V> = Entry(value: V, expiresAt: Option<int>)

  /** The store serves an entry only before its expiry instant. */
  predicate Live<V>(e: Entry<V>, now: int)
  {
    e.expiresAt.None? || now < e.expiresAt.value
  }

  /** What a read at `now` finds under `key`. */
  function Lookup<V>(entries: map<string, Entry<V>>, key: string, now: int): Option<V>
  {
    if key in entries && Live(entries[key], now) then Some(entries[key].value) else None
  }

  /** The store after `set(key, value, expire)` at `now`: no expiry, or `now + expire`. */
  function Stored<V>(entries: map<string, Entry<V>>, key: string, value: V, expire: Option<int>, now: int)
    : map<string, Entry<V>>
  {
    entries[key := Entry(value, if expire.Some? then Some(now + expire.value) else None)]
  }

  /** The store after `delete(key)` at `now`: only a live entry is removed. */
  function Deleted<V>(entries: map<string, Entry<V>>, key: string, now: int): map<string, Entry<V>>
  {
    if Lookup(entries, key, now).Some? then entries - {key} else entries
  }

  /** The store after `expire()` at `now`: entries whose expiry instant has passed are culled. */
  function Culled<V>(entries: map<string, Entry<V>>, now: int): map<string, Entry<V>>
  {
    map k | k in entries && !(entries[k].expiresAt.Some? && entries[k].expiresAt.value < now) :: entries[k]
  }

  /** A value set without expiry, or read before its expiry, is what a later read returns. */
  lemma SetThenGet<V>(entries: map<string, Entry<V>>, key: string, value: V, expire: Option<int>, now: int, later: int)
    requires expire.None? || later < now + expire.value
    ensures Lookup(Stored(entries, key, value, expire, now), key, later) == Some(value)
  {
  }

  /** Setting one key leaves every other key as it was. */
  lemma SetLeavesOtherKeys<V>(entries: map<string, Entry<V>>, key: string, other: string, value: V,
                              expire: Option<int>, now: int, later: int)
    requires other != key
    ensures Lookup(Stored(entries, key, value, expire, now), other, later) == Lookup(entries, other, later)
  {
  }

  /** After a delete, no later read finds the key. */
  lemma DeleteThenGet<V>(entries: map<string, Entry<V>>, key: string, now: int, later: int)
    requires now <= later
    ensures Lookup(Deleted(entries, key, now), key, later) == None
  {
  }

  /** Culling expired entries changes no read made at that instant or later. */
  lemma CullingIsInvisible<V>(entries: map<string, Entry<V>>, now: int, later: int, key: string)
    requires now <= later
    ensures Lookup(Culled(entries, now), key, later) == Lookup(entries, key, later)
  {
  }

  class CacheManager<V> {
    /** The disk store's entries, by key. */
    var entries: map<string, Entry<V>>
    /** The store's hit and miss statistics. */
    var hits: nat
    var misses: nat

    /** A manager over a store that may already hold entries and statistics from earlier runs. */
    constructor (stored: map<string, Entry<V>>, hits: nat, misses: nat)
      ensures entries == stored && this.hits == hits && this.misses == misses
    {
      entries := stored;
      this.hits := hits;
      this.misses := misses;
    }

    /** `get`: the live value or the default, counted as a hit or a miss; a store error gives the default. */
    method Get(key: string, default: V, now: int, storeFails: bool) returns (value: V)
      modifies this
      ensures entries == old(entries)
      ensures storeFails ==> value == default && hits == old(hits) && misses == old(misses)
      ensures !storeFails ==> match Lookup(old(entries), key, now)
        case Some(v) => value == v && hits == old(hits) + 1 && misses == old(misses)
        case None => value == default && hits == old(hits) && misses == old(misses) + 1
    {
      if storeFails {
        return default;
      }
      if key in entries && Live(entries[key], now) {
        value := entries[key].value;
        hits := hits + 1;
      } else {
        value := default;
        misses := misses + 1;
      }
    }

    /** `set`: stores the value with its expiry and reports True; a store error reports False and stores nothing. */
    method Set(key: string, value: V, expire: Option<int>, now: int, storeFails: bool) returns (ok: bool)
      modifies this
      ensures ok == !storeFails
      ensures entries == if ok then Stored(old(entries), key, value, expire, now) else old(entries)
      ensures hits == old(hits) && misses == old(misses)
    {
      if storeFails {
        return false;
      }
      entries := entries[key := Entry(value, if expire.Some? then Some(now + expire.value) else None)];
      ok := true;
    }

    /** `delete`: True iff a live entry was there and is now gone; a store error reports False. */
    method Delete(key: string, now: int, storeFails: bool) returns (ok: bool)
      modifies this
      ensures ok == (!storeFails && Lookup(old(entries), key, now).Some?)
      ensures entries == if storeFails then old(entries) else Deleted(old(entries), key, now)
      ensures hits == old(hits) && misses == old(misses)
    {
      if storeFails {
        return false;
      }
      ok := key in entries && Live(entries[key], now);
      if ok {
        entries := entries - {key};
      }
    }

    /**
     * `clear`: the store's `clear`, then its statistics reset. `clearFails` and `resetFails` say
     * which of the two store calls raised; the exception is logged, so whatever the first call
     * did stays done.
     */
    method Clear(clearFails: bool, resetFails: bool)
      modifies this
      ensures entries == if clearFails then old(entries) else map[]
      ensures clearFails || resetFails ==> hits == old(hits) && misses == old(misses)
      ensures !clearFails && !resetFails ==> hits == 0 && misses == 0
    {
      if !clearFails {
        entries := map[];
        if !resetFails {
          hits, misses := 0, 0;
        }
      }
    }

    /** `expire`: culls expired entries and returns how many went; a store error returns 0. */
    method Expire(now: int, storeFails: bool) returns (count: nat)
      modifies this
      ensures entries == if storeFails then old(entries) else Culled(old(entries), now)
      ensures count == |old(entries).Keys| - |entries.Keys|
      ensures hits == old(hits) && misses == old(misses)
    {
      if storeFails {
        return 0;
      }
      var kept := Culled(entries, now);
      assert kept.Keys <= entries.Keys;
      SubsetCardinality(kept.Keys, entries.Keys);
      count := |entries.Keys| - |kept.Keys|;
      entries := kept;
    }

    /** The `hit_rate` of `get_stats`: hits over lookups, 0 before any lookup. */
    function HitRate(): (rate: real)
      reads this
      ensures 0.0 <= rate <= 1.0
      ensures hits + misses == 0 ==> rate == 0.0
      ensures hits + misses > 0 ==> rate * (hits + misses) as real == hits as real
    {
      if hits + misses > 0 then hits as real / (hits + misses) as real else 0.0
    }
  }

  lemma SubsetCardinality<T>(a: set<T>, b: set<T>)
    requires a <= b
    ensures |a| <= |b|
  {
    if a != {} {
      var x :| x in a;
      SubsetCardinality(a - {x}, b - {x});
    }
  }
}
