/**
 * The runtime configuration of admin/service.py: its defaults, the proxy settings seeded from
 * the environment, the per-key validated update, and the lookup with a default.
 */
module AdminService {
  import opened Common
  import opened Text

  /** The default concurrency limit for batch operations. */
  const DefaultConcurrency: int := 8

  /**
   * A configuration value as Python sees it. A `bool` is also an `int` (`isinstance(True, int)`
   * holds), counting as 1 or 0; `OtherValue` stands for floats, `None`, lists and the rest.
   */
  datatype ConfigValue = IntValue(i: int) | BoolValue(b: bool) | StrValue(s: string) | OtherValue

  /** `isinstance(v, int)`. */
  predicate IsInt(v: ConfigValue)
  {
    v.IntValue? || v.BoolValue?
  }

  /** The integer a value compares as. */
  function IntOf(v: ConfigValue): int
    requires IsInt(v)
  {
    if v.IntValue? then v.i else if v.b then 1 else 0
  }

  /** The eleven keys an update may set. */
  const ValidKeys: set<string> := {
    "concurrency", "default_timeout", "default_max_retries",
    "cache_ttl_default", "cache_ttl_static", "cache_ttl_realtime",
    "proxy_enabled", "http_proxy", "https_proxy", "no_proxy", "verify_ssl"}

  /** The configuration before any seeding or update. */
  const Defaults: map<string, ConfigValue> := map[
    "concurrency" := IntValue(DefaultConcurrency),
    "default_timeout" := IntValue(30),
    "default_max_retries" := IntValue(3),
    "cache_ttl_default" := IntValue(3600),
    "cache_ttl_static" := IntValue(86400),
    "cache_ttl_realtime" := IntValue(300),
    "proxy_enabled" := BoolValue(false),
    "http_proxy" := StrValue(""),
    "https_proxy" := StrValue(""),
    "no_proxy" := StrValue(""),
    "verify_ssl" := BoolValue(false)]

  /** The validation chain of `update_config` for one key/value pair. */
  predicate Accepts(key: string, value: ConfigValue)
  {
    key in ValidKeys &&
    if key == "concurrency" && IsInt(value) && 1 <= IntOf(value) <= 50 then true
    else if key in {"default_timeout", "default_max_retries"} && IsInt(value) && IntOf(value) > 0 then true
    else if StartsWith(key, "cache_ttl_") && IsInt(value) && IntOf(value) >= 0 then true
    else if key in {"proxy_enabled", "verify_ssl"} && value.BoolValue? then true
    else key in {"http_proxy", "https_proxy", "no_proxy"} && value.StrValue?
  }

  /** What each key is allowed to hold: the values the validation chain accepts for it. */
  predicate WellTyped(key: string, value: ConfigValue)
  {
    if key == "concurrency" then IsInt(value) && 1 <= IntOf(value) <= 50
    else if key == "default_timeout" || key == "default_max_retries" then IsInt(value) && IntOf(value) > 0
    else if key == "cache_ttl_default" || key == "cache_ttl_static" || key == "cache_ttl_realtime" then IsInt(value) && IntOf(value) >= 0
    else if key == "proxy_enabled" || key == "verify_ssl" then value.BoolValue?
    else value.StrValue?
  }

  /** A configuration that holds exactly the valid keys, each with a value of its kind. */
  predicate Sane(config: map<string, ConfigValue>)
  {
    config.Keys == ValidKeys && forall k :: k in config ==> WellTyped(k, config[k])
  }

  /** Among the eleven keys, exactly the three TTL keys carry the `cache_ttl_` prefix. */
  lemma CacheTtlPrefix(key: string)
    requires key in ValidKeys
    ensures StartsWith(key, "cache_ttl_") <==>
      key == "cache_ttl_default" || key == "cache_ttl_static" || key == "cache_ttl_realtime"
  {
    var p := "cache_ttl_";
    if key == "cache_ttl_default" || key == "cache_ttl_static" || key == "cache_ttl_realtime" {
      assert key[..10] == p;
    } else if key == "concurrency" {
      assert key[..10][1] != p[1];
    } else if |key| >= 10 {
      assert key[..10][0] != p[0];
    }
  }

  /** The validation chain accepts a pair exactly when the key is valid and the value is of its kind. */
  lemma AcceptsIffWellTyped(key: string, value: ConfigValue)
    ensures Accepts(key, value) <==> key in ValidKeys && WellTyped(key, value)
  {
    if key in ValidKeys {
      CacheTtlPrefix(key);
    }
  }

  /** Because `bool` is an `int`, `True` passes as a concurrency of 1 and `False` as a TTL of 0, while a bare 1 is no boolean. */
  lemma BoolPassesAsInt()
    ensures Accepts("concurrency", BoolValue(true))
    ensures !Accepts("concurrency", BoolValue(false))
    ensures Accepts("cache_ttl_default", BoolValue(false))
    ensures !Accepts("proxy_enabled", IntValue(1))
    ensures !Accepts("concurrency", IntValue(51))
  {
    CacheTtlPrefix("concurrency");
    CacheTtlPrefix("cache_ttl_default");
    CacheTtlPrefix("proxy_enabled");
    assert "concurrency"[0] != "https_proxy"[0];
  }

  /** The configuration after the pairs were applied in order. */
  function ApplyUpdates(config: map<string, ConfigValue>, updates: seq<(string, ConfigValue)>): map<string, ConfigValue>
  {
    if updates == [] then config
    else
      var c := ApplyUpdates(config, updates[..|updates| - 1]);
      var (key, value) := updates[|updates| - 1];
      if Accepts(key, value) then c[key := value] else c
  }

  /** The keys of the applied pairs, in input order. */
  function AppliedKeys(updates: seq<(string, ConfigValue)>): (keys: seq<string>)
    ensures |keys| <= |updates|
    ensures forall k :: k in keys <==> exists i :: 0 <= i < |updates| && updates[i].0 == k && Accepts(updates[i].0, updates[i].1)
  {
    if updates == [] then []
    else
      var init := updates[..|updates| - 1];
      var rest := AppliedKeys(init);
      var (key, value) := updates[|updates| - 1];
      assert forall i :: 0 <= i < |init| ==> init[i] == updates[i];
      if Accepts(key, value) then rest + [key] else rest
  }

  /** The value the last accepted pair for `key` carries, if any pair for it was accepted. */
  function LastAccepted(updates: seq<(string, ConfigValue)>, key: string): (v: Option<ConfigValue>)
    ensures v.Some? ==> Accepts(key, v.value)
    ensures v.Some? <==> exists i :: 0 <= i < |updates| && updates[i].0 == key && Accepts(key, updates[i].1)
  {
    if updates == [] then None
    else
      var init := updates[..|updates| - 1];
      var last := updates[|updates| - 1];
      assert forall i :: 0 <= i < |init| ==> init[i] == updates[i];
      if last.0 == key && Accepts(key, last.1) then Some(last.1) else LastAccepted(init, key)
  }

  /** After an update a key holds the value of its last accepted pair, or what it held before. */
  lemma {:induction false} ApplyUpdatesAt(config: map<string, ConfigValue>, updates: seq<(string, ConfigValue)>, key: string)
    ensures LastAccepted(updates, key).Some? ==>
      key in ApplyUpdates(config, updates) && ApplyUpdates(config, updates)[key] == LastAccepted(updates, key).value
    ensures LastAccepted(updates, key).None? ==>
      (key in ApplyUpdates(config, updates) <==> key in config) &&
      (key in config ==> ApplyUpdates(config, updates)[key] == config[key])
  {
    if updates != [] {
      ApplyUpdatesAt(config, updates[..|updates| - 1], key);
    }
  }

  /** Keys outside the eleven are never written. */
  lemma UnknownKeysIgnored(config: map<string, ConfigValue>, updates: seq<(string, ConfigValue)>, key: string)
    requires key !in ValidKeys
    ensures key in ApplyUpdates(config, updates) <==> key in config
    ensures key in config ==> ApplyUpdates(config, updates)[key] == config[key]
  {
    ApplyUpdatesAt(config, updates, key);
  }

  /** No update can break the configuration's shape: every key keeps a value of its kind. */
  lemma UpdatesKeepSane(config: map<string, ConfigValue>, updates: seq<(string, ConfigValue)>)
    requires Sane(config)
    ensures Sane(ApplyUpdates(config, updates))
  {
    var c := ApplyUpdates(config, updates);
    forall k ensures k in c <==> k in ValidKeys {
      ApplyUpdatesAt(config, updates, k);
    }
    forall k | k in c ensures WellTyped(k, c[k]) {
      ApplyUpdatesAt(config, updates, k);
      if LastAccepted(updates, k).Some? {
        AcceptsIffWellTyped(k, LastAccepted(updates, k).value);
      }
    }
  }

  /** The default configuration is well shaped. */
  lemma DefaultsSane()
    ensures Sane(Defaults)
  {
    forall k | k in Defaults ensures WellTyped(k, Defaults[k]) {
      assert "http_proxy"[0] != "verify_ssl"[0] && "https_proxy"[0] != "concurrency"[0];
    }
  }

  /** The response message of an update. */
  function UpdateMessage(count: nat): (message: string)
    ensures StartsWith(message, "Updated ")
  {
    "Updated " + NatToString(count) + " config value(s)"
  }

  /** Equal texts with the same frame around them have equal middles. */
  lemma SameFrame(prefix: string, x: string, y: string, suffix: string)
    requires prefix + x + suffix == prefix + y + suffix
    ensures x == y
  {
    var lhs, rhs := prefix + x + suffix, prefix + y + suffix;
    assert |x| == |y|;
    assert x == lhs[|prefix|..|prefix| + |x|];
    assert y == rhs[|prefix|..|prefix| + |y|];
  }

  /** The message tells the number of applied keys: different counts give different messages. */
  lemma UpdateMessageDeterminesCount(n: nat, m: nat)
    requires UpdateMessage(n) == UpdateMessage(m)
    ensures n == m
  {
    SameFrame("Updated ", NatToString(n), NatToString(m), " config value(s)");
    if n != m {
      NatToStringInjective(n, m);
    }
  }

  /** `os.getenv(name)`. */
  function GetEnv(env: map<string, string>, name: string): Option<string>
  {
    if name in env then Some(env[name]) else None
  }

  /** `a or b` on two optional strings: `a` when it is a non-empty string, else `b`. */
  function OrElse(a: Option<string>, b: Option<string>): (r: Option<string>)
    ensures Truthy(r) <==> Truthy(a) || Truthy(b)
    ensures Truthy(a) ==> r == a
  {
    if Truthy(a) then a else b
  }

  /** The configuration after the proxy seeding from the environment. */
  function Seeded(config: map<string, ConfigValue>, env: map<string, string>): map<string, ConfigValue>
  {
    var http := OrElse(GetEnv(env, "HTTP_PROXY"), GetEnv(env, "http_proxy"));
    var https := OrElse(GetEnv(env, "HTTPS_PROXY"), GetEnv(env, "https_proxy"));
    var noProxy := OrElse(GetEnv(env, "NO_PROXY"), GetEnv(env, "no_proxy"));
    if Truthy(http) || Truthy(https) then
      var c1 := config["proxy_enabled" := BoolValue(true)];
      var c2 := if Truthy(http) then c1["http_proxy" := StrValue(http.value)] else c1;
      var c3 := if Truthy(https) then c2["https_proxy" := StrValue(https.value)] else c2;
      if Truthy(noProxy) then c3["no_proxy" := StrValue(noProxy.value)] else c3
    else config
  }

  /** The proxy is enabled exactly when an HTTP or HTTPS proxy variable is set and non-empty (either spelling). */
  lemma ProxyEnabledFromEnvironment(env: map<string, string>)
    ensures var c := Seeded(Defaults, env);
      c["proxy_enabled"] == BoolValue(
        Truthy(GetEnv(env, "HTTP_PROXY")) || Truthy(GetEnv(env, "http_proxy")) ||
        Truthy(GetEnv(env, "HTTPS_PROXY")) || Truthy(GetEnv(env, "https_proxy")))
  {
  }

  /** `no_proxy` is copied from the environment only together with an HTTP or HTTPS proxy; the upper-case spelling wins. */
  lemma NoProxyOnlyWithProxy(env: map<string, string>)
    ensures var c := Seeded(Defaults, env);
      var noProxy := OrElse(GetEnv(env, "NO_PROXY"), GetEnv(env, "no_proxy"));
      c["no_proxy"] == if c["proxy_enabled"] == BoolValue(true) && Truthy(noProxy) then StrValue(noProxy.value) else StrValue("")
    ensures Truthy(GetEnv(env, "NO_PROXY")) && Seeded(Defaults, env)["proxy_enabled"] == BoolValue(true) ==>
      Seeded(Defaults, env)["no_proxy"] == StrValue(env["NO_PROXY"])
  {
  }

  /** Storing a value of its kind under one of the eleven keys keeps the configuration's shape. */
  lemma SetKeepsSane(config: map<string, ConfigValue>, key: string, value: ConfigValue)
    requires Sane(config) && key in ValidKeys && WellTyped(key, value)
    ensures Sane(config[key := value])
  {
  }

  /** Seeding keeps the configuration's shape. */
  lemma SeedingKeepsSane(config: map<string, ConfigValue>, env: map<string, string>)
    requires Sane(config)
    ensures Sane(Seeded(config, env))
  {
    var http := OrElse(GetEnv(env, "HTTP_PROXY"), GetEnv(env, "http_proxy"));
    var https := OrElse(GetEnv(env, "HTTPS_PROXY"), GetEnv(env, "https_proxy"));
    var noProxy := OrElse(GetEnv(env, "NO_PROXY"), GetEnv(env, "no_proxy"));
    if Truthy(http) || Truthy(https) {
      var c1 := config["proxy_enabled" := BoolValue(true)];
      SetKeepsSane(config, "proxy_enabled", BoolValue(true));
      var c2 := if Truthy(http) then c1["http_proxy" := StrValue(http.value)] else c1;
      if Truthy(http) { SetKeepsSane(c1, "http_proxy", StrValue(http.value)); }
      var c3 := if Truthy(https) then c2["https_proxy" := StrValue(https.value)] else c2;
      if Truthy(https) { SetKeepsSane(c2, "https_proxy", StrValue(https.value)); }
      if Truthy(noProxy) { SetKeepsSane(c3, "no_proxy", StrValue(noProxy.value)); }
    }
  }

  class RuntimeConfig {
    var config: map<string, ConfigValue>

    /** The module-level set-up: the defaults, then the proxy seeding from `env`. */
    constructor (env: map<string, string>)
      ensures config == Seeded(Defaults, env)
    {
      var c := Defaults;
      var http := OrElse(GetEnv(env, "HTTP_PROXY"), GetEnv(env, "http_proxy"));
      var https := OrElse(GetEnv(env, "HTTPS_PROXY"), GetEnv(env, "https_proxy"));
      var noProxy := OrElse(GetEnv(env, "NO_PROXY"), GetEnv(env, "no_proxy"));
      if Truthy(http) || Truthy(https) {
        c := c["proxy_enabled" := BoolValue(true)];
        if Truthy(http) {
          c := c["http_proxy" := StrValue(http.value)];
        }
        if Truthy(https) {
          c := c["https_proxy" := StrValue(https.value)];
        }
        if Truthy(noProxy) {
          c := c["no_proxy" := StrValue(noProxy.value)];
        }
      }
      config := c;
    }

    /** `get_config`: the stored value, or the supplied default for a key that is not stored. */
    function GetConfig(key: string, default: ConfigValue): (v: ConfigValue)
      reads this
      ensures key in config ==> v == config[key]
      ensures key !in config ==> v == default
    {
      if key in config then config[key] else default
    }

    /**
     * `update_config`: applies each accepted pair in order, in place, and reports the applied keys
     * with the message counting them.
     */
    method UpdateConfig(updates: seq<(string, ConfigValue)>) returns (updated: seq<string>, message: string)
      modifies this
      ensures config == ApplyUpdates(old(config), updates)
      ensures updated == AppliedKeys(updates)
      ensures message == UpdateMessage(|updated|)
    {
      updated := [];
      ghost var start := config;
      for n := 0 to |updates|
        invariant config == ApplyUpdates(start, updates[..n])
        invariant updated == AppliedKeys(updates[..n])
      {
        var (key, value) := updates[n];
        assert updates[..n + 1][..n] == updates[..n];
        if key in ValidKeys {
          if key == "concurrency" && IsInt(value) && 1 <= IntOf(value) <= 50 {
            config := config[key := value];
            updated := updated + [key];
          } else if key in {"default_timeout", "default_max_retries"} && IsInt(value) && IntOf(value) > 0 {
            config := config[key := value];
            updated := updated + [key];
          } else if StartsWith(key, "cache_ttl_") && IsInt(value) && IntOf(value) >= 0 {
            config := config[key := value];
            updated := updated + [key];
          } else if key in {"proxy_enabled", "verify_ssl"} && value.BoolValue? {
            config := config[key := value];
            updated := updated + [key];
          } else if key in {"http_proxy", "https_proxy", "no_proxy"} && value.StrValue? {
            config := config[key := value];
            updated := updated + [key];
          }
        }
      }
      assert updates[..|updates|] == updates;
      message := UpdateMessage(|updated|);
    }
  }
}
