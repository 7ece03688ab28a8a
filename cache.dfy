/**
 * Page cache over the platform storage (src/utils/cache.js).  Entries live
 * under `page_cache_<businessKey>` and carry the business key and the time
 * of saving.  The current page's route (from `getCurrentPages()`) and the
 * clock are inputs.
 */
module Cache {
  import opened Wrappers
  import opened Strings
  import opened JsValue
  import opened KvStorage

  const CachePrefix: string := "page_cache_"

  /** `generateCacheKey(businessKey)`. */
  function CacheKey(businessKey: string): (k: string)
    ensures StartsWith(k, CachePrefix) && k[|CachePrefix|..] == businessKey
  {
    CachePrefix + businessKey
  }

  /** Different business keys never share a storage key. */
  lemma CacheKeyInjective(a: string, b: string)
    requires CacheKey(a) == CacheKey(b)
    ensures a == b
  {
    assert a == CacheKey(a)[|CachePrefix|..];
  }

  /** `{ ...data, businessKey, timestamp: now }`. */
  function CacheRecord(businessKey: string, data: Value, now: int): Value {
    Obj(Spread(OwnEntries(data), [Field("businessKey", Str(businessKey)), Field("timestamp", Num(now))]))
  }

  /**
   * A saved record reads back the business key, the save time, and every
   * other property of the data; it keeps the keys distinct.
   */
  lemma CacheRecordFields(businessKey: string, data: Value, now: int, k: string)
    ensures var r := CacheRecord(businessKey, data, now);
      && Truthy(r)
      && (DistinctKeys(OwnEntries(data)) ==> DistinctKeys(r.fields))
      && Get(r, "businessKey") == Str(businessKey)
      && Get(r, "timestamp") == Num(now)
      && (k != "businessKey" && k != "timestamp" ==> Get(r, k) == Lookup(OwnEntries(data), k))
  {
    var extra := [Field("businessKey", Str(businessKey)), Field("timestamp", Num(now))];
    assert KeysOf(extra) == ["businessKey", "timestamp"];
    LookupSpread(OwnEntries(data), extra, "businessKey");
    LookupSpread(OwnEntries(data), extra, "timestamp");
    LookupSpread(OwnEntries(data), extra, k);
    if DistinctKeys(OwnEntries(data)) {
      SpreadKeepsDistinct(OwnEntries(data), extra);
    }
  }

  /** `getStorageSync(key)` followed by the `if (!cacheData) return null`. */
  function CachedValue(entries: map<string, Value>, key: string): (v: Value)
    ensures key !in entries || !Truthy(entries[key]) ==> v == Null
    ensures key in entries && Truthy(entries[key]) ==> v == entries[key]
  {
    Or(if key in entries then entries[key] else Str(""), Null)
  }

  /** `saveCache(businessKey, data)` at time `now`; the platform storage does not fail here. */
  method SaveCache(st: Storage, businessKey: string, data: Value, now: int) returns (ok: bool)
    modifies st
    ensures ok
    ensures st.entries == old(st.entries)[CacheKey(businessKey) := CacheRecord(businessKey, data, now)]
  {
    st.Set(CacheKey(businessKey), CacheRecord(businessKey, data, now));
    ok := true;
  }

  /** `getCache(businessKey)`. */
  method GetCache(st: Storage, businessKey: string) returns (v: Value)
    ensures v == CachedValue(st.entries, CacheKey(businessKey))
  {
    var stored := st.Get(CacheKey(businessKey));
    if !Truthy(stored) {
      return Null;
    }
    v := stored;
  }

  /** `clearCache(businessKey)`. */
  method ClearCache(st: Storage, businessKey: string) returns (ok: bool)
    modifies st
    ensures ok && st.entries == old(st.entries) - {CacheKey(businessKey)}
  {
    st.Remove(CacheKey(businessKey));
    ok := true;
  }

  /** Saving and reading back gives the record; other keys are untouched by the save. */
  lemma SaveThenGet(entries: map<string, Value>, businessKey: string, data: Value, now: int, other: string)
    ensures var after := entries[CacheKey(businessKey) := CacheRecord(businessKey, data, now)];
      && CachedValue(after, CacheKey(businessKey)) == CacheRecord(businessKey, data, now)
      && (other != businessKey ==> CachedValue(after, CacheKey(other)) == CachedValue(entries, CacheKey(other)))
  {
    CacheRecordFields(businessKey, data, now, "");
    if other != businessKey && CacheKey(other) == CacheKey(businessKey) {
      CacheKeyInjective(other, businessKey);
    }
  }

  /** After a clear, the key reads as `null` and every other key is untouched. */
  lemma ClearThenGet(entries: map<string, Value>, businessKey: string, other: string)
    ensures var after := entries - {CacheKey(businessKey)};
      && CachedValue(after, CacheKey(businessKey)) == Null
      && (other != businessKey ==> CachedValue(after, CacheKey(other)) == CachedValue(entries, CacheKey(other)))
  {
    if other != businessKey && CacheKey(other) == CacheKey(businessKey) {
      CacheKeyInjective(other, businessKey);
    }
  }

  /** `path.replace(/^\//, '')`. */
  function StripLeadingSlash(path: string): (r: string)
    ensures |path| > 0 && path[0] == '/' ==> r == path[1..]
    ensures !(|path| > 0 && path[0] == '/') ==> r == path
  {
    if |path| > 0 && path[0] == '/' then path[1..] else path
  }

  /**
   * `pagePathToCacheKey(pagePath)`: `''` for an empty path; otherwise one
   * leading `/` is dropped and every other `/` becomes `_`.
   */
  function PagePathToCacheKey(path: string): (k: string)
    ensures '/' !in k
    ensures path == "" ==> k == ""
    ensures |k| == |StripLeadingSlash(path)|
  {
    if path == "" then "" else ReplaceChar(StripLeadingSlash(path), '/', '_')
  }

  /** The key of `/route` is the route with its slashes turned into underscores. */
  lemma PagePathKeyOfRoute(route: string)
    ensures PagePathToCacheKey("/" + route) == ReplaceChar(route, '/', '_')
    ensures '/' !in route ==> PagePathToCacheKey("/" + route) == route
  {
    assert ("/" + route)[1..] == route;
    if '/' !in route {
      ReplaceCharAbsent(route, '/', '_');
    }
  }

  /** `getCurrentPagePath()`: `'/' + route` of the top page, `null` when there is none. */
  function CurrentPagePath(route: Option<string>): (r: Option<string>)
    ensures r.Some? <==> route.Some? && route.value != ""
    ensures r.Some? ==> r.value == "/" + route.value
  {
    if route.Some? && route.value != "" then Some("/" + route.value) else None
  }

  /** `pagePath || getCurrentPagePath()`; `pagePath` is `""` when not given. */
  function ResolvePagePath(pagePath: string, route: Option<string>): (r: Option<string>)
    ensures pagePath != "" ==> r == Some(pagePath)
    ensures pagePath == "" ==> r == CurrentPagePath(route)
    ensures r.Some? ==> r.value != ""
  {
    if pagePath != "" then Some(pagePath) else CurrentPagePath(route)
  }

  /** `getPageCache(pagePath)`: `null` without touching storage when no path resolves. */
  method GetPageCache(st: Storage, pagePath: string, route: Option<string>) returns (v: Value)
    ensures ResolvePagePath(pagePath, route).None? ==> v == Null
    ensures ResolvePagePath(pagePath, route).Some? ==>
      v == CachedValue(st.entries, CacheKey(PagePathToCacheKey(ResolvePagePath(pagePath, route).value)))
  {
    var target := ResolvePagePath(pagePath, route);
    if target.None? {
      return Null;
    }
    v := GetCache(st, PagePathToCacheKey(target.value));
  }

  /** `savePageCache(pagePath, data)`: the business key is the page's cache key. */
  method SavePageCache(st: Storage, pagePath: string, route: Option<string>, data: Value, now: int) returns (ok: bool)
    modifies st
    ensures ok <==> ResolvePagePath(pagePath, route).Some?
    ensures !ok ==> st.entries == old(st.entries)
    ensures ok ==> var k := PagePathToCacheKey(ResolvePagePath(pagePath, route).value);
      st.entries == old(st.entries)[CacheKey(k) := CacheRecord(k, data, now)]
  {
    var target := ResolvePagePath(pagePath, route);
    if target.None? {
      return false;
    }
    ok := SaveCache(st, PagePathToCacheKey(target.value), data, now);
  }

  /** `clearPageCache(pagePath)`. */
  method ClearPageCache(st: Storage, pagePath: string, route: Option<string>) returns (ok: bool)
    modifies st
    ensures ok <==> ResolvePagePath(pagePath, route).Some?
    ensures !ok ==> st.entries == old(st.entries)
    ensures ok ==> st.entries == old(st.entries) - {CacheKey(PagePathToCacheKey(ResolvePagePath(pagePath, route).value))}
  {
    var target := ResolvePagePath(pagePath, route);
    if target.None? {
      return false;
    }
    ok := ClearCache(st, PagePathToCacheKey(target.value));
  }
}
