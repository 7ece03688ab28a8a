/**
 * Page helpers (src/utils/page.js): passing data to a page through a storage
 * entry keyed by the page path, and navigation.  The route of the current page
 * and the clock are inputs; `encodeURIComponent` is a parameter; the
 * navigation itself is returned rather than performed.
 */
module Page {
  import opened Wrappers
  import opened Strings
  import opened JsValue
  import opened KvStorage
  import Cache

  /** `CACHE_PREFIX`, the same string as in src/utils/cache.js. */
  const PagePrefix: string := "page_cache_"

  /** `path?.replace(/^\//, '').replace(/\//g, '_') || ''`. */
  function PathToKey(path: string): string {
    ReplaceChar(Cache.StripLeadingSlash(path), '/', '_')
  }

  /** The storage key `savePageCache` and its siblings use for a path. */
  function PageKey(path: string): string {
    PagePrefix + PathToKey(path)
  }

  /** Both modules address the same storage entry for a page path. */
  lemma PageKeyAgreesWithCache(path: string)
    ensures PathToKey(path) == Cache.PagePathToCacheKey(path)
    ensures PageKey(path) == Cache.CacheKey(Cache.PagePathToCacheKey(path))
  {
  }

  /** `getCurrentPath()`: `'/' + route` of the top page, `null` when there is none. */
  function CurrentPath(route: Option<string>): (r: Option<string>)
    ensures r == Cache.CurrentPagePath(route)
  {
    if route.Some? && route.value != "" then Some("/" + route.value) else None
  }

  /** `pagePath || getCurrentPath()`; `pagePath` is `""` when not given. */
  function ResolvePath(pagePath: string, route: Option<string>): Option<string> {
    if pagePath != "" then Some(pagePath) else CurrentPath(route)
  }

  /** `{ ...data, _ts: now }`. */
  function PageRecord(data: Value, now: int): Value {
    Obj(Spread(OwnEntries(data), [Field("_ts", Num(now))]))
  }

  /** The stored record carries the save time and every other property of the data. */
  lemma PageRecordFields(data: Value, now: int, k: string)
    ensures var r := PageRecord(data, now);
      && Truthy(r)
      && Get(r, "_ts") == Num(now)
      && (k != "_ts" ==> Get(r, k) == Lookup(OwnEntries(data), k))
  {
    var extra := [Field("_ts", Num(now))];
    assert KeysOf(extra) == ["_ts"];
    LookupSpread(OwnEntries(data), extra, "_ts");
    LookupSpread(OwnEntries(data), extra, k);
  }

  /** `getStorageSync(key) || null`. */
  function StoredOrNull(entries: map<string, Value>, key: string): (v: Value)
    ensures v == Cache.CachedValue(entries, key)
  {
    Or(if key in entries then entries[key] else Str(""), Null)
  }

  /** `savePageCache(pagePath, data)`: `false` and no write when no path resolves. */
  method SavePageCache(st: Storage, pagePath: string, route: Option<string>, data: Value, now: int) returns (ok: bool)
    modifies st
    ensures ok <==> ResolvePath(pagePath, route).Some?
    ensures !ok ==> st.entries == old(st.entries)
    ensures ok ==> st.entries == old(st.entries)[PageKey(ResolvePath(pagePath, route).value) := PageRecord(data, now)]
  {
    var path := ResolvePath(pagePath, route);
    if path.None? {
      return false;
    }
    st.Set(PageKey(path.value), PageRecord(data, now));
    ok := true;
  }

  /** `getPageCache(pagePath)`: the stored value, or `null`. */
  method GetPageCache(st: Storage, pagePath: string, route: Option<string>) returns (v: Value)
    ensures ResolvePath(pagePath, route).None? ==> v == Null
    ensures ResolvePath(pagePath, route).Some? ==> v == StoredOrNull(st.entries, PageKey(ResolvePath(pagePath, route).value))
  {
    var path := ResolvePath(pagePath, route);
    if path.None? {
      return Null;
    }
    var stored := st.Get(PageKey(path.value));
    v := Or(stored, Null);
  }

  /** `clearPageCache(pagePath)`. */
  method ClearPageCache(st: Storage, pagePath: string, route: Option<string>) returns (ok: bool)
    modifies st
    ensures ok <==> ResolvePath(pagePath, route).Some?
    ensures !ok ==> st.entries == old(st.entries)
    ensures ok ==> st.entries == old(st.entries) - {PageKey(ResolvePath(pagePath, route).value)}
  {
    var path := ResolvePath(pagePath, route);
    if path.None? {
      return false;
    }
    st.Remove(PageKey(path.value));
    ok := true;
  }

  /** Data saved for a path reads back, with `_ts`, until the path is cleared; then it reads as `null`. */
  lemma SaveGetClear(entries: map<string, Value>, path: string, data: Value, now: int)
    ensures var saved := entries[PageKey(path) := PageRecord(data, now)];
      && StoredOrNull(saved, PageKey(path)) == PageRecord(data, now)
      && StoredOrNull(saved - {PageKey(path)}, PageKey(path)) == Null
  {
    PageRecordFields(data, now, "_ts");
  }

  /**
   * What src/utils/page.js stores is what src/utils/cache.js's
   * `getPageCache` reads for the same path: the data with `_ts`.
   */
  lemma PageSaveCacheRead(entries: map<string, Value>, path: string, data: Value, now: int)
    requires path != ""
    ensures var saved := entries[PageKey(path) := PageRecord(data, now)];
      Cache.CachedValue(saved, Cache.CacheKey(Cache.PagePathToCacheKey(path))) == PageRecord(data, now)
  {
    PageKeyAgreesWithCache(path);
    PageRecordFields(data, now, "_ts");
  }

  /** The four navigation calls `doNavigate` can make. */
  datatype NavKind = NavigateTo | RedirectTo | ReLaunch | SwitchTab

  datatype Navigation = Navigation(kind: NavKind, url: string)

  /** `(methods[type] || methods.navigate)`: an unknown type navigates. */
  function NavKindOf(navType: string): (k: NavKind)
    ensures navType !in {"redirect", "reLaunch", "switchTab"} ==> k == NavigateTo
  {
    if navType == "redirect" then RedirectTo
    else if navType == "reLaunch" then ReLaunch
    else if navType == "switchTab" then SwitchTab
    else NavigateTo
  }

  /** `doNavigate(url, type)`. */
  function DoNavigate(url: string, navType: string): (n: Navigation)
    ensures n.url == url && n.kind == NavKindOf(navType)
  {
    Navigation(NavKindOf(navType), url)
  }

  /** `Object.keys(data).length > 0` for data that is not `null` (a missing argument is `{}`). */
  predicate HasKeys(data: Value) {
    |OwnEntries(data)| > 0
  }

  /**
   * `navigateTo(url, data, type)`: nothing for an empty url; the data is saved
   * for the target page only when it has own keys; then the navigation.
   * `null` data makes `Object.keys` throw before anything happens.
   */
  method NavigateWithCache(st: Storage, url: string, data: Value, navType: string, now: int)
    returns (nav: Result<Option<Navigation>>)
    modifies st
    ensures url == "" ==> nav == Success(None) && st.entries == old(st.entries)
    ensures url != "" && data.Null? ==> nav == Failure(KeysOfNullError) && st.entries == old(st.entries)
    ensures url != "" && !data.Null? ==> nav == Success(Some(DoNavigate(url, navType)))
    ensures url != "" && HasKeys(data) ==> st.entries == old(st.entries)[PageKey(url) := PageRecord(data, now)]
    ensures !HasKeys(data) ==> st.entries == old(st.entries)
  {
    if url == "" {
      return Success(None);
    }
    if data.Null? {
      return Failure(KeysOfNullError);
    }
    if HasKeys(data) {
      var _ := SavePageCache(st, url, None, data, now);
    }
    nav := Success(Some(DoNavigate(url, navType)));
  }

  /**
   * The url `navigateWithParams` navigates to: unchanged for params without
   * keys, else with `?params=` and the encoded JSON of the params appended.
   */
  function ParamsUrl(url: string, params: Value, encode: string -> string): (r: string)
    ensures !HasKeys(params) ==> r == url
    ensures HasKeys(params) ==> StartsWith(r, url + "?params=") && r[|url| + 8..] == encode(Json(params))
  {
    if HasKeys(params) then url + "?params=" + encode(Json(params)) else url
  }

  /** `navigateWithParams(url, params, type)`: nothing for an empty url. */
  function NavigateWithParams(url: string, params: Value, navType: string, encode: string -> string)
    : (r: Result<Option<Navigation>>)
    ensures url == "" ==> r == Success(None)
    ensures url != "" && params.Null? ==> r == Failure(KeysOfNullError)
    ensures url != "" && !params.Null? ==>
      && r.Success? && r.value.Some?
      && r.value.value.kind == NavKindOf(navType)
      && (!HasKeys(params) ==> r.value.value.url == url)
      && (HasKeys(params) ==> r.value.value.url == url + "?params=" + encode(Json(params)))
  {
    if url == "" then Success(None)
    else if params.Null? then Failure(KeysOfNullError)
    else Success(Some(DoNavigate(ParamsUrl(url, params, encode), navType)))
  }

  /**
   * The target page gets the params back: with a `decode` that undoes
   * `encode`, the text after `?params=` decodes to the JSON of the params.
   */
  lemma NavigateWithParamsRoundTrip(url: string, params: Value, navType: string,
                                    encode: string -> string, decode: string -> string)
    requires url != "" && HasKeys(params)
    requires forall t :: decode(encode(t)) == t
    ensures var r := NavigateWithParams(url, params, navType, encode);
      r.Success? && r.value.Some? && decode(r.value.value.url[|url| + 8..]) == Json(params)
  {
    var r := NavigateWithParams(url, params, navType, encode);
    assert !params.Null?;
    assert r.value.value.url[|url| + 8..] == encode(Json(params));
  }
}
