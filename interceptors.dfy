/**
 * The request and response interceptors (src/api/core/interceptors.js).
 *
 * The outbound side is split where the source awaits the token manager:
 * `PrepareOptions` is everything before `getValidToken`, `AddAuthorization`
 * everything after it, and `RequestInterceptor` the two composed for a given
 * token.  The environment values come from the environment module; `None`
 * stands for `getConfig()` throwing.
 */
module Interceptors {
  import opened Wrappers
  import opened Strings
  import opened JsValue

  /** The fields of a request's options object that the request layer reads or writes. */
  datatype RequestOptions = RequestOptions(
    url: string,
    httpMethod: string,     // "" when absent
    data: Value,
    header: Value,
    loading: Value,
    showError: Value,
    cancelPrevious: Value,
    tokenRefreshed: Value)  // `_tokenRefreshed`

  /** `getAPIBaseURL()`, `getTenantID()` and `getLoginUserType()`. */
  datatype EnvValues = EnvValues(apiBaseUrl: Value, tenantId: Value, loginUserType: Value)

  function DefaultHeaders(env: EnvValues): seq<Field> {
    [ Field("tenant-id", Or(env.tenantId, Str("1"))),
      Field("login_user_type", Or(env.loginUserType, Str("3"))),
      Field("Content-Type", Str("application/json")) ]
  }

  /** Login and token-refresh endpoints are sent without a token. */
  predicate IsSkipTokenCheck(url: string) {
    Contains(url, "/login") || Contains(url, "/refresh-token")
  }

  /** `requestInterceptor` up to the token lookup: default method, base URL, default headers. */
  function PrepareOptions(o: RequestOptions, env: EnvValues): (r: RequestOptions)
    ensures r.data == o.data && r.loading == o.loading && r.showError == o.showError
    ensures r.cancelPrevious == o.cancelPrevious && r.tokenRefreshed == o.tokenRefreshed
  {
    o.(httpMethod := if o.httpMethod == "" then "GET" else o.httpMethod,
       url := if StartsWith(o.url, "http") then o.url else ToJsString(env.apiBaseUrl) + o.url,
       header := Obj(Spread(DefaultHeaders(env), OwnEntries(o.header))))
  }

  /** `requestInterceptor` after the token lookup: a truthy token becomes a `Bearer` header. */
  function AddAuthorization(p: RequestOptions, token: Value): (r: RequestOptions)
    ensures r.(header := p.header) == p
  {
    if Truthy(token) then
      p.(header := Obj(SetField(OwnEntries(p.header), "Authorization", Str("Bearer " + ToJsString(token)))))
    else p
  }

  /**
   * `requestInterceptor(options)` when `getValidToken()` yields `token`
   * (ignored for the skipped endpoints, where the source does not ask for one).
   */
  function RequestInterceptor(o: RequestOptions, env: Option<EnvValues>, token: Value): (r: Result<RequestOptions>)
    ensures r.Failure? <==> env.None?
  {
    match env
    case None => Failure("getConfig failed")
    case Some(e) =>
      var p := PrepareOptions(o, e);
      if IsSkipTokenCheck(p.url) then Success(p) else Success(AddAuthorization(p, token))
  }

  /** The method defaults to `GET`; a url not starting with `http` gets the base URL in front. */
  lemma InterceptorMethodAndUrl(o: RequestOptions, e: EnvValues, token: Value)
    ensures var r := RequestInterceptor(o, Some(e), token).value;
      && (o.httpMethod == "" ==> r.httpMethod == "GET")
      && (o.httpMethod != "" ==> r.httpMethod == o.httpMethod)
      && (StartsWith(o.url, "http") ==> r.url == o.url)
      && (!StartsWith(o.url, "http") ==> r.url == ToJsString(e.apiBaseUrl) + o.url)
      && r.data == o.data
  {
  }

  /** Re-intercepting an already intercepted request keeps its url when the base URL is absolute. */
  lemma InterceptorUrlStable(o: RequestOptions, e: EnvValues, t1: Value, t2: Value)
    requires StartsWith(ToJsString(e.apiBaseUrl), "http")
    ensures var r := RequestInterceptor(o, Some(e), t1).value;
      RequestInterceptor(r, Some(e), t2).value.url == r.url
  {
    var r := RequestInterceptor(o, Some(e), t1).value;
    InterceptorMethodAndUrl(o, e, t1);
    if !StartsWith(o.url, "http") {
      var b := ToJsString(e.apiBaseUrl);
      assert (b + o.url)[..4] == b[..4];
    }
    assert StartsWith(r.url, "http") || StartsWith(o.url, "http");
    InterceptorMethodAndUrl(r, e, t2);
  }

  /**
   * Header merge: a header the caller supplies wins; otherwise the defaults
   * (`tenant-id` from the environment or '1', `login_user_type` from the
   * environment or '3', JSON content type) apply.
   */
  lemma PreparedHeaders(o: RequestOptions, e: EnvValues, k: string)
    requires DistinctKeys(OwnEntries(o.header))
    ensures var h := PrepareOptions(o, e).header;
      && (k in KeysOf(OwnEntries(o.header)) ==> Get(h, k) == Lookup(OwnEntries(o.header), k))
      && (k !in KeysOf(OwnEntries(o.header)) && k == "tenant-id" ==> Get(h, k) == Or(e.tenantId, Str("1")))
      && (k !in KeysOf(OwnEntries(o.header)) && k == "login_user_type" ==> Get(h, k) == Or(e.loginUserType, Str("3")))
      && (k !in KeysOf(OwnEntries(o.header)) && k == "Content-Type" ==> Get(h, k) == Str("application/json"))
  {
    LookupSpread(DefaultHeaders(e), OwnEntries(o.header), k);
    LookupPresent(DefaultHeaders(e), 0);
    LookupPresent(DefaultHeaders(e), 1);
    LookupPresent(DefaultHeaders(e), 2);
  }

  /**
   * The interceptor sets `Authorization` to `Bearer <token>` exactly when the
   * url is not a login or refresh endpoint and the token is truthy; otherwise
   * the header keeps whatever the caller supplied.
   */
  lemma AuthorizationHeader(o: RequestOptions, e: EnvValues, token: Value)
    requires DistinctKeys(OwnEntries(o.header))
    ensures var p := PrepareOptions(o, e);
      var h := RequestInterceptor(o, Some(e), token).value.header;
      && (!IsSkipTokenCheck(p.url) && Truthy(token) ==> Get(h, "Authorization") == Str("Bearer " + ToJsString(token)))
      && (IsSkipTokenCheck(p.url) || !Truthy(token) ==> Get(h, "Authorization") == Lookup(OwnEntries(o.header), "Authorization"))
  {
    var p := PrepareOptions(o, e);
    var base := Spread(DefaultHeaders(e), OwnEntries(o.header));
    var bearer := Str("Bearer " + ToJsString(token));
    assert p.header == Obj(base);
    InterceptedHeader(o, e, token);
    assert KeysOf(DefaultHeaders(e)) == ["tenant-id", "login_user_type", "Content-Type"];
    LookupSpread(DefaultHeaders(e), OwnEntries(o.header), "Authorization");
    assert Lookup(base, "Authorization") == Lookup(OwnEntries(o.header), "Authorization");
    if !IsSkipTokenCheck(p.url) && Truthy(token) {
      LookupSetField(base, "Authorization", bearer, "Authorization");
    }
  }

  /** The header `requestInterceptor` sends: the merged headers, with `Authorization` set when a token applies. */
  lemma InterceptedHeader(o: RequestOptions, e: EnvValues, token: Value)
    ensures var p := PrepareOptions(o, e);
      var base := Spread(DefaultHeaders(e), OwnEntries(o.header));
      RequestInterceptor(o, Some(e), token).value.header
        == if !IsSkipTokenCheck(p.url) && Truthy(token)
           then Obj(SetField(base, "Authorization", Str("Bearer " + ToJsString(token))))
           else Obj(base)
  {
  }

  /** An intercepted request carries an object header with distinct keys, among them every default header. */
  lemma InterceptedHeaderShape(o: RequestOptions, e: EnvValues, t: Value)
    requires DistinctKeys(OwnEntries(o.header))
    ensures var h := RequestInterceptor(o, Some(e), t).value.header;
      && h.Obj? && DistinctKeys(h.fields)
      && forall d :: d in KeysOf(DefaultHeaders(e)) ==> d in KeysOf(h.fields)
  {
    var p := PrepareOptions(o, e);
    var base := Spread(DefaultHeaders(e), OwnEntries(o.header));
    var bearer := Str("Bearer " + ToJsString(t));
    InterceptedHeader(o, e, t);
    SpreadKeepsDistinct(DefaultHeaders(e), OwnEntries(o.header));
    KeysSpread(DefaultHeaders(e), OwnEntries(o.header));
    if !IsSkipTokenCheck(p.url) && Truthy(t) {
      SetFieldKeepsDistinct(base, "Authorization", bearer);
      KeysSetField(base, "Authorization", bearer);
    }
  }

  /** Running the interceptor on its own output changes no header but `Authorization`. */
  lemma InterceptTwiceHeaders(o: RequestOptions, e: EnvValues, t1: Value, t2: Value, k: string)
    requires DistinctKeys(OwnEntries(o.header))
    requires k != "Authorization"
    ensures var r1 := RequestInterceptor(o, Some(e), t1).value;
      var r2 := RequestInterceptor(r1, Some(e), t2).value;
      Get(r2.header, k) == Get(r1.header, k)
  {
    var r1 := RequestInterceptor(o, Some(e), t1).value;
    InterceptedHeaderShape(o, e, t1);
    var h1 := r1.header.fields;
    var p2 := PrepareOptions(r1, e);
    LookupSpread(DefaultHeaders(e), h1, k);
    if !IsSkipTokenCheck(p2.url) && Truthy(t2) {
      LookupSetField(OwnEntries(p2.header), "Authorization", Str("Bearer " + ToJsString(t2)), k);
    }
  }

  /** `createErrorResponse(code, message)`. */
  function CreateErrorResponse(code: Value, message: Value): (r: Value)
    ensures Get(r, "code") == code && Get(r, "message") == message
    ensures Get(r, "success") == Bool(false) && Get(r, "data") == Null
    ensures r.Obj? && Get(r, "config") == Undefined
  {
    var fields := [Field("success", Bool(false)), Field("code", code), Field("message", message), Field("data", Null)];
    assert KeysOf(fields) == ["success", "code", "message", "data"];
    LookupPresent(fields, 0);
    LookupPresent(fields, 1);
    LookupPresent(fields, 2);
    LookupPresent(fields, 3);
    Obj(fields)
  }

  /** `getHttpErrorMessage(statusCode)`. */
  function GetHttpErrorMessage(status: int): string {
    if status == 401 then "未授权，请重新登录"
    else if status == 403 then "拒绝访问"
    else if status == 404 then "请求地址不存在"
    else if status == 500 then "服务器内部错误"
    else if status == 502 then "网关错误"
    else if status == 503 then "服务不可用"
    else if status == 504 then "网关超时"
    else "网络请求失败"
  }

  /** Only the seven listed statuses have their own text; every other status gets the generic one. */
  lemma HttpErrorMessageFallback(status: int)
    ensures GetHttpErrorMessage(status) == "网络请求失败" <==>
      status !in {401, 403, 404, 500, 502, 503, 504}
    ensures |GetHttpErrorMessage(status)| > 0
  {
  }

  /** What `responseInterceptor` hands back: the 401 escalation, or a value. */
  datatype Classified = Unauthorized | Passed(v: Value)

  predicate Is2xx(status: int) {
    200 <= status < 300
  }

  /** `responseInterceptor(response)` before `handleUnauthorized` runs. */
  function ResponseInterceptor(status: int, data: Value): (r: Classified)
    ensures r.Unauthorized? <==>
      status == 401 || (Is2xx(status) && Truthy(data) && Get(data, "code") == Num(401))
    ensures !Is2xx(status) && status != 401 ==>
      r == Passed(CreateErrorResponse(Num(status), Str(GetHttpErrorMessage(status))))
    ensures Is2xx(status) && (!Truthy(data) || Get(data, "code") == Undefined || Get(data, "code") == Num(0)) ==>
      r == Passed(data)
    ensures Is2xx(status) && Truthy(data) && Get(data, "code") !in {Undefined, Num(0), Num(401)} ==>
      r == Passed(CreateErrorResponse(Get(data, "code"), Or(Get(data, "msg"), Get(data, "message"))))
  {
    if !Is2xx(status) then
      if status == 401 then Unauthorized
      else Passed(CreateErrorResponse(Num(status), Str(GetHttpErrorMessage(status))))
    else if Truthy(data) && Get(data, "code") != Undefined then
      if Get(data, "code") == Num(0) then Passed(data)
      else if Get(data, "code") == Num(401) then Unauthorized
      else Passed(CreateErrorResponse(Get(data, "code"), Or(Get(data, "msg"), Get(data, "message"))))
    else Passed(data)
  }
}
