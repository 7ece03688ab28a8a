/**
 * The pure parts of src/api/core/request.js: the error values it builds, what
 * `request` does with the response interceptor's result, the retry decision
 * after a token refresh, and the error-toast throttle rule.
 */
module RequestCore {
  import opened Wrappers
  import opened Strings
  import opened JsValue
  import opened Interceptors

  const MaxRetryCount := 1
  const RetryDelay := 100
  const ErrorThrottleWindow := 1500

  /** `createRequestError(message)` (the `raw` field of the error builders is not modelled). */
  function CreateRequestError(message: Value): (r: Value)
    ensures Get(r, "code") == Num(-1) && Get(r, "data") == Null
    ensures Get(r, "msg") == Or(message, Str("请求处理错误"))
  {
    var fields := [Field("code", Num(-1)), Field("msg", Or(message, Str("请求处理错误"))), Field("data", Null)];
    LookupPresent(fields, 0);
    LookupPresent(fields, 1);
    LookupPresent(fields, 2);
    Obj(fields)
  }

  const NetworkErrorMessage := "网络连接失败，请检查网络设置"
  const InterceptorErrorMessage := "请求拦截器错误"

  /** `createNetworkError(error)`. */
  function CreateNetworkError(): (r: Value)
    ensures Get(r, "code") == Num(-1) && Get(r, "msg") == Str(NetworkErrorMessage) && Get(r, "data") == Null
  {
    var fields := [Field("code", Num(-1)), Field("msg", Str(NetworkErrorMessage)), Field("data", Null)];
    LookupPresent(fields, 0);
    LookupPresent(fields, 1);
    LookupPresent(fields, 2);
    Obj(fields)
  }

  /** `createInterceptorError(error)`. */
  function CreateInterceptorError(): (r: Value)
    ensures Get(r, "code") == Num(-1) && Get(r, "msg") == Str(InterceptorErrorMessage) && Get(r, "data") == Null
  {
    var fields := [Field("code", Num(-1)), Field("msg", Str(InterceptorErrorMessage)), Field("data", Null)];
    LookupPresent(fields, 0);
    LookupPresent(fields, 1);
    LookupPresent(fields, 2);
    Obj(fields)
  }

  /** The rejection of a request whose task was aborted. */
  function CancelledError(): (r: Value)
    ensures Get(r, "code") == Str("REQUEST_CANCELLED") && Get(r, "message") == Str("请求已取消")
  {
    var fields := [Field("code", Str("REQUEST_CANCELLED")), Field("message", Str("请求已取消"))];
    LookupPresent(fields, 0);
    LookupPresent(fields, 1);
    Obj(fields)
  }

  /** An `Error` with `silent = true`: rejected without a toast. */
  function SilentError(message: string): (r: Value)
    ensures Get(r, "message") == Str(message) && Get(r, "silent") == Bool(true)
  {
    var fields := [Field("message", Str(message)), Field("silent", Bool(true))];
    LookupPresent(fields, 0);
    LookupPresent(fields, 1);
    Obj(fields)
  }

  /** The text of the `TypeError` raised by reading `.msg` of `null` or `undefined` (as V8 words it). */
  function TypeErrorMessage(result: Value): string {
    "Cannot read properties of " + ToJsString(result) + " (reading 'msg')"
  }

  function TypeErrorValue(result: Value): (r: Value)
    ensures Get(r, "message") == Str(TypeErrorMessage(result)) && Get(r, "silent") == Undefined
  {
    var fields := [Field("name", Str("TypeError")), Field("message", Str(TypeErrorMessage(result)))];
    LookupPresent(fields, 0);
    LookupPresent(fields, 1);
    Obj(fields)
  }

  /** How a logical request ends. */
  datatype Outcome = Resolved(v: Value) | Rejected(v: Value)

  /**
   * What `request` does with the response interceptor's result: settle it, or
   * treat it as the token-refresh marker and retry with the attached
   * configuration.  A settled call carries the toast it shows, if any.
   */
  datatype Disposition = Settle(outcome: Outcome, toast: Option<Value>) | RefreshRetry(config: Value)

  /**
   * `showError` is `options.showError !== false`.  Only when it holds is a
   * rejection toasted, and only then is `result.msg` read, so a `null` or
   * `undefined` result becomes a `TypeError` (toasted by the `catch`) only
   * when toasts are on; otherwise the call rejects with the result itself.
   */
  function Dispose(result: Value, showError: bool): (d: Disposition)
    ensures d.RefreshRetry? <==> Get(result, "code") == Str("TOKEN_REFRESHED")
    ensures d.Settle? && d.outcome.Resolved? <==> Truthy(result) && Get(result, "code") == Num(0)
    ensures d.Settle? && d.outcome.Resolved? ==> d.outcome.v == result
    ensures d.Settle? ==> (d.toast.Some? <==> showError && d.outcome.Rejected?)
    ensures d.Settle? && d.toast.Some? ==> Truthy(d.toast.value)
    ensures d.Settle? && d.outcome.Rejected? && (!IsNullish(result) || !showError) ==> d.outcome.v == result
    ensures d.Settle? && d.outcome.Rejected? && !IsNullish(result) && showError ==>
      d.toast.value == Or(Or(Get(result, "msg"), Get(result, "message")), Str("请求失败"))
    ensures d.Settle? && d.outcome.Rejected? && IsNullish(result) && showError ==>
      d.outcome.v == TypeErrorValue(result) && d.toast.value == Str(TypeErrorMessage(result))
  {
    if Get(result, "code") == Str("TOKEN_REFRESHED") then RefreshRetry(Get(result, "config"))
    else if Truthy(result) && Get(result, "code") == Num(0) then Settle(Resolved(result), None)
    else if !showError then Settle(Rejected(result), None)
    else if IsNullish(result) then
      Settle(Rejected(TypeErrorValue(result)), Some(Str(TypeErrorMessage(result))))
    else Settle(Rejected(result), Some(Or(Or(Get(result, "msg"), Get(result, "message")), Str("请求失败"))))
  }

  /**
   * Over a whole response: the request resolves exactly when the status is 2xx
   * and the body's `code` is the number 0, or when the status is 0 (the error
   * envelope built for it carries `code: 0`).
   */
  lemma ResolvesIff(status: int, body: Value, showError: bool)
    ensures var c := ResponseInterceptor(status, body);
      (c.Passed? && Dispose(c.v, showError).Settle? && Dispose(c.v, showError).outcome.Resolved?) <==>
      (Is2xx(status) && Truthy(body) && Get(body, "code") == Num(0)) || status == 0
  {
    if !Is2xx(status) && status != 401 {
      ErrorEnvelopeDisposal(Num(status), Str(GetHttpErrorMessage(status)), showError);
    } else if Is2xx(status) && Truthy(body) && Get(body, "code") !in {Undefined, Num(0), Num(401)} {
      ErrorEnvelopeDisposal(Get(body, "code"), Or(Get(body, "msg"), Get(body, "message")), showError);
    }
  }

  /**
   * Every settled response that does not resolve shows a toast exactly when
   * the caller left `showError` on.
   */
  lemma SettleToastIff(status: int, body: Value, showError: bool)
    ensures var c := ResponseInterceptor(status, body);
      c.Passed? && Dispose(c.v, showError).Settle? ==>
        (Dispose(c.v, showError).toast.Some? <==>
           showError && !((Is2xx(status) && Truthy(body) && Get(body, "code") == Num(0)) || status == 0))
  {
    ResolvesIff(status, body, showError);
  }

  /** A 2xx response without a body rejects with that body when toasts are off, and with a `TypeError` otherwise. */
  lemma EmptyBodyRejection(status: int, body: Value, showError: bool)
    requires Is2xx(status) && IsNullish(body)
    ensures ResponseInterceptor(status, body) == Passed(body)
    ensures !showError ==> Dispose(body, showError) == Settle(Rejected(body), None)
    ensures showError ==> Dispose(body, showError) == Settle(Rejected(TypeErrorValue(body)), Some(Str(TypeErrorMessage(body))))
  {
  }

  /**
   * An error envelope resolves only when its `code` is the number 0, and is
   * taken for the refresh marker, without a `config`, only when its `code` is
   * 'TOKEN_REFRESHED'.
   */
  lemma ErrorEnvelopeDisposal(code: Value, message: Value, showError: bool)
    ensures var d := Dispose(CreateErrorResponse(code, message), showError);
      && (d.RefreshRetry? <==> code == Str("TOKEN_REFRESHED"))
      && (d.RefreshRetry? ==> d.config == Undefined)
      && (d.Settle? && d.outcome.Resolved? <==> code == Num(0))
  {
    var e := CreateErrorResponse(code, message);
    var d := Dispose(e, showError);
    assert Truthy(e);
    if code == Str("TOKEN_REFRESHED") {
      assert d == RefreshRetry(Get(e, "config"));
    }
  }

  /** A 2xx body without `code` passes the interceptor and is then rejected. */
  lemma CodelessBodyRejected(status: int, body: Value, showError: bool)
    requires Is2xx(status) && Get(body, "code") == Undefined
    ensures ResponseInterceptor(status, body) == Passed(body)
    ensures Dispose(body, showError).Settle? && Dispose(body, showError).outcome.Rejected?
  {
  }

  /**
   * A 2xx body whose business `code` is the string 'TOKEN_REFRESHED' is taken
   * for the refresh marker; the error envelope built from it has no `config`,
   * so the retry is attempted with `undefined`.
   */
  lemma ServerCodeMistakenForRefresh(status: int, body: Value, showError: bool)
    requires Is2xx(status) && Truthy(body) && Get(body, "code") == Str("TOKEN_REFRESHED")
    ensures var c := ResponseInterceptor(status, body);
      c.Passed? && Dispose(c.v, showError) == RefreshRetry(Undefined)
  {
    ErrorEnvelopeDisposal(Get(body, "code"), Or(Get(body, "msg"), Get(body, "message")), showError);
  }

  /** `handleTokenRefreshRetry`: what happens to a call that got the refresh marker at retry count `retryCount`. */
  datatype RetryStep = RetryWith(nextCount: nat) | GiveUp(error: Value)

  function RetryDecision(retryCount: nat): (r: RetryStep)
    ensures r.GiveUp? <==> retryCount >= MaxRetryCount
    ensures r.RetryWith? ==> r.nextCount == retryCount + 1 && r.nextCount <= MaxRetryCount
    ensures r.GiveUp? ==> Get(r.error, "code") == Num(-1) && Get(r.error, "msg") == Str("重试次数超限")
  {
    if retryCount >= MaxRetryCount then GiveUp(CreateRequestError(Str("重试次数超限")))
    else RetryWith(retryCount + 1)
  }

  /** Starting from 0, a logical request is sent at most twice: after the retry no second retry follows. */
  lemma AtMostOneRetry()
    ensures RetryDecision(0) == RetryWith(1)
    ensures RetryDecision(1).GiveUp?
  {
  }

  /** `showError(message)` stays silent when the same message was shown at most 1500 ms ago. */
  predicate ToastSuppressed(lastMessage: Value, lastTime: int, message: Value, now: int) {
    lastMessage == message && now - lastTime <= ErrorThrottleWindow
  }

  /** A transport failure whose `errMsg` mentions `abort` is a cancellation. */
  predicate IsAbort(errMsg: string) {
    Contains(errMsg, "abort")
  }

  /** `options.loading !== false`. */
  predicate WantsLoading(o: RequestOptions) {
    o.loading != Bool(false)
  }

  /** `options.showError !== false`. */
  predicate WantsToast(o: RequestOptions) {
    o.showError != Bool(false)
  }
}
