/**
 * File upload (src/api/upload.js): the request built through the request
 * interceptor, the classification of the platform's success and fail
 * callbacks, the module's own loading counter and toast throttle, and the
 * batch upload that walks the files in consecutive slices.
 *
 * `JSON.parse` of a string body is an input: `Some(v)` is the parsed (or
 * already structured) body, `None` a body that failed to parse.
 */
module Upload {
  import opened Wrappers
  import opened Strings
  import opened JsValue
  import opened Interceptors
  import opened Loading

  const DefaultUploadUrl: string := "/api/upload"
  const DefaultFieldName: string := "file"
  const DefaultTimeout: int := 30000
  /** A toast is shown only when strictly more than this many ms passed since the last one. */
  const UploadThrottleWindow: int := 1500

  const ConfigErrorMessage: string := "上传请求配置错误"
  const InvalidJsonMessage: string := "响应不是有效 JSON"
  const TimeoutMessage: string := "上传超时"
  const NetworkMessage: string := "网络错误"

  /** The options `uploadFile` reads; `url` is `""` when absent. */
  datatype UploadOptions = UploadOptions(
    filePath: Value,
    url: string,
    name: Value,
    timeout: Value,
    formData: Value,
    loading: Value,
    showError: Value)

  /** The options handed to `uni.uploadFile`. */
  datatype UploadRequest = UploadRequest(
    url: string,
    filePath: Value,
    name: Value,
    header: Value,
    timeout: Value,
    formData: Value)

  /** `options.loading !== false`. */
  predicate ShowsLoading(o: UploadOptions) {
    o.loading != Bool(false)
  }

  /** `options.showError !== false`. */
  predicate ShowsErrors(o: UploadOptions) {
    o.showError != Bool(false)
  }

  /** What `uploadFile` passes to `requestInterceptor`: the url (or its default) and `POST`. */
  function InterceptorInput(o: UploadOptions): (r: RequestOptions)
    ensures r.httpMethod == "POST"
    ensures r.url == (if o.url == "" then DefaultUploadUrl else o.url)
  {
    RequestOptions(if o.url == "" then DefaultUploadUrl else o.url, "POST",
      Undefined, Undefined, Undefined, Undefined, Undefined, Undefined)
  }

  /** The upload request, or the configuration error when the interceptor throws. */
  function BuildUploadRequest(o: UploadOptions, env: Option<EnvValues>, token: Value): (r: Result<UploadRequest>)
    ensures r.Failure? <==> env.None?
    ensures r.Success? ==>
      && r.value.filePath == o.filePath
      && r.value.name == Or(o.name, Str(DefaultFieldName))
      && r.value.timeout == Or(o.timeout, Num(DefaultTimeout))
      && r.value.formData == Or(o.formData, Obj([]))
  {
    match RequestInterceptor(InterceptorInput(o), env, token)
    case Failure(e) => Failure(e)
    case Success(p) =>
      Success(UploadRequest(p.url, o.filePath, Or(o.name, Str(DefaultFieldName)), p.header,
        Or(o.timeout, Num(DefaultTimeout)), Or(o.formData, Obj([]))))
  }

  /**
   * With nothing set, an upload goes to the base URL plus `/api/upload`, under
   * field `file`, with a 30000 ms timeout and an empty form.
   */
  lemma UploadDefaults(filePath: Value, e: EnvValues, token: Value)
    ensures var o := UploadOptions(filePath, "", Undefined, Undefined, Undefined, Undefined, Undefined);
      var r := BuildUploadRequest(o, Some(e), token);
      && r.Success?
      && r.value.url == ToJsString(e.apiBaseUrl) + DefaultUploadUrl
      && r.value.name == Str("file") && r.value.timeout == Num(30000) && r.value.formData == Obj([])
  {
    var o := UploadOptions(filePath, "", Undefined, Undefined, Undefined, Undefined, Undefined);
    var p := InterceptorInput(o);
    assert !StartsWith(p.url, "http") by {
      assert p.url[..4][0] == '/';
    }
    InterceptorMethodAndUrl(p, e, token);
  }

  /** Every upload is sent with the JSON content type of the default headers. */
  lemma UploadContentType(o: UploadOptions, e: EnvValues, token: Value)
    ensures Get(BuildUploadRequest(o, Some(e), token).value.header, "Content-Type") == Str("application/json")
  {
    var p := InterceptorInput(o);
    PreparedHeaders(p, e, "Content-Type");
    var q := PrepareOptions(p, e);
    LookupSetField(OwnEntries(q.header), "Authorization", Str("Bearer " + ToJsString(token)), "Content-Type");
  }

  /** How one upload ends: resolved with a value, rejected with an error message, or never settled. */
  datatype UploadOutcome = Uploaded(result: Value) | UploadFailed(message: string) | UploadHangs

  /** `data?.code`. */
  function BodyCode(data: Value): Value {
    if IsNullish(data) then Undefined else Get(data, "code")
  }

  /** The value an accepted upload resolves with. */
  function UploadResult(data: Value, response: Value): (r: Value)
    ensures Get(r, "code") == Num(0) && Get(r, "msg") == Str("success")
    ensures Get(r, "data") == Or(Get(data, "data"), Get(data, "url"))
    ensures Get(r, "raw") == response
  {
    var fields := [Field("code", Num(0)), Field("data", Or(Get(data, "data"), Get(data, "url"))),
                   Field("msg", Str("success")), Field("raw", response)];
    LookupPresent(fields, 0);
    LookupPresent(fields, 1);
    LookupPresent(fields, 2);
    LookupPresent(fields, 3);
    Obj(fields)
  }

  /**
   * The `success` callback: any status other than 200 rejects; an unparseable
   * body rejects; `code` 0 or 200 resolves; a `null` or `undefined` body throws
   * inside the callback, so the upload never settles; any other code rejects
   * with the body's `msg` or a message naming the code.
   */
  function ClassifyUpload(statusCode: int, body: Option<Value>, response: Value): (r: UploadOutcome)
    ensures r.Uploaded? <==> statusCode == 200 && body.Some? && BodyCode(body.value) in {Num(0), Num(200)}
    ensures r.Uploaded? ==>
      && Get(r.result, "code") == Num(0) && Get(r.result, "msg") == Str("success")
      && Get(r.result, "data") == Or(Get(body.value, "data"), Get(body.value, "url"))
    ensures r.UploadHangs? <==> statusCode == 200 && body.Some? && IsNullish(body.value)
    ensures statusCode != 200 ==> r == UploadFailed("HTTP 状态码异常: " + IntToString(statusCode))
    ensures statusCode == 200 && body.None? ==> r == UploadFailed(InvalidJsonMessage)
    ensures statusCode == 200 && body.Some? && body.value.Obj? && BodyCode(body.value) !in {Num(0), Num(200)} ==>
      r == UploadFailed(if Truthy(Get(body.value, "msg")) then ToJsString(Get(body.value, "msg"))
                        else "业务错误: " + ToJsString(Get(body.value, "code")))
  {
    if statusCode != 200 then UploadFailed("HTTP 状态码异常: " + IntToString(statusCode))
    else if body.None? then UploadFailed(InvalidJsonMessage)
    else
      var data := body.value;
      var code := BodyCode(data);
      if code == Num(0) || code == Num(200) then Uploaded(UploadResult(data, response))
      else if IsNullish(data) then UploadHangs
      else UploadFailed(ToJsString(Or(Get(data, "msg"), Str("业务错误: " + ToJsString(code)))))
  }

  /** The `fail` callback's message; `errMsg` is `None` when the error has none. */
  function FailMessage(errMsg: Option<string>): (m: string)
    ensures m == TimeoutMessage <==> errMsg.Some? && Contains(errMsg.value, "timeout")
    ensures m in {TimeoutMessage, NetworkMessage}
  {
    if errMsg.Some? && Contains(errMsg.value, "timeout") then TimeoutMessage else NetworkMessage
  }

  /** The upload toast throttle: strictly more than 1500 ms since the last shown toast, whatever the message. */
  predicate UploadToastDue(lastErrorTime: int, now: int) {
    now - lastErrorTime > UploadThrottleWindow
  }

  /** The module state of src/api/upload.js: its loading counter and its toast throttle. */
  class Uploader {
    const loading: LoadingIndicator
    var lastErrorTime: int
    /** Toasts shown so far. */
    var toasts: seq<string>

    ghost predicate Valid()
      reads this, loading
    {
      loading.Valid()
    }

    constructor ()
      ensures Valid() && fresh(loading)
      ensures loading.count == 0 && lastErrorTime == 0 && toasts == []
    {
      loading := new LoadingIndicator();
      lastErrorTime := 0;
      toasts := [];
    }

    /** `showError(message)`; `lastErrorTime` moves only when the toast is shown. */
    method ShowError(message: string, now: int) returns (shown: bool)
      modifies this
      ensures shown <==> UploadToastDue(old(lastErrorTime), now)
      ensures shown ==> toasts == old(toasts) + [message] && lastErrorTime == now
      ensures !shown ==> toasts == old(toasts) && lastErrorTime == old(lastErrorTime)
    {
      shown := now - lastErrorTime > UploadThrottleWindow;
      if shown {
        toasts := toasts + [message];
        lastErrorTime := now;
      }
    }

    /** Shows the error when the caller asked for error toasts. */
    method Report(o: UploadOptions, message: string, now: int)
      modifies this
      ensures ShowsErrors(o) && UploadToastDue(old(lastErrorTime), now) ==>
        toasts == old(toasts) + [message] && lastErrorTime == now
      ensures !(ShowsErrors(o) && UploadToastDue(old(lastErrorTime), now)) ==>
        toasts == old(toasts) && lastErrorTime == old(lastErrorTime)
    {
      if ShowsErrors(o) {
        var _ := ShowError(message, now);
      }
    }

    /**
     * `uploadFile` up to handing the request to the platform.  On a
     * configuration error the catch block hides the loading indicator although
     * it never showed it; the counter only clamps at 0.
     */
    method Begin(o: UploadOptions, env: Option<EnvValues>, token: Value, now: int) returns (r: Result<UploadRequest>)
      requires Valid()
      modifies this, loading
      ensures Valid()
      ensures r == BuildUploadRequest(o, env, token)
      ensures r.Success? ==>
        loading.count == old(loading.count) + (if ShowsLoading(o) then 1 else 0) && toasts == old(toasts)
      ensures r.Failure? && ShowsLoading(o) ==>
        loading.count == (if old(loading.count) > 0 then old(loading.count) - 1 else 0)
      ensures r.Failure? && !ShowsLoading(o) ==> loading.count == old(loading.count)
      ensures r.Failure? ==> toasts == old(toasts) + (if ShowsErrors(o) && UploadToastDue(old(lastErrorTime), now)
        then [ConfigErrorMessage] else [])
    {
      r := BuildUploadRequest(o, env, token);
      if r.Failure? {
        if ShowsLoading(o) {
          var _ := loading.Hide();
        }
        Report(o, ConfigErrorMessage, now);
      } else if ShowsLoading(o) {
        var _ := loading.Show();
      }
    }

    /** The `success` callback. */
    method Complete(o: UploadOptions, statusCode: int, body: Option<Value>, response: Value, now: int)
      returns (outcome: UploadOutcome)
      requires Valid()
      modifies this, loading
      ensures Valid()
      ensures outcome == ClassifyUpload(statusCode, body, response)
      ensures ShowsLoading(o) ==> loading.count == (if old(loading.count) > 0 then old(loading.count) - 1 else 0)
      ensures !ShowsLoading(o) ==> loading.count == old(loading.count)
      ensures outcome.UploadFailed? && ShowsErrors(o) && UploadToastDue(old(lastErrorTime), now) ==>
        toasts == old(toasts) + [outcome.message]
      ensures !(outcome.UploadFailed? && ShowsErrors(o) && UploadToastDue(old(lastErrorTime), now)) ==>
        toasts == old(toasts)
    {
      if ShowsLoading(o) {
        var _ := loading.Hide();
      }
      outcome := ClassifyUpload(statusCode, body, response);
      if outcome.UploadFailed? {
        Report(o, outcome.message, now);
      }
    }

    /** The `fail` callback: the upload rejects with the returned message. */
    method Fail(o: UploadOptions, errMsg: Option<string>, now: int) returns (message: string)
      requires Valid()
      modifies this, loading
      ensures Valid()
      ensures message == FailMessage(errMsg)
      ensures ShowsLoading(o) ==> loading.count == (if old(loading.count) > 0 then old(loading.count) - 1 else 0)
      ensures !ShowsLoading(o) ==> loading.count == old(loading.count)
      ensures toasts == old(toasts) + (if ShowsErrors(o) && UploadToastDue(old(lastErrorTime), now)
        then [message] else [])
    {
      if ShowsLoading(o) {
        var _ := loading.Hide();
      }
      message := FailMessage(errMsg);
      Report(o, message, now);
    }
  }

  /** `{ index, result, file }` of `uploadBatch`'s `success` list. */
  datatype SuccessEntry = SuccessEntry(index: nat, result: Value, file: Value)
  /** `{ index, error, file }` of its `failed` list. */
  datatype FailureEntry = FailureEntry(index: nat, error: string, file: Value)

  datatype BatchResult = BatchResult(
    success: seq<SuccessEntry>,
    failed: seq<FailureEntry>,
    total: nat,
    successCount: nat,
    failedCount: nat)

  /** The successes among the first `n` files, in index order. */
  function SuccessesUpTo(files: seq<Value>, outcomes: seq<Result<Value>>, n: nat): (r: seq<SuccessEntry>)
    requires |outcomes| == |files| && n <= |files|
    ensures |r| <= n
  {
    if n == 0 then []
    else
      var last := if outcomes[n - 1].Success? then [SuccessEntry(n - 1, outcomes[n - 1].value, files[n - 1])] else [];
      SuccessesUpTo(files, outcomes, n - 1) + last
  }

  /** The failures among the first `n` files, in index order. */
  function FailuresUpTo(files: seq<Value>, outcomes: seq<Result<Value>>, n: nat): (r: seq<FailureEntry>)
    requires |outcomes| == |files| && n <= |files|
    ensures |r| <= n
  {
    if n == 0 then []
    else
      var last := if outcomes[n - 1].Failure? then [FailureEntry(n - 1, outcomes[n - 1].error, files[n - 1])] else [];
      FailuresUpTo(files, outcomes, n - 1) + last
  }

  function Min(a: int, b: int): int {
    if a <= b then a else b
  }

  /** `0, 1, …, n - 1`. */
  function Range(n: nat): (r: seq<nat>)
    ensures |r| == n && forall i :: 0 <= i < n ==> r[i] == i
  {
    if n == 0 then [] else Range(n - 1) + [n - 1]
  }

  /** One more file extends the two lists by at most its own entry, and the index list by its index. */
  lemma BatchStep(files: seq<Value>, outcomes: seq<Result<Value>>, g: nat)
    requires |outcomes| == |files| && g < |files|
    ensures SuccessesUpTo(files, outcomes, g + 1) == SuccessesUpTo(files, outcomes, g)
      + (if outcomes[g].Success? then [SuccessEntry(g, outcomes[g].value, files[g])] else [])
    ensures FailuresUpTo(files, outcomes, g + 1) == FailuresUpTo(files, outcomes, g)
      + (if outcomes[g].Failure? then [FailureEntry(g, outcomes[g].error, files[g])] else [])
    ensures Range(g + 1) == Range(g) + [g]
  {
  }

  /**
   * `uploadApi.uploadBatch(files, { concurrency })`, with each file's upload
   * outcome given (success value or error message) and the slices processed one
   * after the other.  `visited` lists the `globalIndex` of each upload started.
   * The source needs `concurrency >= 1` for a non-empty list: otherwise `i`
   * never advances.
   */
  method UploadBatch(files: seq<Value>, concurrency: int, outcomes: seq<Result<Value>>)
    returns (r: BatchResult, visited: seq<nat>)
    requires |outcomes| == |files|
    requires concurrency >= 1 || |files| == 0
    ensures visited == Range(|files|)
    ensures r.success == SuccessesUpTo(files, outcomes, |files|)
    ensures r.failed == FailuresUpTo(files, outcomes, |files|)
    ensures r.total == |files| && r.successCount == |r.success| && r.failedCount == |r.failed|
  {
    var results: seq<SuccessEntry> := [];
    var errors: seq<FailureEntry> := [];
    visited := [];
    var i := 0;
    while i < |files|
      invariant 0 <= i
      invariant results == SuccessesUpTo(files, outcomes, Min(i, |files|))
      invariant errors == FailuresUpTo(files, outcomes, Min(i, |files|))
      invariant visited == Range(Min(i, |files|))
      decreases |files| - i
    {
      var batch := files[i..Min(i + concurrency, |files|)];
      var batchIndex := 0;
      while batchIndex < |batch|
        invariant 0 <= batchIndex <= |batch|
        invariant results == SuccessesUpTo(files, outcomes, i + batchIndex)
        invariant errors == FailuresUpTo(files, outcomes, i + batchIndex)
        invariant visited == Range(i + batchIndex)
      {
        var globalIndex := i + batchIndex;
        BatchStep(files, outcomes, globalIndex);
        assert batch[batchIndex] == files[globalIndex];
        visited := visited + [globalIndex];
        if outcomes[globalIndex].Success? {
          results := results + [SuccessEntry(globalIndex, outcomes[globalIndex].value, batch[batchIndex])];
        } else {
          errors := errors + [FailureEntry(globalIndex, outcomes[globalIndex].error, batch[batchIndex])];
        }
        batchIndex := batchIndex + 1;
      }
      i := i + concurrency;
    }
    r := BatchResult(results, errors, |files|, |results|, |errors|);
  }

  /** The successes list names only succeeded files, each with its own file and result, at ascending indices. */
  lemma {:induction false} SuccessesSound(files: seq<Value>, outcomes: seq<Result<Value>>, n: nat)
    requires |outcomes| == |files| && n <= |files|
    ensures forall j :: 0 <= j < |SuccessesUpTo(files, outcomes, n)| ==>
      var e := SuccessesUpTo(files, outcomes, n)[j];
      e.index < n && e.file == files[e.index] && outcomes[e.index] == Success(e.result)
    ensures forall j1, j2 :: 0 <= j1 < j2 < |SuccessesUpTo(files, outcomes, n)| ==>
      SuccessesUpTo(files, outcomes, n)[j1].index < SuccessesUpTo(files, outcomes, n)[j2].index
  {
    if n > 0 {
      SuccessesSound(files, outcomes, n - 1);
      var s' := SuccessesUpTo(files, outcomes, n - 1);
      var s := SuccessesUpTo(files, outcomes, n);
      assert s == s' + (if outcomes[n - 1].Success? then [SuccessEntry(n - 1, outcomes[n - 1].value, files[n - 1])] else []);
      assert forall j :: 0 <= j < |s'| ==> s[j] == s'[j];
    }
  }

  /** Every succeeded file among the first `n` is in the successes list. */
  lemma {:induction false} SuccessesComplete(files: seq<Value>, outcomes: seq<Result<Value>>, n: nat, k: nat)
    requires |outcomes| == |files| && k < n <= |files| && outcomes[k].Success?
    ensures exists j :: 0 <= j < |SuccessesUpTo(files, outcomes, n)| && SuccessesUpTo(files, outcomes, n)[j].index == k
  {
    var s' := SuccessesUpTo(files, outcomes, n - 1);
    var s := SuccessesUpTo(files, outcomes, n);
    if k == n - 1 {
      assert s[|s| - 1].index == k;
    } else {
      SuccessesComplete(files, outcomes, n - 1, k);
      var j :| 0 <= j < |s'| && s'[j].index == k;
      assert s[j] == s'[j];
    }
  }

  /** The failures list names only failed files, each with its own file and error, at ascending indices. */
  lemma {:induction false} FailuresSound(files: seq<Value>, outcomes: seq<Result<Value>>, n: nat)
    requires |outcomes| == |files| && n <= |files|
    ensures forall j :: 0 <= j < |FailuresUpTo(files, outcomes, n)| ==>
      var e := FailuresUpTo(files, outcomes, n)[j];
      e.index < n && e.file == files[e.index] && outcomes[e.index] == Failure(e.error)
    ensures forall j1, j2 :: 0 <= j1 < j2 < |FailuresUpTo(files, outcomes, n)| ==>
      FailuresUpTo(files, outcomes, n)[j1].index < FailuresUpTo(files, outcomes, n)[j2].index
  {
    if n > 0 {
      FailuresSound(files, outcomes, n - 1);
      var f' := FailuresUpTo(files, outcomes, n - 1);
      var f := FailuresUpTo(files, outcomes, n);
      assert f == f' + (if outcomes[n - 1].Failure? then [FailureEntry(n - 1, outcomes[n - 1].error, files[n - 1])] else []);
      assert forall j :: 0 <= j < |f'| ==> f[j] == f'[j];
    }
  }

  /** Every failed file among the first `n` is in the failures list. */
  lemma {:induction false} FailuresComplete(files: seq<Value>, outcomes: seq<Result<Value>>, n: nat, k: nat)
    requires |outcomes| == |files| && k < n <= |files| && outcomes[k].Failure?
    ensures exists j :: 0 <= j < |FailuresUpTo(files, outcomes, n)| && FailuresUpTo(files, outcomes, n)[j].index == k
  {
    var f' := FailuresUpTo(files, outcomes, n - 1);
    var f := FailuresUpTo(files, outcomes, n);
    if k == n - 1 {
      assert f[|f| - 1].index == k;
    } else {
      FailuresComplete(files, outcomes, n - 1, k);
      var j :| 0 <= j < |f'| && f'[j].index == k;
      assert f[j] == f'[j];
    }
  }

  /** Every file is counted once: the two lists together are as long as the input. */
  lemma {:induction false} PartitionCounts(files: seq<Value>, outcomes: seq<Result<Value>>, n: nat)
    requires |outcomes| == |files| && n <= |files|
    ensures |SuccessesUpTo(files, outcomes, n)| + |FailuresUpTo(files, outcomes, n)| == n
  {
    if n > 0 {
      PartitionCounts(files, outcomes, n - 1);
    }
  }

  /**
   * Over a whole batch, each file is in exactly one list, the one its outcome
   * names, both lists are in ascending index order, and together they are as
   * long as the input (`total == successCount + failedCount`).
   */
  lemma BatchPartition(files: seq<Value>, outcomes: seq<Result<Value>>, k: nat)
    requires |outcomes| == |files| && k < |files|
    ensures var s := SuccessesUpTo(files, outcomes, |files|);
      (exists j :: 0 <= j < |s| && s[j].index == k) <==> outcomes[k].Success?
    ensures var f := FailuresUpTo(files, outcomes, |files|);
      (exists j :: 0 <= j < |f| && f[j].index == k) <==> outcomes[k].Failure?
    ensures var s := SuccessesUpTo(files, outcomes, |files|);
      forall j1, j2 :: 0 <= j1 < j2 < |s| ==> s[j1].index < s[j2].index
    ensures var f := FailuresUpTo(files, outcomes, |files|);
      forall j1, j2 :: 0 <= j1 < j2 < |f| ==> f[j1].index < f[j2].index
    ensures |SuccessesUpTo(files, outcomes, |files|)| + |FailuresUpTo(files, outcomes, |files|)| == |files|
  {
    SuccessesSound(files, outcomes, |files|);
    FailuresSound(files, outcomes, |files|);
    if outcomes[k].Success? {
      SuccessesComplete(files, outcomes, |files|, k);
    } else {
      FailuresComplete(files, outcomes, |files|, k);
    }
    PartitionCounts(files, outcomes, |files|);
  }
}
