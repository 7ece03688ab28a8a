# uniapp-template request layer, token manager and utilities in Dafny

This project models the core of a uni-app application template: its HTTP
request layer, the token manager behind it, and the small utilities and
stores around them.  Each source file is one module.

- **Request registry and dispatcher** (`Request`, `RequestCore`, `RequestId`, `Loading`)
  - Every logical `request(options)` is a slot in `Client.calls`.
  - The slot moves through explicit events:
    - dispatch, after the request interceptor;
    - the transport's `success` and `fail` callbacks;
    - the end of a token refresh;
    - the end of the retry delay.
  - The module state of `request.js` lives in `Client`'s fields:
    - `requestTaskMap` as `taskMap`;
    - `pendingRequests` as `pending`;
    - the loading counter as a `LoadingIndicator`;
    - the toast throttle as `lastErrorTime`/`lastErrorMessage`.
  - The request id and its body fingerprint are pure functions, and so are the error builders.
- **Interceptors** (`Interceptors`)
  - The outbound transform is split at the point where it awaits the token manager.
  - The response classifier is a pure function.
  - `handleUnauthorized` is `Client.HandleUnauthorized`, because it drives the token manager's state.
- **Token manager** (`TokenManagement`)
  - A class over the platform storage (`KvStorage.Storage`, a map from key to value).
  - The refresh in flight is `Idle | Refreshing(...)`, together with a queue of waiting requests.
  - The redirect guard has explicit timer and `reLaunch`-completion events.
- **Upload** (`Upload`)
  - Response and failure classification.
  - A loading counter and a toast throttle of its own.
  - `uploadBatch`, with the chunked loop kept as a loop.
- **Environment, files, caches, pages, utilities, store and enums**
  - The modules `Env`, `FileUtils`, `Cache`, `Page`, `Utils`, `Store` and `Enums`.
  - Storage-backed operations are methods on a `Storage`; the rest are functions.

JavaScript values are the datatype `JsValue.Value`:
- `undefined`, `null`, booleans, integers, strings, arrays, and objects held as ordered field lists.
- It also defines JavaScript truthiness, object spread and `String(v)`.

What the model takes as inputs rather than computing:
- the clock;
- whether the current page is the login page;
- the outcome of the token refresh network call;
- the transport's callbacks;
- `Math.random`.


## Model

| member | source | states |
|---|---|---|
| RequestId.KeyLeTotal | src/api/core/request.js:51 | the key order used by `sort()` relates any two keys |
| RequestId.KeyLeAntisymmetric | src/api/core/request.js:51 | keys ordered both ways are equal |
| RequestId.KeyLeTransitive | src/api/core/request.js:51 | the key order is transitive |
| RequestId.InsertSorted | src/api/core/request.js:51 | inserting a key into a sorted key list keeps it sorted and adds exactly that key |
| RequestId.SortKeys | src/api/core/request.js:50-51 | `Object.keys(obj).sort()` is sorted and a permutation of the keys |
| RequestId.SortedUnique | src/api/core/request.js:50-51 | there is only one sorted arrangement of a given multiset of keys |
| RequestId.SortedEntriesAgree | src/api/core/request.js:49-53 | two bodies with the same properties and values rebuild to the same key-sorted object |
| RequestId.KeyOrderIrrelevant | src/api/core/request.js:47-54 | bodies that differ only in key order get the same fingerprint |
| RequestId.FingerprintOfScalars | src/api/core/request.js:48 | `undefined`, `null`, numbers and strings fingerprint as `String(data)` |
| RequestId.RequestIdMethodPrefix | src/api/core/request.js:55-58 | the id is exactly the upper-cased method (`GET` when missing), `_`, the url, `_`, then the body fingerprint, at those offsets and with that total length |
| RequestId.RequestIdContainsUrl | src/api/core/request.js:57 | the id contains the url and every substring of it |
| RequestId.RequestIdMethodCase | src/api/core/request.js:56 | methods equal up to letter case, or a missing method and `GET`, give the same id |
| RequestId.RequestIdKeyOrder | src/api/core/request.js:55-58 | same method and url with bodies equal up to key order give the same id |
| RequestId.FingerprintNotInjective | src/api/core/request.js:48 | a number and its decimal string are different bodies with the same id |
| Loading.LoadingIndicator.constructor | src/api/core/request.js:8 | the counter starts at 0 with nothing shown |
| Loading.LoadingIndicator.Show | src/api/core/request.js:9-14 | the counter goes up by one; the indicator is put up exactly on the 0 → 1 transition |
| Loading.LoadingIndicator.Hide | src/api/core/request.js:15-20 | the counter goes down by one but never below 0; the indicator goes exactly when the count is 0 |
| Loading.LoadingIndicator.ForceHide | src/api/core/request.js:31 | a bare `uni.hideLoading()` takes the indicator down and leaves the count alone |
| Request.LoadingHoldersAppend | src/api/core/request.js:124-126 | a new call adds to the loading count exactly when it holds the indicator |
| Request.LoadingHoldersUpdate | src/api/core/request.js:157 | changing one call's state changes the loading count by the difference in that call's hold |
| Request.AfterRefresh | src/api/core/request.js:192-205 | after a successful refresh a first attempt waits out the retry delay with `_tokenRefreshed: true` and a retry is given up; after a failed one the call is rejected silently; no woken call waits or holds the indicator |
| Request.DispatchedIsSent | src/api/core/interceptors.js:28-37 | a token waiter sent after the refresh goes out with that token under its own retry count, or is a dropped duplicate |
| Request.RefreshedRetryNeverSuppressed | src/api/core/request.js:117-120 | a 401 retried after a successful refresh carries `_tokenRefreshed: true`, so its retry goes out or waits for a token, and is never dropped as a duplicate |
| Request.RefreshFailureIsSilent | src/api/core/interceptors.js:83-89 | after a failed refresh every waiting 401 is rejected with the silent session-expired error |
| Request.QueueStep | src/auth/tokenManager.js:142-151 | settling one more queue entry resumes that call if it is still queued and nothing else |
| Request.OthersStep | src/auth/tokenManager.js:100-109 | resuming one more call after the refresh keeps every call before it resumed and every call after it untouched |
| Request.RefreshWaitersSplit | src/auth/tokenManager.js:100-109 | the 401s resumed from the queue together with those still waiting afterwards are exactly the 401s that waited on the refresh |
| Request.InFlightUrlsCancelled | src/api/core/request.js:86-98 | removing the ids that contain a fragment removes every in-flight call whose url contains it |
| Request.Client.constructor | src/api/core/request.js:4-8 | empty task map, empty pending set, counter 0, no previous toast |
| Request.Client.ShowError | src/api/core/request.js:25-44 | the same message within 1500 ms changes nothing; otherwise the toast is recorded, the indicator is taken down and the time and message are remembered; the loading count never changes |
| Request.Client.SetCall | src/api/core/request.js:124-126 | a call's state change shows or hides the indicator so the count stays the number of calls holding it |
| Request.Client.CancelRequest | src/api/core/request.js:63-70 | aborts the id's task when it has one and removes the id from `requestTaskMap`; the pending set is untouched |
| Request.Client.CancelAllRequests | src/api/core/request.js:75-81 | aborts every task and empties `requestTaskMap`; the pending set is untouched |
| Request.Client.CancelRequestsByUrl | src/api/core/request.js:86-98 | aborts and removes exactly those tasks whose id contains the fragment, keeps the others, leaves the pending set, and leaves no in-flight call to a matching url in the map |
| Request.Client.Dispatch | src/api/core/request.js:110-127 | with `cancelPrevious` the id's previous task is aborted; a pending id without `_tokenRefreshed` is suppressed with no transport call and no other change; otherwise the id becomes pending and a new task is started and recorded |
| Request.Client.Launch | src/api/core/request.js:121-129 | the id is marked pending, the next task is recorded under it and the call is in flight |
| Request.Client.Start | src/api/core/request.js:107-127 | an interceptor failure rejects with the interceptor error and toasts it unless `showError` is false; otherwise, with the token `getValidToken()` yields, a login or refresh url is sent as prepared, a call needing the refresh waits for it, any other goes out with that token, each under its generated id unless dropped as a pending duplicate |
| Request.Client.Intercept | src/api/core/interceptors.js:24-37 | a login or refresh url is sent with the prepared options; otherwise the call waits for the refresh, or is sent with the `Authorization` of the token `getValidToken()` yields; a pending id without `_tokenRefreshed` is dropped; no toast |
| Request.Client.Forget | src/api/core/request.js:133-134 | the id leaves both `requestTaskMap` and the pending set |
| Request.Client.Request | src/api/core/request.js:103-127 | a new slot at retry count 0, either rejected with the interceptor error (toasted unless `showError` is false) or sent, waiting or dropped with the token `getValidToken()` yields, as in `Start` |
| Request.Client.RetryDue | src/api/core/request.js:198-201 | the re-issued call has retry count `MAX_RETRY_COUNT`; it is rejected with the interceptor error, or intercepted again from its own options with the token `getValidToken()` yields, and sent, waiting or dropped as in `Start` |
| Request.Client.TransportSuccess | src/api/core/request.js:131-158 | the id leaves the map and the pending set; a passed response settles as `Dispose` says with its toast, under the toast throttle; a 401 follows `handleUnauthorized`, redirecting to login exactly when no refresh is possible |
| Request.Client.HandleUnauthorized | src/api/core/interceptors.js:65-92 | without a refresh token or auto-refresh the call is rejected with a silent error and the login redirect is requested; with a refresh in flight it is queued; otherwise it starts the refresh and waits for it; no toast |
| Request.Client.HandleResult | src/api/core/request.js:139-150 | a result is resolved or rejected as `Dispose` says, with exactly `Dispose`'s toast through the throttle; a refresh marker at the retry limit is rejected with the retry error, and below it leaves the call `Stalled`, never settling, because the retry calls `request(undefined)`, whose catch block itself throws reading `options.showError` |
| Request.Client.EndCall | src/api/core/request.js:157 | a call reaching a final state keeps every other field |
| Request.Client.TransportFail | src/api/core/request.js:161-178 | the id leaves the map and the pending set; an `abort` rejects with `REQUEST_CANCELLED` and no toast; any other failure rejects with the network error, toasted unless `showError` is false |
| Request.Client.Resume | src/api/core/interceptors.js:75-91 | a 401 waiting on the refresh moves to its `AfterRefresh` state, and the login redirect is requested exactly when the refresh failed |
| Request.Client.RefreshSettled | src/auth/tokenManager.js:100-109 | the refresh ends: the manager is idle with an empty queue and no call waits; waiting 401s are at `AfterRefresh`; token waiters go out with the refreshed token (or none) or are dropped duplicates; a failed network call logs out; the login redirect happens exactly when the tokens were cleared or a 401 was rejected; other calls are unchanged |
| Request.Client.ResumeQueued | src/auth/tokenManager.js:142-151 | each call the settled queue names that is still queued moves to its `AfterRefresh` state, all others are unchanged; the redirect is requested exactly when the refresh failed and some named call was queued |
| Request.Client.ResumeIfQueued | src/auth/tokenManager.js:144-150 | one queue entry: a call still queued moves to its `AfterRefresh` state, redirecting when the refresh failed; any other call is left alone |
| Request.Client.ResumeOne | src/api/core/interceptors.js:28-37 | a waiting interceptor goes out with the refreshed token, or none, under its id unless it is a pending duplicate; a waiting 401 is resumed, redirecting exactly when the refresh failed |
| Request.Client.ResumeOthers | src/auth/tokenManager.js:100-109 | every call still waiting on the refresh is resumed: 401s to `AfterRefresh`, token waiters sent with the refreshed token or dropped; the redirect happens exactly when the refresh failed and some 401 waited |
| RequestCore.CreateRequestError | src/api/core/request.js:212-218 | `code -1`, `msg` the message or '请求处理错误', `data null` |
| RequestCore.CreateNetworkError | src/api/core/request.js:220-227 | `code -1`, the network message, `data null` |
| RequestCore.CreateInterceptorError | src/api/core/request.js:229-236 | `code -1`, the interceptor message, `data null` |
| RequestCore.CancelledError | src/api/core/request.js:170 | `code 'REQUEST_CANCELLED'`, message '请求已取消' |
| RequestCore.SilentError | src/api/core/interceptors.js:70-72 | an error with the message and `silent: true` |
| RequestCore.TypeErrorValue | src/api/core/request.js:147 | reading `.msg` of a null result gives a non-silent `TypeError` |
| RequestCore.Dispose | src/api/core/request.js:139-155 | the marker `TOKEN_REFRESHED` means a retry; only a truthy result with `code === 0` resolves, unchanged and without a toast; a rejection is toasted exactly when `showError` is not false, with `msg \|\| message \|\| '请求失败'`; a null result is rejected as itself when `showError` is false, and otherwise as the `TypeError` that reading `.msg` throws, toasted with its message |
| RequestCore.ResolvesIff | src/api/core/interceptors.js:43-63 | over a whole response, and whatever `showError` is, the request resolves exactly for a 2xx body with `code` 0, or for status 0 |
| RequestCore.SettleToastIff | src/api/core/request.js:143-150 | a settling response shows a toast exactly when `showError` is not false and it does not resolve |
| RequestCore.EmptyBodyRejection | src/api/core/request.js:143-155 | a 2xx response with a null body is rejected; with `showError` false as the body itself and silently, otherwise with the `TypeError` and its toast |
| RequestCore.ErrorEnvelopeDisposal | src/api/core/interceptors.js:99-106 | an error envelope resolves exactly when its code is 0, and is taken for the refresh marker, with no `config`, exactly when its code is 'TOKEN_REFRESHED' |
| RequestCore.CodelessBodyRejected | src/api/core/interceptors.js:62 | a 2xx body without `code` passes the interceptor and is then rejected |
| RequestCore.ServerCodeMistakenForRefresh | src/api/core/request.js:139-141 | a 2xx body whose business code is 'TOKEN_REFRESHED' is retried with an `undefined` configuration |
| RequestCore.RetryDecision | src/api/core/request.js:192-196 | gives up with `code -1` '重试次数超限' exactly at retry count ≥ 1; otherwise retries with count + 1, which stays within the limit |
| RequestCore.AtMostOneRetry | src/api/core/request.js:104 | a request started at 0 is retried once and then given up |
| Interceptors.PrepareOptions | src/api/core/interceptors.js:7-21 | the method, url and header step leaves the body, the loading, toast and cancel flags and `_tokenRefreshed` untouched |
| Interceptors.AddAuthorization | src/api/core/interceptors.js:29-32 | adding the token changes nothing but the header |
| Interceptors.RequestInterceptor | src/api/core/interceptors.js:7-38 | fails exactly when the environment values cannot be read |
| Interceptors.InterceptorMethodAndUrl | src/api/core/interceptors.js:8-14 | a missing method becomes `GET`; a url not starting with `http` gets the base URL in front, any other is kept; the body is kept |
| Interceptors.InterceptorUrlStable | src/api/core/interceptors.js:12-14 | with an absolute base URL, intercepting twice prefixes at most once |
| Interceptors.PreparedHeaders | src/api/core/interceptors.js:16-21 | a caller header wins; otherwise `tenant-id` is the environment's or '1', `login_user_type` the environment's or '3', `Content-Type` JSON |
| Interceptors.AuthorizationHeader | src/api/core/interceptors.js:24-32 | `Authorization` is `Bearer <token>` exactly when the url is not a login or refresh url and the token is truthy; otherwise it is whatever the caller gave |
| Interceptors.InterceptedHeader | src/api/core/interceptors.js:16-32 | the sent header is the merged headers, with `Authorization` set when a token applies |
| Interceptors.InterceptedHeaderShape | src/api/core/interceptors.js:16-21 | the sent header is an object with distinct keys that include every default header |
| Interceptors.InterceptTwiceHeaders | src/api/core/interceptors.js:16-32 | intercepting again changes no header but `Authorization` |
| Interceptors.CreateErrorResponse | src/api/core/interceptors.js:99-106 | `{success: false, code, message, data: null}` with no `config` |
| Interceptors.HttpErrorMessageFallback | src/api/core/interceptors.js:108-119 | the generic '网络请求失败' comes back exactly for statuses other than the seven listed; the text is never empty |
| Interceptors.ResponseInterceptor | src/api/core/interceptors.js:43-63 | a 401 status, or a 2xx body with code 401, escalates; any other non-2xx gives the status envelope; a 2xx body with no code or code 0 passes unchanged; any other code gives the envelope with `msg \|\| message` |
| TokenManagement.ExpiryNumber | src/auth/tokenManager.js:90 | a numeric expiry compares as its number; `undefined` and objects never compare |
| TokenManagement.ExpiredImpliesExpiringSoon | src/auth/tokenManager.js:48-52 | with a non-negative buffer an expired token is also expiring soon |
| TokenManagement.ExpiryThresholds | src/auth/tokenManager.js:87-91 | a numeric expiry is expired from `expiresTime` on and expiring soon from `expiresTime - bufferTime` on |
| TokenManagement.SettleWaiters | src/auth/tokenManager.js:142-151 | every waiter in enqueue order, all rejected on error or all resumed with `_tokenRefreshed: true` |
| TokenManagement.TokenManager.constructor | src/auth/tokenManager.js:7-16 | no refresh, empty queue, no redirect, the configured defaults (auto-refresh off, 300000 ms buffer, 3000 ms delay) |
| TokenManagement.TokenManager.Configure | src/auth/tokenManager.js:18-21 | each given setting overrides, the others are kept |
| TokenManagement.TokenManager.SetAutoRefresh | src/auth/tokenManager.js:23-26 | only `enableAutoRefresh` changes |
| TokenManagement.TokenManager.TokenLookup | src/auth/tokenManager.js:28-46 | no token gives null; a refresh is needed exactly for a token expiring soon off the login page with auto-refresh on; otherwise the stored token is handed out, or null when it is expired where no refresh may run |
| TokenManagement.TokenManager.ValidTokenIff | src/auth/tokenManager.js:28-46 | a token is yielded without waiting exactly when one is stored and it is neither expired where no refresh may run nor due for a refresh where one may |
| TokenManagement.TokenManager.TokenAfterRefresh | src/auth/tokenManager.js:38-42 | after the refresh the stored token, or null when it failed |
| TokenManagement.TokenManager.NoExpiredTokenWithoutRefresh | src/auth/tokenManager.js:32-45 | `getValidToken` never hands out an expired token without refreshing first |
| TokenManagement.TokenManager.GetValidToken | src/auth/tokenManager.js:28-46 | the lookup's answer, starting or joining the refresh when one is needed |
| TokenManagement.TokenManager.RefreshToken | src/auth/tokenManager.js:93-98 | a refresh in flight is joined, not restarted; otherwise one starts, noting whether a refresh token is stored |
| TokenManagement.TokenManager.AddToQueue | src/auth/tokenManager.js:132-140 | the waiter is appended to the queue |
| TokenManagement.TokenManager.ProcessPendingQueue | src/auth/tokenManager.js:142-151 | the waiters are settled as `SettleWaiters` says and the queue is empty |
| TokenManagement.TokenManager.SettleRefresh | src/auth/tokenManager.js:100-130 | succeeds exactly when a refresh token was stored and the network call succeeded; a failed network call removes the four token keys, so no one is logged in, and requests the login redirect; otherwise storage and the redirect guard are unchanged; the queue is settled and the manager is idle |
| TokenManagement.TokenManager.SafeRedirectToLogin | src/auth/tokenManager.js:153-172 | nothing while redirecting; otherwise marks the redirect, arms the timer, and navigates unless on the login page |
| TokenManagement.TokenManager.RedirectDelayElapsed | src/auth/tokenManager.js:158-160 | the timer clears the redirect mark |
| TokenManagement.TokenManager.ReLaunchCompleted | src/auth/tokenManager.js:164-170 | a failed `reLaunch` clears the redirect mark, a successful one does not |
| TokenManagement.TokenManager.SaveToken | src/auth/tokenManager.js:72-78 | throws the destructuring `TypeError` exactly for `null` or `undefined`, storing nothing; otherwise the four keys hold the saved values and the getters return them |
| TokenManagement.TokenManager.ClearToken | src/auth/tokenManager.js:80-85 | the four keys are removed and `isLoggedIn` is false at any time |
| TokenManagement.TokenManager.ResumeLookup | src/auth/tokenManager.js:179-196 | a refresh is awaited exactly off the login page, with a token, auto-refresh on and the token expired or expiring soon; every other case answers true |
| TokenManagement.TokenManager.CheckOnAppResume | src/auth/tokenManager.js:179-196 | the lookup's answer, starting or joining the refresh exactly when one is awaited, with the queue and redirect guard unchanged |
| TokenManagement.TokenManager.ResumeAnswer | src/auth/tokenManager.js:179-196 | the value `checkOnAppResume()` resolves with is false exactly when it awaited a refresh that failed |
| TokenManagement.TokenManager.ResumeAnswerFalseIff | src/auth/tokenManager.js:179-196 | the answer is false exactly off the login page, with a token, auto-refresh on, the token expired or expiring soon, and the refresh failed |
| TokenManagement.RedirectTwice | src/auth/tokenManager.js:153-156 | two redirect requests with no timer or `reLaunch` event between them navigate at most once |
| TokenManagement.RedirectedTwice | src/auth/tokenManager.js:153-156 | two steps that each may request the redirect act as one step that requests it when either does |
| Upload.InterceptorInput | src/api/upload.js:54-57 | the interceptor gets `POST` and the url, or `/api/upload` when none is given |
| Upload.BuildUploadRequest | src/api/upload.js:59-66 | fails exactly when the interceptor throws; otherwise the file path is kept and field name, timeout and form data default to `file`, 30000 and `{}` |
| Upload.UploadDefaults | src/api/upload.js:55-65 | with nothing set, the upload goes to the base URL plus `/api/upload` under field `file` with a 30000 ms timeout and an empty form |
| Upload.UploadContentType | src/api/upload.js:63 | every upload carries the JSON content type of the default headers |
| Upload.UploadResult | src/api/upload.js:95-100 | `{code: 0, data: data.data \|\| data.url, msg: 'success', raw}` |
| Upload.ClassifyUpload | src/api/upload.js:78-105 | resolves exactly for status 200 with body code 0 or 200; any other status rejects with 'HTTP 状态码异常: <code>'; an unparseable body rejects; any other code rejects with `msg` or '业务错误: <code>'; a null body never settles |
| Upload.FailMessage | src/api/upload.js:110 | '上传超时' exactly when `errMsg` contains `timeout`, '网络错误' otherwise |
| Upload.Uploader.constructor | src/api/upload.js:10-27 | counter 0, no previous toast |
| Upload.Uploader.ShowError | src/api/upload.js:28-34 | shown exactly when strictly more than 1500 ms passed since the last shown toast, whatever the message; the time moves only when shown |
| Upload.Uploader.Report | src/api/upload.js:80 | a toast goes out only when error toasts are wanted and the throttle allows it |
| Upload.Uploader.Begin | src/api/upload.js:52-71 | builds the request; on success the counter goes up when loading is wanted; on a configuration error it goes down, clamped at 0, though nothing was shown, and the configuration error is reported |
| Upload.Uploader.Complete | src/api/upload.js:75-106 | the counter goes down, clamped at 0, and the outcome is `ClassifyUpload`'s, with its message reported on rejection |
| Upload.Uploader.Fail | src/api/upload.js:107-114 | the counter goes down, clamped at 0, and the upload rejects with `FailMessage`, which is reported |
| Upload.SuccessesUpTo | src/api/upload.js:183-191 | the successes among the first `n` files are at most `n` |
| Upload.FailuresUpTo | src/api/upload.js:183-191 | the failures among the first `n` files are at most `n` |
| Upload.Range | src/api/upload.js:158-162 | `0, 1, …, n - 1` |
| Upload.BatchStep | src/api/upload.js:161-162 | one more file adds its own entry to exactly one list and its index to the visited list |
| Upload.UploadBatch | src/api/upload.js:152-202 | the slices of size `concurrency` visit every index exactly once, in order; the result holds the success and failure lists and their counts |
| Upload.SuccessesSound | src/api/upload.js:183-190 | the successes list names only succeeded files, with their own file and result, at ascending indices |
| Upload.SuccessesComplete | src/api/upload.js:183-190 | every succeeded file is in the successes list |
| Upload.FailuresSound | src/api/upload.js:183-190 | the failures list names only failed files, with their own file and error, at ascending indices |
| Upload.FailuresComplete | src/api/upload.js:183-190 | every failed file is in the failures list |
| Upload.PartitionCounts | src/api/upload.js:195-201 | the two lists together are as long as the input |
| Upload.BatchPartition | src/api/upload.js:152-202 | each file is in exactly the list its outcome names, both lists ascend, and `total == successCount + failedCount` |
| Env.ValidEnvTypeIff | src/utils/env.js:6-8 | a valid environment type is exactly one of the strings 'dev', 'prod' and 'local' |
| Env.StoredEnv | src/utils/env.js:43 | a missing key reads as '' |
| Env.InitializeEnv | src/utils/env.js:26-60 | a release build removes the key and answers 'prod'; otherwise a valid stored type is answered with no write; otherwise a valid build-time default is stored and answered; otherwise it throws |
| Env.CurrentEnvType | src/utils/env.js:63-78 | a release build answers 'prod' without touching storage; otherwise it answers as `initializeEnvInStorage` does |
| Env.CurrentEnvValid | src/utils/env.js:63-78 | the type answered is always a valid one, and no key other than `APP_ENV_TYPE` changes |
| Env.CurrentEnvIdempotent | src/utils/env.js:72-75 | a second lookup gives the same answer and writes nothing |
| Env.SwitchEnv | src/utils/env.js:106-120 | an invalid type gives false with nothing written; the current type gives true with no further write; any other valid type is stored and gives true |
| Env.SwitchThenCurrent | src/utils/env.js:117 | outside a release build, after a successful switch to `e` the current type is `e`, read without a write |
| Env.SwitchIgnoredInRelease | src/utils/env.js:68-70 | in a release build the current type stays 'prod' whatever is switched |
| Env.SwitchThenConfig | src/utils/env.js:81-120 | outside a release build, after a successful switch to `e` the configuration is `e`'s base URL with the shared build variables and type `e` |
| Env.GetConfig | src/utils/env.js:81-91 | fails exactly when the type lookup fails; carries the type, `VITE_<TYPE>_API_BASE_URL` of the type upper-cased, and the build-time tenant, user type and app name |
| Env.ConfigStable | src/utils/env.js:81-91 | a second `getConfig` after a successful one returns the same and writes nothing |
| Env.InterceptorEnv | src/utils/env.js:93-103 | the interceptors' three values come from `getConfig`, and are absent exactly when it throws |
| Env.EnvName | src/utils/env.js:125-132 | '未知环境' exactly for a type outside the three valid ones |
| Env.CurrentEnvInfo | src/utils/env.js:123-137 | `isDev`/`isProd`/`isLocal` hold exactly for their type, the name is `getEnvName` of the type and never the fallback, and `canSwitch` is `!release` |
| Env.EnvInfoExactlyOne | src/utils/env.js:123-137 | exactly one of `isDev`, `isProd` and `isLocal` holds, and a release build reports production, named 生产环境, with switching off |
| Env.InitializeEnvInStorage | src/utils/env.js:26-60 | the storage and the answer are those of `InitializeEnv` |
| Env.GetCurrentEnvType | src/utils/env.js:63-78 | the storage and the answer are those of `CurrentEnvType` |
| Env.SwitchEnvInStorage | src/utils/env.js:106-120 | the storage and the answer are those of `SwitchEnv` |
| FileUtils.Extension | src/utils/file.js:34 | the match is a final `.` followed by at least one character and no further dot, and is a suffix of the string; a string without a dot has none |
| FileUtils.ExtensionOfSuffix | src/utils/file.js:34 | a name ending in a dot and a dot-free non-empty suffix has exactly that extension |
| FileUtils.LookupType | src/utils/file.js:35-38 | the answer is a type of the table or `unknown`, and `unknown` when there is no extension |
| FileUtils.LookupTypeTable | src/utils/file.js:19-23 | `.png/.jpg/.jpeg/.gif/.webp` are images, `.pdf` is pdf, `.mp4/.mov/.avi` are video, anything else unknown |
| FileUtils.UrlExtension | src/utils/file.js:34 | the empty url has no extension |
| FileUtils.DetectFileType | src/utils/file.js:30-42 | one of the four types; `unknown` for a falsy or non-string url; otherwise the table's type for the url's extension |
| FileUtils.UrlExtensionCaseInsensitive | src/utils/file.js:34 | detection ignores letter case |
| FileUtils.BeforeFirstAt | src/utils/file.js:34 | `split('?')[0]` is the text before the first `?` |
| FileUtils.UrlExtensionIgnoresQuery | src/utils/file.js:34 | detection ignores everything from the first `?` |
| FileUtils.UrlExtensionOfSuffix | src/utils/file.js:34 | a lower-case url with no query and a dot-free final suffix has that suffix as its extension |
| FileUtils.FilterTruthy | src/utils/file.js:51 | a url is kept exactly when it is truthy, and every kept url is one of the input |
| FileUtils.FilterTruthySingle | src/utils/file.js:51 | a single url is kept exactly when it is truthy |
| FileUtils.FilterTruthyAppend | src/utils/file.js:51 | filtering a concatenation concatenates the filtered parts, so order and repeats are kept |
| FileUtils.FilterTruthyFirst | src/utils/file.js:51-61 | the first url kept is the first truthy one, which becomes the default `current` |
| FileUtils.PreviewImage | src/utils/file.js:49-62 | a single url is wrapped; no preview exactly when no url is truthy; otherwise the truthy urls, with `current` defaulting to the first of them |
| Cache.CacheKey | src/utils/cache.js:7 | the key is `page_cache_` followed by the business key |
| Cache.CacheKeyInjective | src/utils/cache.js:7 | different business keys never share a storage key |
| Cache.CacheRecordFields | src/utils/cache.js:12-16 | the record reads back the business key and save time, which override same-named data fields, and every other data property |
| Cache.CachedValue | src/utils/cache.js:28-32 | a missing or falsy entry reads as null, any other as stored |
| Cache.SaveCache | src/utils/cache.js:9-23 | answers true and stores the record under the prefixed key |
| Cache.GetCache | src/utils/cache.js:25-37 | the stored value, or null when nothing truthy is stored |
| Cache.ClearCache | src/utils/cache.js:39-48 | answers true and removes exactly the prefixed key |
| Cache.SaveThenGet | src/utils/cache.js:9-37 | reading after a save gives the record; other keys read as before |
| Cache.ClearThenGet | src/utils/cache.js:39-48 | reading after a clear gives null; other keys read as before |
| Cache.StripLeadingSlash | src/utils/cache.js:52 | one leading `/` is dropped, nothing else |
| Cache.PagePathToCacheKey | src/utils/cache.js:50-53 | '' for an empty path; otherwise no `/` remains and the length is that of the path without its leading `/` |
| Cache.PagePathKeyOfRoute | src/utils/cache.js:52 | the key of `/route` is the route with every `/` turned into `_` |
| Cache.CurrentPagePath | src/utils/cache.js:55-69 | `/` plus the top page's route, none when there is no route |
| Cache.ResolvePagePath | src/utils/cache.js:72 | the given path, otherwise the current page's, and never '' |
| Cache.GetPageCache | src/utils/cache.js:71-79 | null without reading storage when no path resolves; otherwise the page key's cached value |
| Cache.SavePageCache | src/utils/cache.js:81-89 | false with storage untouched when no path resolves; otherwise saves under the page's key |
| Cache.ClearPageCache | src/utils/cache.js:91-99 | false with storage untouched when no path resolves; otherwise removes the page's key |
| Page.PageKeyAgreesWithCache | src/utils/page.js:20 | `pathToKey` equals the cache module's `pagePathToCacheKey`, and with the same prefix both modules address the same storage entry |
| Page.CurrentPath | src/utils/page.js:10-18 | the current page's path is found as in the cache module |
| Page.PageRecordFields | src/utils/page.js:41 | the stored record carries `_ts`, the save time, and every other data property |
| Page.StoredOrNull | src/utils/page.js:55 | `getStorageSync(key) \|\| null` reads as the cache module's lookup |
| Page.SavePageCache | src/utils/page.js:37-46 | false with no write when no path resolves; otherwise the data plus `_ts` is stored under the page key and the answer is true |
| Page.GetPageCache | src/utils/page.js:51-59 | null when no path resolves; otherwise the stored value or null |
| Page.ClearPageCache | src/utils/page.js:64-73 | false with no write when no path resolves; otherwise the page key is removed |
| Page.SaveGetClear | src/utils/page.js:37-73 | saved data reads back with `_ts` and reads as null once cleared |
| Page.PageSaveCacheRead | src/utils/page.js:41 | what this module saves for a path is what the cache module's `getPageCache` reads |
| Page.NavKindOf | src/utils/page.js:23-29 | an unknown navigation type falls back to `navigateTo` |
| Page.DoNavigate | src/utils/page.js:22-30 | navigates to the url with the type's method |
| Page.NavigateWithCache | src/utils/page.js:88-94 | nothing for an empty url; `null` data throws; the data is saved for the target only when it has own keys; then the navigation |
| Page.ParamsUrl | src/utils/page.js:107-110 | the url is unchanged for params without keys, else followed by `?params=` and the encoded JSON |
| Page.NavigateWithParams | src/utils/page.js:105-112 | nothing for an empty url; `null` params throw; otherwise a navigation of the given kind (`navigateTo` for an unknown one) to the url itself when the params have no keys, else to the url, `?params=` and the encoded JSON |
| Page.NavigateWithParamsRoundTrip | src/utils/page.js:107-110 | with a decoder that undoes the encoder, the text after `?params=` decodes back to the JSON of the params |
| Utils.GetRandomInt | src/utils/index.js:10-15 | fails with the source's message exactly when `n` is not a non-negative integer; otherwise `floor(random * (n + 1))` lies in [0, n] for any random fraction in [0, 1) |
| Utils.Pad2Value | src/utils/index.js:36-37 | a number below 100 padded to two characters is two decimal digits that read back as the number |
| Utils.TwoDigitsValue | src/utils/index.js:36-37 | on a two-digit field the general decimal reading agrees with the two-digit reading |
| Utils.FormatDateFields | src/utils/index.js:33-46 | `YYYY.MM.DD[ HH:mm]`: the year first, `.` at fixed offsets after it, and month (1-based), day, hours and minutes each as two digits that read back as the component; length is the year's length plus 6, plus 6 more with time |
| Utils.FormatDateDashIsDotted | src/utils/index.js:54-67 | the dashed format is the dotted format with every `.` replaced by `-` (the time part holds none) |
| Utils.Throttle.constructor | src/utils/index.js:89-90 | a new throttle has `lastTime` 0 and has run nothing |
| Utils.Throttle.Call | src/utils/index.js:91-97 | the wrapped function runs exactly when `now - lastTime >= interval`; only then is `lastTime` set to `now` and the run counted |
| Utils.CallTwice | src/utils/index.js:93-96 | of two calls less than `interval` apart, the second does not run when the first did, so at most one run is added |
| Utils.DeepClone | src/utils/index.js:105-125 | primitives and `null` are returned as they are; arrays clone to arrays of the same length; objects clone to objects |
| Utils.DeepCloneIdentity | src/utils/index.js:105-125 | a deep clone of a value whose objects have distinct keys is structurally equal to it |
| Utils.CloneFieldsIdentity | src/utils/index.js:118-124 | the `for…in` copy of the remaining own keys onto the partial clone yields the original properties in their order |
| Utils.IsEmptyIff | src/utils/index.js:140-151 | an array or object is empty exactly when it has no own keys; any other value is empty exactly when it is `null`, `undefined` or `''`, so numbers and booleans never are |
| Store.ProfileCopy | src/store/index.js:23 | the copy of the profile kept by `login` is a (truthy) object |
| Store.ProfileCopyReads | src/store/index.js:23 | every property of the copy reads as the same own property of the profile it was given |
| Store.Restored | src/store/index.js:73-78 | a session is restored exactly when both saved `isLoggedIn` and `userInfo` are truthy, and then the profile is the saved one |
| Store.SessionStore.constructor | src/store/index.js:10-15 | the store starts logged out with a `null` profile |
| Store.SessionStore.Login | src/store/index.js:21-28 | logged in with a copy of the profile; storage gains that copy under `userInfo` and `true` under `isLoggedIn`; logged in only with a profile |
| Store.SessionStore.Logout | src/store/index.js:33-43 | logged out with a `null` profile; storage loses the two session keys and the four token keys and nothing else |
| Store.SessionStore.UpdateUserInfo | src/store/index.js:49-54 | with a profile, merges `info` into it and persists the result; without one, changes nothing |
| Store.UpdateReads | src/store/index.js:51 | after the merge, a key of `info` reads as in `info` and any other key as in the old profile |
| Store.SessionStore.InitStore | src/store/index.js:72-85 | restores the saved session exactly when `Restored` finds one, leaves the store as it was otherwise, and arms the delayed check exactly when a session was restored off the login page |
| Store.SessionStore.TokenCheckElapsed | src/store/index.js:86-94 | when the timer fires off the login page and the token manager has no live token, the store logs out as `logout` does; otherwise nothing changes |
| Store.LoginThenRestore | src/store/index.js:21-28 | a relaunch after `login` restores exactly the copied profile |
| Store.LogoutThenRestore | src/store/index.js:33-43 | a relaunch after `logout` restores nothing |
| Store.UpdateThenRestore | src/store/index.js:49-54 | a relaunch after `login` and an `updateUserInfo` restores the merged profile |
| Enums.Label | src/enums/index.js:37 | the label is the map's entry for the value's string form when that entry is truthy, and the value itself otherwise |
| Enums.EnumToOptions | src/enums/index.js:34-38 | fails exactly when the enum is `null`/`undefined`, or the map is and the enum has values; otherwise one `{ value, label }` per own value of the enum, in order, labelled by `Label` |
| Enums.UnnamedIsOwnLabel | src/enums/index.js:37 | a value the map has no key for is labelled by itself |
| Enums.CommonStatusNames | src/enums/index.js:18-26 | `COMMON_STATUS_NAME` names `DISABLED` (0) `禁用` and `ENABLED` (1) `启用` through the computed keys |
| Enums.CommonStatusOptions | src/enums/index.js:18-38 | the options for the common status are `{0, 禁用}` then `{1, 启用}` |
| JsValue.Or | src/enums/index.js:37 | `a \|\| b` is `a` when `a` is truthy and `b` otherwise |
| JsValue.LookupSpread | src/store/index.js:51 | after `{ ...a, ...b }` a key of `b` reads as in `b` and any other key as in `a` |
| JsValue.KeysSpread | src/store/index.js:51 | a spread keeps `a`'s keys in place and has exactly the keys of `a` and `b` |
| JsValue.SpreadKeepsDistinct | src/store/index.js:51 | a spread of objects with distinct keys has distinct keys |
| JsValue.KeysSetField | src/utils/index.js:121 | assigning an existing key keeps the key order; a new key goes last |
| JsValue.LookupSetField | src/utils/index.js:121 | after `o[k] = x`, key `k` reads `x` and every other key reads as before |
| Strings.ContainsIffOccurs | src/store/index.js:63 | `includes` holds exactly when the substring occurs at some index |
| KvStorage.Storage.Get | src/store/index.js:73-74 | `getStorageSync` returns the stored value, or `''` for a missing key |
| KvStorage.Storage.Set | src/store/index.js:26-27 | `setStorageSync` maps the key to the value and changes no other key |
| KvStorage.Storage.Remove | src/store/index.js:38-39 | `removeStorageSync` removes the key and changes no other key |
| JsValue.Merge | src/store/index.js:51 | `{ ...a, ...b }` is always a plain object |
| Strings.ToUpper | src/api/core/request.js:56 | `toUpperCase()` keeps the length and maps each character through the ASCII upper-case mapping |
| Strings.ToLowerIdempotent | src/utils/file.js:34 | lower-casing twice is lower-casing once |
| Strings.BeforeFirst | src/utils/file.js:34 | `split('?')[0]` holds no `?`, and is the whole string when it has none |
| Strings.LastIndexOf | src/utils/file.js:34 | the index found holds the character and no later index does; -1 exactly when the character is absent |
| Strings.PadStart2 | src/utils/index.js:36 | `padStart(2, '0')` leaves two or more characters alone and otherwise left-fills with `0` to length 2 |
| Strings.NatToString | src/utils/index.js:36 | `String(n)` for a natural number is one or more decimal digits, without a leading zero |
| Strings.NatToStringRoundTrip | src/utils/index.js:36-37 | reading back the decimal rendering of `n` gives `n` |
| Strings.StrLeTotal | src/api/core/request.js:50 | the code-unit order `sort()` uses relates any two keys |
| Strings.StrLeAntisymmetric | src/api/core/request.js:50 | two keys each ordered before the other are equal |
| Strings.StrLeTransitive | src/api/core/request.js:50 | the code-unit order is transitive |

## Left out

- Promise interleavings are not modelled. Each request's progress is a sequence of explicit events on `Request.Client`, and the events of different calls may be taken in any order.
- `uni.request` and `uni.uploadFile` are not modelled. Their `success`/`fail` callbacks are events carrying the status, body or `errMsg`.
- `uploadBatch` processes files one after another, not through `Promise.allSettled`. Each file's outcome is an input `Result`, so an upload that never settles (and would hang the batch) is not represented.
- The upload progress callbacks and `onFileComplete` are not modelled; they only report progress.
- The `file.filePath || file.url || file` choice is not modelled. A file is uploaded as the value it is given.
- Timers are not modelled as timers. These are separate events:
  - the retry delay of 100 ms (`Request.Client.RetryDue`);
  - the redirect guard's 3000 ms reset (`TokenManagement.TokenManager.RedirectDelayElapsed`);
  - the store's 3 s token check (`Store.SessionStore.TokenCheckElapsed`);
  - the 50 ms delay before a toast appears; the toast is recorded when `showError` runs.
- UI calls are recorded abstractly: the loading indicator's visibility, a list of toast texts and a count of navigations. `reLaunch`, `navigateTo`, `previewImage`, `downloadFile`, `openDocument` and `window.open` are not modelled beyond that.
- The token refresh network call is commented out in the source; its outcome is an input of `TokenManagement.TokenManager.SettleRefresh`.
- These are inputs rather than computed:
  - `getCurrentPages()` and whether the top page is the login page;
  - the release-build flag from `wx.getAccountInfoSync`;
  - the build-time environment from `import.meta.env`.
- `JSON.stringify` is modelled without string escaping. `JSON.parse` is an optional parsed value given as input. `encodeURIComponent` is a function parameter.
- Regular expressions are replaced by the string functions they compute: last-dot suffix, first `?`, and replacement of `/` and `.`.
- `Date` parsing, `getWeekday` and `getUrlParams` are not modelled. `formatDate` and `formatDateDash` take the date's components.
- `Math.random` is the fraction `num / den`. `generateId` (clock plus random) and `debounce` (timer only) are not modelled.
- Numbers are integers: floating point, `NaN` and `Infinity` are not modelled.
- Numeric strings are converted only when they are digit strings, as in `TokenManagement.ExpiryNumber`.
- Case mapping covers the ASCII letters only.
- Strings are sequences of Unicode scalar values. `sort()` compares UTF-16 code units, and the two orders differ only for characters outside the Basic Multilingual Plane.
- Object properties keep their insertion order, except in the body fingerprint: there `Object.keys(...).sort()` is modelled with integer-like keys first (`RequestId.KeyLe`). Elsewhere the integer-first enumeration rule is not modelled, and neither are inherited properties such as `length`.
- `RequestId.KeyLe` treats every digit string without leading zeros as integer-like, including those of 2^32 − 1 and above, which JavaScript enumerates as ordinary string keys.
- The upload's token is an input of `Upload.BuildUploadRequest` and `Upload.Uploader.Begin`. The full `requestInterceptor` that `uploadFile` awaits, with its possible token refresh, is not modelled there.
- UploadBatch: requires `concurrency >= 1` for a non-empty batch, because with 0 the source's chunk loop never advances. The default concurrency of 3 is not modelled; it is a parameter.
- TokenManagement.TokenManager.Configure: each setting is an optional boolean or integer, so `configure({ enableAutoRefresh: undefined })` and non-boolean settings, which the spread stores as given and which then act by truthiness, are not represented. The same holds for `TokenManagement.TokenManager.SetAutoRefresh`.
- Interceptors.PrepareOptions: the url is always a string, so a call without `url` is not represented. In the source, `options.url.startsWith` throws a `TypeError` there, and `request` rejects that call with the interceptor error.
- Request.Client.ShowError: compares the new message with the last one structurally, whereas JavaScript's `===` compares objects by identity. Messages are strings in practice, where the two agree.
- TokenManagement.ExpiryNumber: treats an array expiry as not a number, whereas `Number([5])` is 5. Stored expiries are numbers or numeric strings in practice.
- `Date` objects are not values of the model, so the `Date` branch of `deepClone` is left out.
- Storage calls never throw, so the `catch` paths around `getStorageSync` and `setStorageSync` are not modelled.
- The `catch` around `getValidToken` in `requestInterceptor` is not modelled. `getValidToken` catches its own refresh failure and storage never throws, so nothing reaches it.
- `TokenManager.destroy()` is not modelled; it only clears the queue and the timer.
- `previewPdf` is not modelled; it only makes UI and download calls.
- `src/utils/eventBus.js`, `src/api/user.js`, `src/config/token.js` and the build configuration are not part of this model. The token configuration's values (auto-refresh off, buffer 300000 ms, redirect delay 3000 ms) are the token manager's defaults.
- The module-load logging and global registration in `src/utils/env.js` are not modelled.
- The `raw` field that the error builders attach is not modelled.
- `console.log` and `console.warn` output is not modelled.
