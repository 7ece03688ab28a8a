/**
 * The request layer of src/api/core/request.js as an event-driven state
 * machine.  Each logical call to `request(options)` gets a slot in `calls`;
 * the transport's `success`/`fail` callbacks, the end of a token refresh and
 * the end of the 100 ms retry delay are events that move it on.  The module
 * state of the source (`requestTaskMap`, `pendingRequests`, the loading
 * counter and the error-toast throttle) are fields of `Client`.
 */
module Request {
  import opened Wrappers
  import opened Strings
  import opened JsValue
  import opened KvStorage
  import opened RequestId
  import opened Interceptors
  import opened TokenManagement
  import opened Loading
  import opened RequestCore

  const UnauthorizedMessage := "未授权，请重新登录"
  const SessionExpiredMessage := "登录已过期，请重新登录"
  const RetryExceededMessage := "重试次数超限"

  /** Where a logical request stands. */
  datatype CallState =
    | AwaitingToken(opts: RequestOptions, retryCount: nat)    // the interceptor waits for a refresh in `getValidToken`
    | InFlight(opts: RequestOptions, retryCount: nat, id: string, task: nat)
    | Queued(opts: RequestOptions, retryCount: nat)           // a 401 waits in the token manager's queue
    | AwaitingRefresh(opts: RequestOptions, retryCount: nat)  // a 401 started the refresh and waits for it
    | RetryPending(opts: RequestOptions, retryCount: nat)     // the retry waits out `RETRY_DELAY`
    | Settled(outcome: Outcome)
    | Suppressed                                              // a duplicate: returned without settling
    | Stalled                                                 // a retry with no configuration: never settles

  /** Waiting for the refresh in flight. */
  predicate Waiting(s: CallState) {
    s.AwaitingToken? || s.Queued? || s.AwaitingRefresh?
  }

  /** Has called `showLoading` and not yet `hideLoading`. */
  predicate HoldsLoading(s: CallState) {
    (s.InFlight? || s.Queued? || s.AwaitingRefresh?) && WantsLoading(s.opts)
  }

  /** The retry count never passes `MAX_RETRY_COUNT`, and only a first attempt is retried. */
  predicate RetryBound(s: CallState) {
    && (!s.Settled? && !s.Suppressed? && !s.Stalled? ==> s.retryCount <= MaxRetryCount)
    && (s.RetryPending? ==> s.retryCount < MaxRetryCount)
  }

  /** The number of calls holding the loading indicator. */
  function LoadingHolders(calls: seq<CallState>): nat {
    if |calls| == 0 then 0
    else LoadingHolders(calls[..|calls| - 1]) + (if HoldsLoading(calls[|calls| - 1]) then 1 else 0)
  }

  lemma LoadingHoldersAppend(calls: seq<CallState>, x: CallState)
    ensures LoadingHolders(calls + [x]) == LoadingHolders(calls) + (if HoldsLoading(x) then 1 else 0)
  {
    assert (calls + [x])[..|calls|] == calls;
  }

  lemma {:induction false} LoadingHoldersUpdate(calls: seq<CallState>, i: int, x: CallState)
    requires 0 <= i < |calls|
    ensures LoadingHolders(calls[i := x]) + (if HoldsLoading(calls[i]) then 1 else 0)
      == LoadingHolders(calls) + (if HoldsLoading(x) then 1 else 0)
    decreases |calls|
  {
    var n := |calls| - 1;
    var u := calls[i := x];
    assert u[..n] == if i < n then calls[..n][i := x] else calls[..n];
    if i < n {
      LoadingHoldersUpdate(calls[..n], i, x);
    }
  }

  /** A call woken by the end of a refresh: retried (or given up) after success, silently rejected after failure. */
  function AfterRefresh(s: CallState, ok: bool): (r: CallState)
    requires s.Queued? || s.AwaitingRefresh?
    ensures !Waiting(r) && !HoldsLoading(r)
    ensures r.RetryPending? <==> ok && s.retryCount < MaxRetryCount
    ensures r.RetryPending? ==> r.opts == s.opts.(tokenRefreshed := Bool(true)) && r.retryCount == s.retryCount
  {
    if ok then
      match RetryDecision(s.retryCount)
      case GiveUp(e) => Settled(Rejected(e))
      case RetryWith(_) => RetryPending(s.opts.(tokenRefreshed := Bool(true)), s.retryCount)
    else Settled(Rejected(SilentError(SessionExpiredMessage)))
  }

  /** Removing the ids that contain `url` removes every in-flight call to a url containing `url`. */
  lemma InFlightUrlsCancelled(calls: seq<CallState>, taskMap: map<string, nat>, url: string)
    requires forall i :: 0 <= i < |calls| && calls[i].InFlight? ==>
      calls[i].id == GenerateRequestId(calls[i].opts.httpMethod, calls[i].opts.url, calls[i].opts.data)
    ensures var kept := taskMap - (set k | k in taskMap && Contains(k, url));
      forall c :: 0 <= c < |calls| && calls[c].InFlight? && Contains(calls[c].opts.url, url) ==> calls[c].id !in kept
  {
    forall c | 0 <= c < |calls| && calls[c].InFlight? && Contains(calls[c].opts.url, url)
      ensures Contains(calls[c].id, url)
    {
      RequestIdContainsUrl(calls[c].opts.httpMethod, calls[c].opts.url, calls[c].opts.data, url);
    }
  }

  /**
   * Where `request` leaves a call once the interceptor has yielded `sent`,
   * with `pending0` the pending ids at that point: a duplicate is dropped
   * unless it retries after a refresh; otherwise the call is in flight with
   * exactly those options, under the id they generate.
   */
  predicate DispatchedAs(s: CallState, sent: RequestOptions, retryCount: nat, pending0: set<string>) {
    var id := GenerateRequestId(sent.httpMethod, sent.url, sent.data);
    if id in pending0 && !Truthy(sent.tokenRefreshed) then s == Suppressed
    else s.InFlight? && s.opts == sent && s.retryCount == retryCount && s.id == id
  }

  /**
   * Where `requestInterceptor` and `request` leave a call with prepared
   * options `p`, given what `getValidToken()` answers first: the login and
   * refresh endpoints go out as they are, a call that must wait for the
   * refresh waits, any other goes out with the token's `Authorization` header.
   */
  predicate Intercepted(s: CallState, p: RequestOptions, retryCount: nat, step: TokenStep, pending0: set<string>) {
    if IsSkipTokenCheck(p.url) then DispatchedAs(s, p, retryCount, pending0)
    else match step
      case AwaitRefresh => s == AwaitingToken(p, retryCount)
      case TokenReady(token) => DispatchedAs(s, AddAuthorization(p, token), retryCount, pending0)
  }

  /** The toast a settled call shows, if any. */
  function ToastOf(d: Disposition): Option<Value> {
    if d.Settle? then d.toast else None
  }

  /**
   * A call waiting for a token, after the refresh: sent with `token`, or
   * dropped as a duplicate (which a retry after a refresh never is).
   */
  predicate SentAfterRefresh(x: CallState, s: CallState, token: Value)
    requires s.AwaitingToken?
  {
    var sent := AddAuthorization(s.opts, token);
    (x == Suppressed && !Truthy(sent.tokenRefreshed))
    || (x.InFlight? && x.opts == sent && x.retryCount == s.retryCount)
  }

  /** A token waiter sent by `request` after the refresh goes out with that token, or is a dropped duplicate. */
  lemma DispatchedIsSent(x: CallState, s: CallState, token: Value, pending0: set<string>)
    requires s.AwaitingToken?
    requires DispatchedAs(x, AddAuthorization(s.opts, token), s.retryCount, pending0)
    ensures SentAfterRefresh(x, s, token)
  {
  }

  /**
   * A call retried after a successful refresh carries `_tokenRefreshed`, so
   * its retry is never dropped as a duplicate: it goes out, or waits for a token.
   */
  lemma RefreshedRetryNeverSuppressed(s: CallState, e: EnvValues, step: TokenStep, pending0: set<string>, x: CallState)
    requires s.Queued? || s.AwaitingRefresh?
    requires AfterRefresh(s, true).RetryPending?
    requires Intercepted(x, PrepareOptions(AfterRefresh(s, true).opts, e), s.retryCount + 1, step, pending0)
    ensures x.InFlight? || x.AwaitingToken?
    ensures x.InFlight? ==> x.opts.tokenRefreshed == Bool(true)
  {
    var p := PrepareOptions(AfterRefresh(s, true).opts, e);
    assert p.tokenRefreshed == Bool(true);
    if !IsSkipTokenCheck(p.url) && step.TokenReady? {
      assert AddAuthorization(p, step.token).tokenRefreshed == Bool(true);
    }
  }

  /**
   * A failed refresh rejects every 401 waiting on it with the silent
   * session-expired error, which no `catch` toasts.
   */
  lemma RefreshFailureIsSilent(s: CallState)
    requires s.Queued? || s.AwaitingRefresh?
    ensures AfterRefresh(s, false) == Settled(Rejected(SilentError(SessionExpiredMessage)))
    ensures Truthy(Get(AfterRefresh(s, false).outcome.v, "silent"))
  {
  }

  /** The calls a settled queue names. */
  function Named(results: seq<WaiterResult>): set<nat> {
    if |results| == 0 then {} else Named(results[..|results| - 1]) + {results[|results| - 1].call}
  }

  /** Some call the queue names was waiting in the queue. */
  predicate QueuedNamed(calls: seq<CallState>, results: seq<WaiterResult>) {
    if |results| == 0 then false
    else
      var x := results[|results| - 1].call;
      QueuedNamed(calls, results[..|results| - 1]) || (x < |calls| && calls[x].Queued?)
  }

  lemma {:induction false} QueuedNamedWitness(calls: seq<CallState>, results: seq<WaiterResult>, i: int)
    requires 0 <= i < |calls| && i in Named(results) && calls[i].Queued?
    ensures QueuedNamed(calls, results)
    decreases |results|
  {
    var n := |results| - 1;
    if i != results[n].call {
      QueuedNamedWitness(calls, results[..n], i);
    }
  }

  lemma {:induction false} QueuedNamedHasWaiter(calls: seq<CallState>, results: seq<WaiterResult>)
    requires QueuedNamed(calls, results)
    ensures exists i :: 0 <= i < |calls| && i in Named(results) && calls[i].Queued?
    decreases |results|
  {
    var n := |results| - 1;
    var x := results[n].call;
    if x < |calls| && calls[x].Queued? {
      assert x in Named(results);
    } else {
      QueuedNamedHasWaiter(calls, results[..n]);
      var i :| 0 <= i < |calls| && i in Named(results[..n]) && calls[i].Queued?;
      assert i in Named(results);
    }
  }

  /** A 401 waiting on the refresh, in the queue or as the one that started it. */
  predicate RefreshWaiter(s: CallState) {
    s.Queued? || s.AwaitingRefresh?
  }

  /** One of the first `n` calls is a 401 waiting on the refresh. */
  predicate HasRefreshWaiter(calls: seq<CallState>, n: nat)
    requires n <= |calls|
  {
    n > 0 && (HasRefreshWaiter(calls, n - 1) || RefreshWaiter(calls[n - 1]))
  }

  lemma {:induction false} RefreshWaiterAt(calls: seq<CallState>, n: nat, j: nat)
    requires j < n <= |calls| && RefreshWaiter(calls[j])
    ensures HasRefreshWaiter(calls, n)
    decreases n
  {
    if j < n - 1 {
      RefreshWaiterAt(calls, n - 1, j);
    }
  }

  /**
   * After the queue is settled, the 401s still waiting together with the
   * queued ones it resumed are all the 401s that were waiting.
   */
  lemma {:induction false} RefreshWaitersSplit(calls: seq<CallState>, mid: seq<CallState>, results: seq<WaiterResult>, ok: bool, n: nat)
    requires |mid| == |calls| && n <= |calls|
    requires forall i :: 0 <= i < |mid| ==>
      mid[i] == (if i in Named(results) && calls[i].Queued? then AfterRefresh(calls[i], ok) else calls[i])
    ensures (QueuedNamed(calls, results) || HasRefreshWaiter(mid, n)) == (QueuedNamed(calls, results) || HasRefreshWaiter(calls, n))
    ensures n == |calls| ==> (QueuedNamed(calls, results) || HasRefreshWaiter(mid, n)) == HasRefreshWaiter(calls, n)
    decreases n
  {
    if n > 0 {
      RefreshWaitersSplit(calls, mid, results, ok, n - 1);
      var j := n - 1;
      if j in Named(results) && calls[j].Queued? {
        QueuedNamedWitness(calls, results, j);
      }
    }
    if n == |calls| && QueuedNamed(calls, results) {
      QueuedNamedHasWaiter(calls, results);
      var i :| 0 <= i < |calls| && i in Named(results) && calls[i].Queued?;
      RefreshWaiterAt(calls, n, i);
    }
  }

  /** `calls` is `c0` with the queued calls among `names` resumed. */
  predicate QueueResumed(calls: seq<CallState>, c0: seq<CallState>, names: set<nat>, ok: bool) {
    && |calls| == |c0|
    && forall i :: 0 <= i < |calls| ==>
         calls[i] == (if i in names && c0[i].Queued? then AfterRefresh(c0[i], ok) else c0[i])
  }

  /** One step of resuming the settled queue: the next waiter named is resumed if still queued. */
  lemma QueueStep(c0: seq<CallState>, before: seq<CallState>, after: seq<CallState>,
                  results: seq<WaiterResult>, k: nat, ok: bool)
    requires k < |results| && QueueResumed(before, c0, Named(results[..k]), ok)
    requires var c := results[k].call;
      after == if c < |before| && before[c].Queued? then before[c := AfterRefresh(before[c], ok)] else before
    ensures QueueResumed(after, c0, Named(results[..k + 1]), ok)
    ensures var c := results[k].call;
      QueuedNamed(c0, results[..k + 1]) == (QueuedNamed(c0, results[..k]) || (c < |before| && before[c].Queued?))
  {
    var c := results[k].call;
    assert results[..k + 1][..k] == results[..k];
    assert Named(results[..k + 1]) == Named(results[..k]) + {c};
    if c < |c0| && c0[c].Queued? && c in Named(results[..k]) {
      QueuedNamedWitness(c0, results[..k], c);
    }
  }

  /**
   * `calls` is `c0` with the first `n` calls moved on after the refresh:
   * 401s resumed, token waiters sent with `token`, the rest untouched.
   */
  predicate OthersResumed(calls: seq<CallState>, c0: seq<CallState>, n: nat, ok: bool, token: Value)
    requires n <= |c0|
  {
    && |calls| == |c0|
    && (forall j :: 0 <= j < n ==> !Waiting(calls[j]))
    && (forall j :: 0 <= j < |calls| && !Waiting(c0[j]) ==> calls[j] == c0[j])
    && (forall j :: n <= j < |calls| ==> calls[j] == c0[j])
    && (forall j :: 0 <= j < n && RefreshWaiter(c0[j]) ==> calls[j] == AfterRefresh(c0[j], ok))
    && (forall j :: 0 <= j < n && c0[j].AwaitingToken? ==> SentAfterRefresh(calls[j], c0[j], token))
  }

  /** One step of resuming the other waiters: call `n` is moved on. */
  lemma OthersStep(c0: seq<CallState>, before: seq<CallState>, after: seq<CallState>, n: nat, ok: bool, token: Value,
                   pending0: set<string>)
    requires n < |c0| && OthersResumed(before, c0, n, ok, token)
    requires |after| == |before| && after == before[n := after[n]] && !Waiting(after[n])
    requires !Waiting(before[n]) ==> after[n] == before[n]
    requires RefreshWaiter(before[n]) ==> after[n] == AfterRefresh(before[n], ok)
    requires before[n].AwaitingToken? ==>
      DispatchedAs(after[n], AddAuthorization(before[n].opts, token), before[n].retryCount, pending0)
    ensures OthersResumed(after, c0, n + 1, ok, token)
  {
    assert before[n] == c0[n];
    if before[n].AwaitingToken? {
      DispatchedIsSent(after[n], before[n], token, pending0);
    }
  }

  class Client {
    const tm: TokenManager
    const loading: LoadingIndicator
    /** `requestTaskMap`: request id to transport task. */
    var taskMap: map<string, nat>
    /** `pendingRequests`. */
    var pending: set<string>
    var lastErrorTime: int
    var lastErrorMessage: Value
    /** Toasts shown so far. */
    var toasts: seq<Value>
    /** Tasks on which `abort()` was called. */
    var aborted: set<nat>
    var nextTask: nat
    var calls: seq<CallState>

    ghost predicate Core()
      reads this, tm, loading
    {
      && tm.Valid() && loading.Valid()
      && taskMap.Keys <= pending
      && (forall i :: 0 <= i < |calls| ==> RetryBound(calls[i]))
      && (forall i :: 0 <= i < |calls| && calls[i].InFlight? ==>
            calls[i].id == GenerateRequestId(calls[i].opts.httpMethod, calls[i].opts.url, calls[i].opts.data))
      && loading.count == LoadingHolders(calls)
    }

    ghost predicate Valid()
      reads this, tm, loading
    {
      Core() && (tm.phase.Idle? ==> forall i :: 0 <= i < |calls| ==> !Waiting(calls[i]))
    }

    constructor (manager: TokenManager)
      requires manager.Valid()
      ensures tm == manager && Valid()
      ensures taskMap == map[] && pending == {} && calls == [] && toasts == [] && aborted == {}
      ensures lastErrorTime == 0 && lastErrorMessage == Str("") && loading.count == 0
    {
      tm := manager;
      loading := new LoadingIndicator();
      taskMap := map[];
      pending := {};
      lastErrorTime := 0;
      lastErrorMessage := Str("");
      toasts := [];
      aborted := {};
      nextTask := 0;
      calls := [];
    }

    /**
     * The toast state after `showError` for a `Some` message, or untouched for
     * `None`, starting from toasts `t0`, last time `time0` and last message `msg0`.
     */
    predicate ToastedAfter(t0: seq<Value>, time0: int, msg0: Value, message: Option<Value>, now: int)
      reads this
    {
      if message.None? || ToastSuppressed(msg0, time0, message.value, now) then
        toasts == t0 && lastErrorTime == time0 && lastErrorMessage == msg0
      else toasts == t0 + [message.value] && lastErrorTime == now && lastErrorMessage == message.value
    }

    /** `showError(message)`: the same message again within 1500 ms is dropped and changes nothing. */
    method ShowError(message: Value, now: int)
      requires Core()
      modifies this, loading
      ensures Core()
      ensures ToastSuppressed(old(lastErrorMessage), old(lastErrorTime), message, now) ==>
        toasts == old(toasts) && lastErrorTime == old(lastErrorTime) && lastErrorMessage == old(lastErrorMessage)
        && loading.visible == old(loading.visible)
      ensures !ToastSuppressed(old(lastErrorMessage), old(lastErrorTime), message, now) ==>
        toasts == old(toasts) + [message] && lastErrorTime == now && lastErrorMessage == message
        && !loading.visible
      ensures loading.count == old(loading.count)
      ensures calls == old(calls) && taskMap == old(taskMap) && pending == old(pending)
      ensures nextTask == old(nextTask) && aborted == old(aborted)
    {
      if lastErrorMessage == message && now - lastErrorTime <= ErrorThrottleWindow {
        return;
      }
      loading.ForceHide();
      toasts := toasts + [message];
      lastErrorTime := now;
      lastErrorMessage := message;
    }

    /** Moves call `c` to `x`, showing or hiding the loading indicator as the call starts or stops holding it. */
    method SetCall(c: nat, x: CallState)
      requires Core() && c < |calls| && RetryBound(x)
      requires x.InFlight? ==> x.id == GenerateRequestId(x.opts.httpMethod, x.opts.url, x.opts.data)
      modifies this, loading
      ensures Core()
      ensures calls == old(calls)[c := x]
      ensures taskMap == old(taskMap) && pending == old(pending) && nextTask == old(nextTask) && aborted == old(aborted)
      ensures toasts == old(toasts) && lastErrorTime == old(lastErrorTime) && lastErrorMessage == old(lastErrorMessage)
      ensures loading.count + (if HoldsLoading(old(calls[c])) then 1 else 0)
        == old(loading.count) + (if HoldsLoading(x) then 1 else 0)
    {
      var before := HoldsLoading(calls[c]);
      LoadingHoldersUpdate(calls, c, x);
      calls := calls[c := x];
      if before && !HoldsLoading(x) {
        var hidden := loading.Hide();
      } else if !before && HoldsLoading(x) {
        var shown := loading.Show();
      }
    }

    /** `cancelRequest(requestId)`: aborts and forgets its task; the id stays pending. */
    method CancelRequest(id: string)
      requires Core()
      modifies this
      ensures Core()
      ensures taskMap == old(taskMap) - {id}
      ensures aborted == old(aborted) + (if id in old(taskMap) then {old(taskMap)[id]} else {})
      ensures pending == old(pending) && calls == old(calls) && nextTask == old(nextTask)
      ensures toasts == old(toasts) && lastErrorTime == old(lastErrorTime) && lastErrorMessage == old(lastErrorMessage)
    {
      if id in taskMap {
        aborted := aborted + {taskMap[id]};
        taskMap := taskMap - {id};
      }
    }

    /** `cancelAllRequests()`: aborts every task and empties the map; the pending set is untouched. */
    method CancelAllRequests()
      requires Core()
      modifies this
      ensures Core()
      ensures taskMap == map[]
      ensures aborted == old(aborted) + (set k | k in old(taskMap) :: old(taskMap)[k])
      ensures pending == old(pending) && calls == old(calls) && nextTask == old(nextTask)
      ensures toasts == old(toasts) && lastErrorTime == old(lastErrorTime) && lastErrorMessage == old(lastErrorMessage)
    {
      var keys := taskMap.Keys;
      var victims: set<nat> := {};
      while keys != {}
        invariant keys <= taskMap.Keys
        invariant victims == set k | k in taskMap && k !in keys :: taskMap[k]
        decreases keys
      {
        var k :| k in keys;
        victims := victims + {taskMap[k]};
        keys := keys - {k};
      }
      aborted := aborted + victims;
      taskMap := map[];
    }

    /** `cancelRequestsByUrl(url)`: aborts and removes exactly those tasks whose id contains `url`. */
    method CancelRequestsByUrl(url: string)
      requires Core()
      modifies this
      ensures Core()
      ensures taskMap == old(taskMap) - (set k | k in old(taskMap) && Contains(k, url))
      ensures aborted == old(aborted) + (set k | k in old(taskMap) && Contains(k, url) :: old(taskMap)[k])
      ensures pending == old(pending) && calls == old(calls) && nextTask == old(nextTask)
      ensures toasts == old(toasts) && lastErrorTime == old(lastErrorTime) && lastErrorMessage == old(lastErrorMessage)
      ensures forall c :: 0 <= c < |calls| && calls[c].InFlight? && Contains(calls[c].opts.url, url) ==>
        calls[c].id !in taskMap
    {
      var keys := taskMap.Keys;
      var toDelete: set<string> := {};
      var victims: set<nat> := {};
      while keys != {}
        invariant keys <= taskMap.Keys
        invariant toDelete == set k | k in taskMap && k !in keys && Contains(k, url)
        invariant victims == set k | k in taskMap && k !in keys && Contains(k, url) :: taskMap[k]
        decreases keys
      {
        var k :| k in keys;
        if Contains(k, url) {
          victims := victims + {taskMap[k]};
          toDelete := toDelete + {k};
        }
        keys := keys - {k};
      }
      aborted := aborted + victims;
      var remaining := taskMap;
      var rest := toDelete;
      while rest != {}
        invariant rest <= toDelete
        invariant remaining == taskMap - (toDelete - rest)
        decreases rest
      {
        var k :| k in rest;
        remaining := remaining - {k};
        rest := rest - {k};
      }
      taskMap := remaining;
      InFlightUrlsCancelled(calls, old(taskMap), url);
    }

    /**
     * The part of `request` after the interceptor: cancel the previous request
     * with this id if asked, drop a duplicate (unless it is a retry after a
     * refresh), otherwise mark the id pending, show the loading indicator and
     * start the transport task.
     */
    method Dispatch(c: nat, p: RequestOptions, retryCount: nat)
      requires Core() && c < |calls| && !HoldsLoading(calls[c]) && retryCount <= MaxRetryCount
      modifies this, loading
      ensures Core() && |calls| == |old(calls)|
      ensures forall j :: 0 <= j < |calls| && j != c ==> calls[j] == old(calls)[j]
      ensures var id := GenerateRequestId(p.httpMethod, p.url, p.data);
        var kept := if Truthy(p.cancelPrevious) then old(taskMap) - {id} else old(taskMap);
        && aborted == old(aborted) + (if Truthy(p.cancelPrevious) && id in old(taskMap) then {old(taskMap)[id]} else {})
        && (calls[c] == Suppressed <==> id in old(pending) && !Truthy(p.tokenRefreshed))
        && (calls[c] == Suppressed ==>
              taskMap == kept && pending == old(pending) && nextTask == old(nextTask) && loading.count == old(loading.count))
        && (calls[c] != Suppressed ==>
              && calls[c] == InFlight(p, retryCount, id, old(nextTask))
              && taskMap == kept[id := old(nextTask)] && pending == old(pending) + {id}
              && nextTask == old(nextTask) + 1)
      ensures toasts == old(toasts) && lastErrorTime == old(lastErrorTime) && lastErrorMessage == old(lastErrorMessage)
    {
      var id := GenerateRequestId(p.httpMethod, p.url, p.data);
      if Truthy(p.cancelPrevious) {
        CancelRequest(id);
      }
      if id in pending && !Truthy(p.tokenRefreshed) {
        SetCall(c, Suppressed);
        return;
      }
      Launch(c, p, retryCount, id);
    }

    /** Marks `id` pending, shows the loading indicator, and starts the next transport task for call `c`. */
    method Launch(c: nat, p: RequestOptions, retryCount: nat, id: string)
      requires Core() && c < |calls| && retryCount <= MaxRetryCount
      requires id == GenerateRequestId(p.httpMethod, p.url, p.data)
      modifies this, loading
      ensures Core() && calls == old(calls)[c := InFlight(p, retryCount, id, old(nextTask))]
      ensures taskMap == old(taskMap)[id := old(nextTask)] && pending == old(pending) + {id}
      ensures nextTask == old(nextTask) + 1 && aborted == old(aborted)
      ensures toasts == old(toasts) && lastErrorTime == old(lastErrorTime) && lastErrorMessage == old(lastErrorMessage)
    {
      pending := pending + {id};
      var task := nextTask;
      nextTask := nextTask + 1;
      SetCall(c, InFlight(p, retryCount, id, task));
      taskMap := taskMap[id := task];
    }

    /** `request(options, retryCount)` for slot `c`: the interceptor, then `Dispatch`. */
    method Start(c: nat, o: RequestOptions, retryCount: nat, env: Option<EnvValues>, now: int, onLoginPage: bool)
      requires Valid() && c < |calls| && !HoldsLoading(calls[c]) && !Waiting(calls[c]) && retryCount <= MaxRetryCount
      modifies this, loading, tm
      ensures Valid() && |calls| == |old(calls)|
      ensures forall j :: 0 <= j < |calls| && j != c ==> calls[j] == old(calls)[j]
      ensures env.None? ==> calls[c] == Settled(Rejected(CreateInterceptorError()))
      ensures env.Some? ==>
        Intercepted(calls[c], PrepareOptions(o, env.value), retryCount, old(tm.TokenLookup(now, onLoginPage)), old(pending))
      ensures ToastedAfter(old(toasts), old(lastErrorTime), old(lastErrorMessage),
                           if env.None? && WantsToast(o) then Some(Str(InterceptorErrorMessage)) else None, now)
      ensures tm.pendingQueue == old(tm.pendingQueue) && tm.redirecting == old(tm.redirecting)
      ensures tm.navigations == old(tm.navigations)
    {
      if env.None? {
        if WantsToast(o) {
          ShowError(Str(InterceptorErrorMessage), now);
        }
        SetCall(c, Settled(Rejected(CreateInterceptorError())));
        return;
      }
      Intercept(c, PrepareOptions(o, env.value), retryCount, now, onLoginPage);
    }

    /** The token step of `requestInterceptor` on prepared options `p`, then `Dispatch`. */
    method Intercept(c: nat, p: RequestOptions, retryCount: nat, now: int, onLoginPage: bool)
      requires Valid() && c < |calls| && !HoldsLoading(calls[c]) && !Waiting(calls[c]) && retryCount <= MaxRetryCount
      modifies this, loading, tm
      ensures Valid() && |calls| == |old(calls)|
      ensures forall j :: 0 <= j < |calls| && j != c ==> calls[j] == old(calls)[j]
      ensures Intercepted(calls[c], p, retryCount, old(tm.TokenLookup(now, onLoginPage)), old(pending))
      ensures toasts == old(toasts) && lastErrorTime == old(lastErrorTime) && lastErrorMessage == old(lastErrorMessage)
      ensures tm.pendingQueue == old(tm.pendingQueue) && tm.redirecting == old(tm.redirecting)
      ensures tm.navigations == old(tm.navigations)
    {
      if IsSkipTokenCheck(p.url) {
        Dispatch(c, p, retryCount);
        return;
      }
      var step := tm.GetValidToken(now, onLoginPage);
      match step
      case TokenReady(token) =>
        Dispatch(c, AddAuthorization(p, token), retryCount);
      case AwaitRefresh =>
        SetCall(c, AwaitingToken(p, retryCount));
    }

    /** Both transport callbacks first drop the id from `requestTaskMap` and `pendingRequests`. */
    method Forget(id: string)
      requires Valid()
      modifies this
      ensures Valid()
      ensures taskMap == old(taskMap) - {id} && pending == old(pending) - {id}
      ensures calls == old(calls) && nextTask == old(nextTask) && aborted == old(aborted)
      ensures toasts == old(toasts) && lastErrorTime == old(lastErrorTime) && lastErrorMessage == old(lastErrorMessage)
    {
      taskMap := taskMap - {id};
      pending := pending - {id};
    }

    /** `request(options)`: a new logical request. */
    method Request(o: RequestOptions, env: Option<EnvValues>, now: int, onLoginPage: bool) returns (c: nat)
      requires Valid()
      modifies this, loading, tm
      ensures Valid()
      ensures c == |old(calls)| && |calls| == c + 1 && calls[..c] == old(calls)
      ensures env.None? ==> calls[c] == Settled(Rejected(CreateInterceptorError()))
      ensures env.Some? ==>
        Intercepted(calls[c], PrepareOptions(o, env.value), 0, old(tm.TokenLookup(now, onLoginPage)), old(pending))
      ensures ToastedAfter(old(toasts), old(lastErrorTime), old(lastErrorMessage),
                           if env.None? && WantsToast(o) then Some(Str(InterceptorErrorMessage)) else None, now)
    {
      LoadingHoldersAppend(calls, Stalled);
      calls := calls + [Stalled];
      c := |calls| - 1;
      Start(c, o, 0, env, now, onLoginPage);
    }

    /** The retry delay has passed: `request(config, retryCount + 1)` in the same slot. */
    method RetryDue(c: nat, env: Option<EnvValues>, now: int, onLoginPage: bool)
      requires Valid() && c < |calls| && calls[c].RetryPending?
      modifies this, loading, tm
      ensures Valid() && |calls| == |old(calls)|
      ensures forall j :: 0 <= j < |calls| && j != c ==> calls[j] == old(calls)[j]
      ensures old(calls[c].retryCount) + 1 == MaxRetryCount
      ensures env.None? ==> calls[c] == Settled(Rejected(CreateInterceptorError()))
      ensures env.Some? ==>
        Intercepted(calls[c], PrepareOptions(old(calls[c].opts), env.value), MaxRetryCount,
                    old(tm.TokenLookup(now, onLoginPage)), old(pending))
      ensures ToastedAfter(old(toasts), old(lastErrorTime), old(lastErrorMessage),
                           if env.None? && WantsToast(old(calls[c].opts)) then Some(Str(InterceptorErrorMessage)) else None, now)
    {
      var s := calls[c];
      Start(c, s.opts, s.retryCount + 1, env, now, onLoginPage);
    }

    /**
     * The transport's `success` callback: the id leaves the map and the pending
     * set, then the response interceptor's verdict decides.
     */
    method TransportSuccess(c: nat, status: int, body: Value, now: int, onLoginPage: bool)
      requires Valid() && c < |calls| && calls[c].InFlight?
      modifies this, loading, tm
      ensures Valid() && |calls| == |old(calls)|
      ensures forall j :: 0 <= j < |calls| && j != c ==> calls[j] == old(calls)[j]
      ensures taskMap == old(taskMap) - {old(calls[c].id)} && pending == old(pending) - {old(calls[c].id)}
      ensures var cls := ResponseInterceptor(status, body);
        cls.Passed? && Dispose(cls.v, WantsToast(old(calls[c].opts))).Settle? ==>
          calls[c] == Settled(Dispose(cls.v, WantsToast(old(calls[c].opts))).outcome)
      ensures var cls := ResponseInterceptor(status, body);
        cls.Passed? && Dispose(cls.v, WantsToast(old(calls[c].opts))).RefreshRetry? ==>
          calls[c] == (if old(calls[c].retryCount) >= MaxRetryCount
                       then Settled(Rejected(CreateRequestError(Str(RetryExceededMessage)))) else Stalled)
      ensures var cls := ResponseInterceptor(status, body);
        var canRefresh := Truthy(old(tm.GetRefreshToken())) && old(tm.config.enableAutoRefresh);
        && (cls.Unauthorized? && !canRefresh ==> calls[c] == Settled(Rejected(SilentError(UnauthorizedMessage))))
        && (cls.Unauthorized? && canRefresh && old(tm.phase).Refreshing? ==>
              calls[c] == Queued(old(calls[c].opts), old(calls[c].retryCount))
              && tm.pendingQueue == old(tm.pendingQueue) + [Waiter(c, old(calls[c].opts))])
        && (cls.Unauthorized? && canRefresh && old(tm.phase).Idle? ==>
              calls[c] == AwaitingRefresh(old(calls[c].opts), old(calls[c].retryCount)) && tm.phase == Refreshing(true))
      ensures var cls := ResponseInterceptor(status, body);
        ToastedAfter(old(toasts), old(lastErrorTime), old(lastErrorMessage),
                     if cls.Passed? then ToastOf(Dispose(cls.v, WantsToast(old(calls[c].opts)))) else None, now)
      ensures var canRefresh := Truthy(old(tm.GetRefreshToken())) && old(tm.config.enableAutoRefresh);
        Redirected(tm.redirecting, tm.navigations, old(tm.redirecting), old(tm.navigations), onLoginPage,
                   ResponseInterceptor(status, body).Unauthorized? && !canRefresh)
    {
      var s := calls[c];
      Forget(s.id);
      var cls := ResponseInterceptor(status, body);
      match cls
      case Unauthorized => HandleUnauthorized(c, onLoginPage);
      case Passed(v) => HandleResult(c, v, now);
    }

    /** `handleUnauthorized(config)` for call `c`. */
    method HandleUnauthorized(c: nat, onLoginPage: bool)
      requires Valid() && c < |calls| && calls[c].InFlight?
      modifies this, loading, tm
      ensures Valid() && |calls| == |old(calls)| && calls == old(calls)[c := calls[c]]
      ensures taskMap == old(taskMap) && pending == old(pending)
      ensures var canRefresh := Truthy(old(tm.GetRefreshToken())) && old(tm.config.enableAutoRefresh);
        && (!canRefresh ==> calls[c] == Settled(Rejected(SilentError(UnauthorizedMessage))))
        && (canRefresh && old(tm.phase).Refreshing? ==>
              calls[c] == Queued(old(calls[c].opts), old(calls[c].retryCount))
              && tm.pendingQueue == old(tm.pendingQueue) + [Waiter(c, old(calls[c].opts))])
        && (canRefresh && old(tm.phase).Idle? ==>
              calls[c] == AwaitingRefresh(old(calls[c].opts), old(calls[c].retryCount)) && tm.phase == Refreshing(true))
      ensures var canRefresh := Truthy(old(tm.GetRefreshToken())) && old(tm.config.enableAutoRefresh);
        Redirected(tm.redirecting, tm.navigations, old(tm.redirecting), old(tm.navigations), onLoginPage, !canRefresh)
      ensures toasts == old(toasts) && lastErrorTime == old(lastErrorTime) && lastErrorMessage == old(lastErrorMessage)
    {
      var s := calls[c];
      if !Truthy(tm.GetRefreshToken()) || !tm.config.enableAutoRefresh {
        tm.SafeRedirectToLogin(onLoginPage);
        SetCall(c, Settled(Rejected(SilentError(UnauthorizedMessage))));
      } else if tm.phase.Refreshing? {
        tm.AddToQueue(Waiter(c, s.opts));
        SetCall(c, Queued(s.opts, s.retryCount));
      } else {
        tm.RefreshToken();
        SetCall(c, AwaitingRefresh(s.opts, s.retryCount));
      }
    }

    /** What `request` does with a result the response interceptor passed on. */
    method HandleResult(c: nat, v: Value, now: int)
      requires Valid() && c < |calls| && calls[c].InFlight?
      modifies this, loading
      ensures Valid() && |calls| == |old(calls)| && calls == old(calls)[c := calls[c]]
      ensures taskMap == old(taskMap) && pending == old(pending)
      ensures var d := Dispose(v, WantsToast(old(calls[c].opts)));
        d.Settle? ==> calls[c] == Settled(d.outcome)
      ensures Dispose(v, WantsToast(old(calls[c].opts))).RefreshRetry? ==>
        calls[c] == (if old(calls[c].retryCount) >= MaxRetryCount
                     then Settled(Rejected(CreateRequestError(Str(RetryExceededMessage)))) else Stalled)
      ensures ToastedAfter(old(toasts), old(lastErrorTime), old(lastErrorMessage),
                           ToastOf(Dispose(v, WantsToast(old(calls[c].opts)))), now)
    {
      var s := calls[c];
      var d := Dispose(v, WantsToast(s.opts));
      if d.Settle? {
        if d.toast.Some? {
          ShowError(d.toast.value, now);
        }
        EndCall(c, Settled(d.outcome));
      } else {
        var step := RetryDecision(s.retryCount);
        if step.GiveUp? {
          EndCall(c, Settled(Rejected(step.error)));
        } else {
          EndCall(c, Stalled);
        }
      }
    }

    /** Moves call `c` to a final state; the call no longer waits on a refresh. */
    method EndCall(c: nat, x: CallState)
      requires Valid() && c < |calls| && (x.Settled? || x.Stalled?)
      modifies this, loading
      ensures Valid() && calls == old(calls)[c := x]
      ensures taskMap == old(taskMap) && pending == old(pending) && nextTask == old(nextTask) && aborted == old(aborted)
      ensures toasts == old(toasts) && lastErrorTime == old(lastErrorTime) && lastErrorMessage == old(lastErrorMessage)
    {
      SetCall(c, x);
    }

    /** The transport's `fail` callback: an abort is a cancellation, anything else a network error. */
    method TransportFail(c: nat, errMsg: string, now: int)
      requires Valid() && c < |calls| && calls[c].InFlight?
      modifies this, loading
      ensures Valid() && |calls| == |old(calls)|
      ensures forall j :: 0 <= j < |calls| && j != c ==> calls[j] == old(calls)[j]
      ensures taskMap == old(taskMap) - {old(calls[c].id)} && pending == old(pending) - {old(calls[c].id)}
      ensures IsAbort(errMsg) ==> calls[c] == Settled(Rejected(CancelledError()))
      ensures !IsAbort(errMsg) ==> calls[c] == Settled(Rejected(CreateNetworkError()))
      ensures ToastedAfter(old(toasts), old(lastErrorTime), old(lastErrorMessage),
                           if !IsAbort(errMsg) && WantsToast(old(calls[c].opts)) then Some(Str(NetworkErrorMessage)) else None, now)
    {
      var s := calls[c];
      Forget(s.id);
      if IsAbort(errMsg) {
        EndCall(c, Settled(Rejected(CancelledError())));
      } else {
        EndCall(c, Settled(Rejected(CreateNetworkError())));
        if WantsToast(s.opts) {
          ShowError(Str(NetworkErrorMessage), now);
        }
      }
    }

    /** A call woken by the end of the refresh; a failed refresh also redirects to the login page. */
    method Resume(c: nat, ok: bool, onLoginPage: bool)
      requires Core() && c < |calls| && (calls[c].Queued? || calls[c].AwaitingRefresh?)
      modifies this, loading, tm
      ensures Core()
      ensures calls == old(calls)[c := AfterRefresh(old(calls[c]), ok)]
      ensures taskMap == old(taskMap) && pending == old(pending) && nextTask == old(nextTask)
      ensures tm.phase == old(tm.phase) && tm.pendingQueue == old(tm.pendingQueue)
      ensures Redirected(tm.redirecting, tm.navigations, old(tm.redirecting), old(tm.navigations), onLoginPage, !ok)
      ensures toasts == old(toasts) && lastErrorTime == old(lastErrorTime) && lastErrorMessage == old(lastErrorMessage)
    {
      var s := calls[c];
      if !ok {
        tm.SafeRedirectToLogin(onLoginPage);
      }
      SetCall(c, AfterRefresh(s, ok));
    }

    /**
     * The refresh in flight ends.  The token manager settles its queue, then
     * every other call waiting on the refresh moves on: 401s are retried or
     * rejected, interceptors waiting for a token continue with the refreshed
     * token (or none).  A failed network call logs out and redirects, and so
     * does every 401 the failed refresh rejects.
     */
    method RefreshSettled(networkOk: bool, now: int, onLoginPage: bool) returns (ok: bool)
      requires Valid() && tm.phase.Refreshing?
      modifies this, loading, tm, tm.st
      ensures Valid() && tm.phase.Idle? && tm.pendingQueue == []
      ensures ok == (old(tm.phase).hadRefreshToken && networkOk)
      ensures |calls| == |old(calls)|
      ensures forall i :: 0 <= i < |calls| ==> !Waiting(calls[i])
      ensures forall i :: 0 <= i < |calls| && !Waiting(old(calls)[i]) ==> calls[i] == old(calls)[i]
      ensures forall i :: 0 <= i < |calls| && (old(calls)[i].Queued? || old(calls)[i].AwaitingRefresh?) ==>
        calls[i] == AfterRefresh(old(calls)[i], ok)
      ensures forall i :: 0 <= i < |calls| && old(calls)[i].AwaitingToken? ==>
        SentAfterRefresh(calls[i], old(calls)[i], tm.TokenAfterRefresh(ok))
      ensures old(tm.phase).hadRefreshToken && !networkOk ==> forall t :: !tm.IsLoggedIn(t)
      ensures Redirected(tm.redirecting, tm.navigations, old(tm.redirecting), old(tm.navigations), onLoginPage,
                         (old(tm.phase).hadRefreshToken && !networkOk) || (!ok && HasRefreshWaiter(old(calls), |old(calls)|)))
    {
      var results;
      ok, results := tm.SettleRefresh(networkOk, onLoginPage);
      ghost var r1, n1 := tm.redirecting, tm.navigations;
      ResumeQueued(results, ok, onLoginPage);
      ghost var r2, n2 := tm.redirecting, tm.navigations;
      RedirectedTwice(old(tm.redirecting), old(tm.navigations), r1, n1, r2, n2, onLoginPage,
                      old(tm.phase).hadRefreshToken && !networkOk, !ok && QueuedNamed(old(calls), results));
      ghost var mid := calls;
      ResumeOthers(ok, onLoginPage);
      RedirectedTwice(old(tm.redirecting), old(tm.navigations), r2, n2, tm.redirecting, tm.navigations, onLoginPage,
                      (old(tm.phase).hadRefreshToken && !networkOk) || (!ok && QueuedNamed(old(calls), results)),
                      !ok && HasRefreshWaiter(mid, |mid|));
      RefreshWaitersSplit(old(calls), mid, results, ok, |mid|);
    }

    /** The queue's waiters: each `Queued` call it names is resumed. */
    method ResumeQueued(results: seq<WaiterResult>, ok: bool, onLoginPage: bool)
      requires Core() && tm.phase.Idle? && tm.pendingQueue == []
      modifies this, loading, tm
      ensures Core() && tm.phase.Idle? && tm.pendingQueue == [] && |calls| == |old(calls)|
      ensures forall i :: 0 <= i < |calls| ==>
        calls[i] == (if i in Named(results) && old(calls)[i].Queued? then AfterRefresh(old(calls)[i], ok) else old(calls)[i])
      ensures Redirected(tm.redirecting, tm.navigations, old(tm.redirecting), old(tm.navigations), onLoginPage,
                         !ok && QueuedNamed(old(calls), results))
      ensures taskMap == old(taskMap) && pending == old(pending) && nextTask == old(nextTask)
    {
      ghost var c0, redirecting0, navigations0 := calls, tm.redirecting, tm.navigations;
      ghost var happened := false;
      var k := 0;
      while k < |results|
        invariant 0 <= k <= |results|
        invariant Core() && tm.phase.Idle? && tm.pendingQueue == []
        invariant QueueResumed(calls, c0, Named(results[..k]), ok)
        invariant happened == (!ok && QueuedNamed(c0, results[..k]))
        invariant Redirected(tm.redirecting, tm.navigations, redirecting0, navigations0, onLoginPage, happened)
        invariant taskMap == old(taskMap) && pending == old(pending) && nextTask == old(nextTask)
      {
        var r := results[k];
        ghost var r1, n1, before := tm.redirecting, tm.navigations, calls;
        ghost var step := !ok && r.call < |before| && before[r.call].Queued?;
        ResumeIfQueued(r.call, ok, onLoginPage);
        QueueStep(c0, before, calls, results, k, ok);
        RedirectedTwice(redirecting0, navigations0, r1, n1, tm.redirecting, tm.navigations, onLoginPage, happened, step);
        happened := happened || step;
        k := k + 1;
      }
      assert results[..k] == results;
      assert QueueResumed(calls, c0, Named(results), ok);
    }

    /** A waiter the settled queue names is resumed if it is still in the queue. */
    method ResumeIfQueued(c: nat, ok: bool, onLoginPage: bool)
      requires Core() && tm.phase.Idle? && tm.pendingQueue == []
      modifies this, loading, tm
      ensures Core() && tm.phase.Idle? && tm.pendingQueue == []
      ensures calls == if c < |old(calls)| && old(calls)[c].Queued? then old(calls)[c := AfterRefresh(old(calls)[c], ok)] else old(calls)
      ensures Redirected(tm.redirecting, tm.navigations, old(tm.redirecting), old(tm.navigations), onLoginPage,
                         !ok && c < |old(calls)| && old(calls)[c].Queued?)
      ensures taskMap == old(taskMap) && pending == old(pending) && nextTask == old(nextTask)
    {
      if c < |calls| && calls[c].Queued? {
        Resume(c, ok, onLoginPage);
      }
    }

    /** Call `c` after the refresh: a waiting 401 is resumed, a waiting interceptor continues with the token. */
    method ResumeOne(c: nat, ok: bool, onLoginPage: bool)
      requires Core() && tm.phase.Idle? && tm.pendingQueue == [] && c < |calls|
      modifies this, loading, tm
      ensures Core() && tm.phase.Idle? && tm.pendingQueue == [] && |calls| == |old(calls)|
      ensures calls == old(calls)[c := calls[c]] && !Waiting(calls[c])
      ensures !Waiting(old(calls[c])) ==> calls[c] == old(calls[c])
      ensures old(calls[c]).Queued? || old(calls[c]).AwaitingRefresh? ==> calls[c] == AfterRefresh(old(calls[c]), ok)
      ensures old(calls[c]).AwaitingToken? ==>
        DispatchedAs(calls[c], AddAuthorization(old(calls[c]).opts, tm.TokenAfterRefresh(ok)), old(calls[c]).retryCount,
                     old(pending))
      ensures Redirected(tm.redirecting, tm.navigations, old(tm.redirecting), old(tm.navigations), onLoginPage,
                         !ok && (old(calls[c]).Queued? || old(calls[c]).AwaitingRefresh?))
    {
      var s := calls[c];
      if s.Queued? || s.AwaitingRefresh? {
        Resume(c, ok, onLoginPage);
      } else if s.AwaitingToken? {
        Dispatch(c, AddAuthorization(s.opts, tm.TokenAfterRefresh(ok)), s.retryCount);
      }
    }

    /** Every call still waiting on the refresh, in call order. */
    method ResumeOthers(ok: bool, onLoginPage: bool)
      requires Core() && tm.phase.Idle? && tm.pendingQueue == []
      modifies this, loading, tm
      ensures Core() && tm.phase.Idle? && tm.pendingQueue == [] && |calls| == |old(calls)|
      ensures forall i :: 0 <= i < |calls| ==> !Waiting(calls[i])
      ensures forall i :: 0 <= i < |calls| && !Waiting(old(calls)[i]) ==> calls[i] == old(calls)[i]
      ensures forall i :: 0 <= i < |calls| && (old(calls)[i].Queued? || old(calls)[i].AwaitingRefresh?) ==>
        calls[i] == AfterRefresh(old(calls)[i], ok)
      ensures forall i :: 0 <= i < |calls| && old(calls)[i].AwaitingToken? ==>
        SentAfterRefresh(calls[i], old(calls)[i], tm.TokenAfterRefresh(ok))
      ensures Redirected(tm.redirecting, tm.navigations, old(tm.redirecting), old(tm.navigations), onLoginPage,
                         !ok && HasRefreshWaiter(old(calls), |old(calls)|))
    {
      ghost var c0, redirecting0, navigations0 := calls, tm.redirecting, tm.navigations;
      ghost var token := tm.TokenAfterRefresh(ok);
      ghost var happened := false;
      var i := 0;
      while i < |calls|
        invariant Core() && tm.phase.Idle? && tm.pendingQueue == []
        invariant tm.st.entries == old(tm.st.entries) && tm.TokenAfterRefresh(ok) == token
        invariant 0 <= i <= |c0| && OthersResumed(calls, c0, i, ok, token)
        invariant happened == (!ok && HasRefreshWaiter(c0, i))
        invariant Redirected(tm.redirecting, tm.navigations, redirecting0, navigations0, onLoginPage, happened)
      {
        ghost var r1, n1, before, pending0 := tm.redirecting, tm.navigations, calls, pending;
        ghost var step := !ok && RefreshWaiter(c0[i]);
        ResumeOne(i, ok, onLoginPage);
        OthersStep(c0, before, calls, i, ok, token, pending0);
        RedirectedTwice(redirecting0, navigations0, r1, n1, tm.redirecting, tm.navigations, onLoginPage, happened, step);
        assert HasRefreshWaiter(c0, i + 1) == (HasRefreshWaiter(c0, i) || RefreshWaiter(c0[i]));
        happened := happened || step;
        i := i + 1;
      }
    }
  }
}
