/**
 * The token manager (src/auth/tokenManager.js): expiry checks over the stored
 * expiry time, a single-flight refresh with a queue of waiting requests, and a
 * guarded redirect to the login page.
 *
 * The asynchronous refresh is split into its start (`RefreshToken`, which
 * records the refresh in progress) and its end (`SettleRefresh`, driven by the
 * outcome of the network call, which the source leaves commented out and is an
 * input here).  The clock and "the current page is the login page" are inputs;
 * the redirect timer and the `reLaunch` completion are events.
 */
module TokenManagement {
  import opened Wrappers
  import opened Strings
  import opened JsValue
  import opened KvStorage
  import opened Interceptors

  /** The manager's `config`; the defaults are the constants of src/config/token.js. */
  datatype TokenConfig = TokenConfig(enableAutoRefresh: bool, bufferTime: int, redirectDelay: int)

  const DefaultTokenConfig := TokenConfig(false, 5 * 60 * 1000, 3000)

  /**
   * The number an expiry value stands for in `Date.now() >= expiresTime`:
   * numbers, booleans and strings of decimal digits convert, anything else is `NaN`.
   */
  function ExpiryNumber(v: Value): (r: Option<int>)
    ensures v.Num? ==> r == Some(v.n)
    ensures v.Undefined? || v.Obj? ==> r.None?
  {
    match v
    case Num(n) => Some(n)
    case Bool(b) => Some(if b then 1 else 0)
    case Null => Some(0)
    case Str(s) =>
      if |s| > 0 && forall i :: 0 <= i < |s| ==> IsDigit(s[i]) then Some(DigitsValue(s)) else None
    case _ => None
  }

  /** `isTokenExpired()`: no stored expiry counts as expired; `NaN` never compares. */
  predicate IsTokenExpired(expires: Value, now: int) {
    !Truthy(expires) || (ExpiryNumber(expires).Some? && now >= ExpiryNumber(expires).value)
  }

  /** `isTokenExpiringSoon()`: expired, or within `bufferTime` of expiring. */
  predicate IsTokenExpiringSoon(expires: Value, now: int, bufferTime: int) {
    !Truthy(expires) || (ExpiryNumber(expires).Some? && now >= ExpiryNumber(expires).value - bufferTime)
  }

  /** With a non-negative buffer, an expired token is also expiring soon. */
  lemma ExpiredImpliesExpiringSoon(expires: Value, now: int, bufferTime: int)
    requires bufferTime >= 0
    ensures IsTokenExpired(expires, now) ==> IsTokenExpiringSoon(expires, now, bufferTime)
  {
  }

  /** A numeric expiry: expired from `expires` on, expiring soon from `expires - bufferTime` on. */
  lemma ExpiryThresholds(n: int, now: int, bufferTime: int)
    requires n != 0
    ensures IsTokenExpired(Num(n), now) <==> now >= n
    ensures IsTokenExpiringSoon(Num(n), now, bufferTime) <==> now >= n - bufferTime
  {
  }

  /** A queued request: the logical call it belongs to and the configuration to retry with. */
  datatype Waiter = Waiter(call: nat, config: RequestOptions)

  /** How a waiter is settled by `_processPendingQueue`. */
  datatype WaiterResult = Resumed(call: nat, config: RequestOptions) | Refused(call: nat)

  /**
   * `_processPendingQueue(error, …)`: every waiter, in enqueue order, rejected
   * when the refresh failed, otherwise resumed with `{...config, _tokenRefreshed: true}`.
   */
  function SettleWaiters(queue: seq<Waiter>, failed: bool): (r: seq<WaiterResult>)
    ensures |r| == |queue|
    ensures forall i :: 0 <= i < |r| ==> r[i].call == queue[i].call && (r[i].Refused? <==> failed)
    ensures forall i :: 0 <= i < |r| && r[i].Resumed? ==>
      r[i].config == queue[i].config.(tokenRefreshed := Bool(true))
  {
    seq(|queue|, i requires 0 <= i < |queue| =>
      if failed then Refused(queue[i].call)
      else Resumed(queue[i].call, queue[i].config.(tokenRefreshed := Bool(true))))
  }

  /** `refreshPromise`: none, or a refresh in flight (noting whether a refresh token was stored when it began). */
  datatype RefreshPhase = Idle | Refreshing(hadRefreshToken: bool)

  /** The first step of `getValidToken()`: a token, or the need to wait for a refresh. */
  datatype TokenStep = TokenReady(token: Value) | AwaitRefresh

  /** The first step of `checkOnAppResume()`: an answer, or the need to wait for a refresh. */
  datatype ResumeStep = ResumeDone(ok: bool) | ResumeAwaitRefresh

  const TokenKey := "token"
  const RefreshTokenKey := "refreshToken"
  const ExpiresTimeKey := "expiresTime"
  const UserIdKey := "userId"

  class TokenManager {
    const st: Storage
    var phase: RefreshPhase
    var pendingQueue: seq<Waiter>
    var redirecting: bool
    var config: TokenConfig
    /** Redirect timers armed and not yet elapsed. */
    var redirectTimers: nat
    /** `reLaunch` calls whose completion has not yet been reported. */
    var relaunchesInFlight: nat
    /** `reLaunch` calls issued so far. */
    var navigations: nat

    ghost predicate Valid()
      reads this
    {
      && (phase.Idle? ==> pendingQueue == [])
      && (redirecting ==> redirectTimers > 0)
    }

    constructor (storage: Storage)
      ensures st == storage && Valid()
      ensures phase == Idle && pendingQueue == [] && !redirecting && config == DefaultTokenConfig
      ensures redirectTimers == 0 && relaunchesInFlight == 0 && navigations == 0
    {
      st := storage;
      phase := Idle;
      pendingQueue := [];
      redirecting := false;
      config := DefaultTokenConfig;
      redirectTimers := 0;
      relaunchesInFlight := 0;
      navigations := 0;
    }

    /** `configure(options)`: the given settings override the current ones. */
    method Configure(enableAutoRefresh: Option<bool>, bufferTime: Option<int>, redirectDelay: Option<int>)
      modifies this
      ensures config.enableAutoRefresh == (if enableAutoRefresh.Some? then enableAutoRefresh.value else old(config.enableAutoRefresh))
      ensures config.bufferTime == (if bufferTime.Some? then bufferTime.value else old(config.bufferTime))
      ensures config.redirectDelay == (if redirectDelay.Some? then redirectDelay.value else old(config.redirectDelay))
      ensures phase == old(phase) && pendingQueue == old(pendingQueue) && redirecting == old(redirecting)
      ensures redirectTimers == old(redirectTimers) && relaunchesInFlight == old(relaunchesInFlight)
      ensures navigations == old(navigations)
    {
      if enableAutoRefresh.Some? { config := config.(enableAutoRefresh := enableAutoRefresh.value); }
      if bufferTime.Some? { config := config.(bufferTime := bufferTime.value); }
      if redirectDelay.Some? { config := config.(redirectDelay := redirectDelay.value); }
    }

    method SetAutoRefresh(enabled: bool)
      modifies this
      ensures config == old(config).(enableAutoRefresh := enabled)
      ensures phase == old(phase) && pendingQueue == old(pendingQueue) && redirecting == old(redirecting)
      ensures redirectTimers == old(redirectTimers) && relaunchesInFlight == old(relaunchesInFlight)
      ensures navigations == old(navigations)
    {
      config := config.(enableAutoRefresh := enabled);
    }

    function GetToken(): Value
      reads st
    {
      st.Get(TokenKey)
    }

    function GetRefreshToken(): Value
      reads st
    {
      st.Get(RefreshTokenKey)
    }

    function GetExpiresTime(): Value
      reads st
    {
      st.Get(ExpiresTimeKey)
    }

    /**
     * `getValidToken()` up to its `await`: no token gives null; on the login page
     * or with auto-refresh off the token unless expired; a token expiring soon
     * needs a refresh; otherwise the current token.
     */
    function TokenLookup(now: int, onLoginPage: bool): (r: TokenStep)
      reads this, st
      ensures !Truthy(GetToken()) ==> r == TokenReady(Null)
      ensures r.AwaitRefresh? <==>
        Truthy(GetToken()) && !onLoginPage && config.enableAutoRefresh
        && IsTokenExpiringSoon(GetExpiresTime(), now, config.bufferTime)
      ensures r.TokenReady? && Truthy(r.token) ==> r.token == GetToken()
      ensures r.TokenReady? && Truthy(r.token) ==> !IsTokenExpired(GetExpiresTime(), now) || (!onLoginPage && config.enableAutoRefresh)
      ensures r.TokenReady? && Truthy(GetToken()) ==>
        r.token == (if (onLoginPage || !config.enableAutoRefresh) && IsTokenExpired(GetExpiresTime(), now)
                    then Null else GetToken())
    {
      var token := GetToken();
      if !Truthy(token) then TokenReady(Null)
      else if onLoginPage || !config.enableAutoRefresh then
        TokenReady(if IsTokenExpired(GetExpiresTime(), now) then Null else token)
      else if IsTokenExpiringSoon(GetExpiresTime(), now, config.bufferTime) then AwaitRefresh
      else TokenReady(token)
    }

    /** The token an awaiting `getValidToken()` returns once the refresh settles. */
    function TokenAfterRefresh(ok: bool): (r: Value)
      reads st
      ensures !ok ==> r == Null
      ensures ok ==> r == GetToken()
    {
      if ok then GetToken() else Null
    }

    /**
     * `getValidToken()` yields the stored token without waiting exactly when
     * a token is stored and it is neither expired where no refresh may run
     * (the login page, auto-refresh off) nor due for a refresh where one may.
     */
    lemma ValidTokenIff(now: int, onLoginPage: bool)
      ensures var r := TokenLookup(now, onLoginPage);
        r.TokenReady? && Truthy(r.token) <==>
        && Truthy(GetToken())
        && ((onLoginPage || !config.enableAutoRefresh) ==> !IsTokenExpired(GetExpiresTime(), now))
        && ((!onLoginPage && config.enableAutoRefresh) ==> !IsTokenExpiringSoon(GetExpiresTime(), now, config.bufferTime))
    {
    }

    /** With auto-refresh on, `getValidToken()` never hands out an expired token without refreshing first. */
    lemma NoExpiredTokenWithoutRefresh(now: int, onLoginPage: bool)
      requires config.bufferTime >= 0
      ensures var r := TokenLookup(now, onLoginPage);
        r.TokenReady? && Truthy(r.token) ==> !IsTokenExpired(GetExpiresTime(), now)
    {
      ExpiredImpliesExpiringSoon(GetExpiresTime(), now, config.bufferTime);
    }

    /** `getValidToken()`: starts (or joins) a refresh when the token is expiring soon. */
    method GetValidToken(now: int, onLoginPage: bool) returns (r: TokenStep)
      requires Valid()
      modifies this
      ensures Valid()
      ensures r == old(TokenLookup(now, onLoginPage))
      ensures r.AwaitRefresh? ==> phase.Refreshing?
      ensures r.AwaitRefresh? && old(phase).Idle? ==> phase == Refreshing(Truthy(GetRefreshToken()))
      ensures r.TokenReady? || old(phase).Refreshing? ==> phase == old(phase)
      ensures pendingQueue == old(pendingQueue) && redirecting == old(redirecting) && config == old(config)
      ensures redirectTimers == old(redirectTimers) && relaunchesInFlight == old(relaunchesInFlight)
      ensures navigations == old(navigations)
    {
      r := TokenLookup(now, onLoginPage);
      if r.AwaitRefresh? {
        RefreshToken();
      }
    }

    /** `refreshToken()`: joins the refresh in flight, or starts one. */
    method RefreshToken()
      requires Valid()
      modifies this
      ensures Valid()
      ensures old(phase).Refreshing? ==> phase == old(phase)
      ensures old(phase).Idle? ==> phase == Refreshing(Truthy(GetRefreshToken()))
      ensures pendingQueue == old(pendingQueue) && redirecting == old(redirecting) && config == old(config)
      ensures redirectTimers == old(redirectTimers) && relaunchesInFlight == old(relaunchesInFlight)
      ensures navigations == old(navigations)
    {
      if phase.Idle? {
        phase := Refreshing(Truthy(GetRefreshToken()));
      }
    }

    /** `addToQueue(config)`: the waiter goes to the back of the queue. */
    method AddToQueue(w: Waiter)
      requires Valid() && phase.Refreshing?
      modifies this
      ensures Valid()
      ensures pendingQueue == old(pendingQueue) + [w]
      ensures phase == old(phase) && redirecting == old(redirecting) && config == old(config)
      ensures redirectTimers == old(redirectTimers) && relaunchesInFlight == old(relaunchesInFlight)
      ensures navigations == old(navigations)
    {
      pendingQueue := pendingQueue + [w];
    }

    /** `_processPendingQueue`: settles the waiters in order and empties the queue. */
    method ProcessPendingQueue(failed: bool) returns (results: seq<WaiterResult>)
      modifies this
      ensures results == SettleWaiters(old(pendingQueue), failed)
      ensures pendingQueue == []
      ensures phase == old(phase) && redirecting == old(redirecting) && config == old(config)
      ensures redirectTimers == old(redirectTimers) && relaunchesInFlight == old(relaunchesInFlight)
      ensures navigations == old(navigations)
    {
      var queue := pendingQueue;
      results := [];
      var i := 0;
      while i < |queue|
        invariant 0 <= i <= |queue|
        invariant results == SettleWaiters(queue[..i], failed)
      {
        var w := queue[i];
        var settled := if failed then Refused(w.call) else Resumed(w.call, w.config.(tokenRefreshed := Bool(true)));
        assert queue[..i + 1] == queue[..i] + [w];
        results := results + [settled];
        i := i + 1;
      }
      assert queue[..i] == queue;
      pendingQueue := [];
    }

    /**
     * The end of the refresh started by `refreshToken()`.  It succeeds when a
     * refresh token was stored at its start and the network call succeeds.
     * A missing refresh token fails before the `try`, so only a failed network
     * call clears the tokens and redirects.  Either way the queue is settled
     * and `refreshPromise` is reset.
     */
    method SettleRefresh(networkOk: bool, onLoginPage: bool) returns (ok: bool, results: seq<WaiterResult>)
      requires Valid() && phase.Refreshing?
      modifies this, st
      ensures Valid()
      ensures ok == (old(phase).hadRefreshToken && networkOk)
      ensures results == SettleWaiters(old(pendingQueue), !ok)
      ensures phase == Idle && pendingQueue == [] && config == old(config)
      ensures old(phase).hadRefreshToken && !networkOk ==>
        && st.entries == old(st.entries) - {TokenKey, RefreshTokenKey, ExpiresTimeKey, UserIdKey}
        && forall now :: !IsLoggedIn(now)
      ensures !(old(phase).hadRefreshToken && !networkOk) ==> st.entries == old(st.entries)
      ensures Redirected(redirecting, navigations, old(redirecting), old(navigations), onLoginPage,
                         old(phase).hadRefreshToken && !networkOk)
    {
      var had := phase.hadRefreshToken;
      ok := had && networkOk;
      if had && !networkOk {
        ClearToken();
        SafeRedirectToLogin(onLoginPage);
      }
      results := ProcessPendingQueue(!ok);
      phase := Idle;
    }

    /**
     * `_safeRedirectToLogin()`: nothing while a redirect is under way; otherwise
     * marks one, arms the timer that clears the mark, and navigates unless
     * already on the login page.
     */
    method SafeRedirectToLogin(onLoginPage: bool)
      requires Valid()
      modifies this
      ensures Valid()
      ensures old(redirecting) ==>
        redirectTimers == old(redirectTimers) && relaunchesInFlight == old(relaunchesInFlight)
        && navigations == old(navigations) && redirecting
      ensures !old(redirecting) ==>
        && redirecting && redirectTimers == old(redirectTimers) + 1
        && navigations == old(navigations) + (if onLoginPage then 0 else 1)
        && relaunchesInFlight == old(relaunchesInFlight) + (if onLoginPage then 0 else 1)
      ensures Redirected(redirecting, navigations, old(redirecting), old(navigations), onLoginPage, true)
      ensures phase == old(phase) && pendingQueue == old(pendingQueue) && config == old(config)
    {
      if redirecting {
        return;
      }
      redirecting := true;
      redirectTimers := redirectTimers + 1;
      if !onLoginPage {
        navigations := navigations + 1;
        relaunchesInFlight := relaunchesInFlight + 1;
      }
    }

    /** The redirect timer fires after `redirectDelay`. */
    method RedirectDelayElapsed()
      requires Valid() && redirectTimers > 0
      modifies this
      ensures Valid()
      ensures !redirecting && redirectTimers == old(redirectTimers) - 1
      ensures relaunchesInFlight == old(relaunchesInFlight) && navigations == old(navigations)
      ensures phase == old(phase) && pendingQueue == old(pendingQueue) && config == old(config)
    {
      redirectTimers := redirectTimers - 1;
      redirecting := false;
    }

    /** A `reLaunch` completes; its `fail` callback clears the mark. */
    method ReLaunchCompleted(failed: bool)
      requires Valid() && relaunchesInFlight > 0
      modifies this
      ensures Valid()
      ensures relaunchesInFlight == old(relaunchesInFlight) - 1
      ensures redirecting == (old(redirecting) && !failed)
      ensures redirectTimers == old(redirectTimers) && navigations == old(navigations)
      ensures phase == old(phase) && pendingQueue == old(pendingQueue) && config == old(config)
    {
      relaunchesInFlight := relaunchesInFlight - 1;
      if failed {
        redirecting := false;
      }
    }

    /**
     * `saveToken(tokenData)`: destructuring `null` or `undefined` throws a
     * `TypeError` before anything is stored; any other value has its four
     * properties stored.
     */
    method SaveToken(tokenData: Value) returns (r: Result<()>)
      modifies st
      ensures r.Failure? <==> IsNullish(tokenData)
      ensures r.Failure? ==> r.error == DestructureError(tokenData) && st.entries == old(st.entries)
      ensures r.Success? ==> st.entries == old(st.entries)[TokenKey := Get(tokenData, "accessToken")]
        [RefreshTokenKey := Get(tokenData, "refreshToken")][ExpiresTimeKey := Get(tokenData, "expiresTime")]
        [UserIdKey := Get(tokenData, "userId")]
      ensures r.Success? ==> GetToken() == Get(tokenData, "accessToken")
      ensures r.Success? ==> GetRefreshToken() == Get(tokenData, "refreshToken")
      ensures r.Success? ==> GetExpiresTime() == Get(tokenData, "expiresTime")
    {
      if IsNullish(tokenData) {
        return Failure(DestructureError(tokenData));
      }
      r := Success(());
      st.Set(TokenKey, Get(tokenData, "accessToken"));
      st.Set(RefreshTokenKey, Get(tokenData, "refreshToken"));
      st.Set(ExpiresTimeKey, Get(tokenData, "expiresTime"));
      st.Set(UserIdKey, Get(tokenData, "userId"));
    }

    /** `clearToken()`: the four keys are gone, so nobody is logged in. */
    method ClearToken()
      modifies st
      ensures st.entries == old(st.entries) - {TokenKey, RefreshTokenKey, ExpiresTimeKey, UserIdKey}
      ensures forall now :: !IsLoggedIn(now)
    {
      st.Remove(TokenKey);
      st.Remove(RefreshTokenKey);
      st.Remove(ExpiresTimeKey);
      st.Remove(UserIdKey);
    }

    /** `isLoggedIn()`. */
    predicate IsLoggedIn(now: int)
      reads st
    {
      Truthy(GetToken()) && !IsTokenExpired(GetExpiresTime(), now)
    }

    /**
     * `checkOnAppResume()` up to its `await`: nothing to check on the login
     * page or without a token; a refresh only when one is needed and enabled.
     */
    function ResumeLookup(now: int, onLoginPage: bool): (r: ResumeStep)
      reads this, st
      ensures r.ResumeDone? ==> r.ok
      ensures r.ResumeAwaitRefresh? <==>
        && !onLoginPage && Truthy(GetToken()) && config.enableAutoRefresh
        && (IsTokenExpired(GetExpiresTime(), now) || IsTokenExpiringSoon(GetExpiresTime(), now, config.bufferTime))
    {
      if onLoginPage || !Truthy(GetToken()) then ResumeDone(true)
      else if (IsTokenExpired(GetExpiresTime(), now) || IsTokenExpiringSoon(GetExpiresTime(), now, config.bufferTime))
        && config.enableAutoRefresh then ResumeAwaitRefresh
      else ResumeDone(true)
    }

    /**
     * The value `checkOnAppResume()` resolves with, once the refresh it may
     * wait for has settled with `refreshOk`.
     */
    function ResumeAnswer(now: int, onLoginPage: bool, refreshOk: bool): (r: bool)
      reads this, st
      ensures !r <==> ResumeLookup(now, onLoginPage).ResumeAwaitRefresh? && !refreshOk
    {
      match ResumeLookup(now, onLoginPage)
      case ResumeDone(answer) => answer
      case ResumeAwaitRefresh => refreshOk
    }

    /**
     * `checkOnAppResume()` answers false exactly when a token is stored, the
     * login page is not showing, auto-refresh is on, the token is expired or
     * expiring soon, and the refresh fails.
     */
    lemma ResumeAnswerFalseIff(now: int, onLoginPage: bool, refreshOk: bool)
      ensures !ResumeAnswer(now, onLoginPage, refreshOk) <==>
        && !onLoginPage && Truthy(GetToken()) && config.enableAutoRefresh
        && (IsTokenExpired(GetExpiresTime(), now) || IsTokenExpiringSoon(GetExpiresTime(), now, config.bufferTime))
        && !refreshOk
      ensures config.bufferTime >= 0 ==>
        (!ResumeAnswer(now, onLoginPage, refreshOk) <==>
           !onLoginPage && Truthy(GetToken()) && config.enableAutoRefresh
           && IsTokenExpiringSoon(GetExpiresTime(), now, config.bufferTime) && !refreshOk)
    {
      if config.bufferTime >= 0 {
        ExpiredImpliesExpiringSoon(GetExpiresTime(), now, config.bufferTime);
      }
    }

    /** `checkOnAppResume()`: starts (or joins) a refresh when one is needed; its answer is then the refresh's outcome. */
    method CheckOnAppResume(now: int, onLoginPage: bool) returns (r: ResumeStep)
      requires Valid()
      modifies this
      ensures Valid()
      ensures r == old(ResumeLookup(now, onLoginPage))
      ensures r.ResumeAwaitRefresh? ==> phase.Refreshing?
      ensures r.ResumeDone? ==> phase == old(phase)
      ensures pendingQueue == old(pendingQueue) && redirecting == old(redirecting) && config == old(config)
      ensures redirectTimers == old(redirectTimers) && relaunchesInFlight == old(relaunchesInFlight)
      ensures navigations == old(navigations)
    {
      r := ResumeLookup(now, onLoginPage);
      if r.ResumeAwaitRefresh? {
        RefreshToken();
      }
    }
  }

  /** The `TypeError` text for destructuring `null` or `undefined` (as V8 words it). */
  function DestructureError(v: Value): string {
    "TypeError: Cannot destructure property 'userId' of 'tokenData' as it is "
    + (if v.Null? then "null" else "undefined") + "."
  }

  /**
   * The redirect guard after a step that asks for the login page when
   * `happened` holds: the mark is set, and a navigation is issued unless a
   * redirect was already under way or the login page is showing.  When it
   * does not hold, neither changes.
   */
  predicate Redirected(r: bool, n: nat, r0: bool, n0: nat, onLoginPage: bool, happened: bool) {
    if happened then r && n == n0 + (if r0 || onLoginPage then 0 else 1)
    else r == r0 && n == n0
  }

  /** Two steps in a row redirect as one step that redirects when either does. */
  lemma RedirectedTwice(r0: bool, n0: nat, r1: bool, n1: nat, r2: bool, n2: nat, onLoginPage: bool, h1: bool, h2: bool)
    requires Redirected(r1, n1, r0, n0, onLoginPage, h1)
    requires Redirected(r2, n2, r1, n1, onLoginPage, h2)
    ensures Redirected(r2, n2, r0, n0, onLoginPage, h1 || h2)
  {
  }

  /**
   * While a redirect is under way, further redirect requests navigate nowhere:
   * two requests with no timer or `reLaunch` event between them navigate at most once.
   */
  method RedirectTwice(tm: TokenManager, onLoginPage1: bool, onLoginPage2: bool) returns (navigated: nat)
    requires tm.Valid()
    modifies tm
    ensures tm.Valid()
    ensures navigated == tm.navigations - old(tm.navigations) && navigated <= 1
  {
    var before := tm.navigations;
    tm.SafeRedirectToLogin(onLoginPage1);
    tm.SafeRedirectToLogin(onLoginPage2);
    navigated := tm.navigations - before;
  }
}
