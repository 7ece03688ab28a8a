/**
 * The session store (src/store/index.js): whether a user is logged in and
 * the user's profile, mirrored into the platform storage so that a relaunch
 * restores them.  The store shares its storage with the token manager; the
 * current page's route and the clock are inputs, and the delayed token check
 * of `initStore` is a separate method run when its timer fires.
 */
module Store {
  import opened Wrappers
  import opened Strings
  import opened JsValue
  import opened KvStorage
  import opened TokenManagement

  const UserInfoKey: string := "userInfo"
  const IsLoggedInKey: string := "isLoggedIn"

  /** `{ ...userInfo }`: a shallow copy of the profile handed to `login`. */
  function ProfileCopy(info: Value): (r: Value)
    ensures r.Obj? && Truthy(r)
  {
    Merge(Obj([]), info)
  }

  /** The storage after `login(info)`: the copied profile and the flag `true`. */
  function LoginEntries(entries: map<string, Value>, info: Value): map<string, Value> {
    entries[UserInfoKey := ProfileCopy(info)][IsLoggedInKey := Bool(true)]
  }

  /** The storage after `logout()`: the two session keys and the four token keys removed. */
  function LogoutEntries(entries: map<string, Value>): map<string, Value> {
    entries - {UserInfoKey, IsLoggedInKey} - {TokenKey, RefreshTokenKey, ExpiresTimeKey, UserIdKey}
  }

  /** What `initStore` restores: the saved profile, when both saved values are truthy. */
  function Restored(entries: map<string, Value>): (r: Option<Value>)
    ensures r.Some? <==> IsLoggedInKey in entries && Truthy(entries[IsLoggedInKey])
                         && UserInfoKey in entries && Truthy(entries[UserInfoKey])
    ensures r.Some? ==> r.value == entries[UserInfoKey]
  {
    var saved := if UserInfoKey in entries then entries[UserInfoKey] else Str("");
    var flag := if IsLoggedInKey in entries then entries[IsLoggedInKey] else Str("");
    if Truthy(flag) && Truthy(saved) then Some(saved) else None
  }

  /** `isOnLoginPage()`: the top page's route mentions `login`; no page is not the login page. */
  predicate IsOnLoginPage(route: Option<string>) {
    route.Some? && Contains(route.value, "login")
  }

  /** The reactive `store` object with its two fields. */
  class SessionStore {
    /** The token manager, whose storage is the store's storage too. */
    const tm: TokenManager
    var isLoggedIn: bool
    var userInfo: Value

    /** Logged in exactly when there is a profile; logged out means `null`. */
    predicate Valid()
      reads this
    {
      (isLoggedIn ==> Truthy(userInfo)) && (!isLoggedIn ==> userInfo == Null)
    }

    constructor (tm: TokenManager)
      ensures this.tm == tm && !isLoggedIn && userInfo == Null && Valid()
    {
      this.tm := tm;
      isLoggedIn := false;
      userInfo := Null;
    }

    /** `login(userInfo)`: logged in with a copy of the profile, both persisted. */
    method Login(info: Value)
      modifies this, tm.st
      ensures isLoggedIn && userInfo == ProfileCopy(info) && Valid()
      ensures tm.st.entries == LoginEntries(old(tm.st.entries), info)
    {
      isLoggedIn := true;
      userInfo := ProfileCopy(info);
      tm.st.Set(UserInfoKey, userInfo);
      tm.st.Set(IsLoggedInKey, Bool(true));
    }

    /** `logout()`: the session is dropped, its keys removed, and the tokens cleared. */
    method Logout()
      modifies this, tm.st
      ensures !isLoggedIn && userInfo == Null && Valid()
      ensures tm.st.entries == LogoutEntries(old(tm.st.entries))
    {
      isLoggedIn := false;
      userInfo := Null;
      tm.st.Remove(UserInfoKey);
      tm.st.Remove(IsLoggedInKey);
      tm.ClearToken();
    }

    /** `updateUserInfo(info)`: merges into the profile and persists it; nothing without a profile. */
    method UpdateUserInfo(info: Value)
      requires Valid()
      modifies this, tm.st
      ensures Valid() && isLoggedIn == old(isLoggedIn)
      ensures !old(isLoggedIn) ==> userInfo == old(userInfo) && tm.st.entries == old(tm.st.entries)
      ensures old(isLoggedIn) ==> userInfo == Merge(old(userInfo), info)
                                  && tm.st.entries == old(tm.st.entries)[UserInfoKey := userInfo]
    {
      if Truthy(userInfo) {
        userInfo := Merge(userInfo, info);
        tm.st.Set(UserInfoKey, userInfo);
      }
    }

    /**
     * `initStore()`: restores the session when both saved values are truthy,
     * and then arms the delayed token check unless on the login page.
     * Returns whether that check was armed.
     */
    method InitStore(route: Option<string>) returns (checkArmed: bool)
      requires Valid()
      modifies this
      ensures Valid()
      ensures Restored(tm.st.entries).Some? ==> isLoggedIn && userInfo == Restored(tm.st.entries).value
      ensures Restored(tm.st.entries).None? ==> isLoggedIn == old(isLoggedIn) && userInfo == old(userInfo)
      ensures checkArmed <==> Restored(tm.st.entries).Some? && !IsOnLoginPage(route)
    {
      var savedUserInfo := tm.st.Get(UserInfoKey);
      var savedIsLoggedIn := tm.st.Get(IsLoggedInKey);
      checkArmed := false;
      if Truthy(savedIsLoggedIn) && Truthy(savedUserInfo) {
        isLoggedIn := true;
        userInfo := savedUserInfo;
        if IsOnLoginPage(route) {
          return;
        }
        checkArmed := true;
      }
    }

    /** The delayed check: off the login page, a session without a live token is logged out. */
    method TokenCheckElapsed(route: Option<string>, now: int) returns (loggedOut: bool)
      modifies this, tm.st
      ensures loggedOut <==> !IsOnLoginPage(route) && !old(tm.IsLoggedIn(now))
      ensures loggedOut ==> !isLoggedIn && userInfo == Null && tm.st.entries == LogoutEntries(old(tm.st.entries))
      ensures !loggedOut ==> isLoggedIn == old(isLoggedIn) && userInfo == old(userInfo)
                             && tm.st.entries == old(tm.st.entries)
    {
      loggedOut := false;
      if IsOnLoginPage(route) {
        return;
      }
      if !tm.IsLoggedIn(now) {
        Logout();
        loggedOut := true;
      }
    }
  }

  /** A relaunch after `login` restores the copied profile. */
  lemma LoginThenRestore(entries: map<string, Value>, info: Value)
    ensures Restored(LoginEntries(entries, info)) == Some(ProfileCopy(info))
  {
  }

  /** A relaunch after `logout` restores nothing. */
  lemma LogoutThenRestore(entries: map<string, Value>)
    ensures Restored(LogoutEntries(entries)) == None
  {
    assert UserInfoKey !in LogoutEntries(entries);
  }

  /** A relaunch after `login` and any `updateUserInfo` restores the merged profile. */
  lemma UpdateThenRestore(entries: map<string, Value>, info: Value, u: Value, update: Value)
    ensures var after := LoginEntries(entries, info);
      Restored(after[UserInfoKey := Merge(u, update)]) == Some(Merge(u, update))
  {
    var after := LoginEntries(entries, info);
    assert after[UserInfoKey := Merge(u, update)][IsLoggedInKey] == Bool(true);
  }

  /** Every value's own entries have distinct keys when its object does. */
  lemma OwnEntriesDistinct(v: Value)
    requires v.Obj? ==> DistinctKeys(v.fields)
    ensures DistinctKeys(OwnEntries(v))
  {
    match v
    case Arr(items) => IndexedFieldsDistinct(items);
    case Str(s) => IndexedFieldsDistinct(seq(|s|, i requires 0 <= i < |s| => Str([s[i]])));
    case _ =>
  }

  /** The copy `login` keeps reads every property of the profile it was given. */
  lemma ProfileCopyReads(info: Value, k: string)
    requires info.Obj? ==> DistinctKeys(info.fields)
    ensures Get(ProfileCopy(info), k) == Lookup(OwnEntries(info), k)
  {
    OwnEntriesDistinct(info);
    LookupSpread([], OwnEntries(info), k);
  }

  /** After `updateUserInfo(info)`, a key of `info` reads as in `info`, any other as before. */
  lemma UpdateReads(u: Value, info: Value, k: string)
    requires info.Obj? ==> DistinctKeys(info.fields)
    ensures Get(Merge(u, info), k) ==
      if k in KeysOf(OwnEntries(info)) then Lookup(OwnEntries(info), k) else Lookup(OwnEntries(u), k)
  {
    OwnEntriesDistinct(info);
    LookupSpread(OwnEntries(u), OwnEntries(info), k);
  }
}
