/**
 * Environment resolution and switching (src/utils/env.js).  The selected
 * environment lives under the storage key `APP_ENV_TYPE`; whether the app is
 * the released version and the build-time variables (`import.meta.env`) are
 * inputs.  Each operation is a specification function from the storage
 * contents to a result and the new contents, and a method that performs the
 * same reads and writes on a `Storage` object.
 */
module Env {
  import opened Wrappers
  import opened Strings
  import opened JsValue
  import opened KvStorage
  import opened Interceptors

  const EnvKey: string := "APP_ENV_TYPE"

  /** `VALID_ENV_TYPES`. */
  const ValidEnvTypes: set<string> := {"dev", "prod", "local"}

  /** `isValidEnvType(v)`: a string and one of the three known types. */
  predicate IsValidEnvType(v: Value) {
    v.Str? && v.s in ValidEnvTypes
  }

  lemma ValidEnvTypeIff(v: Value)
    ensures IsValidEnvType(v) <==> v == Str("dev") || v == Str("prod") || v == Str("local")
  {
  }

  /** `uni.getStorageSync('APP_ENV_TYPE')` on the storage contents. */
  function StoredEnv(entries: map<string, Value>): (v: Value)
    ensures EnvKey !in entries ==> v == Str("")
  {
    if EnvKey in entries then entries[EnvKey] else Str("")
  }

  /** `import.meta.env[name]`: `undefined` when the variable is not defined. */
  function BuildVar(buildEnv: map<string, Value>, name: string): Value {
    if name in buildEnv then buildEnv[name] else Undefined
  }

  function DefaultEnv(buildEnv: map<string, Value>): Value {
    BuildVar(buildEnv, "VITE_DEFAULT_ENV")
  }

  /** A result together with the storage contents after the call. */
  datatype Step<+T> = Step(result: Result<T>, entries: map<string, Value>)

  function InvalidConfigMessage(defaultEnv: Value): string {
    "[ENV] 无效的环境配置: " + ToJsString(defaultEnv)
  }

  /**
   * `initializeEnvInStorage()`: a release build removes the key and uses
   * `prod`; otherwise a valid stored type is used as is; otherwise a valid
   * build-time default is stored and used; otherwise it throws.
   */
  function InitializeEnv(entries: map<string, Value>, release: bool, defaultEnv: Value): (r: Step<string>)
    ensures release ==> r == Step(Success("prod"), entries - {EnvKey})
    ensures !release && IsValidEnvType(StoredEnv(entries)) ==> r == Step(Success(StoredEnv(entries).s), entries)
    ensures !release && !IsValidEnvType(StoredEnv(entries)) && IsValidEnvType(defaultEnv) ==>
      r == Step(Success(defaultEnv.s), entries[EnvKey := defaultEnv])
    ensures !release && !IsValidEnvType(StoredEnv(entries)) && !IsValidEnvType(defaultEnv) ==>
      r == Step(Failure(InvalidConfigMessage(defaultEnv)), entries)
  {
    if release then Step(Success("prod"), entries - {EnvKey})
    else
      var stored := StoredEnv(entries);
      if IsValidEnvType(stored) then Step(Success(stored.s), entries)
      else if !Truthy(defaultEnv) || !IsValidEnvType(defaultEnv) then
        Step(Failure(InvalidConfigMessage(defaultEnv)), entries)
      else Step(Success(defaultEnv.s), entries[EnvKey := defaultEnv])
  }

  /**
   * `getCurrentEnvType()`: `prod` in a release build without touching storage,
   * else the stored type when valid, else `initializeEnvInStorage()`.
   */
  function CurrentEnvType(entries: map<string, Value>, release: bool, defaultEnv: Value): (r: Step<string>)
    ensures release ==> r == Step(Success("prod"), entries)
    ensures !release ==> r == InitializeEnv(entries, release, defaultEnv)
  {
    if release then Step(Success("prod"), entries)
    else
      var stored := StoredEnv(entries);
      if IsValidEnvType(stored) then Step(Success(stored.s), entries)
      else InitializeEnv(entries, release, defaultEnv)
  }

  /** The environment type in use is always one of the valid ones, and only `APP_ENV_TYPE` is ever written. */
  lemma CurrentEnvValid(entries: map<string, Value>, release: bool, defaultEnv: Value)
    ensures var r := CurrentEnvType(entries, release, defaultEnv);
      && (r.result.Success? ==> IsValidEnvType(Str(r.result.value)))
      && (forall k :: k != EnvKey ==> (k in r.entries <==> k in entries))
      && (forall k :: k != EnvKey && k in entries ==> r.entries[k] == entries[k])
  {
  }

  /** Asking twice gives the same answer, and the second time writes nothing. */
  lemma CurrentEnvIdempotent(entries: map<string, Value>, release: bool, defaultEnv: Value)
    ensures var r1 := CurrentEnvType(entries, release, defaultEnv);
      var r2 := CurrentEnvType(r1.entries, release, defaultEnv);
      r1.result.Success? ==> r2 == Step(r1.result, r1.entries)
  {
  }

  /**
   * `switchEnv(envType)`: `false` with nothing written for an invalid type;
   * `true` with no further write when it is already current; otherwise the
   * type is stored and the answer is `true`.  The lookup of the current type
   * may itself store the build-time default, or throw.
   */
  function SwitchEnv(entries: map<string, Value>, release: bool, defaultEnv: Value, envType: Value): (r: Step<bool>)
    ensures !IsValidEnvType(envType) ==> r == Step(Success(false), entries)
    ensures IsValidEnvType(envType) ==>
      var c := CurrentEnvType(entries, release, defaultEnv);
      && (c.result.Failure? ==> r == Step(Failure(c.result.error), c.entries))
      && (c.result.Success? && Str(c.result.value) == envType ==> r == Step(Success(true), c.entries))
      && (c.result.Success? && Str(c.result.value) != envType ==> r == Step(Success(true), c.entries[EnvKey := envType]))
  {
    if !IsValidEnvType(envType) then Step(Success(false), entries)
    else
      var c := CurrentEnvType(entries, release, defaultEnv);
      match c.result
      case Failure(e) => Step(Failure(e), c.entries)
      case Success(current) =>
        if Str(current) == envType then Step(Success(true), c.entries)
        else Step(Success(true), c.entries[EnvKey := envType])
  }

  /** Outside a release build, once `switchEnv(e)` succeeds the current type is `e`, read without a write. */
  lemma SwitchThenCurrent(entries: map<string, Value>, defaultEnv: Value, envType: Value)
    requires IsValidEnvType(envType)
    requires SwitchEnv(entries, false, defaultEnv, envType).result == Success(true)
    ensures var after := SwitchEnv(entries, false, defaultEnv, envType).entries;
      CurrentEnvType(after, false, defaultEnv) == Step(Success(envType.s), after)
  {
    var c := CurrentEnvType(entries, false, defaultEnv);
    if Str(c.result.value) == envType {
      assert StoredEnv(c.entries) == envType;
    }
  }

  /** A release build ignores the switch: the current type stays `prod`. */
  lemma SwitchIgnoredInRelease(entries: map<string, Value>, defaultEnv: Value, envType: Value)
    ensures var after := SwitchEnv(entries, true, defaultEnv, envType).entries;
      CurrentEnvType(after, true, defaultEnv).result == Success("prod")
  {
  }

  /** What `getConfig()` returns. */
  datatype Config = Config(apiBaseUrl: Value, tenantId: Value, loginUserType: Value, appName: Value, envType: string)

  /** `getConfig()`: the base URL comes from `VITE_<TYPE>_API_BASE_URL` of the current type. */
  function GetConfig(entries: map<string, Value>, release: bool, buildEnv: map<string, Value>): (r: Step<Config>)
    ensures var c := CurrentEnvType(entries, release, DefaultEnv(buildEnv));
      && r.entries == c.entries
      && (r.result.Success? <==> c.result.Success?)
      && (r.result.Success? ==>
            && r.result.value.envType == c.result.value
            && r.result.value.apiBaseUrl == BuildVar(buildEnv, "VITE_" + ToUpper(c.result.value) + "_API_BASE_URL")
            && r.result.value.tenantId == BuildVar(buildEnv, "VITE_TENANT_ID")
            && r.result.value.loginUserType == BuildVar(buildEnv, "VITE_LOGIN_USER_TYPE")
            && r.result.value.appName == BuildVar(buildEnv, "VITE_APP_NAME"))
  {
    var c := CurrentEnvType(entries, release, DefaultEnv(buildEnv));
    match c.result
    case Failure(e) => Step(Failure(e), c.entries)
    case Success(t) =>
      Step(Success(Config(
        BuildVar(buildEnv, "VITE_" + ToUpper(t) + "_API_BASE_URL"),
        BuildVar(buildEnv, "VITE_TENANT_ID"),
        BuildVar(buildEnv, "VITE_LOGIN_USER_TYPE"),
        BuildVar(buildEnv, "VITE_APP_NAME"),
        t)), c.entries)
  }

  /**
   * Outside a release build, after a successful `switchEnv(e)` the
   * configuration is that of `e`: its own base URL, the shared build variables.
   */
  lemma SwitchThenConfig(entries: map<string, Value>, buildEnv: map<string, Value>, envType: Value)
    requires IsValidEnvType(envType)
    requires SwitchEnv(entries, false, DefaultEnv(buildEnv), envType).result == Success(true)
    ensures var after := SwitchEnv(entries, false, DefaultEnv(buildEnv), envType).entries;
      GetConfig(after, false, buildEnv) == Step(Success(Config(
        BuildVar(buildEnv, "VITE_" + ToUpper(envType.s) + "_API_BASE_URL"),
        BuildVar(buildEnv, "VITE_TENANT_ID"),
        BuildVar(buildEnv, "VITE_LOGIN_USER_TYPE"),
        BuildVar(buildEnv, "VITE_APP_NAME"),
        envType.s)), after)
  {
    SwitchThenCurrent(entries, DefaultEnv(buildEnv), envType);
  }

  /** A second `getConfig()` right after a successful one sees the same configuration and writes nothing. */
  lemma ConfigStable(entries: map<string, Value>, release: bool, buildEnv: map<string, Value>)
    ensures var g := GetConfig(entries, release, buildEnv);
      g.result.Success? ==> GetConfig(g.entries, release, buildEnv) == g
  {
    CurrentEnvIdempotent(entries, release, DefaultEnv(buildEnv));
  }

  /**
   * The values the interceptors read: `getAPIBaseURL()`, `getTenantID()` and
   * `getLoginUserType()` each call `getConfig()`; by `ConfigStable` all three
   * see the configuration of the first call.
   */
  function InterceptorEnv(entries: map<string, Value>, release: bool, buildEnv: map<string, Value>): (r: Option<EnvValues>)
    ensures var g := GetConfig(entries, release, buildEnv);
      && (r.Some? <==> g.result.Success?)
      && (r.Some? ==> r.value == EnvValues(g.result.value.apiBaseUrl, g.result.value.tenantId, g.result.value.loginUserType))
  {
    var g := GetConfig(entries, release, buildEnv);
    match g.result
    case Failure(_) => None
    case Success(cfg) => Some(EnvValues(cfg.apiBaseUrl, cfg.tenantId, cfg.loginUserType))
  }

  /** `getCurrentEnvInfo()`. */
  datatype EnvInfo = EnvInfo(envType: string, name: string, isDev: bool, isProd: bool, isLocal: bool, canSwitch: bool)

  /** The display name table, with its fallback. */
  function EnvName(t: string): (name: string)
    ensures name == "未知环境" <==> t !in ValidEnvTypes
  {
    if t == "dev" then "测试环境"
    else if t == "prod" then "生产环境"
    else if t == "local" then "本地环境"
    else "未知环境"
  }

  function CurrentEnvInfo(entries: map<string, Value>, release: bool, defaultEnv: Value): (r: Step<EnvInfo>)
    ensures var c := CurrentEnvType(entries, release, defaultEnv);
      && r.entries == c.entries
      && (r.result.Success? <==> c.result.Success?)
      && (r.result.Success? ==>
            var info := r.result.value;
            && info.envType == c.result.value
            && (info.isDev <==> info.envType == "dev")
            && (info.isProd <==> info.envType == "prod")
            && (info.isLocal <==> info.envType == "local")
            && info.canSwitch == !release
            && info.name == EnvName(info.envType))
  {
    var c := CurrentEnvType(entries, release, defaultEnv);
    CurrentEnvValid(entries, release, defaultEnv);
    match c.result
    case Failure(e) => Step(Failure(e), c.entries)
    case Success(t) =>
      Step(Success(EnvInfo(t, EnvName(t), t == "dev", t == "prod", t == "local", !release)), c.entries)
  }

  /**
   * Exactly one of `isDev`, `isProd` and `isLocal` holds, the name is never the
   * fallback, and a release build reports production and forbids switching.
   */
  lemma EnvInfoExactlyOne(entries: map<string, Value>, release: bool, defaultEnv: Value)
    ensures var r := CurrentEnvInfo(entries, release, defaultEnv);
      r.result.Success? ==>
        var info := r.result.value;
        && (if info.isDev then 1 else 0) + (if info.isProd then 1 else 0) + (if info.isLocal then 1 else 0) == 1
        && info.name != "未知环境"
        && (release ==> info.isProd && info.name == "生产环境" && !info.canSwitch)
  {
    CurrentEnvValid(entries, release, defaultEnv);
  }

  /** `initializeEnvInStorage()` on the platform storage. */
  method InitializeEnvInStorage(st: Storage, release: bool, defaultEnv: Value) returns (r: Result<string>)
    modifies st
    ensures Step(r, st.entries) == InitializeEnv(old(st.entries), release, defaultEnv)
  {
    if release {
      st.Remove(EnvKey);
      return Success("prod");
    }
    var stored := st.Get(EnvKey);
    if IsValidEnvType(stored) {
      return Success(stored.s);
    }
    if !Truthy(defaultEnv) || !IsValidEnvType(defaultEnv) {
      return Failure(InvalidConfigMessage(defaultEnv));
    }
    st.Set(EnvKey, defaultEnv);
    r := Success(defaultEnv.s);
  }

  /** `getCurrentEnvType()` on the platform storage. */
  method GetCurrentEnvType(st: Storage, release: bool, defaultEnv: Value) returns (r: Result<string>)
    modifies st
    ensures Step(r, st.entries) == CurrentEnvType(old(st.entries), release, defaultEnv)
  {
    if release {
      return Success("prod");
    }
    var stored := st.Get(EnvKey);
    if IsValidEnvType(stored) {
      return Success(stored.s);
    }
    r := InitializeEnvInStorage(st, release, defaultEnv);
  }

  /** `switchEnv(envType)` on the platform storage. */
  method SwitchEnvInStorage(st: Storage, release: bool, defaultEnv: Value, envType: Value) returns (r: Result<bool>)
    modifies st
    ensures Step(r, st.entries) == SwitchEnv(old(st.entries), release, defaultEnv, envType)
  {
    if !IsValidEnvType(envType) {
      return Success(false);
    }
    var current := GetCurrentEnvType(st, release, defaultEnv);
    if current.Failure? {
      return Failure(current.error);
    }
    if Str(current.value) == envType {
      return Success(true);
    }
    st.Set(EnvKey, envType);
    r := Success(true);
  }
}
