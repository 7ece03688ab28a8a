/**
 * The platform's synchronous key/value storage (`uni.getStorageSync`,
 * `uni.setStorageSync`, `uni.removeStorageSync`), shared by the token manager,
 * the session store, the environment switch and the page caches.
 */
module KvStorage {
  import opened JsValue

  class Storage {
    var entries: map<string, Value>

    constructor ()
      ensures entries == map[]
    {
      entries := map[];
    }

    /** `getStorageSync(key)`: the stored value, or `''` when the key is absent. */
    function Get(key: string): (v: Value)
      reads this
      ensures key in entries ==> v == entries[key]
      ensures key !in entries ==> v == Str("")
    {
      if key in entries then entries[key] else Str("")
    }

    method Set(key: string, v: Value)
      modifies this
      ensures entries == old(entries)[key := v]
    {
      entries := entries[key := v];
    }

    method Remove(key: string)
      modifies this
      ensures entries == old(entries) - {key}
    {
      entries := entries - {key};
    }
  }
}
