/**
 * The reference-counted loading indicator.  src/api/core/request.js and
 * src/api/upload.js each keep their own counter with the same `showLoading` /
 * `hideLoading` logic; each is an instance of this class.
 */
module Loading {
  class LoadingIndicator {
    /** `loadingCount`. */
    var count: nat
    /** Whether the platform indicator is on screen. */
    var visible: bool
    /** `uni.showLoading` calls made so far. */
    var shows: nat

    ghost predicate Valid()
      reads this
    {
      visible ==> count > 0
    }

    constructor ()
      ensures Valid() && count == 0 && !visible && shows == 0
    {
      count := 0;
      visible := false;
      shows := 0;
    }

    /** `showLoading()`: the indicator is put up only on the 0 → 1 transition. */
    method Show() returns (displayed: bool)
      requires Valid()
      modifies this
      ensures Valid()
      ensures displayed <==> old(count) == 0
      ensures count == old(count) + 1
      ensures visible == (old(visible) || displayed)
      ensures shows == old(shows) + (if displayed then 1 else 0)
    {
      displayed := count == 0;
      if displayed {
        visible := true;
        shows := shows + 1;
      }
      count := count + 1;
    }

    /** `hideLoading()`: the count never drops below 0; the indicator goes when it reaches 0. */
    method Hide() returns (hidden: bool)
      requires Valid()
      modifies this
      ensures Valid()
      ensures count == if old(count) > 0 then old(count) - 1 else 0
      ensures hidden <==> count == 0
      ensures visible == (old(visible) && !hidden)
      ensures shows == old(shows)
    {
      count := if count > 0 then count - 1 else 0;
      hidden := count == 0;
      if hidden {
        visible := false;
      }
    }

    /** A bare `uni.hideLoading()`, which leaves the count alone. */
    method ForceHide()
      requires Valid()
      modifies this
      ensures Valid()
      ensures !visible && count == old(count) && shows == old(shows)
    {
      visible := false;
    }
  }
}
