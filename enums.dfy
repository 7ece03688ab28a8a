/**
 * Enumerations and their display names (src/enums/index.js): an enum is a
 * plain object of values, a name map is keyed by the values' string forms,
 * and `enumToOptions` turns the pair into the `{ value, label }` list a
 * picker shows.
 */
module Enums {
  import opened Wrappers
  import opened Strings
  import opened JsValue

  /** `COMMON_STATUS`. */
  const CommonStatus: Value := Obj([Field("DISABLED", Num(0)), Field("ENABLED", Num(1))])

  /** `COMMON_STATUS_NAME`, keyed by the computed keys `[COMMON_STATUS.DISABLED]` and `[COMMON_STATUS.ENABLED]`. */
  const CommonStatusName: Value := Obj([
    Field(ToJsString(Get(CommonStatus, "DISABLED")), Str("禁用")),
    Field(ToJsString(Get(CommonStatus, "ENABLED")), Str("启用"))
  ])

  /** One `{ value, label }` entry; `text` is its `label`. */
  datatype SelectOption = SelectOption(value: Value, text: Value)

  /**
   * `m[k]` for an `m` that is not `null` or `undefined`: an own property, or
   * `undefined` (inherited properties such as `length` are not modelled).
   */
  function PropertyOf(m: Value, k: string): Value {
    Lookup(OwnEntries(m), k)
  }

  /** The error reading a property of `null` or `undefined` throws. */
  function ReadError(m: Value, k: string): string {
    "Cannot read properties of " + ToJsString(m) + " (reading '" + k + "')"
  }

  /** `nameMap[value] || value`. */
  function Label(nameMap: Value, value: Value): (l: Value)
    ensures Truthy(PropertyOf(nameMap, ToJsString(value))) ==> l == PropertyOf(nameMap, ToJsString(value))
    ensures !Truthy(PropertyOf(nameMap, ToJsString(value))) ==> l == value
  {
    Or(PropertyOf(nameMap, ToJsString(value)), value)
  }

  /**
   * `enumToOptions(enumObj, nameMap)`: one option per value of the enum, in
   * order, labelled by its name when the map names it and by the value
   * itself otherwise.  `Object.values` throws for a `null` or `undefined`
   * enum, and the first name lookup throws for a `null` or `undefined` map.
   */
  function EnumToOptions(enumObj: Value, nameMap: Value): (r: Result<seq<SelectOption>>)
    ensures r.Failure? <==> IsNullish(enumObj) || (IsNullish(nameMap) && |OwnEntries(enumObj)| > 0)
    ensures IsNullish(enumObj) ==> r == Failure(KeysOfNullError)
    ensures r.Success? ==> |r.value| == |OwnEntries(enumObj)|
    ensures r.Success? ==> forall i :: 0 <= i < |r.value| ==>
      && r.value[i].value == OwnEntries(enumObj)[i].val
      && r.value[i].text == Label(nameMap, OwnEntries(enumObj)[i].val)
  {
    if IsNullish(enumObj) then Failure(KeysOfNullError)
    else
      var values := OwnEntries(enumObj);
      if |values| > 0 && IsNullish(nameMap) then Failure(ReadError(nameMap, ToJsString(values[0].val)))
      else Success(seq(|values|, i requires 0 <= i < |values| =>
        SelectOption(values[i].val, Label(nameMap, values[i].val))))
  }

  /** A value the map does not name, or names with a falsy string, is its own label. */
  lemma UnnamedIsOwnLabel(enumObj: Value, nameMap: Value, i: nat)
    requires !IsNullish(enumObj) && !IsNullish(nameMap) && i < |OwnEntries(enumObj)|
    requires ToJsString(OwnEntries(enumObj)[i].val) !in KeysOf(OwnEntries(nameMap))
    ensures EnumToOptions(enumObj, nameMap).Success?
    ensures EnumToOptions(enumObj, nameMap).value[i] == SelectOption(OwnEntries(enumObj)[i].val, OwnEntries(enumObj)[i].val)
  {
  }

  /** `COMMON_STATUS_NAME[COMMON_STATUS.DISABLED]` is `禁用`, and likewise for `ENABLED`. */
  lemma CommonStatusNames()
    ensures PropertyOf(CommonStatusName, ToJsString(Get(CommonStatus, "DISABLED"))) == Str("禁用")
    ensures PropertyOf(CommonStatusName, ToJsString(Get(CommonStatus, "ENABLED"))) == Str("启用")
  {
    assert Get(CommonStatus, "DISABLED") == Num(0);
    assert Get(CommonStatus, "ENABLED") == Num(1);
    assert ToJsString(Num(0)) == "0";
    assert ToJsString(Num(1)) == "1";
    var fields := CommonStatusName.fields;
    assert fields[0].key == "0" && fields[1].key == "1";
    assert DistinctKeys(fields);
    LookupPresent(fields, 0);
    LookupPresent(fields, 1);
  }

  /** The options for the common status: disabled, then enabled, each with its name. */
  lemma CommonStatusOptions()
    ensures EnumToOptions(CommonStatus, CommonStatusName)
      == Success([SelectOption(Num(0), Str("禁用")), SelectOption(Num(1), Str("启用"))])
  {
    CommonStatusNames();
    var r := EnumToOptions(CommonStatus, CommonStatusName);
    assert Get(CommonStatus, "DISABLED") == Num(0);
    assert Get(CommonStatus, "ENABLED") == Num(1);
    assert OwnEntries(CommonStatus) == CommonStatus.fields;
    assert |r.value| == 2;
    assert r.value[0] == SelectOption(Num(0), Str("禁用"));
    assert r.value[1] == SelectOption(Num(1), Str("启用"));
    assert r.value == [SelectOption(Num(0), Str("禁用")), SelectOption(Num(1), Str("启用"))];
  }
}
