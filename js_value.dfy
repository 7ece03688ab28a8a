/**
 * JavaScript values as the modelled code sees them: the primitives it tests for,
 * arrays, and plain objects whose own enumerable properties are kept in
 * insertion order. Numbers are integers here.
 */
module JsValue {
  import opened Strings

  datatype Value =
    | Undefined
    | Null
    | Bool(b: bool)
    | Num(n: int)
    | Str(s: string)
    | Arr(items: seq<Value>)
    | Obj(fields: seq<Field>)

  /** One own property of a plain object. */
  datatype Field = Field(key: string, val: Value)

  /** JavaScript truthiness: `undefined`, `null`, `false`, `0` and `''` are falsy. */
  predicate Truthy(v: Value) {
    match v
    case Undefined => false
    case Null => false
    case Bool(b) => b
    case Num(n) => n != 0
    case Str(s) => s != ""
    case Arr(_) => true
    case Obj(_) => true
  }

  predicate IsNullish(v: Value) {
    v.Undefined? || v.Null?
  }

  /** The error `Object.keys` and `Object.values` throw for `null` and `undefined`. */
  const KeysOfNullError: string := "Cannot convert undefined or null to object"

  /** `typeof v === 'object'` (which includes `null`). */
  predicate IsObjectType(v: Value) {
    v.Null? || v.Arr? || v.Obj?
  }

  /** `a || b`. */
  function Or(a: Value, b: Value): (r: Value)
    ensures Truthy(a) ==> r == a
    ensures !Truthy(a) ==> r == b
  {
    if Truthy(a) then a else b
  }

  function KeysOf(fields: seq<Field>): (ks: seq<string>)
    ensures |ks| == |fields| && forall i :: 0 <= i < |fields| ==> ks[i] == fields[i].key
  {
    if |fields| == 0 then [] else [fields[0].key] + KeysOf(fields[1..])
  }

  /** No key occurs twice: what every object built by the runtime satisfies. */
  predicate DistinctKeys(fields: seq<Field>) {
    forall i, j :: 0 <= i < j < |fields| ==> fields[i].key != fields[j].key
  }

  /** The value stored under `k`, `undefined` when there is none. */
  function Lookup(fields: seq<Field>, k: string): (r: Value)
    ensures k !in KeysOf(fields) ==> r == Undefined
  {
    if |fields| == 0 then Undefined
    else if fields[0].key == k then fields[0].val
    else
      assert KeysOf(fields[1..]) == KeysOf(fields)[1..];
      Lookup(fields[1..], k)
  }

  /** In an object with distinct keys, each property reads back its own value. */
  lemma {:induction false} LookupPresent(fields: seq<Field>, i: int)
    requires DistinctKeys(fields) && 0 <= i < |fields|
    ensures Lookup(fields, fields[i].key) == fields[i].val
  {
    if i > 0 {
      assert fields[0].key != fields[i].key;
      LookupPresent(fields[1..], i - 1);
    }
  }

  /** `v[k]` for a value that is not `null` or `undefined`. */
  function Get(v: Value, k: string): (r: Value)
    ensures !v.Obj? ==> r == Undefined
  {
    if v.Obj? then Lookup(v.fields, k) else Undefined
  }

  /** `v` is a plain object with an own property `k`. */
  predicate Has(v: Value, k: string) {
    v.Obj? && k in KeysOf(v.fields)
  }

  /** `o[k] = x`: an existing property keeps its place, a new one goes last. */
  function SetField(fields: seq<Field>, k: string, x: Value): (r: seq<Field>)
  {
    if |fields| == 0 then [Field(k, x)]
    else if fields[0].key == k then [Field(k, x)] + fields[1..]
    else [fields[0]] + SetField(fields[1..], k, x)
  }

  /** Assigning an existing key keeps the key order; a new key goes last. */
  lemma {:induction false} KeysSetField(fields: seq<Field>, k: string, x: Value)
    ensures k in KeysOf(fields) ==> KeysOf(SetField(fields, k, x)) == KeysOf(fields)
    ensures k !in KeysOf(fields) ==> KeysOf(SetField(fields, k, x)) == KeysOf(fields) + [k]
  {
    if |fields| > 0 {
      assert KeysOf(fields) == [fields[0].key] + KeysOf(fields[1..]);
      if fields[0].key != k {
        KeysSetField(fields[1..], k, x);
        var rest := SetField(fields[1..], k, x);
        assert KeysOf([fields[0]] + rest) == [fields[0].key] + KeysOf(rest);
      } else {
        assert KeysOf([Field(k, x)] + fields[1..]) == [k] + KeysOf(fields[1..]);
      }
    }
  }

  lemma {:induction false} LookupSetField(fields: seq<Field>, k: string, x: Value, j: string)
    ensures Lookup(SetField(fields, k, x), j) == if j == k then x else Lookup(fields, j)
  {
    if |fields| > 0 && fields[0].key != k {
      LookupSetField(fields[1..], k, x, j);
    }
  }

  lemma {:induction false} SetFieldKeepsDistinct(fields: seq<Field>, k: string, x: Value)
    requires DistinctKeys(fields)
    ensures DistinctKeys(SetField(fields, k, x))
  {
    KeysSetField(fields, k, x);
    var r := SetField(fields, k, x);
    assert forall i :: 0 <= i < |r| ==> r[i].key == KeysOf(r)[i];
    assert forall i :: 0 <= i < |fields| ==> fields[i].key == KeysOf(fields)[i];
  }

  /** `{...a, ...b}` on property lists: `b`'s properties assigned one by one onto a copy of `a`. */
  function Spread(a: seq<Field>, b: seq<Field>): (r: seq<Field>)
    decreases |b|
  {
    if |b| == 0 then a else Spread(SetField(a, b[0].key, b[0].val), b[1..])
  }

  /** After a spread, a key of `b` reads as in `b` and any other key as in `a`. */
  lemma {:induction false} LookupSpread(a: seq<Field>, b: seq<Field>, k: string)
    requires DistinctKeys(b)
    ensures Lookup(Spread(a, b), k) == if k in KeysOf(b) then Lookup(b, k) else Lookup(a, k)
    decreases |b|
  {
    if |b| > 0 {
      assert KeysOf(b) == [b[0].key] + KeysOf(b[1..]);
      assert DistinctKeys(b[1..]);
      LookupSpread(SetField(a, b[0].key, b[0].val), b[1..], k);
      LookupSetField(a, b[0].key, b[0].val, k);
      if k == b[0].key {
        assert k !in KeysOf(b[1..]);
      }
    }
  }

  /** A spread keeps `a`'s keys in place and adds exactly the keys of `b` that `a` lacks. */
  lemma {:induction false} KeysSpread(a: seq<Field>, b: seq<Field>)
    ensures |Spread(a, b)| >= |a| && KeysOf(Spread(a, b))[..|a|] == KeysOf(a)
    ensures forall k :: k in KeysOf(Spread(a, b)) <==> k in KeysOf(a) || k in KeysOf(b)
    decreases |b|
  {
    if |b| > 0 {
      var a' := SetField(a, b[0].key, b[0].val);
      KeysSetField(a, b[0].key, b[0].val);
      KeysSpread(a', b[1..]);
      assert KeysOf(b) == [b[0].key] + KeysOf(b[1..]);
      assert KeysOf(a')[..|a|] == KeysOf(a);
    }
  }

  lemma {:induction false} SpreadKeepsDistinct(a: seq<Field>, b: seq<Field>)
    requires DistinctKeys(a)
    ensures DistinctKeys(Spread(a, b))
    decreases |b|
  {
    if |b| > 0 {
      SetFieldKeepsDistinct(a, b[0].key, b[0].val);
      SpreadKeepsDistinct(SetField(a, b[0].key, b[0].val), b[1..]);
    }
  }

  /** Properties keyed by position, as arrays and strings expose them. */
  function IndexedFields(items: seq<Value>): (r: seq<Field>)
    ensures |r| == |items|
    ensures forall i :: 0 <= i < |items| ==> r[i] == Field(NatToString(i), items[i])
  {
    seq(|items|, i requires 0 <= i < |items| => Field(NatToString(i), items[i]))
  }

  lemma IndexedFieldsDistinct(items: seq<Value>)
    ensures DistinctKeys(IndexedFields(items))
  {
    var r := IndexedFields(items);
    forall i, j | 0 <= i < j < |r| ensures r[i].key != r[j].key {
      if r[i].key == r[j].key {
        NatToStringInjective(i, j);
      }
    }
  }

  /** The own enumerable properties that `Object.keys`, `Object.values` and spreading see. */
  function OwnEntries(v: Value): (r: seq<Field>)
    ensures v.Obj? ==> r == v.fields
    ensures !v.Obj? && !v.Arr? && !v.Str? ==> r == []
  {
    match v
    case Obj(fields) => fields
    case Arr(items) => IndexedFields(items)
    case Str(s) => IndexedFields(seq(|s|, i requires 0 <= i < |s| => Str([s[i]])))
    case _ => []
  }

  /** `{...a, ...b}`. */
  function Merge(a: Value, b: Value): (r: Value)
    ensures r.Obj?
  {
    Obj(Spread(OwnEntries(a), OwnEntries(b)))
  }

  /** `String(v)`. */
  function ToJsString(v: Value): string {
    match v
    case Undefined => "undefined"
    case Null => "null"
    case Bool(b) => if b then "true" else "false"
    case Num(n) => IntToString(n)
    case Str(s) => s
    case Arr(items) =>
      Join(seq(|items|, i requires 0 <= i < |items| =>
        if IsNullish(items[i]) then "" else ToJsString(items[i])), ",")
    case Obj(_) => "[object Object]"
  }

  /** A JSON string literal (escaping of quotes and control characters is not modelled). */
  function Quote(s: string): string {
    "\"" + s + "\""
  }

  /** `JSON.stringify(v)` for a value that is not `undefined` itself; properties holding `undefined` are skipped. */
  function Json(v: Value): string {
    match v
    case Undefined => "null"
    case Null => "null"
    case Bool(b) => if b then "true" else "false"
    case Num(n) => IntToString(n)
    case Str(s) => Quote(s)
    case Arr(items) =>
      "[" + Join(seq(|items|, i requires 0 <= i < |items| => Json(items[i])), ",") + "]"
    case Obj(fields) =>
      "{" + Join(NonEmpty(seq(|fields|, i requires 0 <= i < |fields| =>
        if fields[i].val.Undefined? then "" else Quote(fields[i].key) + ":" + Json(fields[i].val))), ",") + "}"
  }

  function NonEmpty(parts: seq<string>): (r: seq<string>)
    ensures forall p :: p in r ==> p in parts && p != ""
  {
    if |parts| == 0 then []
    else if parts[0] == "" then NonEmpty(parts[1..])
    else [parts[0]] + NonEmpty(parts[1..])
  }
}
