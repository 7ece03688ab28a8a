/**
 * Request identity (src/api/core/request.js, `getSortedString` and
 * `generateRequestId`): the key under which in-flight requests are
 * de-duplicated and cancelled.
 */
module RequestId {
  import opened Strings
  import opened JsValue

  /** A canonical array index ("0", "7", "42"): a JavaScript engine lists such keys first, in numeric order. */
  predicate IsIndexKey(s: string) {
    |s| >= 1 && (forall i :: 0 <= i < |s| ==> IsDigit(s[i])) && (|s| == 1 || s[0] != '0')
  }

  /**
   * The order in which the keys of the object built from `Object.keys(obj).sort()`
   * come out of `JSON.stringify`: index keys first by numeric value (for
   * canonical digit strings, shorter is smaller), then the other keys by the
   * default string order of `sort()`.
   */
  predicate KeyLe(a: string, b: string) {
    if IsIndexKey(a) && IsIndexKey(b) then |a| < |b| || (|a| == |b| && StrLe(a, b))
    else if IsIndexKey(a) then true
    else if IsIndexKey(b) then false
    else StrLe(a, b)
  }

  lemma KeyLeTotal(a: string, b: string)
    ensures KeyLe(a, b) || KeyLe(b, a)
  {
    StrLeTotal(a, b);
  }

  lemma KeyLeAntisymmetric(a: string, b: string)
    requires KeyLe(a, b) && KeyLe(b, a)
    ensures a == b
  {
    StrLeAntisymmetric(a, b);
  }

  lemma KeyLeTransitive(a: string, b: string, c: string)
    requires KeyLe(a, b) && KeyLe(b, c)
    ensures KeyLe(a, c)
  {
    if StrLe(a, b) && StrLe(b, c) {
      StrLeTransitive(a, b, c);
    }
  }

  predicate Sorted(s: seq<string>) {
    forall i, j :: 0 <= i < j < |s| ==> KeyLe(s[i], s[j])
  }

  function Insert(k: string, s: seq<string>): seq<string> {
    if |s| == 0 then [k]
    else if KeyLe(k, s[0]) then [k] + s
    else [s[0]] + Insert(k, s[1..])
  }

  /** Putting a key no greater than every element in front keeps a sequence sorted. */
  lemma ConsSorted(x: string, s: seq<string>)
    requires Sorted(s)
    requires forall y :: y in s ==> KeyLe(x, y)
    ensures Sorted([x] + s)
  {
    var r := [x] + s;
    forall i, j | 0 <= i < j < |r| ensures KeyLe(r[i], r[j]) {
      if i == 0 {
        assert r[j] == s[j - 1];
      } else {
        assert r[i] == s[i - 1] && r[j] == s[j - 1];
      }
    }
  }

  lemma {:induction false} InsertSorted(k: string, s: seq<string>)
    requires Sorted(s)
    ensures Sorted(Insert(k, s))
    ensures multiset(Insert(k, s)) == multiset(s) + multiset{k}
  {
    if |s| == 0 {
    } else if KeyLe(k, s[0]) {
      forall y | y in s ensures KeyLe(k, y) {
        var j :| 0 <= j < |s| && s[j] == y;
        if j > 0 { KeyLeTransitive(k, s[0], s[j]); }
      }
      ConsSorted(k, s);
    } else {
      KeyLeTotal(k, s[0]);
      assert s == [s[0]] + s[1..];
      InsertSorted(k, s[1..]);
      var tail := Insert(k, s[1..]);
      forall x | x in tail ensures KeyLe(s[0], x) {
        assert x in multiset(tail);
        if x != k {
          assert x in multiset(s[1..]);
          var j :| 0 <= j < |s[1..]| && s[1..][j] == x;
          assert s[j + 1] == x;
        }
      }
      ConsSorted(s[0], tail);
    }
  }

  /** `Object.keys(obj).sort()`, as the keys then come out of `JSON.stringify`. */
  function SortKeys(ks: seq<string>): (r: seq<string>)
    ensures Sorted(r) && multiset(r) == multiset(ks)
  {
    if |ks| == 0 then []
    else
      var rest := SortKeys(ks[1..]);
      InsertSorted(ks[0], rest);
      assert ks == [ks[0]] + ks[1..];
      Insert(ks[0], rest)
  }

  /** The first element of a sorted sequence is no greater than any of its elements. */
  lemma HeadIsLeast(s: seq<string>, x: string)
    requires Sorted(s) && x in s
    ensures KeyLe(s[0], x)
  {
    var j :| 0 <= j < |s| && s[j] == x;
    if j == 0 { KeyLeTotal(x, x); }
  }

  lemma TailMultiset(s: seq<string>)
    requires |s| > 0
    ensures multiset(s[1..]) == multiset(s) - multiset{s[0]}
  {
    assert s == [s[0]] + s[1..];
  }

  /** Two sorted sequences holding the same keys are the same sequence. */
  lemma {:induction false} SortedUnique(a: seq<string>, b: seq<string>)
    requires Sorted(a) && Sorted(b) && multiset(a) == multiset(b)
    ensures a == b
  {
    if |a| == 0 {
      assert |multiset(b)| == 0;
    } else {
      assert a[0] in multiset(b) && b[0] in multiset(a);
      HeadIsLeast(b, a[0]);
      HeadIsLeast(a, b[0]);
      KeyLeAntisymmetric(a[0], b[0]);
      TailMultiset(a);
      TailMultiset(b);
      SortedUnique(a[1..], b[1..]);
      assert a == [a[0]] + a[1..] && b == [b[0]] + b[1..];
    }
  }

  /** The object `Object.keys(obj).sort().reduce((r, k) => (r[k] = obj[k], r), {})`. */
  function SortedEntries(fields: seq<Field>): (r: seq<Field>)
    ensures |r| == |fields|
  {
    var ks := SortKeys(KeysOf(fields));
    assert |ks| == |multiset(ks)| == |multiset(KeysOf(fields))| == |KeysOf(fields)|;
    seq(|ks|, i requires 0 <= i < |ks| => Field(ks[i], Lookup(fields, ks[i])))
  }

  /** `getSortedString(data)`: the body part of a request id. */
  function SortedString(data: Value): string {
    if !Truthy(data) || !IsObjectType(data) then ToJsString(data)
    else Json(Obj(SortedEntries(OwnEntries(data))))
  }

  /** The same own properties with the same values, whatever their order. */
  predicate SameProperties(f: seq<Field>, g: seq<Field>) {
    && multiset(KeysOf(f)) == multiset(KeysOf(g))
    && forall k :: k in KeysOf(f) ==> Lookup(f, k) == Lookup(g, k)
  }

  lemma SortedEntriesAgree(f: seq<Field>, g: seq<Field>)
    requires SameProperties(f, g)
    ensures SortedEntries(f) == SortedEntries(g)
  {
    var kf, kg := SortKeys(KeysOf(f)), SortKeys(KeysOf(g));
    SortedUnique(kf, kg);
    var ef, eg := SortedEntries(f), SortedEntries(g);
    assert |ef| == |eg|;
    forall i | 0 <= i < |ef| ensures ef[i] == eg[i] {
      assert kf[i] in multiset(KeysOf(f));
      assert ef[i] == Field(kf[i], Lookup(f, kf[i]));
    }
  }

  /** Bodies that differ only in the order of their keys have the same fingerprint. */
  lemma KeyOrderIrrelevant(f: seq<Field>, g: seq<Field>)
    requires SameProperties(f, g)
    ensures SortedString(Obj(f)) == SortedString(Obj(g))
  {
    SortedEntriesAgree(f, g);
  }

  /** `generateRequestId({url, method, data})`. */
  function GenerateRequestId(httpMethod: string, url: string, data: Value): string {
    ToUpper(if httpMethod == "" then "GET" else httpMethod) + "_" + url + "_" + SortedString(data)
  }

  /**
   * The id's layout: the upper-cased method (`GET` when none is given), `_`,
   * the url, `_`, then the body's fingerprint, each at its own position.
   */
  lemma RequestIdMethodPrefix(httpMethod: string, url: string, data: Value)
    ensures var m := ToUpper(if httpMethod == "" then "GET" else httpMethod);
      var id := GenerateRequestId(httpMethod, url, data);
      && |id| == |m| + |url| + 2 + |SortedString(data)|
      && StartsWith(id, m + "_")
      && id[..|m|] == m && id[|m|] == '_'
      && id[|m| + 1..|m| + 1 + |url|] == url && id[|m| + 1 + |url|] == '_'
      && id[|m| + 2 + |url|..] == SortedString(data)
  {
    var m := ToUpper(if httpMethod == "" then "GET" else httpMethod);
    var id := GenerateRequestId(httpMethod, url, data);
    assert id == (m + "_") + (url + "_" + SortedString(data));
    assert id == m + "_" + url + "_" + SortedString(data);
  }

  /** The id contains its url, so cancelling by that url (or any part of it) reaches the request. */
  lemma RequestIdContainsUrl(httpMethod: string, url: string, data: Value, part: string)
    requires Contains(url, part)
    ensures Contains(GenerateRequestId(httpMethod, url, data), part)
  {
    var pre := ToUpper(if httpMethod == "" then "GET" else httpMethod) + "_";
    var post := "_" + SortedString(data);
    assert GenerateRequestId(httpMethod, url, data) == pre + url + post;
    ContainsWithin(pre, url, post, part);
  }

  /** Methods that differ only in letter case, or a missing method and `GET`, give the same id. */
  lemma RequestIdMethodCase(m1: string, m2: string, url: string, data: Value)
    requires ToUpper(if m1 == "" then "GET" else m1) == ToUpper(if m2 == "" then "GET" else m2)
    ensures GenerateRequestId(m1, url, data) == GenerateRequestId(m2, url, data)
  {
  }

  /** Requests to the same url with the same method and key-order-insensitively equal bodies share an id. */
  lemma RequestIdKeyOrder(httpMethod: string, url: string, f: seq<Field>, g: seq<Field>)
    requires SameProperties(f, g)
    ensures GenerateRequestId(httpMethod, url, Obj(f)) == GenerateRequestId(httpMethod, url, Obj(g))
  {
    KeyOrderIrrelevant(f, g);
  }

  /** A falsy body, or one that is not an object, is rendered with `String(data)`. */
  lemma FingerprintOfScalars(n: int, text: string)
    ensures SortedString(Undefined) == "undefined" && SortedString(Null) == "null"
    ensures SortedString(Num(n)) == IntToString(n)
    ensures SortedString(Str(text)) == text
  {
  }

  /** Different bodies can share a fingerprint: a number and its decimal string. */
  lemma FingerprintNotInjective(httpMethod: string, url: string, n: int)
    ensures Num(n) != Str(IntToString(n))
    ensures GenerateRequestId(httpMethod, url, Num(n)) == GenerateRequestId(httpMethod, url, Str(IntToString(n)))
  {
  }
}
