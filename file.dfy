/**
 * File type detection and the URL filtering before an image preview
 * (src/utils/file.js).  The preview and the toast are platform calls; the
 * model returns what would be handed to them.
 */
module FileUtils {
  import opened Wrappers
  import opened Strings
  import opened JsValue

  const Image: string := "image"
  const Pdf: string := "pdf"
  const Video: string := "video"
  const Unknown: string := "unknown"

  /** `FILE_EXTENSIONS`, in its declaration order. */
  const FileExtensions: seq<(string, seq<string>)> := [
    (Image, [".png", ".jpg", ".jpeg", ".gif", ".webp"]),
    (Pdf, [".pdf"]),
    (Video, [".mp4", ".mov", ".avi"])
  ]

  /**
   * `s.match(/\.[^.]+$/)?.[0]`: the last `.` and everything after it, provided
   * at least one character follows it.
   */
  function Extension(s: string): (r: Option<string>)
    ensures r.Some? ==> |r.value| >= 2 && r.value[0] == '.' && '.' !in r.value[1..]
    ensures r.Some? ==> |r.value| <= |s| && r.value == s[|s| - |r.value|..]
    ensures '.' !in s ==> r.None?
  {
    var k := LastIndexOf(s, '.');
    if k < 0 || k == |s| - 1 then None
    else Some(s[k..])
  }

  /** A name ending in a dot and a non-empty dot-free suffix has that suffix as its extension. */
  lemma ExtensionOfSuffix(p: string, e: string)
    requires |e| >= 2 && e[0] == '.' && '.' !in e[1..]
    ensures Extension(p + e) == Some(e)
  {
    var s := p + e;
    var k := LastIndexOf(s, '.');
    assert s[|p|] == '.';
    assert s[|p| + 1..] == e[1..];
    assert k == |p|;
  }

  /** The `for…of` over `FILE_EXTENSIONS`: the first type whose list includes `ext`. */
  function LookupType(table: seq<(string, seq<string>)>, ext: Option<string>): (t: string)
    ensures t == Unknown || exists i :: 0 <= i < |table| && t == table[i].0
    ensures t != Unknown ==> ext.Some?
  {
    if |table| == 0 then Unknown
    else if ext.Some? && ext.value in table[0].1 then table[0].0
    else LookupType(table[1..], ext)
  }

  /** The type named for an extension by the table. */
  lemma LookupTypeTable(e: string)
    ensures LookupType(FileExtensions, Some(e)) ==
      if e in [".png", ".jpg", ".jpeg", ".gif", ".webp"] then Image
      else if e == ".pdf" then Pdf
      else if e in [".mp4", ".mov", ".avi"] then Video
      else Unknown
  {
    var t := FileExtensions;
    var x := Some(e);
    assert t[0] == (Image, [".png", ".jpg", ".jpeg", ".gif", ".webp"]);
    assert LookupType(t, x) == if e in t[0].1 then Image else LookupType(t[1..], x);
    var t1 := t[1..];
    assert t1[0] == (Pdf, [".pdf"]);
    assert LookupType(t1, x) == if e in t1[0].1 then Pdf else LookupType(t1[1..], x);
    var t2 := t1[1..];
    assert t2[0] == (Video, [".mp4", ".mov", ".avi"]);
    assert LookupType(t2, x) == if e in t2[0].1 then Video else LookupType(t2[1..], x);
    assert t2[1..] == [];
  }

  /** The extension `detectFileType` looks up: that of the lower-cased url up to its first `?`. */
  function UrlExtension(url: string): (r: Option<string>)
    ensures url == "" ==> r.None?
  {
    Extension(BeforeFirst(ToLower(url), '?'))
  }

  /**
   * `detectFileType(url)`: `unknown` for a falsy url (and for a non-string,
   * where `toLowerCase` throws into the catch); otherwise the url's extension
   * looked up in the table, `unknown` when it has none or it is not listed.
   */
  function DetectFileType(url: Value): (t: string)
    ensures t in {Image, Pdf, Video, Unknown}
    ensures !url.Str? ==> t == Unknown
    ensures url.Str? ==> t == LookupType(FileExtensions, UrlExtension(url.s))
  {
    if !Truthy(url) || !url.Str? then Unknown
    else LookupType(FileExtensions, UrlExtension(url.s))
  }

  /** Detection ignores letter case. */
  lemma UrlExtensionCaseInsensitive(s: string)
    ensures UrlExtension(ToLower(s)) == UrlExtension(s)
  {
    ToLowerIdempotent(s);
  }

  /** `split('?')[0]` of a string whose first `?` is at `k`. */
  lemma BeforeFirstAt(l: string, k: nat)
    requires k < |l| && l[k] == '?' && '?' !in l[..k]
    ensures BeforeFirst(l, '?') == l[..k]
  {
  }

  /** Detection ignores everything from the first `?`. */
  lemma UrlExtensionIgnoresQuery(s: string, q: string)
    requires '?' !in s
    ensures UrlExtension(s + "?" + q) == UrlExtension(s)
  {
    var u := s + "?" + q;
    var l := ToLower(u);
    assert u[|s|] == '?';
    assert forall i :: 0 <= i < |s| ==> u[i] == s[i];
    assert forall i :: 0 <= i < |s| ==> l[i] == ToLower(s)[i];
    assert l[..|s|] == ToLower(s);
    assert '?' !in l[..|s|] by {
      forall i | 0 <= i < |s| ensures l[i] != '?' {
        assert s[i] != '?';
      }
    }
    BeforeFirstAt(l, |s|);
  }

  /** A lower-case url without a query that ends in a dot and a dot-free suffix has that suffix as its extension. */
  lemma UrlExtensionOfSuffix(p: string, e: string)
    requires |e| >= 2 && e[0] == '.' && '.' !in e[1..]
    requires ToLower(p + e) == p + e && '?' !in p + e
    ensures UrlExtension(p + e) == Some(e)
  {
    ExtensionOfSuffix(p, e);
  }

  /** `imageUrls.filter((url) => url)`. */
  function FilterTruthy(items: seq<Value>): (r: seq<Value>)
    ensures |r| <= |items|
    ensures forall x :: x in r <==> x in items && Truthy(x)
  {
    if |items| == 0 then []
    else if Truthy(items[0]) then [items[0]] + FilterTruthy(items[1..])
    else
      assert forall x :: x in items <==> x == items[0] || x in items[1..];
      FilterTruthy(items[1..])
  }

  /** `filter` keeps one element at a time: a truthy element is kept, a falsy one dropped. */
  lemma FilterTruthySingle(x: Value)
    ensures FilterTruthy([x]) == if Truthy(x) then [x] else []
  {
  }

  /** `filter` over a concatenation is the concatenation of the filtered parts, so order and repeats are kept. */
  lemma {:induction false} FilterTruthyAppend(a: seq<Value>, b: seq<Value>)
    ensures FilterTruthy(a + b) == FilterTruthy(a) + FilterTruthy(b)
    decreases |a|
  {
    if |a| == 0 {
      assert a + b == b;
    } else {
      assert (a + b)[1..] == a[1..] + b;
      assert (a + b)[0] == a[0];
      FilterTruthyAppend(a[1..], b);
    }
  }

  /** The first url kept is the first truthy one. */
  lemma {:induction false} FilterTruthyFirst(items: seq<Value>, i: int)
    requires 0 <= i < |items| && Truthy(items[i])
    requires forall j :: 0 <= j < i ==> !Truthy(items[j])
    ensures |FilterTruthy(items)| > 0 && FilterTruthy(items)[0] == items[i]
    decreases i
  {
    if i > 0 {
      FilterTruthyFirst(items[1..], i - 1);
    }
  }

  /** The arguments of `uni.previewImage`. */
  datatype Preview = Preview(urls: seq<Value>, current: Value)

  /**
   * `previewImage(urls, current)`: a single url is wrapped in a list, falsy
   * urls are dropped, `None` (the '暂无图片' toast) when none remain, and
   * `current` defaults to the first remaining url.
   */
  function PreviewImage(urls: Value, current: Value): (r: Option<Preview>)
    ensures var items := if urls.Arr? then urls.items else [urls];
      && (r.None? <==> forall x :: x in items ==> !Truthy(x))
      && (r.Some? ==>
            && r.value.urls == FilterTruthy(items)
            && |r.value.urls| > 0
            && (Truthy(current) ==> r.value.current == current)
            && (!Truthy(current) ==> r.value.current == r.value.urls[0]))
  {
    var items := if urls.Arr? then urls.items else [urls];
    var valid := FilterTruthy(items);
    if |valid| == 0 then None
    else
      assert valid[0] in valid;
      Some(Preview(valid, Or(if current.Undefined? then Str("") else current, valid[0])))
  }
}
