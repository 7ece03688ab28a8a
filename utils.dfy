/**
 * General helpers (src/utils/index.js).  `Math.random()` is an input, given as
 * the fraction `num / den` in [0, 1); dates are taken apart into their
 * components before formatting; a throttled function keeps its `lastTime` in a
 * small object.
 */
module Utils {
  import opened Wrappers
  import opened Strings
  import opened JsValue

  const RandomIntError: string := "n 必须是非负整数"

  /**
   * `getRandomInt(n)`: throws unless `n` is a non-negative integer; otherwise
   * `Math.floor(Math.random() * (n + 1))`, which lies in [0, n].
   */
  function GetRandomInt(n: Value, num: nat, den: nat): (r: Result<int>)
    requires num < den
    ensures r.Failure? <==> !(n.Num? && n.n >= 0)
    ensures r.Failure? ==> r.error == RandomIntError
    ensures r.Success? ==> 0 <= r.value <= n.n
  {
    if !n.Num? || n.n < 0 then Failure(RandomIntError)
    else
      RandomBound(num, den, n.n);
      Success(num * (n.n + 1) / den)
  }

  /** `floor(num / den * (n + 1)) <= n` when `num < den`. */
  lemma RandomBound(num: nat, den: nat, n: nat)
    requires num < den
    ensures 0 <= num * (n + 1) / den <= n
  {
    var m := num * (n + 1);
    var q := m / den;
    assert den * q + m % den == m;
    MulLess(num, den, n + 1);
    if q > n {
      MulAtMost(n + 1, q, den);
      assert false;
    }
  }

  lemma {:induction false} MulAtMost(a: int, b: int, c: nat)
    requires a <= b
    ensures a * c <= b * c
    decreases c
  {
    if c > 0 {
      MulAtMost(a, b, c - 1);
      assert a * c == a * (c - 1) + a;
      assert b * c == b * (c - 1) + b;
    }
  }

  lemma MulLess(a: int, b: int, c: nat)
    requires a < b && c > 0
    ensures a * c < b * c
  {
    MulAtMost(a, b - 1, c);
    assert (b - 1) * c == b * c - c;
  }

  /** The parts of a `Date` that the formatters read; `month0` is `getMonth()`, from 0. */
  datatype DateParts = DateParts(year: int, month0: int, day: int, hours: int, minutes: int)

  predicate ValidParts(p: DateParts) {
    0 <= p.year && 0 <= p.month0 < 12 && 1 <= p.day <= 31 && 0 <= p.hours < 24 && 0 <= p.minutes < 60
  }

  /** `String(x).padStart(2, '0')`. */
  function Pad2(x: int): string {
    PadStart2(IntToString(x))
  }

  /** A two-character field of decimal digits. */
  predicate IsTwoDigits(s: string) {
    |s| == 2 && IsDigit(s[0]) && IsDigit(s[1])
  }

  /** The value of a two-character field of decimal digits. */
  function TwoDigits(s: string): (v: nat)
    requires IsTwoDigits(s)
    ensures v < 100
  {
    10 * DigitValue(s[0]) + DigitValue(s[1])
  }

  /** A two-digit field reads back as its value. */
  lemma Pad2Value(x: nat)
    requires x < 100
    ensures IsTwoDigits(Pad2(x)) && TwoDigits(Pad2(x)) == x
  {
    NatToStringRoundTrip(x);
    if x < 10 {
      var s := NatToString(x);
      assert Pad2(x) == "0" + s;
      assert Pad2(x)[..1] == "0";
    } else {
      assert NatToString(x) == NatToString(x / 10) + [DigitChar(x % 10)];
    }
    TwoDigitsValue(Pad2(x));
  }

  /** On two digits the general decimal reading agrees with `TwoDigits`. */
  lemma TwoDigitsValue(s: string)
    requires IsTwoDigits(s)
    ensures DigitsValue(s) == TwoDigits(s)
  {
    var h := s[..1];
    assert h[..0] == [] && h[0] == s[0];
    assert DigitsValue(h) == DigitValue(s[0]);
  }

  /** The date part: year, month and day joined by `sep`. */
  function DatePart(p: DateParts, sep: string): string {
    IntToString(p.year) + sep + Pad2(p.month0 + 1) + sep + Pad2(p.day)
  }

  /** The time part: ` HH:mm`. */
  function TimePart(p: DateParts): string {
    " " + Pad2(p.hours) + ":" + Pad2(p.minutes)
  }

  /** `formatDate` with separator `sep`. */
  function FormatWith(p: DateParts, withTime: bool, sep: string): string {
    if withTime then DatePart(p, sep) + TimePart(p) else DatePart(p, sep)
  }

  /** `formatDate(date, withTime)`: `YYYY.MM.DD`, and ` HH:mm` when `withTime`. */
  function FormatDate(p: DateParts, withTime: bool): string {
    FormatWith(p, withTime, ".")
  }

  /** `formatDateDash(date, withTime)`: `YYYY-MM-DD`, and ` HH:mm` when `withTime`. */
  function FormatDateDash(p: DateParts, withTime: bool): string {
    FormatWith(p, withTime, "-")
  }

  /** Where the pieces of `y + sep + a + sep + b` sit, for two-character `a` and `b`. */
  lemma JoinedOffsets(y: string, sep: char, a: string, b: string)
    requires |a| == 2 && |b| == 2
    ensures var r := y + [sep] + a + [sep] + b;
      var n := |y|;
      && |r| == n + 6 && r[..n] == y && r[n] == sep && r[n + 3] == sep
      && r[n + 1..n + 3] == a && r[n + 4..n + 6] == b
  {
  }

  /** The date part is the year and two two-digit fields that read back as month and day. */
  lemma DatePartFields(p: DateParts)
    requires ValidParts(p)
    ensures var r := DatePart(p, ".");
      var n := |IntToString(p.year)|;
      && |r| == n + 6
      && r[..n] == IntToString(p.year)
      && r[n] == '.' && r[n + 3] == '.'
      && IsTwoDigits(r[n + 1..n + 3]) && TwoDigits(r[n + 1..n + 3]) == p.month0 + 1
      && IsTwoDigits(r[n + 4..n + 6]) && TwoDigits(r[n + 4..n + 6]) == p.day
  {
    Pad2Value(p.month0 + 1);
    Pad2Value(p.day);
    JoinedOffsets(IntToString(p.year), '.', Pad2(p.month0 + 1), Pad2(p.day));
  }

  /** Where the pieces of `[c] + a + [sep] + b` sit, for two-character `a` and `b`. */
  lemma TimeOffsets(c: char, sep: char, a: string, b: string)
    requires |a| == 2 && |b| == 2
    ensures var t := [c] + a + [sep] + b;
      && |t| == 6 && t[0] == c && t[3] == sep && t[1..3] == a && t[4..6] == b
  {
  }

  /** The time part is a space and two two-digit fields around `:` that read back as hours and minutes. */
  lemma TimePartFields(p: DateParts)
    requires ValidParts(p)
    ensures var t := TimePart(p);
      && |t| == 6 && t[0] == ' ' && t[3] == ':'
      && IsTwoDigits(t[1..3]) && TwoDigits(t[1..3]) == p.hours
      && IsTwoDigits(t[4..6]) && TwoDigits(t[4..6]) == p.minutes
  {
    Pad2Value(p.hours);
    Pad2Value(p.minutes);
    TimeOffsets(' ', ':', Pad2(p.hours), Pad2(p.minutes));
  }

  /** A slice of `d + t` inside `d`. */
  lemma SliceLeft(d: string, t: string, i: nat, j: nat)
    requires i <= j <= |d|
    ensures (d + t)[i..j] == d[i..j]
  {
  }

  /** A slice of `d + t` inside `t`. */
  lemma SliceRight(d: string, t: string, i: nat, j: nat)
    requires i <= j <= |t|
    ensures (d + t)[|d| + i..|d| + j] == t[i..j]
  {
  }

  /** The pieces of `d + t` for a date part `d` of length `n + 6` and a time part `t` of length 6. */
  lemma JoinedTime(d: string, t: string, n: nat)
    requires |d| == n + 6 && |t| == 6
    ensures var r := d + t;
      && |r| == n + 12 && r[..n] == d[..n] && r[n] == d[n] && r[n + 3] == d[n + 3]
      && r[n + 1..n + 3] == d[n + 1..n + 3] && r[n + 4..n + 6] == d[n + 4..n + 6]
      && r[n + 6] == t[0] && r[n + 9] == t[3]
      && r[n + 7..n + 9] == t[1..3] && r[n + 10..n + 12] == t[4..6]
  {
    SliceLeft(d, t, 0, n);
    SliceLeft(d, t, n + 1, n + 3);
    SliceLeft(d, t, n + 4, n + 6);
    SliceRight(d, t, 1, 3);
    SliceRight(d, t, 4, 6);
  }

  /**
   * Each field after the year takes exactly two digits, so the date reads
   * back field by field from fixed offsets after the year.
   */
  lemma FormatDateFields(p: DateParts, withTime: bool)
    requires ValidParts(p)
    ensures var r := FormatDate(p, withTime);
      var n := |IntToString(p.year)|;
      && |r| == n + 6 + (if withTime then 6 else 0)
      && r[..n] == IntToString(p.year)
      && r[n] == '.' && r[n + 3] == '.'
      && IsTwoDigits(r[n + 1..n + 3]) && TwoDigits(r[n + 1..n + 3]) == p.month0 + 1
      && IsTwoDigits(r[n + 4..n + 6]) && TwoDigits(r[n + 4..n + 6]) == p.day
      && (withTime ==>
            && r[n + 6] == ' ' && r[n + 9] == ':'
            && IsTwoDigits(r[n + 7..n + 9]) && TwoDigits(r[n + 7..n + 9]) == p.hours
            && IsTwoDigits(r[n + 10..n + 12]) && TwoDigits(r[n + 10..n + 12]) == p.minutes)
  {
    DatePartFields(p);
    if withTime {
      var d := DatePart(p, ".");
      var t := TimePart(p);
      var n := |IntToString(p.year)|;
      TimePartFields(p);
      JoinedTime(d, t, n);
      var r := d + t;
      assert FormatDate(p, withTime) == r;
      assert IsTwoDigits(r[n + 7..n + 9]) && TwoDigits(r[n + 7..n + 9]) == p.hours;
      assert IsTwoDigits(r[n + 10..n + 12]) && TwoDigits(r[n + 10..n + 12]) == p.minutes;
      assert IsTwoDigits(r[n + 1..n + 3]) && TwoDigits(r[n + 1..n + 3]) == p.month0 + 1;
      assert IsTwoDigits(r[n + 4..n + 6]) && TwoDigits(r[n + 4..n + 6]) == p.day;
    }
  }

  /** Replacing `.` by `-` in `a + "." + b` when `b` holds no `.`. */
  lemma ReplaceBeforeSegment(a: string, b: string)
    requires '.' !in b
    ensures ReplaceChar(a + "." + b, '.', '-') == ReplaceChar(a, '.', '-') + "-" + b
  {
    ReplaceCharAppend(a + ".", b, '.', '-');
    ReplaceCharAppend(a, ".", '.', '-');
    ReplaceCharAbsent(b, '.', '-');
  }

  /** Replacing `.` by `-` in three dot-free pieces joined by `.`. */
  lemma SwapSeparators(y: string, mo: string, d: string)
    requires '.' !in y && '.' !in mo && '.' !in d
    ensures ReplaceChar(y + "." + mo + "." + d, '.', '-') == y + "-" + mo + "-" + d
  {
    ReplaceBeforeSegment(y + "." + mo, d);
    ReplaceBeforeSegment(y, mo);
    ReplaceCharAbsent(y, '.', '-');
  }

  /** A field of digits holds no `.`. */
  lemma TwoDigitsNoDot(s: string)
    requires IsTwoDigits(s)
    ensures '.' !in s
  {
    assert s == [s[0], s[1]];
  }

  /** The date part of both forms. */
  lemma DateSwap(p: DateParts)
    requires ValidParts(p)
    ensures DatePart(p, "-") == ReplaceChar(DatePart(p, "."), '.', '-')
  {
    var y := IntToString(p.year);
    Pad2Value(p.month0 + 1);
    Pad2Value(p.day);
    TwoDigitsNoDot(Pad2(p.month0 + 1));
    TwoDigitsNoDot(Pad2(p.day));
    assert '.' !in y by {
      assert forall i :: 0 <= i < |y| ==> IsDigit(y[i]);
    }
    SwapSeparators(y, Pad2(p.month0 + 1), Pad2(p.day));
  }

  /** Two digit pairs around a space and a colon hold no `.`. */
  lemma DigitPairsHaveNoDot(h: string, m: string)
    requires IsTwoDigits(h) && IsTwoDigits(m)
    ensures '.' !in " " + h + ":" + m
  {
    assert " " + h + ":" + m == [' ', h[0], h[1], ':', m[0], m[1]];
  }

  /** The time part holds no `.`. */
  lemma TimeHasNoDot(p: DateParts)
    requires ValidParts(p)
    ensures '.' !in TimePart(p)
  {
    Pad2Value(p.hours);
    Pad2Value(p.minutes);
    DigitPairsHaveNoDot(Pad2(p.hours), Pad2(p.minutes));
  }

  /** The dashed form is the dotted form with every `.` replaced by `-`. */
  lemma FormatDateDashIsDotted(p: DateParts, withTime: bool)
    requires ValidParts(p)
    ensures FormatDateDash(p, withTime) == ReplaceChar(FormatDate(p, withTime), '.', '-')
  {
    DateSwap(p);
    if withTime {
      TimeHasNoDot(p);
      ReplaceCharAbsent(TimePart(p), '.', '-');
      ReplaceCharAppend(DatePart(p, "."), TimePart(p), '.', '-');
    }
  }

  /** The state a `throttle(fn, interval)` wrapper closes over. */
  class Throttle {
    const interval: int
    var lastTime: int
    /** How many times `fn` has run. */
    var runs: nat

    constructor (interval: int)
      ensures this.interval == interval && lastTime == 0 && runs == 0
    {
      this.interval := interval;
      lastTime := 0;
      runs := 0;
    }

    /** One call of the throttled function at time `now`: `fn` runs iff `now - lastTime >= interval`. */
    method Call(now: int) returns (ran: bool)
      modifies this
      ensures ran <==> now - old(lastTime) >= interval
      ensures ran ==> lastTime == now && runs == old(runs) + 1
      ensures !ran ==> lastTime == old(lastTime) && runs == old(runs)
    {
      ran := now - lastTime >= interval;
      if ran {
        lastTime := now;
        runs := runs + 1;
      }
    }
  }

  /** Of two calls less than `interval` apart, the second never runs when the first did. */
  method CallTwice(t: Throttle, a: int, b: int) returns (first: bool, second: bool)
    requires a <= b && b - a < t.interval
    modifies t
    ensures first ==> !second
    ensures t.interval > 0 ==> t.runs <= old(t.runs) + 1
  {
    first := t.Call(a);
    second := t.Call(b);
  }

  /** Objects have distinct keys throughout, as every runtime object does. */
  predicate WellFormed(v: Value)
    decreases v
  {
    match v
    case Arr(items) => forall i | 0 <= i < |items| :: WellFormed(items[i])
    case Obj(fields) => DistinctKeys(fields) && forall i | 0 <= i < |fields| :: WellFormed(fields[i].val)
    case _ => true
  }

  /**
   * `deepClone(obj)`: anything that is not an object, and `null`, is returned
   * as is; arrays are cloned element by element; objects get each own key
   * assigned, in order, with a clone of its value.
   */
  function DeepClone(v: Value): (r: Value)
    decreases v, 1
    ensures !v.Arr? && !v.Obj? ==> r == v
    ensures v.Arr? ==> r.Arr? && |r.items| == |v.items|
    ensures v.Obj? ==> r.Obj?
  {
    match v
    case Arr(items) => Arr(seq(|items|, i requires 0 <= i < |items| => DeepClone(items[i])))
    case Obj(fields) => Obj(CloneFields(v, 0, []))
    case _ => v
  }

  /** The `for…in` loop of `deepClone`: keys `i` onwards of `parent` assigned onto `cloned`. */
  function CloneFields(parent: Value, i: nat, cloned: seq<Field>): seq<Field>
    requires parent.Obj? && i <= |parent.fields|
    decreases parent, 0, |parent.fields| - i
  {
    if i == |parent.fields| then cloned
    else
      var f := parent.fields[i];
      assert f.val < parent;
      CloneFields(parent, i + 1, SetField(cloned, f.key, DeepClone(f.val)))
  }

  /** Assigning a key an object does not have yet appends it. */
  lemma {:induction false} SetFieldAbsent(fields: seq<Field>, k: string, x: Value)
    requires k !in KeysOf(fields)
    ensures SetField(fields, k, x) == fields + [Field(k, x)]
  {
    if |fields| > 0 {
      assert KeysOf(fields) == [fields[0].key] + KeysOf(fields[1..]);
      SetFieldAbsent(fields[1..], k, x);
      assert fields == [fields[0]] + fields[1..];
    }
  }

  /** A deep clone is structurally equal to its input. */
  lemma {:induction false} DeepCloneIdentity(v: Value)
    requires WellFormed(v)
    ensures DeepClone(v) == v
    decreases v, 1
  {
    match v
    case Arr(items) =>
      forall i | 0 <= i < |items| ensures DeepClone(items[i]) == items[i] {
        DeepCloneIdentity(items[i]);
      }
      assert DeepClone(v).items == items;
    case Obj(fields) =>
      CloneFieldsIdentity(v, 0);
      assert fields[..0] == [];
    case _ =>
  }

  lemma {:induction false} CloneFieldsIdentity(parent: Value, i: nat)
    requires parent.Obj? && WellFormed(parent) && i <= |parent.fields|
    ensures CloneFields(parent, i, parent.fields[..i]) == parent.fields
    decreases parent, 0, |parent.fields| - i
  {
    var fields := parent.fields;
    if i == |fields| {
      assert fields[..i] == fields;
    } else {
      var f := fields[i];
      assert f.val < parent;
      DeepCloneIdentity(f.val);
      assert f.key !in KeysOf(fields[..i]) by {
        forall j | 0 <= j < i ensures KeysOf(fields[..i])[j] != f.key {
          assert fields[j].key != fields[i].key;
        }
      }
      SetFieldAbsent(fields[..i], f.key, f.val);
      assert fields[..i] + [Field(f.key, f.val)] == fields[..i + 1];
      CloneFieldsIdentity(parent, i + 1);
    }
  }

  /**
   * `isEmpty(value)`: `null`, `undefined`, `''`, an empty array, or an object
   * without own keys.
   */
  predicate IsEmpty(v: Value) {
    if v == Null || v == Undefined || v == Str("") then true
    else if v.Arr? && |v.items| == 0 then true
    else if IsObjectType(v) && |OwnEntries(v)| == 0 then true
    else false
  }

  /**
   * For arrays and objects, empty means no own keys; among the other values
   * only `null`, `undefined` and `''` are empty, so `0` and `false` are not.
   */
  lemma IsEmptyIff(v: Value)
    ensures (v.Arr? || v.Obj?) ==> (IsEmpty(v) <==> |OwnEntries(v)| == 0)
    ensures !(v.Arr? || v.Obj?) ==> (IsEmpty(v) <==> IsNullish(v) || v == Str(""))
    ensures v.Num? || v.Bool? ==> !IsEmpty(v)
  {
  }
}
