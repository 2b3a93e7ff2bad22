/**
 * Decoded JSON bodies as PHP's `json_decode(..., true)` produces them, and
 * Laravel's `data_get` lookup along a dotted key path.
 */
module Json {
  import opened Wrappers

  /** A decoded JSON value. Numbers are integers; lists are PHP arrays keyed 0..n-1. */
  datatype Json =
    | JNull
    | JBool(b: bool)
    | JInt(n: int)
    | JStr(s: string)
    | JList(items: seq<Json>)
    | JObject(fields: map<string, Json>)

  predicate IsDigit(c: char) {
    '0' <= c <= '9'
  }

  predicate AllDigits(s: string) {
    forall i | 0 <= i < |s| :: IsDigit(s[i])
  }

  /** Value of a string of decimal digits, most significant first. */
  function DigitsValue(s: string): nat
    requires AllDigits(s)
  {
    if s == [] then 0
    else DigitsValue(s[..|s| - 1]) * 10 + (s[|s| - 1] as int - '0' as int)
  }

  /** The decimal spelling of a natural number, without leading zeros. */
  function Decimal(n: nat): (s: string)
    ensures |s| >= 1 && AllDigits(s)
  {
    if n < 10 then [('0' as int + n) as char]
    else Decimal(n / 10) + [('0' as int + n % 10) as char]
  }

  /** PHP's string cast of an integer. */
  function IntToString(i: int): string {
    if i < 0 then "-" + Decimal(-i) else Decimal(i)
  }

  /**
   * PHP turns an array key that spells a non-negative integer in canonical
   * decimal form ("0", "17", but not "007" or "") into that integer; every
   * other key stays a string. This is how the segment "0" of a `data_get`
   * path reaches the first element of a list.
   */
  function ParseIndex(seg: string): Option<nat> {
    if |seg| >= 1 && AllDigits(seg) && (seg[0] != '0' || |seg| == 1)
    then Some(DigitsValue(seg))
    else None
  }

  lemma {:induction false} DecimalLeading(n: nat)
    ensures Decimal(n)[0] == '0' <==> n == 0
  {
    if n >= 10 {
      DecimalLeading(n / 10);
    }
  }

  lemma {:induction false} DecimalValue(n: nat)
    ensures DigitsValue(Decimal(n)) == n
  {
    if n >= 10 {
      var s := Decimal(n);
      assert s[..|s| - 1] == Decimal(n / 10);
      DecimalValue(n / 10);
    }
  }

  lemma {:induction false} LeadingNonZeroPositive(s: string)
    requires |s| >= 1 && AllDigits(s) && s[0] != '0'
    ensures DigitsValue(s) >= 1
  {
    if |s| > 1 {
      LeadingNonZeroPositive(s[..|s| - 1]);
    }
  }

  /** Every canonical decimal key parses to the number it spells. */
  lemma DecimalParses(n: nat)
    ensures ParseIndex(Decimal(n)) == Some(n)
  {
    DecimalLeading(n);
    DecimalValue(n);
  }

  /** A key that parses as an index is the canonical spelling of that index. */
  lemma {:induction false} ParsedIsCanonical(seg: string)
    requires ParseIndex(seg).Some?
    ensures Decimal(ParseIndex(seg).value) == seg
  {
    var n := DigitsValue(seg);
    var last := seg[|seg| - 1];
    var init := seg[..|seg| - 1];
    assert n == DigitsValue(init) * 10 + (last as int - '0' as int);
    if |seg| == 1 {
      assert seg == [last];
    } else {
      LeadingNonZeroPositive(init);
      ParsedIsCanonical(init);
      assert n / 10 == DigitsValue(init) && n % 10 == last as int - '0' as int;
      assert Decimal(n) == Decimal(n / 10) + [last];
      assert seg == init + [last];
    }
  }

  /**
   * PHP's `(string)` cast as used in a concatenation: None when the cast
   * raises ("Array to string conversion", promoted to an exception).
   */
  function ToPhpString(j: Json): (r: Option<string>)
    ensures r.None? <==> j.JList? || j.JObject?
    ensures j.JStr? ==> r == Some(j.s)
  {
    match j
    case JNull => Some("")
    case JBool(b) => Some(if b then "1" else "")
    case JInt(n) => Some(IntToString(n))
    case JStr(s) => Some(s)
    case JList(_) => None
    case JObject(_) => None
  }

  /** One step of `data_get`: the member named `seg`, or null when there is none. */
  function Child(j: Json, seg: string): (r: Json)
    ensures j.JObject? && seg in j.fields ==> r == j.fields[seg]
    ensures !j.JObject? && !j.JList? ==> r == JNull
  {
    match j
    case JObject(m) => if seg in m then m[seg] else JNull
    case JList(xs) =>
      var k := ParseIndex(seg);
      if k.Some? && k.value < |xs| then xs[k.value] else JNull
    case _ => JNull
  }

  /** Laravel's `data_get(j, "a.b.c")` with the path already split at the dots. */
  function DataGet(j: Json, path: seq<string>): (r: Json)
    ensures path == [] ==> r == j
    ensures path != [] && !j.JObject? && !j.JList? ==> r == JNull
    ensures path != [] && j.JObject? && path[0] !in j.fields ==> r == JNull
    decreases |path|
  {
    if path == [] then j else DataGet(Child(j, path[0]), path[1..])
  }

  /**
   * `data_get(j, p0) ?? data_get(j, p1) ?? ... ?? fallback`: PHP's `??`
   * skips null only, so `false`, `0` and `""` are kept.
   */
  function FirstPresent(j: Json, paths: seq<seq<string>>, fallback: Json): (r: Json)
    ensures r == fallback || exists k | 0 <= k < |paths| :: r == DataGet(j, paths[k]) && r != JNull
    decreases |paths|
  {
    if paths == [] then fallback
    else if DataGet(j, paths[0]) != JNull then DataGet(j, paths[0])
    else FirstPresent(j, paths[1..], fallback)
  }

  /**
   * The coalescing chain yields the value at the first path that is not
   * null, and the fallback exactly when every path is null.
   */
  lemma {:induction false} FirstPresentIsFirst(j: Json, paths: seq<seq<string>>, fallback: Json, k: nat)
    requires k < |paths|
    requires DataGet(j, paths[k]) != JNull
    requires forall i | 0 <= i < k :: DataGet(j, paths[i]) == JNull
    ensures FirstPresent(j, paths, fallback) == DataGet(j, paths[k])
  {
    if k > 0 {
      assert DataGet(j, paths[0]) == JNull;
      FirstPresentIsFirst(j, paths[1..], fallback, k - 1);
    }
  }

  lemma {:induction false} FirstPresentFallback(j: Json, paths: seq<seq<string>>, fallback: Json)
    requires forall i | 0 <= i < |paths| :: DataGet(j, paths[i]) == JNull
    ensures FirstPresent(j, paths, fallback) == fallback
  {
    if paths != [] {
      assert DataGet(j, paths[0]) == JNull;
      FirstPresentFallback(j, paths[1..], fallback);
    }
  }
}
