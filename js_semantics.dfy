/** The few JavaScript operations that callSiteCapture relies on, stated
    over Dafny values: nullish values and `??`, array indexing with an
    arbitrary integer, `Array.prototype.slice(start)`,
    `String.prototype.substring(start)`, `Number.prototype.toString()` on a
    non-negative integer, and the rendering of a possibly absent number
    inside a template literal. */
module JsSemantics {

  datatype Option<+T> = None | Some(value: T)

  /** A value that a getter may return: a real value, `null` or `undefined`. */
  datatype Nullish<+T> = Present(value: T) | Null | Undefined

  function Min(a: int, b: int): int { if a <= b then a else b }

  function Max(a: int, b: int): int { if a <= b then b else a }

  /** `x` forced into the range `lo..hi`. */
  function Clamp(x: int, lo: int, hi: int): (r: int)
    requires lo <= hi
    ensures lo <= r <= hi
    ensures lo <= x <= hi ==> r == x
  {
    if x < lo then lo else if hi < x then hi else x
  }

  /** `x ?? fallback`: the fallback replaces only `null` and `undefined`. */
  function Coalesce<T>(x: Nullish<T>, fallback: T): (r: T)
    ensures x.Present? ==> r == x.value
    ensures !x.Present? ==> r == fallback
  {
    match x
    case Present(v) => v
    case Null => fallback
    case Undefined => fallback
  }

  /** `s[i]` for any integer `i`: `undefined` unless `i` is a valid index. */
  function Lookup<T>(s: seq<T>, i: int): (r: Option<T>)
    ensures r.Some? <==> 0 <= i < |s|
    ensures r.Some? ==> r.value == s[i]
  {
    if 0 <= i < |s| then Some(s[i]) else None
  }

  /** `s.slice(start)`: a negative start counts back from the end, a start
      past the end gives the empty array. */
  function Slice<T>(s: seq<T>, start: int): (r: seq<T>)
    ensures |r| <= |s| && r == s[|s| - |r|..]
    ensures 0 <= start ==> |r| == |s| - Min(start, |s|)
    ensures start < 0 ==> |r| == Min(-start, |s|)
  {
    var from := if start < 0 then Max(|s| + start, 0) else Min(start, |s|);
    s[from..]
  }

  /** `s.substring(start)`: the start is clamped to `0..|s|` first, so a
      negative or oversized start never fails. */
  function Substring(s: string, start: int): (r: string)
    ensures |r| == |s| - Clamp(start, 0, |s|)
    ensures r == s[|s| - |r|..]
  {
    s[Clamp(start, 0, |s|)..]
  }

  /** Raising the start of `substring` never lengthens the result, and the
      shorter result is a suffix of the longer one. */
  lemma SubstringMonotone(s: string, a: int, b: int)
    requires a <= b
    ensures |Substring(s, b)| <= |Substring(s, a)|
    ensures Substring(s, b) == Substring(s, a)[|Substring(s, a)| - |Substring(s, b)|..]
  {
  }

  predicate IsDigit(c: char) { '0' <= c <= '9' }

  /** A non-empty string of decimal digits. */
  predicate IsDecimal(s: string)
  {
    |s| > 0 && forall i :: 0 <= i < |s| ==> IsDigit(s[i])
  }

  function DigitChar(d: nat): (c: char)
    requires d < 10
    ensures IsDigit(c)
  {
    (48 + d) as char
  }

  function DigitValue(c: char): (d: nat)
    ensures d < 10
  {
    if IsDigit(c) then (c as int) - 48 else 0
  }

  /** `n.toString()` for a non-negative integer `n`: its decimal digits,
      with no leading zero unless `n` is zero. */
  function DecimalString(n: nat): (r: string)
    ensures IsDecimal(r)
    ensures r[0] == '0' ==> r == "0"
    decreases n
  {
    if n < 10 then [DigitChar(n)] else DecimalString(n / 10) + [DigitChar(n % 10)]
  }

  /** The number a string of decimal digits denotes (most significant first). */
  function DecimalValue(s: string): nat
  {
    if s == [] then 0 else DecimalValue(s[..|s| - 1]) * 10 + DigitValue(s[|s| - 1])
  }

  /** Reading back the digits `toString` writes gives the number again. */
  lemma {:induction false} DecimalRoundTrip(n: nat)
    ensures DecimalValue(DecimalString(n)) == n
    decreases n
  {
    var s := DecimalString(n);
    if n < 10 {
      assert s[..|s| - 1] == [];
    } else {
      var high := DecimalString(n / 10);
      assert s[..|s| - 1] == high;
      DecimalRoundTrip(n / 10);
    }
  }

  /** `s` is the decimal text of `n` in the form `toString` writes it:
      digits only, no leading zero unless `n` is 0, denoting `n`. */
  predicate IsDecimalOf(s: string, n: nat)
  {
    IsDecimal(s) && (s[0] == '0' ==> s == "0") && DecimalValue(s) == n
  }

  /** Exactly one string is the decimal text of `n`: the one `toString`
      writes. So "07" is not the text of 7. */
  lemma {:induction false} DecimalOfIff(s: string, n: nat)
    ensures IsDecimalOf(s, n) <==> s == DecimalString(n)
    decreases |s|
  {
    DecimalRoundTrip(n);
    if IsDecimalOf(s, n) {
      if |s| == 1 {
        assert s[..0] == [];
        assert DecimalValue(s[..0]) == 0;
        assert DecimalValue(s) == DecimalValue(s[..0]) * 10 + DigitValue(s[0]);
        assert n == DigitValue(s[0]);
        assert DigitChar(n) == s[0];
        assert s == [s[0]];
      } else {
        var p := s[..|s| - 1];
        var m := DecimalValue(p);
        assert p[0] == s[0];
        assert IsDecimal(p);
        DecimalOfIff(p, m);
        assert DecimalString(0) == "0";
        assert m != 0;
        assert n / 10 == m && n % 10 == DigitValue(s[|s| - 1]);
        assert (48 + DigitValue(s[|s| - 1])) as char == s[|s| - 1];
        assert s == p + [s[|s| - 1]];
      }
    }
  }

  /** `${x}` in a template literal for a number that may be absent. */
  function TemplateText(x: Nullish<nat>): (r: string)
    ensures x.Present? ==> IsDecimalOf(r, x.value)
    ensures x.Null? ==> r == "null"
    ensures x.Undefined? ==> r == "undefined"
  {
    match x
    case Present(n) => DecimalRoundTrip(n); DecimalString(n)
    case Null => "null"
    case Undefined => "undefined"
  }

  /** `x?.toString()`: the decimal string of a present number, `undefined`
      (here `None`) for `null` and `undefined`. */
  function OptionalToString(x: Nullish<nat>): (r: Option<string>)
    ensures r.Some? <==> x.Present?
    ensures r.Some? ==> IsDecimalOf(r.value, x.value)
  {
    match x
    case Present(n) => DecimalRoundTrip(n); Some(DecimalString(n))
    case Null => None
    case Undefined => None
  }

  /** The position of the last `c` in `s`, if any. */
  function LastIndexOf(s: string, c: char): (r: Option<nat>)
    ensures r.Some? ==> r.value < |s| && s[r.value] == c
    ensures r.Some? ==> forall j :: r.value < j < |s| ==> s[j] != c
    ensures r.None? ==> forall j :: 0 <= j < |s| ==> s[j] != c
  {
    if s == [] then None
    else if s[|s| - 1] == c then Some(|s| - 1)
    else LastIndexOf(s[..|s| - 1], c)
  }

  /** Splits `s` around its last `c`. */
  function SplitLast(s: string, c: char): Option<(string, string)>
  {
    match LastIndexOf(s, c)
    case None => None
    case Some(i) => Some((s[..i], s[i + 1..]))
  }

  /** When the part after a separator holds no separator, splitting at the
      last separator recovers both parts. */
  lemma SplitLastJoin(a: string, c: char, b: string)
    requires c !in b
    ensures SplitLast(a + [c] + b, c) == Some((a, b))
  {
    var s := a + [c] + b;
    assert s[|a|] == c;
    assert forall j :: |a| < j < |s| ==> s[j] == b[j - |a| - 1];
    var i := LastIndexOf(s, c).value;
    assert i == |a|;
    assert s[..i] == a;
    assert s[i + 1..] == b;
  }

  /** Whatever `SplitLast` returns glues back into the string it split. */
  lemma SplitLastRejoin(s: string, c: char, a: string, b: string)
    requires SplitLast(s, c) == Some((a, b))
    ensures s == a + [c] + b
  {
    var i := LastIndexOf(s, c).value;
    assert s == s[..i] + [s[i]] + s[i + 1..];
  }

  lemma DecimalHasNoColon(s: string)
    requires IsDecimal(s)
    ensures ':' !in s
  {
  }

  /** Neither a number nor `null`/`undefined` prints with a colon. */
  lemma TemplateTextHasNoColon(x: Nullish<nat>)
    ensures ':' !in TemplateText(x)
  {
  }
}
