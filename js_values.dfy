/**
 * The JavaScript values that reach the request handlers through the parsed
 * JSON body, and the two coercions the handlers apply to them: truthiness
 * (`!x`, `x || default`) and `String(x)`, which is also how a value becomes
 * a property key of a plain object (`store[x]`).
 *
 * Numbers are modelled as the safe integers of a double, those of magnitude at
 * most 2^53 - 1 (`Number.MAX_SAFE_INTEGER`); for them `String` of a
 * non-negative integer is its exact decimal numeral, as produced by
 * `Number.prototype.toString()`.
 */
module JsValues {

  /** `Number.MAX_SAFE_INTEGER`, 2^53 - 1. */
  const MaxSafeInteger: int := 9007199254740991

  /** An integer a double holds exactly, whose `String` is its exact numeral. */
  type SafeInteger = n: int | -MaxSafeInteger <= n <= MaxSafeInteger

  /** A primitive value of a parsed JSON request body (absent fields are Undefined). */
  datatype Json =
    | Undefined
    | Null
    | Bool(b: bool)
    | Number(n: SafeInteger)
    | Str(s: string)

  /** JavaScript truthiness: false, 0, "", null and undefined are the only falsy values. */
  function Truthy(v: Json): (truthy: bool)
    ensures !truthy <==> v in {Undefined, Null, Bool(false), Number(0), Str("")}
  {
    match v
    case Undefined => false
    case Null => false
    case Bool(b) => b
    case Number(n) => n != 0
    case Str(s) => s != ""
  }

  predicate IsDigit(c: char) {
    '0' <= c <= '9'
  }

  predicate AllDigits(s: string) {
    forall i :: 0 <= i < |s| ==> IsDigit(s[i])
  }

  /** A decimal numeral as JavaScript prints one: digits only, no leading zero unless it is "0". */
  predicate CanonicalNumeral(s: string) {
    |s| >= 1 && AllDigits(s) && (s[0] == '0' ==> |s| == 1)
  }

  function DigitChar(d: nat): (c: char)
    requires d < 10
    ensures IsDigit(c)
  {
    ('0' as int + d) as char
  }

  function DigitValue(c: char): (d: nat)
    requires IsDigit(c)
    ensures d < 10
  {
    c as int - '0' as int
  }

  /** The decimal numeral of n, most significant digit first. */
  function Decimal(n: nat): (s: string)
    ensures CanonicalNumeral(s)
    ensures s[0] == '0' <==> n == 0
    decreases n
  {
    if n < 10 then [DigitChar(n)] else Decimal(n / 10) + [DigitChar(n % 10)]
  }

  /** The number a string of decimal digits denotes (its inverse reading). */
  function DigitsValue(s: string): nat
    requires AllDigits(s)
    decreases |s|
  {
    if s == [] then 0 else DigitsValue(s[..|s| - 1]) * 10 + DigitValue(s[|s| - 1])
  }

  function Pow10(k: nat): (p: nat)
    ensures p >= 1
  {
    if k == 0 then 1 else 10 * Pow10(k - 1)
  }

  /** Reading back the numeral of n gives n. */
  lemma {:induction false} DecimalRoundTrip(n: nat)
    ensures DigitsValue(Decimal(n)) == n
  {
    if n >= 10 {
      DecimalRoundTrip(n / 10);
      var s := Decimal(n);
      assert s[..|s| - 1] == Decimal(n / 10);
    }
  }

  /** Every canonical numeral is the numeral of the number it denotes. */
  lemma {:induction false} DecimalOfValue(s: string)
    requires CanonicalNumeral(s)
    ensures Decimal(DigitsValue(s)) == s
  {
    if |s| > 1 {
      var prefix := s[..|s| - 1];
      assert prefix[0] == s[0];
      DecimalOfValue(prefix);
      var v := DigitsValue(s);
      assert v == DigitsValue(prefix) * 10 + DigitValue(s[|s| - 1]);
      assert DigitsValue(prefix) != 0;
      assert v / 10 == DigitsValue(prefix) && v % 10 == DigitValue(s[|s| - 1]);
      assert DigitChar(v % 10) == s[|s| - 1];
    }
  }

  /** Two numbers print alike only if they are equal. */
  lemma DecimalInjective(m: nat, n: nat)
    ensures Decimal(m) == Decimal(n) <==> m == n
  {
    if Decimal(m) == Decimal(n) {
      DecimalRoundTrip(m);
      DecimalRoundTrip(n);
    }
  }

  /** A number of k + 1 digits prints as k + 1 characters. */
  lemma {:induction false} DecimalLength(n: nat, k: nat)
    requires Pow10(k) <= n < Pow10(k + 1)
    ensures |Decimal(n)| == k + 1
  {
    if k > 0 {
      assert Pow10(k) == 10 * Pow10(k - 1);
      assert Pow10(k + 1) == 10 * Pow10(k);
      assert Pow10(k - 1) <= n / 10 < Pow10(k);
      DecimalLength(n / 10, k - 1);
    }
  }

  /**
   * `String(v)` for a primitive v: a string is itself, a non-negative number
   * is a canonical numeral that reads back to it, a negative one is "-" and
   * the numeral of its magnitude.
   */
  function ToJsString(v: Json): (s: string)
    ensures v.Str? ==> s == v.s
    ensures v.Number? && v.n >= 0 ==> CanonicalNumeral(s) && DigitsValue(s) == v.n
    ensures v.Number? && v.n < 0 ==>
      |s| >= 2 && s[0] == '-' && CanonicalNumeral(s[1..]) && DigitsValue(s[1..]) == -v.n
    ensures v.Undefined? ==> s == "undefined"
    ensures v.Null? ==> s == "null"
    ensures v.Bool? ==> s == (if v.b then "true" else "false")
  {
    match v
    case Undefined => "undefined"
    case Null => "null"
    case Bool(b) => if b then "true" else "false"
    case Number(n) =>
      DecimalRoundTrip(if n >= 0 then n else -n);
      if n >= 0 then Decimal(n) else "-" + Decimal(-n)
    case Str(s) => s
  }

  /** `String` tells numbers apart: it is injective on numbers. */
  lemma NumberStringInjective(a: SafeInteger, b: SafeInteger)
    ensures ToJsString(Number(a)) == ToJsString(Number(b)) <==> a == b
  {
    if ToJsString(Number(a)) == ToJsString(Number(b)) {
      if a >= 0 && b >= 0 {
        DecimalInjective(a, b);
      } else if a < 0 && b < 0 {
        assert Decimal(-a) == ToJsString(Number(a))[1..];
        assert Decimal(-b) == ToJsString(Number(b))[1..];
        DecimalInjective(-a, -b);
      }
    }
  }
}
