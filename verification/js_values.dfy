/** JavaScript primitive values as they reach the request handlers: the fields
    of a parsed JSON request body and the `genre` query parameter. The module
    also gives the two implicit conversions the handlers rely on: truthiness
    (`if (x)`, `a && b`, `a || b`) and conversion to a string (template
    literals and the property lookup `obj[x]`). */
module JsValues {

  /** A JSON primitive, or `Undefined` for a field that is not present.
      Numbers are integers here; see README for what that leaves out. */
  datatype JsValue =
    | Undefined
    | Null
    | Bool(b: bool)
    | Num(n: int)
    | Str(s: string)

  /** ECMAScript ToBoolean: the empty string, zero, `false`, `null` and
      `undefined` are falsy; everything else is truthy. */
  predicate Truthy(v: JsValue) {
    match v
    case Undefined => false
    case Null => false
    case Bool(b) => b
    case Num(n) => n != 0
    case Str(s) => s != ""
  }

  predicate IsDigit(c: char) {
    '0' <= c <= '9'
  }

  predicate AllDigits(s: string) {
    forall i :: 0 <= i < |s| ==> IsDigit(s[i])
  }

  function DigitChar(d: nat): (c: char)
    requires d < 10
  {
    ('0' as int + d) as char
  }

  function DigitValue(c: char): nat
    requires IsDigit(c)
  {
    c as int - '0' as int
  }

  /** The decimal digits of `n`, most significant first, without leading
      zeros. */
  function Decimal(n: nat): (s: string)
    ensures |s| > 0 && AllDigits(s)
    ensures n > 0 ==> s[0] != '0'
  {
    if n < 10 then [DigitChar(n)] else Decimal(n / 10) + [DigitChar(n % 10)]
  }

  /** The value of a string of decimal digits. */
  function ParseDecimal(s: string): nat
    requires AllDigits(s)
  {
    if |s| == 0 then 0 else ParseDecimal(s[..|s| - 1]) * 10 + DigitValue(s[|s| - 1])
  }

  /** Reading back the digits of a number gives the number. */
  lemma {:induction false} DecimalRoundTrip(n: nat)
    ensures ParseDecimal(Decimal(n)) == n
  {
    if n >= 10 {
      var s := Decimal(n);
      assert s[..|s| - 1] == Decimal(n / 10);
      DecimalRoundTrip(n / 10);
    }
  }

  /** ECMAScript ToString on the modelled values. */
  function ToJsString(v: JsValue): (r: string)
    ensures v.Str? ==> r == v.s
    ensures v.Num? ==> |r| > 0 && (r[0] == '-' || IsDigit(r[0]))
  {
    match v
    case Undefined => "undefined"
    case Null => "null"
    case Bool(b) => if b then "true" else "false"
    case Num(n) => if n < 0 then "-" + Decimal(-n) else Decimal(n)
    case Str(s) => s
  }

  /** A number's string form starts with a minus sign exactly when the
      number is negative, and the rest is the digits of its magnitude. */
  lemma NumberStringShape(n: int)
    ensures ToJsString(Num(n))[0] == '-' <==> n < 0
    ensures n < 0 ==> ToJsString(Num(n))[1..] == Decimal(-n)
    ensures n >= 0 ==> ToJsString(Num(n)) == Decimal(n)
  {
  }

  /** Distinct numbers convert to distinct strings, so a numeric property key
      names exactly one number. */
  lemma NumberStringInjective(m: int, n: int)
    requires ToJsString(Num(m)) == ToJsString(Num(n))
    ensures m == n
  {
    NumberStringShape(m);
    NumberStringShape(n);
    if m < 0 {
      DecimalRoundTrip(-m);
      DecimalRoundTrip(-n);
    } else {
      DecimalRoundTrip(m);
      DecimalRoundTrip(n);
    }
  }
}
