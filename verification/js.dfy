/**
 * JavaScript values as they arrive in request bodies, route parameters and
 * socket payloads, with the coercions the handlers apply to them: truthiness,
 * `Number(x)`, express-validator's `toString` and `isInt`.
 *
 * All integer coercions share one decimal parser, `ParseInt`: an optional
 * sign followed by one or more decimal digits.
 */
module Js {
  import opened Wrappers

  /** A JSON value of the shapes the handlers distinguish (objects and arrays excluded). */
  datatype Value = Undefined | Null | Bool(b: bool) | Num(n: int) | Str(s: string)

  /** A flat JSON object: request bodies, route parameters and response bodies. */
  type Object = map<string, Value>

  /** Property access: a missing property reads as `undefined`. */
  function Get(o: Object, key: string): Value {
    if key in o then o[key] else Undefined
  }

  /** JavaScript truthiness: `undefined`, `null`, `false`, `0` and `''` are falsy. */
  predicate Truthy(v: Value) {
    match v
    case Undefined => false
    case Null => false
    case Bool(b) => b
    case Num(n) => n != 0
    case Str(s) => s != ""
  }

  /** Truthiness of an optional string field. */
  predicate TruthyText(s: Option<string>) {
    s.Some? && s.value != ""
  }

  predicate IsDigit(c: char) {
    '0' <= c <= '9'
  }

  predicate AllDigits(s: string) {
    forall i :: 0 <= i < |s| ==> IsDigit(s[i])
  }

  function DigitValue(c: char): nat
    requires IsDigit(c)
  {
    (c as int) - ('0' as int)
  }

  function DigitChar(d: nat): char
    requires d < 10
  {
    ('0' as int + d) as char
  }

  /** The value of a string of decimal digits, most significant digit first. */
  function DigitsValue(s: string): nat
    requires AllDigits(s)
    decreases |s|
  {
    if s == [] then 0 else DigitsValue(s[..|s| - 1]) * 10 + DigitValue(s[|s| - 1])
  }

  /** Decimal integer text: an optional '+' or '-' followed by at least one digit. */
  function ParseInt(s: string): Option<int> {
    if |s| > 1 && (s[0] == '-' || s[0] == '+') then
      if AllDigits(s[1..]) then
        var d: int := DigitsValue(s[1..]);
        Some(if s[0] == '-' then -d else d)
      else None
    else if |s| > 0 && AllDigits(s) then Some(DigitsValue(s))
    else None
  }

  /** Canonical decimal rendering of a natural number. */
  function ShowNat(n: nat): string
    decreases n
  {
    if n < 10 then [DigitChar(n)] else ShowNat(n / 10) + [DigitChar(n % 10)]
  }

  /** Canonical decimal rendering of an integer, as JavaScript's `String(n)`. */
  function ShowInt(n: int): string {
    if n < 0 then "-" + ShowNat(-n) else ShowNat(n)
  }

  lemma {:induction false} ShowNatDigits(n: nat)
    ensures |ShowNat(n)| > 0
    ensures AllDigits(ShowNat(n))
    ensures DigitsValue(ShowNat(n)) == n
    decreases n
  {
    if n >= 10 {
      ShowNatDigits(n / 10);
      var s := ShowNat(n);
      assert s[..|s| - 1] == ShowNat(n / 10);
    }
  }

  /** Rendering an integer and parsing it back yields the same integer. */
  lemma ParseShowRoundTrip(n: int)
    ensures ParseInt(ShowInt(n)) == Some(n)
  {
    ShowNatDigits(if n < 0 then -n else n);
    if n < 0 {
      assert ShowInt(n)[1..] == ShowNat(-n);
    } else {
      assert ShowNat(n)[0] != '-' && ShowNat(n)[0] != '+';
    }
  }

  /**
   * JavaScript's `Number(v)` restricted to integer results: None stands for
   * NaN. The empty string coerces to 0, as in JavaScript.
   */
  function ToNumber(v: Value): Option<int> {
    match v
    case Undefined => None
    case Null => Some(0)
    case Bool(b) => Some(if b then 1 else 0)
    case Num(n) => Some(n)
    case Str(s) => if s == "" then Some(0) else ParseInt(s)
  }

  /** express-validator's `toString`: the text a validator sees for a value. */
  function ToText(v: Value): string {
    match v
    case Undefined => ""
    case Null => ""
    case Bool(b) => if b then "true" else "false"
    case Num(n) => ShowInt(n)
    case Str(s) => s
  }

  /** `parseInt(param)` on a route parameter or a body field. */
  function ParamInt(v: Value): Option<int> {
    ParseInt(ToText(v))
  }

  /** express-validator's `isInt({ min: lo })`. */
  predicate IsIntAtLeast(v: Value, lo: int) {
    var p := ParseInt(ToText(v));
    p.Some? && p.value >= lo
  }

  /** express-validator's `isInt({ min: 1 })` holds of a number exactly when it is positive. */
  lemma PositiveNumberIsInt(n: int)
    ensures IsIntAtLeast(Num(n), 1) <==> n >= 1
  {
    ParseShowRoundTrip(n);
  }
}
