// The untyped JavaScript values that reach the sanitisers (form input,
// loaded JSON, handler arguments), with the coercions the source relies on:
// truthiness, `Number(value)`, optional chaining and `??`.
module JsValues {
  import opened Wrappers
  import Text

  /** A JavaScript number. Only integral finite values are modelled. */
  datatype Num = Finite(v: int) | NaN | Infinity(positive: bool)

  /** `Number.isFinite(n) ? n : default`. */
  function FiniteOr(n: Num, default: int): (r: int)
    ensures n.Finite? ==> r == n.v
    ensures !n.Finite? ==> r == default
  {
    if n.Finite? then n.v else default
  }

  datatype Js =
    | Undefined
    | Null
    | Bool(b: bool)
    | Number(n: Num)
    | Str(s: string)
    | Array(items: seq<Js>)
    | Object(fields: map<string, Js>)

  /** `key` is an own property of `v`, so a spread `{...v}` copies it. */
  predicate HasOwn(v: Js, key: string)
  {
    v.Object? && key in v.fields
  }

  /** `Boolean(v)`. */
  predicate Truthy(v: Js)
  {
    match v
    case Undefined => false
    case Null => false
    case Bool(b) => b
    case Number(n) => (n.Finite? && n.v != 0) || n.Infinity?
    case Str(s) => |s| > 0
    case Array(_) => true
    case Object(_) => true
  }

  /** `v === null || v === undefined`, the test behind `??`. */
  predicate Nullish(v: Js)
  {
    v.Undefined? || v.Null?
  }

  /** `v?.[key]` on a plain object; other values have no such own property. */
  function Get(v: Js, key: string): (r: Js)
    ensures !v.Object? ==> r == Undefined
    ensures v.Object? && key !in v.fields ==> r == Undefined
  {
    if v.Object? && key in v.fields then v.fields[key] else Undefined
  }

  predicate IsDigit(c: char)
  {
    '0' <= c <= '9'
  }

  function DigitsValue(s: string): int
    requires forall i :: 0 <= i < |s| ==> IsDigit(s[i])
  {
    if |s| == 0 then 0 else 10 * DigitsValue(s[..|s| - 1]) + (s[|s| - 1] as int - '0' as int)
  }

  /** The integer a (trimmed) decimal literal with an optional sign denotes. */
  function ParseDecimal(s: string): Option<int>
  {
    if |s| > 0 && (s[0] == '-' || s[0] == '+') then
      var body := s[1..];
      if |body| > 0 && forall i :: 0 <= i < |body| ==> IsDigit(body[i]) then
        Some(if s[0] == '-' then 0 - DigitsValue(body) else DigitsValue(body))
      else None
    else if |s| > 0 && forall i :: 0 <= i < |s| ==> IsDigit(s[i]) then Some(DigitsValue(s))
    else None
  }

  /**
   * `Number(v)`. Strings: trimmed, empty is 0, a decimal integer or
   * `Infinity` is that value, anything else NaN. An array converts through
   * its text: empty is 0, a single element converts as its own text (null
   * and undefined as the empty text), and two or more, joined by commas,
   * are NaN.
   */
  function ToNumber(v: Js): (r: Num)
    ensures v.Number? ==> r == v.n
    ensures v.Undefined? ==> r == NaN
    ensures v.Null? ==> r == Finite(0)
  {
    match v
    case Undefined => NaN
    case Null => Finite(0)
    case Bool(b) => Finite(if b then 1 else 0)
    case Number(n) => n
    case Str(s) =>
      var t := Text.Trim(s);
      if t == "" then Finite(0)
      else if t == "Infinity" || t == "+Infinity" then Infinity(true)
      else if t == "-Infinity" then Infinity(false)
      else if ParseDecimal(t).Some? then Finite(ParseDecimal(t).value)
      else NaN
    case Array(items) =>
      if |items| == 1 then
        match items[0]
        case Undefined => Finite(0)
        case Null => Finite(0)
        case Bool(_) => NaN
        case Object(_) => NaN
        case _ => ToNumber(items[0])
      else if |items| == 0 then Finite(0)
      else NaN
    case Object(_) => NaN
  }

  /** A string-valued field: `Str` gives the text, anything else is absent. */
  function StrOf(v: Js): Option<string>
  {
    if v.Str? then Some(v.s) else None
  }
}
