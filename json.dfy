/**
 * JSON values as the Node handlers and the React components receive them, with the JavaScript
 * coercions the guard chains rely on: truthiness, `Number(v)` (behind `isNaN`) and `parseFloat`.
 * A missing key (`undefined`) is `None`.
 */
module Json {
  import opened Wrappers
  import opened Text

  datatype JsonValue = JNull | JBool(b: bool) | JNum(n: real) | JStr(s: string)

  type Object = map<string, JsonValue>

  /** `obj[key]`: `None` stands for `undefined`. */
  function Get(obj: Object, key: string): Option<JsonValue>
  {
    if key in obj then Some(obj[key]) else None
  }

  /** JavaScript truthiness: `undefined`, `null`, `false`, `0` and `""` are falsy. */
  predicate Truthy(v: Option<JsonValue>)
  {
    match v
    case None => false
    case Some(JNull) => false
    case Some(JBool(b)) => b
    case Some(JNum(n)) => n != 0.0
    case Some(JStr(s)) => s != ""
  }

  /** The text after an optional leading sign. */
  function Unsigned(s: string): string
  {
    if |s| > 0 && (s[0] == '-' || s[0] == '+') then s[1..] else s
  }

  /** Index of the first '.', or the length when there is none. */
  function DotIndex(u: string): (k: nat)
    ensures k <= |u|
    ensures forall i :: 0 <= i < k ==> u[i] != '.'
    ensures k < |u| ==> u[k] == '.'
  {
    if u == [] then 0 else if u[0] == '.' then 0 else 1 + DotIndex(u[1..])
  }

  function IntPart(u: string): string { u[..DotIndex(u)] }

  function FracPart(u: string): string
  {
    var k := DotIndex(u);
    if k == |u| then "" else u[k + 1..]
  }

  /** Decimal numeral text: optional sign, digits, optional '.' and digits, at least one digit. */
  predicate IsNumericText(s: string)
  {
    var u := Unsigned(s);
    AllDigits(IntPart(u)) && AllDigits(FracPart(u)) && |IntPart(u)| + |FracPart(u)| >= 1
  }

  /** The number a numeral denotes: integer digits plus fraction digits scaled down. */
  function NumericValue(s: string): real
    requires IsNumericText(s)
  {
    var u := Unsigned(s);
    var magnitude := DigitsValue(IntPart(u)) as real + DigitsValue(FracPart(u)) as real / Pow10(|FracPart(u)|) as real;
    if |s| > 0 && s[0] == '-' then -magnitude else magnitude
  }

  /** `Number(v)`; `None` is NaN. The empty string converts to 0. */
  function ToNumber(v: Option<JsonValue>): Option<real>
  {
    match v
    case None => None
    case Some(JNull) => Some(0.0)
    case Some(JBool(b)) => Some(if b then 1.0 else 0.0)
    case Some(JNum(n)) => Some(n)
    case Some(JStr(s)) =>
      if s == "" then Some(0.0) else if IsNumericText(s) then Some(NumericValue(s)) else None
  }

  predicate IsNaN(v: Option<JsonValue>) { ToNumber(v).None? }

  /** `parseFloat(v)`; `None` is NaN. Unlike `Number`, the empty string, `null` and booleans give NaN. */
  function ParseFloat(v: Option<JsonValue>): Option<real>
  {
    match v
    case Some(JNum(n)) => Some(n)
    case Some(JStr(s)) => if IsNumericText(s) then Some(NumericValue(s)) else None
    case _ => None
  }

  /** A number as `JSON.stringify` writes it, NaN (None) becoming null. */
  function Serialized(n: Option<real>): (v: JsonValue)
    ensures v == JNull <==> n.None?
    ensures n.Some? ==> ToNumber(Some(v)) == n
  {
    if n.Some? then JNum(n.value) else JNull
  }

  /** A non-negative value always reads back as non-negative, and a leading '-' flips the sign. */
  lemma NumericValueSign(s: string)
    requires IsNumericText(s)
    ensures (|s| == 0 || s[0] != '-') ==> NumericValue(s) >= 0.0
    ensures |s| > 0 && s[0] == '-' ==> NumericValue(s) <= 0.0
  {
  }

  /** Where `Number` and `parseFloat` both give a number, it is the same number. */
  lemma ParseFloatAgreesWithNumber(v: Option<JsonValue>)
    ensures ParseFloat(v).Some? ==> ToNumber(v) == ParseFloat(v)
    ensures Truthy(v) && !IsNaN(v) && v.Some? && (v.value.JNum? || v.value.JStr?) ==> ParseFloat(v).Some?
  {
  }

  /** A number reads back as itself under both coercions. */
  lemma NumberCoercionsOnNumbers(n: real)
    ensures ToNumber(Some(JNum(n))) == Some(n) && ParseFloat(Some(JNum(n))) == Some(n)
    ensures !IsNaN(Some(JNum(n)))
  {
  }

  /** Text that is not a numeral — "abc", "1.2.3", "-" — is NaN. */
  lemma NonNumeralTextIsNaN(s: string)
    requires s != "" && !IsNumericText(s)
    ensures IsNaN(Some(JStr(s))) && ParseFloat(Some(JStr(s))).None?
  {
  }
}
