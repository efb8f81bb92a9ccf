/** JSON values.  A string is its UTF-8 bytes, one character per byte; a float is the text that
    prints it; an object is a finite map, so values are equal up to the order of their keys. */
module Json {
  import opened Basics

  const DIGITS: set<char> := {'0', '1', '2', '3', '4', '5', '6', '7', '8', '9'}

  /** How many digits `t` starts with. */
  function DigitRun(t: string): (n: nat)
    ensures n <= |t|
  {
    if t == [] || t[0] !in DIGITS then 0 else 1 + DigitRun(t[1..])
  }

  /** The length of an optional part: nothing, or `lead` characters and at least one digit. */
  function PartLength(t: string, lead: nat): (n: Option<nat>)
    requires lead <= |t|
    ensures n.Some? ==> n.value <= |t|
  {
    if DigitRun(t[lead..]) == 0 then None else Some(lead + DigitRun(t[lead..]))
  }

  function FractionLength(t: string): (n: Option<nat>)
    ensures n.Some? ==> n.value <= |t|
  {
    if t == [] || t[0] != '.' then Some(0) else PartLength(t, 1)
  }

  function ExponentLength(t: string): (n: Option<nat>)
    ensures n.Some? ==> n.value <= |t|
  {
    if t == [] || t[0] !in {'e', 'E'} then Some(0)
    else PartLength(t, if |t| > 1 && t[1] in {'+', '-'} then 2 else 1)
  }

  /** The length of the digits and the sign before them, without a needless zero. */
  function WholeLength(t: string): (n: Option<nat>)
    ensures n.Some? ==> n.value <= |t|
  {
    var sign := if t != [] && t[0] == '-' then 1 else 0;
    var digits := DigitRun(t[sign..]);
    if digits == 0 || (digits > 1 && t[sign] == '0') then None else Some(sign + digits)
  }

  /** The length of what may follow the integer part. */
  function TailLength(t: string): (n: Option<nat>)
    ensures n.Some? ==> n.value <= |t|
  {
    var fraction := FractionLength(t);
    if fraction.None? then None
    else
      var exponent := ExponentLength(t[fraction.value..]);
      if exponent.None? then None else Some(fraction.value + exponent.value)
  }

  /** The number that `t` starts with, as section 6 of RFC 8259 defines it: where its integer part ends, and its end. */
  function ScanNumber(t: string): (n: Option<(nat, nat)>)
    ensures n.Some? ==> n.value.0 <= n.value.1 <= |t|
  {
    var whole := WholeLength(t);
    if whole.None? then None
    else
      var tail := TailLength(t[whole.value..]);
      if tail.None? then None else Some((whole.value, whole.value + tail.value))
  }

  predicate IsNumberChar(c: char) {
    c in DIGITS || c in {'-', '+', '.', 'e', 'E'}
  }

  /** A number with a fraction or an exponent; the printer writes a small e. */
  predicate IsFloatText(text: string) {
    && (forall c :: c in text ==> IsNumberChar(c) && c != 'E')
    && ScanNumber(text).Some? && ScanNumber(text).value.0 < ScanNumber(text).value.1 == |text|
  }

  type FloatText = text: string | IsFloatText(text) witness "0.0"

  datatype Number = Int(value: int) | Float(text: FloatText)

  datatype Value =
    | Null
    | Bool(bool)
    | Number(number: Number)
    | String(text: string)
    | Array(items: seq<Value>)
    | Object(fields: map<string, Value>)

  predicate InI64(i: int) {
    I64_MIN <= i <= I64_MAX
  }

  /** `row.get(key).and_then(Value::as_i64)`. */
  function GetI64(fields: map<string, Value>, key: string): Option<int> {
    if key in fields && fields[key].Number? && fields[key].number.Int? && InI64(fields[key].number.value) then
      Some(fields[key].number.value)
    else None
  }

  /** `value.checked_mul(1_000)` on an optional 64-bit value. */
  function CheckedMillis(seconds: Option<int>): Option<int> {
    if seconds.Some? && InI64(seconds.value * 1_000) then Some(seconds.value * 1_000) else None
  }
}
