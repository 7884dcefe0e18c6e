/**
 * Decoded JSON values, clock labels, and Python's `float(...)` applied to a
 * decoded value. Decoding itself (`json.loads`) and the text-to-number
 * conversion are not modelled: a message arrives already decoded, and the
 * conversion of a string is a parameter `parse` of the operations that need it.
 */
module JsonValues {
  import opened Wrappers

  /** A value produced by `json.loads`. Objects keep the last value of a repeated key. */
  datatype Json =
    | JNull
    | JBool(b: bool)
    | JNumber(n: real)
    | JString(s: string)
    | JArray(items: seq<Json>)
    | JObject(fields: map<string, Json>)

  /** Python's `float(s)` on a string: the number it denotes, or None where it raises ValueError. */
  type NumParser = string -> Option<real>

  /**
   * The text `datetime.fromtimestamp(t).strftime("%H:%M:%S")` produces for
   * `t` seconds since the epoch; the clock text itself is not modelled.
   */
  datatype Label = Clock(seconds: real)

  /**
   * The number Python sees in a decoded value that it may use as an `int`
   * or `float` directly: numbers, and booleans (a subclass of `int`).
   * Every other value makes arithmetic and `fromtimestamp` raise TypeError.
   */
  function NumericValue(j: Json): (r: Option<real>)
    ensures r.Some? <==> (j.JNumber? || j.JBool?)
    ensures j.JNumber? ==> r == Some(j.n)
    ensures j.JBool? ==> r == Some(if j.b then 1.0 else 0.0)
  {
    match j
    case JNumber(n) => Some(n)
    case JBool(b) => Some(if b then 1.0 else 0.0)
    case _ => None
  }

  /** Python's `float(j)` on a decoded value: strings go through `parse`; null, lists and dicts raise. */
  function FloatOf(j: Json, parse: NumParser): (r: Option<real>)
    ensures j.JString? ==> r == parse(j.s)
    ensures !j.JString? ==> r == NumericValue(j)
    ensures (j.JNull? || j.JArray? || j.JObject?) ==> r.None?
  {
    if j.JString? then parse(j.s) else NumericValue(j)
  }
}
