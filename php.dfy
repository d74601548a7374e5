/**
 * The few PHP value rules the discount engine depends on: the truthiness of a
 * string (used by `if ($code)` and by `$validFrom ? ... : null`) and the scalar
 * values that can sit in a condition descriptor array.
 */
module Php {

  /** A string is falsy in PHP exactly when it is "" or "0". */
  predicate Truthy(s: string) {
    s != "" && s != "0"
  }

  /** A scalar stored in a PHP array; a missing key reads as `Null`. */
  datatype Value = Null | Int(i: int) | Float(r: real) | Str(s: string)

  /** A condition descriptor such as `['type' => 'cart_total', 'min_total' => 50.0]`. */
  type Descriptor = map<string, Value>

  /** `$data[$key] ?? null` */
  function Lookup(d: Descriptor, key: string): (v: Value)
    ensures key !in d ==> v == Null
    ensures key in d ==> v == d[key]
  {
    if key in d then d[key] else Null
  }
}
