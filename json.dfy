/**
 * JSON-like values as the two wrappers see them: configuration documents read
 * from disk and DynamoDB items converted by the document client.
 */
module Json {

  /**
   * A JSON value. Numbers are exact decimals `mantissa * 10^-exponent`: every
   * number the code writes is a decimal literal (`10`, `1.5`, `0`, `1`) and
   * DynamoDB stores numbers as decimals, so no floating point is involved.
   */
  datatype Value =
    | Null
    | Bool(b: bool)
    | Num(mantissa: int, exponent: nat)
    | Str(s: string)
    | Arr(elems: seq<Value>)
    | Obj(fields: map<string, Value>)

  /** The integer `n` as a JSON number. */
  function Int(n: int): Value {
    Num(n, 0)
  }

  function Pow10(e: nat): nat {
    if e == 0 then 1 else 10 * Pow10(e - 1)
  }

  /**
   * JavaScript truthiness of a value: `null`, `false`, `0` and `""` are falsy;
   * every array and every object, even an empty one, is truthy.
   */
  predicate Truthy(v: Value) {
    match v
    case Null => false
    case Bool(b) => b
    case Num(m, _) => m != 0
    case Str(s) => s != ""
    case Arr(_) => true
    case Obj(_) => true
  }

  /** `!!obj[key]`: a missing key reads as `undefined`, which is falsy too. */
  predicate FieldTruthy(fields: map<string, Value>, key: string) {
    key in fields && Truthy(fields[key])
  }
}
