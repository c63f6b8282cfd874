/**
 * The JSON-like values that flow through the system: parsed request bodies,
 * quote-service responses and the fields the page reads from them.
 * Numbers carry their exact mathematical value; binary64 rounding is not modelled.
 */
module Js {

  datatype Value =
    | Undefined
    | Null
    | Bool(b: bool)
    | Num(n: real)
    | NaN
    | Infinity(negative: bool)
    | Str(s: string)
    | Arr(items: seq<Value>)
    | Obj(fields: map<string, Value>)

  /** JavaScript truthiness: `undefined`, `null`, `false`, `0`, `NaN` and `""` are falsy. */
  predicate Truthy(v: Value) {
    match v
    case Undefined => false
    case Null => false
    case Bool(b) => b
    case Num(n) => n != 0.0
    case NaN => false
    case Str(s) => s != ""
    case _ => true
  }

  /** The values on which a property read throws a TypeError. */
  predicate Nullish(v: Value) {
    v.Undefined? || v.Null?
  }

  /**
   * `v.key` for one of the plain data keys the system reads (`body`, `symbol`,
   * `price`, ...). Only objects own such keys; strings, numbers, booleans and
   * arrays answer `undefined`. Reading a property of a nullish value throws,
   * which callers model before calling this.
   */
  function Prop(v: Value, key: string): (r: Value)
    requires !Nullish(v)
    ensures !r.Undefined? ==> v.Obj? && key in v.fields && r == v.fields[key]
    ensures v.Obj? && key in v.fields ==> r == v.fields[key]
  {
    match v
    case Obj(fields) => if key in fields then fields[key] else Undefined
    case _ => Undefined
  }

  /** Outcome of `JSON.parse`: a value, or the SyntaxError it throws. */
  datatype ParseResult = Parsed(value: Value) | SyntaxError(message: string)

  /**
   * `JSON.parse` applied to an arbitrary value (JavaScript first converts a
   * non-string argument to a string). The grammar itself is not part of this
   * model, so every operation that parses takes one of these as a parameter.
   */
  type Parser = Value -> ParseResult
}
