/**
 * The values a cache entry can hold: the `Cacheable` (Codable) types the
 * library is used with, namely strings, integers, booleans, doubles and
 * arrays of these, each paired with the static Swift type it is read as.
 */
module Cacheable {

  /** A Swift `Double`: finite, or one of the values JSON cannot represent. */
  datatype Double = Finite(x: real) | NaN | Infinity(negative: bool)

  datatype Value =
    | Str(s: string)
    | Int(i: int)
    | Bool(b: bool)
    | Num(d: Double)
    | Array(elements: seq<Value>)

  /** The Swift type a value is stored or requested as (`String`, `[Int]`, ...). */
  datatype Type =
    | StringType
    | IntType
    | BoolType
    | DoubleType
    | ArrayType(element: Type)

  /** True when `v` is a value of Swift type `t`; an empty array has every array type. */
  predicate HasType(v: Value, t: Type)
  {
    match (v, t)
    case (Str(_), StringType) => true
    case (Int(_), IntType) => true
    case (Bool(_), BoolType) => true
    case (Num(_), DoubleType) => true
    case (Array(es), ArrayType(et)) => forall e | e in es :: HasType(e, et)
    case _ => false
  }
}
