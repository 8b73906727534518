/**
 * Dynamically typed Go values (`interface{}`) as the repository's maps and
 * query parameters carry them.
 */
module GoValues {
  import opened Wrappers

  /** A Go `float64`, kept as its IEEE-754 bit pattern; no float arithmetic is modelled. */
  type Float64 = bv64

  /** A Go `float32`, kept as its IEEE-754 bit pattern. */
  type Float32 = bv32

  /** The bit pattern of the float64 value 0.0 (positive zero). */
  const Zero: Float64 := 0

  /**
   * The dynamic type and value inside a Go `interface{}`: `Nil` is the nil
   * interface, `MapVal` a `map[string]interface{}`, `SliceVal` a
   * `[]interface{}`, and `Other` any value of a type the code does not
   * switch on (a `time.Time`, a `bool`, a typed map, ...), named by its type.
   */
  datatype Value =
    | Nil
    | Float64Val(f: Float64)
    | Float32Val(g: Float32)
    | IntVal(i: int)
    | StringVal(s: string)
    | MapVal(m: map<string, Value>)
    | SliceVal(items: seq<Value>)
    | Other(typeName: string, payload: seq<bv8>)

  /** `m[k]` on a Go map of interface values: a missing key reads as nil. */
  function Lookup(m: map<string, Value>, k: string): Value
  {
    if k in m then m[k] else Nil
  }
}
