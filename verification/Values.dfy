/** JavaScript values, as far as the code in this repository looks into them. */
module Values {

  /**
   * A finite number is represented by the shortest decimal text that
   * JavaScript prints for it, so printing it is the identity. NaN and the
   * infinities print alike in JSON and are one value here.
   */
  datatype Number = NonFinite | Finite(text: string)

  /** Objects keep their properties in insertion order. */
  datatype Value =
    | Undefined
    | Null
    | Bool(b: bool)
    | Number(n: Number)
    | Text(s: string)
    | Function
    | Date(iso: string)
    | Array(elems: seq<Value>)
    | Object(props: seq<Property>)

  datatype Property = Property(key: string, value: Value)
}
