/** The JSON-like records that compounds, signatures and reactions are read as. */
module Json {

  /** A field value of a decoded JSON object (objects nested inside fields are not needed). */
  datatype Value =
    | Null
    | Bool(b: bool)
    | Int(i: int)
    | Real(r: real)
    | Str(s: string)
    | List(items: seq<Value>)

  /** A decoded JSON object: field name to value. */
  type Record = map<string, Value>

  /** An element of a decoded JSON list: either an object or some other value. */
  datatype Entry = Dict(fields: Record) | NonDict(v: Value)

  /** Python truthiness of a field value. */
  predicate Truthy(v: Value)
  {
    match v
    case Null => false
    case Bool(b) => b
    case Int(i) => i != 0
    case Real(r) => r != 0.0
    case Str(s) => s != ""
    case List(items) => items != []
  }

  /** `isinstance(v, int)`: a Python bool is an int too. */
  predicate IsPyInt(v: Value)
  {
    v.Int? || v.Bool?
  }

  function AsInt(v: Value): int
    requires IsPyInt(v)
  {
    if v.Int? then v.i else if v.b then 1 else 0
  }
}
