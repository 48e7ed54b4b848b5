/**
 The values the record store holds once its stored text has been decoded with
 `JSON.parse`, and JavaScript truthiness on them.
 */
module Json {

  /** A medical record. Only `id` matters to the store; the other fields are
      carried along unchanged. */
  datatype Record = Record(id: string, fields: map<string, string>)

  /** A decoded JSON value. Arrays hold records; numbers are whole numbers. */
  datatype Value =
    | Null
    | Bool(b: bool)
    | Number(n: int)
    | Array(items: seq<Record>)
    | Object(members: map<string, string>)

  /** JavaScript truthiness: `null`, `false` and `0` are falsy; every array
      (even `[]`) and every object (even `{}`) is truthy. */
  predicate Truthy(v: Value) {
    match v
    case Null => false
    case Bool(b) => b
    case Number(n) => n != 0
    case Array(_) => true
    case Object(_) => true
  }
}
