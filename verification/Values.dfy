/** Values that travel through the worker as Go `interface{}`. */
module Values {

  datatype Option<+T> = None | Some(value: T)

  /** A decoded JSON value. `Int` is the Go kind int, which code may put beside decoded float64. */
  datatype Json =
    | Null
    | Str(s: string)
    | Int(i: int)
    | Bool(b: bool)
    | Float(f: real)
    | List(items: seq<Json>)
    | Obj(fields: map<string, Json>)
}
