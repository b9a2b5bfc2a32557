/** JSON documents as the service returns them, and the small wrappers the model uses. */
module JsonValues {

  /** A parsed JSON value. An object keeps its pairs in insertion order, as a Python dict does. */
  datatype Json =
    | JNull
    | JBool(b: bool)
    | JNum(n: int)
    | JStr(s: string)
    | JArr(elems: seq<Json>)
    | JObj(fields: seq<(string, Json)>)

  /** The pairs of a JSON object or of a Python dict, in insertion order. */
  type Items = seq<(string, Json)>

  datatype Option<T> = None | Some(value: T)

  datatype Result<T, E> = Ok(value: T) | Err(error: E)
}
