/** Values shared by the whole model: the usual Option and Result wrappers and
    the JSON values that arrive in request bodies and device payloads. */
module Values {

  datatype Option<+T> = None | Some(value: T)

  datatype Result<+T, +E> = Ok(value: T) | Err(error: E)

  /** A decoded JSON value. Floating-point numbers are not part of the model. */
  datatype Json =
    | JNull
    | JBool(b: bool)
    | JInt(i: int)
    | JStr(s: string)
    | JArray(items: seq<Json>)
    | JObject(fields: map<string, Json>)

  /** The name Python gives to the type a decoded JSON value has. */
  function PyTypeName(j: Json): string
  {
    match j
    case JNull => "NoneType"
    case JBool(_) => "bool"
    case JInt(_) => "int"
    case JStr(_) => "str"
    case JArray(_) => "list"
    case JObject(_) => "dict"
  }
}
