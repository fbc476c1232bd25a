/** The values the tutor reads out of the model's reply, and the failure-carrying
    result type shared by the extraction, the parse and the pipeline. */
module Json {

  /** A `Success`/`Failure` result; the failure carries the text that the handler
      reports as the `detalle` of its error payload (Python's `str(e)`). */
  datatype Result<+T> = Success(value: T) | Failure(error: string)

  /** A parsed JSON value, as far as the pipeline distinguishes it: `null`, a
      boolean, a string, and everything else (numbers, arrays, objects). */
  datatype JValue = JNull | JBool(b: bool) | JString(s: string) | JOther

  /** A parsed JSON object: its keys and their values (duplicate keys already
      resolved by the parser). */
  type JObject = map<string, JValue>

  /** Python's `d.get(key)`: the value when the key is present, nothing otherwise. */
  function Get(obj: JObject, key: string): (r: Option<JValue>)
    ensures r.Some? <==> key in obj
    ensures r.Some? ==> r.value == obj[key]
  {
    if key in obj then Some(obj[key]) else None
  }

  datatype Option<+T> = None | Some(value: T)
}
