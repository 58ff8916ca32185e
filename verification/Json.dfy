/** Unstructured objects: what encoding/json and the dynamic client decode into. */
module Json {

  /** A whole number decodes to int64 from a live cluster and to float64 elsewhere. */
  datatype Json =
    | Null
    | Bool(b: bool)
    | Int(i: int)
    | Float(r: real)
    | Str(s: string)
    | Arr(items: seq<Json>)
    | Obj(fields: map<string, Json>)

  /** A Go map read: an absent key reads as nil. */
  function Get(fields: map<string, Json>, k: string): Json {
    if k in fields then fields[k] else Null
  }
}
