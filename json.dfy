/**
 * Decoded JSON values, the shape PHP's `json_decode($text, true)` produces:
 * objects become string-keyed maps. Non-integral numbers (ratings) are kept
 * as their literal text, since floating point is not part of this model.
 */
module Json {
  import opened Wrappers

  datatype Json =
    | JNull
    | JBool(b: bool)
    | JInt(n: int)
    | JNum(literal: string)
    | JStr(s: string)
    | JList(items: seq<Json>)
    | JObject(fields: map<string, Json>)
  {
    /** PHP's `is_array` on a decoded value: lists and objects. */
    predicate IsArray() {
      JList? || JObject?
    }
  }

  /** `$j[$k] ?? null`: the member k of an object, absent when missing or null. */
  function Field(j: Json, k: string): (r: Option<Json>)
    ensures r.Some? <==> j.JObject? && k in j.fields && j.fields[k] != JNull
    ensures r.Some? ==> r.value == j.fields[k]
  {
    if j.JObject? && k in j.fields && j.fields[k] != JNull then Some(j.fields[k]) else None
  }

  /** `$j[$k1][$k2] ?? null`. */
  function Field2(j: Json, k1: string, k2: string): Option<Json> {
    match Field(j, k1)
    case Some(inner) => Field(inner, k2)
    case None => None
  }

  /** A member read as a string, absent when missing, null or not a string. */
  function GetStr(j: Json, k: string): (r: Option<string>)
    ensures r.Some? ==> Field(j, k) == Some(JStr(r.value))
  {
    match Field(j, k)
    case Some(JStr(s)) => Some(s)
    case _ => None
  }

  /** A member read as an integer, absent when missing, null or not an integer. */
  function GetInt(j: Json, k: string): (r: Option<int>)
    ensures r.Some? ==> Field(j, k) == Some(JInt(r.value))
  {
    match Field(j, k)
    case Some(JInt(n)) => Some(n)
    case _ => None
  }

  /** The elements of a list member (`$j[$k] ?? []`), [] when it is not a list. */
  function GetList(j: Json, k: string): (r: seq<Json>)
    ensures r != [] ==> Field(j, k) == Some(JList(r))
  {
    match Field(j, k)
    case Some(JList(xs)) => xs
    case _ => []
  }
}
