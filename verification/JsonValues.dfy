/** JSON documents, compared by value. Numbers are whole and a boolean is never equal to a number. */
module JsonValues {
  import opened Wrappers

  datatype Json =
    | Null
    | Bool(truth: bool)
    | Num(number: int)
    | Str(text: string)
    | Arr(items: seq<Json>)
    | Obj(fields: map<string, Json>)

  type Path = seq<string>

  /** The value at a path of object keys. */
  function Get(j: Json, path: Path): Option<Json> {
    if path == [] then Some(j)
    else if j.Obj? && path[0] in j.fields then Get(j.fields[path[0]], path[1..])
    else None
  }

  predicate HasKey(j: Json, key: string) {
    j.Obj? && key in j.fields
  }
}
