/** The parsed JSON document as Python holds it after `json.load`: nested
    lists and dicts of strings, numbers, booleans and None. */
module Json {

  datatype Val =
    | Null
    | Bool(b: bool)
    | Num(n: int)
    | Str(s: string)
    | Arr(items: seq<Val>)
    | Obj(fields: map<string, Val>)

  /** A Python dict with string keys, such as one database entry. */
  type Dict = map<string, Val>

  /** Python's truth value of a JSON value (`if value:`). */
  predicate Truthy(v: Val)
  {
    match v
    case Null => false
    case Bool(b) => b
    case Num(n) => n != 0
    case Str(s) => s != ""
    case Arr(items) => items != []
    case Obj(fields) => fields != map[]
  }
}
