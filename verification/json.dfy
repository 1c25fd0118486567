/** JSON values as the scripts read them, and the field tables of JSON objects. */
module Json {
  datatype Json =
    | Null
    | Bool(b: bool)
    | Num(n: int)
    | Str(s: string)
    | Arr(items: seq<Json>)
    | Obj(members: seq<(string, Json)>)

  type Fields = map<string, Json>

  /** `d.get(key)`. */
  function Get(f: Fields, key: string): Json {
    if key in f then f[key] else Null
  }

  predicate Truthy(j: Json) {
    match j
    case Null => false
    case Bool(b) => b
    case Num(n) => n != 0
    case Str(s) => s != ""
    case Arr(items) => items != []
    case Obj(members) => members != []
  }

  /** `d[key] = value` on the members of an object. */
  function SetMember(members: seq<(string, Json)>, key: string, value: Json): seq<(string, Json)> {
    if members == [] then [(key, value)]
    else if members[0].0 == key then [(key, value)] + members[1..]
    else [members[0]] + SetMember(members[1..], key, value)
  }
}
