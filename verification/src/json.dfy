/** JSON values as the backend stores them in `pattern` and settings columns. */
module Json {

  datatype Json =
    | JNull
    | JBool(b: bool)
    | JInt(i: int)
    | JStr(s: string)
    | JList(items: seq<Json>)
    | JObj(fields: map<string, Json>)

  type Object = map<string, Json>

  /** Python truthiness of a JSON value: null, false, 0, "" and empty containers are falsy. */
  predicate Truthy(j: Json) {
    match j
    case JNull => false
    case JBool(b) => b
    case JInt(i) => i != 0
    case JStr(s) => s != ""
    case JList(xs) => xs != []
    case JObj(m) => m != map[]
  }

  /** `dict.update`: keys of `overrides` win, every other key of `base` is kept. */
  function Update(base: Object, overrides: Object): (r: Object)
    ensures r.Keys == base.Keys + overrides.Keys
    ensures forall k :: k in overrides ==> r[k] == overrides[k]
    ensures forall k :: k in base && k !in overrides ==> r[k] == base[k]
  {
    map k | k in base.Keys + overrides.Keys :: if k in overrides then overrides[k] else base[k]
  }

  /** `d.setdefault(key, value)` on the dict: an existing key keeps its value. */
  function SetDefault(d: Object, key: string, value: Json): (r: Object)
    ensures key in r && r.Keys == d.Keys + {key}
    ensures key in d ==> r == d
    ensures key !in d ==> r[key] == value
    ensures forall k :: k in d ==> r[k] == d[k]
  {
    if key in d then d else d[key := value]
  }
}
