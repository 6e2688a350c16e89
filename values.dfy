/** JSON values as Python's `json` module hands them to the webhook handler,
    and the few Python built-ins the handler applies to them. */
module Values {

  /** A decoded JSON value. Objects lose their key order (only `str()` could
      observe it, and `str()` is a parameter of the model). */
  datatype Json =
    | Null
    | Bool(b: bool)
    | Int(i: int)
    | Float(x: real)
    | Str(s: string)
    | Arr(items: seq<Json>)
    | Obj(fields: map<string, Json>)

  /** Python truthiness: `None`, `False`, zero, and empty strings, lists and
      dicts are false; everything else is true. */
  predicate Truthy(j: Json)
  {
    match j
    case Null => false
    case Bool(b) => b
    case Int(i) => i != 0
    case Float(x) => x != 0.0
    case Str(s) => s != ""
    case Arr(items) => items != []
    case Obj(fields) => fields != map[]
  }

  /** `d.get(key, default)` on a decoded object. */
  function Get(d: map<string, Json>, key: string, default: Json): Json
  {
    if key in d then d[key] else default
  }

  /** Python `str(v)`: a string is returned as it is; any other value is
      rendered by `render`, which stands for Python's own representation. */
  function Show(j: Json, render: Json -> string): string
  {
    if j.Str? then j.s else render(j)
  }
}
