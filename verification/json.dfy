/** The JSON-shaped value a save is stored as, and JavaScript truthiness on it.
    A key that is absent from an object is JavaScript's `undefined`; arrays are
    not part of this model (the default save holds none). */
module Json {
  import opened Wrappers

  datatype Json =
    | Null
    | Bool(b: bool)
    | Num(n: real)
    | Str(s: string)
    | Obj(fields: map<string, Json>)

  /** `!!v` in JavaScript: null, false, 0 and "" are falsy; every object,
      the empty one included, is truthy. */
  predicate Truthy(v: Json) {
    match v
    case Null => false
    case Bool(b) => b
    case Num(n) => n != 0.0
    case Str(s) => s != ""
    case Obj(_) => true
  }

  /** `{}` */
  const Empty: Json := Obj(map[])

  /** The value reached by following `path` key by key from `j`, as
      `j[path[0]][path[1]]…` reads it: None once a key is missing or a
      non-object stands in the way. */
  function Lookup(j: Json, path: seq<string>): Option<Json>
    decreases |path|
  {
    if path == [] then Some(j)
    else match j
      case Obj(m) => if path[0] in m then Lookup(m[path[0]], path[1..]) else None
      case _ => None
  }
}
