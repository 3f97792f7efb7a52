/** Provider records as decoded JSON, and the Python operations the pipeline applies to them. */
module Json {
  import opened Results
  import Text

  datatype Json =
    | Null
    | Bool(b: bool)
    | Int(i: int)
    | Real(r: real)
    | Str(s: string)
    | Arr(items: seq<Json>)
    | Obj(fields: map<string, Json>)

  /** `j.get(key, default)`; `None` when `j` is not a dict (Python raises AttributeError). */
  function Get(j: Json, key: string, default: Json): Option<Json>
  {
    match j
    case Obj(fields) => Some(if key in fields then fields[key] else default)
    case _ => None
  }

  /** The outcome of `j[key]`. */
  datatype Lookup =
    | Found(value: Json)
    | KeyMissing        // KeyError
    | NotSubscriptable  // TypeError: `j` is not a dict

  function Index(j: Json, key: string): Lookup
  {
    match j
    case Obj(fields) => if key in fields then Found(fields[key]) else KeyMissing
    case _ => NotSubscriptable
  }

  /** `j[path[0]][path[1]]...`, stopping at the first failing subscript. */
  function Dig(j: Json, path: seq<string>): Lookup
  {
    if |path| == 0 then Found(j)
    else match Index(j, path[0])
      case Found(v) => Dig(v, path[1..])
      case failure => failure
  }

  /** Python's `int(j)`; `None` where Python raises TypeError or ValueError. */
  function PyInt(j: Json): Option<int>
  {
    match j
    case Int(i) => Some(i)
    case Bool(b) => Some(if b then 1 else 0)
    case Real(r) => Some(if r >= 0.0 then r.Floor else -((-r).Floor))
    case Str(s) => Text.ParseInt(s)
    case _ => None
  }

  /** The integer `j >> n` operates on; `None` where Python raises TypeError. */
  function ShiftOperand(j: Json): Option<int>
  {
    match j
    case Int(i) => Some(i)
    case Bool(b) => Some(if b then 1 else 0)
    case _ => None
  }
}
