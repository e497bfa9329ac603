/** The JSON-shaped values that flow through the pipeline: extracted fields, the
    structured-extraction payload, the agents' findings and dumped issues. Objects are
    maps, as `json.loads` and `model_dump` produce them (the last duplicate key wins). */
module Json {
  import opened Wrappers

  datatype Value =
    | Null
    | Bool(b: bool)
    | Num(r: real)
    | Str(s: string)
    | Arr(items: seq<Value>)
    | Obj(fields: map<string, Value>)

  /** Python's `bool(v)`. */
  predicate Truthy(v: Value) {
    match v
    case Null => false
    case Bool(b) => b
    case Num(r) => r != 0.0
    case Str(s) => s != []
    case Arr(items) => items != []
    case Obj(fields) => fields != map[]
  }

  /** `v in (None, "", [])`: the values the merge step treats as a hole. */
  predicate IsHole(v: Value) {
    v == Null || v == Str("") || v == Arr([])
  }

  /** `d.get(key, default)` */
  function Get(d: map<string, Value>, key: string, default: Value): Value {
    if key in d then d[key] else default
  }

  /** Python's `v < 0.7` against a float: booleans compare as 0 and 1, numbers by value,
      and any other type raises `TypeError` (`None` here). */
  function LessThanSeventyPercent(v: Value): Option<bool> {
    match v
    case Num(x) => Some(x < 0.7)
    case Bool(b) => Some(!b)
    case _ => None
  }
}
