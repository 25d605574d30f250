/** The loosely typed values `json.loads` produces and the services inspect. */
module Json {

  /** A JSON value; Python's `int` and `float` both become `Num`. */
  datatype Json =
    | Null
    | Bool(b: bool)
    | Num(n: real)
    | Str(s: string)
    | Arr(items: seq<Json>)
    | Obj(fields: map<string, Json>)

  /** `isinstance(v, (int, float))`: in Python a `bool` is an `int`, so it passes. */
  predicate IsNumber(v: Json) {
    v.Num? || v.Bool?
  }

  /** The numeric value of a number (`True` is 1, `False` is 0). */
  function NumberValue(v: Json): real
    requires IsNumber(v)
  {
    if v.Num? then v.n else if v.b then 1.0 else 0.0
  }
}
