/**
 Parsed JSON values as the Python code sees them. Text is parsed and printed elsewhere; this module
 keeps the distinctions the code tests: a boolean is not an integer, and an integer is not a float.
 */
module JsonValues {
  import opened Wrappers

  datatype Json =
    | Null
    | Bool(b: bool)
    | Int(n: int)
    | Float(r: real)
    | Str(s: string)
    | Arr(items: seq<Json>)
    | Obj(fields: map<string, Json>)

  /** The number a value counts as under Python's `==`: True is 1, False is 0. */
  function Number(j: Json): (r: Option<real>) {
    match j
    case Bool(b) => Some(if b then 1.0 else 0.0)
    case Int(n) => Some(n as real)
    case Float(r) => Some(r)
    case _ => None
  }

  /** Python's `==` on parsed values: numbers compare by value across types, containers member by member. */
  predicate PyEq(x: Json, y: Json) {
    match (x, y)
    case (Null, Null) => true
    case (Str(a), Str(b)) => a == b
    case (Arr(a), Arr(b)) => |a| == |b| && forall i | 0 <= i < |a| :: PyEq(a[i], b[i])
    case (Obj(a), Obj(b)) => a.Keys == b.Keys && forall k | k in a :: PyEq(a[k], b[k])
    case (_, _) => Number(x).Some? && Number(x) == Number(y)
  }

  /** `value.get(key)`; None also stands for a value that is not an object. */
  function Get(j: Json, key: string): (r: Option<Json>) {
    if j.Obj? && key in j.fields then Some(j.fields[key]) else None
  }

  predicate IsStr(o: Option<Json>) {
    o.Some? && o.value.Str?
  }

  predicate IsNonemptyStr(o: Option<Json>) {
    IsStr(o) && o.value.s != ""
  }

  /** `value.get(key) is None` */
  predicate IsAbsentOrNull(o: Option<Json>) {
    o.None? || o.value.Null?
  }

  predicate HasText(j: Json, key: string, text: string) {
    Get(j, key) == Some(Str(text))
  }
}
