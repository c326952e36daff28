/** JSON values as the collector and the API read them from configuration files,
    with the three Python operations applied to them everywhere: truthiness,
    `str()` and `int()`. */
module Values {
  import opened Base
  import opened Text

  /** A JSON value. A list or an object is kept only as its `str()` text, its
      length and which of the two it is: no code in the model looks inside one.
      Floats are not modelled. */
  datatype Value =
    | VNone
    | VBool(b: bool)
    | VInt(i: int)
    | VText(s: string)
    | VContainer(repr: string, size: nat, isObject: bool)

  /** A JSON object (a Python `dict` with `str` keys). */
  type Obj = map<string, Value>

  /** `o.get(key)`. */
  function Get(o: Obj, key: string): Value {
    if key in o then o[key] else VNone
  }

  /** `o.get(key, default)`. */
  function GetOr(o: Obj, key: string, default: Value): Value {
    if key in o then o[key] else default
  }

  /** Python truthiness: `bool(v)`. */
  predicate Truthy(v: Value) {
    match v
    case VNone => false
    case VBool(b) => b
    case VInt(i) => i != 0
    case VText(s) => s != []
    case VContainer(_, n, _) => n > 0
  }

  /** `a or b`. */
  function Or(a: Value, b: Value): (r: Value)
    ensures Truthy(r) <==> Truthy(a) || Truthy(b)
    ensures Truthy(a) ==> r == a
  {
    if Truthy(a) then a else b
  }

  /** `o.get("enabled", True)` is truthy: an entry without the flag is enabled. */
  predicate Enabled(o: Obj) {
    Truthy(GetOr(o, "enabled", VBool(true)))
  }

  /** A value Python can use as a `dict` key; lists and objects cannot. */
  predicate Hashable(v: Value) {
    !v.VContainer?
  }

  /** `str(v)`. */
  function Render(v: Value): string {
    match v
    case VNone => "None"
    case VBool(b) => if b then "True" else "False"
    case VInt(i) => IntText(i)
    case VText(s) => s
    case VContainer(repr, _, _) => repr
  }

  /** `int(v)`, or `None` where `int()` raises (`None`, a list, an object, or text
      that is not a base-10 integer). */
  function ToInt(v: Value): (r: Option<int>)
    ensures v.VInt? ==> r == Some(v.i)
    ensures v.VNone? || v.VContainer? ==> r.None?
  {
    match v
    case VNone => None
    case VBool(b) => Some(if b then 1 else 0)
    case VInt(i) => Some(i)
    case VText(s) => ParseInt(s)
    case VContainer(_, _, _) => None
  }
}
