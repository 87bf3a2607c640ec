/** The Python values a netlist carries as node and parameter values. Numbers other
    than `int` (floats such as `1000.0` or `1e-13`) and any other object are kept
    abstract: the text `str()` gives for them and whether Python finds them truthy. */
module Values {
  import opened Text

  datatype Value =
    | PyNone
    | PyInt(i: int)
    | PyStr(s: string)
    | PyOther(text: string, truthy: bool)

  /** A node names an electrical point: an integer or a symbolic name. */
  type Node = v: Value | v.PyInt? || v.PyStr? witness PyInt(0)

  /** Python's `bool(v)`. */
  predicate Truthy(v: Value)
  {
    match v
    case PyNone => false
    case PyInt(i) => i != 0
    case PyStr(s) => s != ""
    case PyOther(_, t) => t
  }

  /** Python's `str(v)`. */
  function Str(v: Value): string
  {
    match v
    case PyNone => "None"
    case PyInt(i) => IntToString(i)
    case PyStr(s) => s
    case PyOther(text, _) => text
  }

  /** Python's `repr(v)`, as a dataclass `repr` shows field values (no escaping of
      quotes inside strings). */
  function Repr(v: Value): string
  {
    match v
    case PyStr(s) => "'" + s + "'"
    case _ => Str(v)
  }

  /** `str(v)` carries no line break, space or `=` beyond those of the text it shows. */
  predicate Plain(s: string)
  {
    '\n' !in s && ' ' !in s && '=' !in s
  }
}
