/** Cell and column values as the database driver returns them, with Python's
    truthiness and `str()` on each. */
module Values {
  import Dates
  import Decimal

  datatype Value =
    | Null                              // None
    | Bool(b: bool)
    | Int(i: int)
    | Text(s: string)
    | Day(d: Dates.CalendarDate)        // datetime.date
    | Other(repr: string, truthy: bool) // any other driver type (Decimal, float, datetime, ...)

  /** `bool(v)` in Python. */
  predicate Truthy(v: Value) {
    match v
    case Null => false
    case Bool(b) => b
    case Int(i) => i != 0
    case Text(s) => s != ""
    case Day(_) => true
    case Other(_, t) => t
  }

  /** `str(v)` in Python. */
  function Show(v: Value): string {
    match v
    case Null => "None"
    case Bool(b) => if b then "True" else "False"
    case Int(i) => Decimal.IntText(i)
    case Text(s) => s
    case Day(d) => Dates.IsoText(d)
    case Other(r, _) => r
  }
}
