/** Primitive option values and JavaScript truthiness over them. */
module Values {

  /** A value that may be absent (`undefined` in the plugin). */
  datatype Option<+T> = None | Some(value: T) {
    /** The value, or `default` when absent (the `x === undefined ? d : x` idiom). */
    function GetOr(default: T): T {
      if Some? then value else default
    }
  }

  /** What an option holds: a toggle, a number or a string.
      Numbers are modelled as unbounded integers. */
  datatype Value = Bool(b: bool) | Num(n: int) | Str(s: string)

  /** JavaScript truthiness: `false`, `0` and `""` are falsy, every other value is truthy. */
  predicate IsTruthy(v: Value)
    ensures IsTruthy(v) <==> v !in {Bool(false), Num(0), Str("")}
  {
    match v
    case Bool(b) => b
    case Num(n) => n != 0
    case Str(s) => s != ""
  }
}
